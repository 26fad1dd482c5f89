/** One round of tool calls: the executor bridge, the authorization split, and the two
    ways in which results are matched to calls. HandleMessage matches by position,
    HandleMessageStream by id. */
module ToolRound {
  import opened Conversation
  import opened Options
  import opened Selection
  import opened SessionState
  import Text

  datatype Verdict = Allow | Block(reason: string) | Prompt(reason: string)

  datatype ToolOutput = ToolOutput(isError: bool, error: string, content: seq<string>)

  /** What the executor sends back for one tool_use id. */
  datatype Response = Response(id: string, output: Option<ToolOutput>, failed: bool)

  datatype Result = Result(callId: string, toolName: string, text: string, failed: bool, ephemeral: bool)

  ghost predicate DistinctIds(calls: seq<ToolCall>) {
    forall i, j :: 0 <= i < j < |calls| ==> calls[i].id != calls[j].id
  }

  // ----- the executor bridge -----

  const MISSING := "tool execution did not return a result (sandbox or executor failure — check gateway logs)"
  const RETRY_HINT := "\n[Analyze the error above and try a different approach.]"

  function JoinNonEmpty(parts: seq<string>): string {
    if parts == [] then ""
    else if parts[0] == "" then JoinNonEmpty(parts[1..])
    else
      var rest := JoinNonEmpty(parts[1..]);
      if rest == "" then parts[0] else parts[0] + "\n" + rest
  }

  function Render(c: ToolCall, r: Response, ephemeral: bool): Result {
    if r.output.Some? && r.output.value.isError then
      var o := r.output.value;
      var text := if o.error == "" && o.content != [] then o.content[0] else o.error;
      Result(r.id, c.name, text + RETRY_HINT, true, ephemeral)
    else
      Result(r.id, c.name, if r.output.Some? then JoinNonEmpty(r.output.value.content) else "", r.failed, ephemeral)
  }

  /** The last response for an id: later ones overwrite earlier ones. */
  function LastFor(responses: seq<Response>, id: string): (r: Option<Response>)
    ensures r.Some? ==> r.value in responses && r.value.id == id
    ensures r.None? ==> forall x :: x in responses ==> x.id != id
  {
    if responses == [] then None
    else
      var n := |responses| - 1;
      if responses[n].id == id then Some(responses[n]) else LastFor(responses[..n], id)
  }

  /** The result that belongs to an executed call. */
  function Executed(c: ToolCall, responses: seq<Response>, ephemeral: string -> bool): (r: Result)
    ensures r.callId == c.id && r.toolName == c.name && r.ephemeral == ephemeral(c.name)
  {
    match LastFor(responses, c.id)
    case None => Result(c.id, c.name, MISSING, true, ephemeral(c.name))
    case Some(resp) => Render(c, resp, ephemeral(c.name))
  }

  predicate NonEmpty(part: string) {
    part != ""
  }

  lemma {:induction false} JoinedIsEmptyIff(parts: seq<string>)
    requires forall i :: 0 <= i < |parts| ==> parts[i] != ""
    ensures Text.Join(parts, "\n") == "" <==> parts == []
  {}

  /** text is the non-empty parts, in order, with a newline between each two. */
  ghost predicate JoinsNonEmpty(text: string, parts: seq<string>) {
    exists picked :: NonEmptyOf(picked, parts) && text == Text.Join(picked, "\n")
  }

  ghost predicate NonEmptyOf(picked: seq<string>, parts: seq<string>) {
    Selects(picked, parts, NonEmpty)
  }

  lemma {:induction false} NonEmptyFront(picked: seq<string>, parts: seq<string>)
    requires parts != [] && NonEmptyOf(picked, parts[1..])
    ensures NonEmptyOf(if parts[0] == "" then picked else [parts[0]] + picked, parts)
    ensures forall i :: 0 <= i < |picked| ==> picked[i] != ""
  {
    SelectsFront(picked, parts[1..], NonEmpty, parts[0]);
    assert [parts[0]] + parts[1..] == parts;
    SelectedIff(picked, parts[1..], NonEmpty);
    forall i | 0 <= i < |picked| ensures picked[i] != "" { assert picked[i] in picked; }
  }

  lemma {:induction false} JoinsAre(parts: seq<string>) returns (picked: seq<string>)
    ensures NonEmptyOf(picked, parts) && JoinNonEmpty(parts) == Text.Join(picked, "\n")
  {
    if parts == [] {
      picked := [];
      SelectsNothing(NonEmpty);
    } else {
      var rest := JoinsAre(parts[1..]);
      NonEmptyFront(rest, parts);
      JoinedIsEmptyIff(rest);
      picked := if parts[0] == "" then rest else [parts[0]] + rest;
      assert ([parts[0]] + rest)[1..] == rest;
    }
  }

  /** r is the last response with the id. */
  ghost predicate IsLastFor(responses: seq<Response>, id: string, r: Response) {
    exists i :: 0 <= i < |responses| && responses[i] == r && r.id == id
                && forall j :: i < j < |responses| ==> responses[j].id != id
  }

  lemma {:induction false} LastForIsLast(responses: seq<Response>, id: string)
    requires LastFor(responses, id).Some?
    ensures IsLastFor(responses, id, LastFor(responses, id).value)
  {
    var n := |responses| - 1;
    if responses[n].id != id {
      LastForIsLast(responses[..n], id);
      var r := LastFor(responses, id).value;
      var i :| 0 <= i < n && responses[..n][i] == r && r.id == id && forall j :: i < j < n ==> responses[..n][j].id != id;
      forall j | i < j < |responses| ensures responses[j].id != id {
        if j < n { assert responses[..n][j] == responses[j]; }
      }
      assert responses[i] == r;
    }
  }

  /** What the model reads for an executed call: without a response, that there was none; an
      error, or else the first part, with the hint behind it; otherwise the non-empty parts. */
  lemma {:induction false} ExecutedTexts(c: ToolCall, responses: seq<Response>, ephemeral: string -> bool)
    ensures var e := Executed(c, responses, ephemeral);
            && ((forall x :: x in responses ==> x.id != c.id) ==> e.failed && e.text == MISSING)
            && forall r :: IsLastFor(responses, c.id, r) ==>
                 match r.output
                 case None => e.text == "" && e.failed == r.failed
                 case Some(o) =>
                   if o.isError then
                     && e.failed
                     && e.text == (if o.error == "" && o.content != [] then o.content[0] else o.error) + RETRY_HINT
                   else JoinsNonEmpty(e.text, o.content) && e.failed == r.failed
  {
    forall r | IsLastFor(responses, c.id, r) ensures LastFor(responses, c.id) == Some(r) {
      SameLast(responses, c.id, r);
    }
    var last := LastFor(responses, c.id);
    if last.Some? && last.value.output.Some? { var _ := JoinsAre(last.value.output.value.content); }
  }

  lemma {:induction false} SameLast(responses: seq<Response>, id: string, r: Response)
    requires IsLastFor(responses, id, r)
    ensures LastFor(responses, id) == Some(r)
  {
    assert r in responses;
    LastForIsLast(responses, id);
    var s := LastFor(responses, id).value;
    var i :| 0 <= i < |responses| && responses[i] == r && forall j :: i < j < |responses| ==> responses[j].id != id;
    var k :| 0 <= k < |responses| && responses[k] == s && forall j :: k < j < |responses| ==> responses[j].id != id;
  }

  /** Only which response carries an id matters, not where it stands among the others. */
  lemma {:induction false} OrderOfResponsesIsIrrelevant(c: ToolCall, r: seq<Response>, s: seq<Response>, ephemeral: string -> bool)
    requires forall i, j :: 0 <= i < j < |s| ==> s[i].id != s[j].id
    requires forall x :: x in r <==> x in s
    ensures Executed(c, r, ephemeral) == Executed(c, s, ephemeral)
  {
    var a, b := LastFor(r, c.id), LastFor(s, c.id);
    if a.Some? {
      assert a.value in s;
      var i :| 0 <= i < |s| && s[i] == a.value;
      var j :| 0 <= j < |s| && s[j] == b.value;
    }
  }

  /** Results in the order of the calls, looked up by id; absent ones become failures. */
  method ExecuteToolsConcurrently(calls: seq<ToolCall>, responses: seq<Response>, ephemeral: string -> bool)
    returns (results: seq<Result>)
    ensures |results| == |calls|
    ensures forall i :: 0 <= i < |calls| ==> results[i] == Executed(calls[i], responses, ephemeral)
  {
    var byId: map<string, Response> := map[];
    for i := 0 to |responses|
      invariant forall id :: id in byId <==> LastFor(responses[..i], id).Some?
      invariant forall id :: id in byId ==> byId[id] == LastFor(responses[..i], id).value
    {
      assert responses[..i + 1][..i] == responses[..i];
      byId := byId[responses[i].id := responses[i]];
    }
    assert responses[..|responses|] == responses;
    results := [];
    for i := 0 to |calls|
      invariant |results| == i
      invariant forall k :: 0 <= k < i ==> results[k] == Executed(calls[k], responses, ephemeral)
    {
      var c := calls[i];
      if c.id in byId {
        results := results + [Render(c, byId[c.id], ephemeral(c.name))];
      } else {
        results := results + [Result(c.id, c.name, MISSING, true, ephemeral(c.name))];
      }
    }
  }

  // ----- the authorization split -----

  function AllowedOf(calls: seq<ToolCall>, verdict: ToolCall -> Verdict): seq<ToolCall> {
    if calls == [] then [] else
      var n := |calls| - 1;
      var front := AllowedOf(calls[..n], verdict);
      if verdict(calls[n]).Allow? then front + [calls[n]] else front
  }

  function StoppedOf(calls: seq<ToolCall>, verdict: ToolCall -> Verdict): seq<ToolCall> {
    if calls == [] then [] else
      var n := |calls| - 1;
      var front := StoppedOf(calls[..n], verdict);
      if verdict(calls[n]).Allow? then front else front + [calls[n]]
  }

  function PromptedOf(calls: seq<ToolCall>, verdict: ToolCall -> Verdict): seq<ToolCall> {
    if calls == [] then [] else
      var n := |calls| - 1;
      var front := PromptedOf(calls[..n], verdict);
      if verdict(calls[n]).Prompt? then front + [calls[n]] else front
  }

  function IsAllowed(verdict: ToolCall -> Verdict): ToolCall -> bool {
    (c: ToolCall) => verdict(c).Allow?
  }

  function IsStopped(verdict: ToolCall -> Verdict): ToolCall -> bool {
    (c: ToolCall) => !verdict(c).Allow?
  }

  function IsPrompted(verdict: ToolCall -> Verdict): ToolCall -> bool {
    (c: ToolCall) => verdict(c).Prompt?
  }

  ghost predicate Picks(picked: seq<ToolCall>, calls: seq<ToolCall>, which: ToolCall -> bool) {
    Selects(picked, calls, which)
  }

  lemma {:induction false} PicksNext(picked: seq<ToolCall>, front: seq<ToolCall>, which: ToolCall -> bool, c: ToolCall)
    requires Picks(picked, front, which)
    ensures which(c) ==> Picks(picked + [c], front + [c], which)
    ensures !which(c) ==> Picks(picked, front + [c], which)
  {
    SelectsNext(picked, front, which, c);
  }

  lemma {:induction false} PicksNothing(which: ToolCall -> bool)
    ensures Picks([], [], which)
  {
    SelectsNothing(which);
  }

  /** The split by verdict: each part holds its calls in order, and misses none. */
  lemma {:induction false} SplitSelects(calls: seq<ToolCall>, verdict: ToolCall -> Verdict)
    ensures Picks(AllowedOf(calls, verdict), calls, IsAllowed(verdict))
    ensures Picks(StoppedOf(calls, verdict), calls, IsStopped(verdict))
    ensures Picks(PromptedOf(calls, verdict), calls, IsPrompted(verdict))
  {
    if calls == [] {
      PicksNothing(IsAllowed(verdict));
      PicksNothing(IsStopped(verdict));
      PicksNothing(IsPrompted(verdict));
    } else {
      var n := |calls| - 1;
      assert calls[..n] + [calls[n]] == calls;
      SplitSelects(calls[..n], verdict);
      PicksNext(AllowedOf(calls[..n], verdict), calls[..n], IsAllowed(verdict), calls[n]);
      PicksNext(StoppedOf(calls[..n], verdict), calls[..n], IsStopped(verdict), calls[n]);
      PicksNext(PromptedOf(calls[..n], verdict), calls[..n], IsPrompted(verdict), calls[n]);
    }
  }

  /** The synthetic result of a call that was blocked or parked. */
  function Stopped(c: ToolCall, verdict: ToolCall -> Verdict): (r: Result)
    ensures r.callId == c.id && r.toolName == c.name && !r.ephemeral && !r.failed
    ensures verdict(c).Block? ==> "BLOCKED: " <= r.text && verdict(c).reason == r.text[9..]
    ensures verdict(c).Prompt? ==> "Authorization required: " <= r.text && verdict(c).reason == r.text[24..]
  {
    var text := match verdict(c)
      case Allow => ""
      case Block(reason) => "BLOCKED: " + reason
      case Prompt(reason) => "Authorization required: " + reason;
    Result(c.id, c.name, text, false, false)
  }

  function StoppedById(calls: seq<ToolCall>, verdict: ToolCall -> Verdict): map<string, Result> {
    if calls == [] then map[] else
      var n := |calls| - 1;
      var m := StoppedById(calls[..n], verdict);
      if verdict(calls[n]).Allow? then m else m[calls[n].id := Stopped(calls[n], verdict)]
  }

  /** Runs the gate over a batch; calls that need the user are parked on the session. */
  method FilterAuthorizedCalls(sess: Session, calls: seq<ToolCall>, verdict: ToolCall -> Verdict)
    returns (toExec: seq<ToolCall>, blocked: map<string, Result>)
    modifies sess`pendingCalls
    ensures toExec == AllowedOf(calls, verdict)
    ensures blocked == StoppedById(calls, verdict)
    ensures sess.pendingCalls == old(sess.pendingCalls) + PromptedOf(calls, verdict)
  {
    toExec, blocked := [], map[];
    var waiting: seq<ToolCall> := [];
    for i := 0 to |calls|
      invariant toExec == AllowedOf(calls[..i], verdict)
      invariant blocked == StoppedById(calls[..i], verdict)
      invariant waiting == PromptedOf(calls[..i], verdict)
    {
      var c := calls[i];
      assert calls[..i + 1][..i] == calls[..i];
      if verdict(c).Allow? {
        toExec := toExec + [c];
      } else {
        if verdict(c).Prompt? {
          waiting := waiting + [c];
        }
        blocked := blocked[c.id := Stopped(c, verdict)];
      }
    }
    assert calls[..|calls|] == calls;
    if |waiting| > 0 {
      sess.PushPendingCalls(waiting);
    }
  }

  lemma {:induction false} SplitCounts(calls: seq<ToolCall>, verdict: ToolCall -> Verdict)
    ensures |AllowedOf(calls, verdict)| + |StoppedOf(calls, verdict)| == |calls|
    ensures |StoppedById(calls, verdict)| <= |StoppedOf(calls, verdict)|
  {
    if calls != [] { SplitCounts(calls[..|calls| - 1], verdict); }
  }

  lemma {:induction false} SplitMembers(calls: seq<ToolCall>, verdict: ToolCall -> Verdict)
    ensures forall c :: c in AllowedOf(calls, verdict) <==> c in calls && verdict(c).Allow?
    ensures forall c :: c in StoppedOf(calls, verdict) <==> c in calls && !verdict(c).Allow?
  {
    if calls != [] {
      var n := |calls| - 1;
      SplitMembers(calls[..n], verdict);
      assert calls == calls[..n] + [calls[n]];
    }
  }

  lemma {:induction false} StoppedByIdOnlyHolds(calls: seq<ToolCall>, verdict: ToolCall -> Verdict, id: string)
    requires id in StoppedById(calls, verdict)
    ensures exists c :: c in StoppedOf(calls, verdict) && c.id == id && StoppedById(calls, verdict)[id] == Stopped(c, verdict)
  {
    var n := |calls| - 1;
    if id != calls[n].id || verdict(calls[n]).Allow? {
      StoppedByIdOnlyHolds(calls[..n], verdict, id);
      var c :| c in StoppedOf(calls[..n], verdict) && c.id == id && StoppedById(calls[..n], verdict)[id] == Stopped(c, verdict);
      assert c in StoppedOf(calls, verdict);
    } else {
      assert calls[n] in StoppedOf(calls, verdict);
    }
  }

  /** A map with as many entries as there are stopped calls holds the result of each. */
  lemma {:induction false} StoppedByIdIsComplete(calls: seq<ToolCall>, verdict: ToolCall -> Verdict)
    requires |StoppedById(calls, verdict)| == |StoppedOf(calls, verdict)|
    ensures forall c :: c in StoppedOf(calls, verdict) ==>
              c.id in StoppedById(calls, verdict) && StoppedById(calls, verdict)[c.id] == Stopped(c, verdict)
  {
    if calls != [] {
      var n := |calls| - 1;
      SplitCounts(calls[..n], verdict);
      if verdict(calls[n]).Allow? {
        StoppedByIdIsComplete(calls[..n], verdict);
      } else {
        var m := StoppedById(calls[..n], verdict);
        assert |m[calls[n].id := Stopped(calls[n], verdict)]| == if calls[n].id in m then |m| else |m| + 1;
        StoppedByIdIsComplete(calls[..n], verdict);
      }
    }
  }

  lemma {:induction false} DistinctIdsCount(calls: seq<ToolCall>, verdict: ToolCall -> Verdict)
    requires DistinctIds(calls)
    ensures |StoppedById(calls, verdict)| == |StoppedOf(calls, verdict)|
  {
    if calls != [] {
      DistinctIdsCount(calls[..|calls| - 1], verdict);
      NewIdIsAbsent(calls, verdict);
    }
  }

  lemma {:induction false} NewIdIsAbsent(calls: seq<ToolCall>, verdict: ToolCall -> Verdict)
    requires DistinctIds(calls) && calls != []
    ensures calls[|calls| - 1].id !in StoppedById(calls[..|calls| - 1], verdict)
  {
    var n := |calls| - 1;
    SplitMembers(calls[..n], verdict);
    if calls[n].id in StoppedById(calls[..n], verdict) {
      StoppedByIdOnlyHolds(calls[..n], verdict, calls[n].id);
    }
  }

  // ----- HandleMessage: matching by position -----

  /** A batch of tool calls with everything that decides its results: the parallel cap
      (0 for none), the gate, the executor's responses, the registry's ephemeral tools. */
  datatype Batch = Batch(calls: seq<ToolCall>, cap: nat, verdict: ToolCall -> Verdict,
                         responses: seq<Response>, ephemeral: string -> bool) {

    /** The calls looked at this round; the rest is deferred. */
    function Looked(): (r: seq<ToolCall>)
      ensures |r| <= |calls| && r == calls[..|r|]
      ensures |r| == |calls| || |r| == cap > 0
      ensures cap > 0 ==> |r| <= cap
    {
      if cap > 0 && |calls| > cap then calls[..cap] else calls
    }

    function Allowed(): seq<ToolCall> { AllowedOf(Looked(), verdict) }

    function Stops(): seq<ToolCall> { StoppedOf(Looked(), verdict) }

    /** The i-th result: the executed ones in call order, then the stopped ones in the
        order of the map iteration, then the deferred ones. */
    function PartAt(order: seq<Result>, i: nat): Result
      requires i < |calls| && |Allowed()| + |order| == |Looked()|
    {
      if i < |Allowed()| then Executed(Allowed()[i], responses, ephemeral)
      else if i < |Looked()| then order[i - |Allowed()|]
      else Deferred(calls[i])
    }

    /** The result that the k-th call ought to get. */
    function Intended(k: nat): (r: Result)
      requires k < |calls|
      ensures r.callId == calls[k].id
    {
      if |Looked()| <= k then Deferred(calls[k])
      else if verdict(calls[k]).Allow? then Executed(calls[k], responses, ephemeral)
      else Stopped(calls[k], verdict)
    }

    /** order holds the result of every stopped call, and nothing else. */
    ghost predicate ListsStopped(order: seq<Result>) {
      && |Allowed()| + |order| == |Looked()|
      && (forall c :: c in Stops() ==> Stopped(c, verdict) in order)
      && (forall r :: r in order ==> IsStopped(r))
    }

    ghost predicate IsStopped(r: Result) {
      exists c :: c in Stops() && r == Stopped(c, verdict)
    }

    /** Everything HandleMessage may hold as the results, over all iteration orders of
        the map of stopped calls. */
    ghost predicate MayResult(results: seq<Result>) {
      exists order :: ListsStopped(order) && Assembled(order, results)
    }

    ghost predicate Assembled(order: seq<Result>, results: seq<Result>) {
      && |Allowed()| + |order| == |Looked()| && |results| == |calls|
      && forall i :: 0 <= i < |calls| ==> results[i] == PartAt(order, i)
    }

    /** What an oversized cut of stopped results leads to: realigned by id, each the result
        intended for a call with that id, with an ephemeral result only where an executed
        ephemeral call has the id. */
    ghost predicate Realigned(results: seq<Result>) {
      && Coherent(results) && (forall r :: r in results ==> IntendedForSome(r))
      && forall r :: r in results && r.ephemeral ==> RunsEphemeral(r.callId)
    }

    ghost predicate IntendedForSome(r: Result) {
      exists j :: 0 <= j < |calls| && r == Intended(j)
    }

    ghost predicate RunsEphemeral(id: string) {
      exists k :: 0 <= k < |Allowed()| && ephemeral(Allowed()[k].name) && Allowed()[k].id == id
    }

    /** What a round may end with: an assembled list or, when stopped calls share an id and
        the list came out short, a realigned one. */
    ghost predicate Admits(results: seq<Result>) {
      && |results| == |calls| && (MayResult(results) || Realigned(results))
      && (DistinctIds(calls) ==> MayResult(results))
    }

    ghost predicate ListsExecuted(executed: seq<Result>) {
      && |executed| == |Allowed()|
      && forall i :: 0 <= i < |executed| ==> executed[i] == Executed(Allowed()[i], responses, ephemeral)
    }

    ghost predicate ListsValues(order: seq<Result>) {
      var m := StoppedById(Looked(), verdict);
      && |order| == |m| && (forall id :: id in m ==> m[id] in order)
      && (forall r :: r in order ==> exists id :: id in m && m[id] == r)
    }

    ghost predicate ListsDeferred(deferred: seq<Result>) {
      && |deferred| == |calls| - |Looked()|
      && forall i :: 0 <= i < |deferred| ==> deferred[i] == Deferred(calls[|Looked()| + i])
    }

    /** The k-th result is about the k-th call. */
    ghost predicate Coherent(results: seq<Result>) {
      |results| == |calls| && forall k :: 0 <= k < |calls| ==> results[k].callId == calls[k].id
    }

    ghost predicate AllButLastAllowed() {
      forall i :: 0 <= i < |Looked()| - 1 ==> verdict(calls[i]).Allow?
    }

    /** Every call that is persisted gets a result that is persisted. */
    ghost predicate Covers(results: seq<Result>) {
      |results| == |calls| && forall k :: 0 <= k < |calls| && !ephemeral(calls[k].name) ==> !results[k].ephemeral
    }

    /** byId holds the results of the first n executed calls, each under its id. */
    ghost predicate IndexesExecuted(byId: map<string, Result>, n: int)
      requires n <= |Allowed()|
    {
      && (forall id :: id in byId ==>
            exists j :: 0 <= j < n && Allowed()[j].id == id && byId[id] == Executed(Allowed()[j], responses, ephemeral))
      && (forall j :: 0 <= j < n ==> Allowed()[j].id in byId)
    }

    /** m has a result for the k-th call, and with distinct ids the intended one. */
    ghost predicate Finds(m: map<string, Result>, k: nat)
      requires k < |calls|
    {
      && calls[k].id in m && m[calls[k].id].callId == calls[k].id
      && (DistinctIds(calls) ==> m[calls[k].id] == Intended(k))
    }

    ghost predicate NoneEphemeral() {
      forall c :: c in calls ==> !ephemeral(c.name)
    }

    /** No executed ephemeral call has slid down to the position of a persisted one. */
    ghost predicate EphemeralInPlace() {
      forall k :: 0 <= k < |Allowed()| && ephemeral(Allowed()[k].name) ==> k < |calls| && ephemeral(calls[k].name)
    }
  }

  function Deferred(c: ToolCall): (r: Result)
    ensures r.callId == c.id && r.toolName == c.name && !r.ephemeral
  {
    Result(c.id, c.name, "Deferred", false, false)
  }

  method ValuesInSomeOrder(m: map<string, Result>) returns (values: seq<Result>)
    ensures |values| == |m|
    ensures forall id :: id in m ==> m[id] in values
    ensures forall r :: r in values ==> exists id :: id in m && m[id] == r
  {
    values := [];
    var keys := m.Keys;
    while keys != {}
      invariant keys <= m.Keys && |values| + |keys| == |m|
      invariant forall id :: id in m && id !in keys ==> m[id] in values
      invariant forall r :: r in values ==> exists id :: id in m && m[id] == r
      decreases keys
    {
      var id :| id in keys;
      keys := keys - {id};
      values := values + [m[id]];
    }
  }

  lemma {:induction false} OrderListsStopped(b: Batch, order: seq<Result>)
    requires b.ListsValues(order) && |b.Allowed()| + |order| == |b.Looked()|
    ensures b.ListsStopped(order)
  {
    var m := StoppedById(b.Looked(), b.verdict);
    SplitCounts(b.Looked(), b.verdict);
    StoppedByIdIsComplete(b.Looked(), b.verdict);
    forall r | r in order ensures b.IsStopped(r) {
      var id :| id in m && m[id] == r;
      StoppedByIdOnlyHolds(b.Looked(), b.verdict, id);
    }
  }

  lemma {:induction false} ConcatenationIsAssembled(b: Batch, executed: seq<Result>, order: seq<Result>, deferred: seq<Result>)
    requires b.ListsExecuted(executed) && |b.Allowed()| + |order| == |b.Looked()| && b.ListsDeferred(deferred)
    ensures b.Assembled(order, executed + order + deferred)
  {
    var results := executed + order + deferred;
    forall i | 0 <= i < |b.calls| ensures results[i] == b.PartAt(order, i) {
      if i < |executed| {
        assert results[i] == executed[i];
      } else if i < |b.Looked()| {
        assert results[i] == order[i - |executed|];
      } else {
        assert results[i] == deferred[i - |b.Looked()|];
      }
    }
  }

  /** Only executed results are ever ephemeral. */
  lemma {:induction false} EphemeralIsExecuted(b: Batch, executed: seq<Result>, order: seq<Result>, deferred: seq<Result>,
                                               r: Result)
    requires b.ListsExecuted(executed) && b.ListsValues(order) && b.ListsDeferred(deferred)
    requires r in executed + order + deferred && r.ephemeral
    ensures b.RunsEphemeral(r.callId)
  {
    var m := StoppedById(b.Looked(), b.verdict);
    if r in order {
      var id :| id in m && m[id] == r;
      StoppedByIdOnlyHolds(b.Looked(), b.verdict, id);
    }
    assert r in executed;
    var k :| 0 <= k < |executed| && executed[k] == r;
    assert b.Allowed()[k].id == r.callId;
  }

  /** The cap on parallel calls: the calls looked at, and the results of those put off. */
  method ApplyCap(b: Batch) returns (executeCalls: seq<ToolCall>, deferred: seq<Result>)
    ensures executeCalls == b.Looked() && |deferred| == |b.calls| - |b.Looked()|
    ensures forall i :: 0 <= i < |deferred| ==> deferred[i] == Deferred(b.calls[|b.Looked()| + i])
  {
    executeCalls := b.calls;
    var deferredCalls: seq<ToolCall> := [];
    if b.cap > 0 && |b.calls| > b.cap {
      executeCalls := b.calls[..b.cap];
      deferredCalls := b.calls[b.cap..];
    }
    deferred := seq(|deferredCalls|, i requires 0 <= i < |deferredCalls| => Deferred(deferredCalls[i]));
  }

  /** One result per call, whatever the model, the gate and the executor did: assembled, or
      realigned by id. */
  method RoundResults(sess: Session, b: Batch) returns (results: seq<Result>)
    modifies sess`pendingCalls
    ensures b.Admits(results)
    ensures sess.pendingCalls == old(sess.pendingCalls) + PromptedOf(b.Looked(), b.verdict)
  {
    var executeCalls, deferred := ApplyCap(b);
    var toExec, blocked := FilterAuthorizedCalls(sess, executeCalls, b.verdict);
    var executed := ExecuteToolsConcurrently(toExec, b.responses, b.ephemeral);
    var order := ValuesInSomeOrder(blocked);
    results := executed + order + deferred;
    if |results| < |b.calls| {
      results := PadById(b.calls, results);
      RealignedMeets(b, executed, order, deferred, results);
    } else {
      AssembledMeets(b, executed, order, deferred);
    }
  }

  lemma {:induction false} AssembledMeets(b: Batch, executed: seq<Result>, order: seq<Result>, deferred: seq<Result>)
    requires b.ListsExecuted(executed) && b.ListsValues(order) && b.ListsDeferred(deferred)
    requires |executed + order + deferred| >= |b.calls|
    ensures b.Admits(executed + order + deferred)
  {
    SplitCounts(b.Looked(), b.verdict);
    OrderListsStopped(b, order);
    ConcatenationIsAssembled(b, executed, order, deferred);
  }

  lemma {:induction false} LookedIsIntended(b: Batch, c: ToolCall) returns (j: nat)
    requires c in b.Looked()
    ensures j < |b.calls| && b.calls[j] == c
    ensures b.Intended(j) == if b.verdict(c).Allow? then Executed(c, b.responses, b.ephemeral) else Stopped(c, b.verdict)
  {
    j :| 0 <= j < |b.Looked()| && b.Looked()[j] == c;
  }

  /** Whatever the round holds is the result intended for one of its calls. */
  lemma {:induction false} ListedIsIntended(b: Batch, executed: seq<Result>, order: seq<Result>, deferred: seq<Result>, r: Result)
    requires b.ListsExecuted(executed) && b.ListsValues(order) && b.ListsDeferred(deferred) && r in executed + order + deferred
    ensures b.IntendedForSome(r)
  {
    SplitMembers(b.Looked(), b.verdict);
    if r in executed {
      var i :| 0 <= i < |executed| && executed[i] == r;
      assert b.Allowed()[i] in b.Allowed();
      var _ := LookedIsIntended(b, b.Allowed()[i]);
    } else if r in order {
      var m := StoppedById(b.Looked(), b.verdict);
      var id :| id in m && m[id] == r;
      StoppedByIdOnlyHolds(b.Looked(), b.verdict, id);
      var c :| c in StoppedOf(b.Looked(), b.verdict) && m[id] == Stopped(c, b.verdict);
      var _ := LookedIsIntended(b, c);
    } else {
      var i :| 0 <= i < |deferred| && deferred[i] == r;
      assert r == b.Intended(|b.Looked()| + i);
    }
  }

  /** Every call finds a result under its id, so no gap is ever filled in. */
  lemma {:induction false} HasResult(b: Batch, executed: seq<Result>, order: seq<Result>, deferred: seq<Result>, i: nat)
    returns (r: Result)
    requires b.ListsExecuted(executed) && b.ListsValues(order) && b.ListsDeferred(deferred) && i < |b.calls|
    ensures r in executed + order + deferred && r.callId == b.calls[i].id
  {
    var c := b.calls[i];
    SplitMembers(b.Looked(), b.verdict);
    if |b.Looked()| <= i {
      r := deferred[i - |b.Looked()|];
    } else if b.verdict(c).Allow? {
      assert b.Looked()[i] == c && c in b.Allowed();
      var k :| 0 <= k < |b.Allowed()| && b.Allowed()[k] == c;
      r := executed[k];
    } else {
      assert b.Looked()[i] == c && c in StoppedOf(b.Looked(), b.verdict);
      StoppedIdsPresent(b.Looked(), b.verdict);
      StoppedByIdOnlyHolds(b.Looked(), b.verdict, c.id);
      r := StoppedById(b.Looked(), b.verdict)[c.id];
    }
  }

  lemma {:induction false} RealignedMeets(b: Batch, executed: seq<Result>, order: seq<Result>, deferred: seq<Result>,
                                          results: seq<Result>)
    requires b.ListsExecuted(executed) && b.ListsValues(order) && b.ListsDeferred(deferred)
    requires |executed + order + deferred| < |b.calls| && b.Coherent(results)
    requires forall i :: 0 <= i < |b.calls| ==>
               results[i] in executed + order + deferred
               || forall r :: r in executed + order + deferred ==> r.callId != b.calls[i].id
    ensures b.Admits(results)
  {
    SplitCounts(b.Looked(), b.verdict);
    forall r | r in results ensures r in executed + order + deferred {
      var i :| 0 <= i < |results| && results[i] == r;
      var _ := HasResult(b, executed, order, deferred, i);
    }
    forall r | r in results ensures b.IntendedForSome(r) { ListedIsIntended(b, executed, order, deferred, r); }
    if DistinctIds(b.calls) { DistinctIdsCount(b.Looked(), b.verdict); }
    forall r | r in results && r.ephemeral ensures b.RunsEphemeral(r.callId) {
      EphemeralIsExecuted(b, executed, order, deferred, r);
    }
  }

  const NO_RESULT := "tool execution did not return a result"

  /** The backstop for a short result list: look up by id, fill the gaps. */
  method PadById(calls: seq<ToolCall>, results: seq<Result>) returns (padded: seq<Result>)
    ensures |padded| == |calls|
    ensures forall i :: 0 <= i < |calls| ==> padded[i].callId == calls[i].id
    ensures forall i :: 0 <= i < |calls| ==>
              padded[i] in results
              || (padded[i] == Result(calls[i].id, calls[i].name, NO_RESULT, true, false)
                  && forall r :: r in results ==> r.callId != calls[i].id)
  {
    var gotById: map<string, Result> := map[];
    for i := 0 to |results|
      invariant forall id :: id in gotById ==> gotById[id] in results[..i] && gotById[id].callId == id
      invariant forall k :: 0 <= k < i ==> results[k].callId in gotById
    {
      gotById := gotById[results[i].callId := results[i]];
    }
    padded := [];
    for i := 0 to |calls|
      invariant |padded| == i
      invariant forall k :: 0 <= k < i ==> padded[k].callId == calls[k].id
      invariant forall k :: 0 <= k < i ==>
                  padded[k] in results
                  || (calls[k].id !in gotById && padded[k] == Result(calls[k].id, calls[k].name, NO_RESULT, true, false))
    {
      var c := calls[i];
      if c.id in gotById {
        padded := padded + [gotById[c.id]];
      } else {
        padded := padded + [Result(c.id, c.name, NO_RESULT, true, false)];
      }
    }
  }

  // ----- when positional matching is right -----

  lemma {:induction false} AllAllowed(calls: seq<ToolCall>, verdict: ToolCall -> Verdict)
    requires forall c :: c in calls ==> verdict(c).Allow?
    ensures AllowedOf(calls, verdict) == calls && StoppedOf(calls, verdict) == []
  {
    if calls != [] {
      var n := |calls| - 1;
      assert calls[n] in calls && forall c :: c in calls[..n] ==> c in calls;
      AllAllowed(calls[..n], verdict);
      assert calls == calls[..n] + [calls[n]];
    }
  }

  lemma {:induction false} StoppedDistinct(calls: seq<ToolCall>, verdict: ToolCall -> Verdict)
    requires DistinctIds(calls)
    ensures DistinctIds(StoppedOf(calls, verdict))
  {
    if calls != [] {
      var n := |calls| - 1;
      StoppedDistinct(calls[..n], verdict);
      SplitMembers(calls[..n], verdict);
      var s := StoppedOf(calls[..n], verdict);
      forall i | 0 <= i < |s| ensures s[i].id != calls[n].id {
        assert s[i] in calls[..n];
      }
    }
  }

  /** The results for a given order of the stopped ones. */
  function Build(b: Batch, order: seq<Result>): (r: seq<Result>)
    requires |b.Allowed()| + |order| == |b.Looked()|
    ensures b.Assembled(order, r)
  {
    seq(|b.calls|, i requires 0 <= i < |b.calls| => b.PartAt(order, i))
  }

  function StoppedResults(b: Batch): (r: seq<Result>)
    ensures |r| == |b.Stops()|
    ensures forall i :: 0 <= i < |r| ==> r[i] == Stopped(b.Stops()[i], b.verdict)
  {
    seq(|b.Stops()|, i requires 0 <= i < |b.Stops()| => Stopped(b.Stops()[i], b.verdict))
  }

  lemma {:induction false} StoppedResultsListed(b: Batch)
    ensures b.ListsStopped(StoppedResults(b))
  {
    SplitCounts(b.Looked(), b.verdict);
    var order := StoppedResults(b);
    forall c | c in b.Stops() ensures Stopped(c, b.verdict) in order {
      var i :| 0 <= i < |b.Stops()| && b.Stops()[i] == c;
      assert order[i] == Stopped(c, b.verdict);
    }
    forall r | r in order ensures b.IsStopped(r) {
      var i :| 0 <= i < |order| && order[i] == r;
      assert b.Stops()[i] in b.Stops();
    }
  }

  /** Any two neighbours may come in the other order. */
  lemma {:induction false} SwapListed(b: Batch, order: seq<Result>, p: nat)
    requires b.ListsStopped(order) && p + 1 < |order|
    ensures b.ListsStopped(order[p := order[p + 1]][p + 1 := order[p]])
  {
    var swapped := order[p := order[p + 1]][p + 1 := order[p]];
    assert swapped[p] == order[p + 1] && swapped[p + 1] == order[p];
    forall r ensures r in order <==> r in swapped {
      if r in order {
        var k :| 0 <= k < |order| && order[k] == r;
        assert k == p || k == p + 1 || swapped[k] == r;
      }
      if r in swapped {
        var k :| 0 <= k < |swapped| && swapped[k] == r;
        assert k == p || k == p + 1 || order[k] == r;
      }
    }
  }

  lemma {:induction false} OtherAllowedId(b: Batch, c: ToolCall, i: nat)
    requires DistinctIds(b.calls) && i < |b.Looked()|
    requires c in b.Allowed() && !b.verdict(b.calls[i]).Allow?
    ensures c.id != b.calls[i].id
  {
    SplitMembers(b.Looked(), b.verdict);
    if c.id == b.calls[i].id { SameIdSameCall(b.calls, c, i); }
  }

  /** The map order decides whose result the (p+1)-th stopped call gets. */
  lemma {:induction false} OrdersDiffer(b: Batch, p: nat) returns (r: seq<Result>, s: seq<Result>)
    requires DistinctIds(b.calls) && p + 1 < |b.Stops()|
    ensures b.MayResult(r) && b.MayResult(s) && |r| == |s| == |b.calls| && |b.Allowed()| + p < |r|
    ensures r[|b.Allowed()| + p].callId != s[|b.Allowed()| + p].callId
  {
    var order := StoppedResults(b);
    StoppedResultsListed(b);
    SwapListed(b, order, p);
    var swapped := order[p := order[p + 1]][p + 1 := order[p]];
    r, s := Build(b, order), Build(b, swapped);
    BuiltAt(b, order, p);
    BuiltAt(b, swapped, p);
    StoppedDistinct(b.Looked(), b.verdict);
  }

  lemma {:induction false} BuiltAt(b: Batch, order: seq<Result>, p: nat)
    requires b.ListsStopped(order) && p < |order|
    ensures b.MayResult(Build(b, order)) && Build(b, order)[|b.Allowed()| + p] == order[p]
  {
    var i := |b.Allowed()| + p;
    assert Build(b, order)[i] == b.PartAt(order, i);
  }

  lemma {:induction false} ExecutedMismatch(b: Batch, i: nat) returns (r: seq<Result>)
    requires DistinctIds(b.calls) && i < |b.Looked()| && i < |b.Allowed()| && !b.verdict(b.calls[i]).Allow?
    ensures b.MayResult(r) && |r| == |b.calls| && r[i].callId != b.calls[i].id
  {
    StoppedResultsListed(b);
    r := Build(b, StoppedResults(b));
    assert r[i] == b.PartAt(StoppedResults(b), i);
    OtherAllowedId(b, b.Allowed()[i], i);
  }

  /** A stopped call that is not the last one looked at: some iteration order hands its
      id the result of another call. */
  lemma {:induction false} MismatchReachable(b: Batch, i: nat) returns (results: seq<Result>)
    requires DistinctIds(b.calls) && i < |b.Looked()| - 1 && !b.verdict(b.calls[i]).Allow?
    ensures b.MayResult(results) && |results| == |b.calls| && results[i].callId != b.calls[i].id
  {
    SplitCounts(b.Looked(), b.verdict);
    if i < |b.Allowed()| {
      results := ExecutedMismatch(b, i);
    } else {
      var r, s := OrdersDiffer(b, i - |b.Allowed()|);
      results := if r[i].callId != b.calls[i].id then r else s;
    }
  }

  /** If all calls but the last are allowed, the allowed ones are a prefix and at most one is stopped. */
  lemma {:induction false} AllowedIsPrefix(looked: seq<ToolCall>, verdict: ToolCall -> Verdict)
    requires forall i :: 0 <= i < |looked| - 1 ==> verdict(looked[i]).Allow?
    ensures if looked == [] || verdict(looked[|looked| - 1]).Allow?
            then AllowedOf(looked, verdict) == looked && StoppedOf(looked, verdict) == []
            else AllowedOf(looked, verdict) == looked[..|looked| - 1]
                 && StoppedOf(looked, verdict) == [looked[|looked| - 1]]
  {
    if looked != [] {
      var front := looked[..|looked| - 1];
      forall c | c in front ensures verdict(c).Allow? {
        var i :| 0 <= i < |front| && front[i] == c;
        assert c == looked[i];
      }
      AllAllowed(front, verdict);
      assert looked == front + [looked[|looked| - 1]];
    }
  }

  lemma {:induction false} PlaceOf(b: Batch, k: nat)
    requires b.AllButLastAllowed() && k < |b.Looked()|
    ensures if b.verdict(b.calls[k]).Allow? then k < |b.Allowed()| && b.Allowed()[k] == b.calls[k]
            else k == |b.Allowed()| && b.Stops() == [b.calls[k]]
  {
    AllowedIsPrefix(b.Looked(), b.verdict);
    assert b.Looked()[k] == b.calls[k];
  }

  lemma {:induction false} OnlyStopped(b: Batch, order: seq<Result>, c: ToolCall)
    requires b.ListsStopped(order) && b.Stops() == [c]
    ensures forall r :: r in order ==> r == Stopped(c, b.verdict)
  {
    forall r | r in order ensures r == Stopped(c, b.verdict) { assert b.IsStopped(r); }
  }

  lemma {:induction false} PartIsIntended(b: Batch, order: seq<Result>, k: nat)
    requires b.ListsStopped(order) && b.AllButLastAllowed() && k < |b.calls|
    ensures b.PartAt(order, k) == b.Intended(k)
  {
    if k < |b.Looked()| {
      PlaceOf(b, k);
      if !b.verdict(b.calls[k]).Allow? {
        OnlyStopped(b, order, b.calls[k]);
        assert order[0] in order;
      }
    } else {
      assert |b.Allowed()| <= k;
    }
  }

  /** Then every call carries exactly its intended result. */
  lemma {:induction false} AllButLastAllowedIsIntended(b: Batch, results: seq<Result>, k: nat)
    requires b.MayResult(results) && b.AllButLastAllowed() && k < |b.calls|
    ensures |results| == |b.calls| && results[k] == b.Intended(k)
  {
    var order :| b.ListsStopped(order) && b.Assembled(order, results);
    PartIsIntended(b, order, k);
  }

  /** HandleMessage gives every call its own result, under every map order, exactly when
      no call before the last one it looks at is blocked or parked. */
  lemma {:induction false} PositionalMatchingIsRightIff(b: Batch)
    requires DistinctIds(b.calls)
    ensures (forall results: seq<Result> :: b.MayResult(results) ==> b.Coherent(results)) <==> b.AllButLastAllowed()
  {
    if b.AllButLastAllowed() {
      forall results: seq<Result> | b.MayResult(results) ensures b.Coherent(results) {
        forall k | 0 <= k < |b.calls| ensures |results| == |b.calls| && results[k].callId == b.calls[k].id {
          AllButLastAllowedIsIntended(b, results, k);
        }
      }
    } else {
      var i :| 0 <= i < |b.Looked()| - 1 && !b.verdict(b.calls[i]).Allow?;
      var results := MismatchReachable(b, i);
      assert !b.Coherent(results);
    }
  }

  lemma {:induction false} MayResultCovers(b: Batch, results: seq<Result>)
    requires b.MayResult(results) && b.EphemeralInPlace()
    ensures b.Covers(results)
  {
    var order :| b.ListsStopped(order) && b.Assembled(order, results);
    forall k | 0 <= k < |b.calls| && !b.ephemeral(b.calls[k].name) ensures !results[k].ephemeral {
      assert results[k] == b.PartAt(order, k);
      var a := |b.Allowed()|;
      if a <= k < |b.Looked()| {
        assert order[k - a] in order;
        assert b.IsStopped(order[k - a]);
      }
    }
  }

  /** Without ephemeral calls, or with distinct ids and none displaced, every persisted call
      gets a persisted result. */
  lemma {:induction false} AdmittedCovers(b: Batch, results: seq<Result>)
    requires b.Admits(results) && (b.NoneEphemeral() || (DistinctIds(b.calls) && b.EphemeralInPlace()))
    ensures b.Covers(results)
  {
    SplitMembers(b.Looked(), b.verdict);
    SplitCounts(b.Looked(), b.verdict);
    assert forall k :: 0 <= k < |b.Allowed()| ==> b.Allowed()[k] in b.Looked();
    if b.MayResult(results) {
      MayResultCovers(b, results);
    } else {
      forall k | 0 <= k < |b.calls| ensures !results[k].ephemeral {
        assert results[k] in results;
      }
    }
  }

  /** Every call that is persisted (not ephemeral) gets a result that is persisted, under
      every map order, exactly when no ephemeral result lands on a persisted call. */
  lemma {:induction false} PersistedCallsAnsweredIff(b: Batch)
    ensures (forall results: seq<Result> :: b.MayResult(results) ==> b.Covers(results)) <==> b.EphemeralInPlace()
  {
    if b.EphemeralInPlace() {
      forall results: seq<Result> | b.MayResult(results) ensures b.Covers(results) {
        MayResultCovers(b, results);
      }
    } else {
      SplitCounts(b.Looked(), b.verdict);
      var k :| 0 <= k < |b.Allowed()| && b.ephemeral(b.Allowed()[k].name) && !b.ephemeral(b.calls[k].name);
      StoppedResultsListed(b);
      var results := Build(b, StoppedResults(b));
      assert results[k] == b.PartAt(StoppedResults(b), k);
      assert b.MayResult(results) && !b.Covers(results);
    }
  }

  // ----- HandleMessageStream: matching by id -----

  /** Rebuilds the results by id; every call gets its own, blocked or not. */
  method StreamRoundResults(sess: Session, b: Batch) returns (results: seq<Result>)
    requires b.cap == 0
    modifies sess`pendingCalls
    ensures b.Coherent(results)
    ensures DistinctIds(b.calls) ==> forall k :: 0 <= k < |b.calls| ==> results[k] == b.Intended(k)
    ensures sess.pendingCalls == old(sess.pendingCalls) + PromptedOf(b.calls, b.verdict)
  {
    var toExec, blocked := FilterAuthorizedCalls(sess, b.calls, b.verdict);
    var executed := ExecuteToolsConcurrently(toExec, b.responses, b.ephemeral);
    var byId: map<string, Result> := map[];
    for i := 0 to |executed|
      invariant b.IndexesExecuted(byId, i)
      invariant sess.pendingCalls == old(sess.pendingCalls) + PromptedOf(b.calls, b.verdict)
    {
      IndexOneMore(b, byId, i);
      byId := byId[executed[i].callId := executed[i]];
    }
    forall k | 0 <= k < |b.calls| ensures b.Finds(byId + blocked, k) {
      FoundById(b, byId, k);
    }
    results := LookUp(b, byId + blocked);
  }

  method LookUp(b: Batch, byId: map<string, Result>) returns (results: seq<Result>)
    requires forall k :: 0 <= k < |b.calls| ==> b.Finds(byId, k)
    ensures b.Coherent(results)
    ensures DistinctIds(b.calls) ==> forall k :: 0 <= k < |b.calls| ==> results[k] == b.Intended(k)
  {
    results := [];
    for i := 0 to |b.calls|
      invariant |results| == i
      invariant forall k :: 0 <= k < i ==> b.calls[k].id in byId && results[k] == byId[b.calls[k].id]
    {
      var id := b.calls[i].id;
      assert b.Finds(byId, i);
      if id in byId {
        results := results + [byId[id]];
      }
    }
    forall k | 0 <= k < |b.calls|
      ensures results[k].callId == b.calls[k].id && (DistinctIds(b.calls) ==> results[k] == b.Intended(k))
    {
      assert b.Finds(byId, k);
    }
  }

  lemma {:induction false} IndexOneMore(b: Batch, byId: map<string, Result>, i: nat)
    requires i < |b.Allowed()| && b.IndexesExecuted(byId, i)
    ensures var c := b.Allowed()[i];
            b.IndexesExecuted(byId[c.id := Executed(c, b.responses, b.ephemeral)], i + 1)
  {
    var c := b.Allowed()[i];
    var m := byId[c.id := Executed(c, b.responses, b.ephemeral)];
    forall id | id in m
      ensures exists j :: 0 <= j < i + 1 && b.Allowed()[j].id == id && m[id] == Executed(b.Allowed()[j], b.responses, b.ephemeral)
    {
      if id == c.id {
        assert b.Allowed()[i].id == id;
      } else {
        var j :| 0 <= j < i && b.Allowed()[j].id == id && byId[id] == Executed(b.Allowed()[j], b.responses, b.ephemeral);
      }
    }
  }

  lemma {:induction false} StoppedIdsPresent(calls: seq<ToolCall>, verdict: ToolCall -> Verdict)
    ensures forall c :: c in StoppedOf(calls, verdict) ==> c.id in StoppedById(calls, verdict)
  {
    if calls != [] { StoppedIdsPresent(calls[..|calls| - 1], verdict); }
  }

  lemma {:induction false} FoundById(b: Batch, byId: map<string, Result>, k: nat)
    requires b.cap == 0 && k < |b.calls|
    requires b.IndexesExecuted(byId, |b.Allowed()|)
    ensures b.Finds(byId + StoppedById(b.calls, b.verdict), k)
  {
    var c := b.calls[k];
    SplitMembers(b.calls, b.verdict);
    if b.verdict(c).Allow? {
      assert c in b.Allowed();
      assert c.id in byId;
      if c.id in StoppedById(b.calls, b.verdict) {
        StoppedEntry(b, k);
      } else {
        ExecutedEntry(b, byId, k);
      }
    } else {
      StoppedIdsPresent(b.calls, b.verdict);
      assert c in b.Stops();
      StoppedEntry(b, k);
    }
  }

  lemma {:induction false} ExecutedEntry(b: Batch, byId: map<string, Result>, k: nat)
    requires b.cap == 0 && k < |b.calls| && b.verdict(b.calls[k]).Allow?
    requires b.IndexesExecuted(byId, |b.Allowed()|) && b.calls[k].id in byId
    ensures b.Finds(byId, k)
  {
    var id := b.calls[k].id;
    var j :| 0 <= j < |b.Allowed()| && b.Allowed()[j].id == id && byId[id] == Executed(b.Allowed()[j], b.responses, b.ephemeral);
    SplitMembers(b.calls, b.verdict);
    assert b.Allowed()[j] in b.Allowed();
    SameIdSameCall(b.calls, b.Allowed()[j], k);
  }

  lemma {:induction false} SameIdSameCall(calls: seq<ToolCall>, c: ToolCall, k: nat)
    requires c in calls && k < |calls| && c.id == calls[k].id
    ensures DistinctIds(calls) ==> c == calls[k]
  {
    var j :| 0 <= j < |calls| && calls[j] == c;
  }

  lemma {:induction false} StoppedEntry(b: Batch, k: nat)
    requires b.cap == 0 && k < |b.calls| && b.calls[k].id in StoppedById(b.calls, b.verdict)
    ensures b.Finds(StoppedById(b.calls, b.verdict), k)
  {
    var id := b.calls[k].id;
    StoppedByIdOnlyHolds(b.calls, b.verdict, id);
    assert b.Looked() == b.calls;
    var c :| c in StoppedOf(b.calls, b.verdict) && c.id == id && StoppedById(b.calls, b.verdict)[id] == Stopped(c, b.verdict);
    SplitMembers(b.calls, b.verdict);
    assert c in b.calls && !b.verdict(c).Allow?;
    SameIdSameCall(b.calls, c, k);
  }
}
