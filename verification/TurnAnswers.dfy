/** When a turn leaves a tool call without a result for good, and exactly when not. A
    persisted call whose position got an ephemeral result has none in the session; the
    cleanup repairs it only as long as no other message with calls has followed. */
module TurnAnswers {
  import opened Anchoring
  import opened Conversation
  import opened Padding
  import opened Pairing
  import opened SessionState
  import opened ToolRound
  import opened TurnHistory
  import opened TurnPrompts
  import opened TurnSpec

  // ----- one round -----

  /** Whether persisted calls get persisted results does not depend on the map order. */
  lemma {:induction false} CoversIff(b: Batch, results: seq<Result>)
    requires b.MayResult(results)
    ensures b.Covers(results) <==> b.EphemeralInPlace()
  {
    if b.EphemeralInPlace() {
      MayResultCovers(b, results);
    } else {
      SplitCounts(b.Looked(), b.verdict);
      var k :| 0 <= k < |b.Allowed()| && b.ephemeral(b.Allowed()[k].name) && !b.ephemeral(b.calls[k].name);
      ResultEphemeralIff(b, results, k);
    }
  }

  /** A call that is written to the session, and whose position got a result that is not. */
  ghost predicate Displaced(b: Batch, results: seq<Result>, j: int) {
    0 <= j < |b.calls| && j < |results| && !b.ephemeral(b.calls[j].name) && results[j].ephemeral
  }

  lemma {:induction false} DisplacedCall(b: Batch, results: seq<Result>) returns (j: nat)
    requires b.MayResult(results) && !b.EphemeralInPlace()
    ensures Displaced(b, results, j)
  {
    CoversIff(b, results);
    ResultCount(b, results);
    j :| 0 <= j < |b.calls| && !b.ephemeral(b.calls[j].name) && results[j].ephemeral;
  }

  // ----- no answer with an id -----

  /** Neither a result nor a call of this stretch has the id. */
  ghost predicate Strange(t: seq<Message>, id: string) {
    forall i :: 0 <= i < |t| ==> StrangeTo(t[i], id)
  }

  ghost predicate StrangeTo(m: Message, id: string) {
    (m.role == Tool ==> m.callId != id) && (HasCalls(m) ==> forall c :: c in m.calls ==> c.id != id)
  }

  lemma {:induction false} StrangeConcat(a: seq<Message>, b: seq<Message>, id: string)
    requires Strange(a, id) && Strange(b, id)
    ensures Strange(a + b, id)
  {}

  lemma {:induction false} UsersAreStrange(t: seq<Message>, id: string)
    requires UserMessages(t)
    ensures Strange(t, id)
  {}

  /** A call without a result behind it. */
  lemma {:induction false} OpenCall(p: seq<Message>, m: Message, t: seq<Message>, id: string)
    requires HasCalls(m) && (exists c :: c in m.calls && c.id == id) && Strange(t, id)
    ensures !AllAnswered(p + [m] + t)
  {
    var w, n := p + [m] + t, |p|;
    assert w[n] == m && forall j :: n < j < |w| ==> w[j] == t[j - n - 1];
    var c :| c in m.calls && c.id == id;
    assert !AnsweredAfter(w, n, id);
    assert !CallsAnswered(w, n);
  }

  /** The cleanup does not reach it once another message with calls has followed. */
  lemma {:induction false} OpenForGood(p: seq<Message>, m: Message, t: seq<Message>, id: string, left: seq<Message>)
    requires HasCalls(m) && (exists c :: c in m.calls && c.id == id) && Strange(t, id)
    requires CallsIn(t) && UserMessages(left)
    ensures !AllAnswered(Padded(p + [m] + t) + left)
  {
    var h := p + [m] + t;
    var last := LastInTail(p, m, t);
    var pads := PadsFor(h[last].calls, ResolvedIds(h[last + 1..]));
    assert h[last] == t[last - |p| - 1] && StrangeTo(t[last - |p| - 1], id);
    PadsAreStrange(h[last].calls, ResolvedIds(h[last + 1..]), id);
    UsersAreStrange(left, id);
    StrangeConcat(pads, left, id);
    StrangeConcat(t, pads + left, id);
    Assoc(p + [m], t, pads + left);
    Assoc(p + [m] + t, pads, left);
    OpenCall(p, m, t + (pads + left), id);
  }

  lemma {:induction false} PadsAreStrange(calls: seq<ToolCall>, resolved: set<string>, id: string)
    requires forall c :: c in calls ==> c.id != id
    ensures Strange(PadsFor(calls, resolved), id)
  {
    var pads := PadsFor(calls, resolved);
    PadsCarryLatestIds(calls, resolved);
    forall i | 0 <= i < |pads| ensures StrangeTo(pads[i], id) { assert pads[i] in pads; }
  }

  lemma {:induction false} LastInTail(p: seq<Message>, m: Message, t: seq<Message>) returns (last: nat)
    requires CallsIn(t)
    ensures last == LastWithCalls(p + [m] + t) && |p| < last < |p + [m] + t| && HasCalls((p + [m] + t)[last])
  {
    var h := p + [m] + t;
    var i :| 0 <= i < |t| && HasCalls(t[i]);
    assert h[|p| + 1 + i] == t[i];
    last := LastWithCalls(h);
  }

  // ----- rounds that leave a call open -----

  lemma {:induction false} KeptIsStrange(b: Batch, results: seq<Result>, j: nat)
    requires DistinctIds(b.calls) && |results| == |b.calls| && Displaced(b, results, j)
    ensures Strange(KeptAnswers(b.calls, results), b.calls[j].id)
  {
    var kept := KeptAnswers(b.calls, results);
    KeptAreTools(b.calls, results);
    KeptMembers(b.calls, results);
    forall i | 0 <= i < |kept| ensures StrangeTo(kept[i], b.calls[j].id) {
      assert kept[i] in kept && KeptFrom(b.calls, results, kept[i]);
    }
  }

  lemma {:induction false} PersistedHas(b: Batch, m: Message, j: nat)
    requires m.role == Assistant && m.calls == Persisted(b.calls, b.ephemeral)
    requires j < |b.calls| && !b.ephemeral(b.calls[j].name)
    ensures HasCalls(m) && exists c :: c in m.calls && c.id == b.calls[j].id
  {
    PersistedMembers(b.calls, b.ephemeral);
    assert b.calls[j] in m.calls;
  }

  /** Any batch in which an ephemeral result lands on a persisted call: once another message
      with calls has followed, that call is open for good, under every map order. */
  lemma {:induction false} DisplacedStaysOpen(h: seq<Message>, b: Batch, results: seq<Result>, m: Message, rest: seq<Message>)
    requires DistinctIds(b.calls) && b.MayResult(results) && !b.EphemeralInPlace()
    requires m.role == Assistant && m.calls == Persisted(b.calls, b.ephemeral)
    requires CallsIn(rest) && forall c :: c in b.calls ==> Strange(rest, c.id)
    ensures !AllAnswered(Padded(h + [m] + (KeptAnswers(b.calls, results) + rest)))
  {
    var kept := KeptAnswers(b.calls, results);
    ResultCount(b, results);
    var j := DisplacedCall(b, results);
    KeptIsStrange(b, results, j);
    assert b.calls[j] in b.calls;
    StrangeConcat(kept, rest, b.calls[j].id);
    CallsInConcat(kept, rest);
    PersistedHas(b, m, j);
    OpenForGood(h, m, kept + rest, b.calls[j].id, []);
    var w := Padded(h + [m] + (kept + rest));
    assert w + [] == w;
  }

  /** A persisted call that is parked or blocked, and an ephemeral one that runs: the first
      gets the ephemeral result, the second the stopped one. */
  lemma {:induction false} ParkedCallLosesResult(b: Batch, c: ToolCall, e: ToolCall, results: seq<Result>)
    requires b.calls == [c, e] && b.cap != 1 && !b.ephemeral(c.name) && b.ephemeral(e.name)
    requires !b.verdict(c).Allow? && b.verdict(e).Allow? && b.MayResult(results)
    ensures |results| == 2 && results[0].ephemeral && !results[1].ephemeral && !b.EphemeralInPlace()
  {
    assert b.Looked() == [c, e];
    assert [c, e][..1] == [c] && [c][..0] == [];
    assert AllowedOf([c], b.verdict) == [];
    assert b.Allowed() == [e];
    ResultEphemeralIff(b, results, 0);
    ResultEphemeralIff(b, results, 1);
    assert b.ephemeral(b.Allowed()[0].name) && !b.ephemeral(b.calls[0].name);
  }

  /** In the ask mode: a command that waits for the user beside a skill that is loaded. */
  lemma {:induction false} ParkedCallStaysOpen(h: seq<Message>, b: Batch, c: ToolCall, e: ToolCall, results: seq<Result>,
                                               m: Message, rest: seq<Message>)
    requires b.calls == [c, e] && c.id != e.id && b.cap != 1 && !b.ephemeral(c.name) && b.ephemeral(e.name)
    requires b.verdict(c).Prompt? && b.verdict(e).Allow? && b.MayResult(results)
    requires m.role == Assistant && m.calls == Persisted(b.calls, b.ephemeral)
    requires CallsIn(rest) && Strange(rest, c.id) && Strange(rest, e.id)
    ensures !AllAnswered(Padded(h + [m] + (KeptAnswers(b.calls, results) + rest)))
  {
    ParkedCallLosesResult(b, c, e, results);
    DisplacedStaysOpen(h, b, results, m, rest);
  }

  // ----- a whole turn -----

  ghost predicate NoCommonIds(a: seq<ToolCall>, b: seq<ToolCall>) {
    forall c, d :: c in a && d in b ==> c.id != d.id
  }

  ghost predicate NotSynthetic(calls: seq<ToolCall>, items: seq<Synthetic>) {
    forall c, x :: c in calls && x in items ==> c.id != "synth-" + x.name
  }

  /** The model gives every call of the turn an id of its own, and none that a hook uses later. */
  ghost predicate FreshIds(env: Environment, n: nat) {
    && (forall k :: 0 <= k < n ==> DistinctIds(env.CallsAt(k)))
    && (forall k, j :: 0 <= k < j < n ==> FreshAgainst(env, k, j))
  }

  ghost predicate FreshAgainst(env: Environment, k: nat, j: nat) {
    NoCommonIds(env.CallsAt(k), env.CallsAt(j)) && NotSynthetic(env.CallsAt(k), env.synthetic(j))
  }

  /** Wherever another message with calls follows, no ephemeral result lands on a persisted
      call: a condition on gate, cap and ephemeral tools. */
  ghost predicate InPlaceBeforeCalls(env: Environment, n: nat) {
    forall k :: 0 <= k < n && env.KindAt(k).Called? && env.Followed(k, n) ==> env.BatchAt(k).EphemeralInPlace()
  }

  lemma {:induction false} InPlaceIsCovered(env: Environment, pending: seq<Message>, rounds: seq<seq<Result>>)
    requires env.Runs(pending, rounds) && FreshIds(env, |rounds|) && InPlaceBeforeCalls(env, |rounds|)
    ensures env.CoveredBeforeCalls(rounds)
  {
    forall k | 0 <= k < |rounds| && env.KindAt(k).Called? && env.Followed(k, |rounds|)
      ensures env.BatchAt(k).Covers(rounds[k])
    {
      assert env.Fits(k, rounds[k]) && DistinctIds(env.CallsAt(k));
      MayResultCovers(env.BatchAt(k), rounds[k]);
    }
  }

  /** What iterations k, k + 1, and so on write. */
  ghost function Later(env: Environment, pending: seq<Message>, rounds: seq<seq<Result>>, k: nat): seq<Message> {
    var n := |rounds| - 1;
    if n < k then [] else Later(env, pending, rounds[..n], k) + env.Piece(pending, n, rounds[n])
  }

  lemma {:induction false} WrittenSplit(env: Environment, pending: seq<Message>, rounds: seq<seq<Result>>, k: nat)
    requires k <= |rounds|
    ensures env.Written(pending, rounds) == env.Written(pending, rounds[..k]) + Later(env, pending, rounds, k)
  {
    if k == |rounds| {
      NothingLater(env, pending, rounds);
    } else {
      var n := |rounds| - 1;
      WrittenSplit(env, pending, rounds[..n], k);
      assert rounds[..n][..k] == rounds[..k];
      LastPiece(env, pending, rounds, k);
      Assoc(env.Written(pending, rounds[..k]), Later(env, pending, rounds[..n], k), env.Piece(pending, n, rounds[n]));
    }
  }

  lemma {:induction false} NothingLater(env: Environment, pending: seq<Message>, rounds: seq<seq<Result>>)
    ensures env.Written(pending, rounds)
            == env.Written(pending, rounds[..|rounds|]) + Later(env, pending, rounds, |rounds|)
  {
    assert rounds[..|rounds|] == rounds;
    assert env.Written(pending, rounds) + [] == env.Written(pending, rounds);
  }

  lemma {:induction false} LastPiece(env: Environment, pending: seq<Message>, rounds: seq<seq<Result>>, k: nat)
    requires k < |rounds|
    ensures var n := |rounds| - 1;
            && env.Written(pending, rounds) == env.Written(pending, rounds[..n]) + env.Piece(pending, n, rounds[n])
            && Later(env, pending, rounds, k) == Later(env, pending, rounds[..n], k) + env.Piece(pending, n, rounds[n])
  {}

  lemma {:induction false} LaterFirst(env: Environment, pending: seq<Message>, rounds: seq<seq<Result>>, k: nat)
    requires k < |rounds|
    ensures Later(env, pending, rounds, k) == env.Piece(pending, k, rounds[k]) + Later(env, pending, rounds, k + 1)
  {
    var n := |rounds| - 1;
    if k < n {
      LaterFirst(env, pending, rounds[..n], k);
      assert rounds[..n][k] == rounds[k];
      LastPiece(env, pending, rounds, k);
      LastPiece(env, pending, rounds, k + 1);
      Assoc(env.Piece(pending, k, rounds[k]), Later(env, pending, rounds[..n], k + 1), env.Piece(pending, n, rounds[n]));
    } else {
      OnlyPiece(env, pending, rounds);
    }
  }

  lemma {:induction false} OnlyPiece(env: Environment, pending: seq<Message>, rounds: seq<seq<Result>>)
    requires rounds != []
    ensures var n := |rounds| - 1;
            Later(env, pending, rounds, n) == env.Piece(pending, n, rounds[n]) + Later(env, pending, rounds, n + 1)
  {
    var piece := env.Piece(pending, |rounds| - 1, rounds[|rounds| - 1]);
    assert [] + piece == piece == piece + [];
  }

  lemma {:induction false} LaterHasCalls(env: Environment, pending: seq<Message>, rounds: seq<seq<Result>>, k: nat, m: nat)
    requires env.UsersPush(pending) && k <= m < |rounds| && env.WritesCalls(m)
    ensures CallsIn(Later(env, pending, rounds, k))
  {
    var n := |rounds| - 1;
    CallsInConcat(Later(env, pending, rounds[..n], k), env.Piece(pending, n, rounds[n]));
    if m == n {
      PieceCallsIff(env, pending, n, rounds[n]);
    } else {
      LaterHasCalls(env, pending, rounds[..n], k, m);
    }
  }

  lemma {:induction false} SyntheticIsStrange(items: seq<Synthetic>, id: string)
    requires forall x :: x in items ==> id != "synth-" + x.name
    ensures Strange(SyntheticRounds(items), id)
  {
    if items != [] {
      var n := |items| - 1;
      assert items == items[..n] + [items[n]];
      SyntheticIsStrange(items[..n], id);
      assert items[n] in items;
      StrangeConcat(SyntheticRounds(items[..n]), SyntheticRound(items[n]), id);
    }
  }

  lemma {:induction false} RecordedIsStrange(env: Environment, k: nat, id: string)
    requires forall c :: c in env.CallsAt(k) ==> c.id != id
    ensures StrangeTo(env.Recorded(k), id)
  {
    PersistedMembers(env.CallsAt(k), env.ephemeral);
  }

  lemma {:induction false} OtherKeptIsStrange(calls: seq<ToolCall>, results: seq<Result>, id: string)
    requires |results| <= |calls| && forall c :: c in calls ==> c.id != id
    ensures Strange(KeptAnswers(calls, results), id)
  {
    var kept := KeptAnswers(calls, results);
    KeptAreTools(calls, results);
    KeptMembers(calls, results);
    forall i | 0 <= i < |kept| ensures StrangeTo(kept[i], id) {
      assert kept[i] in kept && KeptFrom(calls, results, kept[i]);
    }
  }

  lemma {:induction false} BodyIsStrange(env: Environment, pending: seq<Message>, k: nat, results: seq<Result>, id: string)
    requires env.UsersPush(pending) && env.Fits(k, results) && forall c :: c in env.CallsAt(k) ==> c.id != id
    ensures Strange(env.Body(pending, k, results), id)
  {
    SteeredAreUsers(env, pending, k);
    UsersAreStrange(env.Steered(pending, k), id);
    RecordedIsStrange(env, k, id);
    match env.KindAt(k)
    case Called =>
      OtherKeptIsStrange(env.CallsAt(k), results, id);
      StrangeConcat([env.Recorded(k)], KeptAnswers(env.CallsAt(k), results), id);
      StrangeConcat([env.Recorded(k)] + KeptAnswers(env.CallsAt(k), results), env.Steered(pending, k), id);
    case Spoke =>
      StrangeConcat([Plain(Assistant, env.ContentAt(k))], env.Steered(pending, k), id);
    case _ =>
  }

  lemma {:induction false} PieceIsStrange(env: Environment, pending: seq<Message>, k: nat, n: nat,
                                          results: seq<Result>, c: ToolCall)
    requires env.UsersPush(pending) && env.Fits(n, results) && FreshAgainst(env, k, n) && c in env.CallsAt(k)
    ensures Strange(env.Piece(pending, n, results), c.id)
  {
    SyntheticIsStrange(env.synthetic(n), c.id);
    BodyIsStrange(env, pending, n, results, c.id);
    StrangeConcat(SyntheticRounds(env.synthetic(n)), env.Body(pending, n, results), c.id);
  }

  ghost predicate FreshLater(env: Environment, rounds: seq<seq<Result>>, k: nat) {
    forall i :: k < i < |rounds| ==> FreshAgainst(env, k, i) && env.Fits(i, rounds[i])
  }

  lemma {:induction false} FreshLaterFront(env: Environment, rounds: seq<seq<Result>>, k: nat)
    requires rounds != [] && FreshLater(env, rounds, k)
    ensures FreshLater(env, rounds[..|rounds| - 1], k)
  {
    var front := rounds[..|rounds| - 1];
    assert forall i :: 0 <= i < |front| ==> front[i] == rounds[i];
  }

  lemma {:induction false} LaterIsStrange(env: Environment, pending: seq<Message>, rounds: seq<seq<Result>>, k: nat, c: ToolCall)
    requires env.UsersPush(pending) && FreshLater(env, rounds, k)
    requires k < |rounds| && c in env.CallsAt(k)
    ensures Strange(Later(env, pending, rounds, k + 1), c.id)
  {
    if k < |rounds| - 1 {
      FreshLaterFront(env, rounds, k);
      LaterIsStrange(env, pending, rounds[..|rounds| - 1], k, c);
      LaterStep(env, pending, rounds, k, c);
    }
  }

  lemma {:induction false} LaterStep(env: Environment, pending: seq<Message>, rounds: seq<seq<Result>>, k: nat, c: ToolCall)
    requires k < |rounds| - 1 && env.UsersPush(pending) && Strange(Later(env, pending, rounds[..|rounds| - 1], k + 1), c.id)
    requires env.Fits(|rounds| - 1, rounds[|rounds| - 1]) && FreshAgainst(env, k, |rounds| - 1) && c in env.CallsAt(k)
    ensures Strange(Later(env, pending, rounds, k + 1), c.id)
  {
    var n := |rounds| - 1;
    PieceIsStrange(env, pending, k, n, rounds[n], c);
    StrangeConcat(Later(env, pending, rounds[..n], k + 1), env.Piece(pending, n, rounds[n]), c.id);
  }

  /** What a turn appends behind the message of round k. */
  ghost function Behind(env: Environment, pending: seq<Message>, rounds: seq<seq<Result>>, k: nat): seq<Message>
    requires k < |rounds|
  {
    KeptAnswers(env.CallsAt(k), rounds[k])
    + env.Steered(pending, k) + Later(env, pending, rounds, k + 1) + env.Closing(pending, |rounds|)
  }

  ghost function InFront(env: Environment, o: Opening, rounds: seq<seq<Result>>, k: nat): seq<Message>
    requires k < |rounds|
  {
    env.Base(o) + env.Written(o.pending, rounds[..k]) + SyntheticRounds(env.synthetic(k))
  }

  lemma {:induction false} Unfold(b: seq<Message>, w: seq<Message>, syn: seq<Message>, r: Message, kept: seq<Message>,
                                  s: seq<Message>, later: seq<Message>, closing: seq<Message>)
    ensures b + (w + ((syn + ([r] + kept + s)) + later)) + closing == b + w + syn + [r] + (kept + s + later + closing)
  {}

  lemma {:induction false} EndedAround(env: Environment, o: Opening, rounds: seq<seq<Result>>, k: nat)
    requires k < |rounds| && env.KindAt(k).Called?
    ensures env.Ended(o, rounds) == InFront(env, o, rounds, k) + [env.Recorded(k)] + Behind(env, o.pending, rounds, k)
  {
    WrittenSplit(env, o.pending, rounds, k);
    LaterFirst(env, o.pending, rounds, k);
    Unfold(env.Base(o), env.Written(o.pending, rounds[..k]), SyntheticRounds(env.synthetic(k)), env.Recorded(k),
           KeptAnswers(env.CallsAt(k), rounds[k]), env.Steered(o.pending, k),
           Later(env, o.pending, rounds, k + 1), env.Closing(o.pending, |rounds|));
  }

  lemma {:induction false} BehindIsStrange(env: Environment, pending: seq<Message>, rounds: seq<seq<Result>>, k: nat, j: nat)
    requires env.Runs(pending, rounds) && env.UsersPush(pending) && FreshIds(env, |rounds|)
    requires k < |rounds| && env.KindAt(k).Called? && Displaced(env.BatchAt(k), rounds[k], j)
    ensures Strange(Behind(env, pending, rounds, k), env.CallsAt(k)[j].id)
  {
    var id := env.CallsAt(k)[j].id;
    var kept, s := KeptAnswers(env.CallsAt(k), rounds[k]), env.Steered(pending, k);
    var later, closing := Later(env, pending, rounds, k + 1), env.Closing(pending, |rounds|);
    assert env.Fits(k, rounds[k]) && DistinctIds(env.CallsAt(k));
    KeptIsStrange(env.BatchAt(k), rounds[k], j);
    SteeredAreUsers(env, pending, k);
    UsersAreStrange(s, id);
    LaterIsStrange(env, pending, rounds, k, env.CallsAt(k)[j]);
    StrangeConcat(kept, s, id);
    StrangeConcat(kept + s, later, id);
    StrangeConcat(kept + s + later, closing, id);
  }

  lemma {:induction false} BehindHasCalls(env: Environment, pending: seq<Message>, rounds: seq<seq<Result>>, k: nat)
    requires env.UsersPush(pending) && k < |rounds| && env.Followed(k, |rounds|)
    ensures CallsIn(Behind(env, pending, rounds, k))
  {
    var m :| k < m < |rounds| && env.WritesCalls(m);
    LaterHasCalls(env, pending, rounds, k + 1, m);
    var front := KeptAnswers(env.CallsAt(k), rounds[k]) + env.Steered(pending, k);
    CallsInConcat(front, Later(env, pending, rounds, k + 1));
    CallsInConcat(front + Later(env, pending, rounds, k + 1), env.Closing(pending, |rounds|));
  }

  /** A round that displaces a persisted call, and a later message with calls. */
  lemma {:induction false} TurnLeavesOpen(env: Environment, o: Opening, rounds: seq<seq<Result>>, depth: nat, k: nat)
    requires env.Runs(o.pending, rounds) && env.UsersPush(o.pending) && FreshIds(env, |rounds|)
    requires k < |rounds| && env.KindAt(k).Called? && env.Followed(k, |rounds|) && !env.BatchAt(k).EphemeralInPlace()
    ensures !AllAnswered(env.Final(o, rounds, depth))
  {
    assert env.Fits(k, rounds[k]) && DistinctIds(env.CallsAt(k));
    var j := DisplacedCall(env.BatchAt(k), rounds[k]);
    EndedAround(env, o, rounds, k);
    BehindIsStrange(env, o.pending, rounds, k, j);
    BehindHasCalls(env, o.pending, rounds, k);
    PersistedHas(env.BatchAt(k), env.Recorded(k), j);
    LeftAreUsers(env, o.pending, |rounds|, depth);
    OpenForGood(InFront(env, o, rounds, k), env.Recorded(k), Behind(env, o.pending, rounds, k), env.CallsAt(k)[j].id,
                Leftover(depth, env.Left(o.pending, |rounds|) + env.late));
  }

  /** A whole turn whose model names its calls afresh, from an answered history: every tool
      call of the session has a later result if and only if no round that another message
      with calls follows lets an ephemeral result land on a persisted call. */
  lemma {:induction false} TurnAnswersAllIff(env: Environment, o: Opening, rounds: seq<seq<Result>>, depth: nat)
    requires AllAnswered(o.history) && env.Runs(o.pending, rounds) && env.UsersPush(o.pending) && FreshIds(env, |rounds|)
    ensures AllAnswered(env.Final(o, rounds, depth)) <==> InPlaceBeforeCalls(env, |rounds|)
  {
    if InPlaceBeforeCalls(env, |rounds|) {
      InPlaceIsCovered(env, o.pending, rounds);
      TurnAnswersAll(env, o, rounds, depth);
    } else {
      var k :| 0 <= k < |rounds| && env.KindAt(k).Called? && env.Followed(k, |rounds|) && !env.BatchAt(k).EphemeralInPlace();
      TurnLeavesOpen(env, o, rounds, depth, k);
    }
  }

  /** Together with what holds for repeated ids too, under a condition that is only sufficient. */
  lemma {:induction false} AnsweredWhen(env: Environment, o: Opening, rounds: seq<seq<Result>>, depth: nat)
    requires AllAnswered(o.history) && env.Runs(o.pending, rounds) && env.UsersPush(o.pending)
    ensures FreshIds(env, |rounds|) ==> (AllAnswered(env.Final(o, rounds, depth)) <==> InPlaceBeforeCalls(env, |rounds|))
    ensures Pairable(env, |rounds|) ==> AllAnswered(env.Final(o, rounds, depth))
  {
    if FreshIds(env, |rounds|) { TurnAnswersAllIff(env, o, rounds, depth); }
    if Pairable(env, |rounds|) {
      PairableCovers(env, o.pending, rounds);
      TurnAnswersAll(env, o, rounds, depth);
    }
  }

  /** A turn in which a command waits for the user while a skill is loaded beside it, and the
      model calls tools once more: the command's call never gets a result. */
  lemma {:induction false} ParkedTurnLeavesOpen(env: Environment, o: Opening, rounds: seq<seq<Result>>, depth: nat,
                                                k: nat, c: ToolCall, e: ToolCall)
    requires env.Runs(o.pending, rounds) && env.UsersPush(o.pending) && FreshIds(env, |rounds|)
    requires k < |rounds| && env.KindAt(k).Called? && env.Followed(k, |rounds|)
    requires env.CallsAt(k) == [c, e] && env.cap != 1 && !env.ephemeral(c.name) && env.ephemeral(e.name)
    requires env.verdict(k)(c).Prompt? && env.verdict(k)(e).Allow?
    ensures !AllAnswered(env.Final(o, rounds, depth))
  {
    assert env.Fits(k, rounds[k]) && DistinctIds(env.CallsAt(k));
    ParkedCallLosesResult(env.BatchAt(k), c, e, rounds[k]);
    TurnLeavesOpen(env, o, rounds, depth, k);
  }
}
