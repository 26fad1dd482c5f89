/** What the messages of a turn say: which text a tool message carries, what the model sees
    of a round, and what becomes of everything users push. */
module TurnContents {
  import opened Conversation
  import opened Options
  import opened Selection
  import opened SessionState
  import opened ToolRound
  import opened TurnSpec
  import Compaction
  import Padding
  import Text

  // ----- results and tool messages -----

  /** The message hands the text of the result to the model, as the answer to the call. */
  ghost predicate Carries(m: Message, c: ToolCall, r: Result) {
    m.role == Tool && m.callId == c.id && m.name == r.toolName && m.content == r.text && m.calls == [] && m.origin == ""
  }

  /** One message per result, in order, and nothing else. */
  ghost predicate Delivered(ms: seq<Message>, calls: seq<ToolCall>, results: seq<Result>) {
    && |ms| == |results| <= |calls|
    && forall k :: 0 <= k < |ms| ==> Carries(ms[k], calls[k], results[k])
  }

  /** The messages of the results at these positions: all that are not ephemeral. */
  ghost predicate KeptAt(ms: seq<Message>, calls: seq<ToolCall>, results: seq<Result>, idx: seq<nat>) {
    && |idx| == |ms| && Ascends(idx) && |results| <= |calls|
    && (forall i :: 0 <= i < |idx| ==>
          idx[i] < |results| && !results[idx[i]].ephemeral && Carries(ms[i], calls[idx[i]], results[idx[i]]))
    && (forall k :: 0 <= k < |results| && !results[k].ephemeral ==> k in idx)
  }

  /** One message per result that is not ephemeral, in order, and nothing else. */
  ghost predicate DeliveredKept(ms: seq<Message>, calls: seq<ToolCall>, results: seq<Result>) {
    exists idx :: KeptAt(ms, calls, results, idx)
  }

  lemma {:induction false} AnswersDelivered(calls: seq<ToolCall>, results: seq<Result>)
    requires |results| <= |calls|
    ensures Delivered(AllAnswers(calls, results), calls, results)
  {
    if results != [] { AnswersDelivered(calls, results[..|results| - 1]); }
  }

  lemma {:induction false} Behind(front: seq<Message>, t: seq<Message>)
    ensures front <= front + t && (front + t)[|front|..] == t
  {}

  lemma {:induction false} KeptNext(ms: seq<Message>, calls: seq<ToolCall>, results: seq<Result>, idx: seq<nat>, r: Result)
    requires KeptAt(ms, calls, results, idx) && |results| < |calls|
    ensures r.ephemeral ==> KeptAt(ms, calls, results + [r], idx)
    ensures !r.ephemeral ==> KeptAt(ms + [Answer(calls[|results|], r)], calls, results + [r], idx + [|results|])
  {
    var more := idx + [|results|];
    assert more[|idx|] == |results|;
    assert forall i :: 0 <= i < |idx| ==> more[i] == idx[i];
  }

  lemma {:induction false} KeptLast(calls: seq<ToolCall>, front: seq<Result>, r: Result)
    requires |front| < |calls|
    ensures KeptAnswers(calls, front + [r])
            == if r.ephemeral then KeptAnswers(calls, front) else KeptAnswers(calls, front) + [Answer(calls[|front|], r)]
  {
    assert (front + [r])[..|front|] == front;
  }

  lemma {:induction false} KeptPositions(calls: seq<ToolCall>, results: seq<Result>) returns (idx: seq<nat>)
    requires |results| <= |calls|
    ensures KeptAt(KeptAnswers(calls, results), calls, results, idx)
  {
    if results == [] {
      idx := [];
    } else {
      var front, r := results[..|results| - 1], results[|results| - 1];
      assert front + [r] == results;
      idx := KeptPositions(calls, front);
      KeptLast(calls, front, r);
      KeptNext(KeptAnswers(calls, front), calls, front, idx, r);
      idx := if r.ephemeral then idx else idx + [|front|];
    }
  }

  lemma {:induction false} KeptDelivered(calls: seq<ToolCall>, results: seq<Result>)
    requires |results| <= |calls|
    ensures DeliveredKept(KeptAnswers(calls, results), calls, results)
  {
    var idx := KeptPositions(calls, results);
  }

  // ----- one round -----

  function NotEphemeral(ephemeral: string -> bool): ToolCall -> bool {
    (c: ToolCall) => !ephemeral(c.name)
  }

  lemma {:induction false} PersistedSelects(calls: seq<ToolCall>, ephemeral: string -> bool)
    ensures Picks(Persisted(calls, ephemeral), calls, NotEphemeral(ephemeral))
  {
    if calls == [] {
      PicksNothing(NotEphemeral(ephemeral));
    } else {
      var n := |calls| - 1;
      PersistedSelects(calls[..n], ephemeral);
      PicksNext(Persisted(calls[..n], ephemeral), calls[..n], NotEphemeral(ephemeral), calls[n]);
      assert calls[..n] + [calls[n]] == calls;
    }
  }

  /** What a model is shown of a round: its own message, the text of every result under the
      id of the call at its position, and what users pushed meanwhile. */
  ghost predicate Shows(t: seq<Message>, reply: Reply, results: seq<Result>, pushed: seq<Message>)
    requires reply.Reply?
  {
    |results| == |reply.calls|
    && exists answers :: Delivered(answers, reply.calls, results)
                         && t == [Message(Assistant, reply.content, reply.calls, "", "", "")] + answers + pushed
  }

  /** What the session keeps of it: the same without ephemeral calls and ephemeral results. */
  ghost predicate Keeps(t: seq<Message>, reply: Reply, results: seq<Result>, pushed: seq<Message>, ephemeral: string -> bool)
    requires reply.Reply?
  {
    exists calls, kept :: Picks(calls, reply.calls, NotEphemeral(ephemeral)) && DeliveredKept(kept, reply.calls, results)
                          && t == [Message(Assistant, reply.content, calls, "", "", "")] + kept + pushed
  }

  lemma {:induction false} CalledBody(env: Environment, pending: seq<Message>, k: nat, results: seq<Result>)
    requires env.KindAt(k).Called?
    ensures env.Body(pending, k, results) == [env.Recorded(k)] + KeptAnswers(env.CallsAt(k), results) + env.Steered(pending, k)
    ensures env.LiveBody(pending, k, results) == [env.Full(k)] + AllAnswers(env.CallsAt(k), results) + env.Steered(pending, k)
    ensures env.reply(k).Reply?
  {}

  lemma {:induction false} CalledShows(env: Environment, pending: seq<Message>, k: nat, results: seq<Result>)
    requires env.KindAt(k).Called? && |results| == |env.CallsAt(k)|
    ensures Shows(env.LiveBody(pending, k, results), env.reply(k), results, env.Steered(pending, k))
  {
    CalledBody(env, pending, k, results);
    AnswersDelivered(env.CallsAt(k), results);
    assert Delivered(AllAnswers(env.CallsAt(k), results), env.reply(k).calls, results);
  }

  lemma {:induction false} CalledKeeps(env: Environment, pending: seq<Message>, k: nat, results: seq<Result>)
    requires env.KindAt(k).Called? && |results| == |env.CallsAt(k)|
    ensures Keeps(env.Body(pending, k, results), env.reply(k), results, env.Steered(pending, k), env.ephemeral)
  {
    CalledBody(env, pending, k, results);
    PersistedSelects(env.CallsAt(k), env.ephemeral);
    KeptDelivered(env.CallsAt(k), results);
    assert Picks(env.Recorded(k).calls, env.reply(k).calls, NotEphemeral(env.ephemeral));
    assert DeliveredKept(KeptAnswers(env.CallsAt(k), results), env.reply(k).calls, results);
  }

  // ----- what the model is asked with -----

  /** What each iteration adds to the live list. */
  ghost function LiveBodies(env: Environment, pending: seq<Message>, rounds: seq<seq<Result>>): (r: seq<seq<Message>>)
    ensures |r| == |rounds|
  {
    seq(|rounds|, i requires 0 <= i < |rounds| => env.LiveBody(pending, i, rounds[i]))
  }

  lemma {:induction false} FlattenNext<T>(parts: seq<seq<T>>, part: seq<T>)
    ensures Text.Flatten(parts + [part]) == Text.Flatten(parts) + part
  {
    if parts == [] {
      assert ([] + [part])[1..] == [];
    } else {
      assert (parts + [part])[1..] == parts[1..] + [part];
      FlattenNext(parts[1..], part);
    }
  }

  lemma {:induction false} FlatStep<T>(whole: seq<T>, parts: seq<seq<T>>, part: seq<T>)
    requires whole == Text.Flatten(parts)
    ensures whole + part == Text.Flatten(parts + [part])
  {
    FlattenNext(parts, part);
  }

  lemma {:induction false} LiveLast(env: Environment, pending: seq<Message>, rounds: seq<seq<Result>>)
    requires rounds != []
    ensures env.Live(pending, rounds)
            == env.Live(pending, rounds[..|rounds| - 1]) + env.LiveBody(pending, |rounds| - 1, rounds[|rounds| - 1])
  {}

  lemma {:induction false} LiveBodiesLast(env: Environment, pending: seq<Message>, rounds: seq<seq<Result>>)
    requires rounds != []
    ensures LiveBodies(env, pending, rounds)
            == LiveBodies(env, pending, rounds[..|rounds| - 1]) + [env.LiveBody(pending, |rounds| - 1, rounds[|rounds| - 1])]
  {}

  lemma {:induction false} LiveIsFlat(env: Environment, pending: seq<Message>, rounds: seq<seq<Result>>)
    ensures env.Live(pending, rounds) == Text.Flatten(LiveBodies(env, pending, rounds))
  {
    if rounds != [] {
      var n := |rounds| - 1;
      LiveIsFlat(env, pending, rounds[..n]);
      LiveLast(env, pending, rounds);
      LiveBodiesLast(env, pending, rounds);
      FlatStep(env.Live(pending, rounds[..n]), LiveBodies(env, pending, rounds[..n]), env.LiveBody(pending, n, rounds[n]));
    }
  }

  lemma {:induction false} FlattenSplit<T>(parts: seq<seq<T>>, k: nat)
    requires k < |parts|
    ensures Text.Flatten(parts) == Text.Flatten(parts[..k]) + parts[k] + Text.Flatten(parts[k + 1..])
    decreases k
  {
    if k > 0 {
      assert parts[1..][..k - 1] == parts[..k][1..] && parts[1..][k..] == parts[k + 1..];
      FlattenSplit(parts[1..], k - 1);
    }
  }

  lemma {:induction false} AskedLastOne(env: Environment, start: seq<Message>, pending: seq<Message>, rounds: seq<seq<Result>>)
    requires rounds != []
    ensures var front := env.Asked(start, pending, rounds[..|rounds| - 1]);
            env.Asked(start, pending, rounds)
            == if env.KindAt(|rounds| - 1).Skipped? then front
               else front + [RequestFor(start + env.Live(pending, rounds[..|rounds| - 1]), env.Tally(rounds[..|rounds| - 1]))]
  {}

  lemma {:induction false} AskedEarlier(env: Environment, start: seq<Message>, pending: seq<Message>, rounds: seq<seq<Result>>,
                                        j: nat)
    requires rounds != [] && j < |env.Asked(start, pending, rounds[..|rounds| - 1])|
    ensures j < |env.Asked(start, pending, rounds)|
    ensures env.Asked(start, pending, rounds)[j] == env.Asked(start, pending, rounds[..|rounds| - 1])[j]
  {
    AskedLastOne(env, start, pending, rounds);
  }

  /** No hook answers itself in the first n iterations. */
  ghost predicate NoneSkips(env: Environment, n: nat) {
    forall i: nat :: i < n ==> !env.KindAt(i).Skipped?
  }

  lemma {:induction false} AskedCount(env: Environment, start: seq<Message>, pending: seq<Message>, rounds: seq<seq<Result>>)
    requires NoneSkips(env, |rounds|)
    ensures |env.Asked(start, pending, rounds)| == |rounds|
  {
    if rounds != [] {
      AskedLastOne(env, start, pending, rounds);
      AskedCount(env, start, pending, rounds[..|rounds| - 1]);
    }
  }

  /** Request j is made with the list at the start of iteration j. */
  ghost predicate AsksAt(env: Environment, start: seq<Message>, pending: seq<Message>, rounds: seq<seq<Result>>, j: nat)
    requires j <= |rounds|
  {
    && j < |env.Asked(start, pending, rounds)|
    && env.Asked(start, pending, rounds)[j] == RequestFor(start + env.Live(pending, rounds[..j]), env.Tally(rounds[..j]))
  }

  lemma {:induction false} AsksOneMore(env: Environment, start: seq<Message>, pending: seq<Message>, rounds: seq<seq<Result>>,
                                       j: nat)
    requires j < |rounds| - 1 && AsksAt(env, start, pending, rounds[..|rounds| - 1], j)
    ensures AsksAt(env, start, pending, rounds, j)
  {
    AskedEarlier(env, start, pending, rounds, j);
    assert rounds[..|rounds| - 1][..j] == rounds[..j];
  }

  /** Iterations ask the model in turn, each with the list so far. */
  lemma {:induction false} AskedAt(env: Environment, start: seq<Message>, pending: seq<Message>, rounds: seq<seq<Result>>, j: nat)
    requires j < |rounds| && NoneSkips(env, j + 1)
    ensures AsksAt(env, start, pending, rounds, j)
  {
    var n := |rounds| - 1;
    if j < n {
      AskedAt(env, start, pending, rounds[..n], j);
      AsksOneMore(env, start, pending, rounds, j);
    } else {
      AskedLastOne(env, start, pending, rounds);
      AskedCount(env, start, pending, rounds[..n]);
    }
  }

  /** The list goes on with t behind the front. */
  ghost predicate Reads(q: seq<Message>, front: seq<Message>, t: seq<Message>) {
    front + t <= q
  }

  /** Behind the front the list shows the round. */
  ghost predicate ShowsBehind(q: seq<Message>, front: seq<Message>, reply: Reply, results: seq<Result>, pushed: seq<Message>)
    requires reply.Reply?
  {
    exists t :: Shows(t, reply, results, pushed) && Reads(q, front, t)
  }

  lemma {:induction false} ReadsOn(q: seq<Message>, front: seq<Message>, t: seq<Message>, tail: seq<Message>)
    requires Reads(q, front, t)
    ensures Reads(q + tail, front, t)
  {}

  lemma {:induction false} ReadsRequest(list: seq<Message>, tally: nat, front: seq<Message>, t: seq<Message>)
    requires Reads(list, front, t)
    ensures Reads(RequestFor(list, tally).messages, front, t)
  {
    if tally >= FAILED_LIMIT { ReadsOn(list, front, t, [Plain(System, FAILED_NUDGE)]); }
  }

  lemma {:induction false} ReadsPart(start: seq<Message>, whole: seq<Message>, parts: seq<seq<Message>>, k: nat)
    requires k < |parts| && whole == Text.Flatten(parts)
    ensures Reads(start + whole, start + Text.Flatten(parts[..k]), parts[k])
  {
    FlattenSplit(parts, k);
    ReadsMiddle(start, Text.Flatten(parts[..k]), parts[k], Text.Flatten(parts[k + 1..]));
  }

  lemma {:induction false} ReadsMiddle(start: seq<Message>, a: seq<Message>, t: seq<Message>, b: seq<Message>)
    ensures Reads(start + (a + t + b), start + a, t)
  {}

  lemma {:induction false} LiveBodiesUpTo(env: Environment, pending: seq<Message>, rounds: seq<seq<Result>>, k: nat)
    requires k < |rounds|
    ensures LiveBodies(env, pending, rounds)[..k] == LiveBodies(env, pending, rounds[..k])
    ensures LiveBodies(env, pending, rounds)[k] == env.LiveBody(pending, k, rounds[k])
  {}

  lemma {:induction false} ReadsLive(env: Environment, start: seq<Message>, pending: seq<Message>, rounds: seq<seq<Result>>, k: nat)
    requires k < |rounds|
    ensures Reads(start + env.Live(pending, rounds), start + env.Live(pending, rounds[..k]),
                  env.LiveBody(pending, k, rounds[k]))
  {
    LiveBodiesUpTo(env, pending, rounds, k);
    LiveIsFlat(env, pending, rounds);
    LiveIsFlat(env, pending, rounds[..k]);
    ReadsPart(start, env.Live(pending, rounds), LiveBodies(env, pending, rounds), k);
  }

  lemma {:induction false} SliceAgain<T>(s: seq<T>, j: nat, k: nat)
    requires k < j <= |s|
    ensures s[..j][..k] == s[..k] && s[..j][k] == s[k]
  {}

  lemma {:induction false} ReadsEarlier(env: Environment, start: seq<Message>, pending: seq<Message>, rounds: seq<seq<Result>>,
                                        k: nat, j: nat)
    requires k < j < |rounds|
    ensures Reads(RequestFor(start + env.Live(pending, rounds[..j]), env.Tally(rounds[..j])).messages,
                  start + env.Live(pending, rounds[..k]), env.LiveBody(pending, k, rounds[k]))
  {
    SliceAgain(rounds, j, k);
    ReadsLive(env, start, pending, rounds[..j], k);
    ReadsRequest(start + env.Live(pending, rounds[..j]), env.Tally(rounds[..j]), start + env.Live(pending, rounds[..k]),
                 env.LiveBody(pending, k, rounds[k]));
  }

  /** Every later request reads what iteration k added. */
  lemma {:induction false} RequestReads(env: Environment, start: seq<Message>, pending: seq<Message>, rounds: seq<seq<Result>>,
                                        k: nat, j: nat)
    requires k < j < |rounds| && NoneSkips(env, j + 1)
    ensures j < |env.Asked(start, pending, rounds)|
    ensures Reads(env.Asked(start, pending, rounds)[j].messages, start + env.Live(pending, rounds[..k]),
                  env.LiveBody(pending, k, rounds[k]))
  {
    AskedAt(env, start, pending, rounds, j);
    ReadsEarlier(env, start, pending, rounds, k, j);
  }

  /** Every round with tool calls has one result per call. */
  ghost predicate OneEach(env: Environment, rounds: seq<seq<Result>>) {
    forall k :: 0 <= k < |rounds| ==> HasOneEach(env, k, |rounds[k]|)
  }

  ghost predicate HasOneEach(env: Environment, k: nat, n: nat) {
    env.KindAt(k).Called? ==> n == |env.CallsAt(k)|
  }

  /** In a run of the loop this is so, and only its last iteration may be without a model call. */
  lemma {:induction false} RunsHaveOneEach(env: Environment, pending: seq<Message>, rounds: seq<seq<Result>>)
    requires env.Runs(pending, rounds)
    ensures OneEach(env, rounds) && (rounds != [] ==> NoneSkips(env, |rounds| - 1))
  {
    forall k | 0 <= k < |rounds| ensures HasOneEach(env, k, |rounds[k]|) { assert env.Fits(k, rounds[k]); }
    forall i: nat | i < |rounds| - 1 ensures !env.KindAt(i).Skipped? { assert !env.Ends(pending, i); }
  }

  /** Every later model call of the turn shows the round: the reply with its calls, the text
      of each result, and what users pushed. */
  lemma {:induction false} RoundReachesModel(env: Environment, start: seq<Message>, pending: seq<Message>,
                                             rounds: seq<seq<Result>>, k: nat, j: nat)
    requires OneEach(env, rounds) && NoneSkips(env, j + 1) && k < j < |rounds| && env.KindAt(k).Called?
    ensures j < |env.Asked(start, pending, rounds)| && env.reply(k).Reply?
    ensures ShowsBehind(env.Asked(start, pending, rounds)[j].messages, start + env.Live(pending, rounds[..k]),
                    env.reply(k), rounds[k], env.Steered(pending, k))
  {
    assert HasOneEach(env, k, |rounds[k]|);
    RequestReads(env, start, pending, rounds, k, j);
    CalledShows(env, pending, k, rounds[k]);
  }

  lemma {:induction false} ClosingReads(env: Environment, start: seq<Message>, pending: seq<Message>, rounds: seq<seq<Result>>,
                                        k: nat, messages: seq<Message>)
    requires k < |rounds| && messages == start + env.Live(pending, rounds) + [Plain(System, NUDGE)]
    ensures Reads(messages, start + env.Live(pending, rounds[..k]), env.LiveBody(pending, k, rounds[k]))
  {
    ReadsLive(env, start, pending, rounds, k);
    ReadsOn(start + env.Live(pending, rounds), start + env.Live(pending, rounds[..k]), env.LiveBody(pending, k, rounds[k]),
            [Plain(System, NUDGE)]);
  }

  /** So does the closing call, which has the nudge behind it and no tools. */
  lemma {:induction false} RoundReachesClosing(env: Environment, start: seq<Message>, pending: seq<Message>,
                                               rounds: seq<seq<Result>>, k: nat, q: Request)
    requires OneEach(env, rounds) && k < |rounds| && env.KindAt(k).Called?
    requires q in env.AskedLast(start, pending, rounds)
    ensures !q.tools && q.messages != [] && q.messages[|q.messages| - 1] == Message(System, NUDGE, [], "", "", "")
    ensures env.reply(k).Reply?
    ensures ShowsBehind(q.messages, start + env.Live(pending, rounds[..k]), env.reply(k), rounds[k], env.Steered(pending, k))
  {
    assert HasOneEach(env, k, |rounds[k]|);
    ClosingReads(env, start, pending, rounds, k, q.messages);
    CalledShows(env, pending, k, rounds[k]);
  }

  // ----- what the session keeps -----

  /** What each iteration writes to the session. */
  ghost function Pieces(env: Environment, pending: seq<Message>, rounds: seq<seq<Result>>): (r: seq<seq<Message>>)
    ensures |r| == |rounds|
  {
    seq(|rounds|, i requires 0 <= i < |rounds| => env.Piece(pending, i, rounds[i]))
  }

  lemma {:induction false} WrittenLast(env: Environment, pending: seq<Message>, rounds: seq<seq<Result>>)
    requires rounds != []
    ensures env.Written(pending, rounds)
            == env.Written(pending, rounds[..|rounds| - 1]) + env.Piece(pending, |rounds| - 1, rounds[|rounds| - 1])
    ensures Pieces(env, pending, rounds)
            == Pieces(env, pending, rounds[..|rounds| - 1]) + [env.Piece(pending, |rounds| - 1, rounds[|rounds| - 1])]
  {}

  lemma {:induction false} WrittenIsFlat(env: Environment, pending: seq<Message>, rounds: seq<seq<Result>>)
    ensures env.Written(pending, rounds) == Text.Flatten(Pieces(env, pending, rounds))
  {
    if rounds != [] {
      var n := |rounds| - 1;
      WrittenIsFlat(env, pending, rounds[..n]);
      WrittenLast(env, pending, rounds);
      FlatStep(env.Written(pending, rounds[..n]), Pieces(env, pending, rounds[..n]), env.Piece(pending, n, rounds[n]));
    }
  }

  lemma {:induction false} PiecesUpTo(env: Environment, pending: seq<Message>, rounds: seq<seq<Result>>, k: nat)
    requires k < |rounds|
    ensures Pieces(env, pending, rounds)[..k] == Pieces(env, pending, rounds[..k])
    ensures Pieces(env, pending, rounds)[k] == env.Piece(pending, k, rounds[k])
  {}

  lemma {:induction false} ReadsWritten(env: Environment, base: seq<Message>, pending: seq<Message>, rounds: seq<seq<Result>>,
                                        k: nat)
    requires k < |rounds|
    ensures Reads(base + env.Written(pending, rounds), base + env.Written(pending, rounds[..k]),
                  env.Piece(pending, k, rounds[k]))
  {
    PiecesUpTo(env, pending, rounds, k);
    WrittenIsFlat(env, pending, rounds);
    WrittenIsFlat(env, pending, rounds[..k]);
    ReadsPart(base, env.Written(pending, rounds), Pieces(env, pending, rounds), k);
  }

  /** Behind the front the session keeps the round. */
  ghost predicate KeepsBehind(h: seq<Message>, front: seq<Message>, reply: Reply, results: seq<Result>, pushed: seq<Message>,
                              ephemeral: string -> bool)
    requires reply.Reply?
  {
    exists t :: Keeps(t, reply, results, pushed, ephemeral) && Reads(h, front, t)
  }

  lemma {:induction false} ReadsSecond(h: seq<Message>, front: seq<Message>, a: seq<Message>, b: seq<Message>)
    requires Reads(h, front, a + b)
    ensures Reads(h, front + a, b)
  {
    assert front + (a + b) == front + a + b;
  }

  /** The history at the end of a turn: what it had before the loop, what the iterations wrote,
      and the rest. */
  lemma {:induction false} FinalSplits(env: Environment, o: Opening, rounds: seq<seq<Result>>, depth: nat)
    returns (pads: seq<Message>)
    ensures env.Final(o, rounds, depth)
            == env.Base(o) + env.Written(o.pending, rounds) + env.Closing(o.pending, |rounds|) + pads
               + Leftover(depth, env.Left(o.pending, |rounds|) + env.late)
  {
    var h := env.Ended(o, rounds);
    pads := Padding.Padded(h)[|h|..];
    PadsBehind(h);
  }

  lemma {:induction false} PadsBehind(h: seq<Message>)
    ensures |h| <= |Padding.Padded(h)| && Padding.Padded(h) == h + Padding.Padded(h)[|h|..]
  {}

  lemma {:induction false} Tail(a: seq<Message>, b: seq<Message>, c: seq<Message>, d: seq<Message>, e: seq<Message>)
    ensures a + b + c + d + e == a + b + (c + d + e)
  {}

  /** The history at the end of a turn reads what iteration k wrote. */
  lemma {:induction false} FinalReads(env: Environment, o: Opening, rounds: seq<seq<Result>>, k: nat, depth: nat)
    requires k < |rounds|
    ensures Reads(env.Final(o, rounds, depth), env.Base(o) + env.Written(o.pending, rounds[..k]),
                  env.Piece(o.pending, k, rounds[k]))
  {
    var pads := FinalSplits(env, o, rounds, depth);
    var closing, rest := env.Closing(o.pending, |rounds|), Leftover(depth, env.Left(o.pending, |rounds|) + env.late);
    Tail(env.Base(o), env.Written(o.pending, rounds), closing, pads, rest);
    ReadsWritten(env, env.Base(o), o.pending, rounds, k);
    ReadsOn(env.Base(o) + env.Written(o.pending, rounds), env.Base(o) + env.Written(o.pending, rounds[..k]),
            env.Piece(o.pending, k, rounds[k]), closing + pads + rest);
  }

  lemma {:induction false} KeepsFrom(env: Environment, pending: seq<Message>, k: nat, results: seq<Result>, h: seq<Message>,
                                     front: seq<Message>)
    requires env.KindAt(k).Called? && |results| == |env.CallsAt(k)| && Reads(h, front, env.Piece(pending, k, results))
    ensures KeepsBehind(h, front + SyntheticRounds(env.synthetic(k)), env.reply(k), results, env.Steered(pending, k), env.ephemeral)
  {
    ReadsSecond(h, front, SyntheticRounds(env.synthetic(k)), env.Body(pending, k, results));
    CalledKeeps(env, pending, k, results);
  }

  /** The session keeps every round: the reply without its ephemeral calls, the text of each
      result that is not ephemeral, and what users pushed. */
  lemma {:induction false} RoundIsKept(env: Environment, o: Opening, rounds: seq<seq<Result>>, k: nat, depth: nat)
    requires OneEach(env, rounds) && k < |rounds| && env.KindAt(k).Called?
    ensures env.reply(k).Reply?
    ensures KeepsBehind(env.Final(o, rounds, depth),
                    env.Base(o) + env.Written(o.pending, rounds[..k]) + SyntheticRounds(env.synthetic(k)),
                    env.reply(k), rounds[k], env.Steered(o.pending, k), env.ephemeral)
  {
    assert HasOneEach(env, k, |rounds[k]|);
    FinalReads(env, o, rounds, k, depth);
    KeepsFrom(env, o.pending, k, rounds[k], env.Final(o, rounds, depth), env.Base(o) + env.Written(o.pending, rounds[..k]));
  }

  // ----- iterations without a round -----

  /** An answer in text is saved with its text, whatever users push behind it; the model is
      shown it again only if the loop goes on and it is not empty. */
  lemma {:induction false} SpokeSays(env: Environment, pending: seq<Message>, k: nat, results: seq<Result>)
    requires env.KindAt(k).Spoke?
    ensures env.reply(k).Reply? && env.reply(k).calls == []
    ensures env.Body(pending, k, results)
            == [Message(Assistant, env.reply(k).content, [], "", "", "")] + env.Steered(pending, k)
    ensures env.Steered(pending, k) != [] && env.reply(k).content != "" ==>
              env.LiveBody(pending, k, results)
              == [Message(Assistant, env.reply(k).content, [], "", "", "")] + env.Steered(pending, k)
    ensures env.Steered(pending, k) == [] || env.reply(k).content == "" ==>
              env.LiveBody(pending, k, results) == env.Steered(pending, k)
  {}

  /** The batch that the repetition guard breaks off is recorded, and a warning behind it. */
  lemma {:induction false} LoopedSays(env: Environment, pending: seq<Message>, k: nat, results: seq<Result>)
    requires env.KindAt(k).Looped?
    ensures env.reply(k).Reply?
    ensures exists kept :: Picks(kept, env.reply(k).calls, NotEphemeral(env.ephemeral))
              && env.Body(pending, k, results) == [Message(Assistant, env.reply(k).content, kept, "", "", ""),
                                                   Message(System, WARNING, [], "", "", "")]
    ensures env.LiveBody(pending, k, results) == [Message(Assistant, env.reply(k).content, env.reply(k).calls, "", "", ""),
                                                  Message(System, WARNING, [], "", "", "")]
  {
    PersistedSelects(env.CallsAt(k), env.ephemeral);
    assert Picks(Persisted(env.CallsAt(k), env.ephemeral), env.reply(k).calls, NotEphemeral(env.ephemeral));
  }

  /** The history at the end of a turn reads the body of iteration k behind its injected calls. */
  lemma {:induction false} FinalReadsBody(env: Environment, o: Opening, rounds: seq<seq<Result>>, k: nat, depth: nat)
    requires k < |rounds|
    ensures Reads(env.Final(o, rounds, depth),
                  env.Base(o) + env.Written(o.pending, rounds[..k]) + SyntheticRounds(env.synthetic(k)),
                  env.Body(o.pending, k, rounds[k]))
  {
    FinalReads(env, o, rounds, k, depth);
    ReadsSecond(env.Final(o, rounds, depth), env.Base(o) + env.Written(o.pending, rounds[..k]),
                SyntheticRounds(env.synthetic(k)), env.Body(o.pending, k, rounds[k]));
  }

  /** Each injected call is two messages: the call, and its result under the same id. */
  lemma {:induction false} SyntheticAre(items: seq<Synthetic>, i: nat)
    requires i < |items|
    ensures var r, id := SyntheticRounds(items), "synth-" + items[i].name;
            && |r| == 2 * |items|
            && r[2 * i] == Message(Assistant, "", [ToolCall(id, items[i].name, items[i].args)], "", "", "")
            && r[2 * i + 1] == Message(Tool, items[i].result, [], id, "", "")
  {
    var n := |items| - 1;
    SyntheticCount(items);
    SyntheticCount(items[..n]);
    if i < n { SyntheticAre(items[..n], i); }
  }

  lemma {:induction false} SyntheticCount(items: seq<Synthetic>)
    ensures |SyntheticRounds(items)| == 2 * |items|
  {
    if items != [] { SyntheticCount(items[..|items| - 1]); }
  }

  /** The model is asked for a closing text exactly when the loop was not left by an answer,
      a failure or a hook. */
  lemma {:induction false} ForcedIff(env: Environment, pending: seq<Message>, n: nat)
    ensures env.Forced(pending, n) <==>
              n == 0 || match env.KindAt(n - 1)
                        case Skipped => false
                        case Broken => false
                        case Spoke => env.Steered(pending, n - 1) != []
                        case Looped => true
                        case Called => true
  {}

  /** Then the turn ends with a text that is not empty: the model's, or the canned line. */
  lemma {:induction false} ClosingSays(env: Environment, pending: seq<Message>, n: nat)
    ensures !env.Forced(pending, n) ==> env.Closing(pending, n) == []
    ensures env.Forced(pending, n) ==>
              exists text :: env.Closing(pending, n) == [Message(Assistant, text, [], "", "", "")] && text != ""
                && (if env.finalReply == Failed || env.finalReply.content == "" then text == CAP_TEXT
                    else text == env.finalReply.content)
  {
    if env.Forced(pending, n) { assert env.Closing(pending, n) == [Message(Assistant, env.FinalText(), [], "", "", "")]; }
  }

  // ----- what a turn starts from -----

  /** The approved calls as a round of their own: under fresh ids, each with the text of its result. */
  ghost predicate ShowsApproved(t: seq<Message>, calls: seq<ToolCall>, env: Environment) {
    if calls == [] then t == []
    else
      && |t| == |calls| + 1 && t[0].role == Assistant && t[0].content == "" && t[0].origin == "" && |t[0].calls| == |calls|
      && forall i :: 0 <= i < |calls| ==>
           && t[0].calls[i] == ToolCall("authrun-" + env.runId(i), calls[i].name, calls[i].args)
           && Carries(t[i + 1], t[0].calls[i], Executed(calls[i], env.approvedResponses, env.ephemeral))
  }

  lemma {:induction false} ApprovedShows(env: Environment, calls: seq<ToolCall>)
    ensures ShowsApproved(env.ApprovedRound(calls), calls, env)
  {
    if calls != [] {
      var t := env.ApprovedRound(calls);
      forall i | 0 <= i < |calls|
        ensures t[0].calls[i] == ToolCall("authrun-" + env.runId(i), calls[i].name, calls[i].args)
        ensures Carries(t[i + 1], t[0].calls[i], Executed(calls[i], env.approvedResponses, env.ephemeral))
      {
        assert t[i + 1] == env.ApprovedAnswers(calls)[i];
      }
    }
  }

  /** The history c is what compaction may leave of all, and ends with what the user has just
      said: all of it below the threshold, else with its long old results cut if that suffices
      or there is no way to compress, else a summary and a suffix. */
  ghost predicate CompactedFrom(c: seq<Message>, all: seq<Message>, summary: Option<string>, text: string) {
    && c != [] && c[|c| - 1] == Message(User, text, [], "", "", "")
    && (Compaction.Tokens(all) < Compaction.TOKEN_THRESHOLD ==> c == all)
    && (Compaction.Tokens(all) >= Compaction.TOKEN_THRESHOLD ==>
          || (Compaction.CutFrom(c, all)
              && (Compaction.Tokens(c) < Compaction.TOKEN_THRESHOLD || |all| <= Compaction.PRUNE_TURN_AGE || summary.None?))
          || (summary.Some? && Compaction.IsSummaryAndSuffix(c, all, summary.value)))
  }

  lemma {:induction false} CompactIs(o: Opening)
    ensures CompactedFrom(o.Compact(), o.history + [Message(User, o.text, [], "", "", "")], o.summary, o.text)
  {
    Compaction.LastSurvives(o.history, o.summary, Plain(User, o.text));
    Compaction.CompactedOutcome(o.history + [Plain(User, o.text)], o.summary);
  }

  lemma {:induction false} PrefixOn(a: seq<Message>, b: seq<Message>, c: seq<Message>)
    ensures a <= a + b && a <= a + b + c
  {}

  lemma {:induction false} RequestBegins(start: seq<Message>, live: seq<Message>, tally: nat)
    ensures start <= RequestFor(start + live, tally).messages
  {
    PrefixOn(start, live, [Plain(System, FAILED_NUDGE)]);
  }

  /** Every request of a turn begins with the list the turn starts from. */
  lemma {:induction false} AskedBegin(env: Environment, start: seq<Message>, pending: seq<Message>, rounds: seq<seq<Result>>)
    ensures forall q :: q in env.Asked(start, pending, rounds) ==> start <= q.messages
  {
    if rounds != [] {
      var front := rounds[..|rounds| - 1];
      AskedLastOne(env, start, pending, rounds);
      AskedBegin(env, start, pending, front);
      RequestBegins(start, env.Live(pending, front), env.Tally(front));
    }
  }

  /** The list reads the compacted history, and behind it the round of the approved calls with
      their results. */
  ghost predicate ReadsOpening(q: seq<Message>, front: seq<Message>, o: Opening, env: Environment) {
    exists history, approved ::
      && Reads(q, front, history + approved)
      && CompactedFrom(history, o.history + [Message(User, o.text, [], "", "", "")], o.summary, o.text)
      && ShowsApproved(approved, o.approved, env)
  }

  lemma {:induction false} OpeningIs(env: Environment, o: Opening, q: seq<Message>, front: seq<Message>)
    requires Reads(q, front, o.Compact() + env.ApprovedRound(o.approved))
    ensures ReadsOpening(q, front, o, env)
  {
    CompactIs(o);
    ApprovedShows(env, o.approved);
  }

  lemma {:induction false} StartReads(hints: seq<Message>, history: seq<Message>, approved: seq<Message>, q: seq<Message>)
    requires hints + history + approved <= q
    ensures Reads(q, hints, history + approved)
  {
    Assoc(hints, history, approved);
  }

  /** So every model call of a turn reads, behind the hints, what compaction leaves of the
      history with the user's message at its end, and the results of the approved calls. */
  lemma {:induction false} InboundReachesModel(env: Environment, o: Opening, rounds: seq<seq<Result>>, q: Request)
    requires q in env.Asked(env.Start(o), o.pending, rounds) + env.AskedLast(env.Start(o), o.pending, rounds)
    ensures ReadsOpening(q.messages, o.hints, o, env)
  {
    AskedBegin(env, env.Start(o), o.pending, rounds);
    PrefixOn(env.Start(o), env.Live(o.pending, rounds), [Plain(System, NUDGE)]);
    StartReads(o.hints, o.Compact(), env.ApprovedRound(o.approved), q.messages);
    OpeningIs(env, o, q.messages, o.hints);
  }

  /** The history that the turn leaves begins with the same, without the hints. */
  lemma {:induction false} SessionBegins(env: Environment, o: Opening, rounds: seq<seq<Result>>, depth: nat)
    ensures ReadsOpening(env.Final(o, rounds, depth), [], o, env)
  {
    var pads := FinalSplits(env, o, rounds, depth);
    BeginsWithBase(o.Compact() + env.ApprovedRound(o.approved), env.Written(o.pending, rounds),
                   env.Closing(o.pending, |rounds|), pads, Leftover(depth, env.Left(o.pending, |rounds|) + env.late));
    OpeningIs(env, o, env.Final(o, rounds, depth), []);
  }

  lemma {:induction false} BeginsWithBase(a: seq<Message>, b: seq<Message>, c: seq<Message>, d: seq<Message>, e: seq<Message>)
    ensures Reads(a + b + c + d + e, [], a)
  {}

  // ----- what users push -----

  /** Everything pushed up to the end of iteration n, in order. */
  function PushedBy(env: Environment, pending: seq<Message>, n: nat): seq<Message> {
    if n == 0 then pending else PushedBy(env, pending, n - 1) + env.steer(n - 1)
  }

  /** An iteration folds the buffer into the history or leaves it as it is. */
  lemma {:induction false} FoldsOrLeaves(env: Environment, pending: seq<Message>, k: nat, results: seq<Result>)
    returns (x: seq<Message>)
    ensures env.Piece(pending, k, results) + env.Left(pending, k + 1) == x + env.Steered(pending, k)
  {
    match env.KindAt(k)
    case Called =>
      x := SyntheticRounds(env.synthetic(k)) + ([env.Recorded(k)] + KeptAnswers(env.CallsAt(k), results));
      CalledBody(env, pending, k, results);
      Shift(SyntheticRounds(env.synthetic(k)), [env.Recorded(k)] + KeptAnswers(env.CallsAt(k), results), env.Steered(pending, k));
    case Spoke =>
      x := SyntheticRounds(env.synthetic(k)) + [Plain(Assistant, env.ContentAt(k))];
      Shift(SyntheticRounds(env.synthetic(k)), [Plain(Assistant, env.ContentAt(k))], env.Steered(pending, k));
    case _ =>
      x := env.Piece(pending, k, results);
  }

  lemma {:induction false} Shift(a: seq<Message>, b: seq<Message>, c: seq<Message>)
    ensures a + (b + c) + [] == a + b + c
  {}

  lemma {:induction false} SteeredIs(env: Environment, pending: seq<Message>, n: nat)
    requires !env.EndedBy(pending, n)
    ensures env.Steered(pending, n) == env.Left(pending, n) + env.steer(n)
  {}

  lemma {:induction false} InOrderGrows(part: seq<Message>, written: seq<Message>, left: seq<Message>, x: seq<Message>,
                                        more: seq<Message>)
    requires InOrder(part, written + left)
    ensures InOrder(part + more, written + (x + (left + more)))
  {
    InOrderInsert(part, written, x, left);
    InOrderAppend(part, written + x + left, more);
    assert written + (x + (left + more)) == written + x + left + more;
  }

  /** Whatever was pushed stands in what the turn wrote or is still in the buffer, in order. */
  lemma {:induction false} PushedInOrder(env: Environment, pending: seq<Message>, rounds: seq<seq<Result>>)
    requires forall k :: 0 <= k < |rounds| - 1 ==> !env.Ends(pending, k)
    ensures InOrder(PushedBy(env, pending, |rounds|), env.Written(pending, rounds) + env.Left(pending, |rounds|))
  {
    if rounds == [] {
      InOrderSelf(pending);
      assert env.Written(pending, []) + env.Left(pending, 0) == pending;
    } else {
      var n := |rounds| - 1;
      PushedInOrder(env, pending, rounds[..n]);
      SteeredIs(env, pending, n);
      var x := FoldsOrLeaves(env, pending, n, rounds[n]);
      InOrderGrows(PushedBy(env, pending, n), env.Written(pending, rounds[..n]), env.Left(pending, n), x, env.steer(n));
      WrittenLast(env, pending, rounds);
      Assoc(env.Written(pending, rounds[..n]), env.Piece(pending, n, rounds[n]), env.Left(pending, n + 1));
    }
  }

  lemma {:induction false} Assoc(a: seq<Message>, b: seq<Message>, c: seq<Message>)
    ensures a + b + c == a + (b + c)
  {}

  lemma {:induction false} InOrderAround(part: seq<Message>, base: seq<Message>, written: seq<Message>, left: seq<Message>,
                                         x: seq<Message>)
    requires InOrder(part, written + left)
    ensures InOrder(part, base + written + x + left)
  {
    InOrderInsert(part, written, x, left);
    assert [] + (written + x + left) == written + x + left;
    InOrderInsert(part, [], base, written + x + left);
    assert [] + base + (written + x + left) == base + written + x + left;
  }

  /** What EndTurn hands back and what it leaves are the buffer. */
  lemma {:induction false} LeftoverOrKept(depth: nat, buf: seq<Message>)
    ensures Leftover(depth, buf) + BufferAfterEnd(depth, buf) == buf
  {}

  lemma {:induction false} Ordered(part: seq<Message>, base: seq<Message>, written: seq<Message>, closing: seq<Message>,
                                   pads: seq<Message>, left: seq<Message>, late: seq<Message>, over: seq<Message>,
                                   kept: seq<Message>)
    requires InOrder(part, written + left) && over + kept == left + late
    ensures InOrder(part + late, base + written + closing + pads + over + kept)
  {
    InOrderAround(part, base, written, left, closing + pads);
    InOrderAppend(part, base + written + (closing + pads) + left, late);
    assert base + written + closing + pads + over + kept == base + written + (closing + pads) + (over + kept);
    assert base + written + (closing + pads) + left + late == base + written + (closing + pads) + (left + late);
  }

  /** Nothing that users push during a turn is lost or overtaken: it stands in the history that
      the turn leaves, and what another turn in flight is to fold, in the buffer behind it. */
  lemma {:induction false} PushedIsKept(env: Environment, o: Opening, rounds: seq<seq<Result>>, depth: nat)
    requires forall k :: 0 <= k < |rounds| - 1 ==> !env.Ends(o.pending, k)
    ensures InOrder(PushedBy(env, o.pending, |rounds|) + env.late,
                    env.Final(o, rounds, depth) + BufferAfterEnd(depth, env.Left(o.pending, |rounds|) + env.late))
  {
    var n := |rounds|;
    var buf := env.Left(o.pending, n) + env.late;
    PushedInOrder(env, o.pending, rounds);
    var pads := FinalSplits(env, o, rounds, depth);
    LeftoverOrKept(depth, buf);
    Ordered(PushedBy(env, o.pending, n), env.Base(o), env.Written(o.pending, rounds), env.Closing(o.pending, n), pads,
            env.Left(o.pending, n), env.late, Leftover(depth, buf), BufferAfterEnd(depth, buf));
  }

  // ----- the repetition guard -----

  ghost predicate Same(c: ToolCall, d: ToolCall) {
    c.name == d.name && c.args == d.args
  }

  /** Three calls in a row have the same name and arguments, the third of them behind position n. */
  ghost predicate ThreeInARow(all: seq<ToolCall>, n: nat) {
    exists i: nat :: ThreeAt(all, i) && n <= i + 2
  }

  ghost predicate ThreeAt(all: seq<ToolCall>, i: nat) {
    i + 2 < |all| && Same(all[i], all[i + 1]) && Same(all[i + 1], all[i + 2])
  }

  lemma {:induction false} StreakIff(s: seq<ToolCall>)
    ensures Streak(s) >= 3 <==> |s| >= 3 && ThreeAt(s, |s| - 3)
  {
    var n := |s|;
    if n > 1 && SameSignature(s[n - 1], s[n - 2]) {
      var t := s[..n - 1];
      assert Streak(s) == Streak(t) + 1;
      assert Streak(t) >= 2 <==> n > 2 && SameSignature(t[n - 2], t[n - 3]);
    }
  }

  lemma {:induction false} UpTo(stream: seq<ToolCall>, calls: seq<ToolCall>, k: nat)
    requires k <= |calls|
    ensures stream + calls[..k] == (stream + calls)[..|stream| + k]
  {}

  lemma {:induction false} StreakAt(all: seq<ToolCall>, n: nat)
    requires n <= |all|
    ensures Streak(all[..n]) >= 3 <==> n >= 3 && ThreeAt(all, n - 3)
  {
    StreakIff(all[..n]);
  }

  lemma {:induction false} RepeatsThree(stream: seq<ToolCall>, calls: seq<ToolCall>)
    requires Repeats(stream, calls)
    ensures ThreeInARow(stream + calls, |stream|)
  {
    var k :| 0 < k <= |calls| && Streak(stream + calls[..k]) >= 3;
    UpTo(stream, calls, k);
    StreakAt(stream + calls, |stream| + k);
    assert ThreeAt(stream + calls, |stream| + k - 3);
  }

  lemma {:induction false} ThreeRepeats(stream: seq<ToolCall>, calls: seq<ToolCall>)
    requires ThreeInARow(stream + calls, |stream|)
    ensures Repeats(stream, calls)
  {
    var i: nat :| ThreeAt(stream + calls, i) && |stream| <= i + 2;
    var k := i + 3 - |stream|;
    UpTo(stream, calls, k);
    StreakAt(stream + calls, i + 3);
    assert Streak(stream + calls[..k]) >= 3;
  }

  /** The calls of the turn in front of iteration n, batch by batch. */
  function Batches(env: Environment, n: nat): (r: seq<seq<ToolCall>>)
    ensures |r| == n && forall i :: 0 <= i < n ==> r[i] == env.CallsAt(i)
  {
    seq(n, i requires 0 <= i < n => env.CallsAt(i))
  }

  lemma {:induction false} StreamIsFlat(env: Environment, n: nat)
    ensures env.Stream(n) == Text.Flatten(Batches(env, n))
  {
    if n > 0 {
      StreamIsFlat(env, n - 1);
      assert Batches(env, n) == Batches(env, n - 1) + [env.CallsAt(n - 1)];
      FlatStep(env.Stream(n - 1), Batches(env, n - 1), env.CallsAt(n - 1));
    }
  }

  /** The guard breaks off a batch exactly when, counted over the whole turn, three calls in a
      row are the same and the third is one of the batch. */
  lemma {:induction false} GuardStrikesIff(env: Environment, k: nat)
    requires !env.skip(k) && env.reply(k).Reply? && env.reply(k).calls != []
    ensures env.KindAt(k).Looped? <==>
            var before := Text.Flatten(Batches(env, k)); ThreeInARow(before + env.reply(k).calls, |before|)
    ensures env.KindAt(k).Looped? || env.KindAt(k).Called?
  {
    StreamIsFlat(env, k);
    if Repeats(env.Stream(k), env.CallsAt(k)) { RepeatsThree(env.Stream(k), env.CallsAt(k)); }
    if ThreeInARow(env.Stream(k) + env.CallsAt(k), |env.Stream(k)|) { ThreeRepeats(env.Stream(k), env.CallsAt(k)); }
  }
}
