/** What a turn asks the model with: the list it started from, grown by stretches in which
    every call is answered at once. */
module TurnPrompts {
  import opened Compaction
  import opened Conversation
  import opened Options
  import opened Pairing
  import opened ToolRound
  import opened TurnSpec

  // ----- iterations -----

  lemma {:induction false} AnswersMatch(calls: seq<ToolCall>, results: seq<Result>)
    requires |results| <= |calls|
    ensures AnswersOf(calls[..|results|], AllAnswers(calls, results))
  {
    if results != [] { AnswersMatch(calls, results[..|results| - 1]); }
  }

  lemma {:induction false} RunsFront(env: Environment, pending: seq<Message>, rounds: seq<seq<Result>>)
    requires env.Runs(pending, rounds) && rounds != []
    ensures env.Runs(pending, rounds[..|rounds| - 1])
    ensures !env.EndedBy(pending, |rounds| - 1) && !env.LoopedBy(|rounds| - 1)
  {}

  lemma {:induction false} SteeredAreUsers(env: Environment, pending: seq<Message>, k: nat)
    requires env.UsersPush(pending)
    ensures UserMessages(env.Steered(pending, k)) && WellPaired(env.Steered(pending, k))
  {
    assert UserMessages(env.steer(k));
    UserMessagesWellPaired(env.Steered(pending, k));
  }

  lemma {:induction false} LiveBodyPaired(env: Environment, pending: seq<Message>, k: nat, results: seq<Result>)
    requires !env.KindAt(k).Looped? && env.Fits(k, results) && env.UsersPush(pending)
    ensures WellPaired(env.LiveBody(pending, k, results))
  {
    SteeredAreUsers(env, pending, k);
    match env.KindAt(k)
    case Spoke =>
      var said := [Plain(Assistant, env.ContentAt(k))];
      assert WellPaired(said) by { assert said[1..] == []; }
      WellPairedConcat(said, env.Steered(pending, k));
    case Called =>
      CalledPaired(env, k, results, env.Steered(pending, k));
    case _ =>
  }

  lemma {:induction false} CalledPaired(env: Environment, k: nat, results: seq<Result>, steered: seq<Message>)
    requires |results| == |env.CallsAt(k)| && WellPaired(steered)
    ensures WellPaired([env.Full(k)] + AllAnswers(env.CallsAt(k), results) + steered)
  {
    var calls := env.CallsAt(k);
    AnswersMatch(calls, results);
    assert calls[..|results|] == calls;
    RoundWellPaired(env.Full(k), AllAnswers(calls, results));
    WellPairedConcat([env.Full(k)] + AllAnswers(calls, results), steered);
  }

  lemma {:induction false} LivePaired(env: Environment, pending: seq<Message>, rounds: seq<seq<Result>>)
    requires env.Runs(pending, rounds) && !env.LoopedBy(|rounds|) && env.UsersPush(pending)
    ensures WellPaired(env.Live(pending, rounds))
  {
    if rounds != [] {
      var n := |rounds| - 1;
      RunsFront(env, pending, rounds);
      LivePaired(env, pending, rounds[..n]);
      LiveBodyPaired(env, pending, n, rounds[n]);
      WellPairedConcat(env.Live(pending, rounds[..n]), env.LiveBody(pending, n, rounds[n]));
    }
  }

  lemma {:induction false} ExtendsBy(start: seq<Message>, t: seq<Message>)
    ensures Extends(start, start + t) <==> WellPaired(t)
  {
    assert (start + t)[|start|..] == t && (start + t)[..|start|] == start;
  }

  /** With or without the note on failed rounds. */
  lemma {:induction false} RequestPaired(start: seq<Message>, t: seq<Message>, tally: nat)
    requires WellPaired(t)
    ensures Extends(start, RequestFor(start + t, tally).messages)
  {
    var note := [Plain(System, FAILED_NUDGE)];
    assert note[1..] == [];
    WellPairedConcat(t, note);
    ExtendsBy(start, t);
    ExtendsBy(start, t + note);
    assert start + t + note == start + (t + note);
  }

  /** Every model call before the loop is left. */
  lemma {:induction false} AskedPaired(env: Environment, start: seq<Message>, pending: seq<Message>, rounds: seq<seq<Result>>)
    requires env.Runs(pending, rounds) && env.UsersPush(pending)
    ensures forall q :: q in env.Asked(start, pending, rounds) ==> Extends(start, q.messages)
  {
    if rounds != [] {
      var front := rounds[..|rounds| - 1];
      RunsFront(env, pending, rounds);
      AskedPaired(env, start, pending, front);
      LivePaired(env, pending, front);
      RequestPaired(start, env.Live(pending, front), env.Tally(front));
    }
  }

  // ----- the closing call -----

  lemma {:induction false} WellPairedSuffix(a: seq<Message>, b: seq<Message>)
    requires WellPaired(a) && WellPaired(a + b)
    ensures WellPaired(b)
    decreases |a|
  {
    if a == [] {
      assert a + b == b;
    } else {
      var n := if HasCalls(a[0]) then |a[0].calls| else 0;
      assert (a + b)[n + 1..] == a[n + 1..] + b;
      WellPairedSuffix(a[n + 1..], b);
    }
  }

  /** Calls with a system message behind them are open. */
  lemma {:induction false} CutOffNotPaired(asst: Message, t: seq<Message>)
    requires HasCalls(asst) && t != [] && t[0].role == System
    ensures !WellPaired([asst] + t)
  {
    var w := [asst] + t;
    var n := |asst.calls|;
    if n < |w| { assert w[1..n + 1][0] == t[0]; }
  }

  lemma {:induction false} CutOffBehind(front: seq<Message>, asst: Message, t: seq<Message>)
    requires WellPaired(front) && HasCalls(asst) && t != [] && t[0].role == System
    ensures !WellPaired(front + ([asst] + t))
  {
    CutOffNotPaired(asst, t);
    if WellPaired(front + ([asst] + t)) { WellPairedSuffix(front, [asst] + t); }
  }

  lemma {:induction false} LoopedLive(env: Environment, pending: seq<Message>, rounds: seq<seq<Result>>, nudge: Message)
    requires env.LoopedBy(|rounds|)
    ensures var n := |rounds| - 1;
            env.Live(pending, rounds) + [nudge]
            == env.Live(pending, rounds[..n]) + ([env.Full(n)] + [Plain(System, WARNING), nudge])
  {}

  lemma {:induction false} ClosingPairedIff(env: Environment, pending: seq<Message>, rounds: seq<seq<Result>>)
    requires env.Runs(pending, rounds) && env.UsersPush(pending)
    ensures WellPaired(env.Live(pending, rounds) + [Plain(System, NUDGE)]) <==> !env.LoopedBy(|rounds|)
  {
    var nudge := Plain(System, NUDGE);
    if !env.LoopedBy(|rounds|) {
      assert [nudge][1..] == [];
      LivePaired(env, pending, rounds);
      WellPairedConcat(env.Live(pending, rounds), [nudge]);
    } else {
      var n := |rounds| - 1;
      RunsFront(env, pending, rounds);
      LivePaired(env, pending, rounds[..n]);
      LoopedLive(env, pending, rounds, nudge);
      CutOffBehind(env.Live(pending, rounds[..n]), env.Full(n), [Plain(System, WARNING), nudge]);
    }
  }

  // ----- the whole turn -----

  lemma {:induction false} ApprovedPaired(env: Environment, calls: seq<ToolCall>)
    ensures WellPaired(env.ApprovedRound(calls))
  {
    if calls != [] {
      RoundWellPaired(Message(Assistant, "", env.Renamed(calls), "", "", ""), env.ApprovedAnswers(calls));
    }
  }

  lemma {:induction false} ExtendsBoth(start: seq<Message>, t: seq<Message>, q: seq<Message>)
    requires WellPaired(t) && |start + t| <= |q| && q[..|start + t|] == start + t
    ensures Extends(start + t, q) <==> Extends(start, q)
  {
    var rest := q[|start + t|..];
    assert q[|start|..] == t + rest;
    assert q[..|start|] == (start + t)[..|start|];
    if WellPaired(rest) { WellPairedConcat(t, rest); }
    if WellPaired(t + rest) { WellPairedSuffix(t, rest); }
  }

  /** The list in front of everything the turn adds to it. */
  function Given(o: Opening): seq<Message> {
    o.hints + o.Compact()
  }

  /** Every model call of a turn sees the list it was given, grown by stretches in which
      every call is answered at once; only the closing call after the repetition guard
      does not. */
  lemma {:induction false} ModelCallsPairedIff(env: Environment, o: Opening, rounds: seq<seq<Result>>)
    requires env.Completes(o.pending, rounds) && env.UsersPush(o.pending)
    ensures forall q :: q in env.Asked(env.Start(o), o.pending, rounds) ==> Extends(Given(o), q.messages)
    ensures (forall q :: q in env.AskedLast(env.Start(o), o.pending, rounds) ==> Extends(Given(o), q.messages))
            <==> !env.LoopedBy(|rounds|)
  {
    ApprovedPaired(env, o.approved);
    AskedPaired(env, env.Start(o), o.pending, rounds);
    forall q | q in env.Asked(env.Start(o), o.pending, rounds) ensures Extends(Given(o), q.messages) {
      ExtendsBoth(Given(o), env.ApprovedRound(o.approved), q.messages);
    }
    LastCallPairedIff(env, o, rounds);
  }

  lemma {:induction false} LastCallPairedIff(env: Environment, o: Opening, rounds: seq<seq<Result>>)
    requires env.Runs(o.pending, rounds) && env.UsersPush(o.pending)
    ensures (forall q :: q in env.AskedLast(env.Start(o), o.pending, rounds) ==> Extends(Given(o), q.messages))
            <==> !env.LoopedBy(|rounds|)
  {
    ApprovedPaired(env, o.approved);
    if env.Forced(o.pending, |rounds|) {
      var grown := env.Live(o.pending, rounds) + [Plain(System, NUDGE)];
      var q := env.Start(o) + grown;
      assert q == env.Start(o) + env.Live(o.pending, rounds) + [Plain(System, NUDGE)];
      assert env.AskedLast(env.Start(o), o.pending, rounds) == [Request(q, false)];
      ClosingPairedIff(env, o.pending, rounds);
      ExtendsBy(env.Start(o), grown);
      assert q[..|env.Start(o)|] == env.Start(o);
      ExtendsBoth(Given(o), env.ApprovedRound(o.approved), q);
    }
  }

  // ----- when tools are withdrawn -----

  /** For each round with tool calls, in order, whether all its results failed. */
  ghost function Failures(env: Environment, rounds: seq<seq<Result>>): seq<bool> {
    var n := |rounds| - 1;
    if n < 0 then []
    else if env.KindAt(n).Called? then Failures(env, rounds[..n]) + [env.AllFail(rounds[n])]
    else Failures(env, rounds[..n])
  }

  /** The tally reaches m exactly when the last m rounds with tool calls all failed. */
  lemma {:induction false} TallyIff(env: Environment, rounds: seq<seq<Result>>, m: nat)
    ensures env.Tally(rounds) >= m <==>
            var o := Failures(env, rounds); m <= |o| && forall i :: |o| - m <= i < |o| ==> o[i]
  {
    var n := |rounds| - 1;
    if n >= 0 {
      if !env.KindAt(n).Called? {
        TallyIff(env, rounds[..n], m);
      } else if m > 0 {
        TallyIff(env, rounds[..n], m - 1);
        TrailingStep(Failures(env, rounds[..n]), env.AllFail(rounds[n]), m);
      }
    }
  }

  lemma {:induction false} TrailingStep(o: seq<bool>, b: bool, m: nat)
    requires m > 0
    ensures var p := o + [b];
            (m <= |p| && forall i :: |p| - m <= i < |p| ==> p[i])
            <==> b && m - 1 <= |o| && forall i :: |o| - (m - 1) <= i < |o| ==> o[i]
  {
    var p := o + [b];
    assert p[|o|] == b && forall i :: 0 <= i < |o| ==> p[i] == o[i];
  }

  /** A model call may not use tools exactly when the last three rounds with tool calls
      before it failed altogether. */
  lemma {:induction false} ToolsWithdrawnIff(env: Environment, messages: seq<Message>, rounds: seq<seq<Result>>)
    ensures !RequestFor(messages, env.Tally(rounds)).tools <==>
            var o := Failures(env, rounds); |o| >= 3 && o[|o| - 1] && o[|o| - 2] && o[|o| - 3]
  {
    TallyIff(env, rounds, 3);
  }

  // ----- what a provider accepts -----

  /** A well-paired stretch has its tool messages behind their calls and all calls answered. */
  lemma {:induction false} WellPairedIsValid(t: seq<Message>)
    requires WellPaired(t)
    ensures RunsFollowCalls(t) && StartsFresh(t) && AllAnswered(t)
    decreases |t|
  {
    if t != [] {
      var n := if HasCalls(t[0]) then |t[0].calls| else 0;
      var round, rest := t[..n + 1], t[n + 1..];
      assert t == round + rest;
      WellPairedIsValid(rest);
      FirstRoundIsValid(t[0], t[1..n + 1]);
      assert round == [t[0]] + t[1..n + 1];
      RunsConcat(round, rest);
      AnsweredConcat(round, rest);
    }
  }

  lemma {:induction false} FirstRoundIsValid(m: Message, answers: seq<Message>)
    requires m.role != Tool && (if HasCalls(m) then AnswersOf(m.calls, answers) else answers == [])
    ensures RunsFollowCalls([m] + answers) && AllAnswered([m] + answers)
  {
    RunsOfRoundIff(m, answers);
    if HasCalls(m) {
      assert forall k :: 0 <= k < |answers| ==> m.calls[k] in m.calls;
      forall c | c in m.calls ensures exists j :: 0 <= j < |answers| && answers[j].role == Tool && answers[j].callId == c.id {
        var j :| 0 <= j < |m.calls| && m.calls[j] == c;
        assert answers[j].callId == c.id;
      }
      RoundAnswered(m, answers);
    } else {
      NoCallsAnswered([m]);
      assert [m] + answers == [m];
    }
  }

  /** From a session history in good shape, every list the model is asked with is in good
      shape: every call answered, every tool message in a run behind its call. */
  lemma {:induction false} AskedListsAreValid(env: Environment, o: Opening, rounds: seq<seq<Result>>, q: seq<Message>)
    requires RunsFollowCalls(o.history) && AllAnswered(o.history)
    requires forall k :: 0 <= k < |o.hints| ==> o.hints[k].role == System
    requires Extends(Given(o), q)
    ensures RunsFollowCalls(q) && AllAnswered(q)
  {
    CompactIsValid(o);
    NoToolsRun(o.hints);
    NoCallsAnswered(o.hints);
    RunsConcat(o.hints, o.Compact());
    AnsweredConcat(o.hints, o.Compact());
    var t := q[|Given(o)|..];
    assert q == Given(o) + t;
    WellPairedIsValid(t);
    RunsConcat(Given(o), t);
    AnsweredConcat(Given(o), t);
  }

  lemma {:induction false} CompactIsValid(o: Opening)
    ensures RunsFollowCalls(o.history) ==> RunsFollowCalls(o.Compact())
    ensures AllAnswered(o.history) ==> AllAnswered(o.Compact())
  {
    var user := [Plain(User, o.text)];
    NoToolsRun(user);
    NoCallsAnswered(user);
    if RunsFollowCalls(o.history) { RunsConcat(o.history, user); }
    if AllAnswered(o.history) { AnsweredConcat(o.history, user); }
    CompactionKeepsPairing(o.history + user, o.summary);
  }
}
