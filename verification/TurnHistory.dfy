/** What a turn leaves in the session: every tool call answered, and every tool message in
    a run right behind the message that carries its id, or exactly when not. */
module TurnHistory {
  import opened Anchoring
  import opened Compaction
  import opened Conversation
  import opened Padding
  import opened Pairing
  import opened SessionState
  import opened ToolRound
  import opened TurnPrompts
  import opened TurnSpec

  // ----- one recorded round -----

  lemma {:induction false} PersistedMembers(calls: seq<ToolCall>, ephemeral: string -> bool)
    ensures forall c :: c in Persisted(calls, ephemeral) <==> c in calls && !ephemeral(c.name)
  {
    if calls != [] {
      PersistedMembers(calls[..|calls| - 1], ephemeral);
      assert calls == calls[..|calls| - 1] + [calls[|calls| - 1]];
    }
  }

  /** The kept answer m comes from a position whose result is not ephemeral. */
  ghost predicate KeptFrom(calls: seq<ToolCall>, results: seq<Result>, m: Message) {
    exists k :: 0 <= k < |results| && k < |calls| && !results[k].ephemeral && m == Answer(calls[k], results[k])
  }

  lemma {:induction false} KeptMembers(calls: seq<ToolCall>, results: seq<Result>)
    requires |results| <= |calls|
    ensures forall m :: m in KeptAnswers(calls, results) <==> KeptFrom(calls, results, m)
  {
    if results != [] {
      var n := |results| - 1;
      KeptMembers(calls, results[..n]);
      forall m ensures m in KeptAnswers(calls, results) <==> KeptFrom(calls, results, m) {
        KeptFromLast(calls, results, m);
      }
    }
  }

  lemma {:induction false} KeptFromLast(calls: seq<ToolCall>, results: seq<Result>, m: Message)
    requires 0 < |results| <= |calls|
    ensures var n := |results| - 1;
            KeptFrom(calls, results, m)
            <==> KeptFrom(calls, results[..n], m) || (!results[n].ephemeral && m == Answer(calls[n], results[n]))
  {
    var n := |results| - 1;
    assert forall k :: 0 <= k < n ==> results[..n][k] == results[k];
  }

  lemma {:induction false} KeptAreTools(calls: seq<ToolCall>, results: seq<Result>)
    ensures forall k :: 0 <= k < |KeptAnswers(calls, results)| ==>
              KeptAnswers(calls, results)[k].role == Tool && !HasCalls(KeptAnswers(calls, results)[k])
  {
    if results != [] { KeptAreTools(calls, results[..|results| - 1]); }
  }

  /** A persisted assistant message with its kept answers behind it. */
  lemma {:induction false} KeptRoundAnswered(b: Batch, results: seq<Result>, m: Message)
    requires b.Covers(results) && m.calls == Persisted(b.calls, b.ephemeral)
    ensures AllAnswered([m] + KeptAnswers(b.calls, results))
  {
    var kept := KeptAnswers(b.calls, results);
    KeptAreTools(b.calls, results);
    PersistedMembers(b.calls, b.ephemeral);
    KeptMembers(b.calls, results);
    forall c | c in m.calls ensures exists j :: 0 <= j < |kept| && kept[j].role == Tool && kept[j].callId == c.id {
      var k :| 0 <= k < |b.calls| && b.calls[k] == c;
      assert KeptFrom(b.calls, results, Answer(c, results[k]));
      assert Answer(c, results[k]) in kept;
      var j :| 0 <= j < |kept| && kept[j] == Answer(c, results[k]);
      assert kept[j].callId == c.id;
    }
    RoundAnswered(m, kept);
  }

  /** Its tool messages follow their calls exactly when every persisted result has a
      persisted call. */
  lemma {:induction false} KeptRoundRunsIff(b: Batch, results: seq<Result>, m: Message)
    requires |results| == |b.calls| && m.role == Assistant && m.calls == Persisted(b.calls, b.ephemeral)
    ensures RunsFollowCalls([m] + KeptAnswers(b.calls, results)) <==> Anchored(b, results)
  {
    var kept := KeptAnswers(b.calls, results);
    KeptAreTools(b.calls, results);
    KeptMembers(b.calls, results);
    RunsOfRoundIff(m, kept);
    forall id ensures CarriesId(m, id) <==> PersistsId(b, id) {
      CarriesPersisted(b, m, id);
    }
    assert forall k :: 0 <= k < |kept| ==> kept[k] in kept;
    if Anchored(b, results) {
      forall j | 0 <= j < |kept| ensures CarriesId(m, kept[j].callId) {
        assert KeptFrom(b.calls, results, kept[j]);
      }
    }
    if forall j :: 0 <= j < |kept| ==> CarriesId(m, kept[j].callId) {
      forall k | 0 <= k < |b.calls| && !results[k].ephemeral ensures PersistsId(b, b.calls[k].id) {
        assert KeptFrom(b.calls, results, Answer(b.calls[k], results[k]));
        assert Answer(b.calls[k], results[k]) in kept;
      }
    }
  }

  lemma {:induction false} CarriesPersisted(b: Batch, m: Message, id: string)
    requires m.role == Assistant && m.calls == Persisted(b.calls, b.ephemeral)
    ensures CarriesId(m, id) <==> PersistsId(b, id)
  {
    PersistedMembers(b.calls, b.ephemeral);
  }

  // ----- one iteration -----

  lemma {:induction false} SyntheticValid(items: seq<Synthetic>)
    ensures AllAnswered(SyntheticRounds(items)) && Steady(SyntheticRounds(items))
    ensures RunsFollowCalls(SyntheticRounds(items)) && StartsFresh(SyntheticRounds(items))
  {
    if items != [] {
      var front, item := items[..|items| - 1], items[|items| - 1];
      SyntheticValid(front);
      OneSyntheticValid(item);
      SteadyAppend(SyntheticRounds(front), SyntheticRound(item));
      AnsweredConcat(SyntheticRounds(front), SyntheticRound(item));
      RunsConcat(SyntheticRounds(front), SyntheticRound(item));
    }
  }

  lemma {:induction false} OneSyntheticValid(item: Synthetic)
    ensures AllAnswered(SyntheticRound(item)) && OneRound(SyntheticRound(item))
    ensures RunsFollowCalls(SyntheticRound(item)) && StartsFresh(SyntheticRound(item))
  {
    var r := SyntheticRound(item);
    assert r == [r[0]] + [r[1]];
    assert r[1].role == Tool && r[0].calls[0].id == r[1].callId;
    RoundAnswered(r[0], [r[1]]);
    RunsOfRoundIff(r[0], [r[1]]);
    assert CarriesId(r[0], r[1].callId);
  }

  lemma {:induction false} RoundThenUsers(m: Message, kept: seq<Message>, s: seq<Message>)
    requires m.role == Assistant && UserMessages(s) && forall k :: 0 <= k < |kept| ==> !HasCalls(kept[k])
    ensures OneRound([m] + kept + s) && StartsFresh([m] + kept + s)
  {
    var w := [m] + kept + s;
    assert forall i :: 0 < i < |w| ==> w[i] == if i - 1 < |kept| then kept[i - 1] else s[i - 1 - |kept|];
  }

  lemma {:induction false} BodyOneRound(env: Environment, pending: seq<Message>, k: nat, results: seq<Result>)
    requires env.UsersPush(pending)
    ensures OneRound(env.Body(pending, k, results)) && StartsFresh(env.Body(pending, k, results))
  {
    SteeredAreUsers(env, pending, k);
    if env.KindAt(k).Called? {
      KeptAreTools(env.CallsAt(k), results);
      RoundThenUsers(env.Recorded(k), KeptAnswers(env.CallsAt(k), results), env.Steered(pending, k));
    }
  }

  lemma {:induction false} BodyAnswered(env: Environment, pending: seq<Message>, k: nat, results: seq<Result>)
    requires env.UsersPush(pending) && (env.KindAt(k).Called? ==> env.BatchAt(k).Covers(results))
    requires env.KindAt(k).Looped? ==> !HasCalls(env.Recorded(k))
    ensures AllAnswered(env.Body(pending, k, results))
  {
    SteeredAreUsers(env, pending, k);
    var s := env.Steered(pending, k);
    NoCallsAnswered(s);
    match env.KindAt(k)
    case Spoke =>
      NoCallsAnswered([Plain(Assistant, env.ContentAt(k))]);
      AnsweredConcat([Plain(Assistant, env.ContentAt(k))], s);
    case Looped =>
      NoCallsAnswered([env.Recorded(k), Plain(System, WARNING)]);
    case Called =>
      KeptRoundAnswered(env.BatchAt(k), results, env.Recorded(k));
      AnsweredConcat([env.Recorded(k)] + KeptAnswers(env.CallsAt(k), results), s);
    case _ =>
  }

  lemma {:induction false} BodyRunsIff(env: Environment, pending: seq<Message>, k: nat, results: seq<Result>)
    requires env.UsersPush(pending) && env.Fits(k, results)
    ensures RunsFollowCalls(env.Body(pending, k, results)) <==> (env.KindAt(k).Called? ==> Anchored(env.BatchAt(k), results))
  {
    SteeredAreUsers(env, pending, k);
    var s := env.Steered(pending, k);
    NoToolsRun(s);
    match env.KindAt(k)
    case Spoke =>
      NoToolsRun([Plain(Assistant, env.ContentAt(k))] + s);
    case Looped =>
      NoToolsRun([env.Recorded(k), Plain(System, WARNING)]);
    case Called =>
      KeptRoundRunsIff(env.BatchAt(k), results, env.Recorded(k));
      RunsConcatIff([env.Recorded(k)] + KeptAnswers(env.CallsAt(k), results), s);
    case _ =>
  }

  lemma {:induction false} FreshConcat(a: seq<Message>, b: seq<Message>)
    requires StartsFresh(a) && StartsFresh(b)
    ensures StartsFresh(a + b)
  {}

  lemma {:induction false} PieceRunsIff(env: Environment, pending: seq<Message>, k: nat, results: seq<Result>)
    requires env.UsersPush(pending) && env.Fits(k, results)
    ensures StartsFresh(env.Piece(pending, k, results))
    ensures RunsFollowCalls(env.Piece(pending, k, results)) <==> (env.KindAt(k).Called? ==> Anchored(env.BatchAt(k), results))
  {
    SyntheticValid(env.synthetic(k));
    BodyOneRound(env, pending, k, results);
    BodyRunsIff(env, pending, k, results);
    FreshConcat(SyntheticRounds(env.synthetic(k)), env.Body(pending, k, results));
    RunsConcatIff(SyntheticRounds(env.synthetic(k)), env.Body(pending, k, results));
  }

  // ----- all iterations: every call answered -----

  /** An iteration leaves at most its own calls open. */
  lemma {:induction false} PieceSteady(env: Environment, pending: seq<Message>, k: nat, results: seq<Result>)
    requires env.UsersPush(pending)
    ensures Steady(env.Piece(pending, k, results))
  {
    SyntheticValid(env.synthetic(k));
    BodyOneRound(env, pending, k, results);
    SteadyAppend(SyntheticRounds(env.synthetic(k)), env.Body(pending, k, results));
  }

  lemma {:induction false} PieceAnswered(env: Environment, pending: seq<Message>, k: nat, results: seq<Result>)
    requires env.UsersPush(pending) && (env.KindAt(k).Called? ==> env.BatchAt(k).Covers(results))
    requires env.KindAt(k).Looped? ==> !HasCalls(env.Recorded(k))
    ensures AllAnswered(env.Piece(pending, k, results))
  {
    SyntheticValid(env.synthetic(k));
    BodyAnswered(env, pending, k, results);
    AnsweredConcat(SyntheticRounds(env.synthetic(k)), env.Body(pending, k, results));
  }

  lemma {:induction false} CoveredFront(env: Environment, rounds: seq<seq<Result>>)
    requires env.Covered(rounds) && rounds != []
    ensures env.Covered(rounds[..|rounds| - 1])
  {
    var front := rounds[..|rounds| - 1];
    assert forall k :: 0 <= k < |front| ==> front[k] == rounds[k];
  }

  lemma {:induction false} WrittenAnswered(env: Environment, pending: seq<Message>, rounds: seq<seq<Result>>)
    requires env.Runs(pending, rounds) && env.Covered(rounds) && env.UsersPush(pending) && !env.CutOff(|rounds|)
    ensures AllAnswered(env.Written(pending, rounds))
  {
    if rounds != [] {
      var n := |rounds| - 1;
      RunsFront(env, pending, rounds);
      CoveredFront(env, rounds);
      WrittenAnswered(env, pending, rounds[..n]);
      PieceAnswered(env, pending, n, rounds[n]);
      AnsweredConcat(env.Written(pending, rounds[..n]), env.Piece(pending, n, rounds[n]));
    }
  }

  lemma {:induction false} SyntheticCallsIff(items: seq<Synthetic>)
    ensures CallsIn(SyntheticRounds(items)) <==> items != []
  {
    if items != [] {
      var front, last := SyntheticRounds(items[..|items| - 1]), SyntheticRound(items[|items| - 1]);
      assert (front + last)[|front|] == last[0];
    }
  }

  ghost predicate CallsIn(t: seq<Message>) {
    exists i :: 0 <= i < |t| && HasCalls(t[i])
  }

  lemma {:induction false} CallsInConcat(a: seq<Message>, b: seq<Message>)
    ensures CallsIn(a + b) <==> CallsIn(a) || CallsIn(b)
  {
    var w := a + b;
    assert forall i :: 0 <= i < |a| ==> w[i] == a[i];
    assert forall i :: 0 <= i < |b| ==> w[|a| + i] == b[i];
    if i :| 0 <= i < |w| && HasCalls(w[i]) { assert w[i] == if i < |a| then a[i] else b[i - |a|]; }
  }

  lemma {:induction false} BodyCallsIff(env: Environment, pending: seq<Message>, k: nat, results: seq<Result>)
    requires env.UsersPush(pending)
    ensures CallsIn(env.Body(pending, k, results))
            <==> (env.KindAt(k).Looped? || env.KindAt(k).Called?) && HasCalls(env.Recorded(k))
  {
    BodyOneRound(env, pending, k, results);
    var body := env.Body(pending, k, results);
    if env.KindAt(k).Looped? || env.KindAt(k).Called? { assert body[0] == env.Recorded(k); }
  }

  lemma {:induction false} PieceCallsIff(env: Environment, pending: seq<Message>, k: nat, results: seq<Result>)
    requires env.UsersPush(pending)
    ensures CallsIn(env.Piece(pending, k, results)) <==> env.WritesCalls(k)
  {
    SyntheticCallsIff(env.synthetic(k));
    BodyCallsIff(env, pending, k, results);
    CallsInConcat(SyntheticRounds(env.synthetic(k)), env.Body(pending, k, results));
  }

  lemma {:induction false} CoveredIfFollowed(env: Environment, rounds: seq<seq<Result>>)
    requires rounds != [] && env.CoveredBeforeCalls(rounds)
    ensures env.CoveredBeforeCalls(rounds[..|rounds| - 1])
    ensures env.WritesCalls(|rounds| - 1) ==> env.Covered(rounds[..|rounds| - 1])
  {
    var n := |rounds| - 1;
    var front := rounds[..n];
    assert forall k :: 0 <= k < n ==> front[k] == rounds[k];
    forall k | 0 <= k < n && (env.WritesCalls(n) || env.Followed(k, n)) ensures env.Followed(k, |rounds|) {
      if !env.WritesCalls(n) {
        var m :| k < m < n && env.WritesCalls(m);
      }
    }
  }

  lemma {:induction false} WrittenSteady(env: Environment, pending: seq<Message>, rounds: seq<seq<Result>>)
    requires env.Runs(pending, rounds) && env.CoveredBeforeCalls(rounds) && env.UsersPush(pending)
    ensures Steady(env.Written(pending, rounds))
  {
    if rounds != [] {
      var n := |rounds| - 1;
      RunsFront(env, pending, rounds);
      CoveredIfFollowed(env, rounds);
      WrittenSteady(env, pending, rounds[..n]);
      PieceCallsIff(env, pending, n, rounds[n]);
      if env.WritesCalls(n) {
        WrittenAnswered(env, pending, rounds[..n]);
        PieceSteady(env, pending, n, rounds[n]);
        SteadyConcat(env.Written(pending, rounds[..n]), env.Piece(pending, n, rounds[n]));
      } else {
        SteadyThenPlain(env.Written(pending, rounds[..n]), env.Piece(pending, n, rounds[n]));
      }
    }
  }

  lemma {:induction false} SteadyThenPlain(u: seq<Message>, t: seq<Message>)
    requires Steady(u) && forall k :: 0 <= k < |t| ==> !HasCalls(t[k])
    ensures Steady(u + t)
  {
    var w := u + t;
    assert forall k :: |u| <= k < |w| ==> w[k] == t[k - |u|];
    forall i, k | 0 <= i < k < |w| && HasCalls(w[i]) && HasCalls(w[k]) ensures AnsweredBetween(w, i, k) {
      assert k < |u| && AnsweredBetween(u, i, k);
      forall c | c in w[i].calls ensures AnsweredWithin(w, i, k, c.id) {
        assert AnsweredWithin(u, i, k, c.id);
        var j :| i < j < k && u[j].role == Tool && u[j].callId == c.id;
        assert w[j] == u[j];
      }
    }
  }

  /** What the loop and the closing call have appended. */
  ghost function Appended(env: Environment, pending: seq<Message>, rounds: seq<seq<Result>>): seq<Message> {
    env.Written(pending, rounds) + env.Closing(pending, |rounds|)
  }

  lemma {:induction false} AppendedSteady(env: Environment, pending: seq<Message>, rounds: seq<seq<Result>>)
    requires env.Runs(pending, rounds) && env.CoveredBeforeCalls(rounds) && env.UsersPush(pending)
    ensures Steady(Appended(env, pending, rounds))
  {
    WrittenSteady(env, pending, rounds);
    SteadyThenPlain(env.Written(pending, rounds), env.Closing(pending, |rounds|));
  }

  lemma {:induction false} AppendedAnswered(env: Environment, pending: seq<Message>, rounds: seq<seq<Result>>)
    requires env.Runs(pending, rounds) && env.Covered(rounds) && env.UsersPush(pending) && !env.CutOff(|rounds|)
    ensures AllAnswered(Appended(env, pending, rounds))
  {
    WrittenAnswered(env, pending, rounds);
    NoCallsAnswered(env.Closing(pending, |rounds|));
    AnsweredConcat(env.Written(pending, rounds), env.Closing(pending, |rounds|));
  }

  lemma {:induction false} BaseValid(env: Environment, o: Opening)
    ensures AllAnswered(o.history) ==> AllAnswered(env.Base(o))
    ensures RunsFollowCalls(o.history) ==> RunsFollowCalls(env.Base(o))
  {
    CompactIsValid(o);
    ApprovedPaired(env, o.approved);
    WellPairedIsValid(env.ApprovedRound(o.approved));
    if AllAnswered(o.history) { AnsweredConcat(o.Compact(), env.ApprovedRound(o.approved)); }
    if RunsFollowCalls(o.history) { RunsConcat(o.Compact(), env.ApprovedRound(o.approved)); }
  }

  /** All that a turn appends behind the compacted history, the approved round included. */
  ghost function TurnAppends(env: Environment, o: Opening, rounds: seq<seq<Result>>): seq<Message> {
    env.ApprovedRound(o.approved) + Appended(env, o.pending, rounds)
  }

  lemma {:induction false} OneRoundIsSteady(t: seq<Message>)
    requires OneRound(t)
    ensures Steady(t)
  {}

  lemma {:induction false} ApprovedOneRound(env: Environment, calls: seq<ToolCall>)
    ensures OneRound(env.ApprovedRound(calls))
  {
    var answers := env.ApprovedAnswers(calls);
    assert forall k :: 0 <= k < |answers| ==> answers[k].role == Tool;
  }

  lemma {:induction false} ApprovedSteady(env: Environment, calls: seq<ToolCall>)
    ensures Steady(env.ApprovedRound(calls)) && AllAnswered(env.ApprovedRound(calls))
  {
    ApprovedOneRound(env, calls);
    OneRoundIsSteady(env.ApprovedRound(calls));
    ApprovedPaired(env, calls);
    WellPairedIsValid(env.ApprovedRound(calls));
  }

  /** Wherever behind the compaction the turn dies, in the drain of approved calls or in the
      loop: padding answers what is open. */
  lemma {:induction false} CutShortAnywhereAnswersAll(env: Environment, o: Opening, rounds: seq<seq<Result>>, n: nat)
    requires AllAnswered(o.history) && env.Runs(o.pending, rounds) && env.UsersPush(o.pending)
    requires env.CoveredBeforeCalls(rounds) && n <= |TurnAppends(env, o, rounds)|
    ensures AllAnswered(Padded(o.Compact() + TurnAppends(env, o, rounds)[..n]))
  {
    CompactIsValid(o);
    ApprovedSteady(env, o.approved);
    AppendedSteady(env, o.pending, rounds);
    SteadyConcat(env.ApprovedRound(o.approved), Appended(env, o.pending, rounds));
    SteadyPrefix(TurnAppends(env, o, rounds), n);
    SteadyIsAnsweredButLast(o.Compact(), TurnAppends(env, o, rounds)[..n]);
    PaddingAnswersAll(o.Compact() + TurnAppends(env, o, rounds)[..n]);
  }

  lemma {:induction false} Assoc<T>(a: seq<T>, b: seq<T>, c: seq<T>)
    ensures a + b + c == a + (b + c)
  {}

  lemma {:induction false} EndedIs(env: Environment, o: Opening, rounds: seq<seq<Result>>)
    ensures env.Ended(o, rounds) == env.Base(o) + Appended(env, o.pending, rounds)
    ensures env.Ended(o, rounds) == o.Compact() + TurnAppends(env, o, rounds)
  {
    Assoc(env.Base(o), env.Written(o.pending, rounds), env.Closing(o.pending, |rounds|));
    Assoc(o.Compact(), env.ApprovedRound(o.approved), Appended(env, o.pending, rounds));
  }

  lemma {:induction false} LeftAreUsers(env: Environment, pending: seq<Message>, n: nat, depth: nat)
    requires env.UsersPush(pending)
    ensures UserMessages(Leftover(depth, env.Left(pending, n) + env.late))
  {
    if n > 0 { SteeredAreUsers(env, pending, n - 1); }
  }

  /** A whole turn, however it ends: every tool call of the session has a later result, if
      persisted calls got persisted results wherever another message with calls follows. */
  lemma {:induction false} TurnAnswersAll(env: Environment, o: Opening, rounds: seq<seq<Result>>, depth: nat)
    requires AllAnswered(o.history) && env.Runs(o.pending, rounds) && env.UsersPush(o.pending)
    requires env.CoveredBeforeCalls(rounds)
    ensures AllAnswered(env.Final(o, rounds, depth))
  {
    var appended := TurnAppends(env, o, rounds);
    CutShortAnywhereAnswersAll(env, o, rounds, |appended|);
    assert appended[..|appended|] == appended;
    EndedIs(env, o, rounds);
    LeftAreUsers(env, o.pending, |rounds|, depth);
    var left := Leftover(depth, env.Left(o.pending, |rounds|) + env.late);
    NoCallsAnswered(left);
    AnsweredConcat(Padded(env.Ended(o, rounds)), left);
  }

  /** The condition on the gate under which every persisted call is covered. */
  ghost predicate Pairable(env: Environment, n: nat) {
    forall k :: 0 <= k < n && env.KindAt(k).Called? ==>
      env.BatchAt(k).NoneEphemeral() || (DistinctIds(env.CallsAt(k)) && env.BatchAt(k).EphemeralInPlace())
  }

  lemma {:induction false} PairableCovers(env: Environment, pending: seq<Message>, rounds: seq<seq<Result>>)
    requires env.Runs(pending, rounds) && Pairable(env, |rounds|)
    ensures env.Covered(rounds)
  {
    forall k | 0 <= k < |rounds| && env.KindAt(k).Called? ensures env.BatchAt(k).Covers(rounds[k]) {
      assert env.Fits(k, rounds[k]);
      AdmittedCovers(env.BatchAt(k), rounds[k]);
    }
  }

  // ----- tool messages behind their calls -----

  lemma {:induction false} WrittenRunsIff(env: Environment, pending: seq<Message>, rounds: seq<seq<Result>>)
    requires env.Runs(pending, rounds) && env.UsersPush(pending)
    ensures StartsFresh(env.Written(pending, rounds))
    ensures RunsFollowCalls(env.Written(pending, rounds)) <==> env.AllAnchored(rounds)
  {
    if rounds != [] {
      var n := |rounds| - 1;
      RunsFront(env, pending, rounds);
      WrittenRunsIff(env, pending, rounds[..n]);
      PieceRunsIff(env, pending, n, rounds[n]);
      AnchoredFront(env, rounds);
      FreshConcat(env.Written(pending, rounds[..n]), env.Piece(pending, n, rounds[n]));
      RunsConcatIff(env.Written(pending, rounds[..n]), env.Piece(pending, n, rounds[n]));
    }
  }

  lemma {:induction false} AnchoredFront(env: Environment, rounds: seq<seq<Result>>)
    requires rounds != []
    ensures var n := |rounds| - 1;
            env.AllAnchored(rounds)
            <==> env.AllAnchored(rounds[..n]) && (env.KindAt(n).Called? ==> Anchored(env.BatchAt(n), rounds[n]))
  {
    var front := rounds[..|rounds| - 1];
    assert forall k :: 0 <= k < |front| ==> front[k] == rounds[k];
  }

  lemma {:induction false} EndedRunsIff(env: Environment, o: Opening, rounds: seq<seq<Result>>)
    requires env.Runs(o.pending, rounds) && env.UsersPush(o.pending)
    ensures RunsFollowCalls(env.Ended(o, rounds)) <==> RunsFollowCalls(env.Base(o)) && env.AllAnchored(rounds)
  {
    WrittenRunsIff(env, o.pending, rounds);
    NoToolsRun(env.Closing(o.pending, |rounds|));
    RunsConcatIff(env.Base(o), env.Written(o.pending, rounds));
    RunsConcatIff(env.Base(o) + env.Written(o.pending, rounds), env.Closing(o.pending, |rounds|));
  }

  /** For any turn: the session history ends in shape exactly when every persisted result
      has its persisted call and the padding does not come behind something else. */
  lemma {:induction false} TurnShapeIff(env: Environment, o: Opening, rounds: seq<seq<Result>>, depth: nat)
    requires RunsFollowCalls(o.history) && env.Completes(o.pending, rounds) && env.UsersPush(o.pending)
    ensures RunsFollowCalls(env.Final(o, rounds, depth)) <==> env.AllAnchored(rounds) && !Detaches(env.Ended(o, rounds))
  {
    BaseValid(env, o);
    EndedRunsIff(env, o, rounds);
    PaddedShapeIff(env.Ended(o, rounds));
    LeftAreUsers(env, o.pending, |rounds|, depth);
    var left := Leftover(depth, env.Left(o.pending, |rounds|) + env.late);
    NoToolsRun(left);
    RunsConcatIff(Padded(env.Ended(o, rounds)), left);
  }

  // ----- when the padding comes behind something else -----

  /** Calls with nothing behind them but messages that are no tool messages. */
  lemma {:induction false} OpenCallsDetach(h: seq<Message>, asst: Message, t: seq<Message>)
    requires HasCalls(asst) && t != [] && forall k :: 0 <= k < |t| ==> t[k].role != Tool && !HasCalls(t[k])
    ensures Detaches(h + [asst] + t)
  {
    var w, n := h + [asst] + t, |h|;
    assert w[n] == asst && forall k :: n < k < |w| ==> w[k] == t[k - n - 1];
    assert LastWithCalls(w) == n;
    assert asst.calls[0] in asst.calls;
    assert !AnsweredAfter(w, n, asst.calls[0].id);
    assert w[n + 1].role != Tool;
  }

  lemma {:induction false} NamedAndAnsweredStays(h: seq<Message>)
    requires Named(h) && AllAnswered(h)
    ensures !Detaches(h)
  {
    var last := LastWithCalls(h);
    if last >= 0 {
      assert CallsAnswered(h, last);
      assert LatestAnswered(h, last);
    }
  }

  lemma {:induction false} Flatten(b: seq<Message>, w: seq<Message>, syn: seq<Message>, r: Message, warn: Message, c: Message)
    ensures b + (w + (syn + [r, warn])) + [c] == b + w + syn + [r] + [warn, c]
  {}

  lemma {:induction false} CutOffEnded(env: Environment, o: Opening, rounds: seq<seq<Result>>)
    requires env.CutOff(|rounds|)
    ensures var n := |rounds| - 1;
            env.Ended(o, rounds)
            == env.Base(o)
               + (env.Written(o.pending, rounds[..n])
                  + (SyntheticRounds(env.synthetic(n)) + [env.Recorded(n), Plain(System, WARNING)]))
               + [Plain(Assistant, env.FinalText())]
  {}

  lemma {:induction false} CutOffDetaches(env: Environment, o: Opening, rounds: seq<seq<Result>>)
    requires env.CutOff(|rounds|)
    ensures Detaches(env.Ended(o, rounds))
  {
    var n := |rounds| - 1;
    var b, w, syn := env.Base(o), env.Written(o.pending, rounds[..n]), SyntheticRounds(env.synthetic(n));
    var warn, final := Plain(System, WARNING), Plain(Assistant, env.FinalText());
    CutOffEnded(env, o, rounds);
    Flatten(b, w, syn, env.Recorded(n), warn, final);
    OpenCallsDetach(b + w + syn, env.Recorded(n), [warn, final]);
  }

  /** After the repetition guard the padding comes behind the warning and the final text,
      so the tool messages it adds do not follow their calls directly. */
  lemma {:induction false} PaddingAfterRepetitionIsDetached(h: seq<Message>, asst: Message, warn: Message, final: Message)
    requires HasCalls(asst) && warn.role == System && final.role == Assistant && final.calls == []
    ensures !RunsFollowCalls(Padded(h + [asst, warn, final]))
  {
    assert h + [asst] + [warn, final] == h + [asst, warn, final];
    OpenCallsDetach(h, asst, [warn, final]);
    PaddedShapeIff(h + [asst, warn, final]);
  }

  // ----- named calls -----

  /** The model names its calls. */
  ghost predicate CallsNamed(env: Environment) {
    forall k: nat, c :: c in env.CallsAt(k) ==> c.id != ""
  }

  lemma {:induction false} NamedConcat(a: seq<Message>, b: seq<Message>)
    requires Named(a) && Named(b)
    ensures Named(a + b)
  {
    assert forall i :: 0 <= i < |a + b| ==> (a + b)[i] == if i < |a| then a[i] else b[i - |a|];
  }

  lemma {:induction false} CompactNamed(o: Opening)
    requires Named(o.history)
    ensures Named(o.Compact())
  {
    var ms := o.history + [Plain(User, o.text)];
    NamedConcat(o.history, [Plain(User, o.text)]);
    var p := Pruned(ms);
    PruningKeepsSkeleton(ms);
    assert Named(p) by { SkeletonNamed(ms, p); }
    if Compacted(ms, o.summary).0.FullyCompressed? {
      SummaryNamed(p, SafeCutoff(p, |p| - PRUNE_TURN_AGE), o.summary.value);
    }
  }

  lemma {:induction false} SkeletonNamed(ms: seq<Message>, p: seq<Message>)
    requires Named(ms) && SameSkeleton(p, ms)
    ensures Named(p)
  {
    assert forall i :: 0 <= i < |p| && HasCalls(p[i]) ==> p[i] == ms[i];
  }

  lemma {:induction false} SummaryNamed(p: seq<Message>, cut: nat, text: string)
    requires Named(p) && cut <= |p|
    ensures Named([Summary(text)] + p[cut..])
  {
    var h := [Summary(text)] + p[cut..];
    assert forall i :: 1 <= i < |h| ==> h[i] == p[cut + i - 1];
  }

  lemma {:induction false} NoCallsNamed(t: seq<Message>)
    requires forall k :: 0 <= k < |t| ==> !HasCalls(t[k])
    ensures Named(t)
  {}

  lemma {:induction false} ApprovedNamed(env: Environment, calls: seq<ToolCall>)
    ensures Named(env.ApprovedRound(calls))
  {
    if calls != [] {
      var asst := Message(Assistant, "", env.Renamed(calls), "", "", "");
      assert Named([asst]);
      NoCallsNamed(env.ApprovedAnswers(calls));
      NamedConcat([asst], env.ApprovedAnswers(calls));
    }
  }

  lemma {:induction false} SyntheticNamed(items: seq<Synthetic>)
    ensures Named(SyntheticRounds(items))
  {
    if items != [] {
      SyntheticNamed(items[..|items| - 1]);
      NamedConcat(SyntheticRounds(items[..|items| - 1]), SyntheticRound(items[|items| - 1]));
    }
  }

  lemma {:induction false} PieceNamed(env: Environment, pending: seq<Message>, k: nat, results: seq<Result>)
    requires CallsNamed(env) && env.UsersPush(pending)
    ensures Named(env.Piece(pending, k, results))
  {
    BodyOneRound(env, pending, k, results);
    SyntheticNamed(env.synthetic(k));
    PersistedMembers(env.CallsAt(k), env.ephemeral);
    var body := env.Body(pending, k, results);
    assert body != [] && HasCalls(body[0]) ==> body[0] == env.Recorded(k);
    NamedConcat(SyntheticRounds(env.synthetic(k)), body);
  }

  lemma {:induction false} WrittenNamed(env: Environment, pending: seq<Message>, rounds: seq<seq<Result>>)
    requires CallsNamed(env) && env.UsersPush(pending)
    ensures Named(env.Written(pending, rounds))
  {
    if rounds != [] {
      var n := |rounds| - 1;
      WrittenNamed(env, pending, rounds[..n]);
      PieceNamed(env, pending, n, rounds[n]);
      NamedConcat(env.Written(pending, rounds[..n]), env.Piece(pending, n, rounds[n]));
    }
  }

  lemma {:induction false} EndedNamed(env: Environment, o: Opening, rounds: seq<seq<Result>>)
    requires Named(o.history) && CallsNamed(env) && env.UsersPush(o.pending)
    ensures Named(env.Ended(o, rounds))
  {
    CompactNamed(o);
    ApprovedNamed(env, o.approved);
    NamedConcat(o.Compact(), env.ApprovedRound(o.approved));
    WrittenNamed(env, o.pending, rounds);
    NamedConcat(env.Base(o), env.Written(o.pending, rounds));
    NoCallsNamed(env.Closing(o.pending, |rounds|));
    NamedConcat(env.Base(o) + env.Written(o.pending, rounds), env.Closing(o.pending, |rounds|));
  }

  // ----- the shape of the history, over gate, cap and ephemeral tools -----

  /** Every batch that is run executes all its ephemeral calls, clear of the persisted ones. */
  ghost predicate EphemeralRunInPlace(env: Environment, n: nat) {
    forall k :: 0 <= k < n && env.KindAt(k).Called? ==> env.BatchAt(k).EphemeralInPlace() && EphemeralRun(env.BatchAt(k))
  }

  ghost predicate BatchesDistinct(env: Environment) {
    forall k: nat :: DistinctIds(env.CallsAt(k))
  }

  lemma {:induction false} AllAnchoredIff(env: Environment, pending: seq<Message>, rounds: seq<seq<Result>>)
    requires env.Runs(pending, rounds) && BatchesDistinct(env)
    ensures env.AllAnchored(rounds) <==> EphemeralRunInPlace(env, |rounds|)
    ensures env.AllAnchored(rounds) ==> env.Covered(rounds)
  {
    forall k | 0 <= k < |rounds| && env.KindAt(k).Called?
      ensures Anchored(env.BatchAt(k), rounds[k]) <==> env.BatchAt(k).EphemeralInPlace() && EphemeralRun(env.BatchAt(k))
      ensures Anchored(env.BatchAt(k), rounds[k]) ==> env.BatchAt(k).Covers(rounds[k])
    {
      RoundAnchoredIff(env, k, rounds[k]);
    }
  }

  lemma {:induction false} RoundAnchoredIff(env: Environment, k: nat, results: seq<Result>)
    requires env.KindAt(k).Called? && env.Fits(k, results) && BatchesDistinct(env)
    ensures var b := env.BatchAt(k);
            && (Anchored(b, results) <==> b.EphemeralInPlace() && EphemeralRun(b))
            && (Anchored(b, results) ==> b.Covers(results))
  {
    var b := env.BatchAt(k);
    assert DistinctIds(b.calls);
    AnchoredIff(b, results);
    PersistedInPlaceIff(b);
    if b.EphemeralInPlace() { MayResultCovers(b, results); }
  }

  /** A whole turn with named and distinct calls, from a history in shape: the history ends
      in shape if and only if the repetition guard broke off no persisted call and every
      batch executed all its ephemeral calls, clear of the persisted ones. */
  lemma {:induction false} TurnKeepsShapeIff(env: Environment, o: Opening, rounds: seq<seq<Result>>, depth: nat)
    requires RunsFollowCalls(o.history) && AllAnswered(o.history) && Named(o.history)
    requires env.Completes(o.pending, rounds) && env.UsersPush(o.pending) && CallsNamed(env) && BatchesDistinct(env)
    ensures RunsFollowCalls(env.Final(o, rounds, depth))
            <==> EphemeralRunInPlace(env, |rounds|) && !env.CutOff(|rounds|)
  {
    TurnShapeIff(env, o, rounds, depth);
    AllAnchoredIff(env, o.pending, rounds);
    if env.CutOff(|rounds|) {
      CutOffDetaches(env, o, rounds);
    } else if env.AllAnchored(rounds) {
      AppendedAnswered(env, o.pending, rounds);
      BaseValid(env, o);
      EndedIs(env, o, rounds);
      AnsweredConcat(env.Base(o), Appended(env, o.pending, rounds));
      EndedNamed(env, o, rounds);
      NamedAndAnsweredStays(env.Ended(o, rounds));
    }
  }

  ghost predicate InShape(h: seq<Message>) {
    RunsFollowCalls(h) && AllAnswered(h) && Named(h)
  }

  /** Then the shape is an invariant of turns. */
  lemma {:induction false} TurnKeepsInShape(env: Environment, o: Opening, rounds: seq<seq<Result>>, depth: nat)
    requires InShape(o.history)
    requires env.Completes(o.pending, rounds) && env.UsersPush(o.pending) && CallsNamed(env) && BatchesDistinct(env)
    requires EphemeralRunInPlace(env, |rounds|) && !env.CutOff(|rounds|)
    ensures InShape(env.Final(o, rounds, depth))
  {
    TurnKeepsShapeIff(env, o, rounds, depth);
    AllAnchoredIff(env, o.pending, rounds);
    TurnAnswersAll(env, o, rounds, depth);
    EndedNamed(env, o, rounds);
    PaddedNamed(env.Ended(o, rounds));
    LeftAreUsers(env, o.pending, |rounds|, depth);
    var left := Leftover(depth, env.Left(o.pending, |rounds|) + env.late);
    NoCallsNamed(left);
    NamedConcat(Padded(env.Ended(o, rounds)), left);
  }

  lemma {:induction false} PadsNamed(calls: seq<ToolCall>, resolved: set<string>)
    ensures Named(PadsFor(calls, resolved))
  {
    PadsAnswer(calls, resolved);
  }

  lemma {:induction false} PaddedNamed(h: seq<Message>)
    requires Named(h)
    ensures Named(Padded(h))
  {
    var last := LastWithCalls(h);
    if last >= 0 {
      var calls, resolved := h[last].calls, ResolvedIds(h[last + 1..]);
      PadsNamed(calls, resolved);
      NamedConcat(h, PadsFor(calls, resolved));
    }
  }

  // ----- results without a call -----

  /** An ephemeral call that is deferred, blocked or parked leaves a tool message that no
      call in the session has, even where every persisted call is covered. */
  lemma {:induction false} IdleEphemeralOrphans(h: seq<Message>, b: Batch, results: seq<Result>, m: Message)
    requires DistinctIds(b.calls) && b.MayResult(results) && !EphemeralRun(b)
    requires m.role == Assistant && m.calls == Persisted(b.calls, b.ephemeral)
    ensures !RunsFollowCalls(h + ([m] + KeptAnswers(b.calls, results)))
  {
    var round := [m] + KeptAnswers(b.calls, results);
    ResultCount(b, results);
    AnchoredIff(b, results);
    PersistedInPlaceIff(b);
    KeptRoundRunsIff(b, results, m);
    if RunsFollowCalls(h + round) { RunsOfSuffix(h, round); }
  }

  lemma {:induction false} ResultCount(b: Batch, results: seq<Result>)
    requires b.MayResult(results)
    ensures |results| == |b.calls|
  {
    var order :| b.ListsStopped(order) && b.Assembled(order, results);
  }

  /** Two calls, the second one of an ephemeral tool, and a cap of one call. */
  lemma {:induction false} DeferredEphemeralOrphaned(h: seq<Message>, c: ToolCall, e: ToolCall,
                                                     b: Batch, results: seq<Result>, m: Message)
    requires b.calls == [c, e] && b.cap == 1 && c.id != e.id && !b.ephemeral(c.name) && b.ephemeral(e.name)
    requires b.MayResult(results) && m.role == Assistant && m.calls == Persisted(b.calls, b.ephemeral)
    ensures b.EphemeralInPlace() && b.Covers(results)
    ensures !RunsFollowCalls(h + ([m] + KeptAnswers(b.calls, results)))
  {
    assert b.Looked() == [c];
    assert b.calls[1] == e && !EphemeralRun(b);
    OnlyFirstRuns(b, c);
    MayResultCovers(b, results);
    IdleEphemeralOrphans(h, b, results, m);
  }

  lemma {:induction false} OnlyFirstRuns(b: Batch, c: ToolCall)
    requires b.Looked() == [c] && !b.ephemeral(c.name)
    ensures b.EphemeralInPlace()
  {
    SplitMembers(b.Looked(), b.verdict);
    assert forall k :: 0 <= k < |b.Allowed()| ==> b.Allowed()[k] in b.Allowed();
  }
}
