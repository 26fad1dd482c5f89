/** Context compaction: pruning of old tool results, and compression of everything but
    the recent tail into one summary message. The summary text is arbitrary. */
module Compaction {
  import opened Conversation
  import opened Options

  const TOKEN_THRESHOLD: nat := 80000
  const PRUNE_TURN_AGE: nat := 20
  const MAX_KEPT_RESULT: nat := 200
  const PLACEHOLDER := "[Result truncated - see memory logs]"

  // ----- token estimate -----

  function CallTokens(calls: seq<ToolCall>): nat {
    if calls == [] then 0 else
      var c := calls[|calls| - 1];
      CallTokens(calls[..|calls| - 1]) + |c.args| / 4 + |c.name| / 4
  }

  function Tokens(ms: seq<Message>): nat {
    if ms == [] then 0 else
      var m := ms[|ms| - 1];
      Tokens(ms[..|ms| - 1]) + |m.content| / 4 + CallTokens(m.calls)
  }

  method EstimateTokens(ms: seq<Message>) returns (total: nat)
    ensures total == Tokens(ms)
  {
    total := 0;
    for i := 0 to |ms|
      invariant total == Tokens(ms[..i])
    {
      assert ms[..i + 1][..i] == ms[..i];
      var m := ms[i];
      total := total + |m.content| / 4;
      for k := 0 to |m.calls|
        invariant total == Tokens(ms[..i]) + |m.content| / 4 + CallTokens(m.calls[..k])
      {
        assert m.calls[..k + 1][..k] == m.calls[..k];
        total := total + |m.calls[k].args| / 4;
        total := total + |m.calls[k].name| / 4;
      }
      assert m.calls[..|m.calls|] == m.calls;
    }
    assert ms[..|ms|] == ms;
  }

  lemma {:induction false} CallTokensAdd(a: seq<ToolCall>, b: seq<ToolCall>)
    ensures CallTokens(a + b) == CallTokens(a) + CallTokens(b)
  {
    if b == [] {
      assert a + b == a;
    } else {
      assert (a + b)[..|a + b| - 1] == a + b[..|b| - 1];
      CallTokensAdd(a, b[..|b| - 1]);
    }
  }

  /** The estimate adds up, message by message and call by call; a message weighs a quarter
      of its content, a call a quarter of its arguments and of its name. */
  lemma {:induction false} TokensAdd(a: seq<Message>, b: seq<Message>, m: Message, front: seq<ToolCall>, c: ToolCall)
    ensures Tokens(a + b) == Tokens(a) + Tokens(b)
    ensures Tokens([]) == 0 && Tokens([m.(calls := [])]) == |m.content| / 4
    ensures Tokens([m.(calls := front + [c])]) == Tokens([m.(calls := front)]) + |c.args| / 4 + |c.name| / 4
  {
    if b == [] {
      assert a + b == a;
    } else {
      assert (a + b)[..|a + b| - 1] == a + b[..|b| - 1];
      TokensAdd(a, b[..|b| - 1], m, front, c);
    }
    TokensOfOne(m.(calls := front + [c]));
    TokensOfOne(m.(calls := front));
    TokensOfOne(m.(calls := []));
    assert (front + [c])[..|front|] == front;
  }

  lemma {:induction false} TokensOfOne(m: Message)
    ensures Tokens([m]) == |m.content| / 4 + CallTokens(m.calls)
  {
    assert [m][..0] == [];
  }

  // ----- pruning -----

  predicate Prunable(m: Message) {
    m.role == Tool && |m.content| > MAX_KEPT_RESULT
  }

  function PrunedMessage(m: Message): Message {
    if Prunable(m) then ToolMessage(m.callId, m.name, PLACEHOLDER) else m
  }

  function Pruned(ms: seq<Message>): (r: seq<Message>)
    ensures |r| == |ms|
  {
    seq(|ms|, i requires 0 <= i < |ms| => if i < |ms| - PRUNE_TURN_AGE then PrunedMessage(ms[i]) else ms[i])
  }

  method PruneOldToolResults(ms: seq<Message>) returns (result: seq<Message>)
    ensures result == Pruned(ms)
    ensures |result| == |ms|
    ensures forall i :: 0 <= i < |ms| - PRUNE_TURN_AGE && ms[i].role == Tool && |ms[i].content| > MAX_KEPT_RESULT ==>
              result[i] == Message(Tool, PLACEHOLDER, [], ms[i].callId, ms[i].name, "")
    ensures forall i :: 0 <= i < |ms| ==>
              (|ms| - PRUNE_TURN_AGE <= i || ms[i].role != Tool || |ms[i].content| <= MAX_KEPT_RESULT ==> result[i] == ms[i])
  {
    if |ms| <= PRUNE_TURN_AGE {
      assert Pruned(ms) == ms;
      return ms;
    }
    var cutoff := |ms| - PRUNE_TURN_AGE;
    result := ms;
    for i := 0 to cutoff
      invariant |result| == |ms|
      invariant forall k :: 0 <= k < i ==> result[k] == PrunedMessage(ms[k])
      invariant forall k :: i <= k < |ms| ==> result[k] == ms[k]
    {
      if result[i].role == Tool && |result[i].content| > MAX_KEPT_RESULT {
        result := result[i := ToolMessage(result[i].callId, result[i].name, PLACEHOLDER)];
      }
    }
  }

  /** Two histories with the same messages up to the content of tool results. */
  ghost predicate SameSkeleton(a: seq<Message>, b: seq<Message>) {
    && |a| == |b|
    && forall i :: 0 <= i < |a| ==>
         && a[i].role == b[i].role && a[i].callId == b[i].callId && a[i].name == b[i].name
         && (a[i].role != Tool ==> a[i] == b[i])
  }

  /** Pruning touches nothing but the content of old tool results. */
  lemma {:induction false} PruningKeepsSkeleton(ms: seq<Message>)
    ensures SameSkeleton(Pruned(ms), ms)
  {}

  lemma {:induction false} PruningIsIdempotent(ms: seq<Message>)
    ensures Pruned(Pruned(ms)) == Pruned(ms)
  {
    assert |PLACEHOLDER| == 36;
  }

  lemma {:induction false} TokensPointwise(a: seq<Message>, b: seq<Message>)
    requires |a| == |b|
    requires forall i :: 0 <= i < |a| ==> |a[i].content| / 4 + CallTokens(a[i].calls) <= |b[i].content| / 4 + CallTokens(b[i].calls)
    ensures Tokens(a) <= Tokens(b)
  {
    if a != [] { TokensPointwise(a[..|a| - 1], b[..|b| - 1]); }
  }

  lemma {:induction false} PruningNeverRaisesTokens(ms: seq<Message>)
    ensures Tokens(Pruned(ms)) <= Tokens(ms)
  {
    assert |PLACEHOLDER| == 36;
    TokensPointwise(Pruned(ms), ms);
  }

  // ----- compression -----

  function SafeCutoff(ms: seq<Message>, cutoff: nat): (r: nat)
    ensures cutoff <= r && (r <= |ms| || r == cutoff)
    ensures r < |ms| ==> ms[r].role != Tool
    decreases |ms| - cutoff
  {
    if cutoff < |ms| && ms[cutoff].role == Tool then SafeCutoff(ms, cutoff + 1) else cutoff
  }

  method SafeCompactionCutoff(ms: seq<Message>, at: int) returns (cutoff: nat)
    ensures cutoff == SafeCutoff(ms, if at < 0 then 0 else at)
  {
    cutoff := if at < 0 then 0 else at;
    while cutoff < |ms| && ms[cutoff].role == Tool
      invariant SafeCutoff(ms, cutoff) == SafeCutoff(ms, if at < 0 then 0 else at)
      decreases |ms| - cutoff
    {
      cutoff := cutoff + 1;
    }
  }

  function Summary(text: string): Message {
    Plain(User, "[Conversation Summary]\n" + text)
  }

  function Compressed(ms: seq<Message>, text: string): seq<Message> {
    if |ms| <= PRUNE_TURN_AGE then ms
    else [Summary(text)] + ms[SafeCutoff(ms, |ms| - PRUNE_TURN_AGE)..]
  }

  /** The summarizer may fail; then there is no compressed history. */
  method CompressOlderMessages(ms: seq<Message>, summary: Option<string>) returns (r: Option<seq<Message>>)
    ensures |ms| > PRUNE_TURN_AGE && summary.None? ==> r.None?
    ensures |ms| <= PRUNE_TURN_AGE ==> r == Some(ms)
    ensures |ms| > PRUNE_TURN_AGE && summary.Some? ==> r == Some(Compressed(ms, summary.value))
  {
    if |ms| <= PRUNE_TURN_AGE {
      return Some(ms);
    }
    var cutoff := SafeCompactionCutoff(ms, |ms| - PRUNE_TURN_AGE);
    if summary.None? {
      return None;
    }
    r := Some([Summary(summary.value)] + ms[cutoff..]);
  }

  datatype Outcome = Unchanged | OnlyPruned | FullyCompressed

  /** The history that compaction leaves, whatever the summarizer answered. */
  function Compacted(ms: seq<Message>, summary: Option<string>): (Outcome, seq<Message>) {
    if Tokens(ms) < TOKEN_THRESHOLD then (Unchanged, ms)
    else if Tokens(Pruned(ms)) < TOKEN_THRESHOLD then (OnlyPruned, Pruned(ms))
    else if |ms| <= PRUNE_TURN_AGE || summary.None? then (OnlyPruned, Pruned(ms))
    else (FullyCompressed, Compressed(Pruned(ms), summary.value))
  }

  /** The summary as a user message, and an unchanged suffix of at most twenty messages that
      loses recent messages only where they answer calls that went into the summary. */
  ghost predicate IsSummaryAndSuffix(r: seq<Message>, ms: seq<Message>, text: string) {
    && 1 <= |r| <= PRUNE_TURN_AGE + 1 && |r| <= |ms| + 1
    && r[0] == Message(User, "[Conversation Summary]\n" + text, [], "", "", "")
    && r[1..] == ms[|ms| - (|r| - 1)..]
    && forall i :: 0 <= i && |ms| - PRUNE_TURN_AGE <= i < |ms| - (|r| - 1) ==> ms[i].role == Tool
  }

  /** All old tool results of ms that are too long are cut, and nothing else is. */
  ghost predicate CutFrom(r: seq<Message>, ms: seq<Message>) {
    && |r| == |ms|
    && (forall i :: 0 <= i < |ms| - PRUNE_TURN_AGE && ms[i].role == Tool && |ms[i].content| > MAX_KEPT_RESULT ==>
          r[i] == Message(Tool, PLACEHOLDER, [], ms[i].callId, ms[i].name, ""))
    && (forall i :: 0 <= i < |ms| && (|ms| - PRUNE_TURN_AGE <= i || ms[i].role != Tool || |ms[i].content| <= MAX_KEPT_RESULT) ==>
          r[i] == ms[i])
  }

  lemma {:induction false} PruningCutsExactly(ms: seq<Message>)
    ensures CutFrom(Pruned(ms), ms)
  {}

  /** Which history is left: the old one below the threshold, the pruned one when that
      suffices or there is nothing to compress or no summary, and else the summary. */
  lemma {:induction false} CompactedOutcome(ms: seq<Message>, summary: Option<string>)
    ensures var (outcome, r) := Compacted(ms, summary);
            && (outcome.Unchanged? <==> Tokens(ms) < TOKEN_THRESHOLD)
            && (outcome.Unchanged? ==> r == ms)
            && (outcome.OnlyPruned? ==> CutFrom(r, ms) && (Tokens(r) < TOKEN_THRESHOLD || |ms| <= PRUNE_TURN_AGE || summary.None?))
            && (outcome.FullyCompressed? ==>
                  summary.Some? && IsSummaryAndSuffix(r, ms, summary.value) && Tokens(Pruned(ms)) >= TOKEN_THRESHOLD)
  {
    PruningCutsExactly(ms);
    if Compacted(ms, summary).0.FullyCompressed? { CompressedIsSummaryAndSuffix(ms, summary); }
  }

  method CompactMessages(ms: seq<Message>, summary: Option<string>) returns (result: seq<Message>, pruned: bool)
    ensures result == Compacted(ms, summary).1 && (pruned <==> !Compacted(ms, summary).0.Unchanged?)
    ensures pruned <==> Tokens(ms) >= TOKEN_THRESHOLD
    ensures !pruned ==> result == ms
    ensures Tokens(result) >= TOKEN_THRESHOLD ==>
              summary.None? || |ms| <= PRUNE_TURN_AGE || IsSummaryAndSuffix(result, ms, summary.value)
  {
    CompactedOutcome(ms, summary);
    var tokens := EstimateTokens(ms);
    if tokens < TOKEN_THRESHOLD {
      return ms, false;
    }
    var p := PruneOldToolResults(ms);
    var prunedTokens := EstimateTokens(p);
    if prunedTokens < TOKEN_THRESHOLD {
      return p, true;
    }
    var c := CompressOlderMessages(p, summary);
    if c.None? {
      return p, true;
    }
    return c.value, true;
  }

  // ----- what compaction keeps -----

  /** Every tool message stands in a run of tool messages right behind the assistant
      message that carries its id. */
  ghost predicate RunsFollowCalls(h: seq<Message>) {
    forall j :: 0 <= j < |h| && h[j].role == Tool ==> exists i :: 0 <= i < j && Answers(h, i, j)
  }

  ghost predicate Answers(h: seq<Message>, i: int, j: int)
    requires 0 <= i < j < |h|
  {
    && HasCalls(h[i]) && (exists c :: c in h[i].calls && c.id == h[j].callId)
    && forall k :: i < k <= j ==> h[k].role == Tool
  }

  lemma {:induction false} PruningKeepsRuns(ms: seq<Message>)
    requires RunsFollowCalls(ms)
    ensures RunsFollowCalls(Pruned(ms))
  {
    var p := Pruned(ms);
    PruningKeepsSkeleton(ms);
    forall j | 0 <= j < |p| && p[j].role == Tool ensures exists i :: 0 <= i < j && Answers(p, i, j) {
      assert ms[j].role == Tool;
      var i :| 0 <= i < j && Answers(ms, i, j);
      assert p[i] == ms[i];
      assert Answers(p, i, j);
    }
  }

  lemma {:induction false} PruningKeepsAnswers(ms: seq<Message>)
    requires AllAnswered(ms)
    ensures AllAnswered(Pruned(ms))
  {
    var p := Pruned(ms);
    PruningKeepsSkeleton(ms);
    forall i | 0 <= i < |p| && HasCalls(p[i]) ensures CallsAnswered(p, i) {
      assert ms[i] == p[i] && CallsAnswered(ms, i);
      forall c | c in p[i].calls ensures AnsweredAfter(p, i, c.id) {
        assert AnsweredAfter(ms, i, c.id);
        var j :| 0 <= j && i < j < |ms| && ms[j].role == Tool && ms[j].callId == c.id;
        assert p[j].role == Tool && p[j].callId == c.id;
      }
    }
  }

  /** A summary in front of a tail that does not begin with a tool message. */
  lemma {:induction false} SummaryKeepsRuns(ms: seq<Message>, cut: nat, text: string)
    requires RunsFollowCalls(ms) && cut <= |ms| && (cut < |ms| ==> ms[cut].role != Tool)
    ensures RunsFollowCalls([Summary(text)] + ms[cut..])
  {
    var h := [Summary(text)] + ms[cut..];
    forall j | 0 <= j < |h| && h[j].role == Tool ensures exists i :: 0 <= i < j && Answers(h, i, j) {
      var jj := cut + j - 1;
      assert h[j] == ms[jj];
      var ii :| 0 <= ii < jj && Answers(ms, ii, jj);
      assert !(ii < cut <= jj);
      var i := ii - cut + 1;
      assert h[i] == ms[ii];
      forall k | i < k <= j ensures h[k].role == Tool {
        assert h[k] == ms[cut + k - 1];
      }
      assert Answers(h, i, j);
    }
  }

  lemma {:induction false} SummaryKeepsAnswers(ms: seq<Message>, cut: nat, text: string)
    requires AllAnswered(ms) && cut <= |ms|
    ensures AllAnswered([Summary(text)] + ms[cut..])
  {
    var h := [Summary(text)] + ms[cut..];
    forall i | 0 <= i < |h| && HasCalls(h[i]) ensures CallsAnswered(h, i) {
      var ii := cut + i - 1;
      assert h[i] == ms[ii] && CallsAnswered(ms, ii);
      forall c | c in h[i].calls ensures AnsweredAfter(h, i, c.id) {
        assert AnsweredAfter(ms, ii, c.id);
        var jj :| 0 <= jj && ii < jj < |ms| && ms[jj].role == Tool && ms[jj].callId == c.id;
        assert h[jj - cut + 1] == ms[jj];
      }
    }
  }

  lemma {:induction false} CompressionKeepsRuns(ms: seq<Message>, text: string)
    requires RunsFollowCalls(ms)
    ensures RunsFollowCalls(Compressed(ms, text))
  {
    if |ms| > PRUNE_TURN_AGE { SummaryKeepsRuns(ms, SafeCutoff(ms, |ms| - PRUNE_TURN_AGE), text); }
  }

  lemma {:induction false} CompressionKeepsAnswers(ms: seq<Message>, text: string)
    requires AllAnswered(ms)
    ensures AllAnswered(Compressed(ms, text))
  {
    if |ms| > PRUNE_TURN_AGE { SummaryKeepsAnswers(ms, SafeCutoff(ms, |ms| - PRUNE_TURN_AGE), text); }
  }

  lemma {:induction false} CompactionKeepsRuns(ms: seq<Message>, summary: Option<string>)
    requires RunsFollowCalls(ms)
    ensures RunsFollowCalls(Compacted(ms, summary).1)
  {
    PruningKeepsRuns(ms);
    if summary.Some? { CompressionKeepsRuns(Pruned(ms), summary.value); }
  }

  lemma {:induction false} CompactionKeepsAnswers(ms: seq<Message>, summary: Option<string>)
    requires AllAnswered(ms)
    ensures AllAnswered(Compacted(ms, summary).1)
  {
    PruningKeepsAnswers(ms);
    if summary.Some? { CompressionKeepsAnswers(Pruned(ms), summary.value); }
  }

  /** For any summary, or none: the compacted history has its tool messages behind their
      calls, and every call answered, if the original had. */
  lemma {:induction false} CompactionKeepsPairing(ms: seq<Message>, summary: Option<string>)
    ensures RunsFollowCalls(ms) ==> RunsFollowCalls(Compacted(ms, summary).1)
    ensures AllAnswered(ms) ==> AllAnswered(Compacted(ms, summary).1)
  {
    if RunsFollowCalls(ms) { CompactionKeepsRuns(ms, summary); }
    if AllAnswered(ms) { CompactionKeepsAnswers(ms, summary); }
  }

  /** A compressed history is a summary and at most twenty messages: an unchanged suffix of
      the original. */
  lemma {:induction false} CompressedIsSummaryAndSuffix(ms: seq<Message>, summary: Option<string>)
    requires Compacted(ms, summary).0.FullyCompressed?
    ensures IsSummaryAndSuffix(Compacted(ms, summary).1, ms, summary.value)
  {
    TailOfPruned(ms, SafeCutoff(Pruned(ms), |ms| - PRUNE_TURN_AGE));
  }

  /** What the user has just said is the last message of the history that compaction leaves. */
  lemma {:induction false} LastSurvives(ms: seq<Message>, summary: Option<string>, last: Message)
    requires last.role != Tool
    ensures var r := Compacted(ms + [last], summary).1; r != [] && r[|r| - 1] == last
  {
    var all := ms + [last];
    var (outcome, r) := Compacted(all, summary);
    CompactedOutcome(all, summary);
    assert all[|all| - 1] == last;
    if outcome.FullyCompressed? {
      assert |r| > 1;
      assert r[1..][|r| - 2] == all[|all| - (|r| - 1)..][|r| - 2];
    }
  }

  lemma {:induction false} TailOfPruned(ms: seq<Message>, cut: nat)
    requires |ms| > PRUNE_TURN_AGE && cut == SafeCutoff(Pruned(ms), |ms| - PRUNE_TURN_AGE)
    ensures |ms| - PRUNE_TURN_AGE <= cut <= |ms| && Pruned(ms)[cut..] == ms[cut..]
    ensures forall i :: |ms| - PRUNE_TURN_AGE <= i < cut ==> ms[i].role == Tool
  {
    var p := Pruned(ms);
    CutoffSkipsOnlyTools(p, |ms| - PRUNE_TURN_AGE);
    RecentUntouched(ms, p, cut);
  }

  /** The last twenty messages are younger than anything pruning touches. */
  lemma {:induction false} RecentUntouched(ms: seq<Message>, p: seq<Message>, cut: nat)
    requires p == Pruned(ms) && 0 <= |ms| - PRUNE_TURN_AGE <= cut <= |ms|
    ensures p[cut..] == ms[cut..]
    ensures forall i :: |ms| - PRUNE_TURN_AGE <= i < |ms| ==> p[i] == ms[i]
  {}

  lemma {:induction false} CutoffSkipsOnlyTools(ms: seq<Message>, cutoff: nat)
    ensures forall i :: cutoff <= i < SafeCutoff(ms, cutoff) && i < |ms| ==> ms[i].role == Tool
    decreases |ms| - cutoff
  {
    if cutoff < |ms| && ms[cutoff].role == Tool { CutoffSkipsOnlyTools(ms, cutoff + 1); }
  }
}
