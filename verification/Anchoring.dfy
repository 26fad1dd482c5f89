/** When the results of a batch that are written to the session belong to calls that are
    written there too. Calls of ephemeral tools are not written; the results of deferred and
    stopped calls always are. */
module Anchoring {
  import opened Conversation
  import opened ToolRound

  /** Every persisted result carries the id of a persisted call. */
  ghost predicate Anchored(b: Batch, results: seq<Result>) {
    |results| == |b.calls| && forall k :: 0 <= k < |b.calls| && !results[k].ephemeral ==> PersistsId(b, b.calls[k].id)
  }

  ghost predicate PersistsId(b: Batch, id: string) {
    exists c :: c in b.calls && !b.ephemeral(c.name) && c.id == id
  }

  /** Where the batch has an ephemeral call, an executed ephemeral result lands. */
  ghost predicate PersistedInPlace(b: Batch) {
    forall k :: 0 <= k < |b.calls| && b.ephemeral(b.calls[k].name) ==> k < |b.Allowed()| && b.ephemeral(b.Allowed()[k].name)
  }

  /** Every ephemeral call is looked at, and allowed. */
  ghost predicate EphemeralRun(b: Batch) {
    forall k :: 0 <= k < |b.calls| && b.ephemeral(b.calls[k].name) ==> k < |b.Looked()| && b.verdict(b.calls[k]).Allow?
  }

  // ----- positions -----

  lemma {:induction false} ResultEphemeralIff(b: Batch, results: seq<Result>, k: nat)
    requires b.MayResult(results) && k < |b.calls|
    ensures |results| == |b.calls|
    ensures results[k].ephemeral <==> k < |b.Allowed()| && b.ephemeral(b.Allowed()[k].name)
  {
    var order :| b.ListsStopped(order) && b.Assembled(order, results);
    assert results[k] == b.PartAt(order, k);
    var a := |b.Allowed()|;
    if a <= k < |b.Looked()| {
      assert order[k - a] in order;
      assert b.IsStopped(order[k - a]);
    }
  }

  lemma {:induction false} AnchoredIff(b: Batch, results: seq<Result>)
    requires DistinctIds(b.calls) && b.MayResult(results)
    ensures Anchored(b, results) <==> PersistedInPlace(b)
  {
    forall k | 0 <= k < |b.calls|
      ensures |results| == |b.calls|
      ensures results[k].ephemeral <==> k < |b.Allowed()| && b.ephemeral(b.Allowed()[k].name)
      ensures PersistsId(b, b.calls[k].id) <==> !b.ephemeral(b.calls[k].name)
    {
      ResultEphemeralIff(b, results, k);
      PersistsOwnId(b, k);
    }
    var order :| b.ListsStopped(order) && b.Assembled(order, results);
  }

  lemma {:induction false} PersistsOwnId(b: Batch, k: nat)
    requires DistinctIds(b.calls) && k < |b.calls|
    ensures PersistsId(b, b.calls[k].id) <==> !b.ephemeral(b.calls[k].name)
  {
    if PersistsId(b, b.calls[k].id) {
      var c :| c in b.calls && !b.ephemeral(c.name) && c.id == b.calls[k].id;
      SameIdSameCall(b.calls, c, k);
    }
  }

  // ----- counting -----

  function Count(flags: seq<bool>): nat {
    if flags == [] then 0
    else if flags[|flags| - 1] then Count(flags[..|flags| - 1]) + 1
    else Count(flags[..|flags| - 1])
  }

  lemma {:induction false} Pointwise(p: seq<bool>, q: seq<bool>)
    requires |p| == |q| && forall k :: 0 <= k < |p| && p[k] ==> q[k]
    ensures Count(p) <= Count(q)
    ensures Count(p) == Count(q) ==> p == q
  {
    if p != [] {
      var n := |p| - 1;
      Pointwise(p[..n], q[..n]);
      assert p == p[..n] + [p[n]] && q == q[..n] + [q[n]];
    }
  }

  /** Which of n positions hold an ephemeral call. */
  function Flags(calls: seq<ToolCall>, ephemeral: string -> bool, n: nat): (r: seq<bool>)
    ensures |r| == n
  {
    seq(n, k requires 0 <= k < n => k < |calls| && ephemeral(calls[k].name))
  }

  function EphemeralCount(calls: seq<ToolCall>, ephemeral: string -> bool): nat {
    if calls == [] then 0
    else
      var n := |calls| - 1;
      var front := EphemeralCount(calls[..n], ephemeral);
      if ephemeral(calls[n].name) then front + 1 else front
  }

  lemma {:induction false} CountOfFlags(calls: seq<ToolCall>, ephemeral: string -> bool, n: nat)
    requires |calls| <= n
    ensures Count(Flags(calls, ephemeral, n)) == EphemeralCount(calls, ephemeral)
    decreases n
  {
    if n > 0 {
      var f := Flags(calls, ephemeral, n);
      var front := if |calls| == n then calls[..n - 1] else calls;
      assert f[..n - 1] == Flags(front, ephemeral, n - 1);
      CountOfFlags(front, ephemeral, n - 1);
    }
  }

  lemma {:induction false} SplitEphemeral(calls: seq<ToolCall>, verdict: ToolCall -> Verdict, ephemeral: string -> bool)
    ensures EphemeralCount(AllowedOf(calls, verdict), ephemeral) + EphemeralCount(StoppedOf(calls, verdict), ephemeral)
            == EphemeralCount(calls, ephemeral)
  {
    if calls != [] {
      var n := |calls| - 1;
      SplitEphemeral(calls[..n], verdict, ephemeral);
      var a, s := AllowedOf(calls[..n], verdict), StoppedOf(calls[..n], verdict);
      assert (a + [calls[n]])[..|a|] == a && (s + [calls[n]])[..|s|] == s;
    }
  }

  lemma {:induction false} CountConcat(a: seq<ToolCall>, b: seq<ToolCall>, ephemeral: string -> bool)
    ensures EphemeralCount(a + b, ephemeral) == EphemeralCount(a, ephemeral) + EphemeralCount(b, ephemeral)
  {
    if b == [] {
      assert a + b == a;
    } else {
      var n := |b| - 1;
      assert (a + b)[..|a + b| - 1] == a + b[..n];
      CountConcat(a, b[..n], ephemeral);
    }
  }

  lemma {:induction false} CountZeroIff(calls: seq<ToolCall>, ephemeral: string -> bool)
    ensures EphemeralCount(calls, ephemeral) == 0 <==> forall c :: c in calls ==> !ephemeral(c.name)
  {
    if calls != [] {
      var n := |calls| - 1;
      CountZeroIff(calls[..n], ephemeral);
      assert calls == calls[..n] + [calls[n]];
    }
  }

  /** Ephemeral calls are all executed exactly when none is missing among the executed. */
  lemma {:induction false} AllRunIff(b: Batch)
    ensures EphemeralCount(b.Allowed(), b.ephemeral) <= EphemeralCount(b.calls, b.ephemeral)
    ensures EphemeralCount(b.Allowed(), b.ephemeral) == EphemeralCount(b.calls, b.ephemeral) <==> EphemeralRun(b)
  {
    var rest := b.calls[|b.Looked()|..];
    assert b.calls == b.Looked() + rest;
    CountConcat(b.Looked(), rest, b.ephemeral);
    SplitEphemeral(b.Looked(), b.verdict, b.ephemeral);
    CountZeroIff(rest, b.ephemeral);
    CountZeroIff(b.Stops(), b.ephemeral);
    DeferredNoneIff(b, rest);
    StoppedNoneIff(b);
  }

  lemma {:induction false} DeferredNoneIff(b: Batch, rest: seq<ToolCall>)
    requires rest == b.calls[|b.Looked()|..]
    ensures (forall c :: c in rest ==> !b.ephemeral(c.name))
            <==> forall k :: |b.Looked()| <= k < |b.calls| ==> !b.ephemeral(b.calls[k].name)
  {
    var n := |b.Looked()|;
    assert forall k :: n <= k < |b.calls| ==> b.calls[k] == rest[k - n];
  }

  lemma {:induction false} StoppedNoneIff(b: Batch)
    ensures (forall c :: c in b.Stops() ==> !b.ephemeral(c.name))
            <==> forall k :: 0 <= k < |b.Looked()| && b.ephemeral(b.calls[k].name) ==> b.verdict(b.calls[k]).Allow?
  {
    SplitMembers(b.Looked(), b.verdict);
    assert forall k :: 0 <= k < |b.Looked()| ==> b.calls[k] == b.Looked()[k];
  }

  // ----- the condition, over gate, cap and ephemeral tools -----

  /** No persisted result lands on an ephemeral call exactly when no ephemeral one lands on a
      persisted call and every ephemeral call is executed. */
  lemma {:induction false} PersistedInPlaceIff(b: Batch)
    ensures PersistedInPlace(b) <==> b.EphemeralInPlace() && EphemeralRun(b)
  {
    var n := |b.calls|;
    var all, run := Flags(b.calls, b.ephemeral, n), Flags(b.Allowed(), b.ephemeral, n);
    SplitCounts(b.Looked(), b.verdict);
    AllRunIff(b);
    CountOfFlags(b.calls, b.ephemeral, n);
    CountOfFlags(b.Allowed(), b.ephemeral, n);
    assert forall k :: 0 <= k < n ==> (all[k] <==> b.ephemeral(b.calls[k].name));
    assert forall k :: 0 <= k < n ==> (run[k] <==> k < |b.Allowed()| && b.ephemeral(b.Allowed()[k].name));
    if PersistedInPlace(b) { Pointwise(all, run); }
    if b.EphemeralInPlace() { Pointwise(run, all); }
  }

  /** Under every map order, every persisted call gets a persisted result and every persisted
      result has its persisted call, exactly when every ephemeral call is executed and keeps
      clear of the persisted ones. */
  lemma {:induction false} RoundMatchesIff(b: Batch)
    requires DistinctIds(b.calls)
    ensures (forall results: seq<Result> :: b.MayResult(results) ==> b.Covers(results) && Anchored(b, results))
            <==> b.EphemeralInPlace() && EphemeralRun(b)
  {
    PersistedInPlaceIff(b);
    if PersistedInPlace(b) {
      forall results: seq<Result> | b.MayResult(results) ensures b.Covers(results) && Anchored(b, results) {
        MayResultCovers(b, results);
        AnchoredIff(b, results);
      }
    } else {
      SplitCounts(b.Looked(), b.verdict);
      StoppedResultsListed(b);
      var results := Build(b, StoppedResults(b));
      assert b.MayResult(results);
      AnchoredIff(b, results);
    }
  }

  /** Results that are matched by id, as the streaming twin does, always cover the persisted
      calls; each has its persisted call exactly when every ephemeral call is executed. */
  lemma {:induction false} MatchedByIdIff(b: Batch, results: seq<Result>)
    requires DistinctIds(b.calls) && |results| == |b.calls|
    requires forall k :: 0 <= k < |b.calls| ==> results[k] == b.Intended(k)
    ensures b.Covers(results) && (Anchored(b, results) <==> EphemeralRun(b))
  {
    forall k | 0 <= k < |b.calls| ensures PersistsId(b, b.calls[k].id) <==> !b.ephemeral(b.calls[k].name) {
      PersistsOwnId(b, k);
    }
    assert forall k :: 0 <= k < |b.calls| ==> results[k] == b.Intended(k);
  }
}
