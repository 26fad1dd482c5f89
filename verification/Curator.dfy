/** The curator: runs that judge pairs of skills, cluster the related ones and propose a
    merge for every cluster that has no pending proposal yet. The judge, the synthesizer
    and the store may fail anywhere. */
module Curator {
  import opened Options
  import opened Selection
  import opened SkillClusters
  import opened Sorting
  import opened Text

  /** verdicts: the judged pairs, true when related. pending: the source lists of the
      pending proposals, oldest first. */
  datatype Store = Store(verdicts: map<Pair, bool>, pending: seq<seq<string>>)

  /** What a run meets: the candidate pairs, or None when the query fails; by position, whether
      looking a verdict up fails, and what a judgement records if anything; whether the two
      listings fail; by position, whether a cluster's proposal fails to be made. */
  datatype Oracle = Oracle(candidates: Option<seq<Pair>>, lookupFails: nat -> bool, judged: nat -> Option<bool>,
                           relatedFails: bool, pendingFails: bool, synthFails: nat -> bool)

  // ----- keys -----

  function ClusterKey(members: seq<string>): string {
    Join(SortBy(Identity, members), "|")
  }

  ghost predicate SameSet(a: seq<string>, b: seq<string>) {
    forall x :: x in a <==> x in b
  }

  lemma {:induction false} SortedSet(a: seq<string>)
    requires Distinct(a)
    ensures StrictlySorted(Identity, SortBy(Identity, a)) && SameSet(a, SortBy(Identity, a))
  {
    SortKeepsElements(Identity, a);
    SortedDistinct(Identity, SortBy(Identity, a));
  }

  /** Lists with the same members, each once, have the same key in whatever order they come. */
  lemma {:induction false} SameSetSameKey(a: seq<string>, b: seq<string>)
    requires Distinct(a) && Distinct(b) && SameSet(a, b)
    ensures ClusterKey(a) == ClusterKey(b)
  {
    SortedSet(a);
    SortedSet(b);
    StrictlySortedUnique(Identity, SortBy(Identity, a), SortBy(Identity, b));
  }

  lemma {:induction false} SortedNoBar(a: seq<string>)
    requires FreeOf(a, "|")
    ensures FreeOf(SortBy(Identity, a), "|")
  {
    var s := SortBy(Identity, a);
    SortKeepsElements(Identity, a);
    forall i | 0 <= i < |s| ensures !Contains(s[i], "|") { assert s[i] in a; }
  }

  /** Without a bar in a name the key stands for the set of members. */
  lemma {:induction false} KeyIffSameSet(a: seq<string>, b: seq<string>)
    requires a != [] && b != [] && FreeOf(a, "|") && FreeOf(b, "|") && Distinct(a) && Distinct(b)
    ensures ClusterKey(a) == ClusterKey(b) <==> SameSet(a, b)
  {
    if SameSet(a, b) { SameSetSameKey(a, b); }
    SortedNoBar(a);
    SortedNoBar(b);
    SplitOfJoined(SortBy(Identity, a), "|");
    SplitOfJoined(SortBy(Identity, b), "|");
    SortKeepsElements(Identity, a);
    SortKeepsElements(Identity, b);
  }

  /** The pieces of the members' names between bars, in the order of the members. */
  function Pieces(members: seq<string>): seq<string> {
    Flatten(SplitEach(SortBy(Identity, members), "|"))
  }

  /** For any names: the key stands for the pieces, and not for the members. */
  lemma {:induction false} KeyIffSamePieces(a: seq<string>, b: seq<string>)
    requires a != [] && b != []
    ensures ClusterKey(a) == ClusterKey(b) <==> Pieces(a) == Pieces(b)
  {
    KeyIsPieces(a);
    KeyIsPieces(b);
  }

  lemma {:induction false} KeyIsPieces(a: seq<string>)
    requires a != []
    ensures Split(ClusterKey(a), "|") == Pieces(a) && Join(Pieces(a), "|") == ClusterKey(a)
  {
    SortKeepsElements(Identity, a);
    SplitJoin(SortBy(Identity, a), "|");
    JoinSplit(ClusterKey(a), "|");
  }

  /** Wherever two members of a cluster of three stand side by side in the order, the cluster
      of the first and one skill named after both has the same key. */
  lemma {:induction false} JoinedNameCollides(x: string, y: string, z: string)
    requires Less(x, y) && Less(y, z)
    ensures ClusterKey([x, y, z]) == ClusterKey([x, y + "|" + z]) && !SameSet([x, y, z], [x, y + "|" + z])
  {
    var w := y + "|" + z;
    LessThanLonger(x, y, "|" + z);
    assert y + ("|" + z) == w;
    LessTransitive(x, y, z);
    SortedAlready(x, w);
    SortedAlready(y, z);
    assert [x, y, z][1..] == [y, z];
    assert SortBy(Identity, [x, y, z]) == [x, y, z];
    JoinTwo(y, z);
    JoinTwo(x, w);
    assert Join([x, y, z], "|") == x + "|" + Join([y, z], "|");
    LessAsymmetric(x, y);
    assert y in [x, y, z] && y !in [x, w];
  }

  lemma {:induction false} JoinTwo(x: string, y: string)
    ensures Join([x, y], "|") == x + "|" + y
  {
    assert [x, y][1..] == [y];
  }

  lemma {:induction false} LessThanLonger(x: string, y: string, tail: string)
    requires Less(x, y)
    ensures Less(x, y + tail)
  {
    if x != "" && x[0] == y[0] {
      assert (y + tail)[1..] == y[1..] + tail;
      LessThanLonger(x[1..], y[1..], tail);
    }
  }

  /** With a bar, two clusters without a common member can have the same key. */
  lemma {:induction false} BarCollides()
    ensures ClusterKey(["a", "b|c"]) == ClusterKey(["a|b", "c"])
  {
    assert Less("a", "b|c") && Less("a|b", "c");
    SortedAlready("a", "b|c");
    SortedAlready("a|b", "c");
    assert Join(["a", "b|c"], "|") == "a|b|c" == Join(["a|b", "c"], "|");
  }

  lemma {:induction false} SortedAlready(x: string, y: string)
    requires Less(x, y)
    ensures SortBy(Identity, [x, y]) == [x, y]
  {
    assert [x, y][1..] == [y] && [y][1..] == [];
    assert SortBy(Identity, [y]) == [y];
  }

  // ----- one run -----

  function Norm(p: Pair): Pair {
    if p.a == p.b || Less(p.a, p.b) then p else Pair(p.b, p.a)
  }

  /** The two ways to name a pair are one. */
  lemma {:induction false} NormIsOne(a: string, b: string)
    ensures Norm(Pair(a, b)) == Norm(Pair(b, a)) && Norm(Pair(a, b)) in {Pair(a, b), Pair(b, a)}
    ensures a != b ==> Less(Norm(Pair(a, b)).a, Norm(Pair(a, b)).b)
  {
    LessTotal(a, b);
    if Less(a, b) { LessAsymmetric(a, b); }
  }

  function Judged(v: map<Pair, bool>, cands: seq<Pair>, o: Oracle): map<Pair, bool> {
    if cands == [] then v
    else
      var n := |cands| - 1;
      var before := Judged(v, cands[..n], o);
      if Norm(cands[n]) in before && !o.lookupFails(n) then before
      else
        match o.judged(n)
        case None => before
        case Some(related) => before[Norm(cands[n]) := related]
  }

  /** The clusters that get a proposal. */
  function Created(clusters: seq<seq<string>>, have: set<string>, o: Oracle): seq<seq<string>> {
    if clusters == [] then []
    else
      var n := |clusters| - 1;
      var before := Created(clusters[..n], have, o);
      if ClusterKey(clusters[n]) in have || o.synthFails(n) then before else before + [clusters[n]]
  }

  function Keys(pending: seq<seq<string>>): set<string> {
    if pending == [] then {} else Keys(pending[..|pending| - 1]) + {ClusterKey(pending[|pending| - 1])}
  }

  ghost predicate ListsRelated(edges: seq<Pair>, v: map<Pair, bool>) {
    forall p :: p in edges <==> p in v && v[p]
  }

  predicate Proposes(o: Oracle) { o.candidates.Some? && !o.relatedFails && !o.pendingFails }

  /** One run takes s to t, over this listing of the related pairs and its clusters. */
  ghost predicate RunStep(s: Store, t: Store, o: Oracle, edges: seq<Pair>, clusters: seq<seq<string>>) {
    if o.candidates.None? then t == s
    else
      && t.verdicts == Judged(s.verdicts, o.candidates.value, o)
      && if Proposes(o) then
           && ListsRelated(edges, t.verdicts) && IsClustering(edges, clusters)
           && t.pending == s.pending + Created(clusters, Keys(s.pending), o)
         else t.pending == s.pending
  }

  class Curator {
    var verdicts: map<Pair, bool>
    var pending: seq<seq<string>>

    ghost function Value(): Store
      reads this
    {
      Store(verdicts, pending)
    }

    method JudgeCandidates(cands: seq<Pair>, o: Oracle)
      modifies `verdicts
      ensures verdicts == Judged(old(verdicts), cands, o)
    {
      for i := 0 to |cands|
        invariant verdicts == Judged(old(verdicts), cands[..i], o)
      {
        assert cands[..i + 1][..i] == cands[..i];
        var has := Norm(cands[i]) in verdicts && !o.lookupFails(i);
        if has {
          continue;
        }
        var judged := o.judged(i);
        if judged.Some? {
          verdicts := verdicts[Norm(cands[i]) := judged.value];
        }
      }
      assert cands[..|cands|] == cands;
    }

    method ListRelatedPairs() returns (edges: seq<Pair>)
      ensures ListsRelated(edges, verdicts)
    {
      edges := [];
      var todo := verdicts.Keys;
      while todo != {}
        invariant todo <= verdicts.Keys
        invariant forall p :: p in edges <==> p in verdicts && p !in todo && verdicts[p]
        decreases todo
      {
        var p :| p in todo;
        todo := todo - {p};
        if verdicts[p] {
          edges := edges + [p];
        }
      }
    }

    method PendingKeys() returns (have: set<string>)
      ensures have == Keys(pending)
    {
      have := {};
      for i := 0 to |pending|
        invariant have == Keys(pending[..i])
      {
        assert pending[..i + 1][..i] == pending[..i];
        have := have + {ClusterKey(pending[i])};
      }
      assert pending[..|pending|] == pending;
    }

    /** The whole run; edges and clusters are what it listed and clustered on the way. */
    method Run(o: Oracle) returns (created: seq<seq<string>>, ghost edges: seq<Pair>, ghost clusters: seq<seq<string>>)
      modifies this
      ensures RunStep(old(Value()), Value(), o, edges, clusters)
      ensures pending == old(pending) + created
    {
      created, edges, clusters := [], [], [];
      if o.candidates.None? {
        return;
      }
      JudgeCandidates(o.candidates.value, o);
      if o.relatedFails {
        return;
      }
      var related := ListRelatedPairs();
      var cls := BuildClusters(related);
      edges, clusters := related, cls;
      if o.pendingFails {
        return;
      }
      var have := PendingKeys();
      created := Propose(cls, have, o);
      pending := pending + created;
    }
  }

  lemma {:induction false} HasKey(pending: seq<seq<string>>, i: nat)
    requires i < |pending|
    ensures ClusterKey(pending[i]) in Keys(pending)
  {
    if i < |pending| - 1 { HasKey(pending[..|pending| - 1], i); }
  }

  /** The last loop of a run: the clusters for which a proposal is made. */
  method Propose(clusters: seq<seq<string>>, have: set<string>, o: Oracle) returns (created: seq<seq<string>>)
    ensures created == Created(clusters, have, o)
  {
    created := [];
    for i := 0 to |clusters|
      invariant created == Created(clusters[..i], have, o)
    {
      assert clusters[..i + 1][..i] == clusters[..i];
      if ClusterKey(clusters[i]) in have {
        continue;
      }
      if o.synthFails(i) {
        continue;
      }
      created := created + [clusters[i]];
    }
    assert clusters[..|clusters|] == clusters;
  }

  // ----- what gets proposed -----

  /** c is a cluster whose synthesis goes through. */
  ghost predicate Makes(clusters: seq<seq<string>>, o: Oracle, c: seq<string>) {
    exists i: nat :: i < |clusters| && clusters[i] == c && !o.synthFails(i)
  }

  lemma {:induction false} MakesNext(clusters: seq<seq<string>>, o: Oracle, c: seq<string>, n: nat)
    requires |clusters| == n + 1
    ensures Makes(clusters, o, c) <==> Makes(clusters[..n], o, c) || (clusters[n] == c && !o.synthFails(n))
  {
    var front := clusters[..n];
    if Makes(clusters, o, c) {
      var i: nat :| i < |clusters| && clusters[i] == c && !o.synthFails(i);
      if i < n { assert front[i] == c; }
    }
    if Makes(front, o, c) {
      var i: nat :| i < |front| && front[i] == c && !o.synthFails(i);
      assert clusters[i] == c;
    }
  }

  lemma {:induction false} CreatedIff(clusters: seq<seq<string>>, have: set<string>, o: Oracle, c: seq<string>)
    ensures c in Created(clusters, have, o) <==> ClusterKey(c) !in have && Makes(clusters, o, c)
  {
    if clusters != [] {
      var n := |clusters| - 1;
      CreatedIff(clusters[..n], have, o, c);
      MakesNext(clusters, o, c, n);
    }
  }

  /** A run proposes exactly the connected components of two or more related skills whose key
      is not pending yet and whose synthesis succeeds, each with sorted members. */
  lemma {:induction false} ProposedIff(s: Store, t: Store, o: Oracle, edges: seq<Pair>, clusters: seq<seq<string>>, c: seq<string>)
    requires RunStep(s, t, o, edges, clusters) && Proposes(o)
    ensures c in t.pending <==> c in s.pending || (Makes(clusters, o, c) && ClusterKey(c) !in Keys(s.pending))
  {
    CreatedIff(clusters, Keys(s.pending), o, c);
  }

  // ----- no two pending proposals with the same sources -----

  ghost predicate Inv(pending: seq<seq<string>>) {
    && (forall i :: 0 <= i < |pending| ==> Distinct(pending[i]))
    && forall i, j :: 0 <= i < j < |pending| ==> !SameSet(pending[i], pending[j])
  }

  lemma {:induction false} ClusterIsDistinct(edges: seq<Pair>, c: seq<string>)
    requires IsCluster(edges, c)
    ensures Distinct(c) && c != []
  {
    forall i, j | 0 <= i < j < |c| ensures c[i] != c[j] {
      LessAsymmetric(c[i], c[j]);
    }
  }

  /** Different clusters have different members: this is where disjointness is needed. */
  lemma {:induction false} ClustersDiffer(edges: seq<Pair>, clusters: seq<seq<string>>, i: nat, j: nat)
    requires IsClustering(edges, clusters) && i < j < |clusters|
    ensures !SameSet(clusters[i], clusters[j])
  {
    assert clusters[i] in clusters && IsCluster(edges, clusters[i]);
    var x := clusters[i][0];
    assert x in clusters[i];
    if x in clusters[j] { ClustersDisjoint(edges, clusters, i, j, x); }
  }

  lemma {:induction false} NewKeyNewSet(pending: seq<seq<string>>, c: seq<string>, i: nat)
    requires i < |pending| && Distinct(pending[i]) && Distinct(c) && ClusterKey(c) !in Keys(pending)
    ensures !SameSet(pending[i], c)
  {
    HasKey(pending, i);
    if SameSet(pending[i], c) { SameSetSameKey(pending[i], c); }
  }

  /** Everything proposed so far differs from the cluster considered next. */
  lemma {:induction false} NextDiffers(pending: seq<seq<string>>, before: seq<seq<string>>, edges: seq<Pair>,
                                       all: seq<seq<string>>, n: nat)
    requires Inv(pending + before) && IsClustering(edges, all) && n < |all|
    requires ClusterKey(all[n]) !in Keys(pending) && forall c :: c in before ==> c in all[..n]
    ensures Inv(pending + before + [all[n]])
  {
    var c, both := all[n], pending + before;
    assert c in all;
    ClusterIsDistinct(edges, c);
    forall i | 0 <= i < |both| ensures !SameSet(both[i], c) {
      assert Distinct(both[i]);
      if i < |pending| {
        assert both[i] == pending[i];
        NewKeyNewSet(pending, c, i);
      } else {
        assert both[i] in before;
        var k :| 0 <= k < n && all[..n][k] == both[i];
        ClustersDiffer(edges, all, k, n);
      }
    }
    OneMore(both, c);
  }

  lemma {:induction false} CreatedFrom(clusters: seq<seq<string>>, have: set<string>, o: Oracle)
    ensures forall c :: c in Created(clusters, have, o) ==> c in clusters
  {
    if clusters != [] {
      var front := clusters[..|clusters| - 1];
      CreatedFrom(front, have, o);
      assert clusters == front + [clusters[|clusters| - 1]];
    }
  }

  lemma {:induction false} CreatedKeepsInv(pending: seq<seq<string>>, edges: seq<Pair>, all: seq<seq<string>>,
                                           n: nat, o: Oracle)
    requires Inv(pending) && IsClustering(edges, all) && n <= |all|
    ensures Inv(pending + Created(all[..n], Keys(pending), o))
  {
    if n > 0 {
      var before := Created(all[..n - 1], Keys(pending), o);
      CreatedKeepsInv(pending, edges, all, n - 1, o);
      CreatedFrom(all[..n - 1], Keys(pending), o);
      assert all[..n][..n - 1] == all[..n - 1];
      if ClusterKey(all[n - 1]) !in Keys(pending) {
        NextDiffers(pending, before, edges, all, n - 1);
        assert pending + before + [all[n - 1]] == pending + (before + [all[n - 1]]);
      }
    } else {
      assert pending + [] == pending;
    }
  }

  lemma {:induction false} OneMore(pending: seq<seq<string>>, c: seq<string>)
    requires Inv(pending) && Distinct(c) && forall i :: 0 <= i < |pending| ==> !SameSet(pending[i], c)
    ensures Inv(pending + [c])
  {}

  lemma {:induction false} RunKeepsInv(s: Store, t: Store, o: Oracle, edges: seq<Pair>, clusters: seq<seq<string>>)
    requires Inv(s.pending) && RunStep(s, t, o, edges, clusters)
    ensures Inv(t.pending)
  {
    if Proposes(o) {
      CreatedKeepsInv(s.pending, edges, clusters, |clusters|, o);
      assert clusters[..|clusters|] == clusters;
    }
  }

  /** Between runs the user decides proposals, which takes them off the pending list. */
  datatype Event =
    | Run(o: Oracle, edges: seq<Pair>, clusters: seq<seq<string>>)
    | Decide(position: nat)

  ghost predicate Step(s: Store, t: Store, e: Event) {
    match e
    case Run(o, edges, clusters) => RunStep(s, t, o, edges, clusters)
    case Decide(k) => k < |s.pending| && t == s.(pending := s.pending[..k] + s.pending[k + 1..])
  }

  ghost predicate Trace(states: seq<Store>, events: seq<Event>) {
    |states| == |events| + 1 && forall k :: 0 <= k < |events| ==> Step(states[k], states[k + 1], events[k])
  }

  lemma {:induction false} DecideKeepsInv(pending: seq<seq<string>>, k: nat)
    requires Inv(pending) && k < |pending|
    ensures Inv(pending[..k] + pending[k + 1..])
  {
    var rest := pending[..k] + pending[k + 1..];
    forall i, j | 0 <= i < j < |rest| ensures !SameSet(rest[i], rest[j]) {
      var i', j' := if i < k then i else i + 1, if j < k then j else j + 1;
      assert rest[i] == pending[i'] && rest[j] == pending[j'];
    }
  }

  /** Over any sequence of runs and decisions, whatever is judged and whatever fails: no two
      pending proposals ever have the same source set. */
  lemma {:induction false} NoDuplicateProposals(states: seq<Store>, events: seq<Event>, n: nat)
    requires Trace(states, events) && Inv(states[0].pending) && n < |states|
    ensures Inv(states[n].pending)
  {
    if n > 0 {
      NoDuplicateProposals(states, events, n - 1);
      var s, t, e := states[n - 1], states[n], events[n - 1];
      assert Step(states[n - 1], states[n - 1 + 1], events[n - 1]);
      match e {
        case Run(o, edges, clusters) => RunKeepsInv(s, t, o, edges, clusters);
        case Decide(k) => DecideKeepsInv(s.pending, k);
      }
    }
  }

  // ----- a second run -----

  lemma {:induction false} NothingCreated(clusters: seq<seq<string>>, have: set<string>, o: Oracle)
    requires forall i :: 0 <= i < |clusters| ==> ClusterKey(clusters[i]) in have
    ensures Created(clusters, have, o) == []
  {
    if clusters != [] { NothingCreated(clusters[..|clusters| - 1], have, o); }
  }

  lemma {:induction false} KeysGrow(pending: seq<seq<string>>, more: seq<seq<string>>, k: string)
    requires k in Keys(pending)
    ensures k in Keys(pending + more)
  {
    var all := pending + more;
    if more == [] {
      assert all == pending;
    } else {
      KeysGrow(pending, more[..|more| - 1], k);
      assert all[..|all| - 1] == pending + more[..|more| - 1];
    }
  }

  lemma {:induction false} NewKey(pending: seq<seq<string>>, more: seq<seq<string>>, c: seq<string>)
    requires c in more
    ensures ClusterKey(c) in Keys(pending + more)
  {
    var i :| 0 <= i < |more| && more[i] == c;
    var all, j := pending + more, |pending| + i;
    assert all[j] == c;
    HasKey(all, j);
  }

  /** Every cluster is pending after a run in which no synthesis fails. */
  lemma {:induction false} AllKeysPending(s: Store, t: Store, o: Oracle, edges: seq<Pair>, clusters: seq<seq<string>>, i: nat)
    requires RunStep(s, t, o, edges, clusters) && Proposes(o) && i < |clusters| && !o.synthFails(i)
    ensures ClusterKey(clusters[i]) in Keys(t.pending)
  {
    var c, created := clusters[i], Created(clusters, Keys(s.pending), o);
    CreatedIff(clusters, Keys(s.pending), o, c);
    assert Makes(clusters, o, c);
    if c in created { NewKey(s.pending, created, c); } else { KeysGrow(s.pending, created, ClusterKey(c)); }
  }

  /** After a run in which no synthesis fails, a run over the same related pairs creates
      nothing, in whatever order the store lists the pairs. */
  lemma {:induction false} SecondRunCreatesNothing(s: Store, t: Store, o: Oracle, edges: seq<Pair>, clusters: seq<seq<string>>,
                                u: Store, o': Oracle, edges': seq<Pair>, clusters': seq<seq<string>>)
    requires RunStep(s, t, o, edges, clusters) && Proposes(o) && forall i: nat :: !o.synthFails(i)
    requires RunStep(t, u, o', edges', clusters')
    requires forall p :: (p in u.verdicts && u.verdicts[p]) <==> (p in t.verdicts && t.verdicts[p])
    ensures u.pending == t.pending
  {
    if Proposes(o') {
      forall x, y ensures Adjacent(edges, x, y) <==> Adjacent(edges', x, y) {
        assert Pair(x, y) in edges <==> Pair(x, y) in edges';
        assert Pair(y, x) in edges <==> Pair(y, x) in edges';
      }
      ClusteringUnique(edges, edges', clusters, clusters');
      forall i | 0 <= i < |clusters'| ensures ClusterKey(clusters'[i]) in Keys(t.pending) {
        AllKeysPending(s, t, o, edges, clusters, i);
      }
      NothingCreated(clusters', Keys(t.pending), o');
    }
  }

  /** Verdicts stick: unless looking one up fails, a judged pair is never judged again. */
  lemma {:induction false} VerdictsStick(v: map<Pair, bool>, cands: seq<Pair>, o: Oracle, p: Pair)
    requires p in v && forall i: nat :: !o.lookupFails(i)
    ensures p in Judged(v, cands, o) && Judged(v, cands, o)[p] == v[p]
  {
    if cands != [] { VerdictsStick(v, cands[..|cands| - 1], o, p); }
  }

  /** Candidate n is this pair and gets judged. */
  ghost predicate JudgesAt(cands: seq<Pair>, o: Oracle, p: Pair, n: nat) {
    n < |cands| && Norm(cands[n]) == p && o.judged(n).Some?
  }

  ghost predicate JudgedBefore(cands: seq<Pair>, o: Oracle, p: Pair, n: nat) {
    exists m: nat :: m < n && JudgesAt(cands, o, p, m)
  }

  /** Candidate n is judged and its verdict recorded: the pair had none yet, or it could not
      be looked up. */
  ghost predicate RecordsAt(v: map<Pair, bool>, cands: seq<Pair>, o: Oracle, p: Pair, n: nat) {
    JudgesAt(cands, o, p, n) && (o.lookupFails(n) || (p !in v && !JudgedBefore(cands, o, p, n)))
  }

  lemma {:induction false} JudgedHas(v: map<Pair, bool>, cands: seq<Pair>, o: Oracle, p: Pair, n: nat)
    requires n <= |cands|
    ensures p in Judged(v, cands[..n], o) <==> p in v || JudgedBefore(cands, o, p, n)
  {
    if n > 0 {
      JudgedHas(v, cands, o, p, n - 1);
      assert cands[..n][..n - 1] == cands[..n - 1];
      BeforeNext(cands, o, p, n - 1);
    }
  }

  lemma {:induction false} BeforeNext(cands: seq<Pair>, o: Oracle, p: Pair, n: nat)
    ensures JudgedBefore(cands, o, p, n + 1) <==> JudgedBefore(cands, o, p, n) || JudgesAt(cands, o, p, n)
  {}

  /** None of the candidates from k up to n records a verdict for the pair. */
  ghost predicate NoneRecords(v: map<Pair, bool>, cands: seq<Pair>, o: Oracle, p: Pair, k: nat, n: nat) {
    forall m: nat :: k <= m < n ==> !RecordsAt(v, cands, o, p, m)
  }

  lemma {:induction false} JudgeStep(v: map<Pair, bool>, cands: seq<Pair>, o: Oracle, p: Pair, n: nat)
    requires n < |cands|
    ensures var before, after := Judged(v, cands[..n], o), Judged(v, cands[..n + 1], o);
            && (RecordsAt(v, cands, o, p, n) ==> p in after && after[p] == o.judged(n).value)
            && (!RecordsAt(v, cands, o, p, n) ==> (p in after <==> p in before) && (p in before ==> after[p] == before[p]))
  {
    JudgedHas(v, cands, o, p, n);
    assert cands[..n + 1][..n] == cands[..n];
  }

  /** The verdict of a pair after the first n candidates: that of the last one whose judgement
      is recorded. */
  lemma {:induction false} JudgedAsRecorded(v: map<Pair, bool>, cands: seq<Pair>, o: Oracle, p: Pair, n: nat, k: nat)
    requires k < n <= |cands| && RecordsAt(v, cands, o, p, k) && NoneRecords(v, cands, o, p, k + 1, n)
    ensures p in Judged(v, cands[..n], o) && Judged(v, cands[..n], o)[p] == o.judged(k).value
  {
    JudgeStep(v, cands, o, p, n - 1);
    if k < n - 1 { JudgedAsRecorded(v, cands, o, p, n - 1, k); }
  }

  /** Without one the verdict it had, if any. */
  lemma {:induction false} JudgedAsBefore(v: map<Pair, bool>, cands: seq<Pair>, o: Oracle, p: Pair, n: nat)
    requires n <= |cands| && NoneRecords(v, cands, o, p, 0, n)
    ensures p in Judged(v, cands[..n], o) <==> p in v
    ensures p in v ==> p in Judged(v, cands[..n], o) && Judged(v, cands[..n], o)[p] == v[p]
  {
    if n > 0 {
      JudgeStep(v, cands, o, p, n - 1);
      JudgedAsBefore(v, cands, o, p, n - 1);
    }
  }

  /** The keys are those of the pending proposals. */
  lemma {:induction false} KeysIff(pending: seq<seq<string>>, k: string)
    ensures k in Keys(pending) <==> exists i :: 0 <= i < |pending| && ClusterKey(pending[i]) == k
  {
    if pending != [] {
      var n := |pending| - 1;
      KeysIff(pending[..n], k);
      if i :| 0 <= i < n && ClusterKey(pending[..n][i]) == k { assert ClusterKey(pending[i]) == k; }
      if i :| 0 <= i < |pending| && ClusterKey(pending[i]) == k {
        assert i < n ==> ClusterKey(pending[..n][i]) == k;
      }
    }
  }

  /** Proposals are made in the order of the clusters. */
  lemma {:induction false} CreatedInOrder(clusters: seq<seq<string>>, have: set<string>, o: Oracle)
    ensures InOrder(Created(clusters, have, o), clusters)
  {
    if clusters == [] {
      InOrderSelf<seq<string>>([]);
    } else {
      var front, c := clusters[..|clusters| - 1], clusters[|clusters| - 1];
      CreatedInOrder(front, have, o);
      InOrderAppend(Created(front, have, o), front, [c]);
      assert front + [] == front && front + [c] == clusters && front + [c] + [] == clusters;
      InOrderInsert(Created(front, have, o), front, [c], []);
    }
  }
}
