/** Skill clustering: an in-place union-find with path halving, and the canonical
    list of connected components that BuildClusters reads off it. */
module SkillClusters {
  import opened Sorting

  datatype Pair = Pair(a: string, b: string)

  // ----- what a cluster is, without union-find -----

  ghost predicate Adjacent(edges: seq<Pair>, x: string, y: string) {
    Pair(x, y) in edges || Pair(y, x) in edges
  }

  ghost predicate IsPath(edges: seq<Pair>, p: seq<string>) {
    p != [] && forall i :: 0 <= i < |p| - 1 ==> Adjacent(edges, p[i], p[i + 1])
  }

  ghost predicate IsPathFromTo(edges: seq<Pair>, p: seq<string>, x: string, y: string) {
    IsPath(edges, p) && p[0] == x && p[|p| - 1] == y
  }

  ghost predicate Connected(edges: seq<Pair>, x: string, y: string) {
    exists p :: IsPathFromTo(edges, p, x, y)
  }

  function Identity(s: string): string { s }

  function First(c: seq<string>): string { if c == [] then "" else c[0] }

  /** c is one whole connected component, with at least two members, in order. */
  ghost predicate IsCluster(edges: seq<Pair>, c: seq<string>) {
    && |c| >= 2
    && StrictlySorted(Identity, c)
    && forall x, y :: x in c ==> (y in c <==> Connected(edges, x, y))
  }

  /** The canonical clustering: exactly the components with two or more members,
      ordered by their first members. */
  ghost predicate IsClustering(edges: seq<Pair>, out: seq<seq<string>>) {
    && (forall c :: c in out ==> IsCluster(edges, c))
    && StrictlySorted(First, out)
    && (forall x, y :: x != y && Connected(edges, x, y) ==> exists c :: c in out && x in c)
  }

  lemma {:induction false} ConnectedReflexive(edges: seq<Pair>, x: string)
    ensures Connected(edges, x, x)
  {
    assert IsPathFromTo(edges, [x], x, x);
  }

  lemma {:induction false} ConnectedEdge(edges: seq<Pair>, x: string, y: string)
    requires Adjacent(edges, x, y)
    ensures Connected(edges, x, y)
  {
    assert IsPathFromTo(edges, [x, y], x, y);
  }

  lemma {:induction false} ConnectedSymmetric(edges: seq<Pair>, x: string, y: string)
    requires Connected(edges, x, y)
    ensures Connected(edges, y, x)
  {
    var p :| IsPathFromTo(edges, p, x, y);
    var q := seq(|p|, i requires 0 <= i < |p| => p[|p| - 1 - i]);
    forall i | 0 <= i < |q| - 1 ensures Adjacent(edges, q[i], q[i + 1]) {
      assert Adjacent(edges, p[|p| - 2 - i], p[|p| - 2 - i + 1]);
    }
    assert IsPathFromTo(edges, q, y, x);
  }

  lemma {:induction false} ConnectedTransitive(edges: seq<Pair>, x: string, y: string, z: string)
    requires Connected(edges, x, y) && Connected(edges, y, z)
    ensures Connected(edges, x, z)
  {
    var p :| IsPathFromTo(edges, p, x, y);
    var q :| IsPathFromTo(edges, q, y, z);
    assert IsPathFromTo(edges, p + q[1..], x, z);
  }

  /** Only which skills are related matters: not the order, direction or repetition of the edges. */
  lemma {:induction false} ConnectedByAdjacency(e: seq<Pair>, f: seq<Pair>, x: string, y: string)
    requires forall u, v :: Adjacent(e, u, v) ==> Adjacent(f, u, v)
    requires Connected(e, x, y)
    ensures Connected(f, x, y)
  {
    var p :| IsPathFromTo(e, p, x, y);
    assert IsPathFromTo(f, p, x, y);
  }

  /** A labelling that agrees along every edge agrees along every path. */
  lemma {:induction false} TagAlongPath(edges: seq<Pair>, tag: map<string, string>, p: seq<string>)
    requires IsPath(edges, p) && |p| > 1
    requires forall e :: e in edges ==> e.a in tag && e.b in tag && tag[e.a] == tag[e.b]
    ensures p[0] in tag && p[|p| - 1] in tag && tag[p[0]] == tag[p[|p| - 1]]
  {
    assert Adjacent(edges, p[0], p[0 + 1]);
    if |p| > 2 {
      assert IsPath(edges, p[1..]);
      TagAlongPath(edges, tag, p[1..]);
    }
  }

  // ----- the canonical clustering is unique -----

  lemma {:induction false} ClusterCarriesOver(e: seq<Pair>, f: seq<Pair>, c: seq<string>, out: seq<seq<string>>)
    requires forall x, y :: Connected(e, x, y) <==> Connected(f, x, y)
    requires IsCluster(e, c) && IsClustering(f, out)
    ensures c in out
  {
    LessTotal(c[0], c[1]);
    assert Less(Identity(c[0]), Identity(c[1]));
    if c[0] == c[1] { LessAsymmetric(c[0], c[1]); }
    assert c[0] in c && c[1] in c;
    assert Connected(e, c[0], c[1]);
    var d :| d in out && c[0] in d;
    assert IsCluster(f, d);
    StrictlySortedUnique(Identity, c, d);
  }

  /** Two clusterings of graphs with the same connectivity are the same list: the
      result depends neither on edge order or direction nor on map iteration order. */
  lemma {:induction false} ClusteringUnique(e: seq<Pair>, f: seq<Pair>, o: seq<seq<string>>, p: seq<seq<string>>)
    requires forall x, y :: Adjacent(e, x, y) <==> Adjacent(f, x, y)
    requires IsClustering(e, o) && IsClustering(f, p)
    ensures o == p
  {
    forall x, y ensures Connected(e, x, y) <==> Connected(f, x, y) {
      if Connected(e, x, y) { ConnectedByAdjacency(e, f, x, y); }
      if Connected(f, x, y) { ConnectedByAdjacency(f, e, x, y); }
    }
    forall c ensures c in o <==> c in p {
      if c in o { ClusterCarriesOver(e, f, c, p); }
      if c in p { ClusterCarriesOver(f, e, c, o); }
    }
    StrictlySortedUnique(First, o, p);
  }

  /** Two different skills share a cluster exactly when a path of related pairs joins them. */
  lemma {:induction false} ShareClusterIffConnected(edges: seq<Pair>, out: seq<seq<string>>, x: string, y: string)
    requires IsClustering(edges, out) && x != y
    ensures (exists c :: c in out && x in c && y in c) <==> Connected(edges, x, y)
  {
    if Connected(edges, x, y) {
      var c :| c in out && x in c;
      assert IsCluster(edges, c);
      assert y in c;
    }
    if c :| c in out && x in c && y in c {
      assert IsCluster(edges, c);
    }
  }

  /** No skill is in two clusters. */
  lemma {:induction false} ClustersDisjoint(edges: seq<Pair>, out: seq<seq<string>>, i: nat, j: nat, x: string)
    requires IsClustering(edges, out) && i < |out| && j < |out| && x in out[i] && x in out[j]
    ensures i == j
  {
    assert IsCluster(edges, out[i]) && IsCluster(edges, out[j]);
    StrictlySortedUnique(Identity, out[i], out[j]);
    if i < j { LessAsymmetric(First(out[i]), First(out[j])); }
    if j < i { LessAsymmetric(First(out[j]), First(out[i])); }
  }

  // ----- union-find -----

  type Names = map<string, string>

  /** One node of the forest: its parent exists, ranks above it unless it is a root,
      and has the same representative, which is a root. */
  ghost predicate NodeOk(parent: Names, root: Names, rank: map<string, nat>, height: nat, x: string) {
    && x in parent && x in root && x in rank && rank[x] <= height
    && var p, r := parent[x], root[x];
    && p in parent && p in root && p in rank && r in parent
    && (if p == x then r == x else rank[x] < rank[p])
    && root[p] == r && parent[r] == r
  }

  /** Every parent chain climbs strictly in rank, bounded by height, and ends in root[x]. */
  ghost predicate Forest(parent: Names, root: Names, rank: map<string, nat>, height: nat) {
    && root.Keys == parent.Keys
    && forall x {:trigger NodeOk(parent, root, rank, height, x)} :: x in parent ==> NodeOk(parent, root, rank, height, x)
  }

  lemma {:induction false} HalvingKeepsNode(parent: Names, root: Names, rank: map<string, nat>, height: nat, x: string, y: string)
    requires NodeOk(parent, root, rank, height, x) && NodeOk(parent, root, rank, height, y)
    requires NodeOk(parent, root, rank, height, parent[x])
    requires NodeOk(parent, root, rank, height, parent[parent[x]])
    ensures NodeOk(parent[x := parent[parent[x]]], root, rank, height, y)
  {}

  lemma {:induction false} HalvingKeepsForest(parent: Names, root: Names, rank: map<string, nat>, height: nat, x: string)
    requires Forest(parent, root, rank, height) && x in parent
    ensures NodeOk(parent, root, rank, height, x) && NodeOk(parent, root, rank, height, parent[x])
    ensures Forest(parent[x := parent[parent[x]]], root, rank, height)
  {
    assert NodeOk(parent, root, rank, height, x);
    assert NodeOk(parent, root, rank, height, parent[x]);
    var p := parent[x := parent[parent[x]]];
    assert p.Keys == parent.Keys;
    forall y | y in p ensures NodeOk(p, root, rank, height, y) {
      assert NodeOk(parent, root, rank, height, y);
      assert NodeOk(parent, root, rank, height, parent[parent[x]]);
      HalvingKeepsNode(parent, root, rank, height, x, y);
    }
  }

  function Merge(root: Names, ra: string, rb: string): (r: Names)
    ensures r.Keys == root.Keys
    ensures ra == rb ==> r == root
  {
    map x | x in root :: if root[x] == ra then rb else root[x]
  }

  lemma {:induction false} LinkingKeepsNode(parent: Names, root: Names, rank: map<string, nat>, height: nat,
                         ra: string, rb: string, m: nat, x: string)
    requires NodeOk(parent, root, rank, height, ra) && NodeOk(parent, root, rank, height, rb)
    requires root[ra] == ra != rb == root[rb] && m == rank[rb] + rank[ra] + 1
    requires NodeOk(parent, root, rank, height, x) && NodeOk(parent, root, rank, height, parent[x])
    ensures NodeOk(parent[ra := rb], Merge(root, ra, rb), rank[rb := m], height + m, x)
  {}

  lemma {:induction false} LinkingKeepsForest(parent: Names, root: Names, rank: map<string, nat>, height: nat, ra: string,
                                              rb: string)
    requires Forest(parent, root, rank, height)
    requires ra in parent && rb in parent && root[ra] == ra != rb == root[rb]
    ensures NodeOk(parent, root, rank, height, ra) && NodeOk(parent, root, rank, height, rb)
    ensures var m := rank[rb] + rank[ra] + 1;
            Forest(parent[ra := rb], Merge(root, ra, rb), rank[rb := m], height + m)
  {
    assert NodeOk(parent, root, rank, height, ra) && NodeOk(parent, root, rank, height, rb);
    var m := rank[rb] + rank[ra] + 1;
    var parent', root', rank' := parent[ra := rb], Merge(root, ra, rb), rank[rb := m];
    assert parent'.Keys == parent.Keys;
    var h := height + m;
    forall x {:trigger NodeOk(parent', root', rank', h, x)} | x in parent' ensures NodeOk(parent', root', rank', h, x) {
      assert NodeOk(parent, root, rank, height, x);
      assert NodeOk(parent, root, rank, height, parent[x]);
      LinkingKeepsNode(parent, root, rank, height, ra, rb, m, x);
    }
    NodesMakeForest(parent', root', rank', h);
  }

  lemma {:induction false} NodesMakeForest(parent: Names, root: Names, rank: map<string, nat>, height: nat)
    requires root.Keys == parent.Keys
    requires forall x {:trigger NodeOk(parent, root, rank, height, x)} :: x in parent ==> NodeOk(parent, root, rank, height, x)
    ensures Forest(parent, root, rank, height)
  {}

  /** find registers a name it has not seen as its own representative. */
  function Add(root: Names, x: string): (r: Names)
    ensures x in r
  {
    if x in root then root else root[x := x]
  }

  /** The classes after union(a, b): those of a and b become one. */
  function Unite(root: Names, a: string, b: string): Names {
    var before := Add(Add(root, a), b);
    Merge(before, before[a], before[b])
  }

  lemma {:induction false} AddingKeepsForest(parent: Names, root: Names, rank: map<string, nat>, height: nat, x: string)
    requires Forest(parent, root, rank, height) && x !in parent
    ensures Forest(parent[x := x], root[x := x], rank[x := 0], height)
  {
    var parent', root', rank' := parent[x := x], root[x := x], rank[x := 0];
    forall y | y in parent' ensures NodeOk(parent', root', rank', height, y) {
      assert y in parent ==> NodeOk(parent, root, rank, height, y);
    }
  }

  class UnionFind {
    var parent: Names
    var nodes: set<string>
    /** The representative each node's parent chain ends in. */
    ghost var root: Names
    ghost var rank: map<string, nat>
    ghost var height: nat

    ghost predicate Valid()
      reads this
    {
      nodes == parent.Keys && Forest(parent, root, rank, height)
    }

    constructor ()
      ensures Valid() && nodes == {} && root == map[]
    {
      parent, nodes := map[], {};
      root, rank, height := map[], map[], 0;
    }

    /** The representative of x; the halved parent pointers leave every representative as it was. */
    method Find(x: string) returns (r: string)
      requires Valid()
      modifies this
      ensures Valid()
      ensures nodes == old(nodes) + {x}
      ensures root == Add(old(root), x)
      ensures x in root && r == root[x] && r in root && root[r] == r
    {
      if x !in nodes {
        AddingKeepsForest(parent, root, rank, height, x);
        nodes := nodes + {x};
        parent := parent[x := x];
        root, rank := root[x := x], rank[x := 0];
      }
      r := x;
      assert NodeOk(parent, root, rank, height, r);
      while parent[r] != r
        invariant Valid() && NodeOk(parent, root, rank, height, r) && x in root && root[r] == root[x]
        invariant nodes == old(nodes) + {x}
        invariant root == Add(old(root), x)
        decreases height - rank[r]
      {
        HalvingKeepsForest(parent, root, rank, height, r);
        assert NodeOk(parent, root, rank, height, parent[parent[r]]);
        parent := parent[r := parent[parent[r]]];
        r := parent[r];
        assert NodeOk(parent, root, rank, height, r);
      }
    }

    /** Hangs the root ra under the root rb. */
    method Link(ra: string, rb: string)
      requires Valid()
      requires ra in parent && rb in parent && ra in root && rb in root && root[ra] == ra != rb == root[rb]
      modifies this
      ensures Valid()
      ensures nodes == old(nodes)
      ensures root == Merge(old(root), ra, rb)
    {
      LinkingKeepsForest(parent, root, rank, height, ra, rb);
      ghost var m := rank[rb] + rank[ra] + 1;
      parent := parent[ra := rb];
      root, rank, height := Merge(root, ra, rb), rank[rb := m], height + m;
    }

    /** Merges the class of a into the class of b, and no other. */
    method Union(a: string, b: string)
      requires Valid()
      modifies this
      ensures Valid()
      ensures nodes == old(nodes) + {a, b}
      ensures root == Unite(old(root), a, b)
    {
      var ra := Find(a);
      var rb := Find(b);
      if ra != rb {
        Link(ra, rb);
      }
    }
  }

  // ----- the partition is connectivity -----

  /** root joins the two ends of every edge, and nothing that no path joins. */
  ghost predicate Classes(edges: seq<Pair>, root: Names) {
    && (forall e :: e in edges ==> e.a in root && e.b in root && root[e.a] == root[e.b])
    && (forall x :: x in root ==> Connected(edges, x, root[x]))
  }

  lemma {:induction false} UniteKeepsEdges(edges: seq<Pair>, root: Names, e: Pair)
    requires Classes(edges, root)
    ensures var r := Unite(root, e.a, e.b);
            forall d :: d in edges + [e] ==> d.a in r && d.b in r && r[d.a] == r[d.b]
  {}

  lemma {:induction false} UniteKeepsClasses(edges: seq<Pair>, root: Names, e: Pair)
    requires Classes(edges, root)
    ensures Classes(edges + [e], Unite(root, e.a, e.b))
  {
    UniteKeepsEdges(edges, root, e);
    var more := edges + [e];
    var before := Add(Add(root, e.a), e.b);
    forall x | x in before ensures Connected(more, x, before[x]) {
      ConnectedReflexive(more, x);
      if x in root { ConnectedByAdjacency(edges, more, x, root[x]); }
    }
    assert Adjacent(more, e.a, e.b);
    ConnectedEdge(more, e.a, e.b);
    ConnectedSymmetric(more, e.a, before[e.a]);
    ConnectedTransitive(more, before[e.a], e.a, e.b);
    ConnectedTransitive(more, before[e.a], e.b, before[e.b]);
    var r := Unite(root, e.a, e.b);
    forall x | x in r ensures Connected(more, x, r[x]) {
      if before[x] == before[e.a] { ConnectedTransitive(more, x, before[e.a], before[e.b]); }
    }
  }

  lemma {:induction false} ClassesAreComponents(edges: seq<Pair>, root: Names, x: string, y: string)
    requires Classes(edges, root) && x != y
    ensures Connected(edges, x, y) <==> x in root && y in root && root[x] == root[y]
  {
    if Connected(edges, x, y) {
      var p :| IsPathFromTo(edges, p, x, y);
      TagAlongPath(edges, root, p);
    } else if x in root && y in root && root[x] == root[y] {
      ConnectedSymmetric(edges, y, root[y]);
      ConnectedTransitive(edges, x, root[x], y);
    }
  }

  /** groups[r] lists, once each, the nodes of done whose representative is r. */
  ghost predicate Grouped(root: Names, done: set<string>, groups: map<string, seq<string>>) {
    && (forall x :: x in done ==> x in root && root[x] in groups)
    && (forall r :: r in groups ==> Distinct(groups[r]))
    && (forall r, x :: r in groups ==> (x in groups[r] <==> x in done && root[x] == r))
  }

  lemma {:induction false} AddToGroup(root: Names, done: set<string>, groups: map<string, seq<string>>, x: string)
    requires Grouped(root, done, groups) && x in root && x !in done
    ensures var r := root[x];
            Grouped(root, done + {x}, groups[r := (if r in groups then groups[r] else []) + [x]])
  {
    var r := root[x];
    var g := if r in groups then groups[r] else [];
    assert forall i :: 0 <= i < |g| ==> g[i] in g;
  }

  /** A whole class of at least two nodes, sorted, is a cluster. */
  lemma {:induction false} SortedGroupIsCluster(edges: seq<Pair>, root: Names, groups: map<string, seq<string>>, r: string)
    requires Classes(edges, root) && Grouped(root, root.Keys, groups)
    requires r in groups && |groups[r]| >= 2
    ensures IsCluster(edges, SortBy(Identity, groups[r]))
  {
    var g := groups[r];
    var c := SortBy(Identity, g);
    SortKeepsElements(Identity, g);
    SortedDistinct(Identity, c);
    forall x, y | x in c ensures y in c <==> Connected(edges, x, y) {
      if x == y { ConnectedReflexive(edges, x); } else { ClassesAreComponents(edges, root, x, y); }
    }
  }

  /** out holds one sorted cluster for every class of two or more whose representative is in done. */
  ghost predicate Listed(edges: seq<Pair>, root: Names, groups: map<string, seq<string>>,
                         done: set<string>, out: seq<seq<string>>) {
    && (forall c :: c in out ==> IsCluster(edges, c) && c[0] in root && root[c[0]] in done)
    && (forall r :: r in done ==> r in groups && (|groups[r]| < 2 || SortBy(Identity, groups[r]) in out))
    && (forall i, j :: 0 <= i < j < |out| ==> First(out[i]) != First(out[j]))
  }

  lemma {:induction false} InSomeCluster(edges: seq<Pair>, root: Names, groups: map<string, seq<string>>,
                                         out: seq<seq<string>>, x: string, y: string)
    requires Classes(edges, root) && Grouped(root, root.Keys, groups)
    requires Listed(edges, root, groups, groups.Keys, out) && x != y && Connected(edges, x, y)
    ensures exists c :: c in out && x in c
  {
    ClassesAreComponents(edges, root, x, y);
    var r := root[x];
    assert x in groups[r] && y in groups[r];
    TwoMembers(groups[r], x, y);
    SortKeepsElements(Identity, groups[r]);
    assert SortBy(Identity, groups[r]) in out;
  }

  lemma {:induction false} TwoMembers(g: seq<string>, x: string, y: string)
    requires x in g && y in g && x != y
    ensures |g| >= 2
  {}

  /** The same list in the order of first members is the clustering. */
  lemma {:induction false} SortedListIsClustering(edges: seq<Pair>, root: Names, groups: map<string, seq<string>>,
                                                  out: seq<seq<string>>)
    requires Classes(edges, root) && Grouped(root, root.Keys, groups)
    requires Listed(edges, root, groups, groups.Keys, out)
    ensures IsClustering(edges, SortBy(First, out))
  {
    var o := SortBy(First, out);
    SortKeepsElements(First, out);
    SortBySorts(First, out);
    forall i, j | 0 <= i < j < |o| ensures First(o[i]) != First(o[j]) {
      SortedListKeepsFirsts(out, o, i, j);
    }
    SortedDistinct(First, o);
    forall x, y | x != y && Connected(edges, x, y) ensures exists c :: c in o && x in c {
      InSomeCluster(edges, root, groups, out, x, y);
    }
  }

  lemma {:induction false} SortedListKeepsFirsts(out: seq<seq<string>>, o: seq<seq<string>>, i: nat, j: nat)
    requires multiset(o) == multiset(out) && i < j < |o|
    requires forall i, j :: 0 <= i < j < |out| ==> First(out[i]) != First(out[j])
    ensures First(o[i]) != First(o[j])
  {
    var m := multiset(o);
    assert o == o[..j] + o[j..];
    assert o[..j][i] in multiset(o[..j]) && o[j..][0] in multiset(o[j..]);
    if o[i] == o[j] {
      assert m[o[i]] >= 2;
      OneOccurrence(out, o[i]);
    } else {
      assert o[i] in multiset(out) && o[j] in multiset(out);
      var a :| 0 <= a < |out| && out[a] == o[i];
      var b :| 0 <= b < |out| && out[b] == o[j];
      assert First(out[a]) != First(out[b]);
    }
  }

  lemma {:induction false} OneEdgeMore(edges: seq<Pair>, i: nat)
    requires i < |edges|
    ensures edges[..i + 1] == edges[..i] + [edges[i]]
  {}

  /** The connected components of the related pairs with two or more members. */
  method BuildClusters(edges: seq<Pair>) returns (clusters: seq<seq<string>>)
    ensures IsClustering(edges, clusters)
  {
    var uf := new UnionFind();
    for i := 0 to |edges|
      invariant uf.Valid() && fresh(uf)
      invariant Classes(edges[..i], uf.root)
    {
      UniteKeepsClasses(edges[..i], uf.root, edges[i]);
      OneEdgeMore(edges, i);
      uf.Union(edges[i].a, edges[i].b);
    }
    assert edges[..|edges|] == edges;

    var groups: map<string, seq<string>> := map[];
    ghost var root := uf.root;
    var todo := uf.nodes;
    while todo != {}
      invariant uf.Valid() && fresh(uf) && uf.root == root
      invariant todo <= uf.nodes && Grouped(root, uf.nodes - todo, groups)
      decreases todo
    {
      var node :| node in todo;
      var r := uf.Find(node);
      AddToGroup(root, root.Keys - todo, groups, node);
      groups := groups[r := (if r in groups then groups[r] else []) + [node]];
      assert root.Keys - (todo - {node}) == root.Keys - todo + {node};
      todo := todo - {node};
    }
    assert root.Keys - {} == root.Keys;
    clusters := ListClusters(groups, edges, root);
  }

  /** The last two loops: sorted groups of two or more, sorted by their first members. */
  method ListClusters(groups: map<string, seq<string>>, ghost edges: seq<Pair>, ghost root: Names)
    returns (clusters: seq<seq<string>>)
    requires Classes(edges, root) && Grouped(root, root.Keys, groups)
    ensures IsClustering(edges, clusters)
  {
    var out: seq<seq<string>> := [];
    var keys := groups.Keys;
    ghost var done: set<string> := {};
    while keys != {}
      invariant keys + done == groups.Keys && keys !! done
      invariant Listed(edges, root, groups, done, out)
      decreases keys
    {
      var r :| r in keys;
      keys := keys - {r};
      if |groups[r]| >= 2 {
        ListOneMore(edges, root, groups, done, out, r);
        out := out + [SortBy(Identity, groups[r])];
      }
      done := done + {r};
    }
    clusters := SortBy(First, out);
    SortedListIsClustering(edges, root, groups, out);
  }

  lemma {:induction false} ListOneMore(edges: seq<Pair>, root: Names, groups: map<string, seq<string>>,
                    done: set<string>, out: seq<seq<string>>, r: string)
    requires Classes(edges, root) && Grouped(root, root.Keys, groups)
    requires Listed(edges, root, groups, done, out) && r in groups && r !in done && |groups[r]| >= 2
    ensures Listed(edges, root, groups, done + {r}, out + [SortBy(Identity, groups[r])])
  {
    var c := SortBy(Identity, groups[r]);
    var longer := out + [c];
    SortedGroupIsCluster(edges, root, groups, r);
    FirstOfSortedGroup(groups[r]);
    assert root[c[0]] == r;
    forall d | d in longer ensures IsCluster(edges, d) && d[0] in root && root[d[0]] in done + {r} {
      assert d == c || d in out;
    }
    forall i, j | 0 <= i < j < |longer| ensures First(longer[i]) != First(longer[j]) {
      assert out[i] in out;
      assert root[out[i][0]] in done;
    }
    assert c in longer;
    forall q | q in done ensures q in groups && (|groups[q]| < 2 || SortBy(Identity, groups[q]) in longer) {}
  }

  lemma {:induction false} FirstOfSortedGroup(g: seq<string>)
    requires g != []
    ensures SortBy(Identity, g)[0] in g
  {
    SortKeepsElements(Identity, g);
    assert SortBy(Identity, g)[0] in SortBy(Identity, g);
  }
}
