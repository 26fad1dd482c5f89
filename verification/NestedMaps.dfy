/** The nested write as it happens: a loop that walks down maps held by reference, puts an
    empty map where it meets none, and changes one entry of the last. */
module NestedMaps {
  import opened Config

  type Ref = nat

  /** An entry of a map: a value that is no object, or a reference to another map. The value
      that a write puts in is kept whole. */
  datatype Item = Leaf(value: Value) | Sub(ref: Ref)

  type Heap = map<Ref, map<string, Item>>

  /** The item, with every map it refers to, is the value v. */
  ghost predicate Is(h: Heap, item: Item, v: Value)
    decreases v
  {
    match item
    case Leaf(w) => w == v
    case Sub(r) =>
      && v.Obj? && r in h && h[r].Keys == v.fields.Keys
      && forall k :: k in v.fields ==> Is(h, h[r][k], v.fields[k])
  }

  /** at gives the one path on which a map is reached: no map is shared. */
  ghost predicate Owned(h: Heap, at: map<Ref, seq<string>>) {
    && at.Keys == h.Keys
    && forall r, k {:trigger h[r][k]} :: r in h && k in h[r] && h[r][k].Sub? ==>
         h[r][k].ref in h && at[h[r][k].ref] == at[r] + [k]
  }

  /** No object hides in a leaf. */
  ghost predicate Opened(h: Heap) {
    forall r, k {:trigger h[r][k]} :: r in h && k in h[r] && h[r][k].Leaf? ==> !h[r][k].value.Obj?
  }

  /** The path p leads from the map r to the map c. */
  ghost predicate Leads(h: Heap, r: Ref, p: seq<string>, c: Ref)
    decreases |p|
  {
    r in h && if p == [] then r == c else p[0] in h[r] && h[r][p[0]].Sub? && Leads(h, h[r][p[0]].ref, p[1..], c)
  }

  /** h' is h but for the map at c, and for maps that h does not have. */
  ghost predicate ChangedAt(h: Heap, h': Heap, c: Ref) {
    forall q :: q in h && q != c ==> q in h' && h'[q] == h[q]
  }

  lemma {:induction false} LeadsAt(h: Heap, at: map<Ref, seq<string>>, r: Ref, p: seq<string>, c: Ref)
    requires Owned(h, at) && Leads(h, r, p, c)
    ensures c in h && at[c] == at[r] + p
    decreases |p|
  {
    if p != [] {
      var s := h[r][p[0]].ref;
      LeadsAt(h, at, s, p[1..], c);
      assert at[r] + [p[0]] + p[1..] == at[r] + p;
    }
  }

  /** Maps that do not lead to c do not see the change. */
  lemma {:induction false} Framed(h: Heap, at: map<Ref, seq<string>>, h': Heap, c: Ref, item: Item, v: Value)
    requires Owned(h, at) && c in h && ChangedAt(h, h', c) && Is(h, item, v)
    requires item.Sub? ==> !(at[item.ref] <= at[c])
    ensures Is(h', item, v)
    decreases v
  {
    if item.Sub? {
      var r := item.ref;
      forall k | k in v.fields ensures Is(h', h'[r][k], v.fields[k]) {
        FramedEntry(h, at, c, r, k);
        Framed(h, at, h', c, h[r][k], v.fields[k]);
      }
    }
  }

  lemma {:induction false} FramedEntry(h: Heap, at: map<Ref, seq<string>>, c: Ref, r: Ref, k: string)
    requires Owned(h, at) && c in h && r in h && k in h[r] && !(at[r] <= at[c])
    ensures h[r][k].Sub? ==> !(at[h[r][k].ref] <= at[c])
  {
    if h[r][k].Sub? {
      if at[r] + [k] <= at[c] { OneLonger(at[r], k, at[c]); }
    }
  }

  lemma {:induction false} OneLonger(a: seq<string>, k: string, b: seq<string>)
    requires a + [k] <= b
    ensures a <= b && |a| < |b| && b[|a|] == k
  {
    assert a == (a + [k])[..|a|] == b[..|a|];
  }

  /** The entries of r next to the one that leads to c. */
  lemma {:induction false} SiblingFramed(h: Heap, at: map<Ref, seq<string>>, h': Heap, c: Ref, r: Ref, rest: seq<string>,
                                         k: string, v: Value)
    requires Owned(h, at) && c in h && ChangedAt(h, h', c) && r in h && k in h[r] && Is(h, h[r][k], v)
    requires at[c] == at[r] + rest && (rest != [] ==> rest[0] != k)
    ensures Is(h', h[r][k], v)
  {
    if h[r][k].Sub? {
      if at[r] + [k] <= at[c] { OneLonger(at[r], k, at[c]); }
    }
    Framed(h, at, h', c, h[r][k], v);
  }

  /** Changing entry k of the map that p leads to is the nested write on p and k. */
  lemma {:induction false} EntryChanged(h: Heap, at: map<Ref, seq<string>>, h': Heap, r: Ref, v: Value,
                                        p: seq<string>, c: Ref, k: string, item: Item, w: Value)
    requires Owned(h, at) && Is(h, Sub(r), v) && Leads(h, r, p, c)
    requires ChangedAt(h, h', c) && c in h && c in h' && h'[c] == h[c][k := item] && Is(h', item, w)
    ensures Is(h', Sub(r), Obj(SetNested(v.fields, p + [k], w)))
    decreases |p|
  {
    LeadsAt(h, at, r, p, c);
    if p == [] {
      forall j | j in v.fields && j != k ensures Is(h', h[r][j], v.fields[j]) {
        SiblingFramed(h, at, h', c, r, [], j, v.fields[j]);
      }
      assert [] + [k] == [k];
    } else {
      var s, u := h[r][p[0]].ref, v.fields[p[0]];
      EntryChanged(h, at, h', s, u, p[1..], c, k, item, w);
      forall j | j in v.fields && j != p[0] ensures Is(h', h[r][j], v.fields[j]) {
        SiblingFramed(h, at, h', c, r, p, j, v.fields[j]);
      }
      assert (p + [k])[1..] == p[1..] + [k];
      LengthsDiffer(at, r, p, c);
    }
  }

  lemma {:induction false} LengthsDiffer(at: map<Ref, seq<string>>, r: Ref, p: seq<string>, c: Ref)
    requires r in at && c in at && at[c] == at[r] + p && p != []
    ensures r != c
  {
    assert |at[c]| > |at[r]|;
  }

  lemma {:induction false} LeadsStill(h: Heap, at: map<Ref, seq<string>>, h': Heap, r: Ref, p: seq<string>, c: Ref)
    requires Owned(h, at) && Leads(h, r, p, c) && ChangedAt(h, h', c) && c in h'
    ensures Leads(h', r, p, c)
    decreases |p|
  {
    if p != [] {
      LeadsAt(h, at, r, p, c);
      LengthsDiffer(at, r, p, c);
      LeadsStill(h, at, h', h[r][p[0]].ref, p[1..], c);
    }
  }

  lemma {:induction false} LeadsOn(h: Heap, r: Ref, p: seq<string>, c: Ref, k: string)
    requires Leads(h, r, p, c) && c in h && k in h[c] && h[c][k].Sub? && h[c][k].ref in h
    ensures Leads(h, r, p + [k], h[c][k].ref)
    decreases |p|
  {
    if p == [] {
      assert [] + [k] == [k] && [k][1..] == [];
    } else {
      assert (p + [k])[1..] == p[1..] + [k];
      LeadsOn(h, h[r][p[0]].ref, p[1..], c, k);
    }
  }

  lemma {:induction false} ReadAt(h: Heap, r: Ref, v: Value, p: seq<string>, c: Ref)
    requires Is(h, Sub(r), v) && Leads(h, r, p, c)
    ensures Is(h, Sub(c), Get(v, p))
    decreases |p|
  {
    if p != [] { ReadAt(h, h[r][p[0]].ref, v.fields[p[0]], p[1..], c); }
  }

  lemma {:induction false} GetAppend(v: Value, p: seq<string>, k: string)
    ensures Get(v, p + [k]) == Get(Get(v, p), [k])
    decreases |p|
  {
    if p == [] {
      assert [] + [k] == [k];
    } else {
      assert (p + [k])[1..] == p[1..] + [k];
      if v.Obj? && p[0] in v.fields { GetAppend(v.fields[p[0]], p[1..], k); }
    }
  }

  /** Putting an empty object where there is none does not matter to a write below it. */
  lemma {:induction false} EmptyFirst(data: Fields, p: seq<string>, q: seq<string>, value: Value)
    requires p != [] && q != [] && !Get(Obj(data), p).Obj?
    ensures SetNested(SetNested(data, p, Obj(map[])), p + q, value) == SetNested(data, p + q, value)
    decreases |p|
  {
    assert (p + q)[1..] == p[1..] + q;
    if |p| == 1 {
      EmptyFirstHere(data, p, q, value);
    } else {
      EmptyFirstBelow(data, p);
      EmptyFirst(Below(data, p[0]), p[1..], q, value);
    }
  }

  lemma {:induction false} EmptyFirstHere(data: Fields, p: seq<string>, q: seq<string>, value: Value)
    requires |p| == 1 && q != [] && !Get(Obj(data), p).Obj?
    ensures SetNested(SetNested(data, p, Obj(map[])), p + q, value) == SetNested(data, p + q, value)
  {
    assert (p + q)[1..] == q && p[1..] == [];
    assert Get(Obj(data), p) == if p[0] in data then Get(data[p[0]], []) else Null;
    assert Below(data, p[0]) == map[] == Below(SetNested(data, p, Obj(map[])), p[0]);
  }

  lemma {:induction false} EmptyFirstBelow(data: Fields, p: seq<string>)
    requires |p| > 1 && !Get(Obj(data), p).Obj?
    ensures !Get(Obj(Below(data, p[0])), p[1..]).Obj?
  {
    assert p == [p[0]] + p[1..];
    GetBelow(data, p[0], p[1..]);
  }

  class GoMaps {
    var maps: Heap
    var next: Ref
    ghost var at: map<Ref, seq<string>>

    ghost predicate Valid()
      reads this
    {
      Owned(maps, at) && forall r :: r in maps ==> r < next
    }

    /** A new empty map becomes entry p of the map cur. */
    method AddMap(cur: Ref, p: string) returns (r: Ref)
      requires Valid() && cur in maps && (p in maps[cur] ==> maps[cur][p].Leaf?)
      modifies this
      ensures Valid() && r !in old(maps) && r in maps && maps[r] == map[]
      ensures cur in maps && maps[cur] == old(maps)[cur][p := Sub(r)] && ChangedAt(old(maps), maps, cur)
      ensures Opened(old(maps)) ==> Opened(maps)
    {
      r := next;
      next := next + 1;
      maps := maps[r := map[]];
      maps := maps[cur := maps[cur][p := Sub(r)]];
      at := at[r := at[cur] + [p]];
    }

    /** One step down: to the map under p, which is put there first if there is none. */
    method Descend(cur: Ref, p: string, ghost root: Ref, ghost path: seq<string>, ghost i: nat,
                   ghost now: Fields, ghost value: Value)
      returns (r: Ref, ghost after: Fields)
      requires i + 1 < |path| && p == path[i] && Valid() && Opened(maps)
      requires Is(maps, Sub(root), Obj(now)) && Leads(maps, root, path[..i], cur)
      modifies this
      ensures Valid() && Opened(maps) && Is(maps, Sub(root), Obj(after)) && Leads(maps, root, path[..i + 1], r)
      ensures SetNested(after, path, value) == SetNested(now, path, value)
    {
      after := now;
      LeadsAt(maps, at, root, path[..i], cur);
      if !(p in maps[cur] && maps[cur][p].Sub?) {
        ghost var before, beforeAt := maps, at;
        r := AddMap(cur, p);
        MapAdded(before, beforeAt, maps, root, now, path, i, cur, r, value);
        after := SetNested(now, path[..i + 1], Obj(map[]));
      }
      assert path[..i + 1] == path[..i] + [p];
      LeadsOn(maps, root, path[..i], cur, p);
      r := maps[cur][p].ref;
    }

    /** data is what root holds before; the write leaves the nested write of it there. */
    method SetNestedInPlace(root: Ref, path: seq<string>, value: Value, ghost data: Fields)
      requires path != [] && Valid() && Opened(maps) && Is(maps, Sub(root), Obj(data))
      modifies this
      ensures Is(maps, Sub(root), Obj(SetNested(data, path, value)))
    {
      var cur := root;
      ghost var now := data;
      for i := 0 to |path| - 1
        invariant Valid() && Opened(maps) && Is(maps, Sub(root), Obj(now)) && Leads(maps, root, path[..i], cur)
        invariant SetNested(now, path, value) == SetNested(data, path, value)
      {
        cur, now := Descend(cur, path[i], root, path, i, now, value);
      }
      var n := |path| - 1;
      LeadsAt(maps, at, root, path[..n], cur);
      ghost var before := maps;
      maps := maps[cur := maps[cur][path[n] := Leaf(value)]];
      EntryChanged(before, at, maps, root, Obj(now), path[..n], cur, path[n], Leaf(value), value);
      assert path[..n] + [path[n]] == path;
    }
  }

  lemma {:induction false} MapAdded(h: Heap, at: map<Ref, seq<string>>, h': Heap, root: Ref, now: Fields,
                 path: seq<string>, i: nat, cur: Ref, r: Ref, value: Value)
    requires i + 1 < |path| && Owned(h, at) && Opened(h) && Is(h, Sub(root), Obj(now))
    requires Leads(h, root, path[..i], cur) && cur in h && (path[i] in h[cur] ==> h[cur][path[i]].Leaf?)
    requires ChangedAt(h, h', cur) && cur in h' && h'[cur] == h[cur][path[i] := Sub(r)] && r in h' && h'[r] == map[]
    ensures var after := SetNested(now, path[..i + 1], Obj(map[]));
            && Is(h', Sub(root), Obj(after)) && Leads(h', root, path[..i], cur)
            && SetNested(after, path, value) == SetNested(now, path, value)
  {
    assert path[..i + 1] == path[..i] + [path[i]];
    EntryChanged(h, at, h', root, Obj(now), path[..i], cur, path[i], Sub(r), Obj(map[]));
    NoObjectThere(h, root, now, path[..i], cur, path[i]);
    EmptyFirst(now, path[..i + 1], path[i + 1..], value);
    assert path[..i + 1] + path[i + 1..] == path;
    LeadsStill(h, at, h', root, path[..i], cur);
  }

  lemma {:induction false} NoObjectThere(h: Heap, r: Ref, data: Fields, p: seq<string>, c: Ref, k: string)
    requires Opened(h) && Is(h, Sub(r), Obj(data)) && Leads(h, r, p, c) && c in h
    requires k in h[c] ==> h[c][k].Leaf?
    ensures !Get(Obj(data), p + [k]).Obj?
  {
    ReadAt(h, r, Obj(data), p, c);
    GetAppend(Obj(data), p, k);
    assert [k][1..] == [];
  }
}
