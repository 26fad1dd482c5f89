/** What a loop selects from a list: some of its elements, in order, none left out. */
module Selection {

  ghost predicate Ascends(idx: seq<nat>) {
    forall i, j :: 0 <= i < j < |idx| ==> idx[i] < idx[j]
  }

  /** picked holds the chosen elements of all, found at the positions idx. */
  ghost predicate PickedAt<T>(picked: seq<T>, all: seq<T>, chosen: T -> bool, idx: seq<nat>) {
    && |idx| == |picked| && Ascends(idx)
    && (forall i :: 0 <= i < |idx| ==> idx[i] < |all| && picked[i] == all[idx[i]] && chosen(all[idx[i]]))
    && (forall k :: 0 <= k < |all| && chosen(all[k]) ==> k in idx)
  }

  ghost predicate Selects<T>(picked: seq<T>, all: seq<T>, chosen: T -> bool) {
    exists idx :: PickedAt(picked, all, chosen, idx)
  }

  lemma {:induction false} SelectsNothing<T>(chosen: T -> bool)
    ensures Selects([], [], chosen)
  {
    assert PickedAt([], [], chosen, []);
  }

  lemma {:induction false} PickedNext<T>(picked: seq<T>, all: seq<T>, chosen: T -> bool, idx: seq<nat>, x: T)
    requires PickedAt(picked, all, chosen, idx)
    ensures if chosen(x) then PickedAt(picked + [x], all + [x], chosen, idx + [|all|])
            else PickedAt(picked, all + [x], chosen, idx)
  {
    if chosen(x) {
      var more := idx + [|all|];
      assert more[|idx|] == |all|;
      assert forall i :: 0 <= i < |idx| ==> more[i] == idx[i];
      forall k | 0 <= k < |all + [x]| && chosen((all + [x])[k]) ensures k in more {
        if k < |all| { assert all[k] == (all + [x])[k] && k in idx; }
      }
    }
  }

  /** One more element at the end. */
  lemma {:induction false} SelectsNext<T>(picked: seq<T>, all: seq<T>, chosen: T -> bool, x: T)
    requires Selects(picked, all, chosen)
    ensures Selects(if chosen(x) then picked + [x] else picked, all + [x], chosen)
  {
    var idx :| PickedAt(picked, all, chosen, idx);
    PickedNext(picked, all, chosen, idx, x);
  }

  /** Something is selected exactly when something qualifies. */
  lemma {:induction false} SelectedIff<T>(picked: seq<T>, all: seq<T>, chosen: T -> bool)
    requires Selects(picked, all, chosen)
    ensures picked != [] <==> exists x :: x in all && chosen(x)
    ensures forall x :: x in picked <==> x in all && chosen(x)
  {
    var idx :| PickedAt(picked, all, chosen, idx);
    forall x ensures x in picked <==> x in all && chosen(x) {
      if x in picked {
        var i :| 0 <= i < |picked| && picked[i] == x;
        assert all[idx[i]] == x;
      }
      if x in all && chosen(x) {
        var k: nat :| k < |all| && all[k] == x;
        var i :| 0 <= i < |idx| && idx[i] == k;
        assert picked[i] == x;
      }
    }
    if picked != [] { assert picked[0] in picked; }
  }

  function Shifted(idx: seq<nat>): (r: seq<nat>)
    ensures |r| == |idx| && forall i :: 0 <= i < |r| ==> r[i] == idx[i] + 1
  {
    seq(|idx|, i requires 0 <= i < |idx| => idx[i] + 1)
  }

  lemma {:induction false} ShiftedHas(idx: seq<nat>, k: nat)
    ensures k in idx ==> k + 1 in Shifted(idx)
  {
    if k in idx {
      var i :| 0 <= i < |idx| && idx[i] == k;
      assert Shifted(idx)[i] == k + 1;
    }
  }

  lemma {:induction false} ShiftedAscends(idx: seq<nat>)
    requires Ascends(idx)
    ensures Ascends(Shifted(idx)) && Ascends([0] + Shifted(idx))
  {}

  lemma {:induction false} PickedBehind<T>(picked: seq<T>, all: seq<T>, chosen: T -> bool, idx: seq<nat>, x: T)
    requires PickedAt(picked, all, chosen, idx) && !chosen(x)
    ensures PickedAt(picked, [x] + all, chosen, Shifted(idx))
  {
    ShiftedAscends(idx);
    forall k | 0 <= k < |[x] + all| && chosen(([x] + all)[k]) ensures k in Shifted(idx) {
      assert k > 0 && all[k - 1] == ([x] + all)[k];
      ShiftedHas(idx, k - 1);
    }
  }

  lemma {:induction false} PickedFront<T>(picked: seq<T>, all: seq<T>, chosen: T -> bool, idx: seq<nat>, x: T)
    requires PickedAt(picked, all, chosen, idx) && chosen(x)
    ensures PickedAt([x] + picked, [x] + all, chosen, [0] + Shifted(idx))
  {
    ShiftedAscends(idx);
    var more, longer := [0] + Shifted(idx), [x] + all;
    forall i | 0 <= i < |more|
      ensures more[i] < |longer| && ([x] + picked)[i] == longer[more[i]] && chosen(longer[more[i]])
    {
      if i > 0 {
        assert more[i] == idx[i - 1] + 1;
        assert longer[more[i]] == all[idx[i - 1]] && ([x] + picked)[i] == picked[i - 1];
      }
    }
    forall k | 0 <= k < |longer| && chosen(longer[k]) ensures k in more {
      if k == 0 {
        assert more[0] == 0;
      } else {
        assert longer[k] == all[k - 1];
        ShiftedHas(idx, k - 1);
      }
    }
  }

  /** One more element in front. */
  lemma {:induction false} SelectsFront<T>(picked: seq<T>, all: seq<T>, chosen: T -> bool, x: T)
    requires Selects(picked, all, chosen)
    ensures Selects(if chosen(x) then [x] + picked else picked, [x] + all, chosen)
  {
    var idx :| PickedAt(picked, all, chosen, idx);
    if chosen(x) {
      PickedFront(picked, all, chosen, idx, x);
    } else {
      PickedBehind(picked, all, chosen, idx, x);
    }
  }

  // ----- order -----

  /** The elements of part stand in whole in the same order, at different places. */
  ghost predicate InOrder<T>(part: seq<T>, whole: seq<T>) {
    exists idx :: PlacedAt(part, whole, idx)
  }

  ghost predicate PlacedAt<T>(part: seq<T>, whole: seq<T>, idx: seq<nat>) {
    |idx| == |part| && Ascends(idx) && forall i :: 0 <= i < |idx| ==> idx[i] < |whole| && part[i] == whole[idx[i]]
  }

  function From(start: nat, n: nat): (r: seq<nat>)
    ensures |r| == n && forall i :: 0 <= i < n ==> r[i] == start + i
  {
    seq(n, i requires 0 <= i < n => start + i)
  }

  /** Something stands between two parts of the whole. */
  lemma {:induction false} InOrderInsert<T>(part: seq<T>, a: seq<T>, x: seq<T>, b: seq<T>)
    requires InOrder(part, a + b)
    ensures InOrder(part, a + x + b)
  {
    var idx :| PlacedAt(part, a + b, idx);
    var more := seq(|idx|, i requires 0 <= i < |idx| => if idx[i] < |a| then idx[i] else idx[i] + |x|);
    forall i | 0 <= i < |more| ensures more[i] < |a + x + b| && part[i] == (a + x + b)[more[i]] {
      assert part[i] == (a + b)[idx[i]];
    }
    assert PlacedAt(part, a + x + b, more);
  }

  /** The same at the end of both. */
  lemma {:induction false} InOrderAppend<T>(part: seq<T>, whole: seq<T>, more: seq<T>)
    requires InOrder(part, whole)
    ensures InOrder(part + more, whole + more)
  {
    var idx: seq<nat> :| PlacedAt(part, whole, idx);
    var next := From(|whole|, |more|);
    var all := idx + next;
    forall i | 0 <= i < |all| ensures all[i] < |whole + more| && (part + more)[i] == (whole + more)[all[i]] {
      if |idx| <= i { assert all[i] == next[i - |idx|]; }
    }
    assert PlacedAt(part + more, whole + more, all);
  }

  lemma {:induction false} InOrderSelf<T>(part: seq<T>)
    ensures InOrder(part, part)
  {
    assert PlacedAt(part, part, From(0, |part|));
  }
}
