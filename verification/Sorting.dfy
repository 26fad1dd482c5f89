/** The order of Go strings and the library sorts over it (sort.Strings, sort.Slice). */
module Sorting {

  predicate Less(a: string, b: string) {
    b != "" && (a == "" || a[0] < b[0] || (a[0] == b[0] && Less(a[1..], b[1..])))
  }

  lemma {:induction false} LessTotal(a: string, b: string)
    ensures a == b || Less(a, b) || Less(b, a)
  {
    if a != "" && b != "" && a[0] == b[0] {
      LessTotal(a[1..], b[1..]);
      assert a == [a[0]] + a[1..] && b == [b[0]] + b[1..];
    }
  }

  lemma {:induction false} LessTransitive(a: string, b: string, c: string)
    requires Less(a, b) && Less(b, c)
    ensures Less(a, c)
  {
    if a != "" && a[0] == b[0] == c[0] {
      LessTransitive(a[1..], b[1..], c[1..]);
    }
  }

  lemma {:induction false} LessAsymmetric(a: string, b: string)
    requires Less(a, b)
    ensures !Less(b, a)
  {
    if a != "" && b != "" && a[0] == b[0] { LessAsymmetric(a[1..], b[1..]); }
  }

  /** Keys never decrease from left to right. */
  ghost predicate Sorted<T>(key: T -> string, s: seq<T>) {
    forall i, j :: 0 <= i < j < |s| ==> !Less(key(s[j]), key(s[i]))
  }

  /** Keys strictly increase: sorted and without repetition. */
  ghost predicate StrictlySorted<T>(key: T -> string, s: seq<T>) {
    forall i, j :: 0 <= i < j < |s| ==> Less(key(s[i]), key(s[j]))
  }

  function Insert<T>(key: T -> string, x: T, s: seq<T>): seq<T> {
    if s == [] || Less(key(x), key(s[0])) then [x] + s else [s[0]] + Insert(key, x, s[1..])
  }

  function SortBy<T>(key: T -> string, s: seq<T>): seq<T> {
    if s == [] then [] else Insert(key, s[0], SortBy(key, s[1..]))
  }

  lemma {:induction false} InsertKeepsOrder<T>(key: T -> string, x: T, s: seq<T>)
    requires Sorted(key, s)
    ensures Sorted(key, Insert(key, x, s)) && multiset(Insert(key, x, s)) == multiset{x} + multiset(s)
  {
    if s == [] || Less(key(x), key(s[0])) {
      InsertFirst(key, x, s);
    } else {
      assert s == [s[0]] + s[1..];
      InsertKeepsOrder(key, x, s[1..]);
      InsertLater(key, x, s, Insert(key, x, s[1..]));
    }
  }

  lemma {:induction false} SortBySorts<T>(key: T -> string, s: seq<T>)
    ensures Sorted(key, SortBy(key, s)) && multiset(SortBy(key, s)) == multiset(s)
  {
    if s != [] {
      SortBySorts(key, s[1..]);
      InsertKeepsOrder(key, s[0], SortBy(key, s[1..]));
      assert s == [s[0]] + s[1..];
    }
  }

  lemma {:induction false} InsertFirst<T>(key: T -> string, x: T, s: seq<T>)
    requires Sorted(key, s) && (s == [] || Less(key(x), key(s[0])))
    ensures Sorted(key, [x] + s)
  {
    forall j | 0 <= j < |s| ensures !Less(key(s[j]), key(x)) {
      if Less(key(s[j]), key(x)) {
        LessTransitive(key(s[j]), key(x), key(s[0]));
        LessAsymmetric(key(x), key(s[0]));
      }
    }
  }

  lemma {:induction false} InsertLater<T>(key: T -> string, x: T, s: seq<T>, t: seq<T>)
    requires s != [] && Sorted(key, s) && !Less(key(x), key(s[0]))
    requires Sorted(key, t) && multiset(t) == multiset{x} + multiset(s[1..])
    ensures Sorted(key, [s[0]] + t)
  {
    forall j | 0 <= j < |t| ensures !Less(key(t[j]), key(s[0])) {
      assert t[j] in multiset(t);
      assert t[j] == x || t[j] in s[1..];
    }
  }

  /** A sorted list whose keys differ is strictly sorted. */
  lemma {:induction false} SortedDistinct<T>(key: T -> string, s: seq<T>)
    requires Sorted(key, s) && forall i, j :: 0 <= i < j < |s| ==> key(s[i]) != key(s[j])
    ensures StrictlySorted(key, s)
  {
    forall i, j | 0 <= i < j < |s| ensures Less(key(s[i]), key(s[j])) {
      LessTotal(key(s[i]), key(s[j]));
    }
  }

  /** A strictly sorted list is determined by the set of its elements. */
  lemma {:induction false} StrictlySortedUnique<T>(key: T -> string, s: seq<T>, t: seq<T>)
    requires StrictlySorted(key, s) && StrictlySorted(key, t)
    requires forall x :: x in s <==> x in t
    ensures s == t
  {
    if s == [] {
      Inhabited(t);
    } else {
      assert s[0] in t && t[0] in s;
      var i :| 0 <= i < |t| && t[i] == s[0];
      var j :| 0 <= j < |s| && s[j] == t[0];
      if i > 0 && j > 0 { LessAsymmetric(key(s[0]), key(t[0])); }
      assert s[0] == t[0];
      forall x ensures x in s[1..] <==> x in t[1..] {
        TailElements(key, s, x);
        TailElements(key, t, x);
      }
      StrictlySortedUnique(key, s[1..], t[1..]);
    }
  }

  lemma {:induction false} Inhabited<T>(t: seq<T>)
    ensures t == [] || exists x :: x in t
  {
    if t != [] { assert t[0] in t; }
  }

  lemma {:induction false} TailElements<T>(key: T -> string, s: seq<T>, x: T)
    requires s != [] && StrictlySorted(key, s)
    ensures x in s[1..] <==> x in s && x != s[0]
  {
    if x in s[1..] {
      var j :| 0 < j < |s| && s[j] == x;
      if x == s[0] { LessAsymmetric(key(s[0]), key(s[j])); }
    }
  }

  // ----- sorting keeps what is there, as often as it is there -----

  ghost predicate Distinct<T>(s: seq<T>) {
    forall i, j :: 0 <= i < j < |s| ==> s[i] != s[j]
  }

  lemma {:induction false} SortKeepsElements<T>(key: T -> string, g: seq<T>)
    ensures Sorted(key, SortBy(key, g)) && |SortBy(key, g)| == |g|
    ensures forall x :: x in SortBy(key, g) <==> x in g
    ensures Distinct(g) ==> Distinct(SortBy(key, g))
  {
    var c := SortBy(key, g);
    SortBySorts(key, g);
    assert |multiset(c)| == |multiset(g)|;
    forall x ensures x in c <==> x in g {
      assert x in multiset(c) <==> x in multiset(g);
    }
    if Distinct(g) && !Distinct(c) {
      var i, j :| 0 <= i < j < |c| && c[i] == c[j];
      TwoOccurrences(c, i, j);
      OneOccurrence(g, c[i]);
    }
  }

  lemma {:induction false} TwoOccurrences<T>(s: seq<T>, i: nat, j: nat)
    requires i < j < |s| && s[i] == s[j]
    ensures multiset(s)[s[i]] >= 2
  {
    assert s == s[..j] + s[j..];
    assert s[..j][i] in multiset(s[..j]) && s[j..][0] in multiset(s[j..]);
  }

  lemma {:induction false} OneOccurrence<T>(s: seq<T>, x: T)
    requires Distinct(s)
    ensures multiset(s)[x] <= 1
  {
    if s != [] {
      assert s == [s[0]] + s[1..];
      OneOccurrence(s[1..], x);
    }
  }
}
