/** Go string operations that the modelled files rely on, with the laws about
    splitting and joining that their proofs need. */
module Text {

  /** unicode.IsSpace, which strings.TrimSpace uses. */
  predicate IsSpace(c: char) {
    c in {'\t', '\n', '\U{0B}', '\U{0C}', '\r', ' ', '\U{85}', '\U{A0}', '\U{1680}',
          '\U{2028}', '\U{2029}', '\U{202F}', '\U{205F}', '\U{3000}'}
    || '\U{2000}' <= c <= '\U{200A}'
  }

  function TrimLeft(s: string): string {
    if s != "" && IsSpace(s[0]) then TrimLeft(s[1..]) else s
  }

  function TrimRight(s: string): string {
    if s != "" && IsSpace(s[|s| - 1]) then TrimRight(s[..|s| - 1]) else s
  }

  /** strings.TrimSpace. */
  function TrimSpace(s: string): string {
    TrimRight(TrimLeft(s))
  }

  /** strings.Contains. */
  predicate Contains(s: string, sub: string) {
    sub <= s || (s != "" && Contains(s[1..], sub))
  }

  /** strings.Split: cut at the leftmost occurrence of sep, then go on after it. */
  function Split(s: string, sep: string): (parts: seq<string>)
    requires sep != ""
    ensures parts != []
  {
    if sep <= s then [""] + Split(s[|sep|..], sep)
    else if s == "" then [""]
    else Prepend(s[0], Split(s[1..], sep))
  }

  function Prepend(c: char, parts: seq<string>): (r: seq<string>)
    requires parts != []
    ensures |r| == |parts|
  {
    [[c] + parts[0]] + parts[1..]
  }

  /** strings.Join. */
  function Join(parts: seq<string>, sep: string): string {
    if parts == [] then ""
    else if |parts| == 1 then parts[0]
    else parts[0] + sep + Join(parts[1..], sep)
  }

  function Flatten<T>(parts: seq<seq<T>>): seq<T> {
    if parts == [] then [] else parts[0] + Flatten(parts[1..])
  }

  /** No proper prefix of sep is also a suffix: two occurrences never overlap. */
  ghost predicate BorderFree(sep: string) {
    sep != "" && forall k :: 0 < k < |sep| ==> !(sep[k..] <= sep)
  }

  /** A separator whose first character occurs nowhere else in it. */
  lemma {:induction false} UniqueHeadIsBorderFree(sep: string)
    requires sep != "" && forall k :: 0 < k < |sep| ==> sep[k] != sep[0]
    ensures BorderFree(sep)
  {
    forall k | 0 < k < |sep| ensures !(sep[k..] <= sep) {
      assert sep[k..][0] == sep[k];
    }
  }

  /** A separator that starts inside a shorter text a and runs on into the next one has a border. */
  lemma {:induction false} OverlapIsBorder(a: string, sep: string, b: string)
    requires |a| < |sep| && sep <= a + sep + b
    ensures sep[|a|..] <= sep
  {
    var k := |a|;
    forall j | 0 <= j < |sep| - k ensures sep[k..][j] == sep[j] {
      assert sep[k + j] == (a + sep + b)[k + j] == sep[j];
    }
  }

  /** Before the separator between a and b, the next cut is the next cut of a alone. */
  lemma {:induction false} NextCut(a: string, sep: string, b: string)
    requires BorderFree(sep) && a != ""
    ensures sep <= a + sep + b <==> sep <= a
  {
    if |sep| <= |a| {
      assert (a + sep + b)[..|sep|] == a[..|sep|];
    } else if sep <= a + sep + b {
      OverlapIsBorder(a, sep, b);
    }
  }

  lemma {:induction false} PrependConcat(c: char, x: seq<string>, y: seq<string>)
    requires x != []
    ensures Prepend(c, x + y) == Prepend(c, x) + y && [""] + (x + y) == [""] + x + y
  {
    assert (x + y)[1..] == x[1..] + y;
  }

  /** Joining two texts with a border-free separator never creates or hides a cut. */
  lemma {:induction false} SplitConcat(a: string, sep: string, b: string)
    requires BorderFree(sep)
    ensures Split(a + sep + b, sep) == Split(a, sep) + Split(b, sep)
  {
    var s := a + sep + b;
    if a == "" {
      assert s == sep + b && s[|sep|..] == b;
    } else {
      NextCut(a, sep, b);
      if sep <= a {
        var rest := a[|sep|..];
        assert s[|sep|..] == rest + sep + b;
        SplitConcat(rest, sep, b);
        PrependConcat('x', Split(rest, sep), Split(b, sep));
      } else {
        var rest := a[1..];
        assert s[1..] == rest + sep + b && s[0] == a[0];
        SplitConcat(rest, sep, b);
        PrependConcat(a[0], Split(rest, sep), Split(b, sep));
      }
    }
  }

  function SplitEach(parts: seq<string>, sep: string): (r: seq<seq<string>>)
    requires sep != ""
    ensures |r| == |parts|
  {
    if parts == [] then [] else [Split(parts[0], sep)] + SplitEach(parts[1..], sep)
  }

  /** Split is a homomorphism from joining to concatenation. */
  lemma {:induction false} SplitJoin(parts: seq<string>, sep: string)
    requires BorderFree(sep) && parts != []
    ensures Split(Join(parts, sep), sep) == Flatten(SplitEach(parts, sep))
  {
    if |parts| == 1 {
      assert SplitEach(parts, sep) == [Split(parts[0], sep)];
    } else {
      SplitConcat(parts[0], sep, Join(parts[1..], sep));
      SplitJoin(parts[1..], sep);
    }
  }

  /** Split loses nothing. */
  lemma {:induction false} JoinSplit(s: string, sep: string)
    requires sep != ""
    ensures Join(Split(s, sep), sep) == s
  {
    if sep <= s {
      var rest := s[|sep|..];
      JoinSplit(rest, sep);
      assert ([""] + Split(rest, sep))[1..] == Split(rest, sep);
      assert s == "" + sep + rest;
    } else if s != "" {
      JoinSplit(s[1..], sep);
      JoinPrepend(s[0], Split(s[1..], sep), sep);
    }
  }

  lemma {:induction false} JoinPrepend(c: char, parts: seq<string>, sep: string)
    requires parts != []
    ensures Join(Prepend(c, parts), sep) == [c] + Join(parts, sep)
  {
    if |parts| > 1 {
      assert Prepend(c, parts)[1..] == parts[1..];
      assert [c] + parts[0] + sep + Join(parts[1..], sep) == [c] + (parts[0] + sep + Join(parts[1..], sep));
    }
  }

  /** Every part that Split cuts off is free of the separator. */
  lemma {:induction false} SplitPartsAreFree(s: string, sep: string)
    requires BorderFree(sep)
    ensures forall p :: p in Split(s, sep) ==> !Contains(p, sep)
  {
    if sep <= s {
      SplitPartsAreFree(s[|sep|..], sep);
    } else if s != "" {
      SplitPartsAreFree(s[1..], sep);
      var rest := Split(s[1..], sep);
      assert s == [s[0]] + s[1..];
      JoinSplit(s[1..], sep);
      var p := [s[0]] + rest[0];
      assert p[1..] == rest[0];
      assert rest[0] <= s[1..];
      assert p <= s;
      assert !Contains(p, sep);
    }
  }

  // ----- trimming -----

  /** What TrimSpace leaves sits between two runs of spaces. */
  lemma {:induction false} TrimSpaceIsSlice(s: string) returns (i: nat, j: nat)
    ensures i <= j <= |s| && TrimSpace(s) == s[i..j]
    ensures forall k :: 0 <= k < i || j <= k < |s| ==> IsSpace(s[k])
  {
    i := TrimLeftIsSlice(s);
    var n := TrimRightIsSlice(s[i..]);
    j := i + n;
    assert s[i..][..n] == s[i..j];
    assert forall k :: n <= k < |s[i..]| ==> IsSpace(s[i..][k]) && s[i..][k] == s[i + k];
    forall k | j <= k < |s| ensures IsSpace(s[k]) {
      assert s[i..][k - i] == s[k];
    }
  }

  lemma {:induction false} TrimLeftIsSlice(s: string) returns (i: nat)
    ensures i <= |s| && TrimLeft(s) == s[i..] && forall k :: 0 <= k < i ==> IsSpace(s[k])
  {
    if s != "" && IsSpace(s[0]) {
      var n := TrimLeftIsSlice(s[1..]);
      i := n + 1;
      assert s[1..][n..] == s[i..];
      forall k | 0 <= k < i ensures IsSpace(s[k]) {
        if k > 0 { assert s[1..][k - 1] == s[k]; }
      }
    } else {
      i := 0;
    }
  }

  lemma {:induction false} TrimRightIsSlice(s: string) returns (j: nat)
    ensures j <= |s| && TrimRight(s) == s[..j] && forall k :: j <= k < |s| ==> IsSpace(s[k])
  {
    if s != "" && IsSpace(s[|s| - 1]) {
      j := TrimRightIsSlice(s[..|s| - 1]);
      assert s[..|s| - 1][..j] == s[..j];
    } else {
      j := |s|;
    }
  }

  /** A text that begins and ends with something else is left alone. */
  lemma {:induction false} TrimSpaceFixed(s: string)
    requires s != "" && !IsSpace(s[0]) && !IsSpace(s[|s| - 1])
    ensures TrimSpace(s) == s
  {}

  lemma {:induction false} ContainsSuffix(s: string, i: nat, sub: string)
    requires i <= |s| && Contains(s[i..], sub)
    ensures Contains(s, sub)
  {
    if i > 0 {
      assert s[1..][i - 1..] == s[i..];
      ContainsSuffix(s[1..], i - 1, sub);
    }
  }

  lemma {:induction false} ContainsPrefix(s: string, j: nat, sub: string)
    requires j <= |s| && Contains(s[..j], sub)
    ensures Contains(s, sub)
  {
    if sub <= s[..j] {
      assert sub <= s;
    } else {
      assert s[..j][1..] == s[1..][..j - 1];
      ContainsPrefix(s[1..], j - 1, sub);
    }
  }

  lemma {:induction false} TrimSpaceAddsNothing(s: string, sub: string)
    requires Contains(TrimSpace(s), sub)
    ensures Contains(s, sub)
  {
    var i, j := TrimSpaceIsSlice(s);
    assert s[i..j] == s[i..][..j - i];
    ContainsPrefix(s[i..], j - i, sub);
    ContainsSuffix(s, i, sub);
  }

  /** A text without sub is its own only part. */
  lemma {:induction false} SplitFree(s: string, sep: string)
    requires sep != "" && !Contains(s, sep)
    ensures Split(s, sep) == [s]
  {
    if s != "" {
      SplitFree(s[1..], sep);
      assert [s[0]] + s[1..] == s;
    }
  }

  /** No part holds the separator. */
  ghost predicate FreeOf(parts: seq<string>, sep: string) {
    forall i :: 0 <= i < |parts| ==> !Contains(parts[i], sep)
  }

  /** Parts without the separator are found again. */
  lemma {:induction false} SplitOfJoined(parts: seq<string>, sep: string)
    requires BorderFree(sep) && parts != [] && FreeOf(parts, sep)
    ensures Split(Join(parts, sep), sep) == parts
  {
    SplitFree(parts[0], sep);
    if |parts| > 1 {
      assert FreeOf(parts[1..], sep);
      SplitConcat(parts[0], sep, Join(parts[1..], sep));
      SplitOfJoined(parts[1..], sep);
      assert parts == [parts[0]] + parts[1..];
    } else {
      assert parts == [parts[0]];
    }
  }
}
