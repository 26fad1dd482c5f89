/** The framed preimage from which a bundled skill's tree hash is computed. */
module TreeHash {
  import opened Text
  import opened Sorting

  datatype File = File(path: string, data: string)

  /** A directory tree: the files under it by slash-separated relative path. */
  type Tree = map<string, string>

  /** SHA-256 without collisions: a digest stands for the text it was computed from. */
  datatype Digest = Sha(preimage: string)

  // ----- decimal lengths -----

  function Digit(d: nat): char
    requires d < 10
  {
    ['0', '1', '2', '3', '4', '5', '6', '7', '8', '9'][d]
  }

  function Decimal(n: nat): (s: string)
    ensures s != "" && '\n' !in s
  {
    if n < 10 then [Digit(n)] else Decimal(n / 10) + [Digit(n % 10)]
  }

  lemma {:induction false} DecimalInjective(m: nat, n: nat)
    requires Decimal(m) == Decimal(n)
    ensures m == n
  {
    var s, t := Decimal(m), Decimal(n);
    assert Digit(m % 10) == s[|s| - 1] == t[|t| - 1] == Digit(n % 10);
    DigitInjective(m % 10, n % 10);
    if m >= 10 && n >= 10 {
      assert Decimal(m / 10) == s[..|s| - 1] == t[..|t| - 1] == Decimal(n / 10);
      DecimalInjective(m / 10, n / 10);
    } else {
      DecimalLength(m);
      DecimalLength(n);
    }
  }

  lemma {:induction false} DigitInjective(a: nat, b: nat)
    requires a < 10 && b < 10 && Digit(a) == Digit(b)
    ensures a == b
  {}

  lemma {:induction false} DecimalLength(n: nat)
    ensures |Decimal(n)| == 1 <==> n < 10
  {
    if n >= 10 { assert |Decimal(n / 10)| >= 1; }
  }

  // ----- framing -----

  function Frame(f: File): string {
    f.path + "\n" + Decimal(|f.data|) + "\n" + f.data + "\n"
  }

  function Preimage(files: seq<File>): string {
    if files == [] then "" else Frame(files[0]) + Preimage(files[1..])
  }

  ghost predicate OneLinePaths(files: seq<File>) {
    forall k :: 0 <= k < |files| ==> '\n' !in files[k].path
  }

  lemma {:induction false} CutAtNewline(p: string, r: string, q: string, s: string)
    requires '\n' !in p && '\n' !in q && p + "\n" + r == q + "\n" + s
    ensures p == q && r == s
  {
    var a, b := p + "\n" + r, q + "\n" + s;
    assert a[0] == b[0] && a[1..] == b[1..];
    if p != "" && q != "" {
      assert a[1..] == p[1..] + "\n" + r && b[1..] == q[1..] + "\n" + s;
      CutAtNewline(p[1..], r, q[1..], s);
      assert p == [p[0]] + p[1..] && q == [q[0]] + q[1..];
    } else {
      assert p == "" ==> a[0] == '\n' && a[1..] == r;
      assert q == "" ==> b[0] == '\n' && b[1..] == s;
    }
  }

  lemma {:induction false} CutAtLength(d: string, r: string, e: string, s: string)
    requires |d| == |e| && d + "\n" + r == e + "\n" + s
    ensures d == e && r == s
  {
    var a, b := d + "\n" + r, e + "\n" + s;
    assert d == a[..|d|] && e == b[..|d|];
    assert r == a[|d| + 1..] && s == b[|d| + 1..];
  }

  lemma {:induction false} FrameSplits(f: File, rest: string)
    ensures Frame(f) + rest == f.path + "\n" + (Decimal(|f.data|) + "\n" + (f.data + "\n" + rest))
  {}

  lemma {:induction false} FrameInjective(f: File, r: string, g: File, s: string)
    requires '\n' !in f.path && '\n' !in g.path && Frame(f) + r == Frame(g) + s
    ensures f == g && r == s
  {
    FrameSplits(f, r);
    FrameSplits(g, s);
    var fr, gs := f.data + "\n" + r, g.data + "\n" + s;
    CutAtNewline(f.path, Decimal(|f.data|) + "\n" + fr, g.path, Decimal(|g.data|) + "\n" + gs);
    CutAtNewline(Decimal(|f.data|), fr, Decimal(|g.data|), gs);
    DecimalInjective(|f.data|, |g.data|);
    CutAtLength(f.data, r, g.data, s);
  }

  /** Different lists of files with one-line paths are never framed alike. */
  lemma {:induction false} PreimageInjective(a: seq<File>, b: seq<File>)
    requires OneLinePaths(a) && OneLinePaths(b) && Preimage(a) == Preimage(b)
    ensures a == b
  {
    if a != [] && b != [] {
      FrameInjective(a[0], Preimage(a[1..]), b[0], Preimage(b[1..]));
      assert OneLinePaths(a[1..]) && OneLinePaths(b[1..]);
      PreimageInjective(a[1..], b[1..]);
      assert a == [a[0]] + a[1..] && b == [b[0]] + b[1..];
    }
  }

  /** With a newline in a path two different lists can be framed alike. */
  lemma {:induction false} NewlinePathCollides()
    ensures var a, b := [File("a\n1\nx\nb", "")], [File("a", "x"), File("b", "")];
            a != b && Preimage(a) == Preimage(b)
  {
    var a, b := [File("a\n1\nx\nb", "")], [File("a", "x"), File("b", "")];
    assert Decimal(0) == "0" && Decimal(1) == "1";
    assert Preimage(a) == Frame(a[0]) == "a\n1\nx\nb\n0\n\n";
    assert b[1..] == [b[1]] && Preimage(b[1..]) == Frame(b[1]) == "b\n0\n\n";
    assert Frame(b[0]) == "a\n1\nx\n";
  }

  // ----- walking a tree -----

  /** Walks visit the entries of a directory by name, so a slash sorts before any other
      character of a path. */
  function WalkKey(path: string): string {
    if path == "" then ""
    else (if path[0] == '/' then "\U{0}" else "\U{1}" + [path[0]]) + WalkKey(path[1..])
  }

  lemma {:induction false} WalkKeyInjective(p: string, q: string)
    requires WalkKey(p) == WalkKey(q)
    ensures p == q
  {
    if p != "" && q != "" {
      var a, b := WalkKey(p), WalkKey(q);
      assert p[0] == '/' <==> a[0] == '\U{0}';
      assert q[0] == '/' <==> b[0] == '\U{0}';
      if p[0] == '/' {
        assert WalkKey(p[1..]) == a[1..] == b[1..] == WalkKey(q[1..]);
      } else {
        assert p[0] == a[1] == b[1] == q[0];
        assert WalkKey(p[1..]) == a[2..] == b[2..] == WalkKey(q[1..]);
      }
      WalkKeyInjective(p[1..], q[1..]);
      assert p == [p[0]] + p[1..] && q == [q[0]] + q[1..];
    }
  }

  function FileKey(f: File): string { WalkKey(f.path) }

  /** The files of a tree in the order in which a walk meets them. */
  ghost predicate IsListing(files: seq<File>, t: Tree) {
    StrictlySorted(FileKey, files) && forall f :: f in files <==> f.path in t && t[f.path] == f.data
  }

  lemma {:induction false} ListingUnique(a: seq<File>, b: seq<File>, t: Tree)
    requires IsListing(a, t) && IsListing(b, t)
    ensures a == b
  {
    StrictlySortedUnique(FileKey, a, b);
  }

  /** Two trees with the same listing are the same tree. */
  lemma {:induction false} ListingDetermines(files: seq<File>, t: Tree, u: Tree)
    requires IsListing(files, t) && IsListing(files, u)
    ensures t == u
  {
    forall p ensures (p in t <==> p in u) && (p in t ==> p in u && t[p] == u[p]) {
      if p in t { assert File(p, t[p]) in files; }
      if p in u { assert File(p, u[p]) in files; }
    }
  }

  ghost function Enumerated(s: set<File>): seq<File> {
    if s == {} then [] else
      var x :| x in s;
      [x] + Enumerated(s - {x})
  }

  lemma {:induction false} EnumeratedOnce(s: set<File>)
    ensures (forall f :: f in Enumerated(s) <==> f in s) && Distinct(Enumerated(s))
  {
    if s != {} {
      var x: File :| x in s && Enumerated(s) == [x] + Enumerated(s - {x});
      EnumeratedOnce(s - {x});
    }
  }

  ghost function FilesOf(t: Tree): set<File> {
    set p | p in t :: File(p, t[p])
  }

  /** The one listing of a tree. */
  ghost function Listing(t: Tree): seq<File> {
    SortBy(FileKey, Enumerated(FilesOf(t)))
  }

  lemma {:induction false} ListingIs(t: Tree)
    ensures IsListing(Listing(t), t)
  {
    EnumeratedOnce(FilesOf(t));
    ListingSorted(t, Enumerated(FilesOf(t)));
  }

  lemma {:induction false} SameKeySameFile(t: Tree, f: File, g: File)
    requires f.path in t && t[f.path] == f.data && g.path in t && t[g.path] == g.data
    requires FileKey(f) == FileKey(g)
    ensures f == g
  {
    WalkKeyInjective(f.path, g.path);
  }

  lemma {:induction false} ListingSorted(t: Tree, e: seq<File>)
    requires (forall f :: f in e <==> f in FilesOf(t)) && Distinct(e)
    ensures IsListing(SortBy(FileKey, e), t)
  {
    var files := SortBy(FileKey, e);
    SortKeepsElements(FileKey, e);
    forall f ensures f in files <==> f.path in t && t[f.path] == f.data {
      assert f in files <==> f in FilesOf(t);
    }
    forall i, j | 0 <= i < j < |files| ensures FileKey(files[i]) != FileKey(files[j]) {
      assert files[i] in files && files[j] in files;
      if FileKey(files[i]) == FileKey(files[j]) { SameKeySameFile(t, files[i], files[j]); }
    }
    SortedDistinct(FileKey, files);
  }

  // ----- hidden files -----

  predicate DotSegment(seg: string) { seg != "" && seg[0] == '.' }

  predicate Hidden(path: string) {
    var segs := Split(path, "/");
    exists k :: 0 <= k < |segs| && DotSegment(segs[k])
  }

  predicate SomeDot(segs: seq<string>) {
    exists k :: 0 <= k < |segs| && DotSegment(segs[k])
  }

  lemma {:induction false} FirstDot(segs: seq<string>)
    requires segs != []
    ensures SomeDot(segs) <==> DotSegment(segs[0]) || SomeDot(segs[1..])
  {
    if SomeDot(segs) {
      var k :| 0 <= k < |segs| && DotSegment(segs[k]);
      if k > 0 { assert segs[1..][k - 1] == segs[k]; }
    }
    if SomeDot(segs[1..]) {
      var k :| 0 <= k < |segs[1..]| && DotSegment(segs[1..][k]);
      assert segs[k + 1] == segs[1..][k];
    }
  }

  lemma {:induction false} HeadDot(path: string)
    ensures DotSegment(Split(path, "/")[0]) <==> path != "" && path[0] == '.'
  {
    if path != "" { assert "/" <= path <==> path[0] == '/'; }
  }

  lemma {:induction false} LaterDot(path: string)
    ensures SomeDot(Split(path, "/")[1..]) <==> Contains(path, "/.")
  {
    if path != "" {
      var rest := Split(path[1..], "/");
      LaterDot(path[1..]);
      if path[0] == '/' {
        assert "/" <= path && Split(path, "/")[1..] == rest;
        FirstDot(rest);
        HeadDot(path[1..]);
        assert "/." <= path <==> path[1..] != "" && path[1] == '.';
      } else {
        assert !("/" <= path) && !("/." <= path);
        assert Split(path, "/")[1..] == rest[1..];
      }
    }
  }

  /** Hidden is what has a dot in front or behind a slash. */
  lemma {:induction false} HiddenIff(path: string)
    ensures Hidden(path) <==> (path != "" && path[0] == '.') || Contains(path, "/.")
  {
    FirstDot(Split(path, "/"));
    HeadDot(path);
    LaterDot(path);
  }

  /** What the disk hash sees of a tree. */
  function Visible(t: Tree): Tree {
    map p | p in t && !Hidden(p) :: t[p]
  }

  function VisibleFiles(files: seq<File>): seq<File> {
    if files == [] then []
    else if Hidden(files[0].path) then VisibleFiles(files[1..])
    else [files[0]] + VisibleFiles(files[1..])
  }

  lemma {:induction false} VisibleFilesAre(files: seq<File>)
    requires StrictlySorted(FileKey, files)
    ensures forall f :: f in VisibleFiles(files) <==> f in files && !Hidden(f.path)
    ensures StrictlySorted(FileKey, VisibleFiles(files))
  {
    if files != [] {
      var rest := VisibleFiles(files[1..]);
      VisibleFilesAre(files[1..]);
      forall f ensures f in VisibleFiles(files) <==> f in files && !Hidden(f.path) {
        assert files == [files[0]] + files[1..];
      }
      forall j | 0 <= j < |rest| ensures Less(FileKey(files[0]), FileKey(rest[j])) {
        assert rest[j] in files[1..];
        var i :| 0 < i < |files| && files[i] == rest[j];
      }
    }
  }

  lemma {:induction false} VisibleListing(files: seq<File>, t: Tree)
    requires IsListing(files, t)
    ensures VisibleFiles(files) == Listing(Visible(t))
  {
    VisibleFilesAre(files);
    ListingIs(Visible(t));
    ListingUnique(VisibleFiles(files), Listing(Visible(t)), Visible(t));
  }

  ghost function TreeDigest(t: Tree): Digest { Sha(Preimage(Listing(t))) }

  ghost predicate OneLineTree(t: Tree) { forall p :: p in t ==> '\n' !in p }

  /** Trees with one-line paths have the same digest only when they are the same. */
  lemma {:induction false} DigestInjective(t: Tree, u: Tree)
    requires OneLineTree(t) && OneLineTree(u)
    ensures TreeDigest(t) == TreeDigest(u) <==> t == u
  {
    if TreeDigest(t) == TreeDigest(u) {
      var a, b := Listing(t), Listing(u);
      ListingIs(t);
      ListingIs(u);
      forall k | 0 <= k < |a| ensures '\n' !in a[k].path { assert a[k] in a; }
      forall k | 0 <= k < |b| ensures '\n' !in b[k].path { assert b[k] in b; }
      PreimageInjective(a, b);
      ListingDetermines(a, t, u);
    }
  }

  // ----- the two hashing walks -----

  lemma {:induction false} PreimageSnoc(files: seq<File>, f: File)
    ensures Preimage(files + [f]) == Preimage(files) + Frame(f)
  {
    if files != [] {
      assert (files + [f])[1..] == files[1..] + [f];
      PreimageSnoc(files[1..], f);
    } else {
      assert [f][1..] == [] && Preimage([f]) == Frame(f) + "";
    }
  }

  /** The walk over the embedded tree. */
  method EmbedTreeHash(files: seq<File>, ghost t: Tree) returns (d: Digest)
    requires IsListing(files, t)
    ensures d == TreeDigest(t)
  {
    var h := "";
    for i := 0 to |files|
      invariant h == Preimage(files[..i])
    {
      PreimageSnoc(files[..i], files[i]);
      assert files[..i + 1] == files[..i] + [files[i]];
      h := h + (files[i].path + "\n" + Decimal(|files[i].data|) + "\n" + files[i].data + "\n");
    }
    assert files[..|files|] == files;
    ListingIs(t);
    ListingUnique(files, Listing(t), t);
    d := Sha(h);
  }

  method IsHidden(rel: string) returns (b: bool)
    ensures b == Hidden(rel)
  {
    var segs := Split(rel, "/");
    for k := 0 to |segs|
      invariant forall j :: 0 <= j < k ==> !DotSegment(segs[j])
    {
      if segs[k] != "" && segs[k][0] == '.' {
        assert DotSegment(segs[k]);
        return true;
      }
    }
    return false;
  }

  lemma {:induction false} VisibleSnoc(files: seq<File>, f: File)
    ensures VisibleFiles(files + [f]) == if Hidden(f.path) then VisibleFiles(files) else VisibleFiles(files) + [f]
  {
    if files != [] {
      assert (files + [f])[1..] == files[1..] + [f];
      VisibleSnoc(files[1..], f);
    } else {
      assert [f][1..] == [];
    }
  }

  /** The walk over the tree on disk, which skips hidden files. */
  method DiskTreeHash(files: seq<File>, ghost t: Tree) returns (d: Digest)
    requires IsListing(files, t)
    ensures d == TreeDigest(Visible(t))
  {
    var h := "";
    for i := 0 to |files|
      invariant h == Preimage(VisibleFiles(files[..i]))
    {
      VisibleSnoc(files[..i], files[i]);
      assert files[..i + 1] == files[..i] + [files[i]];
      var hidden := IsHidden(files[i].path);
      if hidden {
        continue;
      }
      PreimageSnoc(VisibleFiles(files[..i]), files[i]);
      h := h + (files[i].path + "\n" + Decimal(|files[i].data|) + "\n" + files[i].data + "\n");
    }
    assert files[..|files|] == files;
    VisibleListing(files, t);
    d := Sha(h);
  }
}
