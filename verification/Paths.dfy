/** POSIX lexical path cleaning (filepath.Clean, filepath.Join) as a stack machine over
    segments, and the containment test of the authorization gate. */
module Paths {
  import opened Options
  import opened Text

  /** One segment of the walk: "" and "." stay, ".." pops where it can, names push. */
  function Enter(rooted: bool, stack: seq<string>, s: string): seq<string> {
    if s == "" || s == "." then stack
    else if s != ".." then stack + [s]
    else if stack != [] && stack[|stack| - 1] != ".." then stack[..|stack| - 1]
    else if rooted then stack
    else stack + [".."]
  }

  function Walk(rooted: bool, stack: seq<string>, segments: seq<string>): seq<string>
    decreases |segments|
  {
    if segments == [] then stack else Walk(rooted, Enter(rooted, stack, segments[0]), segments[1..])
  }

  predicate IsAbs(path: string) {
    path != "" && path[0] == '/'
  }

  function Clean(path: string): string {
    var stack := Walk(IsAbs(path), [], Split(path, "/"));
    if IsAbs(path) then "/" + Join(stack, "/")
    else if stack == [] then "." else Join(stack, "/")
  }

  /** filepath.Join of two elements; empty ones are ignored. */
  function JoinPath(a: string, b: string): string {
    if a != "" then Clean(a + "/" + b) else if b != "" then Clean(b) else ""
  }

  /** The directory that an absolute path names, as segments from the root. */
  function Stack(path: string): seq<string> {
    Walk(true, [], Split(path, "/"))
  }

  /** isUnder of authgate.go: equal after cleaning, or with the root and a slash in front. */
  predicate IsUnder(path: string, root: string) {
    var p, r := Clean(path), Clean(root);
    p == r || r + "/" <= p
  }

  // ----- stacks of absolute paths -----

  ghost predicate Name(s: string) {
    s != "" && s != "." && s != ".." && !Contains(s, "/")
  }

  ghost predicate Names(stack: seq<string>) {
    forall i :: 0 <= i < |stack| ==> Name(stack[i])
  }

  lemma {:induction false} WalkConcat(rooted: bool, stack: seq<string>, a: seq<string>, b: seq<string>)
    ensures Walk(rooted, stack, a + b) == Walk(rooted, Walk(rooted, stack, a), b)
    decreases |a|
  {
    if a == [] {
      assert a + b == b;
    } else {
      assert (a + b)[1..] == a[1..] + b;
      WalkConcat(rooted, Enter(rooted, stack, a[0]), a[1..], b);
    }
  }

  lemma {:induction false} WalkKeepsNames(stack: seq<string>, segments: seq<string>)
    requires Names(stack) && forall i :: 0 <= i < |segments| ==> !Contains(segments[i], "/")
    ensures Names(Walk(true, stack, segments))
    decreases |segments|
  {
    if segments != [] { WalkKeepsNames(Enter(true, stack, segments[0]), segments[1..]); }
  }

  lemma {:induction false} WalkNames(stack: seq<string>, names: seq<string>)
    requires Names(names)
    ensures Walk(true, stack, names) == stack + names
    decreases |names|
  {
    if names == [] {
      assert stack + names == stack;
    } else {
      assert Name(names[0]);
      WalkNames(stack + [names[0]], names[1..]);
      assert stack + [names[0]] + names[1..] == stack + names;
    }
  }

  lemma {:induction false} SlashIsBorderFree()
    ensures BorderFree("/")
  {}

  lemma {:induction false} SplitSlashFree(s: string)
    ensures forall i :: 0 <= i < |Split(s, "/")| ==> !Contains(Split(s, "/")[i], "/")
  {
    SlashIsBorderFree();
    SplitPartsAreFree(s, "/");
  }

  lemma {:induction false} StackIsNames(path: string)
    ensures Names(Stack(path))
  {
    SplitSlashFree(path);
    WalkKeepsNames([], Split(path, "/"));
  }

  /** Appending a path after a slash goes on from where the first one ended. */
  lemma {:induction false} StackOfJoined(a: string, b: string)
    ensures Stack(a + "/" + b) == Walk(true, Stack(a), Split(b, "/"))
  {
    SlashIsBorderFree();
    SplitConcat(a, "/", b);
    WalkConcat(true, [], Split(a, "/"), Split(b, "/"));
  }

  lemma {:induction false} SplitJoinedNames(names: seq<string>)
    requires Names(names) && names != []
    ensures Split(Join(names, "/"), "/") == names
  {
    SlashIsBorderFree();
    forall i | 0 <= i < |names| ensures !Contains(names[i], "/") { assert Name(names[i]); }
    SplitOfJoined(names, "/");
  }

  /** Printing a stack as an absolute path and walking it again. */
  lemma {:induction false} SplitPrinted(names: seq<string>)
    requires Names(names)
    ensures Split("/" + Join(names, "/"), "/") == [""] + if names == [] then [""] else names
  {
    var s := "/" + Join(names, "/");
    assert "/" <= s && s[1..] == Join(names, "/");
    if names != [] { SplitJoinedNames(names); }
  }

  lemma {:induction false} WalkPrinted(stack: seq<string>, names: seq<string>)
    requires Names(names)
    ensures Walk(true, stack, Split("/" + Join(names, "/"), "/")) == stack + names
  {
    SplitPrinted(names);
    var tail := if names == [] then [""] else names;
    assert ([""] + tail)[1..] == tail;
    assert Walk(true, stack, [""] + tail) == Walk(true, stack, tail);
    if names == [] {
      assert Walk(true, stack, [""]) == Walk(true, stack, []);
      assert stack + names == stack;
    } else {
      WalkNames(stack, names);
    }
  }

  /** Clean keeps the directory, and prints it without detours. */
  lemma {:induction false} CleanKeepsStack(path: string)
    requires IsAbs(path)
    ensures IsAbs(Clean(path)) && Stack(Clean(path)) == Stack(path)
    ensures Clean(path) == "/" + Join(Stack(path), "/")
  {
    StackIsNames(path);
    WalkPrinted([], Stack(path));
    assert [] + Stack(path) == Stack(path);
  }

  /** Two absolute paths clean to the same text exactly when they name the same directory. */
  lemma {:induction false} CleanEqualIff(p: string, q: string)
    requires IsAbs(p) && IsAbs(q)
    ensures Clean(p) == Clean(q) <==> Stack(p) == Stack(q)
  {
    CleanKeepsStack(p);
    CleanKeepsStack(q);
  }

  lemma {:induction false} JoinKeepsStack(a: string, b: string)
    requires IsAbs(a)
    ensures IsAbs(JoinPath(a, b)) && Stack(JoinPath(a, b)) == Walk(true, Stack(a), Split(b, "/"))
  {
    StackOfJoined(a, b);
    assert (a + "/" + b)[0] == a[0];
    CleanKeepsStack(a + "/" + b);
  }

  /** What the directories are: the root is empty, a name leads into one below, ".." out of it,
      and "." and nothing at all stay. Every absolute path is built this way. */
  lemma {:induction false} StackOfNext(path: string, s: string)
    requires IsAbs(path) && !Contains(s, "/")
    ensures var d, e := Stack(path), Stack(path + "/" + s);
            && (Name(s) ==> e == d + [s])
            && (s == ".." ==> e == if d == [] then [] else d[..|d| - 1])
            && (s == "." || s == "" ==> e == d)
    ensures Stack("/") == []
  {
    StackOfJoined(path, s);
    SplitFree(s, "/");
    StackIsNames(path);
    var d := Stack(path);
    assert Walk(true, d, [s]) == Walk(true, Enter(true, d, s), []) == Enter(true, d, s);
    if d != [] { assert Name(d[|d| - 1]); }
    RootIsEmpty();
  }

  lemma {:induction false} RootIsEmpty()
    ensures Stack("/") == []
  {
    assert "/"[1..] == "" && Split("", "/") == [""];
    assert Split("/", "/") == [""] + [""];
    assert ([""] + [""])[1..] == [""];
    assert Walk(true, [], ["", ""]) == Walk(true, [], [""]) == Walk(true, [], []);
  }

  // ----- containment -----

  lemma {:induction false} JoinTwo(a: seq<string>, b: seq<string>)
    requires a != [] && b != []
    ensures Join(a + b, "/") == Join(a, "/") + "/" + Join(b, "/")
  {
    if |a| == 1 {
      assert (a + b)[1..] == b;
    } else {
      assert (a + b)[1..] == a[1..] + b;
      JoinTwo(a[1..], b);
      assert a[0] + "/" + (Join(a[1..], "/") + "/" + Join(b, "/")) == a[0] + "/" + Join(a[1..], "/") + "/" + Join(b, "/");
    }
  }

  lemma {:induction false} PrefixGivesStackPrefix(p: string, r: string)
    requires IsAbs(p) && IsAbs(r) && Stack(r) != [] && Clean(r) + "/" <= Clean(p)
    ensures Stack(r) <= Stack(p)
  {
    CleanKeepsStack(p);
    CleanKeepsStack(r);
    StackIsNames(p);
    StackIsNames(r);
    var rest := Clean(p)[|Clean(r)| + 1..];
    assert Clean(p) == Clean(r) + "/" + rest;
    SlashIsBorderFree();
    SplitConcat(Clean(r), "/", rest);
    SplitPrinted(Stack(p));
    SplitPrinted(Stack(r));
    CancelHead(Stack(p), Stack(r), Split(rest, "/"));
  }

  lemma {:induction false} CancelHead(p: seq<string>, r: seq<string>, rest: seq<string>)
    requires r != [] && Names(r)
    requires [""] + (if p == [] then [""] else p) == [""] + r + rest
    ensures r <= p
  {
    var q := if p == [] then [""] else p;
    assert q == ([""] + q)[1..] == ([""] + r + rest)[1..] == r + rest;
    assert Name(r[0]) && q[0] == r[0];
  }

  lemma {:induction false} StackPrefixGivesPrefix(p: string, r: string)
    requires IsAbs(p) && IsAbs(r) && Stack(r) != [] && Stack(r) < Stack(p)
    ensures Clean(r) + "/" <= Clean(p)
  {
    CleanKeepsStack(p);
    CleanKeepsStack(r);
    var P, R := Stack(p), Stack(r);
    assert P == R + P[|R|..];
    JoinTwo(R, P[|R|..]);
    assert Clean(p) == Clean(r) + "/" + Join(P[|R|..], "/");
  }

  /** The textual test is containment of directories, except below "/" itself, which
      contains nothing but itself. */
  lemma {:induction false} IsUnderIff(path: string, root: string)
    requires IsAbs(path) && IsAbs(root)
    ensures IsUnder(path, root) <==> if Stack(root) == [] then Stack(path) == [] else Stack(root) <= Stack(path)
  {
    CleanEqualIff(path, root);
    CleanKeepsStack(path);
    CleanKeepsStack(root);
    if Stack(root) == [] {
      assert Clean(root) == "/";
      StackIsNames(path);
      if Stack(path) != [] { NoDoubleSlash(Stack(path)); }
    } else {
      if Clean(root) + "/" <= Clean(path) { PrefixGivesStackPrefix(path, root); }
      if Stack(root) < Stack(path) { StackPrefixGivesPrefix(path, root); }
    }
  }

  lemma {:induction false} NoDoubleSlash(names: seq<string>)
    requires Names(names) && names != []
    ensures !("//" <= "/" + Join(names, "/"))
  {
    assert Name(names[0]);
    assert names[0] <= Join(names, "/");
    assert ("/" + Join(names, "/"))[1] == names[0][0];
  }

  /** isUnder is a partial order on absolute paths, up to cleaning. */
  lemma {:induction false} IsUnderIsPartialOrder(a: string, b: string, c: string)
    requires IsAbs(a) && IsAbs(b) && IsAbs(c)
    ensures IsUnder(a, a)
    ensures IsUnder(a, b) && IsUnder(b, a) ==> Clean(a) == Clean(b)
    ensures IsUnder(a, b) && IsUnder(b, c) ==> IsUnder(a, c)
  {
    IsUnderIff(a, b);
    IsUnderIff(b, a);
    IsUnderIff(b, c);
    IsUnderIff(a, c);
    CleanEqualIff(a, b);
  }

  // ----- the paths the gate builds -----

  /** The prefix that reload builds for one allowWrite entry. */
  function PolicyPrefix(agentRoot: string, rel: string): string {
    JoinPath(agentRoot, Clean("/" + rel))
  }

  /** No entry, however many ".." it holds, leaves the agent root: it lands exactly
      where the entry, read from "/", leads below the root. */
  lemma {:induction false} PolicyPrefixStaysInside(agentRoot: string, rel: string)
    requires IsAbs(agentRoot)
    ensures IsAbs(PolicyPrefix(agentRoot, rel))
    ensures Stack(PolicyPrefix(agentRoot, rel)) == Stack(agentRoot) + Stack("/" + rel)
    ensures IsUnder(PolicyPrefix(agentRoot, rel), agentRoot) <==> Stack(agentRoot) != [] || Stack("/" + rel) == []
  {
    var c := Clean("/" + rel);
    CleanKeepsStack("/" + rel);
    StackIsNames("/" + rel);
    JoinKeepsStack(agentRoot, c);
    WalkPrinted(Stack(agentRoot), Stack("/" + rel));
    IsUnderIff(PolicyPrefix(agentRoot, rel), agentRoot);
  }

  /** resolveAgainst of authgate.go; home is None when it cannot be determined. */
  function ResolveAgainst(base: string, path: string, home: Option<string>): string {
    if path == "" then base
    else
      var p := if path[0] == '~' && home.Some? then JoinPath(home.value, path[1..]) else path;
      if IsAbs(p) then Clean(p) else Clean(JoinPath(base, p))
  }

  /** Where the walk ends that starts in the base directory, in the home directory for a
      leading "~", or at "/" for an absolute path. */
  function Destination(base: string, path: string, home: Option<string>): seq<string> {
    if path != "" && path[0] == '~' && home.Some? then Walk(true, Stack(home.value), Split(path[1..], "/"))
    else if IsAbs(path) then Stack(path)
    else Walk(true, Stack(base), Split(path, "/"))
  }

  lemma {:induction false} ResolvesToDestination(base: string, path: string, home: Option<string>)
    requires IsAbs(base) && (home.Some? ==> IsAbs(home.value))
    ensures IsAbs(ResolveAgainst(base, path, home))
    ensures Stack(ResolveAgainst(base, path, home)) == Destination(base, path, home)
  {
    if path == "" {
      assert Split("", "/") == [""];
      assert Walk(true, Stack(base), [""]) == Walk(true, Stack(base), []);
    } else if path[0] == '~' && home.Some? {
      JoinKeepsStack(home.value, path[1..]);
      CleanKeepsStack(JoinPath(home.value, path[1..]));
    } else if IsAbs(path) {
      CleanKeepsStack(path);
    } else {
      JoinKeepsStack(base, path);
      CleanKeepsStack(JoinPath(base, path));
    }
  }

  /** In terms of texts: a path behind a tilde goes on from the home directory, an absolute one
      stands for itself, and any other goes on from the base. */
  lemma {:induction false} DestinationIs(base: string, path: string, home: Option<string>)
    requires path != "" && IsAbs(base) && (home.Some? ==> IsAbs(home.value))
    ensures Stack(ResolveAgainst(base, path, home)) ==
            if path[0] == '~' && home.Some? then Stack(home.value + "/" + path[1..])
            else if path[0] == '/' then Stack(path)
            else Stack(base + "/" + path)
  {
    ResolvesToDestination(base, path, home);
    if home.Some? { StackOfJoined(home.value, path[1..]); }
    StackOfJoined(base, path);
  }
}
