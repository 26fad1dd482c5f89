/** The upgrade policy of one bundled skill's directory, under arbitrary user edits and
    file-system failures. */
module BundledSkills {
  import opened Options
  import opened Sorting
  import opened TreeHash

  /** The recorded hash file: missing, holding a digest, or cut short by a failed write. */
  datatype Sidecar = Absent | Holds(digest: Digest) | Torn

  /** A skill's directory: its files, and apart from them the sidecar. */
  datatype Dir = Dir(tree: Tree, sidecar: Sidecar)

  datatype Decision = Fresh | UpToDate | Overwrite | AdoptSidecar | UserModified

  /** A copy that stops at one file, which may be left with part of its data. */
  datatype Crash = Crash(at: nat, partial: Option<string>)

  /** What a failed removal leaves behind. */
  datatype Remains = Remains(files: set<string>, sidecar: bool)

  /** What the file system does during one install; a failed sidecar write leaves the old
      file or a torn one. */
  datatype Faults = Faults(diskRead: bool, sidecarRead: bool, wipe: Option<Remains>,
                           copy: Option<Crash>, sidecarWrite: Option<bool>)

  const NO_FAULTS := Faults(false, false, None, None, None)
  const SKILL_FILE := "SKILL.md"

  // ----- the decision -----

  function SidecarSeen(sidecar: Sidecar, f: Faults): Sidecar {
    if f.sidecarRead then Absent else sidecar
  }

  /** The decision, given the digests of the visible files on disk and of the bundle. */
  function Verdict(hasSkill: bool, disk: Digest, sidecar: Sidecar, bundle: Digest, f: Faults): Decision {
    if !hasSkill then Fresh
    else if f.diskRead then UserModified
    else
      match SidecarSeen(sidecar, f)
      case Absent => if disk == bundle then AdoptSidecar else UserModified
      case Torn => UserModified
      case Holds(recorded) =>
        if disk != recorded then UserModified
        else if recorded == bundle then UpToDate
        else Overwrite
  }

  ghost function Decided(d: Dir, bundle: Tree, f: Faults): Decision {
    Verdict(SKILL_FILE in d.tree, TreeDigest(Visible(d.tree)), d.sidecar, TreeDigest(bundle), f)
  }

  // ----- writing -----

  function PutAll(t: Tree, files: seq<File>): Tree {
    if files == [] then t
    else
      var last := files[|files| - 1];
      PutAll(t, files[..|files| - 1])[last.path := last.data]
  }

  function Copied(t: Tree, files: seq<File>, crash: Option<Crash>): Tree {
    if crash.None? || crash.value.at >= |files| then PutAll(t, files)
    else
      var u := PutAll(t, files[..crash.value.at]);
      if crash.value.partial.None? then u else u[files[crash.value.at].path := crash.value.partial.value]
  }

  function SidecarAfter(before: Sidecar, d: Digest, f: Faults): Sidecar {
    match f.sidecarWrite
    case None => Holds(d)
    case Some(torn) => if torn then Torn else before
  }

  function AfterCopy(d: Dir, files: seq<File>, hash: Digest, f: Faults): Dir {
    Dir(Copied(d.tree, files, f.copy), if f.copy.Some? then d.sidecar else SidecarAfter(d.sidecar, hash, f))
  }

  function AfterWipe(d: Dir, wipe: Option<Remains>): Dir {
    match wipe
    case None => Dir(map[], Absent)
    case Some(r) => Dir(map p | p in d.tree && p in r.files :: d.tree[p], if r.sidecar then d.sidecar else Absent)
  }

  /** What a decision does to the directory. */
  function Outcome(decision: Decision, d: Dir, files: seq<File>, hash: Digest, f: Faults): Dir {
    match decision
    case Fresh => AfterCopy(d, files, hash, f)
    case Overwrite =>
      var e := AfterWipe(d, f.wipe);
      if f.wipe.Some? then e else AfterCopy(e, files, hash, f)
    case AdoptSidecar => Dir(d.tree, SidecarAfter(d.sidecar, hash, f))
    case UpToDate => d
    case UserModified => d
  }

  ghost function Installed(d: Dir, bundle: Tree, f: Faults): Dir {
    Outcome(Decided(d, bundle, f), d, Listing(bundle), TreeDigest(bundle), f)
  }

  class SkillDir {
    var tree: Tree
    var sidecar: Sidecar

    ghost function Value(): Dir
      reads this
    {
      Dir(tree, sidecar)
    }

    method DecideBundledInstall(diskFiles: seq<File>, bundleHash: Digest, f: Faults, ghost bundle: Tree)
      returns (decision: Decision)
      requires IsListing(diskFiles, tree) && bundleHash == TreeDigest(bundle)
      ensures decision == Decided(Value(), bundle, f)
    {
      if SKILL_FILE !in tree {
        return Fresh;
      }
      if f.diskRead {
        return UserModified;
      }
      var diskHash := DiskTreeHash(diskFiles, tree);
      if f.sidecarRead || sidecar == Absent {
        if diskHash == bundleHash {
          return AdoptSidecar;
        }
        return UserModified;
      }
      if sidecar != Holds(diskHash) {
        return UserModified;
      }
      if diskHash == bundleHash {
        return UpToDate;
      }
      return Overwrite;
    }

    method CopyEmbedTree(files: seq<File>, crash: Option<Crash>) returns (ok: bool)
      modifies `tree
      ensures tree == Copied(old(tree), files, crash) && ok == crash.None?
    {
      for i := 0 to |files|
        invariant tree == PutAll(old(tree), files[..i])
        invariant crash.Some? ==> i <= crash.value.at
      {
        if crash.Some? && crash.value.at == i {
          if crash.value.partial.Some? {
            tree := tree[files[i].path := crash.value.partial.value];
          }
          return false;
        }
        assert files[..i + 1][..i] == files[..i];
        tree := tree[files[i].path := files[i].data];
      }
      assert files[..|files|] == files;
      ok := crash.None?;
    }

    method WriteBundledHash(hash: Digest, f: Faults)
      modifies `sidecar
      ensures sidecar == SidecarAfter(old(sidecar), hash, f)
    {
      if f.sidecarWrite.None? {
        sidecar := Holds(hash);
      } else if f.sidecarWrite.value {
        sidecar := Torn;
      }
    }

    method RemoveAll(wipe: Option<Remains>) returns (ok: bool)
      modifies this
      ensures Value() == AfterWipe(old(Value()), wipe) && ok == wipe.None?
    {
      if wipe.Some? {
        tree := map p | p in tree && p in wipe.value.files :: tree[p];
        if !wipe.value.sidecar {
          sidecar := Absent;
        }
        return false;
      }
      tree := map[];
      sidecar := Absent;
      ok := true;
    }

    /** One round of the install loop, for this skill. */
    method Install(files: seq<File>, diskFiles: seq<File>, f: Faults, ghost bundle: Tree)
      requires IsListing(files, bundle) && IsListing(diskFiles, tree)
      modifies this
      ensures Value() == Installed(old(Value()), bundle, f)
    {
      ListingIs(bundle);
      ListingUnique(files, Listing(bundle), bundle);
      var bundleHash := EmbedTreeHash(files, bundle);
      var decision := DecideBundledInstall(diskFiles, bundleHash, f, bundle);
      match decision {
        case Fresh =>
          var ok := CopyEmbedTree(files, f.copy);
          if !ok {
            return;
          }
          WriteBundledHash(bundleHash, f);
        case Overwrite =>
          var ok := RemoveAll(f.wipe);
          if !ok {
            return;
          }
          ok := CopyEmbedTree(files, f.copy);
          if !ok {
            return;
          }
          WriteBundledHash(bundleHash, f);
        case AdoptSidecar =>
          WriteBundledHash(bundleHash, f);
        case UpToDate =>
        case UserModified =>
      }
    }
  }

  // ----- runs -----

  /** Between upgrades the user may leave any files behind, but not touch the sidecar. */
  datatype Event = Edit(tree: Tree) | Upgrade(bundle: Tree, faults: Faults)

  /** The directory, and the bundle whose hash was last written to the sidecar. */
  datatype State = State(dir: Dir, recorded: Option<Tree>)

  predicate WritesSidecar(decision: Decision, f: Faults) {
    && f.sidecarWrite.None?
    && (decision.AdoptSidecar? || (f.copy.None? && (decision.Fresh? || (decision.Overwrite? && f.wipe.None?))))
  }

  ghost function Step(s: State, e: Event): State {
    match e
    case Edit(t) => s.(dir := s.dir.(tree := t))
    case Upgrade(bundle, f) =>
      State(Installed(s.dir, bundle, f), if WritesSidecar(Decided(s.dir, bundle, f), f) then Some(bundle) else s.recorded)
  }

  ghost function After(s: State, events: seq<Event>): State {
    if events == [] then s else Step(After(s, events[..|events| - 1]), events[|events| - 1])
  }

  ghost predicate Inv(s: State) {
    s.dir.sidecar.Holds? ==>
      && s.recorded.Some? && OneLineTree(s.recorded.value)
      && s.dir.sidecar.digest == TreeDigest(s.recorded.value)
  }

  ghost predicate OneLineEvent(e: Event) {
    match e
    case Edit(t) => OneLineTree(t)
    case Upgrade(bundle, _) => OneLineTree(bundle)
  }

  lemma {:induction false} SidecarOfOutcome(decision: Decision, d: Dir, files: seq<File>, hash: Digest, f: Faults)
    ensures var e := Outcome(decision, d, files, hash, f);
            if WritesSidecar(decision, f) then e.sidecar == Holds(hash)
            else e.sidecar == d.sidecar || !e.sidecar.Holds?
  {}

  lemma {:induction false} StepKeepsInv(s: State, e: Event)
    requires Inv(s) && OneLineEvent(e)
    ensures Inv(Step(s, e))
  {
    if e.Upgrade? {
      var decision := Decided(s.dir, e.bundle, e.faults);
      SidecarOfOutcome(decision, s.dir, Listing(e.bundle), TreeDigest(e.bundle), e.faults);
    }
  }

  lemma {:induction false} OutcomeKeepsTree(decision: Decision, d: Dir, files: seq<File>, hash: Digest, f: Faults)
    requires !decision.Fresh? && !decision.Overwrite?
    ensures Outcome(decision, d, files, hash, f).tree == d.tree
  {}

  ghost predicate OneLineRun(events: seq<Event>) {
    forall k :: 0 <= k < |events| ==> OneLineEvent(events[k])
  }

  lemma {:induction false} RunKeepsInv(s: State, events: seq<Event>)
    requires Inv(s) && OneLineRun(events)
    ensures Inv(After(s, events))
  {
    if events != [] {
      RunKeepsInv(s, events[..|events| - 1]);
      StepKeepsInv(After(s, events[..|events| - 1]), events[|events| - 1]);
    }
  }

  /** The visible files are exactly those of the bundle that was recorded last. */
  ghost predicate Untouched(s: State) {
    s.recorded.Some? && Visible(s.dir.tree) == s.recorded.value
  }

  lemma {:induction false} VisibleIsOneLine(t: Tree)
    requires OneLineTree(t)
    ensures OneLineTree(Visible(t))
  {}

  /** A skill is wiped for an upgrade exactly when its visible files are those of the bundle
      recorded last, the new bundle is another one, and hashes could be read. */
  lemma {:induction false} OverwriteIff(s: State, bundle: Tree, f: Faults)
    requires Inv(s) && OneLineTree(s.dir.tree) && OneLineTree(bundle)
    ensures Decided(s.dir, bundle, f) == Overwrite <==>
            && SKILL_FILE in s.dir.tree && !f.diskRead && !f.sidecarRead && s.dir.sidecar.Holds?
            && Untouched(s) && s.recorded.value != bundle
  {
    VisibleIsOneLine(s.dir.tree);
    if s.dir.sidecar.Holds? {
      DigestInjective(Visible(s.dir.tree), s.recorded.value);
      DigestInjective(s.recorded.value, bundle);
    }
  }

  /** Over any run of edits, upgrades and failures, a tree that has its skill file and whose
      visible files differ from the last recorded bundle comes through an upgrade unchanged. */
  lemma {:induction false} EditedTreeSurvives(s: State, events: seq<Event>, bundle: Tree, f: Faults)
    requires Inv(s) && OneLineRun(events) && OneLineTree(bundle)
    requires var r := After(s, events); OneLineTree(r.dir.tree) && SKILL_FILE in r.dir.tree && !Untouched(r)
    ensures Step(After(s, events), Upgrade(bundle, f)).dir.tree == After(s, events).dir.tree
  {
    var r := After(s, events);
    RunKeepsInv(s, events);
    OverwriteIff(r, bundle, f);
    OutcomeKeepsTree(Decided(r.dir, bundle, f), r.dir, Listing(bundle), TreeDigest(bundle), f);
  }

  /** A directory without a readable sidecar is adopted exactly when its visible files are
      those of the bundle. */
  lemma {:induction false} AdoptIff(d: Dir, bundle: Tree, f: Faults)
    requires OneLineTree(d.tree) && OneLineTree(bundle)
    ensures Decided(d, bundle, f) == AdoptSidecar <==>
            && SKILL_FILE in d.tree && !f.diskRead && (f.sidecarRead || d.sidecar == Absent) && Visible(d.tree) == bundle
    ensures Decided(d, bundle, f) == Fresh <==> SKILL_FILE !in d.tree
  {
    VisibleIsOneLine(d.tree);
    DigestInjective(Visible(d.tree), bundle);
  }

  /** An adopted directory keeps its files and is up to date from then on. */
  lemma {:induction false} AdoptedIsUpToDate(d: Dir, bundle: Tree, f: Faults)
    requires Decided(d, bundle, f) == AdoptSidecar && f.sidecarWrite.None?
    ensures Installed(d, bundle, f).tree == d.tree && Decided(Installed(d, bundle, f), bundle, NO_FAULTS) == UpToDate
  {}

  /** What is up to date or edited is left alone, its sidecar too. */
  lemma {:induction false} LeftAlone(d: Dir, bundle: Tree, f: Faults)
    requires Decided(d, bundle, f) == UpToDate || Decided(d, bundle, f) == UserModified
    ensures Installed(d, bundle, f) == d
  {}

  /** A removal that fails is not followed by a copy: what is left are old files as they were,
      and the old sidecar or none. */
  lemma {:induction false} FailedWipeAddsNothing(d: Dir, bundle: Tree, f: Faults)
    requires Decided(d, bundle, f) == Overwrite && f.wipe.Some?
    ensures var e := Installed(d, bundle, f);
            && (forall p :: p in e.tree ==> p in d.tree && e.tree[p] == d.tree[p])
            && (e.sidecar == d.sidecar || e.sidecar == Absent)
  {}

  // ----- what an upgrade leaves -----

  lemma {:induction false} PutAllLookup(t: Tree, files: seq<File>, p: string)
    requires forall i, j :: 0 <= i < j < |files| ==> files[i].path != files[j].path
    ensures p in PutAll(t, files) <==> p in t || exists k :: 0 <= k < |files| && files[k].path == p
    ensures forall k :: 0 <= k < |files| && files[k].path == p ==> PutAll(t, files)[p] == files[k].data
    ensures p in t && (forall k :: 0 <= k < |files| ==> files[k].path != p) ==> PutAll(t, files)[p] == t[p]
  {
    if files != [] {
      var front := files[..|files| - 1];
      PutAllLookup(t, front, p);
      assert forall k :: 0 <= k < |front| ==> front[k] == files[k];
    }
  }

  lemma {:induction false} ListedPaths(files: seq<File>, t: Tree)
    requires IsListing(files, t)
    ensures forall i, j :: 0 <= i < j < |files| ==> files[i].path != files[j].path
    ensures forall k :: 0 <= k < |files| ==> files[k].path in t && t[files[k].path] == files[k].data
    ensures forall p :: p in t ==> exists k :: 0 <= k < |files| && files[k].path == p
  {
    forall i, j | 0 <= i < j < |files| ensures files[i].path != files[j].path {
      LessAsymmetric(FileKey(files[i]), FileKey(files[j]));
    }
    forall k | 0 <= k < |files| ensures files[k].path in t && t[files[k].path] == files[k].data {
      assert files[k] in files;
    }
    forall p | p in t ensures exists k :: 0 <= k < |files| && files[k].path == p {
      assert File(p, t[p]) in files;
    }
  }

  lemma {:induction false} PutAllMerges(t: Tree, files: seq<File>, bundle: Tree, p: string)
    requires IsListing(files, bundle)
    ensures p in PutAll(t, files) <==> p in t || p in bundle
    ensures p in bundle ==> PutAll(t, files)[p] == bundle[p]
    ensures p in t && p !in bundle ==> PutAll(t, files)[p] == t[p]
  {
    ListedPaths(files, bundle);
    PutAllLookup(t, files, p);
  }

  /** A copy that runs through puts the bundle over what was there. */
  lemma {:induction false} CopyIsMerge(t: Tree, bundle: Tree)
    ensures Copied(t, Listing(bundle), None) == t + bundle
  {
    var files := Listing(bundle);
    ListingIs(bundle);
    var u, m := PutAll(t, files), t + bundle;
    forall p ensures (p in u <==> p in m) && (p in m ==> p in u && u[p] == m[p]) {
      PutAllMerges(t, files, bundle, p);
    }
    assert u == m;
  }

  ghost predicate HiddenFree(t: Tree) { forall p :: p in t ==> !Hidden(p) }

  /** No visible file lies in the directory that the bundle does not replace. */
  ghost predicate NoLeftovers(t: Tree, bundle: Tree) {
    forall p :: p in t ==> Hidden(p) || p in bundle
  }

  lemma {:induction false} VisibleMergeIff(t: Tree, bundle: Tree)
    ensures Visible(t + bundle) == bundle <==> HiddenFree(bundle) && NoLeftovers(t, bundle)
  {
    var v := Visible(t + bundle);
    if v == bundle {
      forall p | p in bundle ensures !Hidden(p) { assert p in v; }
      forall p | p in t ensures Hidden(p) || p in bundle {
        if !Hidden(p) { assert p in v; }
      }
    }
  }

  /** What a clean install lays the bundle over: the directory as found, or nothing. */
  ghost function Base(d: Dir, bundle: Tree, f: Faults): Tree {
    if Decided(d, bundle, f).Fresh? then d.tree else map[]
  }

  ghost predicate Clean(f: Faults) { f.wipe.None? && f.copy.None? && f.sidecarWrite.None? }

  lemma {:induction false} BaseIs(d: Dir, bundle: Tree, f: Faults)
    requires OneLineTree(d.tree)
    ensures OneLineTree(Base(d, bundle, f)) && SKILL_FILE !in Base(d, bundle, f)
  {
    FreshIff(SKILL_FILE in d.tree, TreeDigest(Visible(d.tree)), d.sidecar, TreeDigest(bundle), f);
  }

  lemma {:induction false} FreshIff(hasSkill: bool, disk: Digest, sidecar: Sidecar, bundle: Digest, f: Faults)
    ensures Verdict(hasSkill, disk, sidecar, bundle, f).Fresh? <==> !hasSkill
  {}

  lemma {:induction false} CleanInstall(d: Dir, bundle: Tree, f: Faults)
    requires Clean(f) && (Decided(d, bundle, f).Fresh? || Decided(d, bundle, f).Overwrite?)
    ensures Installed(d, bundle, f) == Dir(Base(d, bundle, f) + bundle, Holds(TreeDigest(bundle)))
  {
    CleanOutcome(Decided(d, bundle, f), d, Listing(bundle), TreeDigest(bundle), f);
    CopyIsMerge(Base(d, bundle, f), bundle);
  }

  /** In any directory: a skill counts as up to date exactly when its visible files are the
      bundle's and its sidecar says so, hence never with a bundle that has a hidden file. */
  lemma {:induction false} UpToDateIsBundle(d: Dir, bundle: Tree, f: Faults)
    requires OneLineTree(d.tree) && OneLineTree(bundle)
    ensures Decided(d, bundle, f) == UpToDate <==>
            && SKILL_FILE in d.tree && !f.diskRead && !f.sidecarRead
            && d.sidecar == Holds(TreeDigest(bundle)) && Visible(d.tree) == bundle
    ensures Decided(d, bundle, f) == UpToDate ==> HiddenFree(bundle)
  {
    VisibleIsOneLine(d.tree);
    DigestInjective(Visible(d.tree), bundle);
    if Visible(d.tree) == bundle {
      forall p | p in bundle ensures !Hidden(p) { assert p in Visible(d.tree); }
    }
  }

  /** After an install or upgrade without failures the skill is up to date exactly when the
      bundle has its skill file and no hidden files, and a first install found no visible
      leftovers. */
  lemma {:induction false} UpToDateAfterIff(d: Dir, bundle: Tree, f: Faults)
    requires OneLineTree(d.tree) && OneLineTree(bundle) && Clean(f)
    requires Decided(d, bundle, f).Fresh? || Decided(d, bundle, f).Overwrite?
    ensures Decided(Installed(d, bundle, f), bundle, NO_FAULTS) == UpToDate <==>
            SKILL_FILE in bundle && HiddenFree(bundle) && NoLeftovers(Base(d, bundle, f), bundle)
  {
    CleanInstall(d, bundle, f);
    BaseIs(d, bundle, f);
    NextAfterClean(Base(d, bundle, f), bundle);
  }

  lemma {:induction false} CleanOutcome(decision: Decision, d: Dir, files: seq<File>, hash: Digest, f: Faults)
    requires Clean(f) && (decision.Fresh? || decision.Overwrite?)
    ensures var before := if decision.Fresh? then d.tree else map[];
            Outcome(decision, d, files, hash, f) == Dir(Copied(before, files, None), Holds(hash))
  {}

  lemma {:induction false} UpToDateIff(hasSkill: bool, disk: Digest, bundle: Digest)
    ensures Verdict(hasSkill, disk, Holds(bundle), bundle, NO_FAULTS) == UpToDate <==> hasSkill && disk == bundle
  {}

  lemma {:induction false} NextAfterClean(before: Tree, bundle: Tree)
    requires OneLineTree(before) && OneLineTree(bundle) && (SKILL_FILE in before ==> SKILL_FILE in bundle)
    ensures Decided(Dir(before + bundle, Holds(TreeDigest(bundle))), bundle, NO_FAULTS) == UpToDate <==>
            SKILL_FILE in bundle && HiddenFree(bundle) && NoLeftovers(before, bundle)
  {
    MergedDigest(before, bundle);
    UpToDateIff(SKILL_FILE in before + bundle, TreeDigest(Visible(before + bundle)), TreeDigest(bundle));
  }

  lemma {:induction false} MergedDigest(before: Tree, bundle: Tree)
    requires OneLineTree(before) && OneLineTree(bundle)
    ensures TreeDigest(Visible(before + bundle)) == TreeDigest(bundle) <==>
            HiddenFree(bundle) && NoLeftovers(before, bundle)
  {
    var t := before + bundle;
    VisibleMergeIff(before, bundle);
    assert OneLineTree(t);
    VisibleIsOneLine(t);
    DigestInjective(Visible(t), bundle);
  }

  /** Upgrading an untouched skill to a bundle without hidden files gives that bundle. */
  lemma {:induction false} UntouchedConverges(s: State, bundle: Tree)
    requires Inv(s) && OneLineTree(s.dir.tree) && OneLineTree(bundle) && s.dir.sidecar.Holds?
    requires SKILL_FILE in s.dir.tree && Untouched(s)
    requires SKILL_FILE in bundle && HiddenFree(bundle)
    ensures var e := Installed(s.dir, bundle, NO_FAULTS);
            Visible(e.tree) == bundle && Decided(e, bundle, NO_FAULTS) == UpToDate
  {
    OverwriteIff(s, bundle, NO_FAULTS);
    VisibleIsOneLine(s.dir.tree);
    if s.recorded.value == bundle {
      DigestInjective(Visible(s.dir.tree), bundle);
    } else {
      CleanInstall(s.dir, bundle, NO_FAULTS);
      UpToDateAfterIff(s.dir, bundle, NO_FAULTS);
      VisibleMergeIff(map[], bundle);
    }
  }

  ghost predicate Repeats(events: seq<Event>, bundle: Tree) {
    forall k :: 0 <= k < |events| ==> events[k].Upgrade? && events[k].bundle == bundle
  }

  ghost predicate Converged(d: Dir, bundle: Tree) {
    SKILL_FILE in d.tree && Visible(d.tree) == bundle && (d.sidecar == Holds(TreeDigest(bundle)) || d.sidecar == Torn)
  }

  lemma {:induction false} ConvergedStep(d: Dir, bundle: Tree, f: Faults)
    requires Converged(d, bundle)
    ensures Converged(Installed(d, bundle, f), bundle) && Installed(d, bundle, f).tree == d.tree
  {
    ConvergedOutcome(d, Listing(bundle), TreeDigest(bundle), f);
  }

  lemma {:induction false} ConvergedOutcome(d: Dir, files: seq<File>, hash: Digest, f: Faults)
    requires d.sidecar == Holds(hash) || d.sidecar == Torn
    ensures var e := Outcome(Verdict(true, hash, d.sidecar, hash, f), d, files, hash, f);
            e.tree == d.tree && (e.sidecar == Holds(hash) || e.sidecar == Torn)
  {}

  /** Once a skill's visible files are the bundle's, starting with that bundle again never
      changes a file, whatever fails. */
  lemma {:induction false} ConvergedStays(s: State, events: seq<Event>, bundle: Tree)
    requires Converged(s.dir, bundle) && Repeats(events, bundle)
    ensures Converged(After(s, events).dir, bundle) && After(s, events).dir.tree == s.dir.tree
  {
    if events != [] {
      var before := events[..|events| - 1];
      ConvergedStays(s, before, bundle);
      ConvergedStep(After(s, before).dir, bundle, events[|events| - 1].faults);
    }
  }

  /** Hidden files that the user added do not count as an edit, and an upgrade drops them. */
  lemma {:induction false} HiddenEditIsLost(s: State, bundle: Tree, p: string)
    requires Inv(s) && OneLineTree(s.dir.tree) && OneLineTree(bundle) && s.dir.sidecar.Holds?
    requires SKILL_FILE in s.dir.tree && Untouched(s) && s.recorded.value != bundle
    requires p in s.dir.tree && Hidden(p) && p !in bundle
    ensures p !in Installed(s.dir, bundle, NO_FAULTS).tree
  {
    OverwriteIff(s, bundle, NO_FAULTS);
    CleanInstall(s.dir, bundle, NO_FAULTS);
  }

  // ----- an upgrade that breaks off -----

  /** A file with this path was begun: it stands before the break, or at it with some data. */
  ghost predicate Reached(files: seq<File>, c: Crash, p: string) {
    exists k :: 0 <= k < |files| && files[k].path == p && (k < c.at || (k == c.at && c.partial.Some?))
  }

  /** Every file was written whole, the last one perhaps just before the break. */
  predicate WrittenWhole(files: seq<File>, c: Crash) {
    c.at >= |files| || (c.at == |files| - 1 && c.partial == Some(files[c.at].data))
  }

  lemma {:induction false} CopiedHas(files: seq<File>, bundle: Tree, c: Crash, p: string)
    requires IsListing(files, bundle)
    ensures p in Copied(map[], files, Some(c)) <==> Reached(files, c, p)
    ensures Reached(files, c, p) ==> p in bundle
  {
    ListedPaths(files, bundle);
    var n := if c.at < |files| then c.at else |files|;
    assert files[..|files|] == files;
    PutAllLookup(map[], files[..n], p);
    assert forall k :: 0 <= k < n ==> files[..n][k] == files[k];
  }

  lemma {:induction false} CopiedWholeIff(files: seq<File>, bundle: Tree, c: Crash)
    requires IsListing(files, bundle)
    ensures Copied(map[], files, Some(c)) == bundle <==> WrittenWhole(files, c)
  {
    var t := Copied(map[], files, Some(c));
    ListedPaths(files, bundle);
    if WrittenWhole(files, c) {
      assert t == PutAll(map[], files);
      forall p ensures (p in t <==> p in bundle) && (p in bundle ==> p in t && t[p] == bundle[p]) {
        PutAllMerges(map[], files, bundle, p);
      }
    } else {
      var last := |files| - 1;
      CopiedHas(files, bundle, c, files[last].path);
    }
  }

  lemma {:induction false} VisibleBrokenIff(files: seq<File>, bundle: Tree, c: Crash)
    requires IsListing(files, bundle)
    ensures Visible(Copied(map[], files, Some(c))) == bundle <==> HiddenFree(bundle) && WrittenWhole(files, c)
  {
    var t := Copied(map[], files, Some(c));
    CopiedWholeIff(files, bundle, c);
    forall p ensures p in t ==> p in bundle { CopiedHas(files, bundle, c, p); }
    if Visible(t) == bundle {
      forall p | p in bundle ensures !Hidden(p) && t[p] == bundle[p] { assert p in Visible(t); }
      assert t == bundle;
    }
    if HiddenFree(bundle) && t == bundle { assert Visible(t) == bundle; }
  }

  lemma {:induction false} BrokenTree(d: Dir, bundle: Tree, f: Faults)
    requires f.wipe.None? && f.copy.Some? && Decided(d, bundle, f).Overwrite?
    ensures Installed(d, bundle, f) == Dir(Copied(map[], Listing(bundle), f.copy), Absent)
  {}

  /** An upgrade whose copy breaks off leaves no sidecar. At the next start the skill is
      installed afresh exactly when its skill file was not reached, adopted exactly when it
      was and every file had been written whole, and taken for a user edit otherwise. */
  lemma {:induction false} BrokenUpgradeNext(d: Dir, bundle: Tree, f: Faults)
    requires OneLineTree(bundle) && f.wipe.None? && f.copy.Some? && Decided(d, bundle, f).Overwrite?
    ensures Decided(Installed(d, bundle, f), bundle, NO_FAULTS) ==
            if !Reached(Listing(bundle), f.copy.value, SKILL_FILE) then Fresh
            else if HiddenFree(bundle) && WrittenWhole(Listing(bundle), f.copy.value) then AdoptSidecar
            else UserModified
  {
    var files, c := Listing(bundle), f.copy.value;
    var t := Copied(map[], files, Some(c));
    ListingIs(bundle);
    BrokenTree(d, bundle, f);
    forall p ensures p in t <==> Reached(files, c, p) { CopiedHas(files, bundle, c, p); }
    VisibleBrokenIff(files, bundle, c);
    BrokenIsOneLine(files, bundle, c);
    VisibleIsOneLine(t);
    DigestInjective(Visible(t), bundle);
  }

  lemma {:induction false} BrokenIsOneLine(files: seq<File>, bundle: Tree, c: Crash)
    requires IsListing(files, bundle) && OneLineTree(bundle)
    ensures OneLineTree(Copied(map[], files, Some(c)))
  {
    forall p | p in Copied(map[], files, Some(c)) ensures p in bundle { CopiedHas(files, bundle, c, p); }
  }

  lemma {:induction false} SkippedStep(d: Dir, bundle: Tree, f: Faults)
    requires OneLineTree(d.tree) && OneLineTree(bundle) && SKILL_FILE in d.tree
    requires d.sidecar == Absent && bundle != Visible(d.tree)
    ensures Decided(d, bundle, f) == UserModified
  {
    VisibleIsOneLine(d.tree);
    DigestInjective(Visible(d.tree), bundle);
  }

  /** Without a sidecar a skill that differs from every shipped bundle is never upgraded again. */
  lemma {:induction false} NeverUpgradedAgain(s: State, events: seq<Event>)
    requires OneLineTree(s.dir.tree) && SKILL_FILE in s.dir.tree && s.dir.sidecar == Absent && OneLineRun(events)
    requires forall k :: 0 <= k < |events| ==> events[k].Upgrade? && events[k].bundle != Visible(s.dir.tree)
    ensures After(s, events) == s
  {
    if events != [] {
      var last := events[|events| - 1];
      NeverUpgradedAgain(s, events[..|events| - 1]);
      assert OneLineEvent(last);
      SkippedStep(s.dir, last.bundle, last.faults);
    }
  }
}
