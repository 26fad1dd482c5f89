/** The authorization gate: what a tool call is allowed to do under a mode, given the
    workspace, the agent's allowlist and the sandbox. Command classification is an
    arbitrary function of the command; arguments are the strings extracted from the JSON
    blob, empty when they are missing or malformed. */
module AuthGate {
  import opened Options
  import opened Paths
  import opened SessionState
  import opened Conversation

  datatype Tier = Safe | Dangerous | Hardline

  datatype Action = Allow | Block | Prompt

  /** A call as the gate sees it. */
  datatype Request = Request(tool: string, command: string, path: string)

  const FILE_WRITE_TOOLS := {"write_file", "create_file", "str_replace", "insert", "apply_patch", "delete_file",
                             "file_edit", "move_file"}
  const EXEC_TOOLS := {"exec", "host_exec", "bash"}

  datatype Policy = Policy(workspace: string, sandboxed: bool, allowWrite: seq<string>,
                           home: Option<string>, tier: string -> Tier, parse: ToolCall -> Request)

  function ModeGate(mode: Mode): Action {
    match mode
    case Yolo => Allow
    case Auto => Block
    case _ => Prompt
  }

  predicate InsideSome(path: string, roots: seq<string>) {
    roots != [] && (InsideSome(path, roots[..|roots| - 1]) || IsUnder(path, roots[|roots| - 1]))
  }

  /** The verdict, as a function. */
  function Verdict(p: Policy, r: Request, mode: Mode): Action {
    if r.tool in EXEC_TOOLS then
      if r.command != "" && p.tier(r.command).Hardline? then Block
      else if r.command != "" && p.tier(r.command).Dangerous? && !p.sandboxed then ModeGate(mode)
      else if p.sandboxed then Allow
      else ModeGate(mode)
    else if r.tool in FILE_WRITE_TOOLS then WriteVerdict(p, r.path, mode)
    else Allow
  }

  /** File tools: free inside the workspace and the allowlist. */
  function WriteVerdict(p: Policy, path: string, mode: Mode): Action {
    if path == "" then Allow
    else
      var abs := ResolveAgainst(p.workspace, path, p.home);
      if IsUnder(abs, p.workspace) || InsideSome(abs, p.allowWrite) || p.sandboxed then Allow else ModeGate(mode)
  }

  predicate IsHardline(p: Policy, r: Request) {
    r.tool in EXEC_TOOLS && r.command != "" && p.tier(r.command).Hardline?
  }

  /** One prefix per entry, each leading below the root to where the entry leads from "/". */
  ghost predicate LeadTo(prefixes: seq<string>, agentRoot: string, entries: seq<string>) {
    |prefixes| == |entries|
    && forall i :: 0 <= i < |entries| ==> Stack(prefixes[i]) == Stack(agentRoot) + Stack("/" + entries[i])
  }

  lemma {:induction false} LeadToNext(prefixes: seq<string>, agentRoot: string, entries: seq<string>, i: nat, abs: string)
    requires i < |entries| && LeadTo(prefixes, agentRoot, entries[..i])
    requires Stack(abs) == Stack(agentRoot) + Stack("/" + entries[i])
    ensures LeadTo(prefixes + [abs], agentRoot, entries[..i + 1])
  {}

  lemma {:induction false} InsideSomeHas(abs: string, roots: seq<string>, i: nat)
    requires i < |roots| && IsUnder(abs, roots[i])
    ensures InsideSome(abs, roots)
  {
    if i < |roots| - 1 { InsideSomeHas(abs, roots[..|roots| - 1], i); }
  }

  class Gate {
    const agentRoot: string
    const workspace: string
    const home: Option<string>
    const tier: string -> Tier
    const parse: ToolCall -> Request
    var sandboxed: bool
    var allowWrite: seq<string>

    function Current(): Policy
      reads this
    {
      Policy(workspace, sandboxed, allowWrite, home, tier, parse)
    }

    constructor (agentRoot: string, workspace: string, home: Option<string>, tier: string -> Tier,
                 parse: ToolCall -> Request)
      ensures this.agentRoot == agentRoot && this.workspace == workspace && this.home == home
      ensures this.tier == tier && this.parse == parse
      ensures !sandboxed && allowWrite == []
    {
      this.agentRoot, this.workspace, this.home := agentRoot, workspace, home;
      this.tier, this.parse := tier, parse;
      sandboxed, allowWrite := false, [];
    }

    method SetSandboxed(v: bool)
      modifies this`sandboxed
      ensures sandboxed == v
    {
      sandboxed := v;
    }

    /** Rebuilds the allowlist from the policy file's entries; None when the file cannot be
        read or parsed. Every prefix lies under the agent root, whatever the entries say,
        and with a root other than "/" no entry is dropped. */
    method Reload(entries: Option<seq<string>>)
      requires IsAbs(agentRoot)
      modifies this`allowWrite
      ensures forall i :: 0 <= i < |allowWrite| ==> IsAbs(allowWrite[i]) && IsUnder(allowWrite[i], agentRoot)
      ensures entries.None? ==> allowWrite == []
      ensures entries.Some? && Stack(agentRoot) != [] ==> LeadTo(allowWrite, agentRoot, entries.value)
    {
      var prefixes: seq<string> := [];
      if entries.Some? {
        for i := 0 to |entries.value|
          invariant forall k :: 0 <= k < |prefixes| ==> IsAbs(prefixes[k]) && IsUnder(prefixes[k], agentRoot)
          invariant Stack(agentRoot) != [] ==> LeadTo(prefixes, agentRoot, entries.value[..i])
        {
          var abs := PolicyPrefix(agentRoot, entries.value[i]);
          PolicyPrefixStaysInside(agentRoot, entries.value[i]);
          if Stack(agentRoot) != [] { LeadToNext(prefixes, agentRoot, entries.value, i, abs); }
          if IsUnder(abs, agentRoot) {
            prefixes := prefixes + [abs];
          }
        }
        assert entries.value[..|entries.value|] == entries.value;
      }
      allowWrite := prefixes;
    }

    method EvaluateCall(r: Request, mode: Mode) returns (action: Action)
      ensures action == Verdict(Current(), r, mode)
      ensures r.tool in EXEC_TOOLS && !IsHardline(Current(), r) ==>
                && (action == Allow <==> mode == Yolo || sandboxed)
                && (action == Block <==> mode == Auto && !sandboxed)
    {
      if r.tool in EXEC_TOOLS {
        if r.command != "" {
          var t := tier(r.command);
          if t == Hardline {
            return Block;
          } else if t == Dangerous && !sandboxed {
            return ModeGate(mode);
          }
        }
        if sandboxed {
          return Allow;
        }
        return ModeGate(mode);
      }
      if r.tool in FILE_WRITE_TOOLS {
        action := EvaluateWrite(r.path, mode);
        return;
      }
      return Allow;
    }

    method EvaluateWrite(path: string, mode: Mode) returns (action: Action)
      ensures action == WriteVerdict(Current(), path, mode)
    {
      if path == "" {
        return Allow;
      }
      var abs := ResolveAgainst(workspace, path, home);
      if IsUnder(abs, workspace) {
        return Allow;
      }
      var listed := Allowlisted(abs);
      if listed || sandboxed {
        return Allow;
      }
      return ModeGate(mode);
    }

    method Allowlisted(abs: string) returns (listed: bool)
      ensures listed == InsideSome(abs, allowWrite)
    {
      for i := 0 to |allowWrite|
        invariant !InsideSome(abs, allowWrite[..i])
      {
        if IsUnder(abs, allowWrite[i]) {
          InsideSomeHas(abs, allowWrite, i);
          return true;
        }
        assert allowWrite[..i + 1][..i] == allowWrite[..i];
      }
      assert allowWrite[..|allowWrite|] == allowWrite;
      return false;
    }
  }

  // ----- what the verdicts mean -----

  /** The floor: a hardline command is blocked in every mode, sandboxed or not; it is also
      the only thing that yolo mode or a sandbox ever stops. */
  lemma {:induction false} HardlineFloor(p: Policy, r: Request, mode: Mode)
    ensures IsHardline(p, r) ==> Verdict(p, r, mode).Block?
    ensures mode.Yolo? || p.sandboxed ==> (IsHardline(p, r) <==> !Verdict(p, r, mode).Allow?)
    ensures mode.Auto? ==> !Verdict(p, r, mode).Prompt?
    ensures !mode.Auto? && Verdict(p, r, mode).Block? ==> IsHardline(p, r)
  {}

  /** A mode never takes back what a stricter one allows. */
  lemma {:induction false} ModesAreOrdered(p: Policy, r: Request, mode: Mode)
    ensures Verdict(p, r, Auto).Allow? ==> Verdict(p, r, mode).Allow?
    ensures Verdict(p, r, mode).Allow? ==> Verdict(p, r, Yolo).Allow?
  {}

  /** The root contains the place where a path leads; for the textual test of isUnder the
      root "/" contains itself only. */
  ghost predicate Contains(root: string, destination: seq<string>) {
    if Stack(root) == [] then destination == [] else Stack(root) <= destination
  }

  ghost predicate InsideAllowed(p: Policy, d: seq<string>) {
    Contains(p.workspace, d) || ContainedInSome(d, p.allowWrite)
  }

  /** One of the roots contains the directory. */
  ghost predicate ContainedInSome(dir: seq<string>, roots: seq<string>) {
    exists i :: 0 <= i < |roots| && Contains(roots[i], dir)
  }

  /** What needs no authorization: a command in a sandbox, a write in a sandbox or to a place
      inside the workspace or an allowlisted directory, and every other tool. */
  ghost predicate Free(p: Policy, r: Request) {
    && (r.tool in EXEC_TOOLS ==> p.sandboxed)
    && (r.tool in FILE_WRITE_TOOLS ==>
          r.path == "" || p.sandboxed || InsideAllowed(p, Destination(p.workspace, r.path, p.home)))
  }

  ghost predicate AbsolutePaths(p: Policy) {
    && IsAbs(p.workspace) && (p.home.Some? ==> IsAbs(p.home.value))
    && (forall i :: 0 <= i < |p.allowWrite| ==> IsAbs(p.allowWrite[i]))
  }

  lemma {:induction false} ToolKindsDisjoint(tool: string)
    requires tool in FILE_WRITE_TOOLS
    ensures tool !in EXEC_TOOLS
  {}

  /** The whole verdict, for every policy, request and mode: hardline commands are blocked;
      of the rest, what is not free is allowed in yolo mode only, blocked in auto mode, and
      prompted for in any other. */
  lemma {:induction false} VerdictIff(p: Policy, r: Request, mode: Mode)
    requires AbsolutePaths(p)
    ensures Verdict(p, r, mode).Allow? <==> !IsHardline(p, r) && (Free(p, r) || mode.Yolo?)
    ensures Verdict(p, r, mode).Block? <==> IsHardline(p, r) || (!Free(p, r) && mode.Auto?)
    ensures Verdict(p, r, mode).Prompt? <==> !IsHardline(p, r) && !Free(p, r) && (mode.Ask? || mode.Unset?)
  {
    if r.tool in FILE_WRITE_TOOLS {
      ToolKindsDisjoint(r.tool);
      WriteVerdictIff(p, r.path, mode);
    }
  }

  lemma {:induction false} WriteVerdictIff(p: Policy, path: string, mode: Mode)
    requires AbsolutePaths(p)
    ensures var free := path == "" || p.sandboxed || InsideAllowed(p, Destination(p.workspace, path, p.home));
            WriteVerdict(p, path, mode) == if free then Allow else ModeGate(mode)
  {
    var abs := ResolveAgainst(p.workspace, path, p.home);
    ResolvesToDestination(p.workspace, path, p.home);
    IsUnderIff(abs, p.workspace);
    InsideSomeIff(abs, p.allowWrite);
  }

  /** Outside a sandbox, auto mode lets a file tool write exactly to where the walk of its
      path from the workspace ends inside the workspace or an allowlisted directory. */
  lemma {:induction false} AutoWriteAllowedIff(p: Policy, r: Request)
    requires AbsolutePaths(p) && !p.sandboxed && r.tool in FILE_WRITE_TOOLS && r.path != ""
    ensures Verdict(p, r, Auto).Allow? <==> InsideAllowed(p, Destination(p.workspace, r.path, p.home))
  {
    ToolKindsDisjoint(r.tool);
    VerdictIff(p, r, Auto);
  }

  lemma {:induction false} InsideSomeIff(abs: string, roots: seq<string>)
    requires IsAbs(abs) && forall i :: 0 <= i < |roots| ==> IsAbs(roots[i])
    ensures InsideSome(abs, roots) <==> ContainedInSome(Stack(abs), roots)
  {
    if roots != [] {
      InsideSomeIff(abs, roots[..|roots| - 1]);
      IsUnderIff(abs, roots[|roots| - 1]);
      LastRoot(Stack(abs), roots);
    }
  }

  lemma {:induction false} LastRoot(dir: seq<string>, roots: seq<string>)
    requires roots != []
    ensures ContainedInSome(dir, roots) <==>
            ContainedInSome(dir, roots[..|roots| - 1]) || Contains(roots[|roots| - 1], dir)
  {
    var n := |roots| - 1;
    if ContainedInSome(dir, roots) {
      var i :| 0 <= i < |roots| && Contains(roots[i], dir);
      assert i < n ==> roots[..n][i] == roots[i];
    }
    if ContainedInSome(dir, roots[..n]) {
      var i :| 0 <= i < n && Contains(roots[..n][i], dir);
      assert Contains(roots[i], dir);
    }
  }
}

/** The authorization machine of one session over whole runs: batches of calls, /yes, /no,
    mode switches, drains at the start of a turn, and policy changes in between. Every
    call that reaches the gate gets a ticket, so that its history can be followed. */
module Authorization {
  import opened SessionState
  import opened AuthGate
  import opened Conversation
  import opened Selection
  import ToolRound

  datatype Ticket = Ticket(uid: nat, call: ToolCall)

  /** Why an executed call was executed. */
  datatype Reason = AllowedUnder(policy: Policy, mode: Mode) | Approved

  datatype Execution = Execution(ticket: Ticket, reason: Reason)

  /** blessed and refused are the tickets that the user or a mode switch released or
      turned down; parked are all that ever waited. */
  datatype State = State(policy: Policy, mode: Mode, pending: seq<Ticket>, approved: seq<Ticket>,
                         executed: seq<Execution>, parked: set<nat>, blessed: set<nat>, refused: set<nat>, next: nat)

  datatype Event =
    | Batch(calls: seq<ToolCall>)
    | Yes
    | No
    | SetMode(mode: Mode)
    | Drain
    | SetPolicy(workspace: string, sandboxed: bool, allowWrite: seq<string>)

  function CallVerdict(p: Policy, c: ToolCall, mode: Mode): Action {
    Verdict(p, p.parse(c), mode)
  }

  predicate HardlineCall(p: Policy, c: ToolCall) {
    IsHardline(p, p.parse(c))
  }

  function EffectiveMode(mode: Mode): Mode {
    if mode.Unset? then Ask else mode
  }

  function Uids(ts: seq<Ticket>): set<nat> {
    set i | 0 <= i < |ts| :: ts[i].uid
  }

  /** The tickets that the gate would let through now. */
  function Passing(ts: seq<Ticket>, p: Policy, mode: Mode): seq<Ticket> {
    if ts == [] then [] else
      var t := ts[|ts| - 1];
      var front := Passing(ts[..|ts| - 1], p, mode);
      if CallVerdict(p, t.call, mode).Allow? then front + [t] else front
  }

  function AsExecuted(ts: seq<Ticket>, why: Reason): (r: seq<Execution>)
    ensures |r| == |ts| && forall i :: 0 <= i < |ts| ==> r[i] == Execution(ts[i], why)
  {
    seq(|ts|, i requires 0 <= i < |ts| => Execution(ts[i], why))
  }

  function Executing(s: State, t: Ticket, why: Reason): State {
    s.(next := s.next + 1, executed := s.executed + [Execution(t, why)])
  }

  function Parking(s: State, t: Ticket): State {
    s.(next := s.next + 1, pending := s.pending + [t], parked := s.parked + {t.uid})
  }

  /** The gate on one call of a batch: run it, drop it, or park it. */
  function Submit(s: State, c: ToolCall): State {
    var mode := EffectiveMode(s.mode);
    var t := Ticket(s.next, c);
    match CallVerdict(s.policy, c, mode)
    case Allow => Executing(s, t, AllowedUnder(s.policy, mode))
    case Block => s.(next := s.next + 1)
    case Prompt => Parking(s, t)
  }

  function SubmitAll(s: State, cs: seq<ToolCall>): State
    decreases |cs|
  {
    if cs == [] then s else SubmitAll(Submit(s, cs[0]), cs[1..])
  }

  function Next(s: State, e: Event): State {
    match e
    case Batch(cs) => SubmitAll(s, cs)
    case Yes =>
      if s.pending == [] then s
      else s.(pending := [], approved := s.pending, blessed := s.blessed + Uids(s.pending))
    case No => s.(pending := [], refused := s.refused + Uids(s.pending))
    case SetMode(mode) =>
      var ok := Passing(s.pending, s.policy, mode);
      s.(mode := mode, pending := [], approved := if ok == [] then s.approved else ok,
         blessed := s.blessed + Uids(ok), refused := s.refused + (Uids(s.pending) - Uids(ok)))
    case Drain => s.(approved := [], executed := s.executed + AsExecuted(s.approved, Approved))
    case SetPolicy(w, b, a) => s.(policy := s.policy.(workspace := w, sandboxed := b, allowWrite := a))
  }

  function Run(s: State, events: seq<Event>): State
    decreases |events|
  {
    if events == [] then s else Run(Next(s, events[0]), events[1..])
  }

  function Start(p: Policy): State {
    State(p, Unset, [], [], [], {}, {}, {}, 0)
  }

  // ----- the invariant -----

  ghost predicate Distinct(ts: seq<Ticket>) {
    forall i, j :: 0 <= i < j < |ts| ==> ts[i].uid != ts[j].uid
  }

  ghost predicate Apart(a: seq<Ticket>, b: seq<Ticket>) {
    forall t, u :: t in a && u in b ==> t.uid != u.uid
  }

  function Done(es: seq<Execution>): (r: seq<Ticket>)
    ensures |r| == |es| && forall i :: 0 <= i < |es| ==> r[i] == es[i].ticket
  {
    seq(|es|, i requires 0 <= i < |es| => es[i].ticket)
  }

  /** A ticket that waits or is released. */
  ghost predicate Waits(s: State, t: Ticket) {
    t.uid < s.next && !HardlineCall(s.policy, t.call) && t.uid in s.parked && t.uid !in s.refused
  }

  /** An execution is justified by the gate at that moment, or by a later release. */
  ghost predicate Justified(s: State, e: Execution) {
    && e.ticket.uid < s.next && e.ticket.uid !in s.refused && !HardlineCall(s.policy, e.ticket.call)
    && match e.reason
       case AllowedUnder(p, mode) => CallVerdict(p, e.ticket.call, mode).Allow?
       case Approved => e.ticket.uid in s.parked && e.ticket.uid in s.blessed
  }

  /** Every ticket is in one place only, and each place holds what it should. */
  ghost predicate Inv(s: State) {
    && Distinct(s.pending) && Distinct(s.approved) && Distinct(Done(s.executed))
    && Apart(s.pending, s.approved) && Apart(s.pending, Done(s.executed)) && Apart(s.approved, Done(s.executed))
    && (forall t :: t in s.pending ==> Waits(s, t) && t.uid !in s.blessed)
    && (forall t :: t in s.approved ==> Waits(s, t) && t.uid in s.blessed)
    && (forall i :: 0 <= i < |s.executed| ==> Justified(s, s.executed[i]))
    && (forall u :: u in s.parked ==> u < s.next)
    && (forall u :: u in s.blessed ==> u < s.next)
    && (forall u :: u in s.refused ==> u < s.next)
  }

  lemma {:induction false} DistinctAppend(a: seq<Ticket>, b: seq<Ticket>)
    requires Distinct(a) && Distinct(b) && Apart(a, b)
    ensures Distinct(a + b)
  {
    forall i, j | 0 <= i < j < |a + b| ensures (a + b)[i].uid != (a + b)[j].uid {
      assert i < |a| ==> a[i] in a;
      assert |a| <= j ==> b[j - |a|] in b;
    }
  }

  lemma {:induction false} LastIsApart(ts: seq<Ticket>, some: seq<Ticket>)
    requires ts != [] && Distinct(ts) && forall t :: t in some ==> t in ts[..|ts| - 1]
    ensures Apart(some, [ts[|ts| - 1]])
  {
    forall t | t in some ensures t.uid != ts[|ts| - 1].uid {
      var i :| 0 <= i < |ts| - 1 && ts[..|ts| - 1][i] == t;
    }
  }

  lemma {:induction false} PassingMembers(ts: seq<Ticket>, p: Policy, mode: Mode)
    ensures forall t :: t in Passing(ts, p, mode) ==> t in ts
  {
    if ts != [] { PassingMembers(ts[..|ts| - 1], p, mode); }
  }

  lemma {:induction false} PassingDistinct(ts: seq<Ticket>, p: Policy, mode: Mode)
    requires Distinct(ts)
    ensures Distinct(Passing(ts, p, mode))
  {
    if ts != [] {
      var n := |ts| - 1;
      PassingDistinct(ts[..n], p, mode);
      PassingMembers(ts[..n], p, mode);
      LastIsApart(ts, Passing(ts[..n], p, mode));
      DistinctAppend(Passing(ts[..n], p, mode), [ts[n]]);
    }
  }

  lemma {:induction false} DoneBelowNext(s: State)
    requires Inv(s)
    ensures forall u :: u in Done(s.executed) ==> u.uid < s.next
  {
    forall u | u in Done(s.executed) ensures u.uid < s.next {
      var i :| 0 <= i < |s.executed| && Done(s.executed)[i] == u;
      assert Justified(s, s.executed[i]);
    }
  }

  lemma {:induction false} ParkingKeepsInv(s: State, t: Ticket)
    requires Inv(s) && t.uid == s.next && !HardlineCall(s.policy, t.call)
    ensures Inv(Parking(s, t))
  {
    DoneBelowNext(s);
    DistinctAppend(s.pending, [t]);
  }

  lemma {:induction false} ExecutingKeepsInv(s: State, t: Ticket, why: Reason)
    requires Inv(s) && t.uid == s.next && !HardlineCall(s.policy, t.call)
    requires why.AllowedUnder? && CallVerdict(why.policy, t.call, why.mode).Allow?
    ensures Inv(Executing(s, t, why))
  {
    DoneBelowNext(s);
    DistinctAppend(Done(s.executed), [t]);
    var s' := Executing(s, t, why);
    assert Done(s'.executed) == Done(s.executed) + [t];
    forall i | 0 <= i < |s'.executed| ensures Justified(s', s'.executed[i]) {
      if i < |s.executed| { assert Justified(s, s.executed[i]); }
    }
  }

  lemma {:induction false} SubmitKeepsInv(s: State, c: ToolCall)
    requires Inv(s)
    ensures Inv(Submit(s, c))
  {
    var t, mode := Ticket(s.next, c), EffectiveMode(s.mode);
    HardlineFloor(s.policy, s.policy.parse(c), mode);
    match CallVerdict(s.policy, c, mode)
    case Allow => ExecutingKeepsInv(s, t, AllowedUnder(s.policy, mode));
    case Block =>
    case Prompt => ParkingKeepsInv(s, t);
  }

  lemma {:induction false} SubmitAllKeepsInv(s: State, cs: seq<ToolCall>)
    requires Inv(s)
    ensures Inv(SubmitAll(s, cs))
    decreases |cs|
  {
    if cs != [] {
      SubmitKeepsInv(s, cs[0]);
      SubmitAllKeepsInv(Submit(s, cs[0]), cs[1..]);
    }
  }

  lemma {:induction false} UidsMembers(ts: seq<Ticket>)
    ensures forall u :: u in Uids(ts) <==> exists t :: t in ts && t.uid == u
  {
    forall t | t in ts ensures t.uid in Uids(ts) {
      var i :| 0 <= i < |ts| && ts[i] == t;
    }
  }

  lemma {:induction false} YesKeepsInv(s: State)
    requires Inv(s)
    ensures Inv(Next(s, Yes))
  {
    UidsMembers(s.pending);
  }

  lemma {:induction false} NoKeepsInv(s: State)
    requires Inv(s)
    ensures Inv(Next(s, No))
  {
    UidsMembers(s.pending);
    ExecutedNotPending(s);
  }

  lemma {:induction false} ExecutedNotPending(s: State)
    requires Inv(s)
    ensures forall i :: 0 <= i < |s.executed| ==> s.executed[i].ticket.uid !in Uids(s.pending)
  {
    UidsMembers(s.pending);
    forall i | 0 <= i < |s.executed| ensures s.executed[i].ticket.uid !in Uids(s.pending) {
      assert Done(s.executed)[i] in Done(s.executed);
    }
  }

  /** Releasing some of the parked tickets and turning down the rest. */
  lemma {:induction false} ReleaseKeepsInv(s: State, mode: Mode, ok: seq<Ticket>)
    requires Inv(s) && Distinct(ok) && forall t :: t in ok ==> t in s.pending
    ensures Inv(s.(mode := mode, pending := [], approved := if ok == [] then s.approved else ok,
                   blessed := s.blessed + Uids(ok), refused := s.refused + (Uids(s.pending) - Uids(ok))))
  {
    UidsMembers(s.pending);
    UidsMembers(ok);
    ExecutedNotPending(s);
  }

  lemma {:induction false} SetModeKeepsInv(s: State, mode: Mode)
    requires Inv(s)
    ensures Inv(Next(s, SetMode(mode)))
  {
    PassingMembers(s.pending, s.policy, mode);
    PassingDistinct(s.pending, s.policy, mode);
    ReleaseKeepsInv(s, mode, Passing(s.pending, s.policy, mode));
  }

  lemma {:induction false} DrainKeepsInv(s: State)
    requires Inv(s)
    ensures Inv(Next(s, Drain))
  {
    var t := Next(s, Drain);
    DistinctAppend(Done(s.executed), s.approved);
    assert Done(t.executed) == Done(s.executed) + s.approved;
    forall i | 0 <= i < |t.executed| ensures Justified(t, t.executed[i]) {
      if |s.executed| <= i { assert s.approved[i - |s.executed|] in s.approved; }
    }
  }

  lemma {:induction false} StepKeepsInv(s: State, e: Event)
    requires Inv(s)
    ensures Inv(Next(s, e))
  {
    match e
    case Batch(cs) => SubmitAllKeepsInv(s, cs);
    case Yes => YesKeepsInv(s);
    case No => NoKeepsInv(s);
    case SetMode(mode) => SetModeKeepsInv(s, mode);
    case Drain => DrainKeepsInv(s);
    case SetPolicy(_, _, _) =>
  }

  lemma {:induction false} RunKeepsInv(s: State, events: seq<Event>)
    requires Inv(s)
    ensures Inv(Run(s, events))
    decreases |events|
  {
    if events != [] {
      StepKeepsInv(s, events[0]);
      RunKeepsInv(Next(s, events[0]), events[1..]);
    }
  }

  lemma {:induction false} SubmitAllKeeps(s: State, cs: seq<ToolCall>)
    ensures SubmitAll(s, cs).policy == s.policy && SubmitAll(s, cs).refused == s.refused
    decreases |cs|
  {
    if cs != [] { SubmitAllKeeps(Submit(s, cs[0]), cs[1..]); }
  }

  /** Refusals are never taken back, and the classification of commands never changes. */
  lemma {:induction false} RunKeeps(s: State, events: seq<Event>)
    ensures s.refused <= Run(s, events).refused && Run(s, events).policy.tier == s.policy.tier
    ensures Run(s, events).policy.parse == s.policy.parse && Run(s, events).policy.home == s.policy.home
    decreases |events|
  {
    if events != [] {
      if events[0].Batch? { SubmitAllKeeps(s, events[0].calls); }
      RunKeeps(Next(s, events[0]), events[1..]);
    }
  }

  // ----- the guarantees, over every run -----

  /** A hardline command is never executed, not even in yolo mode, after /yes, or in a sandbox. */
  lemma {:induction false} HardlineNeverExecutes(p: Policy, events: seq<Event>, i: nat)
    requires i < |Run(Start(p), events).executed|
    ensures !HardlineCall(p, Run(Start(p), events).executed[i].ticket.call)
  {
    RunKeepsInv(Start(p), events);
    RunKeeps(Start(p), events);
    assert Justified(Run(Start(p), events), Run(Start(p), events).executed[i]);
  }

  /** The state in front of event k. */
  ghost function At(p: Policy, events: seq<Event>, k: nat): State
    requires k <= |events|
  {
    Run(Start(p), events[..k])
  }

  lemma {:induction false} RunOneMore(s: State, events: seq<Event>, e: Event)
    ensures Run(s, events + [e]) == Next(Run(s, events), e)
    decreases |events|
  {
    if events == [] {
      assert ([] + [e])[1..] == [];
    } else {
      assert (events + [e])[1..] == events[1..] + [e];
      RunOneMore(Next(s, events[0]), events[1..], e);
    }
  }

  lemma {:induction false} AtNext(p: Policy, events: seq<Event>, k: nat)
    requires k < |events|
    ensures At(p, events, k + 1) == Next(At(p, events, k), events[k])
  {
    assert events[..k + 1] == events[..k] + [events[k]];
    RunOneMore(Start(p), events[..k], events[k]);
  }

  /** The gate's answer to the call in that state. */
  function Answer(s: State, c: ToolCall): Action {
    CallVerdict(s.policy, c, EffectiveMode(s.mode))
  }

  /** The ticket was parked by event k, because the gate prompted at that moment. */
  ghost predicate ParkedAt(p: Policy, events: seq<Event>, k: nat, t: Ticket)
    requires k < |events|
  {
    && events[k].Batch? && t.call in events[k].calls && Answer(At(p, events, k), t.call).Prompt?
    && t !in At(p, events, k).pending && t in At(p, events, k + 1).pending
  }

  predicate Releases(s: State, e: Event, t: Ticket) {
    match e
    case Yes => true
    case SetMode(mode) => CallVerdict(s.policy, t.call, mode).Allow?
    case _ => false
  }

  /** The waiting ticket was released by event k: by the user, or by a switch to a mode under
      which the gate allows it at that moment. */
  ghost predicate ReleasedAt(p: Policy, events: seq<Event>, k: nat, t: Ticket)
    requires k < |events|
  {
    t in At(p, events, k).pending && Releases(At(p, events, k), events[k], t)
  }

  ghost predicate ReleasedBefore(p: Policy, events: seq<Event>, n: nat, t: Ticket)
    requires n <= |events|
  {
    exists j, k :: 0 <= j < k < n && ParkedAt(p, events, j, t) && ReleasedAt(p, events, k, t)
  }

  /** Event k executed the call: the gate allowed it at that moment, or it had been parked and
      then released. */
  ghost predicate ExecutedAt(p: Policy, events: seq<Event>, k: nat, e: Execution)
    requires k < |events|
  {
    && e !in At(p, events, k).executed && e in At(p, events, k + 1).executed
    && match events[k]
       case Batch(calls) => e.ticket.call in calls && Answer(At(p, events, k), e.ticket.call).Allow?
       case Drain => e.ticket in At(p, events, k).approved && ReleasedBefore(p, events, k, e.ticket)
       case _ => false
  }

  lemma {:induction false} SubmitAllSources(s: State, cs: seq<ToolCall>)
    ensures var r := SubmitAll(s, cs);
            && r.policy == s.policy && r.mode == s.mode && r.approved == s.approved
            && (forall t :: t in r.pending ==> t in s.pending || (t.call in cs && Answer(s, t.call).Prompt?))
            && (forall e :: e in r.executed ==> e in s.executed || (e.ticket.call in cs && Answer(s, e.ticket.call).Allow?))
    decreases |cs|
  {
    if cs != [] {
      SubmitAllSources(Submit(s, cs[0]), cs[1..]);
      assert forall c :: c in cs[1..] ==> c in cs;
    }
  }

  ghost predicate ParkedBefore(p: Policy, events: seq<Event>, n: nat, t: Ticket)
    requires n <= |events|
  {
    exists k :: 0 <= k < n && ParkedAt(p, events, k, t)
  }

  ghost predicate ExecutedBefore(p: Policy, events: seq<Event>, n: nat, e: Execution)
    requires n <= |events|
  {
    exists k :: 0 <= k < n && ExecutedAt(p, events, k, e)
  }

  /** Everything in the buffers, and everything executed, has its events in front of n. */
  ghost predicate Explained(p: Policy, events: seq<Event>, n: nat)
    requires n <= |events|
  {
    && (forall t :: t in At(p, events, n).pending ==> ParkedBefore(p, events, n, t))
    && (forall t :: t in At(p, events, n).approved ==> ReleasedBefore(p, events, n, t))
    && (forall e :: e in At(p, events, n).executed ==> ExecutedBefore(p, events, n, e))
  }

  lemma {:induction false} PendingExplained(p: Policy, events: seq<Event>, n: nat, t: Ticket)
    requires n < |events| && Explained(p, events, n) && t in At(p, events, n + 1).pending
    ensures ParkedBefore(p, events, n + 1, t)
  {
    var s := At(p, events, n);
    AtNext(p, events, n);
    if t in s.pending {
      assert ParkedBefore(p, events, n, t);
    } else {
      SubmitAllSources(s, events[n].calls);
      assert ParkedAt(p, events, n, t);
    }
  }

  lemma {:induction false} ApprovedExplained(p: Policy, events: seq<Event>, n: nat, t: Ticket)
    requires n < |events| && Explained(p, events, n) && t in At(p, events, n + 1).approved
    ensures ReleasedBefore(p, events, n + 1, t)
  {
    var s := At(p, events, n);
    AtNext(p, events, n);
    ApprovedSource(s, events[n], t);
    if t in s.approved {
      assert ReleasedBefore(p, events, n, t);
    } else {
      assert ReleasedAt(p, events, n, t) && ParkedBefore(p, events, n, t);
    }
  }

  lemma {:induction false} ApprovedSource(s: State, e: Event, t: Ticket)
    requires t in Next(s, e).approved
    ensures t in s.approved || (t in s.pending && Releases(s, e, t))
  {
    match e
    case Batch(calls) => SubmitAllSources(s, calls);
    case SetMode(mode) => PassingAllows(s.pending, s.policy, mode, t);
    case _ =>
  }

  lemma {:induction false} PassingAllows(ts: seq<Ticket>, p: Policy, mode: Mode, t: Ticket)
    ensures t in Passing(ts, p, mode) ==> t in ts && CallVerdict(p, t.call, mode).Allow?
  {
    if ts != [] { PassingAllows(ts[..|ts| - 1], p, mode, t); }
  }

  lemma {:induction false} ExecutedExplained(p: Policy, events: seq<Event>, n: nat, e: Execution)
    requires n < |events| && Explained(p, events, n) && e in At(p, events, n + 1).executed
    ensures ExecutedBefore(p, events, n + 1, e)
  {
    var s := At(p, events, n);
    AtNext(p, events, n);
    if e in s.executed {
      assert ExecutedBefore(p, events, n, e);
    } else {
      if events[n].Batch? { SubmitAllSources(s, events[n].calls); }
      if events[n].Drain? { assert e in AsExecuted(s.approved, Approved); }
      assert ExecutedAt(p, events, n, e);
    }
  }

  lemma {:induction false} AllExplained(p: Policy, events: seq<Event>, n: nat)
    requires n <= |events|
    ensures Explained(p, events, n)
  {
    if n > 0 {
      AllExplained(p, events, n - 1);
      forall t | t in At(p, events, n).pending ensures ParkedBefore(p, events, n, t) {
        PendingExplained(p, events, n - 1, t);
      }
      forall t | t in At(p, events, n).approved ensures ReleasedBefore(p, events, n, t) {
        ApprovedExplained(p, events, n - 1, t);
      }
      forall e | e in At(p, events, n).executed ensures ExecutedBefore(p, events, n, e) {
        ExecutedExplained(p, events, n - 1, e);
      }
    }
  }

  /** Over every run: what was executed was allowed by the gate under the policy and mode in
      force at that event, or it was parked by an earlier event, at which the gate prompted,
      and released by one in between. */
  lemma {:induction false} ExecutionIsJustified(p: Policy, events: seq<Event>, i: nat)
    requires i < |Run(Start(p), events).executed|
    ensures ExecutedBefore(p, events, |events|, Run(Start(p), events).executed[i])
    ensures var s := Run(Start(p), events);
            match s.executed[i].reason
            case AllowedUnder(q, mode) => CallVerdict(q, s.executed[i].ticket.call, mode).Allow?
            case Approved => s.executed[i].ticket.uid in s.parked * s.blessed
  {
    RunKeepsInv(Start(p), events);
    assert Justified(Run(Start(p), events), Run(Start(p), events).executed[i]);
    assert events[..|events|] == events;
    AllExplained(p, events, |events|);
    assert Run(Start(p), events).executed[i] in At(p, events, |events|).executed;
  }

  /** No call is executed twice. */
  lemma {:induction false} ExecutedAtMostOnce(p: Policy, events: seq<Event>, i: nat, j: nat)
    requires i < j < |Run(Start(p), events).executed|
    ensures Run(Start(p), events).executed[i].ticket.uid != Run(Start(p), events).executed[j].ticket.uid
  {
    RunKeepsInv(Start(p), events);
    var es := Run(Start(p), events).executed;
    assert Done(es)[i] == es[i].ticket && Done(es)[j] == es[j].ticket;
  }

  /** What /no or a mode switch has turned down is not executed by anything that follows. */
  lemma {:induction false} RefusedNeverExecutes(p: Policy, before: seq<Event>, after: seq<Event>, uid: nat)
    requires uid in Run(Start(p), before).refused
    ensures var s := Run(Run(Start(p), before), after);
            forall i :: 0 <= i < |s.executed| ==> s.executed[i].ticket.uid != uid
  {
    RunKeepsInv(Start(p), before);
    RunKeepsInv(Run(Start(p), before), after);
    RunKeeps(Run(Start(p), before), after);
    var s := Run(Run(Start(p), before), after);
    forall i | 0 <= i < |s.executed| ensures s.executed[i].ticket.uid != uid {
      assert Justified(s, s.executed[i]);
    }
  }

  lemma {:induction false} RunSplit(s: State, before: seq<Event>, e: Event, after: seq<Event>)
    ensures Run(Next(Run(s, before), e), after) == Run(Run(s, before + [e]), after)
  {
    RunOneMore(s, before, e);
  }

  /** A ticket that waits when the user says /no is never executed, whatever follows. */
  lemma {:induction false} DeniedNeverExecutes(p: Policy, before: seq<Event>, t: Ticket, after: seq<Event>)
    requires t in Run(Start(p), before).pending
    ensures var s := Run(Next(Run(Start(p), before), No), after);
            forall i :: 0 <= i < |s.executed| ==> s.executed[i].ticket.uid != t.uid
  {
    UidsMembers(Run(Start(p), before).pending);
    RunSplit(Start(p), before, No, after);
    RunOneMore(Start(p), before, No);
    RefusedNeverExecutes(p, before + [No], after, t.uid);
  }

  /** Neither is one that waits when the mode is switched to one under which the gate does not
      allow it at that moment. */
  lemma {:induction false} SwitchedAwayNeverExecutes(p: Policy, before: seq<Event>, mode: Mode, t: Ticket, after: seq<Event>)
    requires var s := Run(Start(p), before); t in s.pending && !CallVerdict(s.policy, t.call, mode).Allow?
    ensures var s := Run(Next(Run(Start(p), before), SetMode(mode)), after);
            forall i :: 0 <= i < |s.executed| ==> s.executed[i].ticket.uid != t.uid
  {
    var s := Run(Start(p), before);
    RunKeepsInv(Start(p), before);
    NotAllowedNotPassing(s, mode, t);
    RunSplit(Start(p), before, SetMode(mode), after);
    RunOneMore(Start(p), before, SetMode(mode));
    RefusedNeverExecutes(p, before + [SetMode(mode)], after, t.uid);
  }

  lemma {:induction false} NotAllowedNotPassing(s: State, mode: Mode, t: Ticket)
    requires Inv(s) && t in s.pending && !CallVerdict(s.policy, t.call, mode).Allow?
    ensures t.uid in Next(s, SetMode(mode)).refused
  {
    var ok := Passing(s.pending, s.policy, mode);
    UidsMembers(s.pending);
    UidsMembers(ok);
    if t.uid in Uids(ok) {
      var u :| u in ok && u.uid == t.uid;
      PassingAllows(s.pending, s.policy, mode, u);
      SameTicket(s.pending, t, u);
    }
  }

  lemma {:induction false} SameTicket(ts: seq<Ticket>, t: Ticket, u: Ticket)
    requires Distinct(ts) && t in ts && u in ts && t.uid == u.uid
    ensures t == u
  {
    var i :| 0 <= i < |ts| && ts[i] == t;
    var j :| 0 <= j < |ts| && ts[j] == u;
  }

  function AllowedTicket(p: Policy, mode: Mode): Ticket -> bool {
    (t: Ticket) => CallVerdict(p, t.call, mode).Allow?
  }

  /** The tickets that the gate would let through, in order. */
  ghost predicate ArePassing(picked: seq<Ticket>, ts: seq<Ticket>, p: Policy, mode: Mode) {
    Selects(picked, ts, AllowedTicket(p, mode))
  }

  lemma {:induction false} PassingNext(picked: seq<Ticket>, front: seq<Ticket>, p: Policy, mode: Mode, t: Ticket)
    requires ArePassing(picked, front, p, mode)
    ensures ArePassing(if CallVerdict(p, t.call, mode).Allow? then picked + [t] else picked, front + [t], p, mode)
  {
    SelectsNext(picked, front, AllowedTicket(p, mode), t);
  }

  lemma {:induction false} PassingSelects(ts: seq<Ticket>, p: Policy, mode: Mode)
    ensures ArePassing(Passing(ts, p, mode), ts, p, mode)
  {
    if ts == [] {
      SelectsNothing(AllowedTicket(p, mode));
    } else {
      var n := |ts| - 1;
      PassingSelects(ts[..n], p, mode);
      PassingNext(Passing(ts[..n], p, mode), ts[..n], p, mode, ts[n]);
      assert ts[..n] + [ts[n]] == ts;
    }
  }

  /** The executions of after that before did not have. */
  function Added(before: State, after: State): (r: seq<Ticket>)
    requires |before.executed| <= |after.executed|
  {
    Done(after.executed[|before.executed|..])
  }

  ghost predicate Extends(before: State, after: State) {
    before.executed <= after.executed
  }

  lemma {:induction false} DrainAdds(s: State)
    ensures Extends(s, Next(s, Drain)) && Added(s, Next(s, Drain)) == s.approved
  {
    var t := Next(s, Drain);
    assert t.executed[|s.executed|..] == AsExecuted(s.approved, Approved);
    assert Done(AsExecuted(s.approved, Approved)) == s.approved;
  }

  /** What /yes and the turn after it run: everything parked, in order; with nothing parked,
      what was approved before. */
  lemma {:induction false} YesRunsAllParked(s: State)
    ensures var r := Next(Next(s, Yes), Drain);
            && Extends(s, r) && Added(s, r) == (if s.pending == [] then s.approved else s.pending)
            && r.pending == [] && r.approved == []
  {
    DrainAdds(Next(s, Yes));
  }

  /** What a mode switch and the turn after it run: of everything parked, in order, what the
      gate allows under the new mode; when that is nothing, what was approved before. */
  lemma {:induction false} SwitchRunsAllowed(s: State, mode: Mode)
    ensures var r := Next(Next(s, SetMode(mode)), Drain);
            && Extends(s, r) && r.pending == [] && r.approved == [] && r.mode == mode
            && if exists t :: t in s.pending && CallVerdict(s.policy, t.call, mode).Allow?
               then ArePassing(Added(s, r), s.pending, s.policy, mode)
               else Added(s, r) == s.approved
  {
    DrainAdds(Next(s, SetMode(mode)));
    PassingSelects(s.pending, s.policy, mode);
    PassingIff(s.pending, s.policy, mode);
  }

  lemma {:induction false} PassingIff(ts: seq<Ticket>, p: Policy, mode: Mode)
    ensures Passing(ts, p, mode) != [] <==> exists t :: t in ts && CallVerdict(p, t.call, mode).Allow?
  {
    PassingSelects(ts, p, mode);
    SelectedIff(Passing(ts, p, mode), ts, AllowedTicket(p, mode));
    forall t ensures AllowedTicket(p, mode)(t) <==> CallVerdict(p, t.call, mode).Allow? {}
  }

  /** The mode in force is that of the last switch, the policy that of the last change. */
  lemma {:induction false} LastSettingHolds(s: State, events: seq<Event>, k: nat)
    requires k < |events|
    ensures events[k].SetMode? && (forall j :: k < j < |events| ==> !events[j].SetMode?) ==> Run(s, events).mode == events[k].mode
    ensures events[k].SetPolicy? && (forall j :: k < j < |events| ==> !events[j].SetPolicy?) ==>
              Run(s, events).policy == s.policy.(workspace := events[k].workspace, sandboxed := events[k].sandboxed,
                                                 allowWrite := events[k].allowWrite)
    decreases |events|
  {
    var n := |events| - 1;
    var front := events[..n];
    assert events == front + [events[n]];
    RunOneMore(s, front, events[n]);
    if k < n {
      LastSettingHolds(s, front, k);
      OtherEventsKeepSettings(Run(s, front), events[n]);
    } else {
      RunKeeps(s, front);
    }
  }

  lemma {:induction false} OtherEventsKeepSettings(s: State, e: Event)
    ensures !e.SetMode? ==> Next(s, e).mode == s.mode
    ensures !e.SetPolicy? ==> Next(s, e).policy == s.policy
  {
    if e.Batch? { SubmitAllSources(s, e.calls); }
  }

  // ----- the session and the handlers follow the machine -----

  function Calls(ts: seq<Ticket>): (r: seq<ToolCall>)
    ensures |r| == |ts| && forall i :: 0 <= i < |ts| ==> r[i] == ts[i].call
  {
    seq(|ts|, i requires 0 <= i < |ts| => ts[i].call)
  }

  /** The session's buffers are the machine's, without the tickets. */
  ghost predicate Represents(sess: Session, s: State)
    reads sess
  {
    sess.pendingCalls == Calls(s.pending) && sess.approvedPending == Calls(s.approved) && sess.authMode == s.mode
  }

  /** /yes and /no. The result says whether the loop goes on with this turn. */
  method SlashAuthReply(sess: Session, approved: bool, ghost s: State) returns (continueToLoop: bool)
    requires Represents(sess, s)
    modifies sess
    ensures Represents(sess, Next(s, if approved then Yes else No))
    ensures continueToLoop <==> approved && old(sess.pendingCalls) != []
    ensures sess.pendingCalls == []
    ensures sess.approvedPending == if continueToLoop then old(sess.pendingCalls) else old(sess.approvedPending)
    ensures sess.messages == old(sess.messages) && sess.authMode == old(sess.authMode)
  {
    var pending := sess.PopPendingCalls();
    if |pending| == 0 {
      return false;
    }
    if approved {
      sess.SetApprovedPending(pending);
      return true;
    }
    return false;
  }

  /** The allowed ones among the calls, in order. */
  ghost predicate AreAllowedOf(picked: seq<ToolCall>, calls: seq<ToolCall>, p: Policy, mode: Mode) {
    Selects(picked, calls, AllowedCall(p, mode))
  }

  ghost predicate SomeAllowed(calls: seq<ToolCall>, p: Policy, mode: Mode) {
    exists c :: c in calls && CallVerdict(p, c, mode).Allow?
  }

  lemma {:induction false} RepresentsSwitch(sess: Session, s: State, mode: Mode)
    requires sess.pendingCalls == [] && sess.authMode == mode
    requires var ok := Passing(s.pending, s.policy, mode); sess.approvedPending == Calls(if ok == [] then s.approved else ok)
    ensures Represents(sess, Next(s, SetMode(mode)))
  {}

  /** A mode switch judges the parked calls anew; the ones it does not allow are dropped. */
  method SlashSetAuthMode(sess: Session, gate: Gate, mode: Mode, ghost s: State) returns (continueToLoop: bool)
    requires Represents(sess, s) && gate.Current() == s.policy
    modifies sess
    ensures Represents(sess, Next(s, SetMode(mode)))
    ensures continueToLoop <==> SomeAllowed(old(sess.pendingCalls), old(gate.Current()), mode)
    ensures sess.authMode == mode && sess.pendingCalls == []
    ensures continueToLoop ==> AreAllowedOf(sess.approvedPending, old(sess.pendingCalls), old(gate.Current()), mode)
    ensures !continueToLoop ==> sess.approvedPending == old(sess.approvedPending)
    ensures sess.messages == old(sess.messages)
  {
    sess.SetAuthMode(mode);
    var pending := sess.PopPendingCalls();
    var approved := Rejudge(gate, pending, mode, s.pending);
    if |approved| > 0 {
      sess.SetApprovedPending(approved);
    }
    RepresentsSwitch(sess, s, mode);
    return |approved| > 0;
  }

  function AllowedCall(p: Policy, mode: Mode): ToolCall -> bool {
    (c: ToolCall) => CallVerdict(p, c, mode).Allow?
  }

  method Rejudge(gate: Gate, pending: seq<ToolCall>, mode: Mode, ghost tickets: seq<Ticket>) returns (approved: seq<ToolCall>)
    requires pending == Calls(tickets)
    ensures approved == Calls(Passing(tickets, gate.Current(), mode))
    ensures AreAllowedOf(approved, pending, gate.Current(), mode)
    ensures approved != [] <==> SomeAllowed(pending, gate.Current(), mode)
  {
    approved := [];
    ghost var p := gate.Current();
    for i := 0 to |pending|
      invariant approved == Calls(Passing(tickets[..i], p, mode))
    {
      assert tickets[..i + 1][..i] == tickets[..i];
      var action := gate.EvaluateCall(gate.parse(pending[i]), mode);
      if action == Allow {
        approved := approved + [pending[i]];
      }
    }
    assert tickets[..|pending|] == tickets;
    PassingCallsSelects(tickets, p, mode);
  }

  lemma {:induction false} PassingCallsSelects(ts: seq<Ticket>, p: Policy, mode: Mode)
    ensures AreAllowedOf(Calls(Passing(ts, p, mode)), Calls(ts), p, mode)
    ensures Calls(Passing(ts, p, mode)) != [] <==> SomeAllowed(Calls(ts), p, mode)
  {
    PassingSelects(ts, p, mode);
    var idx :| PickedAt(Passing(ts, p, mode), ts, AllowedTicket(p, mode), idx);
    assert PickedAt(Calls(Passing(ts, p, mode)), Calls(ts), AllowedCall(p, mode), idx);
    SelectedIff(Calls(Passing(ts, p, mode)), Calls(ts), AllowedCall(p, mode));
    forall c ensures AllowedCall(p, mode)(c) <==> CallVerdict(p, c, mode).Allow? {}
  }

  /** Taking the approved calls at the top of a turn. */
  method TakeApproved(sess: Session, ghost s: State) returns (calls: seq<ToolCall>)
    requires Represents(sess, s)
    modifies sess
    ensures Represents(sess, Next(s, Drain)) && calls == Calls(s.approved)
    ensures calls == old(sess.approvedPending) && sess.approvedPending == []
    ensures sess.pendingCalls == old(sess.pendingCalls) && sess.authMode == old(sess.authMode)
  {
    calls := sess.DrainApprovedPending();
  }

  /** The gate as the verdict that a tool round asks for. */
  function RoundVerdict(p: Policy, mode: Mode): ToolCall -> ToolRound.Verdict {
    c => match CallVerdict(p, c, mode)
         case Allow => ToolRound.Allow
         case Block => ToolRound.Verdict.Block("denied")
         case Prompt => ToolRound.Verdict.Prompt("authorization required")
  }

  lemma {:induction false} SubmitAllOneMore(s: State, cs: seq<ToolCall>, c: ToolCall)
    ensures SubmitAll(s, cs + [c]) == Submit(SubmitAll(s, cs), c)
    decreases |cs|
  {
    if cs != [] {
      assert (cs + [c])[1..] == cs[1..] + [c];
      SubmitAllOneMore(Submit(s, cs[0]), cs[1..], c);
    } else {
      assert (cs + [c])[1..] == [];
    }
  }

  lemma {:induction false} SplitOneMore(cs: seq<ToolCall>, c: ToolCall, v: ToolCall -> ToolRound.Verdict)
    ensures ToolRound.PromptedOf(cs + [c], v)
            == if v(c).Prompt? then ToolRound.PromptedOf(cs, v) + [c] else ToolRound.PromptedOf(cs, v)
    ensures ToolRound.AllowedOf(cs + [c], v)
            == if v(c).Allow? then ToolRound.AllowedOf(cs, v) + [c] else ToolRound.AllowedOf(cs, v)
  {
    assert (cs + [c])[..|cs|] == cs;
  }

  lemma {:induction false} Behind(a: seq<ToolCall>, b: seq<ToolCall>, c: ToolCall)
    ensures a + (b + [c]) == a + b + [c]
  {}

  ghost predicate Matches(s: State, cs: seq<ToolCall>, t: State, v: ToolCall -> ToolRound.Verdict) {
    && Calls(t.pending) == Calls(s.pending) + ToolRound.PromptedOf(cs, v)
    && Calls(Done(t.executed)) == Calls(Done(s.executed)) + ToolRound.AllowedOf(cs, v)
    && t.approved == s.approved && t.mode == s.mode && t.policy == s.policy
  }

  lemma {:induction false} MatchesOneMore(s: State, cs: seq<ToolCall>, t: State, c: ToolCall)
    requires Matches(s, cs, t, RoundVerdict(s.policy, EffectiveMode(s.mode)))
    ensures Matches(s, cs + [c], Submit(t, c), RoundVerdict(s.policy, EffectiveMode(s.mode)))
  {
    var v := RoundVerdict(s.policy, EffectiveMode(s.mode));
    SplitOneMore(cs, c, v);
    SubmitAppends(t, c);
    Behind(Calls(s.pending), ToolRound.PromptedOf(cs, v), c);
    Behind(Calls(Done(s.executed)), ToolRound.AllowedOf(cs, v), c);
  }

  lemma {:induction false} BatchMatches(s: State, cs: seq<ToolCall>)
    ensures Matches(s, cs, SubmitAll(s, cs), RoundVerdict(s.policy, EffectiveMode(s.mode)))
    decreases |cs|
  {
    if cs == [] {
      assert Calls(s.pending) + [] == Calls(s.pending) && Calls(Done(s.executed)) + [] == Calls(Done(s.executed));
    } else {
      var front, c := cs[..|cs| - 1], cs[|cs| - 1];
      assert cs == front + [c];
      BatchMatches(s, front);
      SubmitAllOneMore(s, front, c);
      MatchesOneMore(s, front, SubmitAll(s, front), c);
    }
  }

  /** A batch parks exactly the prompted calls and executes exactly the allowed ones, in order. */
  lemma {:induction false} BatchMatchesRound(s: State, cs: seq<ToolCall>)
    ensures var t, v := SubmitAll(s, cs), RoundVerdict(s.policy, EffectiveMode(s.mode));
            && Calls(t.pending) == Calls(s.pending) + ToolRound.PromptedOf(cs, v)
            && Calls(Done(t.executed)) == Calls(Done(s.executed)) + ToolRound.AllowedOf(cs, v)
            && t.approved == s.approved && t.mode == s.mode && t.policy == s.policy
  {
    BatchMatches(s, cs);
  }

  lemma {:induction false} SubmitAppends(s: State, c: ToolCall)
    ensures var t, a := Submit(s, c), CallVerdict(s.policy, c, EffectiveMode(s.mode));
            && Calls(t.pending) == (if a.Prompt? then Calls(s.pending) + [c] else Calls(s.pending))
            && Calls(Done(t.executed)) == (if a.Allow? then Calls(Done(s.executed)) + [c] else Calls(Done(s.executed)))
            && t.approved == s.approved && t.mode == s.mode && t.policy == s.policy
  {}

  /** The gate over a batch on the session: what it hands to the executor is what the
      machine executes, and what it parks is what the machine parks. */
  method GateBatch(sess: Session, gate: Gate, cs: seq<ToolCall>, ghost s: State) returns (toExec: seq<ToolCall>)
    requires Represents(sess, s) && gate.Current() == s.policy
    modifies sess`pendingCalls
    ensures Represents(sess, Next(s, Batch(cs)))
    ensures Calls(Done(Next(s, Batch(cs)).executed)) == Calls(Done(s.executed)) + toExec
  {
    BatchMatchesRound(s, cs);
    var blocked;
    toExec, blocked := ToolRound.FilterAuthorizedCalls(sess, cs, RoundVerdict(gate.Current(), EffectiveMode(sess.authMode)));
  }
}
