/** The cross-process channel lease as a step protocol: one lease row, a clock, and any
    number of processes, each running runWithLease with an adapter goroutine and a
    renewer goroutine per held lease. Every step is one atomic action of one goroutine
    or one SQL statement taking effect. */
module Lease {
  import opened Options

  const TTL: nat := 30

  datatype Row = Row(holder: nat, expires: nat)

  /** Where the loop of runWithLease stands. */
  datatype Pc =
    | Top
    | Acquiring(stamp: nat)  // Acquire has read the clock, its statement has not run yet
    | Won                    // Acquire returned true, adapter not started yet
    | Waiting                // the three-way select
    | StopShutdown           // parent context ended: waiting for the adapter
    | StopExited             // adapter ended on its own: waiting for the renewer
    | StopLost               // renewer ended: waiting for the adapter
    | ReleaseShutdown
    | ReleaseExited
    | Sleeping
    | Returned

  datatype Renewer = Ticking | Renewing(stamp: nat)

  /** gen numbers the lease periods of one process; adapters and renewers hold the
      goroutines that are still alive, by the period that started them. lastOk is the
      clock reading of the latest Acquire or Renew that succeeded. */
  datatype Proc = Proc(pc: Pc, gen: nat, adapters: set<nat>, renewers: map<nat, Renewer>, shutdown: bool, lastOk: nat)

  datatype State = State(now: nat, row: Option<Row>, procs: map<nat, Proc>)

  datatype Step =
    | Pass(ticks: nat)
    | Shutdown(p: nat)
    | Quit(p: nat)
    | BeginAcquire(p: nat)
    | AcquireOk(p: nat)
    | AcquireRefused(p: nat)
    | AcquireError(p: nat, applied: bool)
    | Wake(p: nat)
    | Start(p: nat)
    | AdapterExits(p: nat, g: nat)
    | BeginRenew(p: nat, g: nat)
    | RenewOk(p: nat, g: nat)
    | RenewRefused(p: nat, g: nat)
    | RenewError(p: nat, g: nat, applied: bool)
    | RenewerStops(p: nat, g: nat)
    | SelectShutdown(p: nat)
    | SelectDone(p: nat)
    | SelectLost(p: nat)
    | Stopped(p: nat)
    | Release(p: nat, applied: bool)

  // ----- the lease row -----

  /** The upsert of Acquire goes through: no row, our own row, or an expired one. */
  predicate Grantable(row: Option<Row>, p: nat, stamp: nat) {
    row.None? || row.value.holder == p || row.value.expires < stamp
  }

  predicate Holds(row: Option<Row>, p: nat) {
    row.Some? && row.value.holder == p
  }

  // ----- the steps -----

  /** The context of period g is over: childCancel was called, or the parent ended. */
  predicate Cancelled(x: Proc) {
    x.shutdown || !x.pc.Waiting?
  }

  predicate RenewInFlight(x: Proc, g: nat) {
    g in x.renewers && x.renewers[g].Renewing?
  }

  predicate Enabled(s: State, step: Step) {
    step.Pass? ||
    (step.p in s.procs &&
     var x := s.procs[step.p];
     match step
     case Pass(_) => true
     case Shutdown(_) => true
     case Quit(_) => x.shutdown && (x.pc.Top? || x.pc.Sleeping?)
     case BeginAcquire(_) => x.pc.Top? && !x.shutdown
     case AcquireOk(p) => x.pc.Acquiring? && Grantable(s.row, p, x.pc.stamp)
     case AcquireRefused(p) => x.pc.Acquiring? && !Grantable(s.row, p, x.pc.stamp)
     case AcquireError(p, applied) => x.pc.Acquiring? && (applied ==> Grantable(s.row, p, x.pc.stamp))
     case Wake(_) => x.pc.Sleeping?
     case Start(_) => x.pc.Won?
     case AdapterExits(_, g) => g in x.adapters
     case BeginRenew(_, g) => g in x.renewers && x.renewers[g].Ticking?
     case RenewOk(p, g) => RenewInFlight(x, g) && Holds(s.row, p)
     case RenewRefused(p, g) => RenewInFlight(x, g) && !Holds(s.row, p)
     case RenewError(p, g, applied) => RenewInFlight(x, g) && (applied ==> Holds(s.row, p))
     case RenewerStops(_, g) => g in x.renewers && x.renewers[g].Ticking? && Cancelled(x)
     case SelectShutdown(_) => x.pc.Waiting? && x.shutdown
     case SelectDone(_) => x.pc.Waiting? && x.gen !in x.adapters
     case SelectLost(_) => x.pc.Waiting? && x.gen !in x.renewers
     case Stopped(_) =>
       if x.pc.StopExited? then x.gen !in x.renewers
       else (x.pc.StopShutdown? || x.pc.StopLost?) && x.gen !in x.adapters
     case Release(_, _) => x.pc.ReleaseShutdown? || x.pc.ReleaseExited?)
  }

  function NextProc(s: State, step: Step): Proc
    requires Enabled(s, step) && !step.Pass?
  {
    var x := s.procs[step.p];
    match step
    case Pass(_) => x
    case Shutdown(_) => x.(shutdown := true)
    case Quit(_) => x.(pc := Returned)
    case BeginAcquire(_) => x.(pc := Acquiring(s.now))
    case AcquireOk(_) => x.(pc := Won, lastOk := x.pc.stamp)
    case AcquireRefused(_) => x.(pc := Sleeping)
    case AcquireError(_, _) => x.(pc := Sleeping)
    case Wake(_) => x.(pc := Top)
    case Start(_) =>
      var g := x.gen + 1;
      x.(pc := Waiting, gen := g, adapters := x.adapters + {g}, renewers := x.renewers[g := Ticking])
    case AdapterExits(_, g) => x.(adapters := x.adapters - {g})
    case BeginRenew(_, g) => x.(renewers := x.renewers[g := Renewing(s.now)])
    case RenewOk(_, g) => x.(renewers := x.renewers[g := Ticking], lastOk := x.renewers[g].stamp)
    case RenewRefused(_, g) => x.(renewers := x.renewers - {g})
    case RenewError(_, g, _) => x.(renewers := x.renewers[g := Ticking])
    case RenewerStops(_, g) => x.(renewers := x.renewers - {g})
    case SelectShutdown(_) => x.(pc := StopShutdown)
    case SelectDone(_) => x.(pc := StopExited)
    case SelectLost(_) => x.(pc := StopLost)
    case Stopped(_) =>
      x.(pc := if x.pc.StopShutdown? then ReleaseShutdown else if x.pc.StopExited? then ReleaseExited else Sleeping)
    case Release(_, _) => x.(pc := if x.pc.ReleaseShutdown? then Returned else Sleeping)
  }

  function NextRow(s: State, step: Step): Option<Row>
    requires Enabled(s, step) && !step.Pass?
  {
    var x := s.procs[step.p];
    match step
    case AcquireOk(p) => Some(Row(p, x.pc.stamp + TTL))
    case AcquireError(p, applied) => if applied then Some(Row(p, x.pc.stamp + TTL)) else s.row
    case RenewOk(p, g) => Some(Row(p, x.renewers[g].stamp + TTL))
    case RenewError(p, g, applied) => if applied then Some(Row(p, x.renewers[g].stamp + TTL)) else s.row
    case Release(p, applied) => if applied && Holds(s.row, p) then None else s.row
    case _ => s.row
  }

  function Next(s: State, step: Step): State
    requires Enabled(s, step)
  {
    if step.Pass? then s.(now := s.now + step.ticks)
    else State(s.now, NextRow(s, step), s.procs[step.p := NextProc(s, step)])
  }

  function Idle(): Proc {
    Proc(Top, 0, {}, map[], false, 0)
  }

  function Init(ids: set<nat>): State {
    State(0, None, map p | p in ids :: Idle())
  }

  /** The state after a schedule, or None when one of its steps cannot happen. */
  function Execute(s: State, steps: seq<Step>): Option<State>
    decreases |steps|
  {
    if steps == [] then Some(s)
    else if Enabled(s, steps[0]) then Execute(Next(s, steps[0]), steps[1..])
    else None
  }

  ghost predicate Reachable(ids: set<nat>, s: State) {
    exists steps :: Execute(Init(ids), steps) == Some(s)
  }

  /** The row changes hands only when it has expired by the clock reading of the process that
      takes it over; the holder itself only extends it or gives it up. */
  lemma {:induction false} RowChangesHands(s: State, step: Step)
    requires Enabled(s, step) && s.row.Some? && Next(s, step).row != s.row
    ensures !step.Pass?
    ensures step.p != s.row.value.holder ==>
              && s.procs[step.p].pc.Acquiring? && s.row.value.expires < s.procs[step.p].pc.stamp
              && Next(s, step).row == Some(Row(step.p, s.procs[step.p].pc.stamp + TTL))
    ensures step.p == s.row.value.holder && Next(s, step).row.None? ==> step.Release?
    ensures Next(s, step).row.Some? ==> Next(s, step).row.value.holder == step.p
  {}

  /** A release that goes through frees the row of its own process for everybody at once, and
      leaves that of another one alone. */
  lemma {:induction false} ReleaseFreesOwnRow(s: State, p: nat, q: nat, stamp: nat)
    requires Enabled(s, Release(p, true))
    ensures Holds(s.row, p) ==> Grantable(Next(s, Release(p, true)).row, q, stamp)
    ensures !Holds(s.row, p) ==> Next(s, Release(p, true)).row == s.row
  {}

  // ----- the invariant -----

  predicate Active(x: Proc) {
    x.pc.Won? || x.adapters != {}
  }

  /** What holds of one process on its own: all goroutines alive belong to the current
      period, and the program points at which each kind can still be alive. */
  ghost predicate Local(now: nat, x: Proc) {
    && x.adapters <= {x.gen} && x.renewers.Keys <= {x.gen}
    && (x.adapters != {} ==> x.pc.Waiting? || x.pc.StopShutdown? || x.pc.StopLost?)
    && (x.renewers != map[] ==>
          x.pc.Waiting? || x.pc.StopShutdown? || x.pc.StopExited? || x.pc.ReleaseShutdown? || x.pc.Returned?)
    && x.lastOk <= now
    && (x.pc.Acquiring? ==> x.lastOk <= x.pc.stamp <= now)
    && (RenewInFlight(x, x.gen) ==> x.lastOk <= x.renewers[x.gen].stamp <= now)
  }

  /** A process that runs, or is about to run, its adapter holds the row for a full TTL
      from its latest success; otherwise more than a TTL has gone by since then. */
  ghost predicate Covered(now: nat, row: Option<Row>, p: nat, x: Proc) {
    Active(x) ==>
      (Holds(row, p) && x.lastOk + TTL <= row.value.expires) || x.lastOk + TTL < now
  }

  ghost predicate Inv(s: State) {
    forall p :: p in s.procs ==> Local(s.now, s.procs[p]) && Covered(s.now, s.row, p, s.procs[p])
  }

  lemma {:induction false} StepKeepsLocal(s: State, step: Step)
    requires Enabled(s, step) && !step.Pass? && Local(s.now, s.procs[step.p])
    ensures Local(s.now, NextProc(s, step))
  {}

  lemma {:induction false} StepKeepsOwnCover(s: State, step: Step)
    requires Enabled(s, step) && !step.Pass?
    requires Local(s.now, s.procs[step.p]) && Covered(s.now, s.row, step.p, s.procs[step.p])
    ensures Covered(s.now, NextRow(s, step), step.p, NextProc(s, step))
  {}

  /** Nobody's statement can take the row from a process before its TTL has run out. */
  lemma {:induction false} StepKeepsPeerCover(s: State, step: Step, q: nat)
    requires Enabled(s, step) && !step.Pass? && q in s.procs && q != step.p
    requires Local(s.now, s.procs[step.p]) && Covered(s.now, s.row, q, s.procs[q])
    ensures Covered(s.now, NextRow(s, step), q, s.procs[q])
  {}

  lemma {:induction false} StepKeepsInv(s: State, step: Step)
    requires Inv(s) && Enabled(s, step)
    ensures Inv(Next(s, step))
  {
    var t := Next(s, step);
    forall q | q in t.procs ensures Local(t.now, t.procs[q]) && Covered(t.now, t.row, q, t.procs[q]) {
      assert q in s.procs && Local(s.now, s.procs[q]) && Covered(s.now, s.row, q, s.procs[q]);
      if !step.Pass? {
        assert Local(s.now, s.procs[step.p]) && Covered(s.now, s.row, step.p, s.procs[step.p]);
        if q == step.p {
          StepKeepsLocal(s, step);
          StepKeepsOwnCover(s, step);
        } else {
          StepKeepsPeerCover(s, step, q);
        }
      }
    }
  }

  lemma {:induction false} ExecuteKeepsInv(s: State, steps: seq<Step>)
    requires Inv(s)
    ensures Execute(s, steps).Some? ==> Inv(Execute(s, steps).value)
    decreases |steps|
  {
    if steps != [] && Enabled(s, steps[0]) {
      StepKeepsInv(s, steps[0]);
      ExecuteKeepsInv(Next(s, steps[0]), steps[1..]);
    }
  }

  lemma {:induction false} ReachableInv(ids: set<nat>, s: State)
    requires Reachable(ids, s)
    ensures Inv(s)
  {
    var steps :| Execute(Init(ids), steps) == Some(s);
    ExecuteKeepsInv(Init(ids), steps);
  }

  // ----- what the lease guarantees -----

  /** A process never runs two adapters, not even across lease periods. */
  lemma {:induction false} OneAdapterPerProcess(ids: set<nat>, s: State, p: nat)
    requires Reachable(ids, s) && p in s.procs
    ensures |s.procs[p].adapters| <= 1
  {
    ReachableInv(ids, s);
    var x := s.procs[p];
    assert Local(s.now, x);
    if x.gen in x.adapters { assert x.adapters == {x.gen}; } else { assert x.adapters == {}; }
  }

  /** Release is called only once the adapter of the period has returned. */
  lemma {:induction false} ReleaseAfterAdapterStopped(ids: set<nat>, s: State, p: nat, applied: bool)
    requires Reachable(ids, s) && Enabled(s, Release(p, applied))
    ensures s.procs[p].adapters == {}
  {
    ReachableInv(ids, s);
    assert Local(s.now, s.procs[p]);
  }

  /** A new adapter starts only when nothing of the previous period is left running. */
  lemma {:induction false} StartAfterPreviousPeriod(ids: set<nat>, s: State, p: nat)
    requires Reachable(ids, s) && Enabled(s, Start(p))
    ensures s.procs[p].adapters == {} && s.procs[p].renewers == map[]
  {
    ReachableInv(ids, s);
    assert Local(s.now, s.procs[p]);
  }

  /** Two processes run adapters at once only if one of them has been without a
      successful Acquire or Renew for longer than the TTL. */
  lemma {:induction false} OverlapNeedsStaleHolder(ids: set<nat>, s: State, p: nat, q: nat)
    requires Reachable(ids, s) && p in s.procs && q in s.procs && p != q
    requires s.procs[p].adapters != {} && s.procs[q].adapters != {}
    ensures s.procs[p].lastOk + TTL < s.now || s.procs[q].lastOk + TTL < s.now
  {
    ReachableInv(ids, s);
    assert Covered(s.now, s.row, p, s.procs[p]) && Covered(s.now, s.row, q, s.procs[q]);
  }

  /** While every running process renews within the TTL, at most one adapter runs anywhere. */
  lemma {:induction false} SingletonWhileRenewing(ids: set<nat>, s: State, p: nat, q: nat)
    requires Reachable(ids, s) && p in s.procs && q in s.procs
    requires forall r :: r in s.procs && s.procs[r].adapters != {} ==> s.now <= s.procs[r].lastOk + TTL
    requires s.procs[p].adapters != {} && s.procs[q].adapters != {}
    ensures p == q
  {
    if p != q { OverlapNeedsStaleHolder(ids, s, p, q); }
  }

  // ----- every stale holder can be overtaken -----

  /** Only q moves, and time passes. */
  ghost predicate ByOnly(steps: seq<Step>, q: nat) {
    forall i :: 0 <= i < |steps| ==> steps[i].Pass? || steps[i].p == q
  }

  ghost predicate Drives(s: State, e: State, q: nat) {
    exists steps :: ByOnly(steps, q) && Execute(s, steps) == Some(e)
  }

  lemma {:induction false} ExecuteConcat(s: State, a: seq<Step>, b: seq<Step>)
    requires Execute(s, a).Some?
    ensures Execute(s, a + b) == Execute(Execute(s, a).value, b)
    decreases |a|
  {
    if a == [] {
      assert a + b == b;
    } else {
      assert (a + b)[1..] == a[1..] + b;
      ExecuteConcat(Next(s, a[0]), a[1..], b);
    }
  }

  lemma {:induction false} DrivesOn(s: State, m: State, e: State, q: nat)
    requires Drives(s, m, q) && Drives(m, e, q)
    ensures Drives(s, e, q)
  {
    var a :| ByOnly(a, q) && Execute(s, a) == Some(m);
    var b :| ByOnly(b, q) && Execute(m, b) == Some(e);
    ExecuteConcat(s, a, b);
    assert ByOnly(a + b, q);
  }

  lemma {:induction false} DrivesNot(s: State, q: nat)
    ensures Drives(s, s, q)
  {
    assert ByOnly([], q) && Execute(s, []) == Some(s);
  }

  lemma {:induction false} DrivesStep(s: State, step: Step, q: nat)
    requires Enabled(s, step) && (step.Pass? || step.p == q)
    ensures Drives(s, Next(s, step), q)
  {
    assert [step][1..] == [];
    assert ByOnly([step], q) && Execute(s, [step]) == Some(Next(s, step));
  }

  lemma {:induction false} OthersStand(s: State, steps: seq<Step>, q: nat, p: nat)
    requires ByOnly(steps, q) && p in s.procs && p != q && Execute(s, steps).Some?
    ensures var e := Execute(s, steps).value; p in e.procs && e.procs[p] == s.procs[p]
    decreases |steps|
  {
    if steps != [] { OthersStand(Next(s, steps[0]), steps[1..], q, p); }
  }

  /** Only a process whose context has ended stops for good. */
  ghost predicate StopsOnShutdown(s: State) {
    forall p :: p in s.procs && !s.procs[p].shutdown ==>
      !s.procs[p].pc.StopShutdown? && !s.procs[p].pc.ReleaseShutdown? && !s.procs[p].pc.Returned?
  }

  lemma {:induction false} ExecuteKeepsStops(s: State, steps: seq<Step>)
    requires StopsOnShutdown(s)
    ensures Execute(s, steps).Some? ==> StopsOnShutdown(Execute(s, steps).value)
    decreases |steps|
  {
    if steps != [] && Enabled(s, steps[0]) { ExecuteKeepsStops(Next(s, steps[0]), steps[1..]); }
  }

  /** q is at the program point pc, runs no adapter and has not been shut down. */
  ghost predicate IdleAt(s: State, q: nat, pc: Pc) {
    q in s.procs && s.procs[q].pc == pc && s.procs[q].adapters == {} && !s.procs[q].shutdown
  }

  lemma {:induction false} FromSleeping(s: State, q: nat) returns (e: State)
    requires IdleAt(s, q, Sleeping)
    ensures Drives(s, e, q) && IdleAt(e, q, Top)
  {
    e := Next(s, Wake(q));
    DrivesStep(s, Wake(q), q);
  }

  lemma {:induction false} StepThenSleeping(s: State, q: nat, step: Step) returns (e: State)
    requires Enabled(s, step) && !step.Pass? && step.p == q && IdleAt(Next(s, step), q, Sleeping)
    ensures Drives(s, e, q) && IdleAt(e, q, Top)
  {
    DrivesStep(s, step, q);
    e := FromSleeping(Next(s, step), q);
    DrivesOn(s, Next(s, step), e, q);
  }

  /** The renewer of the current period ends once the period is over. */
  lemma {:induction false} RenewerEnds(s: State, q: nat) returns (e: State)
    requires IdleAt(s, q, StopExited)
    ensures Drives(s, e, q) && IdleAt(e, q, StopExited) && e.procs[q].gen !in e.procs[q].renewers
  {
    var g := s.procs[q].gen;
    if g !in s.procs[q].renewers {
      DrivesNot(s, q);
      e := s;
    } else {
      var m := s;
      DrivesNot(s, q);
      if s.procs[q].renewers[g].Renewing? {
        m := Next(s, RenewError(q, g, false));
        DrivesStep(s, RenewError(q, g, false), q);
      }
      e := Next(m, RenewerStops(q, g));
      DrivesStep(m, RenewerStops(q, g), q);
      DrivesOn(s, m, e, q);
    }
  }

  lemma {:induction false} FromStopExited(s: State, q: nat) returns (e: State)
    requires IdleAt(s, q, StopExited)
    ensures Drives(s, e, q) && IdleAt(e, q, Top)
  {
    var r := RenewerEnds(s, q);
    var t := Next(r, Stopped(q));
    DrivesStep(r, Stopped(q), q);
    DrivesOn(s, r, t, q);
    e := StepThenSleeping(t, q, Release(q, false));
    DrivesOn(s, t, e, q);
  }

  /** Wherever q stands without an adapter, it can come back to the top of its loop or is
      about to start. */
  lemma {:induction false} BackToTop(s: State, q: nat, pc: Pc) returns (e: State)
    requires IdleAt(s, q, pc) && !pc.Won? && !pc.StopShutdown? && !pc.ReleaseShutdown? && !pc.Returned?
    ensures Drives(s, e, q) && IdleAt(e, q, Top)
  {
    match pc
    case Top =>
      DrivesNot(s, q);
      e := s;
    case Acquiring(_) => e := StepThenSleeping(s, q, AcquireError(q, false));
    case Waiting =>
      DrivesStep(s, SelectDone(q), q);
      e := FromStopExited(Next(s, SelectDone(q)), q);
      DrivesOn(s, Next(s, SelectDone(q)), e, q);
    case StopExited => e := FromStopExited(s, q);
    case StopLost => e := StepThenSleeping(s, q, Stopped(q));
    case ReleaseExited => e := StepThenSleeping(s, q, Release(q, false));
    case Sleeping => e := FromSleeping(s, q);
    case _ =>
  }

  lemma {:induction false} StartsFromWon(s: State, q: nat) returns (e: State)
    requires q in s.procs && s.procs[q].pc.Won?
    ensures Drives(s, e, q) && q in e.procs && e.procs[q].adapters != {}
  {
    e := Next(s, Start(q));
    DrivesStep(s, Start(q), q);
    assert s.procs[q].gen + 1 in e.procs[q].adapters;
  }

  /** From the top q waits until the row has expired and takes it. */
  lemma {:induction false} StartsFromTop(s: State, q: nat) returns (e: State)
    requires IdleAt(s, q, Top)
    ensures Drives(s, e, q) && q in e.procs && e.procs[q].adapters != {}
  {
    var ticks: nat := if s.row.Some? then s.row.value.expires + 1 else 0;
    var a := Next(s, Pass(ticks));
    DrivesStep(s, Pass(ticks), q);
    var b := Next(a, BeginAcquire(q));
    DrivesStep(a, BeginAcquire(q), q);
    DrivesOn(s, a, b, q);
    var c := Next(b, AcquireOk(q));
    DrivesStep(b, AcquireOk(q), q);
    DrivesOn(s, b, c, q);
    e := StartsFromWon(c, q);
    DrivesOn(s, c, e, q);
  }

  lemma {:induction false} CanRun(s: State, q: nat) returns (e: State)
    requires StopsOnShutdown(s) && q in s.procs && !s.procs[q].shutdown
    ensures Drives(s, e, q) && q in e.procs && e.procs[q].adapters != {}
  {
    if s.procs[q].adapters != {} {
      DrivesNot(s, q);
      e := s;
    } else if s.procs[q].pc.Won? {
      e := StartsFromWon(s, q);
    } else {
      var t := BackToTop(s, q, s.procs[q].pc);
      e := StartsFromTop(t, q);
      DrivesOn(s, t, e, q);
    }
  }

  ghost predicate BothRun(s: State, p: nat, q: nat) {
    p in s.procs && q in s.procs && s.procs[p].adapters != {} && s.procs[q].adapters != {}
  }

  /** From every reachable state in which p runs its adapter: if p makes no further step, any
      other process that is not shut down can come to run its own beside it. */
  lemma {:induction false} SilentHolderIsOvertaken(ids: set<nat>, s: State, p: nat, q: nat)
    requires Reachable(ids, s) && p in s.procs && q in s.procs && p != q
    requires s.procs[p].adapters != {} && !s.procs[q].shutdown
    ensures exists e :: Drives(s, e, q) && BothRun(e, p, q)
  {
    var steps :| Execute(Init(ids), steps) == Some(s);
    ExecuteKeepsStops(Init(ids), steps);
    var e := CanRun(s, q);
    var more :| ByOnly(more, q) && Execute(s, more) == Some(e);
    OthersStand(s, more, q, p);
    assert BothRun(e, p, q);
  }

  // ----- the bound is tight -----

  /** p acquires and starts; its next renewal, wait ticks later, ends in a database error. */
  function FailedRenewal(p: nat, wait: nat): seq<Step> {
    [BeginAcquire(p), AcquireOk(p), Start(p), Pass(wait), BeginRenew(p, 1), RenewError(p, 1, false)]
  }

  function Takeover(p: nat, q: nat, wait: nat): seq<Step> {
    FailedRenewal(p, wait) + [BeginAcquire(q), AcquireOk(q), Start(q)]
  }

  lemma {:induction false} Unroll(s: State, steps: seq<Step>, i: nat, t: State)
    requires i < |steps| && Enabled(t, steps[i]) && Execute(s, steps) == Execute(t, steps[i..])
    ensures Execute(s, steps) == Execute(Next(t, steps[i]), steps[i + 1..])
  {
    assert steps[i..][1..] == steps[i + 1..];
  }

  /** After the failed renewal p is still running its adapter, on a row that has not moved. */
  lemma {:induction false} AfterFailedRenewal(p: nat, q: nat, wait: nat, rest: seq<Step>)
    requires p != q
    ensures Execute(Init({p, q}), FailedRenewal(p, wait) + rest) ==
            Execute(State(wait, Some(Row(p, TTL)),
                          map[p := Proc(Waiting, 1, {1}, map[1 := Ticking], false, 0), q := Idle()]), rest)
  {
    var steps := FailedRenewal(p, wait) + rest;
    assert steps[6..] == rest;
    var y := Proc(Waiting, 1, {1}, map[1 := Ticking], false, 0);
    AfterStart(p, q, steps, y);
    AfterError(Init({p, q}), p, q, wait, steps, y);
  }

  lemma {:induction false} AfterWon(p: nat, q: nat, steps: seq<Step>)
    requires p != q && |steps| >= 2 && steps[0] == BeginAcquire(p) && steps[1] == AcquireOk(p)
    ensures Execute(Init({p, q}), steps)
            == Execute(State(0, Some(Row(p, TTL)), map[p := Idle().(pc := Won), q := Idle()]), steps[2..])
  {
    var s, x := Init({p, q}), Idle();
    assert s.procs == map[p := x, q := x];
    Unroll(s, steps, 0, s);
    var s1 := State(0, None, map[p := x.(pc := Acquiring(0)), q := x]);
    assert Next(s, BeginAcquire(p)) == s1;
    Unroll(s, steps, 1, s1);
    assert Next(s1, AcquireOk(p)) == State(0, Some(Row(p, TTL)), map[p := x.(pc := Won), q := x]);
  }

  lemma {:induction false} AfterStart(p: nat, q: nat, steps: seq<Step>, y: Proc)
    requires p != q && y == Proc(Waiting, 1, {1}, map[1 := Ticking], false, 0)
    requires |steps| >= 3 && steps[0] == BeginAcquire(p) && steps[1] == AcquireOk(p) && steps[2] == Start(p)
    ensures Execute(Init({p, q}), steps) == Execute(State(0, Some(Row(p, TTL)), map[p := y, q := Idle()]), steps[3..])
  {
    var x := Idle();
    var s2 := State(0, Some(Row(p, TTL)), map[p := x.(pc := Won), q := x]);
    AfterWon(p, q, steps);
    Unroll(Init({p, q}), steps, 2, s2);
    assert NextProc(s2, Start(p)) == y by {
      assert x.adapters + {1} == {1} && x.renewers[1 := Ticking] == map[1 := Ticking];
    }
    assert Next(s2, Start(p)) == State(0, Some(Row(p, TTL)), map[p := y, q := x]);
  }

  lemma {:induction false} AfterError(s: State, p: nat, q: nat, wait: nat, steps: seq<Step>, y: Proc)
    requires p != q && y == Proc(Waiting, 1, {1}, map[1 := Ticking], false, 0)
    requires |steps| >= 6 && steps[3] == Pass(wait) && steps[4] == BeginRenew(p, 1)
    requires steps[5] == RenewError(p, 1, false)
    requires Execute(s, steps) == Execute(State(0, Some(Row(p, TTL)), map[p := y, q := Idle()]), steps[3..])
    ensures Execute(s, steps) == Execute(State(wait, Some(Row(p, TTL)), map[p := y, q := Idle()]), steps[6..])
  {
    var x := Idle();
    Unroll(s, steps, 3, State(0, Some(Row(p, TTL)), map[p := y, q := x]));
    var s4 := State(wait, Some(Row(p, TTL)), map[p := y, q := x]);
    Unroll(s, steps, 4, s4);
    var s5 := State(wait, Some(Row(p, TTL)), map[p := y.(renewers := map[1 := Renewing(wait)]), q := x]);
    assert y.renewers[1 := Renewing(wait)] == map[1 := Renewing(wait)];
    assert Next(s4, BeginRenew(p, 1)) == s5;
    Unroll(s, steps, 5, s5);
    assert s5.procs[p].renewers[1 := Ticking] == map[1 := Ticking];
    assert Next(s5, RenewError(p, 1, false)) == s4;
  }

  /** A renewal that ends in a database error keeps the adapter running, so a peer that
      asks one tick after the TTL runs a second adapter beside it; one that asks any
      earlier is refused. */
  lemma {:induction false} TakeoverExactlyAfterTtl(p: nat, q: nat, wait: nat)
    requires p != q
    ensures var r := Execute(Init({p, q}), Takeover(p, q, wait));
            if wait <= TTL then r.None?
            else r.Some? && p in r.value.procs && q in r.value.procs
                 && r.value.procs[p].adapters == {1} == r.value.procs[q].adapters
  {
    var rest := [BeginAcquire(q), AcquireOk(q), Start(q)];
    AfterFailedRenewal(p, q, wait, rest);
    var x, y := Idle(), Proc(Waiting, 1, {1}, map[1 := Ticking], false, 0);
    var s := State(wait, Some(Row(p, TTL)), map[p := y, q := x]);
    var s1 := State(wait, Some(Row(p, TTL)), map[p := y, q := x.(pc := Acquiring(wait))]);
    assert Next(s, BeginAcquire(q)) == s1;
    Unroll(s, rest, 0, s);
    if wait > TTL {
      Unroll(s, rest, 1, s1);
      var s2 := State(wait, Some(Row(q, wait + TTL)), map[p := y, q := x.(pc := Won, lastOk := wait)]);
      assert Next(s1, AcquireOk(q)) == s2;
      Unroll(s, rest, 2, s2);
    }
  }
}
