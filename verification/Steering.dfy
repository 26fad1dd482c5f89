/** Steering messages under any interleaving: users push while turns drain, fold and end.
    Each step is one critical section of the session, or one append of the loop. Messages
    are numbered in the order in which they are accepted. */
module Steering {
  import opened Options
  import opened SessionState

  /** held is what a turn has taken from the buffer and not yet appended; ending turns have
      called EndTurn and only flush; hook turns belong to the regex-hook branch. */
  datatype Turn = Turn(held: seq<nat>, ending: bool, hook: bool)

  datatype State = State(depth: nat, buf: seq<nat>, history: seq<nat>, lost: seq<nat>, turns: map<nat, Turn>, accepted: nat)

  datatype Step =
    | Begin(t: nat, hook: bool)
    | Push
    | Drain(t: nat)
    | Fold(t: nat)
    | End(t: nat)
    | EndHook(t: nat)
    | Finish(t: nat)

  predicate Enabled(s: State, step: Step) {
    match step
    case Begin(t, _) => t !in s.turns
    case Push => true
    case Drain(t) => t in s.turns && s.turns[t].held == [] && !s.turns[t].ending && !s.turns[t].hook
    case Fold(t) => t in s.turns && s.turns[t].held != []
    case End(t) => t in s.turns && s.turns[t].held == [] && !s.turns[t].ending && !s.turns[t].hook
    case EndHook(t) => t in s.turns && s.turns[t].hook
    case Finish(t) => t in s.turns && s.turns[t].held == [] && s.turns[t].ending
  }

  function Next(s: State, step: Step): State
    requires Enabled(s, step)
  {
    match step
    case Begin(t, hook) => s.(depth := s.depth + 1, turns := s.turns[t := Turn([], false, hook)])
    case Push =>
      s.(buf := Pushed(s.depth, s.buf, s.accepted), accepted := if s.depth == 0 then s.accepted else s.accepted + 1)
    case Drain(t) => s.(buf := [], turns := s.turns[t := s.turns[t].(held := s.buf)])
    case Fold(t) =>
      var held := s.turns[t].held;
      s.(history := s.history + [held[0]], turns := s.turns[t := s.turns[t].(held := held[1..])])
    case End(t) =>
      s.(depth := DepthAfterEnd(s.depth), buf := BufferAfterEnd(s.depth, s.buf),
         turns := s.turns[t := Turn(Leftover(s.depth, s.buf), true, false)])
    case EndHook(t) =>
      s.(depth := DepthAfterEnd(s.depth), buf := BufferAfterEnd(s.depth, s.buf),
         lost := s.lost + Leftover(s.depth, s.buf), turns := s.turns - {t})
    case Finish(t) => s.(turns := s.turns - {t})
  }

  function Execute(s: State, steps: seq<Step>): Option<State>
    decreases |steps|
  {
    if steps == [] then Some(s)
    else if Enabled(s, steps[0]) then Execute(Next(s, steps[0]), steps[1..])
    else None
  }

  function Start(): State { State(0, [], [], [], map[], 0) }

  // ----- exactly once -----

  /** Where the message numbered m is. */
  datatype Place = InBuffer | InHistory | Lost | Held(t: nat)

  function At(s: State, p: Place): seq<nat> {
    match p
    case InBuffer => s.buf
    case InHistory => s.history
    case Lost => s.lost
    case Held(t) => if t in s.turns then s.turns[t].held else []
  }

  /** One position of one place. */
  datatype Slot = Slot(place: Place, index: nat)

  predicate Used(s: State, x: Slot) { x.index < |At(s, x.place)| }

  function Get(s: State, x: Slot): nat
    requires Used(s, x)
  {
    At(s, x.place)[x.index]
  }

  /** Every accepted message is in exactly one slot, and nothing else is in any. */
  ghost predicate Conserved(s: State) {
    && (forall x :: Used(s, x) ==> Get(s, x) < s.accepted)
    && (forall x, y :: Used(s, x) && Used(s, y) && Get(s, x) == Get(s, y) ==> x == y)
    && (forall m: nat :: m < s.accepted ==> Somewhere(s, m))
  }

  ghost predicate Somewhere(s: State, m: nat) {
    exists x :: Used(s, x) && Get(s, x) == m
  }

  /** The first n messages of one place have moved to the end of another. */
  ghost predicate Moved(s: State, t: State, from: Place, to: Place, n: nat) {
    && from != to && n <= |At(s, from)|
    && At(t, from) == At(s, from)[n..] && At(t, to) == At(s, to) + At(s, from)[..n]
    && forall p :: p != from && p != to ==> At(t, p) == At(s, p)
  }

  /** Where the content of a slot was before the move. */
  function Before(s: State, from: Place, to: Place, n: nat, x: Slot): Slot {
    if x.place == from then Slot(from, x.index + n)
    else if x.place == to && |At(s, to)| <= x.index then Slot(from, x.index - |At(s, to)|)
    else x
  }

  lemma {:induction false} BeforeSame(s: State, t: State, from: Place, to: Place, n: nat, x: Slot)
    requires Moved(s, t, from, to, n) && Used(t, x)
    ensures var y := Before(s, from, to, n, x); Used(s, y) && Get(s, y) == Get(t, x)
  {}

  /** Where the content of a slot is after the move. */
  function AfterMove(s: State, from: Place, to: Place, n: nat, y: Slot): Slot {
    if y.place != from then y
    else if y.index < n then Slot(to, |At(s, to)| + y.index)
    else Slot(from, y.index - n)
  }

  lemma {:induction false} TakeAndDrop(a: seq<nat>, b: seq<nat>, n: nat, i: nat)
    requires n <= |a| && i < |a|
    ensures if i < n then |b| + i < |b + a[..n]| && (b + a[..n])[|b| + i] == a[i]
            else i - n < |a[n..]| && a[n..][i - n] == a[i]
  {}

  lemma {:induction false} KeptInFront(a: seq<nat>, b: seq<nat>, i: nat)
    requires i < |b|
    ensures i < |b + a| && (b + a)[i] == b[i]
  {}

  lemma {:induction false} AfterSame(s: State, t: State, from: Place, to: Place, n: nat, y: Slot)
    requires Moved(s, t, from, to, n) && Used(s, y)
    ensures Somewhere(t, Get(s, y))
  {
    var x := AfterMove(s, from, to, n, y);
    if y.place == from {
      TakeAndDrop(At(s, from), At(s, to), n, y.index);
    } else if y.place == to {
      KeptInFront(At(s, from)[..n], At(s, to), y.index);
    }
    assert Used(t, x) && Get(t, x) == Get(s, y);
  }

  lemma {:induction false} BeforeInjective(s: State, t: State, from: Place, to: Place, n: nat, x: Slot, y: Slot)
    requires Moved(s, t, from, to, n) && Used(t, x) && Used(t, y)
    requires Before(s, from, to, n, x) == Before(s, from, to, n, y)
    ensures x == y
  {}

  lemma {:induction false} MoveKeepsDistinct(s: State, t: State, from: Place, to: Place, n: nat, x: Slot, y: Slot)
    requires Conserved(s) && Moved(s, t, from, to, n)
    requires Used(t, x) && Used(t, y) && Get(t, x) == Get(t, y)
    ensures x == y && Get(t, x) < s.accepted
  {
    BeforeSame(s, t, from, to, n, x);
    BeforeSame(s, t, from, to, n, y);
    BeforeInjective(s, t, from, to, n, x, y);
  }

  lemma {:induction false} MoveKeepsConserved(s: State, t: State, from: Place, to: Place, n: nat)
    requires Conserved(s) && Moved(s, t, from, to, n) && t.accepted == s.accepted
    ensures Conserved(t)
  {
    forall x, y | Used(t, x) && Used(t, y) && Get(t, x) == Get(t, y) ensures x == y && Get(t, x) < t.accepted {
      MoveKeepsDistinct(s, t, from, to, n, x, y);
    }
    forall m: nat | m < t.accepted ensures Somewhere(t, m) {
      assert Somewhere(s, m);
      var y :| Used(s, y) && Get(s, y) == m;
      AfterSame(s, t, from, to, n, y);
    }
  }

  lemma {:induction false} SameContentKeepsConserved(s: State, t: State)
    requires Conserved(s) && t.accepted == s.accepted && forall p :: At(t, p) == At(s, p)
    ensures Conserved(t)
  {
    forall x | Used(t, x) ensures Get(t, x) < t.accepted {
      assert Used(s, x) && Get(s, x) == Get(t, x);
    }
    forall x, y | Used(t, x) && Used(t, y) && Get(t, x) == Get(t, y) ensures x == y {
      assert Used(s, x) && Used(s, y);
    }
    forall m: nat | m < t.accepted ensures Somewhere(t, m) {
      assert Somewhere(s, m);
      var y :| Used(s, y) && Get(s, y) == m;
      assert Used(t, y) && Get(t, y) == m;
    }
  }

  lemma {:induction false} PushKeepsConserved(s: State)
    requires Conserved(s) && s.depth > 0
    ensures Conserved(Next(s, Push))
  {
    var t := Next(s, Push);
    forall x | Used(t, x) ensures Get(t, x) < t.accepted {
      assert Used(s, x) || x == Slot(InBuffer, |s.buf|);
    }
    forall x, y | Used(t, x) && Used(t, y) && Get(t, x) == Get(t, y) ensures x == y {
      assert (Used(s, x) && Get(s, x) == Get(t, x)) || x == Slot(InBuffer, |s.buf|);
      assert (Used(s, y) && Get(s, y) == Get(t, y)) || y == Slot(InBuffer, |s.buf|);
    }
    forall m: nat | m < t.accepted ensures Somewhere(t, m) {
      if m == s.accepted {
        assert Used(t, Slot(InBuffer, |s.buf|));
      } else {
        assert Somewhere(s, m);
        var y :| Used(s, y) && Get(s, y) == m;
        assert Used(t, y) && Get(t, y) == m;
      }
    }
  }

  /** The turns that still keep the session open. */
  function Open(turns: map<nat, Turn>): set<nat> {
    set t | t in turns && !turns[t].ending
  }

  ghost predicate Inv(s: State) {
    && Conserved(s)
    && s.depth == |Open(s.turns)|
    && (s.depth == 0 ==> s.buf == [])
    && (forall t :: t in s.turns && s.turns[t].hook ==> s.turns[t].held == [] && !s.turns[t].ending)
  }

  lemma {:induction false} OpenAfter(turns: map<nat, Turn>, k: nat, x: Turn)
    ensures Open(turns[k := x]) == if x.ending then Open(turns) - {k} else Open(turns) + {k}
    ensures Open(turns - {k}) == Open(turns) - {k}
  {}

  lemma {:induction false} DepthCounts(s: State, step: Step)
    requires Enabled(s, step) && s.depth == |Open(s.turns)|
    requires forall t :: t in s.turns && s.turns[t].hook ==> !s.turns[t].ending
    ensures Next(s, step).depth == |Open(Next(s, step).turns)|
  {
    if !step.Push? {
      var t := Next(s, step);
      var k := step.t;
      OpenAfter(s.turns, k, if k in t.turns then t.turns[k] else Turn([], true, false));
      if k in s.turns && !s.turns[k].ending { assert k in Open(s.turns); assert Open(s.turns) + {k} == Open(s.turns); }
    }
  }

  /** A drain, and the end of the last turn, move the whole buffer to a turn. */
  lemma {:induction false} TakingKeepsConserved(s: State, t: State, k: nat, x: Turn)
    requires Conserved(s) && k in s.turns && s.turns[k].held == [] && x.held == s.buf
    requires t == s.(buf := [], depth := t.depth, turns := s.turns[k := x])
    ensures Conserved(t)
  {
    assert s.buf[|s.buf|..] == [] && s.buf[..|s.buf|] == s.buf;
    MoveKeepsConserved(s, t, InBuffer, Held(k), |s.buf|);
  }

  lemma {:induction false} FoldKeepsConserved(s: State, k: nat)
    requires Conserved(s) && Enabled(s, Fold(k))
    ensures Conserved(Next(s, Fold(k)))
  {
    assert s.turns[k].held[..1] == [s.turns[k].held[0]];
    MoveKeepsConserved(s, Next(s, Fold(k)), Held(k), InHistory, 1);
  }

  lemma {:induction false} DroppingKeepsConserved(s: State, t: State, k: nat)
    requires Conserved(s) && k in s.turns && s.turns[k].held == []
    requires t == s.(buf := [], depth := t.depth, lost := s.lost + s.buf, turns := s.turns - {k})
    ensures Conserved(t)
  {
    assert s.buf[|s.buf|..] == [] && s.buf[..|s.buf|] == s.buf;
    MoveKeepsConserved(s, t, InBuffer, Lost, |s.buf|);
  }

  lemma {:induction false} StepKeepsConserved(s: State, step: Step)
    requires Inv(s) && Enabled(s, step)
    ensures Conserved(Next(s, step))
  {
    var t := Next(s, step);
    match step
    case Begin(_, _) => SameContentKeepsConserved(s, t);
    case Push =>
      if s.depth > 0 { PushKeepsConserved(s); } else { SameContentKeepsConserved(s, t); }
    case Drain(k) => TakingKeepsConserved(s, t, k, t.turns[k]);
    case Fold(k) => FoldKeepsConserved(s, k);
    case End(k) =>
      if t.depth > 0 { SameContentKeepsConserved(s, t); } else { TakingKeepsConserved(s, t, k, t.turns[k]); }
    case EndHook(k) =>
      if t.depth > 0 { EndingSameContent(s, t); } else { DroppingKeepsConserved(s, t, k); }
    case Finish(_) => SameContentKeepsConserved(s, t);
  }

  lemma {:induction false} EndingSameContent(s: State, t: State)
    requires Conserved(s) && t.accepted == s.accepted && t.buf == s.buf && t.history == s.history && t.lost == s.lost + []
    requires forall k :: At(t, Held(k)) == At(s, Held(k))
    ensures Conserved(t)
  {
    assert s.lost + [] == s.lost;
    SameContentKeepsConserved(s, t);
  }

  lemma {:induction false} StepKeepsInv(s: State, step: Step)
    requires Inv(s) && Enabled(s, step)
    ensures Inv(Next(s, step))
  {
    StepKeepsConserved(s, step);
    DepthCounts(s, step);
  }

  lemma {:induction false} ExecuteKeepsInv(s: State, steps: seq<Step>)
    requires Inv(s)
    ensures Execute(s, steps).Some? ==> Inv(Execute(s, steps).value)
    decreases |steps|
  {
    if steps != [] && Enabled(s, steps[0]) {
      StepKeepsInv(s, steps[0]);
      ExecuteKeepsInv(Next(s, steps[0]), steps[1..]);
    }
  }

  ghost predicate Reachable(s: State) {
    exists steps :: Execute(Start(), steps) == Some(s)
  }

  lemma {:induction false} ReachableInv(s: State)
    requires Reachable(s)
    ensures Inv(s)
  {
    assert Open(map[]) == {};
    var steps :| Execute(Start(), steps) == Some(s);
    ExecuteKeepsInv(Start(), steps);
  }

  ghost predicate OnlyAt(q: seq<nat>, m: nat, i: int) {
    0 <= i < |q| && q[i] == m && forall j :: 0 <= j < |q| && q[j] == m ==> j == i
  }

  /** Once no turn is in flight, every accepted message stands in the history, or was
      dropped by the regex-hook branch, at exactly one position of the two together. */
  lemma {:induction false} ExactlyOnce(s: State, m: nat)
    requires Reachable(s) && s.turns == map[] && m < s.accepted
    ensures exists i :: OnlyAt(s.history + s.lost, m, i)
  {
    ReachableInv(s);
    assert Open(s.turns) == {};
    assert Somewhere(s, m);
    var x :| Used(s, x) && Get(s, x) == m;
    assert x.place == InHistory || x.place == Lost;
    var all := s.history + s.lost;
    var i := if x.place == InHistory then x.index else |s.history| + x.index;
    forall j | 0 <= j < |all| && all[j] == m ensures j == i {
      assert SlotOf(s, j) == x;
    }
    assert OnlyAt(all, m, i);
  }

  function SlotOf(s: State, i: nat): (x: Slot)
    requires i < |s.history + s.lost|
    ensures Used(s, x) && Get(s, x) == (s.history + s.lost)[i]
  {
    if i < |s.history| then Slot(InHistory, i) else Slot(Lost, i - |s.history|)
  }

  // ----- in acceptance order -----

  function FirstMessages(n: nat): (r: seq<nat>)
    ensures |r| == n && forall i :: 0 <= i < n ==> r[i] == i
  {
    seq(n, i requires 0 <= i < n => i)
  }

  ghost predicate Increasing(q: seq<nat>) {
    forall i, j :: 0 <= i < j < |q| ==> q[i] < q[j]
  }

  predicate Normal(x: Turn) { !x.ending && !x.hook }

  /** While one turn can still drain, another one can drain as well or has messages left to
      fold. */
  ghost predicate AtRisk(s: State) {
    exists t, k :: t in s.turns && k in s.turns && Rivals(s, t, k)
  }

  ghost predicate Rivals(s: State, t: nat, k: nat)
    requires t in s.turns && k in s.turns
  {
    t != k && Normal(s.turns[k]) && (Normal(s.turns[t]) || s.turns[t].held != [])
  }

  /** Everything that is still to be folded comes behind the history, in acceptance order. */
  ghost predicate Lined(s: State) {
    && Increasing(s.history + s.buf)
    && (forall t :: t in s.turns && s.turns[t].held != [] ==> Increasing(s.history + s.turns[t].held + s.buf))
    && (forall t, k :: t in s.turns && k in s.turns && t != k && s.turns[t].held != [] ==> s.turns[k].held == [])
  }

  lemma {:induction false} AllBelow(s: State)
    requires Conserved(s)
    ensures forall i :: 0 <= i < |s.history| ==> s.history[i] < s.accepted
    ensures forall i :: 0 <= i < |s.buf| ==> s.buf[i] < s.accepted
    ensures forall t, i :: t in s.turns && 0 <= i < |s.turns[t].held| ==> s.turns[t].held[i] < s.accepted
  {
    forall i | 0 <= i < |s.history| ensures s.history[i] < s.accepted { assert Used(s, Slot(InHistory, i)); }
    forall i | 0 <= i < |s.buf| ensures s.buf[i] < s.accepted { assert Used(s, Slot(InBuffer, i)); }
    forall t, i | t in s.turns && 0 <= i < |s.turns[t].held| ensures s.turns[t].held[i] < s.accepted {
      assert Used(s, Slot(Held(t), i));
    }
  }

  lemma {:induction false} IncreasingSnoc(q: seq<nat>, m: nat)
    requires Increasing(q) && forall i :: 0 <= i < |q| ==> q[i] < m
    ensures Increasing(q + [m])
  {}

  lemma {:induction false} IncreasingWithout(a: seq<nat>, b: seq<nat>, c: seq<nat>)
    requires Increasing(a + b + c)
    ensures Increasing(a + c)
  {
    var w, q := a + b + c, a + c;
    forall i, j | 0 <= i < j < |q| ensures q[i] < q[j] {
      assert q[i] == w[if i < |a| then i else i + |b|] && q[j] == w[if j < |a| then j else j + |b|];
    }
  }

  lemma {:induction false} PushKeepsLined(s: State)
    requires Conserved(s) && Lined(s) && s.depth > 0
    ensures Lined(Next(s, Push))
  {
    AllBelow(s);
    IncreasingSnoc(s.history + s.buf, s.accepted);
    assert s.history + (s.buf + [s.accepted]) == s.history + s.buf + [s.accepted];
    forall t | t in s.turns && s.turns[t].held != []
      ensures Increasing(s.history + s.turns[t].held + (s.buf + [s.accepted]))
    {
      IncreasingSnoc(s.history + s.turns[t].held + s.buf, s.accepted);
      assert s.history + s.turns[t].held + (s.buf + [s.accepted]) == s.history + s.turns[t].held + s.buf + [s.accepted];
    }
  }

  /** The turn k takes the whole buffer. */
  lemma {:induction false} TakingKeepsLined(s: State, t: State, k: nat)
    requires Lined(s) && k in s.turns && Normal(s.turns[k]) && !AtRisk(s)
    requires t.history == s.history && t.buf == [] && k in t.turns && t.turns[k].held == s.buf
    requires t.turns.Keys == s.turns.Keys && forall j :: j in s.turns && j != k ==> t.turns[j] == s.turns[j]
    ensures Lined(t)
  {
    assert s.history + s.buf + [] == s.history + s.buf;
    assert s.history + [] == s.history;
    IncreasingWithout(s.history, s.buf, []);
    forall j | j in s.turns && j != k ensures s.turns[j].held == [] {
      assert !Rivals(s, j, k);
    }
  }

  lemma {:induction false} FoldKeepsLined(s: State, k: nat)
    requires Lined(s) && k in s.turns && s.turns[k].held != []
    ensures Lined(Next(s, Fold(k)))
  {
    var t, held := Next(s, Fold(k)), s.turns[k].held;
    assert t.history + held[1..] + t.buf == s.history + held + s.buf;
    IncreasingWithout(t.history, held[1..], t.buf);
  }

  lemma {:induction false} DroppingKeepsLined(s: State, t: State)
    requires Lined(s) && t.history == s.history && (t.buf == s.buf || t.buf == [])
    requires t.turns.Keys <= s.turns.Keys && forall j :: j in t.turns ==> t.turns[j].held == s.turns[j].held
    ensures Lined(t)
  {
    assert s.history + s.buf + [] == s.history + s.buf && s.history + [] == s.history;
    IncreasingWithout(s.history, s.buf, []);
    forall j | j in t.turns && t.turns[j].held != [] ensures Increasing(t.history + t.turns[j].held + t.buf) {
      var front := s.history + s.turns[j].held;
      assert front + s.buf + [] == front + s.buf && front + [] == front;
      IncreasingWithout(front, s.buf, []);
    }
  }

  lemma {:induction false} StepKeepsLined(s: State, step: Step)
    requires Inv(s) && Lined(s) && Enabled(s, step) && !AtRisk(s)
    ensures Lined(Next(s, step))
  {
    var t := Next(s, step);
    match step
    case Begin(_, _) =>
    case Push => if s.depth > 0 { PushKeepsLined(s); }
    case Drain(k) => TakingKeepsLined(s, t, k);
    case Fold(k) => FoldKeepsLined(s, k);
    case End(k) => if t.depth > 0 { DroppingKeepsLined(s, t); } else { TakingKeepsLined(s, t, k); }
    case EndHook(_) => DroppingKeepsLined(s, t);
    case Finish(_) => DroppingKeepsLined(s, t);
  }

  /** A run in which no state is at risk. */
  ghost predicate Calm(s: State, steps: seq<Step>)
    decreases |steps|
  {
    !AtRisk(s) && (steps == [] || (Enabled(s, steps[0]) && Calm(Next(s, steps[0]), steps[1..])))
  }

  lemma {:induction false} CalmKeepsLined(s: State, steps: seq<Step>)
    requires Inv(s) && Lined(s) && Calm(s, steps)
    ensures Execute(s, steps).Some? && Lined(Execute(s, steps).value)
    decreases |steps|
  {
    if steps != [] {
      StepKeepsInv(s, steps[0]);
      StepKeepsLined(s, steps[0]);
      CalmKeepsLined(Next(s, steps[0]), steps[1..]);
    }
  }

  /** As long as no state is at risk, the history is in acceptance order, hooks or not. */
  lemma {:induction false} CalmRunsInOrder(steps: seq<Step>)
    requires Calm(Start(), steps)
    ensures Execute(Start(), steps).Some? && Increasing(Execute(Start(), steps).value.history)
  {
    assert Open(map[]) == {};
    CalmKeepsLined(Start(), steps);
    var s := Execute(Start(), steps).value;
    assert s.history + s.buf + [] == s.history + s.buf && s.history + [] == s.history;
    IncreasingWithout(s.history, s.buf, []);
  }

  // ----- nothing lost -----

  ghost predicate NoHooks(steps: seq<Step>) {
    forall i :: 0 <= i < |steps| && steps[i].Begin? ==> !steps[i].hook
  }

  ghost predicate HookOpen(s: State) {
    exists t :: t in s.turns && s.turns[t].hook
  }

  lemma {:induction false} NoHooksKeepsAll(s: State, steps: seq<Step>)
    requires s.lost == [] && !HookOpen(s) && NoHooks(steps)
    ensures Execute(s, steps).Some? ==> Execute(s, steps).value.lost == [] && !HookOpen(Execute(s, steps).value)
    decreases |steps|
  {
    if steps != [] && Enabled(s, steps[0]) {
      NoHooksKeepsAll(Next(s, steps[0]), steps[1..]);
    }
  }

  /** Without the regex-hook branch no accepted message is lost, under any interleaving. */
  lemma {:induction false} NoHooksNothingLost(steps: seq<Step>)
    requires NoHooks(steps)
    ensures Execute(Start(), steps).Some? ==> Execute(Start(), steps).value.lost == []
  {
    NoHooksKeepsAll(Start(), steps);
  }

  lemma {:induction false} IncreasingAllIsFirst(q: seq<nat>, n: nat)
    requires Increasing(q) && (forall i :: 0 <= i < |q| ==> q[i] < n) && (forall m: nat :: m < n ==> m in q)
    ensures q == FirstMessages(n)
  {
    if n == 0 {
    } else {
      assert n - 1 in q;
      var last := |q| - 1;
      assert q[last] == n - 1;
      forall m: nat | m < n - 1 ensures m in q[..last] {
        assert m in q;
        var i :| 0 <= i < |q| && q[i] == m;
        assert q[..last][i] == m;
      }
      IncreasingAllIsFirst(q[..last], n - 1);
      assert q == q[..last] + [n - 1];
    }
  }

  /** Once the last turn has ended, the history holds every accepted message, once, in
      acceptance order, if no state was at risk and no turn took the regex-hook branch. */
  lemma {:induction false} SteeringInOrder(steps: seq<Step>)
    requires Calm(Start(), steps) && NoHooks(steps)
    ensures var s := Execute(Start(), steps);
            s.Some? && (s.value.turns == map[] ==> s.value.history == FirstMessages(s.value.accepted))
  {
    CalmRunsInOrder(steps);
    NoHooksNothingLost(steps);
    var s := Execute(Start(), steps).value;
    ReachableInv(s);
    if s.turns == map[] {
      assert Open(s.turns) == {};
      AllBelow(s);
      forall m: nat | m < s.accepted ensures m in s.history {
        assert Somewhere(s, m);
        var x :| Used(s, x) && Get(s, x) == m;
        assert x.place == InHistory;
      }
      IncreasingAllIsFirst(s.history, s.accepted);
    }
  }

  /** Turns of one session that follow one another. */
  ghost predicate Sequential(s: State, steps: seq<Step>)
    decreases |steps|
  {
    steps == [] ||
    (Enabled(s, steps[0]) && (steps[0].Begin? ==> s.turns == map[]) && Sequential(Next(s, steps[0]), steps[1..]))
  }

  ghost predicate AtMostOne(s: State) {
    forall t, k :: t in s.turns && k in s.turns ==> t == k
  }

  /** One turn at a time is never at risk. */
  lemma {:induction false} SequentialIsCalm(s: State, steps: seq<Step>)
    requires AtMostOne(s) && Sequential(s, steps)
    ensures Calm(s, steps)
    decreases |steps|
  {
    if steps != [] { SequentialIsCalm(Next(s, steps[0]), steps[1..]); }
  }

  // ----- where it can go wrong -----

  ghost predicate NoNewTurn(steps: seq<Step>) {
    forall i :: 0 <= i < |steps| ==> !steps[i].Begin?
  }

  /** The turns that are open can bring the session there. */
  ghost predicate Leads(s: State, e: State) {
    exists steps :: NoNewTurn(steps) && Execute(s, steps) == Some(e)
  }

  lemma {:induction false} ExecuteConcat(s: State, p: seq<Step>, q: seq<Step>)
    requires Execute(s, p).Some?
    ensures Execute(s, p + q) == Execute(Execute(s, p).value, q)
    decreases |p|
  {
    if p == [] {
      assert p + q == q;
    } else {
      assert (p + q)[1..] == p[1..] + q;
      ExecuteConcat(Next(s, p[0]), p[1..], q);
    }
  }

  lemma {:induction false} LeadsOn(s: State, m: State, e: State)
    requires Leads(s, m) && Leads(m, e)
    ensures Leads(s, e)
  {
    var p :| NoNewTurn(p) && Execute(s, p) == Some(m);
    var q :| NoNewTurn(q) && Execute(m, q) == Some(e);
    ExecuteConcat(s, p, q);
    assert NoNewTurn(p + q);
  }

  lemma {:induction false} LeadsStep(s: State, step: Step)
    requires Enabled(s, step) && !step.Begin?
    ensures Leads(s, Next(s, step)) && Leads(s, s)
  {
    assert Execute(s, [step]) == Some(Next(s, step)) by { assert [step][1..] == []; }
    assert NoNewTurn([step]) && NoNewTurn([]) && Execute(s, []) == Some(s);
  }

  lemma {:induction false} LeadsKeepsInv(s: State, e: State)
    requires Inv(s) && Leads(s, e)
    ensures Inv(e)
  {
    var p :| NoNewTurn(p) && Execute(s, p) == Some(e);
    ExecuteKeepsInv(s, p);
  }

  function Folded(s: State, t: nat): State
    requires t in s.turns
  {
    s.(history := s.history + s.turns[t].held, turns := s.turns[t := s.turns[t].(held := [])])
  }

  lemma {:induction false} FoldAll(s: State, t: nat)
    requires t in s.turns
    ensures Leads(s, Folded(s, t))
    decreases |s.turns[t].held|
  {
    if s.turns[t].held == [] {
      assert Folded(s, t) == s by { assert s.turns[t := s.turns[t].(held := [])] == s.turns; }
      assert NoNewTurn([]) && Execute(s, []) == Some(s);
    } else {
      var n := Next(s, Fold(t));
      LeadsStep(s, Fold(t));
      FoldAll(n, t);
      FoldedNext(s, t);
      LeadsOn(s, n, Folded(s, t));
    }
  }

  lemma {:induction false} FoldedNext(s: State, t: nat)
    requires t in s.turns && s.turns[t].held != []
    ensures Folded(Next(s, Fold(t)), t) == Folded(s, t)
  {
    var n, held := Next(s, Fold(t)), s.turns[t].held;
    assert n.history + held[1..] == s.history + held;
    assert n.turns[t := n.turns[t].(held := [])] == s.turns[t := s.turns[t].(held := [])];
  }

  /** Any turn can be brought to its end while the others stand still. */
  lemma {:induction false} CanEnd(s: State, t: nat) returns (e: State)
    requires Inv(s) && t in s.turns
    ensures Leads(s, e) && e.turns == s.turns - {t} && s.history <= e.history
  {
    if s.turns[t].hook {
      e := Next(s, EndHook(t));
      LeadsStep(s, EndHook(t));
    } else if s.turns[t].ending {
      e := CanFinish(s, t);
    } else {
      var f := Folded(s, t);
      FoldAll(s, t);
      var n := Next(f, End(t));
      LeadsStep(f, End(t));
      LeadsOn(s, f, n);
      e := CanFinish(n, t);
      LeadsOn(s, n, e);
      assert e.turns == s.turns - {t};
    }
  }

  lemma {:induction false} CanFinish(s: State, t: nat) returns (e: State)
    requires t in s.turns && s.turns[t].ending
    ensures Leads(s, e) && e.turns == s.turns - {t} && s.history <= e.history
  {
    var f := Folded(s, t);
    FoldAll(s, t);
    e := Next(f, Finish(t));
    LeadsStep(f, Finish(t));
    LeadsOn(s, f, e);
    assert e.turns == s.turns - {t};
  }

  /** All turns but the kept ones can be brought to their end. */
  lemma {:induction false} CanEndAllBut(s: State, keep: set<nat>) returns (e: State)
    requires Inv(s)
    ensures Leads(s, e) && Inv(e) && e.turns == s.turns - (s.turns.Keys - keep) && s.history <= e.history
    decreases s.turns.Keys - keep
  {
    if s.turns.Keys - keep == {} {
      e := s;
      assert e.turns == s.turns - (s.turns.Keys - keep);
      assert NoNewTurn([]) && Execute(s, []) == Some(s);
    } else {
      var t :| t in s.turns.Keys - keep;
      var n := CanEnd(s, t);
      LeadsKeepsInv(s, n);
      assert n.turns.Keys == s.turns.Keys - {t};
      e := CanEndAllBut(n, keep);
      LeadsOn(s, n, e);
      assert e.turns == s.turns - (s.turns.Keys - keep);
    }
  }

  /** Out of acceptance order when the last turn has ended. */
  ghost predicate EndsReordered(s: State) {
    exists e :: Leads(s, e) && e.turns == map[] && !Increasing(e.history)
  }

  lemma {:induction false} ReorderedStays(s: State, m: State)
    requires Inv(s) && Leads(s, m) && !Increasing(m.history)
    ensures EndsReordered(s)
  {
    LeadsKeepsInv(s, m);
    var e := CanEndAllBut(m, {});
    assert e.turns == map[];
    LeadsOn(s, m, e);
    var i, j :| 0 <= i < j < |m.history| && m.history[i] >= m.history[j];
    assert e.history[i] == m.history[i] && e.history[j] == m.history[j];
  }

  /** The turn k can drain, the turn t holds a message: k accepts a later one and folds it first. */
  lemma {:induction false} HolderIsOvertaken(s: State, t: nat, k: nat)
    requires Inv(s) && t in s.turns && k in s.turns && t != k && s.turns[t].held != [] && Normal(s.turns[k])
    ensures EndsReordered(s)
  {
    var f := Folded(s, k);
    FoldAll(s, k);
    LeadsKeepsInv(s, f);
    var g := LaterFolded(f, k);
    LeadsOn(s, f, g);
    var e := Next(g, Fold(t));
    LeadsStep(g, Fold(t));
    LeadsOn(s, g, e);
    AllBelow(s);
    assert e.history[|g.history| - 1] == s.accepted && e.history[|g.history|] == s.turns[t].held[0];
    ReorderedStays(s, e);
  }

  /** A turn that can drain, and holds nothing, brings the next accepted message to the end
      of the history. */
  lemma {:induction false} LaterFolded(s: State, k: nat) returns (e: State)
    requires Inv(s) && k in s.turns && Normal(s.turns[k]) && s.turns[k].held == []
    ensures Leads(s, e) && e.history != [] && e.history[|e.history| - 1] == s.accepted
    ensures e.turns.Keys == s.turns.Keys && forall j :: j in s.turns && j != k ==> e.turns[j] == s.turns[j]
  {
    assert k in Open(s.turns);
    var p := Next(s, Push);
    LeadsStep(s, Push);
    var d := Next(p, Drain(k));
    LeadsStep(p, Drain(k));
    LeadsOn(s, p, d);
    assert d.turns[k].held == s.buf + [s.accepted];
    e := Folded(d, k);
    FoldAll(d, k);
    LeadsOn(s, d, e);
  }

  lemma {:induction false} RivalsReorder(s: State, t: nat, k: nat)
    requires Inv(s) && t in s.turns && k in s.turns && Rivals(s, t, k)
    ensures EndsReordered(s)
  {
    if s.turns[t].held != [] {
      HolderIsOvertaken(s, t, k);
    } else {
      assert t in Open(s.turns);
      var p := Next(s, Push);
      LeadsStep(s, Push);
      var d := Next(p, Drain(t));
      LeadsStep(p, Drain(t));
      LeadsOn(s, p, d);
      LeadsKeepsInv(s, d);
      assert d.turns[t].held == s.buf + [s.accepted];
      HolderIsOvertaken(d, t, k);
      var e :| Leads(d, e) && e.turns == map[] && !Increasing(e.history);
      LeadsOn(s, d, e);
    }
  }

  lemma {:induction false} StepStaysCalm(s: State, step: Step)
    requires !AtRisk(s) && Enabled(s, step) && !step.Begin?
    ensures !AtRisk(Next(s, step))
  {
    var n := Next(s, step);
    forall t, k | t in n.turns && k in n.turns ensures !Rivals(n, t, k) {
      assert t in s.turns && k in s.turns && !Rivals(s, t, k);
    }
  }

  lemma {:induction false} StaysLined(s: State, steps: seq<Step>)
    requires Inv(s) && Lined(s) && !AtRisk(s) && NoNewTurn(steps)
    ensures Execute(s, steps).Some? ==> Lined(Execute(s, steps).value)
    decreases |steps|
  {
    if steps != [] && Enabled(s, steps[0]) {
      StepKeepsInv(s, steps[0]);
      StepKeepsLined(s, steps[0]);
      StepStaysCalm(s, steps[0]);
      StaysLined(Next(s, steps[0]), steps[1..]);
    }
  }

  /** In order so far or not: every reachable state at risk can end out of order. */
  lemma {:induction false} AtRiskReorders(s: State)
    requires Reachable(s) && AtRisk(s)
    ensures EndsReordered(s)
  {
    ReachableInv(s);
    var t, k :| t in s.turns && k in s.turns && Rivals(s, t, k);
    RivalsReorder(s, t, k);
  }

  // ----- where it has gone wrong already -----

  /** What is buffered is younger than what was taken from the buffer, and a turn takes it in
      order. */
  ghost predicate Young(s: State) {
    && Increasing(s.buf) && Below(s.history, s.buf)
    && forall t :: t in s.turns ==> Increasing(s.turns[t].held) && Below(s.turns[t].held, s.buf)
  }

  ghost predicate Below(a: seq<nat>, b: seq<nat>) {
    forall i, j :: 0 <= i < |a| && 0 <= j < |b| ==> a[i] < b[j]
  }

  lemma {:induction false} StepKeepsYoung(s: State, step: Step)
    requires Conserved(s) && Young(s) && Enabled(s, step)
    ensures Young(Next(s, step))
  {
    AllBelow(s);
  }

  lemma {:induction false} ExecuteKeepsYoung(s: State, steps: seq<Step>)
    requires Inv(s) && Young(s)
    ensures Execute(s, steps).Some? ==> Young(Execute(s, steps).value)
    decreases |steps|
  {
    if steps != [] && Enabled(s, steps[0]) {
      StepKeepsInv(s, steps[0]);
      StepKeepsYoung(s, steps[0]);
      ExecuteKeepsYoung(Next(s, steps[0]), steps[1..]);
    }
  }

  lemma {:induction false} ReachableYoung(s: State)
    requires Reachable(s)
    ensures Young(s)
  {
    assert Open(map[]) == {};
    var steps :| Execute(Start(), steps) == Some(s);
    ExecuteKeepsYoung(Start(), steps);
  }

  lemma {:induction false} IncreasingConcat(a: seq<nat>, b: seq<nat>)
    requires Increasing(a) && Increasing(b) && Below(a, b)
    ensures Increasing(a + b)
  {}

  lemma {:induction false} BelowConcat(a: seq<nat>, b: seq<nat>, c: seq<nat>)
    requires Below(a, c) && Below(b, c)
    ensures Below(a + b, c)
  {}

  /** What one turn holds goes out of order behind the history. */
  lemma {:induction false} HeldTooOld(s: State, t: nat)
    requires Inv(s) && t in s.turns && !Increasing(s.history + s.turns[t].held)
    ensures EndsReordered(s)
  {
    FoldAll(s, t);
    ReorderedStays(s, Folded(s, t));
  }

  /** Two turns hold messages: the younger one can be folded first. */
  lemma {:induction false} TwoHoldersReorder(s: State, t: nat, k: nat)
    requires Inv(s) && t in s.turns && k in s.turns && s.turns[t].held != [] && s.turns[k].held != []
    requires s.turns[t].held[0] < s.turns[k].held[0]
    ensures EndsReordered(s)
  {
    var m := Next(s, Fold(k));
    LeadsStep(s, Fold(k));
    var e := Next(m, Fold(t));
    LeadsStep(m, Fold(t));
    LeadsOn(s, m, e);
    assert e.history[|s.history|] == s.turns[k].held[0] && e.history[|s.history| + 1] == s.turns[t].held[0];
    ReorderedStays(s, e);
  }

  lemma {:induction false} HeadsDiffer(s: State, t: nat, k: nat)
    requires Conserved(s) && t in s.turns && k in s.turns && t != k && s.turns[t].held != [] && s.turns[k].held != []
    ensures s.turns[t].held[0] != s.turns[k].held[0]
  {
    assert Used(s, Slot(Held(t), 0)) && Used(s, Slot(Held(k), 0));
  }

  lemma {:induction false} UnlinedReorders(s: State)
    requires Inv(s) && Young(s) && !Lined(s)
    ensures EndsReordered(s)
  {
    if !Increasing(s.history) {
      assert NoNewTurn([]) && Execute(s, []) == Some(s);
      ReorderedStays(s, s);
    } else {
      IncreasingConcat(s.history, s.buf);
      if t :| t in s.turns && s.turns[t].held != [] && !Increasing(s.history + s.turns[t].held + s.buf) {
        BelowConcat(s.history, s.turns[t].held, s.buf);
        if Increasing(s.history + s.turns[t].held) { IncreasingConcat(s.history + s.turns[t].held, s.buf); }
        HeldTooOld(s, t);
      } else {
        var t, k :| t in s.turns && k in s.turns && t != k && s.turns[t].held != [] && s.turns[k].held != [];
        HeadsDiffer(s, t, k);
        if s.turns[t].held[0] < s.turns[k].held[0] { TwoHoldersReorder(s, t, k); } else { TwoHoldersReorder(s, k, t); }
      }
    }
  }

  /** From any reachable state the turns that are open can end with the history out of order
      exactly when the state is at risk, or what is folded and held is not in line already. */
  lemma {:induction false} ReorderIff(s: State)
    requires Reachable(s)
    ensures EndsReordered(s) <==> AtRisk(s) || !Lined(s)
  {
    ReachableInv(s);
    if AtRisk(s) {
      AtRiskReorders(s);
    } else if !Lined(s) {
      ReachableYoung(s);
      UnlinedReorders(s);
    } else if EndsReordered(s) {
      var e :| Leads(s, e) && e.turns == map[] && !Increasing(e.history);
      var steps :| NoNewTurn(steps) && Execute(s, steps) == Some(e);
      StaysLined(s, steps);
      assert e.history + e.buf + [] == e.history + e.buf && e.history + [] == e.history;
      IncreasingWithout(e.history, e.buf, []);
    }
  }

  ghost predicate EndsWithLoss(s: State) {
    exists e :: Leads(s, e) && e.turns == map[] && e.lost != []
  }

  lemma {:induction false} HookCanLose(s: State, h: nat)
    requires Inv(s) && h in s.turns && s.turns[h].hook
    ensures EndsWithLoss(s)
  {
    var a := CanEndAllBut(s, {h});
    assert a.turns == map[h := s.turns[h]];
    assert Open(a.turns) == {h};
    var p := Next(a, Push);
    LeadsStep(a, Push);
    LeadsOn(s, a, p);
    var e := Next(p, EndHook(h));
    LeadsStep(p, EndHook(h));
    LeadsOn(s, p, e);
    assert e.turns == map[];
    assert |e.lost| > 0;
  }

  /** From any reachable state that has lost nothing, the turns that are open can lose an
      accepted message exactly when one of them is in the regex-hook branch. */
  lemma {:induction false} LossIff(s: State)
    requires Reachable(s) && s.lost == []
    ensures EndsWithLoss(s) <==> HookOpen(s)
  {
    ReachableInv(s);
    if HookOpen(s) {
      var h :| h in s.turns && s.turns[h].hook;
      HookCanLose(s, h);
    } else if EndsWithLoss(s) {
      var e :| Leads(s, e) && e.turns == map[] && e.lost != [];
      var steps :| NoNewTurn(steps) && Execute(s, steps) == Some(e);
      NoHooksKeepsAll(s, steps);
    }
  }

  // ----- two schedules -----

  lemma {:induction false} ExecuteOneMore(s: State, steps: seq<Step>, step: Step)
    requires Execute(s, steps).Some? && Enabled(Execute(s, steps).value, step)
    ensures Execute(s, steps + [step]) == Some(Next(Execute(s, steps).value, step))
    decreases |steps|
  {
    if steps != [] {
      assert (steps + [step])[1..] == steps[1..] + [step];
      ExecuteOneMore(Next(s, steps[0]), steps[1..], step);
    }
  }

  lemma {:induction false} ReachableStep(s: State, step: Step, t: State)
    requires Reachable(s) && Enabled(s, step) && t == Next(s, step)
    ensures Reachable(t)
  {
    var steps :| Execute(Start(), steps) == Some(s);
    ExecuteOneMore(Start(), steps, step);
  }

  /** Two overlapping turns of one session can fold messages in the wrong order. */
  lemma {:induction false} OverlappingTurnsReorder()
    ensures exists s :: Reachable(s) && s.turns == map[] && s.accepted == 2 && s.history == [1, 0]
  {
    var a, b := Turn([], false, false), Turn([], true, false);
    var s8 := State(2, [], [1, 0], [], map[1 := a, 2 := a], 2);
    TwoTurnsFolded(a, s8);
    var s9 := State(1, [], [1, 0], [], map[1 := b, 2 := a], 2);
    ReachableStep(s8, End(1), s9);
    var s10 := State(1, [], [1, 0], [], map[2 := a], 2);
    ReachableStep(s9, Finish(1), s10);
    var s11 := State(0, [], [1, 0], [], map[2 := b], 2);
    ReachableStep(s10, End(2), s11);
    ReachableStep(s11, Finish(2), State(0, [], [1, 0], [], map[], 2));
  }

  lemma {:induction false} TwoTurnsFolded(a: Turn, s8: State)
    requires a == Turn([], false, false) && s8 == State(2, [], [1, 0], [], map[1 := a, 2 := a], 2)
    ensures Reachable(s8)
  {
    var x, y := a.(held := [0]), a.(held := [1]);
    var s6 := State(2, [], [], [], map[1 := x, 2 := y], 2);
    TwoTurnsHold(a, x, y, s6);
    var s7 := State(2, [], [1], [], map[1 := x, 2 := a], 2);
    assert y.(held := y.held[1..]) == a == x.(held := x.held[1..]);
    assert s6.turns[2 := a] == s7.turns && s6.history + [1] == s7.history;
    ReachableStep(s6, Fold(2), s7);
    assert s7.turns[1 := a] == s8.turns && s7.history + [0] == s8.history;
    ReachableStep(s7, Fold(1), s8);
  }

  lemma {:induction false} TwoTurnsHold(a: Turn, x: Turn, y: Turn, s6: State)
    requires a == Turn([], false, false) && x == a.(held := [0]) && y == a.(held := [1])
    requires s6 == State(2, [], [], [], map[1 := x, 2 := y], 2)
    ensures Reachable(s6)
  {
    var s3 := State(2, [0], [], [], map[1 := a, 2 := a], 1);
    TwoTurnsOpen(a, s3);
    var s4 := State(2, [], [], [], map[1 := x, 2 := a], 1);
    assert s3.turns[1 := x] == s4.turns;
    ReachableStep(s3, Drain(1), s4);
    var s5 := s4.(buf := [1], accepted := 2);
    ReachableStep(s4, Push, s5);
    assert s5.turns[2 := y] == s6.turns;
    ReachableStep(s5, Drain(2), s6);
  }

  lemma {:induction false} TwoTurnsOpen(a: Turn, s3: State)
    requires a == Turn([], false, false) && s3 == State(2, [0], [], [], map[1 := a, 2 := a], 1)
    ensures Reachable(s3)
  {
    assert Execute(Start(), []) == Some(Start());
    var s1 := State(1, [], [], [], map[1 := a], 0);
    ReachableStep(Start(), Begin(1, false), s1);
    var s2 := State(2, [], [], [], map[1 := a, 2 := a], 0);
    assert s1.turns[2 := a] == s2.turns;
    ReachableStep(s1, Begin(2, false), s2);
    ReachableStep(s2, Push, s3);
  }

  /** Two turns that have ended, one after the other, and still hold what each took at its
      end: nobody can drain any more, and the later one may fold first. */
  lemma {:induction false} LeftoversReorder(s: State)
    requires s == State(0, [], [], [], map[1 := Turn([0], true, false), 2 := Turn([1], true, false)], 2)
    ensures Reachable(s) && !AtRisk(s) && EndsReordered(s)
  {
    var x := Turn([0], true, false);
    var s3 := State(0, [], [], [], map[1 := x], 1);
    FirstLeftover(x, s3);
    var s4 := State(1, [], [], [], map[1 := x, 2 := Turn([], false, false)], 1);
    assert s3.turns[2 := Turn([], false, false)] == s4.turns;
    ReachableStep(s3, Begin(2, false), s4);
    var s5 := s4.(buf := [1], accepted := 2);
    ReachableStep(s4, Push, s5);
    assert s5.turns[2 := Turn([1], true, false)] == s.turns;
    ReachableStep(s5, End(2), s);
    assert s.turns[1].held != [] && s.turns[2].held != [];
    ReorderIff(s);
  }

  lemma {:induction false} FirstLeftover(x: Turn, s3: State)
    requires x == Turn([0], true, false) && s3 == State(0, [], [], [], map[1 := x], 1)
    ensures Reachable(s3)
  {
    assert Execute(Start(), []) == Some(Start());
    var s1 := State(1, [], [], [], map[1 := Turn([], false, false)], 0);
    ReachableStep(Start(), Begin(1, false), s1);
    var s2 := s1.(buf := [0], accepted := 1);
    ReachableStep(s1, Push, s2);
    assert s2.turns[1 := x] == s3.turns;
    ReachableStep(s2, End(1), s3);
  }

  /** What is pushed while the regex-hook branch runs is accepted and then dropped. */
  lemma {:induction false} RegexHookDropsPushes()
    ensures exists s :: Reachable(s) && s.turns == map[] && s.accepted == 1 && s.history == []
  {
    assert Execute(Start(), []) == Some(Start());
    var s1 := State(1, [], [], [], map[1 := Turn([], false, true)], 0);
    ReachableStep(Start(), Begin(1, true), s1);
    var s2 := s1.(buf := [0], accepted := 1);
    ReachableStep(s1, Push, s2);
    ReachableStep(s2, EndHook(1), State(0, [], [], [0], map[], 1));
  }
}
