/** The per-user sliding-window rate limiter: a map of timestamp lists that is pruned
    on use and swept when it grows, against a log that is never pruned. Times are
    nanoseconds, read under the lock and so never decreasing. */
module RateLimit {

  const WINDOW: nat := 60_000_000_000
  const MAX_MAP_SIZE: nat := 4096

  type Log = map<string, seq<int>>

  function Of(log: Log, user: string): seq<int> {
    if user in log then log[user] else []
  }

  // ----- the reference limiter: it keeps every admission for ever -----

  /** How many admissions lie in the closed interval [lo, hi]. */
  function Count(ts: seq<int>, lo: int, hi: int): nat {
    if ts == [] then 0 else (if lo <= ts[|ts| - 1] <= hi then 1 else 0) + Count(ts[..|ts| - 1], lo, hi)
  }

  predicate Admits(log: Log, rpm: int, user: string, now: int) {
    rpm <= 0 || Count(Of(log, user), now - WINDOW, now) < rpm
  }

  function Admit(log: Log, rpm: int, user: string, now: int): Log {
    if 0 < rpm && Admits(log, rpm, user, now) then log[user := Of(log, user) + [now]] else log
  }

  datatype Request = Request(user: string, at: int)

  ghost predicate InOrder(reqs: seq<Request>) {
    forall i, j :: 0 <= i < j < |reqs| ==> reqs[i].at <= reqs[j].at
  }

  /** The admissions after a whole run of requests. */
  function ServeAll(rpm: int, reqs: seq<Request>): Log {
    if reqs == [] then map[] else
      var r := reqs[|reqs| - 1];
      Admit(ServeAll(rpm, reqs[..|reqs| - 1]), rpm, r.user, r.at)
  }

  ghost predicate NonDecreasing(ts: seq<int>) {
    forall i, j :: 0 <= i < j < |ts| ==> ts[i] <= ts[j]
  }

  ghost predicate UpTo(ts: seq<int>, now: int) {
    NonDecreasing(ts) && forall i :: 0 <= i < |ts| ==> ts[i] <= now
  }

  lemma {:induction false} CountShrinks(ts: seq<int>, lo: int, hi: int, lo': int, hi': int)
    requires lo' <= lo && hi <= hi'
    ensures Count(ts, lo, hi) <= Count(ts, lo', hi')
  {
    if ts != [] { CountShrinks(ts[..|ts| - 1], lo, hi, lo', hi'); }
  }

  lemma {:induction false} CountPast(ts: seq<int>, lo: int, hi: int, hi': int)
    requires UpTo(ts, hi) && hi <= hi'
    ensures Count(ts, lo, hi') == Count(ts, lo, hi)
  {
    if ts != [] { CountPast(ts[..|ts| - 1], lo, hi, hi'); }
  }

  /** One more admission keeps every window of every position within the bound. */
  lemma {:induction false} AdmissionKeepsBound(ts: seq<int>, rpm: nat, now: int, t: int)
    requires UpTo(ts, now) && Count(ts, now - WINDOW, now) < rpm && Count(ts, t, t + WINDOW) <= rpm
    ensures Count(ts + [now], t, t + WINDOW) <= rpm
  {
    assert (ts + [now])[..|ts|] == ts;
    if t <= now <= t + WINDOW {
      CountPast(ts, t, now, t + WINDOW);
      CountShrinks(ts, t, now, now - WINDOW, now);
    }
  }

  /** No closed window of sixty seconds, wherever it lies, ever holds more than rpm
      admissions of one user. */
  lemma {:induction false} WindowBound(rpm: nat, reqs: seq<Request>, user: string, t: int)
    requires 0 < rpm && InOrder(reqs)
    ensures Count(Of(ServeAll(rpm, reqs), user), t, t + WINDOW) <= rpm
    ensures reqs != [] ==> UpTo(Of(ServeAll(rpm, reqs), user), reqs[|reqs| - 1].at)
  {
    if reqs != [] {
      var n := |reqs| - 1;
      WindowBound(rpm, reqs[..n], user, t);
      assert n > 0 ==> reqs[n - 1].at <= reqs[n].at;
      BoundStep(ServeAll(rpm, reqs[..n]), rpm, reqs[n], user, t);
    }
  }

  lemma {:induction false} BoundStep(log: Log, rpm: nat, r: Request, user: string, t: int)
    requires 0 < rpm && UpTo(Of(log, user), r.at) && Count(Of(log, user), t, t + WINDOW) <= rpm
    ensures var after := Of(Admit(log, rpm, r.user, r.at), user);
            Count(after, t, t + WINDOW) <= rpm && UpTo(after, r.at)
  {
    OfAdmit(log, rpm, r, user);
    if r.user == user && Admits(log, rpm, user, r.at) {
      UpToNow(Of(log, user), r.at);
      AdmissionKeepsBound(Of(log, user), rpm, r.at, t);
    }
  }

  lemma {:induction false} UpToNow(ts: seq<int>, now: int)
    requires UpTo(ts, now)
    ensures UpTo(ts + [now], now)
  {}

  lemma {:induction false} OfAdmit(log: Log, rpm: nat, r: Request, user: string)
    requires 0 < rpm
    ensures Of(Admit(log, rpm, r.user, r.at), user) ==
            if r.user == user && Admits(log, rpm, user, r.at) then Of(log, user) + [r.at] else Of(log, user)
  {}

  /** The entry lies in the window, so all behind it do. */
  lemma {:induction false} CountFrom(ts: seq<int>, lo: int, hi: int, n: nat)
    requires UpTo(ts, hi) && n <= |ts|
    ensures Count(ts, lo, hi) >= n <==> n == 0 || lo <= ts[|ts| - n]
  {
    if n > 0 && ts != [] {
      var front := ts[..|ts| - 1];
      if n > 1 {
        CountFrom(front, lo, hi, n - 1);
        assert front[|front| - (n - 1)] == ts[|ts| - n];
      } else if ts[|ts| - 1] < lo {
        CountNone(ts, lo, hi);
      }
      if ts[|ts| - n] < lo <= ts[|ts| - 1] {} else if ts[|ts| - 1] < lo { CountNone(ts, lo, hi); }
    }
  }

  lemma {:induction false} CountNone(ts: seq<int>, lo: int, hi: int)
    requires forall i :: 0 <= i < |ts| ==> ts[i] < lo
    ensures Count(ts, lo, hi) == 0
  {
    if ts != [] { CountNone(ts[..|ts| - 1], lo, hi); }
  }

  lemma {:induction false} CountAtMost(ts: seq<int>, lo: int, hi: int)
    ensures Count(ts, lo, hi) <= |ts|
  {
    if ts != [] { CountAtMost(ts[..|ts| - 1], lo, hi); }
  }

  /** A request is refused exactly when there is a limit and the last rpm admissions of the user
      all lie in the window; without a limit none is. */
  lemma {:induction false} RefusedIff(log: Log, rpm: int, user: string, now: int)
    requires UpTo(Of(log, user), now)
    ensures var ts := Of(log, user);
            !Admits(log, rpm, user, now) <==> 0 < rpm <= |ts| && now - WINDOW <= ts[|ts| - rpm]
  {
    var ts := Of(log, user);
    if 0 < rpm <= |ts| {
      CountFrom(ts, now - WINDOW, now, rpm);
    } else {
      CountAtMost(ts, now - WINDOW, now);
    }
  }

  /** Under a limit every admission is recorded at the end of its user's log, a refusal is not,
      and other users are not concerned. */
  lemma {:induction false} AdmissionIsRecorded(log: Log, rpm: int, user: string, now: int, other: string)
    requires 0 < rpm
    ensures Of(Admit(log, rpm, user, now), user) == if Admits(log, rpm, user, now) then Of(log, user) + [now] else Of(log, user)
    ensures other != user ==> Of(Admit(log, rpm, user, now), other) == Of(log, other)
  {}

  lemma {:induction false} SpreadStep(log: Log, rpm: nat, r: Request, user: string, i: nat)
    requires 0 < rpm && UpTo(Of(log, user), r.at)
    requires i + rpm < |Of(log, user)| ==> Of(log, user)[i] + WINDOW < Of(log, user)[i + rpm]
    ensures var ts := Of(Admit(log, rpm, r.user, r.at), user); i + rpm < |ts| ==> ts[i] + WINDOW < ts[i + rpm]
  {
    OfAdmit(log, rpm, r, user);
    RefusedIff(log, rpm, user, r.at);
  }

  lemma {:induction false} ServedUpTo(rpm: nat, reqs: seq<Request>, user: string, now: int)
    requires 0 < rpm && InOrder(reqs) && (reqs != [] ==> reqs[|reqs| - 1].at <= now)
    ensures UpTo(Of(ServeAll(rpm, reqs), user), now)
  {
    WindowBound(rpm, reqs, user, 0);
  }

  /** Any rpm + 1 admissions of one user take longer than sixty seconds. */
  lemma {:induction false} AdmissionsSpread(rpm: nat, reqs: seq<Request>, user: string, i: nat)
    requires 0 < rpm && InOrder(reqs)
    ensures var ts := Of(ServeAll(rpm, reqs), user); i + rpm < |ts| ==> ts[i] + WINDOW < ts[i + rpm]
  {
    if reqs != [] {
      var n := |reqs| - 1;
      AdmissionsSpread(rpm, reqs[..n], user, i);
      ServedUpTo(rpm, reqs[..n], user, reqs[n].at);
      SpreadStep(ServeAll(rpm, reqs[..n]), rpm, reqs[n], user, i);
    }
  }

  // ----- pruning -----

  function DropExpired(ts: seq<int>, cutoff: int): seq<int> {
    if ts != [] && ts[0] < cutoff then DropExpired(ts[1..], cutoff) else ts
  }

  /** kept is what is left of full after dropping entries before cutoff from the front. */
  ghost predicate IsTail(full: seq<int>, kept: seq<int>, cutoff: int) {
    && |kept| <= |full|
    && kept == full[|full| - |kept|..]
    && forall i :: 0 <= i < |full| - |kept| ==> full[i] < cutoff
  }

  lemma {:induction false} DropKeepsTail(full: seq<int>, kept: seq<int>, before: int, cutoff: int)
    requires IsTail(full, kept, before) && before <= cutoff
    ensures IsTail(full, DropExpired(kept, cutoff), cutoff)
    decreases |kept|
  {
    if kept != [] && kept[0] < cutoff {
      DropKeepsTail(full, kept[1..], cutoff, cutoff);
    }
  }

  lemma {:induction false} DropLeavesFresh(ts: seq<int>, cutoff: int)
    requires NonDecreasing(ts)
    ensures forall i :: 0 <= i < |DropExpired(ts, cutoff)| ==> cutoff <= DropExpired(ts, cutoff)[i]
  {
    if ts != [] && ts[0] < cutoff { DropLeavesFresh(ts[1..], cutoff); }
  }

  lemma {:induction false} CountAll(ts: seq<int>, lo: int, hi: int)
    requires forall i :: 0 <= i < |ts| ==> lo <= ts[i] <= hi
    ensures Count(ts, lo, hi) == |ts|
  {
    if ts != [] { CountAll(ts[..|ts| - 1], lo, hi); }
  }

  lemma {:induction false} CountTail(full: seq<int>, kept: seq<int>, lo: int, hi: int)
    requires IsTail(full, kept, lo)
    ensures Count(full, lo, hi) == Count(kept, lo, hi)
    decreases |full|
  {
    if full != [] {
      var f, k := full[..|full| - 1], if kept == [] then [] else kept[..|kept| - 1];
      if kept != [] {
        assert k == f[|f| - |k|..];
      }
      CountTail(f, k, lo, hi);
    }
  }

  /** After pruning, the length of the kept list is the reference limiter's count. */
  lemma {:induction false} PrunedLengthIsCount(full: seq<int>, kept: seq<int>, before: int, now: int)
    requires UpTo(full, now) && IsTail(full, kept, before) && before <= now - WINDOW
    ensures |DropExpired(kept, now - WINDOW)| == Count(full, now - WINDOW, now)
  {
    var rest := DropExpired(kept, now - WINDOW);
    DropKeepsTail(full, kept, before, now - WINDOW);
    DropLeavesFresh(kept, now - WINDOW);
    CountTail(full, rest, now - WINDOW, now);
    CountAll(rest, now - WINDOW, now);
  }

  /** Of one user, windows keeps a tail of the log; what it dropped has left the window by time last. */
  ghost predicate UserAgrees(windows: Log, log: Log, last: int, u: string) {
    UpTo(Of(log, u), last) && IsTail(Of(log, u), Of(windows, u), last - WINDOW)
  }

  ghost predicate Agrees(windows: Log, log: Log, last: int) {
    forall u {:trigger UserAgrees(windows, log, last, u)} :: UserAgrees(windows, log, last, u)
  }

  lemma {:induction false} TimePasses(windows: Log, log: Log, last: int, now: int)
    requires Agrees(windows, log, last) && last <= now
    ensures Agrees(windows, log, now)
  {
    forall u ensures UserAgrees(windows, log, now, u) {
      assert UserAgrees(windows, log, last, u);
    }
  }

  /** The length of the pruned list is the reference limiter's count. */
  lemma {:induction false} PrunedDecision(windows: Log, log: Log, now: int, u: string)
    requires Agrees(windows, log, now)
    ensures |DropExpired(Of(windows, u), now - WINDOW)| == Count(Of(log, u), now - WINDOW, now)
  {
    assert UserAgrees(windows, log, now, u);
    PrunedLengthIsCount(Of(log, u), Of(windows, u), now - WINDOW, now);
  }

  /** Pruning or deleting the entries of one user keeps the agreement. */
  lemma {:induction false} PruningKeepsAgreement(windows: Log, log: Log, now: int, u: string, after: Log)
    requires Agrees(windows, log, now)
    requires Of(after, u) == DropExpired(Of(windows, u), now - WINDOW)
    requires forall v :: v != u ==> Of(after, v) == Of(windows, v)
    ensures Agrees(after, log, now)
  {
    forall v ensures UserAgrees(after, log, now, v) {
      assert UserAgrees(windows, log, now, v);
      if v == u { DropKeepsTail(Of(log, u), Of(windows, u), now - WINDOW, now - WINDOW); }
    }
  }

  lemma {:induction false} AdmissionKeepsAgreement(windows: Log, log: Log, now: int, u: string)
    requires Agrees(windows, log, now)
    ensures Agrees(windows[u := Of(windows, u) + [now]], log[u := Of(log, u) + [now]], now)
  {
    var windows', log' := windows[u := Of(windows, u) + [now]], log[u := Of(log, u) + [now]];
    forall v ensures UserAgrees(windows', log', now, v) {
      assert UserAgrees(windows, log, now, v);
      AdmissionKeepsUser(windows, log, now, u, v);
    }
  }

  lemma {:induction false} AdmissionKeepsUser(windows: Log, log: Log, now: int, u: string, v: string)
    requires UserAgrees(windows, log, now, v)
    ensures UserAgrees(windows[u := Of(windows, u) + [now]], log[u := Of(log, u) + [now]], now, v)
  {
    OfUpdate(windows, u, Of(windows, u) + [now], v);
    OfUpdate(log, u, Of(log, u) + [now], v);
    if v == u { BothGrow(Of(log, u), Of(windows, u), now); }
  }

  lemma {:induction false} OfUpdate(log: Log, u: string, ts: seq<int>, v: string)
    ensures Of(log[u := ts], v) == if v == u then ts else Of(log, v)
  {}

  lemma {:induction false} BothGrow(full: seq<int>, kept: seq<int>, now: int)
    requires UpTo(full, now) && IsTail(full, kept, now - WINDOW)
    ensures UpTo(full + [now], now) && IsTail(full + [now], kept + [now], now - WINDOW)
  {
    assert full[|full| - |kept|..] + [now] == (full + [now])[|full| - |kept|..];
  }

  /** The front-to-back skip over expired entries, as allow and its sweep do it. */
  method Prune(st: seq<int>, cutoff: int) returns (rest: seq<int>)
    ensures rest == DropExpired(st, cutoff)
    ensures rest == [] || cutoff <= rest[0]
  {
    var i := 0;
    while i < |st| && st[i] < cutoff
      invariant 0 <= i <= |st|
      invariant DropExpired(st[i..], cutoff) == DropExpired(st, cutoff)
    {
      assert st[i..][1..] == st[i + 1..];
      i := i + 1;
    }
    rest := st[i..];
  }

  class RateLimiter {
    var windows: Log
    const rpm: int
    /** Every admission so far, and the latest time a request came in. */
    ghost var log: Log
    ghost var last: int

    ghost predicate Valid()
      reads this
    {
      Agrees(windows, log, last)
    }

    constructor (limit: int, ghost now: int)
      ensures Valid() && log == map[] && last == now
      ensures rpm == if limit <= 0 then 0 else limit
    {
      windows := map[];
      rpm := if limit <= 0 then 0 else limit;
      log, last := map[], now;
    }

    /** Decides as the limiter that keeps the whole log does, whatever was pruned or swept before. */
    method Allow(user: string, now: int) returns (ok: bool)
      requires Valid() && last <= now
      modifies this
      ensures Valid() && last == now
      ensures ok <==> Admits(old(log), rpm, user, now)
      ensures log == Admit(old(log), rpm, user, now)
    {
      TimePasses(windows, log, last, now);
      last := now;
      if rpm <= 0 {
        return true;
      }
      var cutoff := now - WINDOW;

      if |windows| > MAX_MAP_SIZE {
        Sweep(now);
      }

      var ts := Prune(Of(windows, user), cutoff);
      PrunedDecision(windows, log, now, user);
      PruningKeepsAgreement(windows, log, now, user, windows[user := ts]);
      windows := windows[user := ts];
      if |ts| >= rpm {
        return false;
      }
      AdmissionKeepsAgreement(windows, log, now, user);
      windows := windows[user := ts + [now]];
      log := log[user := Of(log, user) + [now]];
      return true;
    }

    /** The inline purge once the map has outgrown its cap: users with no entry left in
        the window are forgotten, the others keep their entries of the window. */
    method Sweep(now: int)
      requires Valid() && last == now
      modifies this`windows
      ensures Valid()
      ensures windows.Keys <= old(windows.Keys)
      ensures forall u :: u in windows ==> windows[u] != [] && windows[u][0] >= now - WINDOW
    {
      var cutoff := now - WINDOW;
      var users := windows.Keys;
      while users != {}
        invariant Valid() && users <= windows.Keys <= old(windows.Keys)
        invariant forall u :: u in windows.Keys - users ==> windows[u] != [] && windows[u][0] >= cutoff
        decreases users
      {
        var uid :| uid in users;
        users := users - {uid};
        var rest := Prune(windows[uid], cutoff);
        var after := if rest == [] then windows - {uid} else windows[uid := rest];
        PruningKeepsAgreement(windows, log, now, uid, after);
        windows := after;
      }
    }
  }
}
