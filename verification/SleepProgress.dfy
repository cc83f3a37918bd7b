/** What every interleaving of sleep-lock steps leaves possible (kernel/sleeplock.c,
    kernel/proc.c): the spinlocks can be got out of the way, the scheduler gets round to every
    process, and a process that runs takes, waits for or releases a sleep-lock. */
module SleepProgress {
  import opened SleepLocks

  /** What a process is in the middle of. */
  datatype Job = Rest | Want(l: int) | Give(l: int) | Killing

  function JobOf(k: Pc): Job {
    match k
    case User => Rest
    case LockInner(l) => Want(l)
    case Test(l) => Want(l)
    case LockSelf(l) => Want(l)
    case UnlockInner(l) => Want(l)
    case SetChan(l) => Want(l)
    case SetSleeping(l) => Want(l)
    case Switch(l) => Want(l)
    case Resume(l) => Want(l)
    case UnlockSelf(l) => Want(l)
    case Relock(l) => Want(l)
    case SetLocked(l) => Want(l)
    case SetPid(l) => Rest
    case UnlockTaken(l) => Rest
    case LockToFree(l) => Give(l)
    case ClearLocked(l) => Give(l)
    case ClearPid(l) => Rest
    case WakeLock(l, i) => Rest
    case WakeSet(l, i) => Rest
    case WakeUnlock(l, i) => Rest
    case UnlockFreed(l) => Rest
    case YieldLock(k1) => JobOf(k1)
    case YieldState(k1) => JobOf(k1)
    case YieldSwitch(k1) => JobOf(k1)
    case YieldUnlock(k1) => JobOf(k1)
    case KillLock(q, i) => Killing
    case KillSet(q, i) => Killing
    case KillUnlock(q, i) => Killing
  }

  // ---- runs in which nobody starts to acquire a sleep-lock ----

  predicate NewWant(e: Event) {
    e.Call? && e.k.LockInner?
  }

  ghost predicate Goes(s: Sys, t: Sys) {
    exists es: seq<Event> :: Run(s, es, t) && forall i | 0 <= i < |es| :: !NewWant(es[i])
  }

  /** Some run leads from s to t. */
  ghost predicate Leads(s: Sys, t: Sys) {
    exists es: seq<Event> :: Run(s, es, t)
  }

  lemma {:induction false} RunMore(s: Sys, es: seq<Event>, t: Sys, fs: seq<Event>, u: Sys)
    requires Run(s, es, t) && Run(t, fs, u)
    ensures Run(s, es + fs, u)
    decreases |es|
  {
    if es == [] {
      assert es + fs == fs;
    } else {
      assert (es + fs)[1..] == es[1..] + fs;
      RunMore(After(s, es[0]), es[1..], t, fs, u);
    }
  }

  lemma RunOne(s: Sys, e: Event)
    requires Enabled(s, e)
    ensures Run(s, [e], After(s, e))
  {
    assert [e][1..] == [];
    assert Run(After(s, e), [], After(s, e));
  }

  lemma GoesOne(s: Sys, e: Event)
    requires Enabled(s, e) && !NewWant(e)
    ensures Goes(s, After(s, e))
  {
    RunOne(s, e);
  }

  lemma GoesNone(s: Sys)
    ensures Goes(s, s)
  {
    assert Run(s, [], s);
  }

  lemma GoesMore(s: Sys, t: Sys, u: Sys)
    requires Goes(s, t) && Goes(t, u)
    ensures Goes(s, u)
  {
    var es: seq<Event> :| Run(s, es, t) && forall i | 0 <= i < |es| :: !NewWant(es[i]);
    var fs: seq<Event> :| Run(t, fs, u) && forall i | 0 <= i < |fs| :: !NewWant(fs[i]);
    RunMore(s, es, t, fs, u);
  }

  lemma LeadsMore(s: Sys, t: Sys, u: Sys)
    requires (Goes(s, t) || Leads(s, t)) && (Goes(t, u) || Leads(t, u))
    ensures Leads(s, u)
  {
    var es: seq<Event> :| Run(s, es, t);
    var fs: seq<Event> :| Run(t, fs, u);
    RunMore(s, es, t, fs, u);
  }

  /** Who still waits waited before, and holds what it held. */
  ghost predicate Toward(s: Sys, t: Sys) {
    && SameShape(s, t)
    && forall p | IsProc(s, p) && JobOf(t.pc[p]).Want? :: JobOf(s.pc[p]) == JobOf(t.pc[p]) && t.mine[p] == s.mine[p]
  }

  /** Positions of acquiresleep up to sleep's swtch. */
  predicate GoingIn(k: Pc) {
    k.LockInner? || k.Test? || k.LockSelf? || k.UnlockInner? || k.SetChan? || k.SetSleeping? || k.Switch?
  }

  /** The rest of acquiresleep. */
  predicate GoingOn(k: Pc) {
    k.Resume? || k.UnlockSelf? || k.Relock? || k.SetLocked? || k.SetPid? || k.UnlockTaken?
  }

  /** Positions of releasesleep outside wakeup. */
  predicate Freeing(k: Pc) {
    k.LockToFree? || k.ClearLocked? || k.ClearPid? || k.UnlockFreed?
  }

  /** Positions of wakeup. */
  predicate Waking(k: Pc) {
    k.WakeLock? || k.WakeSet? || k.WakeUnlock?
  }

  /** Positions of yield. */
  predicate Yielding(k: Pc) {
    k.YieldLock? || k.YieldState? || k.YieldSwitch? || k.YieldUnlock?
  }

  /** Positions of kill. */
  predicate InKill(k: Pc) {
    k.KillLock? || k.KillSet? || k.KillUnlock?
  }

  /** p moved: nothing of another process's position or locks changed, nor of another CPU; only
      two positions change who holds a sleep-lock. */
  ghost predicate OnlyMoved(s: Sys, t: Sys, p: int) {
    && SameShape(s, t) && IsProc(s, p)
    && (forall x | IsProc(s, x) && x != p :: t.pc[x] == s.pc[x] && t.mine[x] == s.mine[x])
    && (JobOf(t.pc[p]).Want? ==> JobOf(s.pc[p]) == JobOf(t.pc[p]) && t.mine[p] == s.mine[p])
    && (JobOf(s.pc[p]).Want? && !s.pc[p].SetLocked? ==> JobOf(t.pc[p]) == JobOf(s.pc[p]))
    && t.spc == s.spc && (forall d | IsCpu(s, d) && d != s.at[p] :: t.on[d] == s.on[d])
    && (s.pc[p].SetLocked? || s.pc[p].ClearLocked? || (t.locked == s.locked && t.hold == s.hold))
  }

  lemma MovedIn(s: Sys, p: int)
    requires Enabled(s, Go(p)) && GoingIn(s.pc[p])
    ensures OnlyMoved(s, ProcStep(s, p), p)
  {}

  lemma MovedOn(s: Sys, p: int)
    requires Enabled(s, Go(p)) && GoingOn(s.pc[p])
    ensures OnlyMoved(s, ProcStep(s, p), p)
  {}

  lemma MovedFreeing(s: Sys, p: int)
    requires Enabled(s, Go(p)) && Freeing(s.pc[p])
    ensures OnlyMoved(s, ProcStep(s, p), p)
  {}

  lemma MovedWaking(s: Sys, p: int)
    requires Enabled(s, Go(p)) && Waking(s.pc[p])
    ensures OnlyMoved(s, ProcStep(s, p), p)
  {}

  lemma MovedSwitch(s: Sys, p: int)
    requires Enabled(s, Go(p)) && s.pc[p].YieldSwitch?
    ensures OnlyMoved(s, ProcStep(s, p), p)
  {}

  lemma MovedYielding(s: Sys, p: int)
    requires Enabled(s, Go(p)) && Yielding(s.pc[p]) && !s.pc[p].YieldSwitch?
    ensures OnlyMoved(s, ProcStep(s, p), p)
  {}

  lemma MovedInKill(s: Sys, p: int)
    requires Enabled(s, Go(p)) && (s.pc[p].KillLock? || s.pc[p].KillUnlock?)
    ensures OnlyMoved(s, ProcStep(s, p), p)
  {}

  lemma MovedKillSet(s: Sys, p: int)
    requires Enabled(s, Go(p)) && s.pc[p].KillSet?
    ensures OnlyMoved(s, ProcStep(s, p), p)
  {}

  lemma Moved(s: Sys, p: int)
    requires Enabled(s, Go(p))
    ensures OnlyMoved(s, ProcStep(s, p), p)
  {
    hide ProcStep, OnlyMoved;
    if GoingIn(s.pc[p]) {
      MovedIn(s, p);
    } else if GoingOn(s.pc[p]) {
      MovedOn(s, p);
    } else if Freeing(s.pc[p]) {
      MovedFreeing(s, p);
    } else if Waking(s.pc[p]) {
      MovedWaking(s, p);
    } else if s.pc[p].YieldSwitch? {
      MovedSwitch(s, p);
    } else if Yielding(s.pc[p]) {
      MovedYielding(s, p);
    } else if s.pc[p].KillSet? {
      MovedKillSet(s, p);
    } else {
      MovedInKill(s, p);
    }
  }

  lemma TowardStep(s: Sys, e: Event)
    requires Enabled(s, e) && !NewWant(e)
    ensures Toward(s, After(s, e))
  {
    hide ProcStep;
    if e.Go? { Moved(s, e.p); }
  }

  lemma {:induction false} RunToward(s: Sys, es: seq<Event>, t: Sys)
    requires Sized(s) && Run(s, es, t) && forall i | 0 <= i < |es| :: !NewWant(es[i])
    ensures Toward(s, t)
    decreases |es|
  {
    if es != [] {
      TowardStep(s, es[0]);
      RunToward(After(s, es[0]), es[1..], t);
    }
  }

  lemma GoesToward(s: Sys, t: Sys)
    requires Sized(s) && Goes(s, t)
    ensures Toward(s, t) && (Inv(s) ==> Inv(t))
  {
    var es: seq<Event> :| Run(s, es, t) && forall i | 0 <= i < |es| :: !NewWant(es[i]);
    RunToward(s, es, t);
    if Inv(s) { RunKeeps(s, es, t); }
  }

  // ---- one CPU, on its way back to its scheduler loop ----

  /** Steps that a process at this position, one of n, takes until its CPU looks for another one,
      yielding as soon as it holds no spinlock. */
  function PDist(k: Pc, n: int): int {
    match k
    case Test(l) => 10
    case SetLocked(l) => 9
    case SetPid(l) => 8
    case UnlockTaken(l) => 7
    case LockSelf(l) => 7
    case UnlockInner(l) => 6
    case SetChan(l) => 5
    case SetSleeping(l) => 4
    case Switch(l) => 3
    case Resume(l) => 8
    case UnlockSelf(l) => 7
    case ClearLocked(l) => 10 + 3 * n
    case ClearPid(l) => 9 + 3 * n
    case WakeLock(l, i) => 8 + 3 * (n - i)
    case WakeSet(l, i) => 7 + 3 * (n - i)
    case WakeUnlock(l, i) => 6 + 3 * (n - i)
    case UnlockFreed(l) => 7
    case YieldLock(k1) => 5
    case YieldState(k1) => 4
    case YieldSwitch(k1) => 3
    case YieldUnlock(k1) => 7
    case KillSet(q, i) => 8
    case KillUnlock(q, i) => 7
    case _ => 6
  }

  function Dist(s: Sys, c: int): int
    requires IsCpu(s, c) && |s.on| == |s.spc| && -1 <= s.on[c] < |s.pc|
  {
    if s.on[c] >= 0 then PDist(s.pc[s.on[c]], |s.pc|)
    else match s.spc[c]
         case Look(i) => 0
         case Next(i) => 1
         case Wait(i) => 2
         case Launch(i) => 9
         case Pick(i) => 10
  }

  predicate Idle(s: Sys, c: int)
    requires IsCpu(s, c) && |s.on| == |s.spc|
  {
    s.on[c] < 0 && s.spc[c].Look?
  }

  function NextEvent(s: Sys, c: int): Event
    requires IsCpu(s, c) && -1 <= s.on[c] < |s.pc|
  {
    if s.on[c] < 0 then Sched(c) else if Quiet(s.pc[s.on[c]]) then Tick(s.on[c]) else Go(s.on[c])
  }

  /** The process whose p->lock that step takes, or -1. */
  function Takes(k: Pc, p: int): int {
    match k
    case LockSelf(l) => p
    case YieldLock(k1) => p
    case WakeLock(l, i) => i
    case _ => -1
  }

  ghost predicate CanStep(s: Sys, c: int)
    requires Sized(s) && IsCpu(s, c) && -1 <= s.on[c] < |s.pc|
  {
    s.on[c] >= 0 && IsProc(s, Takes(s.pc[s.on[c]], s.on[c])) ==> s.plock[Takes(s.pc[s.on[c]], s.on[c])] == -1
  }

  /** Every other CPU, and the position of the process it runs, is as it was. */
  ghost predicate Others(s: Sys, t: Sys, c: int) {
    && SameShape(s, t)
    && forall d | IsCpu(s, d) && d != c ::
      t.on[d] == s.on[d] && t.spc[d] == s.spc[d] && (IsProc(s, s.on[d]) ==> t.pc[s.on[d]] == s.pc[s.on[d]])
  }

  /** The step that CPU c, not idle, takes next. */
  ghost predicate Down(s: Sys, t: Sys, c: int)
    requires IsCpu(s, c) && |s.on| == |s.spc| && -1 <= s.on[c] < |s.pc|
  {
    && SameShape(s, t) && Others(s, t, c) && -1 <= t.on[c] < |t.pc|
    && 0 <= Dist(t, c) < Dist(s, c)
  }

  ghost predicate Nearer(s: Sys, t: Sys, c: int)
    requires IsCpu(s, c) && |s.on| == |s.spc| && -1 <= s.on[c] < |s.pc|
  {
    SameShape(s, t) && -1 <= t.on[c] < |t.pc| && 0 <= Dist(t, c) < Dist(s, c)
  }

  lemma DownIn(s: Sys, c: int, p: int)
    requires Sized(s) && IsCpu(s, c) && s.on[c] == p && IsProc(s, p) && s.at[p] == c && Sensible(s, p, s.pc[p])
    requires GoingIn(s.pc[p]) && !Quiet(s.pc[p]) && CanStep(s, c) && (s.pc[p].Switch? ==> s.spc[c] == Wait(p))
    ensures Enabled(s, Go(p)) && Nearer(s, ProcStep(s, p), c)
  {}

  lemma DownOn(s: Sys, c: int, p: int)
    requires Sized(s) && IsCpu(s, c) && s.on[c] == p && IsProc(s, p) && s.at[p] == c && Sensible(s, p, s.pc[p])
    requires GoingOn(s.pc[p]) && !Quiet(s.pc[p]) && CanStep(s, c)
    ensures Enabled(s, Go(p)) && Nearer(s, ProcStep(s, p), c)
  {}

  lemma DownFreeing(s: Sys, c: int, p: int)
    requires Sized(s) && IsCpu(s, c) && s.on[c] == p && IsProc(s, p) && s.at[p] == c && Sensible(s, p, s.pc[p])
    requires Freeing(s.pc[p]) && !Quiet(s.pc[p]) && CanStep(s, c)
    ensures Enabled(s, Go(p)) && Nearer(s, ProcStep(s, p), c)
  {}

  lemma DownWaking(s: Sys, c: int, p: int)
    requires Sized(s) && IsCpu(s, c) && s.on[c] == p && IsProc(s, p) && s.at[p] == c && Sensible(s, p, s.pc[p])
    requires Waking(s.pc[p]) && !Quiet(s.pc[p]) && CanStep(s, c)
    ensures Enabled(s, Go(p)) && Nearer(s, ProcStep(s, p), c)
  {}

  lemma DownYielding(s: Sys, c: int, p: int)
    requires Sized(s) && IsCpu(s, c) && s.on[c] == p && IsProc(s, p) && s.at[p] == c && Sensible(s, p, s.pc[p])
    requires Yielding(s.pc[p]) && !Quiet(s.pc[p]) && CanStep(s, c) && (s.pc[p].YieldSwitch? ==> s.spc[c] == Wait(p))
    ensures Enabled(s, Go(p)) && Nearer(s, ProcStep(s, p), c)
  {}

  lemma DownInKill(s: Sys, c: int, p: int)
    requires Sized(s) && IsCpu(s, c) && s.on[c] == p && IsProc(s, p) && s.at[p] == c && Sensible(s, p, s.pc[p])
    requires InKill(s.pc[p]) && !Quiet(s.pc[p]) && CanStep(s, c)
    ensures Enabled(s, Go(p)) && Nearer(s, ProcStep(s, p), c)
  {}

  lemma DownGo(s: Sys, c: int, p: int)
    requires Sized(s) && IsCpu(s, c) && s.on[c] == p && IsProc(s, p) && s.at[p] == c && Sensible(s, p, s.pc[p])
    requires s.spc[c] == Wait(p) && !Quiet(s.pc[p]) && CanStep(s, c)
    requires forall d | IsCpu(s, d) && d != c && s.on[d] >= 0 :: s.on[d] != p
    ensures Enabled(s, Go(p)) && Down(s, ProcStep(s, p), c)
  {
    hide ProcStep, Dist, Enabled, Sensible, CanStep;
    if GoingIn(s.pc[p]) {
      DownIn(s, c, p);
    } else if GoingOn(s.pc[p]) {
      DownOn(s, c, p);
    } else if Freeing(s.pc[p]) {
      DownFreeing(s, c, p);
    } else if Waking(s.pc[p]) {
      DownWaking(s, c, p);
    } else if Yielding(s.pc[p]) {
      DownYielding(s, c, p);
    } else {
      DownInKill(s, c, p);
    }
    Moved(s, p);
  }

  /** A process runs on one CPU. */
  lemma OthersApart(s: Sys, c: int, p: int)
    requires Inv(s) && IsCpu(s, c) && (s.on[c] == p || (IsProc(s, p) && s.at[p] < 0))
    ensures forall d | IsCpu(s, d) && d != c && s.on[d] >= 0 :: s.on[d] != p
  {
    forall d | IsCpu(s, d) && d != c && s.on[d] >= 0 ensures s.on[d] != p {
      assert CpuOk(s, c) && CpuOk(s, d);
    }
  }

  lemma DownSched(s: Sys, c: int)
    requires Inv(s) && IsCpu(s, c) && s.on[c] < 0 && !Idle(s, c)
    ensures Enabled(s, Sched(c)) && s.on[c] == -1 && Down(s, SchedStep(s, c), c)
  {
    assert CpuOk(s, c) && ProcOk(s, s.spc[c].i);
    if s.spc[c].Launch? { OthersApart(s, c, s.spc[c].i); }
    hide Inv;
  }

  lemma DownStep(s: Sys, c: int)
    requires Inv(s) && IsCpu(s, c) && -1 <= s.on[c] < |s.pc| && !Idle(s, c) && CanStep(s, c)
    ensures Enabled(s, NextEvent(s, c)) && Down(s, After(s, NextEvent(s, c)), c)
    ensures Goes(s, After(s, NextEvent(s, c))) && Inv(After(s, NextEvent(s, c)))
  {
    hide ProcStep, SchedStep, Down, Goes;
    var p := s.on[c];
    if p < 0 {
      DownSched(s, c);
    } else {
      assert CpuOk(s, c) && ProcOk(s, p);
      if Quiet(s.pc[p]) {
        OthersApart(s, c, p);
        DownTick(s, c, p);
      } else {
        OthersApart(s, c, p);
        DownGo(s, c, p);
      }
    }
    GoesOne(s, NextEvent(s, c));
    StepKeeps(s, NextEvent(s, c));
  }

  lemma DownTick(s: Sys, c: int, p: int)
    requires Sized(s) && IsCpu(s, c) && s.on[c] == p && IsProc(s, p) && s.at[p] == c && Quiet(s.pc[p])
    requires forall d | IsCpu(s, d) && d != c && s.on[d] >= 0 :: s.on[d] != p
    ensures Enabled(s, Tick(p)) && Down(s, At(s, p, YieldLock(s.pc[p])), c)
  {}

  // ---- every CPU back in its scheduler loop ----

  /** The thread on CPU c holds some process's p->lock. */
  predicate Busy(s: Sys, c: int)
    requires IsCpu(s, c) && |s.on| == |s.spc| && s.on[c] < |s.pc|
  {
    if s.on[c] < 0 then SchedOf(s.spc[c]) >= 0 else ProcOf(s.pc[s.on[c]], s.on[c]) >= 0
  }

  lemma CpuFacts(s: Sys, c: int)
    requires Inv(s) && IsCpu(s, c)
    ensures Sized(s) && -1 <= s.on[c] < |s.pc| && CpuOk(s, c) && 0 <= Dist(s, c)
    ensures s.on[c] >= 0 ==> ProcOk(s, s.on[c]) && Sensible(s, s.on[c], s.pc[s.on[c]])
  {
    assert CpuOk(s, c);
    if s.on[c] >= 0 { assert ProcOk(s, s.on[c]); }
  }

  lemma OthersMore(s: Sys, t: Sys, u: Sys, c: int)
    requires Others(s, t, c) && Others(t, u, c)
    ensures Others(s, u, c)
  {}

  /** Whoever holds a p->lock needs no other to go on. */
  lemma BusyCan(s: Sys, c: int)
    requires Sized(s) && IsCpu(s, c) && -1 <= s.on[c] < |s.pc| && Busy(s, c)
    ensures !Idle(s, c) && CanStep(s, c)
  {}

  /** CPU c steps until it holds no p->lock. */
  lemma {:induction false} Unbusy(s: Sys, c: int) returns (t: Sys)
    requires Inv(s) && IsCpu(s, c) && Sized(s) && -1 <= s.on[c] < |s.pc|
    ensures Goes(s, t) && Inv(t) && Others(s, t, c) && t.on[c] < |t.pc| && !Busy(t, c)
    decreases if 0 <= Dist(s, c) then Dist(s, c) else 0
  {
    hide Inv, Busy, Dist, CanStep, Goes, Enabled, After, NextEvent;
    CpuFacts(s, c);
    t := s;
    GoesNone(s);
    if Busy(s, c) {
      BusyCan(s, c);
      DownStep(s, c);
      var s1 := After(s, NextEvent(s, c));
      CpuFacts(s1, c);
      t := Unbusy(s1, c);
      GoesMore(s, s1, t);
      OthersMore(s, s1, t, c);
    }
  }

  /** With no p->lock held elsewhere nothing stops CPU c. */
  lemma FreeCan(s: Sys, c: int)
    requires Inv(s) && IsCpu(s, c) && Sized(s) && -1 <= s.on[c] < |s.pc|
    requires forall d | IsCpu(s, d) && d != c :: s.on[d] < |s.pc| && !Busy(s, d)
    ensures CanStep(s, c)
  {
    CpuFacts(s, c);
    var p := s.on[c];
    if p >= 0 && IsProc(s, Takes(s.pc[p], p)) {
      assert PLockOk(s, Takes(s.pc[p], p));
    }
  }

  /** CPU c steps until it is idle. */
  lemma {:induction false} ToIdle(s: Sys, c: int) returns (t: Sys)
    requires Inv(s) && IsCpu(s, c) && Sized(s) && -1 <= s.on[c] < |s.pc|
    requires forall d | IsCpu(s, d) && d != c :: s.on[d] < |s.pc| && !Busy(s, d)
    ensures Goes(s, t) && Inv(t) && Others(s, t, c) && Idle(t, c)
    decreases if 0 <= Dist(s, c) then Dist(s, c) else 0
  {
    hide Inv, Busy, Dist, CanStep, Goes, Enabled, After, NextEvent;
    CpuFacts(s, c);
    t := s;
    GoesNone(s);
    if !Idle(s, c) {
      FreeCan(s, c);
      DownStep(s, c);
      var s1 := After(s, NextEvent(s, c));
      CpuFacts(s1, c);
      StillFree(s, s1, c);
      t := ToIdle(s1, c);
      GoesMore(s, s1, t);
      OthersMore(s, s1, t, c);
    }
  }

  lemma StillFree(s: Sys, t: Sys, c: int)
    requires Others(s, t, c) && forall d | IsCpu(s, d) && d != c :: s.on[d] < |s.pc| && !Busy(s, d)
    ensures forall d | IsCpu(t, d) && d != c :: t.on[d] < |t.pc| && !Busy(t, d)
  {}

  lemma {:induction false} UnbusyAll(s: Sys, n: nat) returns (t: Sys)
    requires Inv(s) && Sized(s) && n <= |s.on|
    ensures Goes(s, t) && Inv(t) && SameShape(s, t)
    ensures forall c | 0 <= c < n :: t.on[c] < |t.pc| && !Busy(t, c)
  {
    hide Inv, Busy, Goes;
    if n == 0 {
      GoesNone(s);
      t := s;
    } else {
      var s1 := UnbusyAll(s, n - 1);
      CpuFacts(s1, n - 1);
      t := Unbusy(s1, n - 1);
      GoesMore(s, s1, t);
      BusyOthers(s1, t, n - 1);
    }
  }

  lemma BusyOthers(s: Sys, t: Sys, c: int)
    requires Others(s, t, c)
    ensures forall d | IsCpu(s, d) && d != c && s.on[d] < |s.pc| :: t.on[d] < |t.pc| && Busy(t, d) == Busy(s, d)
  {}

  /** Every CPU looks for a process to run. */
  ghost predicate Calm(s: Sys) {
    Inv(s) && Sized(s) && forall c | IsCpu(s, c) :: Idle(s, c)
  }

  lemma {:induction false} IdleAll(s: Sys, n: nat) returns (t: Sys)
    requires Inv(s) && Sized(s) && n <= |s.on| && forall c | IsCpu(s, c) :: s.on[c] < |s.pc| && !Busy(s, c)
    ensures Goes(s, t) && Inv(t) && SameShape(s, t) && forall c | IsCpu(t, c) :: t.on[c] < |t.pc| && !Busy(t, c)
    ensures forall c | 0 <= c < n :: Idle(t, c)
  {
    hide Inv, Goes;
    if n == 0 {
      GoesNone(s);
      t := s;
    } else {
      var s1 := IdleAll(s, n - 1);
      CpuFacts(s1, n - 1);
      t := ToIdle(s1, n - 1);
      GoesMore(s, s1, t);
      BusyOthers(s1, t, n - 1);
      forall c | 0 <= c < n ensures Idle(t, c) { if c < n - 1 { assert Idle(s1, c); } }
    }
  }

  /** From every state that can be reached, every CPU can get back to its scheduler loop, with
      no spinlock held: the spinlocks never deadlock. */
  lemma Settles(s: Sys) returns (t: Sys)
    requires Inv(s)
    ensures Goes(s, t) && Calm(t) && SameShape(s, t)
  {
    hide Inv, Goes;
    InvSized(s);
    var s1 := UnbusyAll(s, |s.on|);
    t := IdleAll(s1, |s.on|);
    GoesMore(s, s1, t);
  }

  lemma InvSized(s: Sys)
    requires Inv(s)
    ensures Sized(s)
  {}

  // ---- bringing a process onto a CPU ----

  /** Locks, jobs and who is asleep are the same. */
  ghost predicate Keep(s: Sys, t: Sys) {
    && SameShape(s, t) && t.locked == s.locked && t.mine == s.mine && t.hold == s.hold && t.pid == s.pid
    && forall p | IsProc(s, p) ::
      && JobOf(t.pc[p]) == JobOf(s.pc[p]) && t.st[p].Sleeping? == s.st[p].Sleeping?
      && (s.st[p].Sleeping? ==> t.chan[p] == s.chan[p])
  }

  /** Positions on the way from swtch to swtch that touch no sleep-lock. */
  predicate Light(k: Pc) {
    Quiet(k) || k.YieldLock? || k.YieldState? || k.YieldSwitch? || k.YieldUnlock? || k.Resume? || k.UnlockSelf?
  }

  /** Every CPU but c is idle. */
  ghost predicate Solo(s: Sys, c: int) {
    Inv(s) && Sized(s) && IsCpu(s, c) && -1 <= s.on[c] < |s.pc| && forall d | IsCpu(s, d) && d != c :: Idle(s, d)
  }

  ghost predicate LightOn(s: Sys, c: int)
    requires IsCpu(s, c) && s.on[c] < |s.pc|
  {
    s.on[c] >= 0 ==> Light(s.pc[s.on[c]])
  }

  function Following(s: Sys, i: int): int {
    if i + 1 == |s.pc| then 0 else i + 1
  }

  ghost predicate LightMove(s: Sys, t: Sys, p: int)
    requires IsProc(s, p) && |s.at| == |s.pc| && IsCpu(s, s.at[p])
  {
    && Keep(s, t) && t.spc == s.spc
    && ((t.on == s.on && Light(t.pc[p])) || t.on == s.on[s.at[p] := -1])
  }

  lemma LightYield(s: Sys, p: int)
    requires Enabled(s, Go(p)) && !s.st[p].Sleeping? && (s.pc[p].YieldLock? || s.pc[p].YieldState?)
    ensures LightMove(s, ProcStep(s, p), p)
  {}

  lemma LightSwitch(s: Sys, p: int)
    requires Enabled(s, Go(p)) && !s.st[p].Sleeping? && s.pc[p].YieldSwitch?
    ensures LightMove(s, ProcStep(s, p), p)
  {}

  lemma LightBack(s: Sys, p: int)
    requires Enabled(s, Go(p)) && !s.st[p].Sleeping? && (s.pc[p].YieldUnlock? || s.pc[p].Resume? || s.pc[p].UnlockSelf?)
    ensures LightMove(s, ProcStep(s, p), p)
  {}

  lemma LightGo(s: Sys, p: int)
    requires Enabled(s, Go(p)) && Light(s.pc[p]) && !Quiet(s.pc[p]) && ProcOk(s, p)
    ensures LightMove(s, ProcStep(s, p), p)
  {
    hide LightMove, ProcStep;
    if s.pc[p].YieldSwitch? {
      LightSwitch(s, p);
    } else if s.pc[p].YieldLock? || s.pc[p].YieldState? {
      LightYield(s, p);
    } else {
      LightBack(s, p);
    }
  }

  lemma LightTick(s: Sys, p: int)
    requires Enabled(s, Tick(p))
    ensures Keep(s, After(s, Tick(p))) && Light(After(s, Tick(p)).pc[p])
    ensures After(s, Tick(p)).spc == s.spc && After(s, Tick(p)).on == s.on
  {}

  lemma LightSched(s: Sys, c: int)
    requires Inv(s) && Enabled(s, Sched(c))
    ensures Keep(s, SchedStep(s, c))
    ensures s.on[c] == -1 ==> SchedStep(s, c).on[c] < |s.pc| && LightOn(SchedStep(s, c), c)
    ensures s.spc[c].Next? ==> SchedStep(s, c).spc[c] == Look(Following(s, s.spc[c].i)) && SchedStep(s, c).on == s.on
    ensures !s.spc[c].Next? ==> SchedStep(s, c).spc[c].i == s.spc[c].i && (!s.spc[c].Look? ==> !SchedStep(s, c).spc[c].Look?)
  {
    assert CpuOk(s, c) && ProcOk(s, s.spc[c].i);
    hide Inv;
  }

  /** One step of CPU c with the others idle and no sleep-lock touched. */
  lemma LightStep(s: Sys, c: int)
    requires Solo(s, c) && LightOn(s, c) && !Idle(s, c) && CanStep(s, c)
    ensures Enabled(s, NextEvent(s, c))
    ensures
      var t := After(s, NextEvent(s, c));
      && Keep(s, t) && Solo(t, c) && LightOn(t, c) && Dist(t, c) < Dist(s, c)
      && (if Idle(t, c) then t.spc[c] == Look(Following(s, s.spc[c].i)) else t.spc[c].i == s.spc[c].i)
  {
    hide Inv, ProcStep, SchedStep, Keep, Dist, CanStep, Quiet, Light;
    CpuFacts(s, c);
    DownStep(s, c);
    var t, p := After(s, NextEvent(s, c)), s.on[c];
    if p < 0 {
      LightSched(s, c);
    } else if Quiet(s.pc[p]) {
      LightTick(s, p);
    } else {
      LightGo(s, p);
    }
    forall d | IsCpu(t, d) && d != c ensures Idle(t, d) { assert Idle(s, d); }
  }

  /** CPU c, at work on nothing that touches a sleep-lock, goes back to its loop. */
  lemma {:induction false} LightIdle(s: Sys, c: int) returns (t: Sys)
    requires Solo(s, c) && LightOn(s, c) && !Idle(s, c)
    ensures Goes(s, t) && Calm(t) && Keep(s, t) && t.spc[c] == Look(Following(s, s.spc[c].i))
    decreases if 0 <= Dist(s, c) then Dist(s, c) else 0
  {
    hide Inv, Dist, CanStep, Goes, Enabled, After, NextEvent, Keep;
    CpuFacts(s, c);
    IdleNotBusy(s, c);
    FreeCan(s, c);
    LightStep(s, c);
    DownStep(s, c);
    var s1 := After(s, NextEvent(s, c));
    if Idle(s1, c) {
      t := s1;
    } else {
      t := LightIdle(s1, c);
      GoesMore(s, s1, t);
      KeepMore(s, s1, t);
    }
  }

  lemma IdleNotBusy(s: Sys, c: int)
    requires Solo(s, c)
    ensures forall d | IsCpu(s, d) && d != c :: s.on[d] < |s.pc| && !Busy(s, d)
  {
    forall d | IsCpu(s, d) && d != c ensures s.on[d] < |s.pc| && !Busy(s, d) { assert Idle(s, d); }
  }

  lemma KeepMore(s: Sys, t: Sys, u: Sys)
    requires Keep(s, t) && Keep(t, u)
    ensures Keep(s, u) && |t.pc| == |s.pc|
  {}

  lemma CalmCpu(s: Sys, c: int)
    requires Calm(s) && -1 <= c < |s.on|
    ensures c >= 0 ==> s.on[c] < 0 && s.spc[c].Look?
  {
    if c >= 0 { assert Idle(s, c); }
  }

  /** What a state with every CPU idle looks like. */
  lemma CalmFacts(s: Sys, p: int)
    requires Calm(s) && IsProc(s, p)
    ensures s.plock[p] == -1 && s.at[p] == -1 && !s.st[p].Running? && (s.pc[p].Resume? || s.pc[p].YieldUnlock?)
    ensures s.pc[p].YieldUnlock? ==> Quiet(s.pc[p].k) && s.st[p].Runnable?
    ensures s.pc[p].Resume? ==> IsLock(s, s.pc[p].l) && s.chan[p] == s.pc[p].l
    ensures s.pc[p].Resume? && s.st[p].Sleeping? ==> s.locked[s.pc[p].l]
  {
    assert ProcOk(s, p) && PLockOk(s, p);
    CalmCpu(s, s.at[p]);
    CalmCpu(s, s.plock[p]);
    if s.pc[p].Resume? {
      var l := s.pc[p].l;
      assert WakeOk(s, p, l) && LockOk(s, l);
      CalmCpu(s, s.ilock[l]);
    }
  }

  /** The scheduler of c takes p->lock of the process it looks at. */
  lemma LookStep(s: Sys, c: int)
    requires Calm(s) && IsCpu(s, c)
    ensures IsProc(s, s.spc[c].i) && Enabled(s, Sched(c))
    ensures
      var t := SchedStep(s, c);
      && Keep(s, t) && Solo(t, c) && t.on == s.on && t.spc[c] == Pick(s.spc[c].i) && t.plock[s.spc[c].i] == c
      && t.st == s.st && t.pc == s.pc && Goes(s, t)
  {
    CpuFacts(s, c);
    assert Idle(s, c);
    CalmFacts(s, s.spc[c].i);
    var t := SchedStep(s, c);
    StepKeeps(s, Sched(c));
    GoesOne(s, Sched(c));
    forall d | IsCpu(t, d) && d != c ensures Idle(t, d) { assert Idle(s, d); }
  }

  /** A scheduler that holds p->lock of a RUNNABLE process runs it two steps later. */
  lemma PickRuns(s: Sys, c: int, i: int)
    requires Inv(s) && IsCpu(s, c) && s.on[c] < 0 && s.spc[c] == Pick(i) && IsProc(s, i) && s.st[i].Runnable?
    ensures Enabled(s, Sched(c)) && Enabled(After(s, Sched(c)), Sched(c))
    ensures
      var t := After(After(s, Sched(c)), Sched(c));
      && t.on[c] == i && t.st[i].Running? && t.at[i] == c && t.pc == s.pc
      && t == s.(spc := s.spc[c := Wait(i)], st := s.st[i := Running], on := s.on[c := i], at := s.at[i := c])
  {
    CpuFacts(s, c);
    assert s.spc[c := Launch(i)][c := Wait(i)] == s.spc[c := Wait(i)];
  }

  /** Process p, RUNNABLE, on CPU c with every spinlock free, about to go on with its job. */
  ghost predicate Ready(s: Sys, c: int, p: int) {
    Solo(s, c) && IsProc(s, p) && s.on[c] == p && s.at[p] == c && s.spc[c] == Wait(p) && Quiet(s.pc[p])
  }

  lemma PickSolo(s: Sys, c: int, p: int)
    requires Solo(s, c) && IsProc(s, p) && s.on[c] < 0 && s.spc[c] == Pick(p) && s.st[p].Runnable?
    ensures
      var t := s.(spc := s.spc[c := Wait(p)], st := s.st[p := Running], on := s.on[c := p], at := s.at[p := c]);
      Goes(s, t) && Solo(t, c) && Keep(s, t)
  {
    hide Inv, Goes, After, Enabled;
    PickRuns(s, c, p);
    var s1 := After(s, Sched(c));
    var t := After(s1, Sched(c));
    StepKeeps(s, Sched(c));
    StepKeeps(s1, Sched(c));
    GoesOne(s, Sched(c));
    GoesOne(s1, Sched(c));
    GoesMore(s, s1, t);
    InvSized(t);
    forall d | IsCpu(t, d) && d != c ensures Idle(t, d) { assert Idle(s, d); }
  }

  /** Where a process goes on from swtch, and from sleep's release of p->lock. */
  function Onward(k: Pc): Pc {
    match k
    case YieldUnlock(k1) => k1
    case Resume(l) => UnlockSelf(l)
    case UnlockSelf(l) => Relock(l)
    case _ => k
  }

  lemma OnwardStep(s: Sys, c: int, p: int)
    requires Solo(s, c) && IsProc(s, p) && s.on[c] == p && (s.pc[p].YieldUnlock? || s.pc[p].Resume? || s.pc[p].UnlockSelf?)
    ensures Enabled(s, Go(p))
    ensures
      var t := ProcStep(s, p);
      && Goes(s, t) && Solo(t, c) && Keep(s, t) && IsProc(t, p) && t.on[c] == p && t.pc[p] == Onward(s.pc[p])
      && (s.pc[p].YieldUnlock? ==> Quiet(t.pc[p]))
  {
    hide Inv, Goes, Dist, Keep;
    CpuFacts(s, c);
    DownStep(s, c);
    LightGo(s, p);
    var t := ProcStep(s, p);
    forall d | IsCpu(t, d) && d != c ensures Idle(t, d) { assert Idle(s, d); }
  }

  lemma ReadyIs(s: Sys, c: int, p: int)
    requires Solo(s, c) && IsProc(s, p) && s.on[c] == p && Quiet(s.pc[p])
    ensures Ready(s, c, p)
  {
    CpuFacts(s, c);
  }

  lemma ToReady(s: Sys, c: int, p: int) returns (t: Sys)
    requires Solo(s, c) && IsProc(s, p) && s.on[c] == p && (s.pc[p].YieldUnlock? || s.pc[p].Resume?)
    ensures Goes(s, t) && Ready(t, c, p) && Keep(s, t)
  {
    hide Inv, Goes, Keep, Solo, Enabled, ProcStep;
    OnwardStep(s, c, p);
    t := ProcStep(s, p);
    if s.pc[p].Resume? {
      var s1 := t;
      OnwardStep(s1, c, p);
      t := ProcStep(s1, p);
      GoesMore(s, s1, t);
      KeepMore(s, s1, t);
    }
    ReadyIs(t, c, p);
  }

  function Around(i: int, p: int, n: int): int {
    if i <= p then p - i else p - i + n
  }

  lemma AroundNext(i: int, p: int, n: int)
    requires 0 <= i < n && 0 <= p < n && i != p
    ensures 0 <= (if i + 1 == n then 0 else i + 1) < n && 0 <= Around(if i + 1 == n then 0 else i + 1, p, n) < Around(i, p, n)
  {}

  /** The scheduler of c comes round to a RUNNABLE process and runs it. */
  lemma {:induction false} Bring(s: Sys, c: int, p: int) returns (t: Sys)
    requires Calm(s) && IsCpu(s, c) && IsProc(s, p) && s.st[p].Runnable? && IsProc(s, s.spc[c].i)
    ensures Goes(s, t) && Ready(t, c, p) && Keep(s, t)
    decreases Around(s.spc[c].i, p, |s.pc|)
  {
    hide Inv, Goes, Keep, Solo, Enabled, SchedStep, ProcStep, Ready;
    var i := s.spc[c].i;
    LookStep(s, c);
    CalmFacts(s, p);
    var s1 := SchedStep(s, c);
    var s2;
    if i == p {
      PickOn(s, s1, c, p);
      s2 := s1.(spc := s1.spc[c := Wait(p)], st := s1.st[p := Running], on := s1.on[c := p], at := s1.at[p := c]);
      t := ToReady(s2, c, p);
    } else {
      NotYet(s1, c);
      s2 := LightIdle(s1, c);
      AroundNext(i, p, |s.pc|);
      StillRunnable(s, s1, s2, p);
      t := Bring(s2, c, p);
    }
    GoesMore(s, s1, s2);
    GoesMore(s, s2, t);
    KeepMore(s, s1, s2);
    KeepMore(s, s2, t);
  }

  lemma PickOn(s: Sys, s1: Sys, c: int, p: int)
    requires Calm(s) && IsCpu(s, c) && IsProc(s, p) && s.st[p].Runnable?
    requires Solo(s1, c) && s1.on == s.on && s1.spc[c] == Pick(p) && s1.st == s.st && s1.pc == s.pc
    ensures
      && |s1.st| == |s1.at| == |s1.pc| && IsCpu(s1, c) && |s1.spc| == |s1.on|
      && var t := s1.(spc := s1.spc[c := Wait(p)], st := s1.st[p := Running], on := s1.on[c := p], at := s1.at[p := c]);
         Goes(s1, t) && Solo(t, c) && Keep(s1, t)
  {
    assert Idle(s, c);
    PickSolo(s1, c, p);
  }

  lemma NotYet(s: Sys, c: int)
    requires Solo(s, c) && s.spc[c].Pick?
    ensures LightOn(s, c) && !Idle(s, c)
  {
    CpuFacts(s, c);
  }

  lemma StillRunnable(s: Sys, s1: Sys, s2: Sys, p: int)
    requires Calm(s) && Calm(s2) && Keep(s, s1) && Keep(s1, s2) && IsProc(s, p) && s.st[p].Runnable?
    ensures IsProc(s2, p) && s2.st[p].Runnable? && SameShape(s, s2)
  {
    CalmFacts(s2, p);
  }

  // ---- what a process on the only busy CPU can do ----

  lemma ReadyFree(s: Sys, c: int, p: int)
    requires Ready(s, c, p)
    ensures forall x | IsProc(s, x) :: s.plock[x] == -1
    ensures forall l | IsLock(s, l) :: s.ilock[l] == -1
  {
    OwnLocks(s, p);
    forall x | IsProc(s, x) ensures s.plock[x] == -1 {
      assert PLockOk(s, x);
      assert IsCpu(s, s.plock[x]) && s.plock[x] != c ==> Idle(s, s.plock[x]);
    }
    forall l | IsLock(s, l) ensures s.ilock[l] == -1 {
      assert LockOk(s, l);
      assert IsCpu(s, s.ilock[l]) && s.ilock[l] != c ==> Idle(s, s.ilock[l]);
    }
  }

  /** p, on CPU c, takes a step that keeps it there. */
  lemma SoloGo(s: Sys, c: int, p: int)
    requires Solo(s, c) && IsProc(s, p) && s.on[c] == p && !s.pc[p].User? && CanLock(s, p)
    ensures s.at[p] == c && Enabled(s, Go(p))
    ensures ProcStep(s, p).on == s.on && ProcStep(s, p).spc == s.spc ==> Solo(ProcStep(s, p), c)
    ensures Goes(s, ProcStep(s, p)) && Inv(ProcStep(s, p))
  {
    CpuFacts(s, c);
    StepKeeps(s, Go(p));
    GoesOne(s, Go(p));
    var t := ProcStep(s, p);
    InvSized(t);
    Moved(s, p);
    hide Inv, ProcStep, Goes;
    if t.on == s.on && t.spc == s.spc {
      forall d | IsCpu(t, d) && d != c ensures Idle(t, d) { assert Idle(s, d); }
    }
  }

  /** acquiresleep of a free lock, up to its inner lock. */
  lemma TakeInner(s: Sys, c: int, p: int, l: int) returns (t: Sys)
    requires Ready(s, c, p) && (s.pc[p] == LockInner(l) || s.pc[p] == Relock(l)) && IsLock(s, l)
    ensures Goes(s, t) && Solo(t, c)
    ensures t == s.(pc := s.pc[p := if s.locked[l] then LockSelf(l) else SetLocked(l)], ilock := s.ilock[l := c])
  {
    hide Inv, Goes, Solo, ProcOk;
    ReadyFree(s, c, p);
    SoloGo(s, c, p);
    var s1 := ProcStep(s, p);
    assert s1 == s.(pc := s.pc[p := Test(l)], ilock := s.ilock[l := c]);
    SoloGo(s1, c, p);
    t := ProcStep(s1, p);
    GoesMore(s, s1, t);
  }

  /** The rest of acquiresleep, once the lock was found free. */
  lemma TakeRest(s: Sys, c: int, p: int, l: int) returns (t: Sys)
    requires Solo(s, c) && IsProc(s, p) && s.on[c] == p && s.pc[p] == SetLocked(l) && IsLock(s, l) && Sized(s)
    ensures Goes(s, t) && Solo(t, c)
    ensures t == s.(pc := s.pc[p := User], ilock := s.ilock[l := -1], locked := s.locked[l := true], hold := s.hold[l := p],
                    mine := s.mine[p := s.mine[p][l := true]], pid := s.pid[l := p])
  {
    hide Inv, Goes, Solo, ProcOk;
    SoloGo(s, c, p);
    var s1 := ProcStep(s, p);
    SoloGo(s1, c, p);
    var s2 := ProcStep(s1, p);
    SoloGo(s2, c, p);
    t := ProcStep(s2, p);
    GoesMore(s, s1, s2);
    GoesMore(s, s2, t);
  }

  /** The rest of it up to sleep's swtch, once the lock was found taken. */
  lemma Block(s: Sys, c: int, p: int, l: int) returns (t: Sys)
    requires Solo(s, c) && IsProc(s, p) && s.on[c] == p && s.pc[p] == LockSelf(l) && IsLock(s, l) && Sized(s) && s.plock[p] == -1
    ensures Goes(s, t) && Solo(t, c)
    ensures t == s.(pc := s.pc[p := Switch(l)], ilock := s.ilock[l := -1], plock := s.plock[p := c], chan := s.chan[p := l],
                    st := s.st[p := Sleeping])
  {
    hide Inv, Goes, Solo, ProcOk;
    SoloGo(s, c, p);
    var s1 := ProcStep(s, p);
    SoloGo(s1, c, p);
    var s2 := ProcStep(s1, p);
    SoloGo(s2, c, p);
    var s3 := ProcStep(s2, p);
    SoloGo(s3, c, p);
    t := ProcStep(s3, p);
    GoesMore(s, s1, s2);
    GoesMore(s, s2, s3);
    GoesMore(s, s3, t);
  }

  /** swtch to the scheduler, which goes on looking. */
  lemma SwitchOff(s: Sys, c: int, p: int, l: int) returns (t: Sys)
    requires Solo(s, c) && IsProc(s, p) && s.on[c] == p && s.pc[p] == Switch(l) && IsLock(s, l)
    ensures Goes(s, t) && Calm(t) && Keep(s, t)
  {
    hide Inv, Goes, ProcOk, Keep;
    CpuFacts(s, c);
    SoloGo(s, c, p);
    var s1 := ProcStep(s, p);
    assert s1 == Switched(s, p, Resume(l));
    SwitchSolo(s, s1, c, p);
    t := LightIdle(s1, c);
    GoesMore(s, s1, t);
    KeepMore(s, s1, t);
  }

  lemma SwitchSolo(s: Sys, s1: Sys, c: int, p: int)
    requires Solo(s, c) && IsProc(s, p) && s.on[c] == p && s.at[p] == c && s.pc[p].Switch? && s1 == Switched(s, p, Resume(s.pc[p].l)) && Inv(s1)
    ensures Solo(s1, c) && LightOn(s1, c) && !Idle(s1, c) && Keep(s, s1)
  {
    CpuFacts(s, c);
    forall d | IsCpu(s1, d) && d != c ensures Idle(s1, d) { assert Idle(s, d); }
  }

  // ---- releasing ----

  function Woken(s: Sys, l: int, i: int): seq<PState>
    requires IsProc(s, i) && |s.st| == |s.chan| == |s.pc|
  {
    if s.st[i].Sleeping? && s.chan[i] == l then s.st[i := Runnable] else s.st
  }

  /** wakeup's look at one process. */
  lemma SweepOne(s: Sys, c: int, p: int, l: int, i: int) returns (t: Sys)
    requires Solo(s, c) && IsProc(s, p) && s.on[c] == p && s.pc[p] == WakeLock(l, i) && IsLock(s, l) && Sized(s)
    requires IsProc(s, i) && s.plock[i] == -1
    ensures Goes(s, t) && Solo(t, c) && t == s.(pc := s.pc[p := WakeLock(l, i + 1)], st := Woken(s, l, i))
  {
    hide Inv, Goes, Solo, ProcOk;
    SoloGo(s, c, p);
    var s1 := ProcStep(s, p);
    SoloGo(s1, c, p);
    var s2 := ProcStep(s1, p);
    SoloGo(s2, c, p);
    t := ProcStep(s2, p);
    assert s.plock[i := c][i := -1] == s.plock;
    GoesMore(s, s1, s2);
    GoesMore(s, s2, t);
  }

  /** wakeup from process i on: those asleep on l, and no others, become RUNNABLE. */
  lemma {:induction false} Sweep(s: Sys, c: int, p: int, l: int, i: int) returns (t: Sys)
    requires Solo(s, c) && IsProc(s, p) && s.on[c] == p && s.pc[p] == WakeLock(l, i) && IsLock(s, l) && Sized(s)
    requires 0 <= i <= |s.pc| && forall x | IsProc(s, x) :: s.plock[x] == -1
    ensures Goes(s, t) && Solo(t, c) && |t.st| == |s.st| && t == s.(pc := s.pc[p := WakeLock(l, |s.pc|)], st := t.st)
    ensures forall x | IsProc(s, x) :: t.st[x] == if x >= i && s.st[x].Sleeping? && s.chan[x] == l then Runnable else s.st[x]
    decreases |s.pc| - i
  {
    hide Inv, Goes, Solo;
    if i == |s.pc| {
      GoesNone(s);
      t := s;
    } else {
      var s1 := SweepOne(s, c, p, l, i);
      t := Sweep(s1, c, p, l, i + 1);
      GoesMore(s, s1, t);
    }
  }

  /** releasesleep up to wakeup. */
  lemma GiveStart(s: Sys, c: int, p: int, l: int) returns (t: Sys)
    requires Solo(s, c) && IsProc(s, p) && s.on[c] == p && s.pc[p] == LockToFree(l) && IsLock(s, l) && Sized(s) && s.ilock[l] == -1
    ensures Goes(s, t) && Solo(t, c)
    ensures t == s.(pc := s.pc[p := WakeLock(l, 0)], ilock := s.ilock[l := c], locked := s.locked[l := false], hold := s.hold[l := -1],
                    mine := s.mine[p := s.mine[p][l := false]], pid := s.pid[l := -1])
  {
    hide Inv, Goes, Solo, ProcOk;
    SoloGo(s, c, p);
    var s1 := ProcStep(s, p);
    SoloGo(s1, c, p);
    var s2 := ProcStep(s1, p);
    SoloGo(s2, c, p);
    t := ProcStep(s2, p);
    GoesMore(s, s1, s2);
    GoesMore(s, s2, t);
  }

  lemma GiveEnd(s: Sys, c: int, p: int, l: int) returns (t: Sys)
    requires Solo(s, c) && IsProc(s, p) && s.on[c] == p && s.pc[p] == WakeLock(l, |s.pc|) && IsLock(s, l) && Sized(s)
    ensures Goes(s, t) && Solo(t, c) && t == s.(pc := s.pc[p := User], ilock := s.ilock[l := -1])
  {
    hide Inv, Goes, Solo, ProcOk;
    SoloGo(s, c, p);
    var s1 := ProcStep(s, p);
    SoloGo(s1, c, p);
    t := ProcStep(s1, p);
    GoesMore(s, s1, t);
  }

  /** releasesleep: the lock is free, those asleep on it are RUNNABLE and no others. */
  lemma GiveRun(s: Sys, c: int, p: int, l: int) returns (t: Sys)
    requires Ready(s, c, p) && s.pc[p] == LockToFree(l) && IsLock(s, l)
    ensures Goes(s, t) && Solo(t, c) && |t.st| == |s.st|
    ensures t == s.(pc := s.pc[p := User], locked := s.locked[l := false], hold := s.hold[l := -1],
                    mine := s.mine[p := s.mine[p][l := false]], pid := s.pid[l := -1], st := t.st)
    ensures forall x | IsProc(s, x) :: t.st[x] == if s.st[x].Sleeping? && s.chan[x] == l then Runnable else s.st[x]
  {
    hide Inv, Goes;
    ReadyFree(s, c, p);
    var s1 := GiveStart(s, c, p, l);
    var s2 := Sweep(s1, c, p, l, 0);
    t := GiveEnd(s2, c, p, l);
    assert s.ilock[l := c][l := -1] == s.ilock;
    GoesMore(s, s1, s2);
    GoesMore(s, s2, t);
  }

  /** kill's look at one process. */
  lemma KillOne(s: Sys, c: int, p: int, q: int, i: int) returns (t: Sys)
    requires Solo(s, c) && IsProc(s, p) && s.on[c] == p && s.pc[p] == KillLock(q, i) && Sized(s) && IsProc(s, i) && IsProc(s, q)
    requires s.plock[i] == -1
    ensures Goes(s, t) && Solo(t, c)
    ensures t == s.(pc := s.pc[p := if i == q then User else KillLock(q, i + 1)],
                    st := if i == q && s.st[q].Sleeping? then s.st[q := Runnable] else s.st)
  {
    hide Inv, Goes, Solo, ProcOk;
    SoloGo(s, c, p);
    var s1 := ProcStep(s, p);
    SoloGo(s1, c, p);
    var s2 := ProcStep(s1, p);
    SoloGo(s2, c, p);
    t := ProcStep(s2, p);
    assert s.plock[i := c][i := -1] == s.plock;
    GoesMore(s, s1, s2);
    GoesMore(s, s2, t);
  }

  /** kill from process i on: its victim, if asleep on whatever channel, becomes RUNNABLE. */
  lemma {:induction false} KillRun(s: Sys, c: int, p: int, q: int, i: int) returns (t: Sys)
    requires Solo(s, c) && IsProc(s, p) && s.on[c] == p && s.pc[p] == KillLock(q, i) && Sized(s) && IsProc(s, q) && 0 <= i <= q
    requires forall x | IsProc(s, x) :: s.plock[x] == -1
    ensures Goes(s, t) && Solo(t, c)
    ensures t == s.(pc := s.pc[p := User], st := if s.st[q].Sleeping? then s.st[q := Runnable] else s.st)
    decreases q - i
  {
    hide Inv, Goes, Solo;
    var s1 := KillOne(s, c, p, q, i);
    t := s1;
    if i < q {
      t := KillRun(s1, c, p, q, i + 1);
      GoesMore(s, s1, t);
    }
  }
}
