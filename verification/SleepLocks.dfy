/** Sleep-locks, sleep/wakeup, yield, kill and the scheduler (kernel/sleeplock.c,
    kernel/proc.c, kernel/spinlock.c) as interleaved steps of any number of processes on
    any number of CPUs with any number of sleep-locks.

    A spinlock holds the number of the CPU that took it, or -1. A process's thread steps
    while some CPU runs it; a CPU's scheduler thread steps while it runs no process. */
module SleepLocks {

  datatype PState = Runnable | Running | Sleeping

  /** Where a process's kernel thread is: the step it takes next. */
  datatype Pc =
    | User                            // free to call, holding no spinlock
    // acquiresleep(l), with sleep(l, inner lock) inside
    | LockInner(l: int)               // acquire(&lk->lk)
    | Test(l: int)                    // while (lk->locked)
    | LockSelf(l: int)                // sleep: acquire(&p->lock)
    | UnlockInner(l: int)             // sleep: release(lk)
    | SetChan(l: int)                 // sleep: p->chan = chan
    | SetSleeping(l: int)             // sleep: p->state = SLEEPING
    | Switch(l: int)                  // sched: swtch to the scheduler
    | Resume(l: int)                  // back from sched: p->chan = 0
    | UnlockSelf(l: int)              // sleep: release(&p->lock)
    | Relock(l: int)                  // sleep: acquire(lk)
    | SetLocked(l: int)               // lk->locked = 1
    | SetPid(l: int)                  // lk->pid = pid
    | UnlockTaken(l: int)             // release(&lk->lk)
    // releasesleep(l), with wakeup(l) inside
    | LockToFree(l: int)              // acquire(&lk->lk)
    | ClearLocked(l: int)             // lk->locked = 0
    | ClearPid(l: int)                // lk->pid = 0
    | WakeLock(l: int, i: int)        // wakeup: acquire(&proc[i].lock)
    | WakeSet(l: int, i: int)         // wakeup: if asleep on l then RUNNABLE
    | WakeUnlock(l: int, i: int)      // wakeup: release(&proc[i].lock)
    | UnlockFreed(l: int)             // release(&lk->lk)
    // yield(), then on with k
    | YieldLock(k: Pc)                // acquire(&p->lock)
    | YieldState(k: Pc)               // p->state = RUNNABLE
    | YieldSwitch(k: Pc)              // sched: swtch to the scheduler
    | YieldUnlock(k: Pc)              // back from sched: release(&p->lock)
    // kill(q): looks at proc[0], proc[1], ... up to q
    | KillLock(q: int, i: int)        // acquire(&proc[i].lock)
    | KillSet(q: int, i: int)         // the victim, if SLEEPING, becomes RUNNABLE
    | KillUnlock(q: int, i: int)      // release(&proc[i].lock)

  /** Where a CPU's scheduler thread is. */
  datatype Spc =
    | Look(i: int)                    // acquire(&proc[i].lock)
    | Pick(i: int)                    // if RUNNABLE then RUNNING
    | Launch(i: int)                  // c->proc = p; swtch to the process
    | Wait(i: int)                    // the process is back: c->proc = 0
    | Next(i: int)                    // release(&proc[i].lock)

  /** `at` is the CPU that runs a process, `on` the process a CPU runs; `hold` and `mine`
      record which process took a sleep-lock, `hold` by lock, `mine` by process. */
  datatype Sys = Sys(plock: seq<int>, st: seq<PState>, chan: seq<int>, pc: seq<Pc>, at: seq<int>, mine: seq<seq<bool>>,
                     ilock: seq<int>, locked: seq<bool>, pid: seq<int>, hold: seq<int>,
                     on: seq<int>, spc: seq<Spc>)

  // ---- what each step position holds ----

  /** The sleep-lock whose inner spinlock is held at this position, or -1. */
  function InnerOf(k: Pc): int {
    match k
    case Test(l) => l
    case LockSelf(l) => l
    case UnlockInner(l) => l
    case SetLocked(l) => l
    case SetPid(l) => l
    case UnlockTaken(l) => l
    case ClearLocked(l) => l
    case ClearPid(l) => l
    case WakeLock(l, i) => l
    case WakeSet(l, i) => l
    case WakeUnlock(l, i) => l
    case UnlockFreed(l) => l
    case _ => -1
  }

  /** The process whose p->lock process p's thread holds at this position, or -1. */
  function ProcOf(k: Pc, p: int): int {
    match k
    case UnlockInner(l) => p
    case SetChan(l) => p
    case SetSleeping(l) => p
    case Switch(l) => p
    case Resume(l) => p
    case UnlockSelf(l) => p
    case WakeSet(l, i) => i
    case WakeUnlock(l, i) => i
    case YieldState(k1) => p
    case YieldSwitch(k1) => p
    case YieldUnlock(k1) => p
    case KillSet(q, i) => i
    case KillUnlock(q, i) => i
    case _ => -1
  }

  /** The process whose p->lock a scheduler thread holds, or -1. */
  function SchedOf(k: Spc): int {
    match k
    case Look(i) => -1
    case Pick(i) => i
    case Launch(i) => i
    case Wait(i) => i
    case Next(i) => i
  }

  /** Positions with no spinlock held, where a timer interrupt may make the thread yield. */
  predicate Quiet(k: Pc) {
    k.User? || k.LockInner? || k.Relock? || k.LockToFree? || k.KillLock?
  }

  /** p is past its check of sleep-lock l on the way to sleeping, or asleep on it. */
  predicate Waiting(k: Pc, st: PState, l: int) {
    match k
    case SetChan(m) => m == l
    case SetSleeping(m) => m == l
    case Switch(m) => m == l && st.Sleeping?
    case Resume(m) => m == l && st.Sleeping?
    case _ => false
  }

  /** The thread is in releasesleep(l) and has still to look at process p. */
  predicate Sweeping(k: Pc, l: int, p: int) {
    match k
    case ClearPid(m) => m == l
    case WakeLock(m, i) => m == l && i <= p
    case WakeSet(m, i) => m == l && i <= p
    case WakeUnlock(m, i) => m == l && i < p
    case _ => false
  }

  // ---- the invariant ----

  ghost predicate Sized(s: Sys) {
    && |s.plock| == |s.st| == |s.chan| == |s.pc| == |s.at| == |s.mine|
    && |s.ilock| == |s.locked| == |s.pid| == |s.hold|
    && |s.on| == |s.spc|
    && forall p | 0 <= p < |s.mine| :: |s.mine[p]| == |s.ilock|
  }

  predicate IsProc(s: Sys, p: int) { 0 <= p < |s.pc| }
  predicate IsLock(s: Sys, l: int) { 0 <= l < |s.ilock| }
  predicate IsCpu(s: Sys, c: int) { 0 <= c < |s.on| }

  /** The lock and process numbers in a position are real, a release is by the holder. */
  predicate Sensible(s: Sys, p: int, k: Pc)
    requires IsProc(s, p) && |s.mine| == |s.pc| && |s.mine[p]| == |s.ilock|
  {
    match k
    case User => true
    case LockToFree(l) => IsLock(s, l) && s.mine[p][l]
    case ClearLocked(l) => IsLock(s, l) && s.mine[p][l]
    case WakeLock(l, i) => IsLock(s, l) && 0 <= i <= |s.pc|
    case WakeSet(l, i) => IsLock(s, l) && IsProc(s, i)
    case WakeUnlock(l, i) => IsLock(s, l) && IsProc(s, i)
    case YieldLock(k1) => SensibleQuiet(s, p, k1)
    case YieldState(k1) => SensibleQuiet(s, p, k1)
    case YieldSwitch(k1) => SensibleQuiet(s, p, k1)
    case YieldUnlock(k1) => SensibleQuiet(s, p, k1)
    case KillLock(q, i) => IsProc(s, q) && 0 <= i <= q
    case KillSet(q, i) => IsProc(s, q) && 0 <= i <= q
    case KillUnlock(q, i) => IsProc(s, q) && 0 <= i <= q
    case _ => IsLock(s, k.l)
  }

  predicate SensibleQuiet(s: Sys, p: int, k: Pc)
    requires IsProc(s, p) && |s.mine| == |s.pc| && |s.mine[p]| == |s.ilock|
  {
    && Quiet(k)
    && (k.LockInner? || k.Relock? || k.LockToFree? ==> IsLock(s, k.l))
    && (k.LockToFree? ==> s.mine[p][k.l])
    && (k.KillLock? ==> IsProc(s, k.q) && 0 <= k.i <= k.q)
  }

  /** Locks held, state, channel and what is known of the sleep-lock at p's position. */
  ghost predicate ProcOk(s: Sys, p: int)
    requires Sized(s) && IsProc(s, p)
  {
    var k := s.pc[p];
    var c := s.at[p];
    && Sensible(s, p, k)
    && -1 <= c < |s.on|
    && (c >= 0 ==> s.on[c] == p)
    && (InnerOf(k) >= 0 ==> c >= 0 && s.ilock[InnerOf(k)] == c)
    && (c >= 0 && ProcOf(k, p) >= 0 ==> s.plock[ProcOf(k, p)] == c)
    && (c >= 0 ==> s.st[p] == if k.Switch? then Sleeping else if k.YieldSwitch? then Runnable else Running)
    && (c < 0 ==> k.Resume? || k.YieldUnlock?)
    && (c < 0 && s.st[p].Sleeping? ==> k.Resume?)
    && ((k.SetSleeping? || k.Switch? || k.Resume?) ==> s.chan[p] == k.l)
    && ((k.LockSelf? || k.UnlockInner?) ==> s.locked[k.l])
    && ((k.SetLocked? || k.ClearPid? || k.WakeLock? || k.WakeSet? || k.WakeUnlock? || k.UnlockFreed?) ==> !s.locked[k.l])
    && ((k.SetPid? || k.UnlockTaken?) ==> s.mine[p][k.l])
    && (k.UnlockTaken? ==> s.pid[k.l] == p)
  }

  ghost predicate CpuOk(s: Sys, c: int)
    requires Sized(s) && IsCpu(s, c)
  {
    var p := s.on[c];
    var k := s.spc[c];
    && -1 <= p < |s.pc| && IsProc(s, k.i)
    && (p >= 0 ==> s.at[p] == c && k == Wait(p))
    && (p < 0 && SchedOf(k) >= 0 ==> s.plock[SchedOf(k)] == c)
    && (p < 0 && (k.Launch? || k.Wait?) ==> s.at[k.i] < 0)
    && (p < 0 && k.Launch? ==> s.st[k.i].Running?)
    && (p < 0 && (k.Wait? || k.Next?) ==> !(s.st[k.i].Running? && s.at[k.i] < 0))
  }

  /** A held p->lock is held by the thread its CPU runs; a process that is RUNNING on no
      CPU is just being launched. */
  ghost predicate PLockOk(s: Sys, q: int)
    requires Sized(s) && IsProc(s, q)
  {
    var c := s.plock[q];
    && -1 <= c < |s.on|
    && (c >= 0 ==> if s.on[c] < 0 then SchedOf(s.spc[c]) == q
                   else 0 <= s.on[c] < |s.pc| && ProcOf(s.pc[s.on[c]], s.on[c]) == q)
    && (s.st[q].Running? && s.at[q] < 0 ==> c >= 0 && s.on[c] < 0 && s.spc[c] == Launch(q))
  }

  /** A held inner lock is held by the process its CPU runs; a taken sleep-lock belongs
      to one process, and records its pid once that process has set it. */
  ghost predicate LockOk(s: Sys, l: int)
    requires Sized(s) && IsLock(s, l)
  {
    var c := s.ilock[l];
    && -1 <= c < |s.on|
    && (c >= 0 ==> 0 <= s.on[c] < |s.pc| && InnerOf(s.pc[s.on[c]]) == l)
    && (s.locked[l] ==> IsProc(s, s.hold[l]) && s.mine[s.hold[l]][l]
                        && (s.pid[l] == s.hold[l] || s.pc[s.hold[l]] == SetPid(l)))
  }

  ghost predicate MineOk(s: Sys, p: int, l: int)
    requires Sized(s) && IsProc(s, p) && IsLock(s, l)
  {
    s.mine[p][l] ==> s.locked[l] && s.hold[l] == p
  }

  /** Nobody waits for a free sleep-lock but while its releaser, holding the inner lock,
      has still to look at the one who waits. */
  ghost predicate WakeOk(s: Sys, p: int, l: int)
    requires Sized(s) && IsProc(s, p) && IsLock(s, l)
  {
    Waiting(s.pc[p], s.st[p], l) && !s.locked[l] ==>
      && 0 <= s.ilock[l] < |s.on|
      && 0 <= s.on[s.ilock[l]] < |s.pc|
      && Sweeping(s.pc[s.on[s.ilock[l]]], l, p)
  }

  ghost predicate Inv(s: Sys) {
    && Sized(s)
    && (forall p | IsProc(s, p) :: ProcOk(s, p))
    && (forall c | IsCpu(s, c) :: CpuOk(s, c))
    && (forall q | IsProc(s, q) :: PLockOk(s, q))
    && (forall l | IsLock(s, l) :: LockOk(s, l))
    && (forall p, l | IsProc(s, p) && IsLock(s, l) :: MineOk(s, p, l))
    && (forall p, l | IsProc(s, p) && IsLock(s, l) :: WakeOk(s, p, l))
  }

  // ---- steps ----

  datatype Event =
    | Call(p: int, k: Pc)             // a process in User starts a call
    | Tick(p: int)                    // a timer interrupt makes a process yield
    | Go(p: int)                      // a process takes its next step
    | Sched(c: int)                   // a scheduler thread takes its next step

  /** A spinlock that the step needs is free. */
  predicate CanLock(s: Sys, p: int)
    requires Sized(s) && IsProc(s, p)
  {
    match s.pc[p]
    case LockInner(l) => IsLock(s, l) && s.ilock[l] == -1
    case Relock(l) => IsLock(s, l) && s.ilock[l] == -1
    case LockToFree(l) => IsLock(s, l) && s.ilock[l] == -1
    case LockSelf(l) => s.plock[p] == -1
    case YieldLock(k) => s.plock[p] == -1
    case WakeLock(l, i) => IsProc(s, i) ==> s.plock[i] == -1
    case KillLock(q, i) => IsProc(s, i) && s.plock[i] == -1
    case _ => true
  }

  ghost predicate Enabled(s: Sys, e: Event) {
    && Sized(s)
    && match e
       case Call(p, k) =>
         && IsProc(s, p) && IsCpu(s, s.at[p]) && s.pc[p].User?
         && ((k.LockInner? && IsLock(s, k.l)) || (k.LockToFree? && IsLock(s, k.l) && s.mine[p][k.l])
             || (k.KillLock? && IsProc(s, k.q) && k.i == 0))
       case Tick(p) => IsProc(s, p) && IsCpu(s, s.at[p]) && Quiet(s.pc[p])
       case Go(p) => IsProc(s, p) && IsCpu(s, s.at[p]) && !s.pc[p].User? && Sensible(s, p, s.pc[p]) && CanLock(s, p)
       case Sched(c) =>
         IsCpu(s, c) && s.on[c] < 0 && IsProc(s, s.spc[c].i) && (s.spc[c].Look? ==> s.plock[s.spc[c].i] == -1)
  }

  function At(s: Sys, p: int, k: Pc): Sys
    requires IsProc(s, p)
  {
    s.(pc := s.pc[p := k])
  }

  /** swtch to the scheduler: the CPU keeps p->lock, now on the scheduler's behalf. */
  function Switched(s: Sys, p: int, k: Pc): Sys
    requires IsProc(s, p) && |s.at| == |s.pc| && IsCpu(s, s.at[p])
  {
    s.(pc := s.pc[p := k], at := s.at[p := -1], on := s.on[s.at[p] := -1])
  }

  ghost function ProcStep(s: Sys, p: int): Sys
    requires Enabled(s, Go(p))
  {
    var c := s.at[p];
    match s.pc[p]
    case User => s
    case LockInner(l) => At(s, p, Test(l)).(ilock := s.ilock[l := c])
    case Test(l) => At(s, p, if s.locked[l] then LockSelf(l) else SetLocked(l))
    case LockSelf(l) => At(s, p, UnlockInner(l)).(plock := s.plock[p := c])
    case UnlockInner(l) => At(s, p, SetChan(l)).(ilock := s.ilock[l := -1])
    case SetChan(l) => At(s, p, SetSleeping(l)).(chan := s.chan[p := l])
    case SetSleeping(l) => At(s, p, Switch(l)).(st := s.st[p := Sleeping])
    case Switch(l) => Switched(s, p, Resume(l))
    case Resume(l) => At(s, p, UnlockSelf(l)).(chan := s.chan[p := -1])
    case UnlockSelf(l) => At(s, p, Relock(l)).(plock := s.plock[p := -1])
    case Relock(l) => At(s, p, Test(l)).(ilock := s.ilock[l := c])
    case SetLocked(l) => At(s, p, SetPid(l)).(locked := s.locked[l := true], hold := s.hold[l := p],
                                              mine := s.mine[p := s.mine[p][l := true]])
    case SetPid(l) => At(s, p, UnlockTaken(l)).(pid := s.pid[l := p])
    case UnlockTaken(l) => At(s, p, User).(ilock := s.ilock[l := -1])
    case LockToFree(l) => At(s, p, ClearLocked(l)).(ilock := s.ilock[l := c])
    case ClearLocked(l) => At(s, p, ClearPid(l)).(locked := s.locked[l := false], hold := s.hold[l := -1],
                                                  mine := s.mine[p := s.mine[p][l := false]])
    case ClearPid(l) => At(s, p, WakeLock(l, 0)).(pid := s.pid[l := -1])
    case WakeLock(l, i) => if i == |s.pc| then At(s, p, UnlockFreed(l)) else At(s, p, WakeSet(l, i)).(plock := s.plock[i := c])
    case WakeSet(l, i) =>
      if s.st[i].Sleeping? && s.chan[i] == l then At(s, p, WakeUnlock(l, i)).(st := s.st[i := Runnable])
      else At(s, p, WakeUnlock(l, i))
    case WakeUnlock(l, i) => At(s, p, WakeLock(l, i + 1)).(plock := s.plock[i := -1])
    case UnlockFreed(l) => At(s, p, User).(ilock := s.ilock[l := -1])
    case YieldLock(k) => At(s, p, YieldState(k)).(plock := s.plock[p := c])
    case YieldState(k) => At(s, p, YieldSwitch(k)).(st := s.st[p := Runnable])
    case YieldSwitch(k) => Switched(s, p, YieldUnlock(k))
    case YieldUnlock(k) => At(s, p, k).(plock := s.plock[p := -1])
    case KillLock(q, i) => At(s, p, KillSet(q, i)).(plock := s.plock[i := c])
    case KillSet(q, i) =>
      if i == q && s.st[q].Sleeping? then At(s, p, KillUnlock(q, i)).(st := s.st[q := Runnable])
      else At(s, p, KillUnlock(q, i))
    case KillUnlock(q, i) => At(s, p, if i == q then User else KillLock(q, i + 1)).(plock := s.plock[i := -1])
  }

  ghost function SchedStep(s: Sys, c: int): Sys
    requires Enabled(s, Sched(c))
  {
    match s.spc[c]
    case Look(i) => s.(spc := s.spc[c := Pick(i)], plock := s.plock[i := c])
    case Pick(i) =>
      if s.st[i].Runnable? then s.(spc := s.spc[c := Launch(i)], st := s.st[i := Running]) else s.(spc := s.spc[c := Next(i)])
    case Launch(i) => s.(spc := s.spc[c := Wait(i)], on := s.on[c := i], at := s.at[i := c])
    case Wait(i) => s.(spc := s.spc[c := Next(i)])
    case Next(i) => s.(spc := s.spc[c := Look(if i + 1 == |s.pc| then 0 else i + 1)], plock := s.plock[i := -1])
  }

  ghost function After(s: Sys, e: Event): Sys
    requires Enabled(s, e)
  {
    match e
    case Call(p, k) => At(s, p, k)
    case Tick(p) => At(s, p, YieldLock(s.pc[p]))
    case Go(p) => ProcStep(s, p)
    case Sched(c) => SchedStep(s, c)
  }

  // ---- every step keeps the invariant ----

  ghost predicate SameShape(s: Sys, s1: Sys) {
    && Sized(s) && Sized(s1)
    && |s1.pc| == |s.pc| && |s1.ilock| == |s.ilock| && |s1.on| == |s.on|
  }

  /** From s to s1 process p, on CPU s.at[p], took one step that changed nothing of other
      processes but that it may have woken process i, whose p->lock it holds; no spinlock
      but inner lock l and p->lock q, which were free or its own; and nothing of any
      sleep-lock but l. */
  ghost predicate OneProc(s: Sys, s1: Sys, p: int, l: int, q: int, i: int) {
    && SameShape(s, s1) && IsProc(s, p) && IsCpu(s, s.at[p])
    && s1.on == s.on && s1.at == s.at && s1.spc == s.spc
    && (forall x | IsProc(s, x) && x != p :: s1.pc[x] == s.pc[x] && s1.chan[x] == s.chan[x] && s1.mine[x] == s.mine[x])
    && (forall x | IsProc(s, x) && x != p && x != i :: s1.st[x] == s.st[x])
    && (forall x | IsLock(s, x) && x != l :: s1.ilock[x] == s.ilock[x] && s1.locked[x] == s.locked[x]
          && s1.pid[x] == s.pid[x] && s1.hold[x] == s.hold[x] && s1.mine[p][x] == s.mine[p][x])
    && (forall x | IsProc(s, x) && x != q :: s1.plock[x] == s.plock[x])
    && (IsLock(s, l) ==> (s.ilock[l] == -1 || s.ilock[l] == s.at[p]) && (s1.ilock[l] == -1 || s1.ilock[l] == s.at[p]))
    && (IsProc(s, q) ==> (s.plock[q] == -1 || s.plock[q] == s.at[p]) && (s1.plock[q] == -1 || s1.plock[q] == s.at[p]))
    && (IsProc(s, i) && i != p ==> s.plock[i] == s.at[p] && (s1.st[i] == s.st[i] || (s.st[i].Sleeping? && s1.st[i].Runnable?)))
  }

  /** What the step has to show about p itself, l and those p was sweeping for. */
  ghost predicate StepOk(s: Sys, s1: Sys, p: int, l: int, q: int)
    requires SameShape(s, s1) && IsProc(s, p) && IsCpu(s, s.at[p])
  {
    && ProcOk(s1, p) && (IsLock(s, l) ==> LockOk(s1, l)) && (IsProc(s, q) ==> PLockOk(s1, q)) && PLockOk(s1, p)
    && (forall x | IsLock(s, x) :: MineOk(s1, p, x) && WakeOk(s1, p, x))
    && (IsLock(s, l) ==> forall x | IsProc(s, x) && x != p :: MineOk(s1, x, l) && WakeOk(s1, x, l))
    && (forall x | IsLock(s, x) && x != l :: s.pc[p] != SetPid(x) && (s.ilock[x] != s.at[p]))
    && (forall x | IsProc(s, x) && x != q && s.plock[x] == s.at[p] :: ProcOf(s1.pc[p], p) == x)
  }

  lemma SensibleSame(s: Sys, s1: Sys, x: int)
    requires SameShape(s, s1) && IsProc(s, x) && s1.pc[x] == s.pc[x] && s1.mine[x] == s.mine[x]
    ensures Sensible(s1, x, s1.pc[x]) == Sensible(s, x, s.pc[x])
  {}

  /** A lock number a position speaks of is that of the inner lock it holds, where the
      position knows anything of the sleep-lock. */
  lemma InnerKnown(k: Pc)
    ensures (k.LockSelf? || k.UnlockInner? || k.SetLocked? || k.ClearPid? || k.WakeLock? || k.WakeSet? || k.WakeUnlock?
             || k.UnlockFreed? || k.SetPid? || k.UnlockTaken?) ==> InnerOf(k) == k.l
  {}

  lemma OthersProc(s: Sys, s1: Sys, p: int, l: int, q: int, i: int, x: int)
    requires Inv(s) && OneProc(s, s1, p, l, q, i) && IsProc(s, x) && x != p
    ensures ProcOk(s1, x)
  {
    assert ProcOk(s, x) && ProcOk(s, p);
    assert CpuOk(s, s.at[p]);
    assert s.at[x] != s.at[p];
    RangesOf(s, x);
    SensibleSame(s, s1, x);
    InnerKnown(s.pc[x]);
    assert s.pc[x].Switch? ==> ProcOf(s.pc[x], x) == x;
    hide Sensible, InnerOf, ProcOf, Inv;
  }

  lemma RangesOf(s: Sys, x: int)
    requires Sized(s) && IsProc(s, x) && Sensible(s, x, s.pc[x])
    ensures -1 <= InnerOf(s.pc[x]) < |s.ilock| && -1 <= ProcOf(s.pc[x], x) < |s.pc|
  {}

  lemma OthersCpu(s: Sys, s1: Sys, p: int, l: int, q: int, i: int, c: int)
    requires Inv(s) && OneProc(s, s1, p, l, q, i) && IsCpu(s, c)
    requires PLockOk(s1, p)
    ensures CpuOk(s1, c)
  {
    assert CpuOk(s, c) && ProcOk(s, p);
  }

  lemma OthersPLock(s: Sys, s1: Sys, p: int, l: int, q: int, i: int, x: int)
    requires Inv(s) && OneProc(s, s1, p, l, q, i) && StepOk(s, s1, p, l, q) && IsProc(s, x) && x != p && x != q
    ensures PLockOk(s1, x)
  {
    assert PLockOk(s, x) && ProcOk(s, p);
    var d := s.plock[x];
    if d >= 0 { assert CpuOk(s, d); }
  }

  lemma OthersLock(s: Sys, s1: Sys, p: int, l: int, q: int, i: int, y: int)
    requires Inv(s) && OneProc(s, s1, p, l, q, i) && StepOk(s, s1, p, l, q) && IsLock(s, y) && y != l
    ensures LockOk(s1, y)
  {
    assert LockOk(s, y) && ProcOk(s, p);
    var d := s.ilock[y];
    if d >= 0 { assert CpuOk(s, d); }
  }

  lemma OthersWake(s: Sys, s1: Sys, p: int, l: int, q: int, i: int, x: int, y: int)
    requires Inv(s) && OneProc(s, s1, p, l, q, i) && StepOk(s, s1, p, l, q) && IsProc(s, x) && x != p && IsLock(s, y) && y != l
    ensures MineOk(s1, x, y) && WakeOk(s1, x, y)
  {
    assert MineOk(s, x, y) && WakeOk(s, x, y) && ProcOk(s, p) && LockOk(s, y);
    var d := s.ilock[y];
    if d >= 0 { assert CpuOk(s, d); }
  }

  lemma Rebuild(s: Sys, s1: Sys, p: int, l: int, q: int, i: int)
    requires Inv(s) && OneProc(s, s1, p, l, q, i) && StepOk(s, s1, p, l, q)
    ensures Inv(s1)
  {
    hide ProcOk, CpuOk, PLockOk, LockOk, MineOk, WakeOk;
    forall x | IsProc(s1, x) ensures ProcOk(s1, x) { if x != p { OthersProc(s, s1, p, l, q, i, x); } }
    forall c | IsCpu(s1, c) ensures CpuOk(s1, c) { OthersCpu(s, s1, p, l, q, i, c); }
    forall x | IsProc(s1, x) ensures PLockOk(s1, x) { if x != p && x != q { OthersPLock(s, s1, p, l, q, i, x); } }
    forall y | IsLock(s1, y) ensures LockOk(s1, y) { if y != l { OthersLock(s, s1, p, l, q, i, y); } }
    forall x, y | IsProc(s1, x) && IsLock(s1, y) ensures MineOk(s1, x, y) && WakeOk(s1, x, y) {
      if x != p && y != l { OthersWake(s, s1, p, l, q, i, x, y); }
    }
  }

  /** The CPU of p holds just the spinlocks of p's position. */
  lemma OwnLocks(s: Sys, p: int)
    requires Inv(s) && IsProc(s, p) && IsCpu(s, s.at[p])
    ensures ProcOk(s, p) && PLockOk(s, p) && s.on[s.at[p]] == p
    ensures forall x | IsLock(s, x) :: s.ilock[x] == s.at[p] ==> InnerOf(s.pc[p]) == x
    ensures forall x | IsProc(s, x) :: s.plock[x] == s.at[p] ==> ProcOf(s.pc[p], p) == x
  {
    assert ProcOk(s, p);
    forall x | IsLock(s, x) && s.ilock[x] == s.at[p] ensures InnerOf(s.pc[p]) == x { assert LockOk(s, x); }
    forall x | IsProc(s, x) && s.plock[x] == s.at[p] ensures ProcOf(s.pc[p], p) == x { assert PLockOk(s, x); }
  }

  /** A step at a position without inner lock that does not start to wait. */
  lemma RebuildLoose(s: Sys, s1: Sys, p: int, q: int, i: int)
    requires Inv(s) && OneProc(s, s1, p, -1, q, i) && s1.mine == s.mine && InnerOf(s.pc[p]) == -1
    requires forall x :: Waiting(s1.pc[p], s1.st[p], x) ==> Waiting(s.pc[p], s.st[p], x)
    requires ProcOk(s1, p) && PLockOk(s1, p) && (IsProc(s, q) ==> PLockOk(s1, q))
    requires ProcOf(s1.pc[p], p) == ProcOf(s.pc[p], p) || ProcOf(s1.pc[p], p) == q || ProcOf(s.pc[p], p) == q
    requires ProcOf(s.pc[p], p) != q && ProcOf(s.pc[p], p) != -1 ==> ProcOf(s1.pc[p], p) == ProcOf(s.pc[p], p)
    ensures Inv(s1)
  {
    OwnLocks(s, p);
    forall x | IsLock(s, x) ensures MineOk(s1, p, x) && WakeOk(s1, p, x) {
      assert MineOk(s, p, x) && WakeOk(s, p, x) && LockOk(s, x);
      if s.ilock[x] >= 0 { assert CpuOk(s, s.ilock[x]); }
    }
    assert StepOk(s, s1, p, -1, q);
    Rebuild(s, s1, p, -1, q, i);
  }

  /** Process p runs, and its CPU is a CPU. */
  ghost predicate Runs(s: Sys, p: int) {
    Inv(s) && IsProc(s, p) && |s.at| == |s.pc| && IsCpu(s, s.at[p])
  }

  lemma MovedIs(s: Sys, p: int, k: Pc, l: int)
    requires Sized(s) && IsProc(s, p) && IsCpu(s, s.at[p]) && (IsLock(s, l) ==> s.ilock[l] == s.at[p])
    ensures OneProc(s, At(s, p, k), p, l, -1, -1)
  {}

  lemma WokenIs(s: Sys, p: int, k: Pc, l: int, i: int)
    requires Sized(s) && IsProc(s, p) && IsCpu(s, s.at[p]) && (IsLock(s, l) ==> s.ilock[l] == s.at[p])
    requires IsProc(s, i) && i != p && s.plock[i] == s.at[p] && s.st[i].Sleeping?
    ensures OneProc(s, At(s, p, k).(st := s.st[i := Runnable]), p, l, -1, i)
  {}

  lemma LockedIs(s: Sys, p: int, k: Pc, l: int, q: int, v: int)
    requires Sized(s) && IsProc(s, p) && IsCpu(s, s.at[p]) && (IsLock(s, l) ==> s.ilock[l] == s.at[p])
    requires IsProc(s, q) && (s.plock[q] == -1 || s.plock[q] == s.at[p]) && (v == -1 || v == s.at[p])
    ensures OneProc(s, At(s, p, k).(plock := s.plock[q := v]), p, l, q, -1)
  {}

  lemma StateIs(s: Sys, p: int, k: Pc, st: PState)
    requires Sized(s) && IsProc(s, p) && IsCpu(s, s.at[p])
    ensures OneProc(s, At(s, p, k).(st := s.st[p := st]), p, -1, -1, -1)
  {}

  lemma LockInnerKeeps(s: Sys, p: int, l: int)
    requires Runs(s, p) && (s.pc[p] == LockInner(l) || s.pc[p] == Relock(l)) && IsLock(s, l) && s.ilock[l] == -1
    ensures Inv(At(s, p, Test(l)).(ilock := s.ilock[l := s.at[p]]))
  {
    var s1 := At(s, p, Test(l)).(ilock := s.ilock[l := s.at[p]]);
    OwnLocks(s, p);
    assert LockOk(s, l);
    forall x | IsLock(s, x) ensures MineOk(s1, p, x) && WakeOk(s1, p, x) { assert MineOk(s, p, x) && WakeOk(s, p, x); }
    forall x | IsProc(s, x) && x != p ensures MineOk(s1, x, l) && WakeOk(s1, x, l) { assert MineOk(s, x, l) && WakeOk(s, x, l); }
    hide Inv;
    assert OneProc(s, s1, p, l, -1, -1) by { hide ProcOk, PLockOk, LockOk, MineOk, WakeOk, InnerOf, Sensible; }
    assert StepOk(s, s1, p, l, -1) by { hide OneProc; }
    Rebuild(s, s1, p, l, -1, -1);
  }

  lemma LockToFreeKeeps(s: Sys, p: int, l: int)
    requires Runs(s, p) && s.pc[p] == LockToFree(l) && IsLock(s, l) && s.ilock[l] == -1
    ensures Inv(At(s, p, ClearLocked(l)).(ilock := s.ilock[l := s.at[p]]))
  {
    var s1 := At(s, p, ClearLocked(l)).(ilock := s.ilock[l := s.at[p]]);
    OwnLocks(s, p);
    assert LockOk(s, l);
    forall x | IsLock(s, x) ensures MineOk(s1, p, x) && WakeOk(s1, p, x) { assert MineOk(s, p, x) && WakeOk(s, p, x); }
    forall x | IsProc(s, x) && x != p ensures MineOk(s1, x, l) && WakeOk(s1, x, l) { assert MineOk(s, x, l) && WakeOk(s, x, l); }
    hide Inv;
    assert OneProc(s, s1, p, l, -1, -1) by { hide ProcOk, PLockOk, LockOk, MineOk, WakeOk, InnerOf, Sensible; }
    assert StepOk(s, s1, p, l, -1) by { hide OneProc; }
    Rebuild(s, s1, p, l, -1, -1);
  }

  lemma TestKeeps(s: Sys, p: int, l: int, k: Pc)
    requires Runs(s, p) && s.pc[p] == Test(l) && IsLock(s, l) && k == (if s.locked[l] then LockSelf(l) else SetLocked(l))
    ensures Inv(At(s, p, k))
  {
    var s1 := At(s, p, k);
    OwnLocks(s, p);
    assert LockOk(s, l);
    forall x | IsLock(s, x) ensures MineOk(s1, p, x) && WakeOk(s1, p, x) { assert MineOk(s, p, x) && WakeOk(s, p, x); }
    forall x | IsProc(s, x) && x != p ensures MineOk(s1, x, l) && WakeOk(s1, x, l) { assert MineOk(s, x, l) && WakeOk(s, x, l); }
    MovedIs(s, p, k, l);
    hide Inv, OneProc;
    assert StepOk(s, s1, p, l, -1);
    Rebuild(s, s1, p, l, -1, -1);
  }

  lemma LockSelfKeeps(s: Sys, p: int, l: int)
    requires Runs(s, p) && s.pc[p] == LockSelf(l) && IsLock(s, l) && s.plock[p] == -1
    ensures Inv(At(s, p, UnlockInner(l)).(plock := s.plock[p := s.at[p]]))
  {
    var s1 := At(s, p, UnlockInner(l)).(plock := s.plock[p := s.at[p]]);
    OwnLocks(s, p);
    assert LockOk(s, l);
    forall x | IsLock(s, x) ensures MineOk(s1, p, x) && WakeOk(s1, p, x) { assert MineOk(s, p, x) && WakeOk(s, p, x); }
    forall x | IsProc(s, x) && x != p ensures MineOk(s1, x, l) && WakeOk(s1, x, l) { assert MineOk(s, x, l) && WakeOk(s, x, l); }
    LockedIs(s, p, UnlockInner(l), l, p, s.at[p]);
    hide Inv, OneProc;
    assert StepOk(s, s1, p, l, p);
    Rebuild(s, s1, p, l, p, -1);
  }

  /** The step that lets a releaser in: p now waits, with its own lock held. */
  lemma UnlockInnerKeeps(s: Sys, p: int, l: int)
    requires Runs(s, p) && s.pc[p] == UnlockInner(l) && IsLock(s, l)
    ensures Inv(At(s, p, SetChan(l)).(ilock := s.ilock[l := -1]))
  {
    var s1 := At(s, p, SetChan(l)).(ilock := s.ilock[l := -1]);
    OwnLocks(s, p);
    assert LockOk(s, l);
    forall x | IsLock(s, x) ensures MineOk(s1, p, x) && WakeOk(s1, p, x) { assert MineOk(s, p, x) && WakeOk(s, p, x); }
    forall x | IsProc(s, x) && x != p ensures MineOk(s1, x, l) && WakeOk(s1, x, l) { assert MineOk(s, x, l) && WakeOk(s, x, l); }
    hide Inv;
    assert OneProc(s, s1, p, l, -1, -1) by { hide ProcOk, PLockOk, LockOk, MineOk, WakeOk, InnerOf, Sensible; }
    assert StepOk(s, s1, p, l, -1) by { hide OneProc; }
    Rebuild(s, s1, p, l, -1, -1);
  }

  lemma UnlockDoneKeeps(s: Sys, p: int, l: int)
    requires Runs(s, p) && (s.pc[p] == UnlockTaken(l) || s.pc[p] == UnlockFreed(l)) && IsLock(s, l)
    ensures Inv(At(s, p, User).(ilock := s.ilock[l := -1]))
  {
    var s1 := At(s, p, User).(ilock := s.ilock[l := -1]);
    OwnLocks(s, p);
    assert LockOk(s, l);
    forall x | IsLock(s, x) ensures MineOk(s1, p, x) && WakeOk(s1, p, x) { assert MineOk(s, p, x) && WakeOk(s, p, x); }
    forall x | IsProc(s, x) && x != p ensures MineOk(s1, x, l) && WakeOk(s1, x, l) { assert MineOk(s, x, l) && WakeOk(s, x, l); }
    hide Inv;
    assert OneProc(s, s1, p, l, -1, -1) by { hide ProcOk, PLockOk, LockOk, MineOk, WakeOk, InnerOf, Sensible; }
    assert StepOk(s, s1, p, l, -1) by { hide OneProc; }
    Rebuild(s, s1, p, l, -1, -1);
  }

  lemma SetChanKeeps(s: Sys, p: int, l: int)
    requires Runs(s, p) && s.pc[p] == SetChan(l) && IsLock(s, l)
    ensures Inv(At(s, p, SetSleeping(l)).(chan := s.chan[p := l]))
  {
    var s1 := At(s, p, SetSleeping(l)).(chan := s.chan[p := l]);
    OwnLocks(s, p);
    hide Inv;
    RebuildLoose(s, s1, p, -1, -1);
  }

  lemma SetSleepingKeeps(s: Sys, p: int, l: int)
    requires Runs(s, p) && s.pc[p] == SetSleeping(l) && IsLock(s, l)
    ensures Inv(At(s, p, Switch(l)).(st := s.st[p := Sleeping]))
  {
    var s1 := At(s, p, Switch(l)).(st := s.st[p := Sleeping]);
    OwnLocks(s, p);
    StateIs(s, p, Switch(l), Sleeping);
    hide Inv, OneProc;
    RebuildLoose(s, s1, p, -1, -1);
  }

  lemma ResumeKeeps(s: Sys, p: int, l: int)
    requires Runs(s, p) && s.pc[p] == Resume(l) && IsLock(s, l)
    ensures Inv(At(s, p, UnlockSelf(l)).(chan := s.chan[p := -1]))
  {
    var s1 := At(s, p, UnlockSelf(l)).(chan := s.chan[p := -1]);
    OwnLocks(s, p);
    hide Inv;
    RebuildLoose(s, s1, p, -1, -1);
  }

  lemma UnlockSelfKeeps(s: Sys, p: int, l: int)
    requires Runs(s, p) && s.pc[p] == UnlockSelf(l) && IsLock(s, l)
    ensures Inv(At(s, p, Relock(l)).(plock := s.plock[p := -1]))
  {
    var s1 := At(s, p, Relock(l)).(plock := s.plock[p := -1]);
    OwnLocks(s, p);
    LockedIs(s, p, Relock(l), -1, p, -1);
    hide Inv, OneProc;
    RebuildLoose(s, s1, p, p, -1);
  }

  lemma YieldUnlockKeeps(s: Sys, p: int, k: Pc)
    requires Runs(s, p) && s.pc[p] == YieldUnlock(k)
    ensures Inv(At(s, p, k).(plock := s.plock[p := -1]))
  {
    var s1 := At(s, p, k).(plock := s.plock[p := -1]);
    OwnLocks(s, p);
    assert InnerOf(k) == ProcOf(k, p) == -1;
    LockedIs(s, p, k, -1, p, -1);
    hide Inv, OneProc;
    RebuildLoose(s, s1, p, p, -1);
  }

  lemma SetLockedKeeps(s: Sys, p: int, l: int)
    requires Runs(s, p) && s.pc[p] == SetLocked(l) && IsLock(s, l)
    ensures Inv(At(s, p, SetPid(l)).(locked := s.locked[l := true], hold := s.hold[l := p], mine := s.mine[p := s.mine[p][l := true]]))
  {
    var s1 := At(s, p, SetPid(l)).(locked := s.locked[l := true], hold := s.hold[l := p], mine := s.mine[p := s.mine[p][l := true]]);
    OwnLocks(s, p);
    assert LockOk(s, l);
    forall x | IsLock(s, x) ensures MineOk(s1, p, x) && WakeOk(s1, p, x) { assert MineOk(s, p, x) && WakeOk(s, p, x); }
    forall x | IsProc(s, x) && x != p ensures MineOk(s1, x, l) && WakeOk(s1, x, l) { assert MineOk(s, x, l) && WakeOk(s, x, l); }
    hide Inv;
    assert OneProc(s, s1, p, l, -1, -1) by { hide ProcOk, PLockOk, LockOk, MineOk, WakeOk, InnerOf, Sensible; }
    assert StepOk(s, s1, p, l, -1) by { hide OneProc; }
    Rebuild(s, s1, p, l, -1, -1);
  }

  lemma SetPidKeeps(s: Sys, p: int, l: int)
    requires Runs(s, p) && s.pc[p] == SetPid(l) && IsLock(s, l)
    ensures Inv(At(s, p, UnlockTaken(l)).(pid := s.pid[l := p]))
  {
    var s1 := At(s, p, UnlockTaken(l)).(pid := s.pid[l := p]);
    OwnLocks(s, p);
    assert LockOk(s, l);
    assert MineOk(s, p, l);
    forall x | IsLock(s, x) ensures MineOk(s1, p, x) && WakeOk(s1, p, x) { assert MineOk(s, p, x) && WakeOk(s, p, x); }
    forall x | IsProc(s, x) && x != p ensures MineOk(s1, x, l) && WakeOk(s1, x, l) { assert MineOk(s, x, l) && WakeOk(s, x, l); }
    hide Inv;
    assert OneProc(s, s1, p, l, -1, -1) by { hide ProcOk, PLockOk, LockOk, MineOk, WakeOk, InnerOf, Sensible; }
    assert StepOk(s, s1, p, l, -1) by { hide OneProc; }
    Rebuild(s, s1, p, l, -1, -1);
  }

  /** From here on p sweeps for everyone who waits. */
  lemma ClearLockedKeeps(s: Sys, p: int, l: int)
    requires Runs(s, p) && s.pc[p] == ClearLocked(l) && IsLock(s, l)
    ensures Inv(At(s, p, ClearPid(l)).(locked := s.locked[l := false], hold := s.hold[l := -1], mine := s.mine[p := s.mine[p][l := false]]))
  {
    var s1 := At(s, p, ClearPid(l)).(locked := s.locked[l := false], hold := s.hold[l := -1], mine := s.mine[p := s.mine[p][l := false]]);
    OwnLocks(s, p);
    assert LockOk(s, l);
    assert MineOk(s, p, l);
    forall x | IsLock(s, x) ensures MineOk(s1, p, x) && WakeOk(s1, p, x) { assert MineOk(s, p, x) && WakeOk(s, p, x); }
    forall x | IsProc(s, x) && x != p ensures MineOk(s1, x, l) && WakeOk(s1, x, l) { assert MineOk(s, x, l) && WakeOk(s, x, l); }
    hide Inv;
    assert OneProc(s, s1, p, l, -1, -1) by { hide ProcOk, PLockOk, LockOk, MineOk, WakeOk, InnerOf, Sensible; }
    assert StepOk(s, s1, p, l, -1) by { hide OneProc; }
    Rebuild(s, s1, p, l, -1, -1);
  }

  lemma ClearPidKeeps(s: Sys, p: int, l: int)
    requires Runs(s, p) && s.pc[p] == ClearPid(l) && IsLock(s, l)
    ensures Inv(At(s, p, WakeLock(l, 0)).(pid := s.pid[l := -1]))
  {
    var s1 := At(s, p, WakeLock(l, 0)).(pid := s.pid[l := -1]);
    OwnLocks(s, p);
    assert LockOk(s, l);
    forall x | IsLock(s, x) ensures MineOk(s1, p, x) && WakeOk(s1, p, x) { assert MineOk(s, p, x) && WakeOk(s, p, x); }
    forall x | IsProc(s, x) && x != p ensures MineOk(s1, x, l) && WakeOk(s1, x, l) { assert MineOk(s, x, l) && WakeOk(s, x, l); }
    hide Inv;
    assert OneProc(s, s1, p, l, -1, -1) by { hide ProcOk, PLockOk, LockOk, MineOk, WakeOk, InnerOf, Sensible; }
    assert StepOk(s, s1, p, l, -1) by { hide OneProc; }
    Rebuild(s, s1, p, l, -1, -1);
  }

  lemma WakeEndKeeps(s: Sys, p: int, l: int)
    requires Runs(s, p) && s.pc[p] == WakeLock(l, |s.pc|) && IsLock(s, l)
    ensures Inv(At(s, p, UnlockFreed(l)))
  {
    var s1 := At(s, p, UnlockFreed(l));
    OwnLocks(s, p);
    assert LockOk(s, l);
    forall x | IsLock(s, x) ensures MineOk(s1, p, x) && WakeOk(s1, p, x) { assert MineOk(s, p, x) && WakeOk(s, p, x); }
    forall x | IsProc(s, x) && x != p ensures MineOk(s1, x, l) && WakeOk(s1, x, l) { assert MineOk(s, x, l) && WakeOk(s, x, l); }
    MovedIs(s, p, UnlockFreed(l), l);
    hide Inv, OneProc;
    assert StepOk(s, s1, p, l, -1);
    Rebuild(s, s1, p, l, -1, -1);
  }

  lemma WakeLockKeeps(s: Sys, p: int, l: int, i: int)
    requires Runs(s, p) && s.pc[p] == WakeLock(l, i) && IsLock(s, l) && IsProc(s, i) && s.plock[i] == -1
    ensures Inv(At(s, p, WakeSet(l, i)).(plock := s.plock[i := s.at[p]]))
  {
    var s1 := At(s, p, WakeSet(l, i)).(plock := s.plock[i := s.at[p]]);
    OwnLocks(s, p);
    assert LockOk(s, l);
    assert PLockOk(s, i);
    forall x | IsLock(s, x) ensures MineOk(s1, p, x) && WakeOk(s1, p, x) { assert MineOk(s, p, x) && WakeOk(s, p, x); }
    forall x | IsProc(s, x) && x != p ensures MineOk(s1, x, l) && WakeOk(s1, x, l) { assert MineOk(s, x, l) && WakeOk(s, x, l); }
    LockedIs(s, p, WakeSet(l, i), l, i, s.at[p]);
    hide Inv, OneProc;
    assert StepOk(s, s1, p, l, i);
    Rebuild(s, s1, p, l, i, -1);
  }

  /** Process i, asleep on l with its lock held by the sweeper, becomes RUNNABLE. */
  lemma WakeKeeps(s: Sys, p: int, l: int, i: int)
    requires Runs(s, p) && s.pc[p] == WakeSet(l, i) && IsLock(s, l) && IsProc(s, i) && s.st[i].Sleeping?
    ensures Inv(At(s, p, WakeUnlock(l, i)).(st := s.st[i := Runnable]))
  {
    var s1 := At(s, p, WakeUnlock(l, i)).(st := s.st[i := Runnable]);
    OwnLocks(s, p);
    assert LockOk(s, l);
    assert PLockOk(s, i) && ProcOk(s, i) && i != p;
    forall x | IsLock(s, x) ensures MineOk(s1, p, x) && WakeOk(s1, p, x) { assert MineOk(s, p, x) && WakeOk(s, p, x); }
    forall x | IsProc(s, x) && x != p ensures MineOk(s1, x, l) && WakeOk(s1, x, l) { assert MineOk(s, x, l) && WakeOk(s, x, l); }
    WokenIs(s, p, WakeUnlock(l, i), l, i);
    hide Inv, OneProc;
    assert StepOk(s, s1, p, l, -1);
    Rebuild(s, s1, p, l, -1, i);
  }

  /** Process i holds no lock and does not wait for l: nothing to wake. */
  lemma WakeSkipKeeps(s: Sys, p: int, l: int, i: int)
    requires Runs(s, p) && s.pc[p] == WakeSet(l, i) && IsLock(s, l) && IsProc(s, i) && !(s.st[i].Sleeping? && s.chan[i] == l)
    ensures Inv(At(s, p, WakeUnlock(l, i)))
  {
    var s1 := At(s, p, WakeUnlock(l, i));
    OwnLocks(s, p);
    assert LockOk(s, l);
    assert PLockOk(s, i) && ProcOk(s, i);
    forall x | IsLock(s, x) ensures MineOk(s1, p, x) && WakeOk(s1, p, x) { assert MineOk(s, p, x) && WakeOk(s, p, x); }
    forall x | IsProc(s, x) && x != p ensures MineOk(s1, x, l) && WakeOk(s1, x, l) { assert MineOk(s, x, l) && WakeOk(s, x, l); }
    MovedIs(s, p, WakeUnlock(l, i), l);
    hide Inv, OneProc;
    assert StepOk(s, s1, p, l, -1);
    Rebuild(s, s1, p, l, -1, -1);
  }

  lemma WakeUnlockKeeps(s: Sys, p: int, l: int, i: int)
    requires Runs(s, p) && s.pc[p] == WakeUnlock(l, i) && IsLock(s, l) && IsProc(s, i)
    ensures Inv(At(s, p, WakeLock(l, i + 1)).(plock := s.plock[i := -1]))
  {
    var s1 := At(s, p, WakeLock(l, i + 1)).(plock := s.plock[i := -1]);
    OwnLocks(s, p);
    assert LockOk(s, l);
    assert PLockOk(s, i);
    forall x | IsLock(s, x) ensures MineOk(s1, p, x) && WakeOk(s1, p, x) { assert MineOk(s, p, x) && WakeOk(s, p, x); }
    forall x | IsProc(s, x) && x != p ensures MineOk(s1, x, l) && WakeOk(s1, x, l) { assert MineOk(s, x, l) && WakeOk(s, x, l); }
    LockedIs(s, p, WakeLock(l, i + 1), l, i, -1);
    hide Inv, OneProc;
    assert StepOk(s, s1, p, l, i);
    Rebuild(s, s1, p, l, i, -1);
  }

  lemma YieldLockKeeps(s: Sys, p: int, k: Pc)
    requires Runs(s, p) && s.pc[p] == YieldLock(k) && s.plock[p] == -1
    ensures Inv(At(s, p, YieldState(k)).(plock := s.plock[p := s.at[p]]))
  {
    var s1 := At(s, p, YieldState(k)).(plock := s.plock[p := s.at[p]]);
    OwnLocks(s, p);
    LockedIs(s, p, YieldState(k), -1, p, s.at[p]);
    hide Inv, OneProc;
    RebuildLoose(s, s1, p, p, -1);
  }

  lemma YieldStateKeeps(s: Sys, p: int, k: Pc)
    requires Runs(s, p) && s.pc[p] == YieldState(k)
    ensures Inv(At(s, p, YieldSwitch(k)).(st := s.st[p := Runnable]))
  {
    var s1 := At(s, p, YieldSwitch(k)).(st := s.st[p := Runnable]);
    OwnLocks(s, p);
    StateIs(s, p, YieldSwitch(k), Runnable);
    hide Inv, OneProc;
    RebuildLoose(s, s1, p, -1, -1);
  }

  lemma KillLockKeeps(s: Sys, p: int, q: int, i: int)
    requires Runs(s, p) && s.pc[p] == KillLock(q, i) && IsProc(s, i) && s.plock[i] == -1
    ensures Inv(At(s, p, KillSet(q, i)).(plock := s.plock[i := s.at[p]]))
  {
    var s1 := At(s, p, KillSet(q, i)).(plock := s.plock[i := s.at[p]]);
    OwnLocks(s, p);
    assert PLockOk(s, i);
    LockedIs(s, p, KillSet(q, i), -1, i, s.at[p]);
    hide Inv, OneProc;
    RebuildLoose(s, s1, p, i, -1);
  }

  lemma KillKeeps(s: Sys, p: int, q: int)
    requires Runs(s, p) && s.pc[p] == KillSet(q, q) && IsProc(s, q) && s.st[q].Sleeping?
    ensures Inv(At(s, p, KillUnlock(q, q)).(st := s.st[q := Runnable]))
  {
    var s1 := At(s, p, KillUnlock(q, q)).(st := s.st[q := Runnable]);
    OwnLocks(s, p);
    assert PLockOk(s, q) && ProcOk(s, q) && q != p;
    WokenIs(s, p, KillUnlock(q, q), -1, q);
    hide Inv, OneProc;
    RebuildLoose(s, s1, p, -1, q);
  }

  lemma KillSkipKeeps(s: Sys, p: int, q: int, i: int)
    requires Runs(s, p) && s.pc[p] == KillSet(q, i) && IsProc(s, i)
    ensures Inv(At(s, p, KillUnlock(q, i)))
  {
    var s1 := At(s, p, KillUnlock(q, i));
    OwnLocks(s, p);
    assert PLockOk(s, i);
    MovedIs(s, p, KillUnlock(q, i), -1);
    hide Inv, OneProc;
    RebuildLoose(s, s1, p, -1, -1);
  }

  lemma KillUnlockKeeps(s: Sys, p: int, q: int, i: int, k: Pc)
    requires Runs(s, p) && s.pc[p] == KillUnlock(q, i) && IsProc(s, i) && k == (if i == q then User else KillLock(q, i + 1))
    ensures Inv(At(s, p, k).(plock := s.plock[i := -1]))
  {
    var s1 := At(s, p, k).(plock := s.plock[i := -1]);
    OwnLocks(s, p);
    assert PLockOk(s, i) && InnerOf(k) == ProcOf(k, p) == -1;
    LockedIs(s, p, k, -1, i, -1);
    hide Inv, OneProc;
    RebuildLoose(s, s1, p, i, -1);
  }

  lemma CallKeeps(s: Sys, p: int, k: Pc)
    requires Runs(s, p) && s.pc[p].User? && Sensible(s, p, k) && (k.LockInner? || k.LockToFree? || k.KillLock?)
    ensures Inv(At(s, p, k))
  {
    var s1 := At(s, p, k);
    OwnLocks(s, p);
    MovedIs(s, p, k, -1);
    hide Inv, OneProc;
    RebuildLoose(s, s1, p, -1, -1);
  }

  lemma TickKeeps(s: Sys, p: int)
    requires Runs(s, p) && Quiet(s.pc[p])
    ensures Inv(At(s, p, YieldLock(s.pc[p])))
  {
    var s1 := At(s, p, YieldLock(s.pc[p]));
    OwnLocks(s, p);
    MovedIs(s, p, YieldLock(s.pc[p]), -1);
    hide Inv, OneProc;
    RebuildLoose(s, s1, p, -1, -1);
  }

  // ---- swtch and the scheduler ----

  /** From s to s1 the scheduler of CPU c took a step that moved only its own position,
      p->lock of process i, which was free or its own, and perhaps the state of i. */
  ghost predicate OneSched(s: Sys, s1: Sys, c: int, i: int) {
    && SameShape(s, s1) && IsCpu(s, c) && IsProc(s, i) && s.on[c] < 0
    && s1 == s.(plock := s1.plock, st := s1.st, spc := s1.spc)
    && (forall x | IsCpu(s, x) && x != c :: s1.spc[x] == s.spc[x])
    && (forall x | IsProc(s, x) && x != i :: s1.st[x] == s.st[x] && s1.plock[x] == s.plock[x])
    && (s.plock[i] == -1 || s.plock[i] == c) && (s1.plock[i] == -1 || s1.plock[i] == c)
    && (s1.st[i] == s.st[i] || (s.st[i].Runnable? && s1.st[i].Running? && s.plock[i] == c && s.at[i] < 0))
  }

  lemma SchedProc(s: Sys, s1: Sys, c: int, i: int, x: int)
    requires Inv(s) && OneSched(s, s1, c, i) && IsProc(s, x)
    ensures ProcOk(s1, x)
  {
    assert ProcOk(s, x) && CpuOk(s, c);
    RangesOf(s, x);
    SensibleSame(s, s1, x);
    InnerKnown(s.pc[x]);
    hide Sensible, InnerOf, ProcOf, Inv;
  }

  lemma SchedWake(s: Sys, s1: Sys, c: int, i: int, x: int, y: int)
    requires Inv(s) && OneSched(s, s1, c, i) && IsProc(s, x) && IsLock(s, y)
    ensures MineOk(s1, x, y) && WakeOk(s1, x, y) && LockOk(s1, y)
  {
    assert MineOk(s, x, y) && WakeOk(s, x, y) && LockOk(s, y);
  }

  lemma RebuildSched(s: Sys, s1: Sys, c: int, i: int)
    requires Inv(s) && OneSched(s, s1, c, i) && s.spc[c].i == i
    requires CpuOk(s1, c) && PLockOk(s1, i)
    ensures Inv(s1)
  {
    assert CpuOk(s, c);
    forall x | IsProc(s1, x) ensures ProcOk(s1, x) { SchedProc(s, s1, c, i, x); }
    forall d | IsCpu(s1, d) ensures CpuOk(s1, d) { assert CpuOk(s, d); }
    forall q | IsProc(s1, q) ensures PLockOk(s1, q) { assert PLockOk(s, q); }
    forall y | IsLock(s1, y) ensures LockOk(s1, y) { SchedWake(s, s1, c, i, i, y); }
    forall x, y | IsProc(s1, x) && IsLock(s1, y) ensures MineOk(s1, x, y) && WakeOk(s1, x, y) { SchedWake(s, s1, c, i, x, y); }
  }

  lemma SchedLocalKeeps(s: Sys, c: int)
    requires Inv(s) && Enabled(s, Sched(c)) && !s.spc[c].Launch?
    ensures Inv(SchedStep(s, c))
  {
    var i := s.spc[c].i;
    assert CpuOk(s, c) && PLockOk(s, i) && ProcOk(s, i);
    var n := if i + 1 == |s.pc| then 0 else i + 1;
    assert IsProc(s, n);
    hide Inv;
    RebuildSched(s, SchedStep(s, c), c, i);
  }

  /** swtch between the scheduler of c and process i, with p->lock of i held by c
      throughout: the position of i, which holds no inner lock, may move. */
  ghost predicate OneSwitch(s: Sys, s1: Sys, c: int, i: int) {
    && SameShape(s, s1) && IsCpu(s, c) && IsProc(s, i) && s.plock[i] == c
    && s1 == s.(pc := s1.pc, at := s1.at, on := s1.on, spc := s1.spc)
    && (forall x | IsCpu(s, x) && x != c :: s1.on[x] == s.on[x] && s1.spc[x] == s.spc[x])
    && (forall x | IsProc(s, x) && x != i :: s1.pc[x] == s.pc[x] && s1.at[x] == s.at[x])
    && ((s.on[c] == -1 && s1.on[c] == i && s.at[i] == -1) || (s.on[c] == i && s1.on[c] == -1 && s.at[i] == c))
    && InnerOf(s.pc[i]) == -1 && InnerOf(s1.pc[i]) == -1
    && (forall x :: Waiting(s1.pc[i], s1.st[i], x) ==> Waiting(s.pc[i], s.st[i], x))
  }

  lemma SwitchProc(s: Sys, s1: Sys, c: int, i: int, x: int)
    requires Inv(s) && OneSwitch(s, s1, c, i) && IsProc(s, x) && x != i
    ensures ProcOk(s1, x)
  {
    assert ProcOk(s, x) && CpuOk(s, c) && ProcOk(s, i);
    RangesOf(s, x);
    SensibleSame(s, s1, x);
    InnerKnown(s.pc[x]);
    hide Sensible, InnerOf, ProcOf, Inv, Waiting;
  }

  lemma SwitchWake(s: Sys, s1: Sys, c: int, i: int, x: int, y: int)
    requires Inv(s) && OneSwitch(s, s1, c, i) && IsProc(s, x) && IsLock(s, y)
    ensures MineOk(s1, x, y) && WakeOk(s1, x, y) && LockOk(s1, y)
  {
    assert MineOk(s, x, y) && WakeOk(s, x, y) && LockOk(s, y) && CpuOk(s, c);
    if s.ilock[y] >= 0 { assert CpuOk(s, s.ilock[y]); }
  }

  lemma RebuildSwitch(s: Sys, s1: Sys, c: int, i: int)
    requires Inv(s) && OneSwitch(s, s1, c, i)
    requires ProcOk(s1, i) && CpuOk(s1, c) && PLockOk(s1, i)
    ensures Inv(s1)
  {
    assert CpuOk(s, c) && ProcOk(s, i) && PLockOk(s, i);
    forall x | IsProc(s1, x) ensures ProcOk(s1, x) { if x != i { SwitchProc(s, s1, c, i, x); } }
    forall d | IsCpu(s1, d) ensures CpuOk(s1, d) { assert CpuOk(s, d); }
    forall q | IsProc(s1, q) ensures PLockOk(s1, q) {
      assert PLockOk(s, q);
      if s.plock[q] >= 0 { assert CpuOk(s, s.plock[q]); }
    }
    forall y | IsLock(s1, y) ensures LockOk(s1, y) { SwitchWake(s, s1, c, i, i, y); }
    forall x, y | IsProc(s1, x) && IsLock(s1, y) ensures MineOk(s1, x, y) && WakeOk(s1, x, y) { SwitchWake(s, s1, c, i, x, y); }
  }

  lemma LaunchKeeps(s: Sys, c: int)
    requires Inv(s) && Enabled(s, Sched(c)) && s.spc[c].Launch?
    ensures Inv(SchedStep(s, c))
  {
    var i := s.spc[c].i;
    assert CpuOk(s, c) && PLockOk(s, i) && ProcOk(s, i);
    hide Inv;
    RebuildSwitch(s, SchedStep(s, c), c, i);
  }

  lemma SwitchKeeps(s: Sys, p: int, k: Pc)
    requires Runs(s, p) && ((s.pc[p].Switch? && k == Resume(s.pc[p].l)) || (s.pc[p].YieldSwitch? && k == YieldUnlock(s.pc[p].k)))
    ensures Inv(Switched(s, p, k))
  {
    OwnLocks(s, p);
    assert CpuOk(s, s.at[p]);
    hide Inv;
    RebuildSwitch(s, Switched(s, p, k), s.at[p], p);
  }

  lemma AcquireStepKeeps(s: Sys, p: int)
    requires Inv(s) && Enabled(s, Go(p)) && !s.pc[p].SetLocked? && !s.pc[p].SetPid?
    requires InnerOf(s.pc[p]) == -1 || s.pc[p].Test? || s.pc[p].LockSelf? || s.pc[p].UnlockInner?
    requires !s.pc[p].YieldLock? && !s.pc[p].YieldState? && !s.pc[p].YieldSwitch? && !s.pc[p].YieldUnlock?
    requires !s.pc[p].KillLock? && !s.pc[p].KillSet? && !s.pc[p].KillUnlock?
    ensures Inv(ProcStep(s, p))
  {
    hide Inv;
    match s.pc[p]
    case LockInner(l) => LockInnerKeeps(s, p, l);
    case Test(l) => TestKeeps(s, p, l, if s.locked[l] then LockSelf(l) else SetLocked(l));
    case LockSelf(l) => LockSelfKeeps(s, p, l);
    case UnlockInner(l) => UnlockInnerKeeps(s, p, l);
    case SetChan(l) => SetChanKeeps(s, p, l);
    case SetSleeping(l) => SetSleepingKeeps(s, p, l);
    case Switch(l) => SwitchKeeps(s, p, Resume(l));
    case Resume(l) => ResumeKeeps(s, p, l);
    case UnlockSelf(l) => UnlockSelfKeeps(s, p, l);
    case Relock(l) => LockInnerKeeps(s, p, l);
    case LockToFree(l) => LockToFreeKeeps(s, p, l);
  }

  lemma ReleaseStepKeeps(s: Sys, p: int)
    requires Inv(s) && Enabled(s, Go(p)) && InnerOf(s.pc[p]) >= 0
    requires !s.pc[p].Test? && !s.pc[p].LockSelf? && !s.pc[p].UnlockInner?
    ensures Inv(ProcStep(s, p))
  {
    hide Inv;
    match s.pc[p]
    case SetLocked(l) => SetLockedKeeps(s, p, l);
    case SetPid(l) => SetPidKeeps(s, p, l);
    case UnlockTaken(l) => UnlockDoneKeeps(s, p, l);
    case ClearLocked(l) => ClearLockedKeeps(s, p, l);
    case ClearPid(l) => ClearPidKeeps(s, p, l);
    case WakeLock(l, i) => if i == |s.pc| { WakeEndKeeps(s, p, l); } else { WakeLockKeeps(s, p, l, i); }
    case WakeSet(l, i) =>
      if s.st[i].Sleeping? && s.chan[i] == l { WakeKeeps(s, p, l, i); } else { WakeSkipKeeps(s, p, l, i); }
    case WakeUnlock(l, i) => WakeUnlockKeeps(s, p, l, i);
    case UnlockFreed(l) => UnlockDoneKeeps(s, p, l);
  }

  lemma OtherStepKeeps(s: Sys, p: int)
    requires Inv(s) && Enabled(s, Go(p))
    requires s.pc[p].YieldLock? || s.pc[p].YieldState? || s.pc[p].YieldSwitch? || s.pc[p].YieldUnlock?
             || s.pc[p].KillLock? || s.pc[p].KillSet? || s.pc[p].KillUnlock?
    ensures Inv(ProcStep(s, p))
  {
    hide Inv;
    match s.pc[p]
    case YieldLock(k) => YieldLockKeeps(s, p, k);
    case YieldState(k) => YieldStateKeeps(s, p, k);
    case YieldSwitch(k) => SwitchKeeps(s, p, YieldUnlock(k));
    case YieldUnlock(k) => YieldUnlockKeeps(s, p, k);
    case KillLock(q, i) => KillLockKeeps(s, p, q, i);
    case KillSet(q, i) => if i == q && s.st[q].Sleeping? { KillKeeps(s, p, q); } else { KillSkipKeeps(s, p, q, i); }
    case KillUnlock(q, i) => KillUnlockKeeps(s, p, q, i, if i == q then User else KillLock(q, i + 1));
  }

  lemma StepKeeps(s: Sys, e: Event)
    requires Inv(s) && Enabled(s, e)
    ensures Inv(After(s, e))
  {
    hide Inv, ProcStep, SchedStep;
    match e
    case Call(p, k) => CallKeeps(s, p, k);
    case Tick(p) => TickKeeps(s, p);
    case Go(p) =>
      var k := s.pc[p];
      if k.YieldLock? || k.YieldState? || k.YieldSwitch? || k.YieldUnlock? || k.KillLock? || k.KillSet? || k.KillUnlock? {
        OtherStepKeeps(s, p);
      } else if InnerOf(k) == -1 || k.Test? || k.LockSelf? || k.UnlockInner? {
        AcquireStepKeeps(s, p);
      } else {
        ReleaseStepKeeps(s, p);
      }
    case Sched(c) => if s.spc[c].Launch? { LaunchKeeps(s, c); } else { SchedLocalKeeps(s, c); }
  }

  // ---- every run ----

  /** n > 0 processes not yet run, m sleep-locks not taken, any number of CPUs. */
  ghost predicate Initial(s: Sys) {
    && Sized(s) && |s.pc| > 0
    && (forall p | IsProc(s, p) :: s.plock[p] == -1 && s.st[p].Runnable? && s.at[p] == -1 && s.pc[p] == YieldUnlock(User)
          && s.mine[p] == seq(|s.ilock|, _ => false))
    && (forall l | IsLock(s, l) :: s.ilock[l] == -1 && !s.locked[l])
    && (forall c | IsCpu(s, c) :: s.on[c] == -1 && s.spc[c] == Look(0))
  }

  ghost predicate Run(s: Sys, es: seq<Event>, t: Sys)
    decreases |es|
  {
    if es == [] then t == s else Enabled(s, es[0]) && Run(After(s, es[0]), es[1..], t)
  }

  lemma InitialInv(s: Sys)
    requires Initial(s)
    ensures Inv(s)
  {
    forall p | IsProc(s, p) ensures ProcOk(s, p) {}
    forall p, l | IsProc(s, p) && IsLock(s, l) ensures MineOk(s, p, l) && WakeOk(s, p, l) {}
    forall c | IsCpu(s, c) ensures CpuOk(s, c) {}
  }

  lemma {:induction false} RunKeeps(s: Sys, es: seq<Event>, t: Sys)
    requires Inv(s) && Run(s, es, t)
    ensures Inv(t)
    decreases |es|
  {
    if es != [] {
      StepKeeps(s, es[0]);
      RunKeeps(After(s, es[0]), es[1..], t);
    }
  }

  /** Over every interleaving: at most one process holds a sleep-lock, and its pid is the
      one recorded whenever the inner lock is free. */
  lemma MutualExclusion(s: Sys, es: seq<Event>, t: Sys, l: int, p: int, q: int)
    requires Initial(s) && Run(s, es, t) && IsLock(t, l) && IsProc(t, p) && IsProc(t, q) && Sized(t)
    requires t.mine[p][l]
    ensures t.mine[q][l] ==> p == q
    ensures t.locked[l] && (t.ilock[l] == -1 ==> t.pid[l] == p)
  {
    InitialInv(s);
    RunKeeps(s, es, t);
    assert MineOk(t, p, l) && MineOk(t, q, l) && LockOk(t, l) && ProcOk(t, p);
  }

  /** Over every interleaving: while the inner lock is free and locked is 0, nobody is
      asleep on the lock or past its check on the way to sleeping. */
  lemma NoLostWakeup(s: Sys, es: seq<Event>, t: Sys, l: int, p: int)
    requires Initial(s) && Run(s, es, t) && IsLock(t, l) && IsProc(t, p) && Sized(t)
    requires t.ilock[l] == -1 && !t.locked[l]
    ensures !Waiting(t.pc[p], t.st[p], l)
    ensures !(t.st[p].Sleeping? && t.chan[p] == l)
    ensures t.pc[p] != LockSelf(l) && t.pc[p] != UnlockInner(l)
  {
    InitialInv(s);
    RunKeeps(s, es, t);
    assert WakeOk(t, p, l) && ProcOk(t, p);
  }

  /** sched() never panics: its caller's CPU holds p->lock and no other spinlock, and p is
      not RUNNING. */
  lemma SchedNeverPanics(s: Sys, es: seq<Event>, t: Sys, p: int)
    requires Initial(s) && Run(s, es, t) && Sized(t) && IsProc(t, p) && IsCpu(t, t.at[p])
    requires t.pc[p].Switch? || t.pc[p].YieldSwitch?
    ensures t.plock[p] == t.at[p] && !t.st[p].Running?
    ensures forall l | IsLock(t, l) :: t.ilock[l] != t.at[p]
    ensures forall q | IsProc(t, q) && q != p :: t.plock[q] != t.at[p]
  {
    InitialInv(s);
    RunKeeps(s, es, t);
    OwnLocks(t, p);
  }

  /** acquire() never panics on a spinlock its own CPU holds: the lock that a process's
      thread, or a CPU's scheduler thread, is about to take is not held by its CPU. */
  lemma AcquireNeverPanics(s: Sys, es: seq<Event>, t: Sys, p: int, c: int)
    requires Initial(s) && Run(s, es, t) && Sized(t) && IsProc(t, p) && IsCpu(t, c)
    ensures t.at[p] == c ==>
      && ((t.pc[p].LockInner? || t.pc[p].Relock? || t.pc[p].LockToFree?) ==> IsLock(t, t.pc[p].l) && t.ilock[t.pc[p].l] != c)
      && ((t.pc[p].LockSelf? || t.pc[p].YieldLock?) ==> t.plock[p] != c)
      && ((t.pc[p].WakeLock? || t.pc[p].KillLock?) && IsProc(t, t.pc[p].i) ==> t.plock[t.pc[p].i] != c)
    ensures t.on[c] < 0 && t.spc[c].Look? ==> IsProc(t, t.spc[c].i) && t.plock[t.spc[c].i] != c
  {
    InitialInv(s);
    RunKeeps(s, es, t);
    if t.at[p] == c { OwnLocks(t, p); }
    assert CpuOk(t, c) && PLockOk(t, t.spc[c].i);
  }

  lemma ReleaseOwn(t: Sys, p: int)
    requires Inv(t) && IsProc(t, p) && IsCpu(t, t.at[p])
    ensures (t.pc[p].UnlockInner? || t.pc[p].UnlockTaken? || t.pc[p].UnlockFreed?) ==>
              IsLock(t, t.pc[p].l) && t.ilock[t.pc[p].l] == t.at[p]
    ensures (t.pc[p].UnlockSelf? || t.pc[p].YieldUnlock?) ==> t.plock[p] == t.at[p]
    ensures (t.pc[p].WakeUnlock? || t.pc[p].KillUnlock?) ==> IsProc(t, t.pc[p].i) && t.plock[t.pc[p].i] == t.at[p]
  {
    assert ProcOk(t, p);
    hide Inv;
  }

  /** release() never panics: the spinlock that a process's thread, or a CPU's scheduler
      thread, releases is held by its CPU. */
  lemma ReleaseNeverPanics(s: Sys, es: seq<Event>, t: Sys, p: int, c: int)
    requires Initial(s) && Run(s, es, t) && Sized(t) && IsProc(t, p) && IsCpu(t, c)
    ensures t.at[p] == c ==>
      && ((t.pc[p].UnlockInner? || t.pc[p].UnlockTaken? || t.pc[p].UnlockFreed?) ==> IsLock(t, t.pc[p].l) && t.ilock[t.pc[p].l] == c)
      && ((t.pc[p].UnlockSelf? || t.pc[p].YieldUnlock?) ==> t.plock[p] == c)
      && ((t.pc[p].WakeUnlock? || t.pc[p].KillUnlock?) ==> IsProc(t, t.pc[p].i) && t.plock[t.pc[p].i] == c)
    ensures t.on[c] < 0 && t.spc[c].Next? ==> IsProc(t, t.spc[c].i) && t.plock[t.spc[c].i] == c
  {
    InitialInv(s);
    RunKeeps(s, es, t);
    if t.at[p] == c { ReleaseOwn(t, p); }
    assert CpuOk(t, c);
  }
}
