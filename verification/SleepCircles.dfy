/** When processes that use sleep-locks are stuck (kernel/sleeplock.c): exactly when some of them
    wait for each other's locks in a circle. */
module SleepCircles {
  import opened SleepLocks
  import opened SleepProgress

  // ---- finishing a job ----

  /** p has finished what it was doing; the other processes' jobs are what they were. */
  ghost predicate Finished(s: Sys, t: Sys, p: int) {
    && SameShape(s, t) && IsProc(s, p) && JobOf(t.pc[p]).Rest?
    && forall x | IsProc(s, x) && x != p :: JobOf(t.pc[x]) == JobOf(s.pc[x])
  }

  /** p, back from its call, yields. */
  lemma Retire(s: Sys, c: int, p: int) returns (t: Sys)
    requires Solo(s, c) && IsProc(s, p) && s.on[c] == p && s.pc[p] == User
    ensures Goes(s, t) && Calm(t) && Keep(s, t)
  {
    hide Inv, Goes, Keep;
    t := LightIdle(s, c);
  }

  /** A process that wants a free lock gets it. */
  lemma TakeJob(s: Sys, c: int, p: int, l: int) returns (t: Sys)
    requires Calm(s) && IsCpu(s, c) && IsProc(s, p) && IsLock(s, l) && JobOf(s.pc[p]) == Want(l) && !s.locked[l]
    ensures Goes(s, t) && Calm(t) && Finished(s, t, p) && t.locked == s.locked[l := true]
    ensures t.mine == s.mine[p := s.mine[p][l := true]]
  {
    hide Inv, Goes;
    CalmFacts(s, p);
    CpuFacts(s, c);
    var s1 := Bring(s, c, p);
    QuietJob(s1.pc[p]);
    var s2 := TakeInner(s1, c, p, l);
    var s3 := TakeRest(s2, c, p, l);
    t := Retire(s3, c, p);
    GoesMore(s, s1, s2);
    GoesMore(s, s2, s3);
    GoesMore(s, s3, t);
  }

  lemma QuietJob(k: Pc)
    requires Quiet(k)
    ensures JobOf(k).Rest? ==> k == User
    ensures JobOf(k).Want? ==> k == LockInner(JobOf(k).l) || k == Relock(JobOf(k).l)
    ensures JobOf(k).Give? ==> k == LockToFree(JobOf(k).l)
    ensures JobOf(k).Killing? ==> k.KillLock?
  {}

  /** releasesleep by a process that is ready to go on with it. */
  lemma GiveReady(s0: Sys, s: Sys, c: int, p: int, l: int) returns (t: Sys)
    requires Ready(s, c, p) && s.pc[p] == LockToFree(l) && IsLock(s, l) && Goes(s0, s)
    ensures Goes(s0, t) && Calm(t) && Finished(s, t, p) && t.locked == s.locked[l := false]
    ensures t.mine == s.mine[p := s.mine[p][l := false]]
    ensures forall x | IsProc(s, x) && x != p :: t.st[x].Sleeping? <==> s.st[x].Sleeping? && s.chan[x] != l
  {
    hide Inv, Goes;
    var s1 := GiveRun(s, c, p, l);
    t := Retire(s1, c, p);
    GoesMore(s0, s, s1);
    GoesMore(s0, s1, t);
  }

  /** A process that is releasing a lock finishes; one at rest that holds a lock releases it. */
  lemma GiveJob(s: Sys, c: int, p: int, l: int) returns (t: Sys)
    requires Calm(s) && IsCpu(s, c) && IsProc(s, p) && IsLock(s, l) && !s.st[p].Sleeping?
    requires JobOf(s.pc[p]) == Give(l) || (JobOf(s.pc[p]).Rest? && s.mine[p][l])
    ensures Goes(s, t) && Calm(t) && Finished(s, t, p) && t.locked == s.locked[l := false]
    ensures t.mine == s.mine[p := s.mine[p][l := false]]
    ensures forall x | IsProc(s, x) && x != p :: t.st[x].Sleeping? <==> s.st[x].Sleeping? && s.chan[x] != l
  {
    hide Inv, Goes, Ready, Calm;
    CalmFacts(s, p);
    SpotFacts(s, c);
    var s1 := Bring(s, c, p);
    ReadyFacts(s1, c, p);
    QuietJob(s1.pc[p]);
    var s2 := s1;
    if s1.pc[p].User? {
      s2 := At(s1, p, LockToFree(l));
      CallReady(s1, c, p, LockToFree(l));
      GoesMore(s, s1, s2);
    }
    t := GiveReady(s, s2, c, p, l);
  }

  lemma SpotFacts(s: Sys, c: int)
    requires Calm(s) && IsCpu(s, c)
    ensures Sized(s) && IsProc(s, s.spc[c].i)
  {
    CpuFacts(s, c);
  }

  lemma ReadyFacts(s: Sys, c: int, p: int)
    requires Ready(s, c, p)
    ensures Sized(s) && IsProc(s, p) && Quiet(s.pc[p]) && Sensible(s, p, s.pc[p])
  {
    CpuFacts(s, c);
  }

  /** p, at rest, starts a call. */
  lemma CallReady(s: Sys, c: int, p: int, k: Pc)
    requires Ready(s, c, p) && s.pc[p].User? && (k.LockInner? || k.LockToFree?) && IsLock(s, k.l) && Sized(s)
    requires k.LockToFree? ==> s.mine[p][k.l]
    ensures Enabled(s, Call(p, k)) && Ready(At(s, p, k), c, p) && (k.LockToFree? ==> Goes(s, At(s, p, k))) && Leads(s, At(s, p, k))
  {
    StepKeeps(s, Call(p, k));
    RunOne(s, Call(p, k));
    if k.LockToFree? { GoesOne(s, Call(p, k)); }
    var t := At(s, p, k);
    hide Inv, Goes, Leads;
    forall d | IsCpu(t, d) && d != c ensures Idle(t, d) { assert Idle(s, d); }
  }

  /** kill comes to its end. */
  lemma KillJob(s: Sys, c: int, p: int) returns (t: Sys)
    requires Calm(s) && IsCpu(s, c) && IsProc(s, p) && JobOf(s.pc[p]).Killing?
    ensures Goes(s, t) && Calm(t) && Finished(s, t, p) && t.locked == s.locked && t.mine == s.mine
  {
    hide Inv, Goes, Calm;
    CalmFacts(s, p);
    SpotFacts(s, c);
    var s1 := Bring(s, c, p);
    ReadyFacts(s1, c, p);
    ReadyFree(s1, c, p);
    QuietJob(s1.pc[p]);
    var s2 := KillRun(s1, c, p, s1.pc[p].q, s1.pc[p].i);
    t := Retire(s2, c, p);
    GoesMore(s, s1, s2);
    GoesMore(s, s2, t);
  }

  // ---- home, or a circle ----

  /** Nobody is doing anything and no sleep-lock is taken. */
  ghost predicate Home(s: Sys) {
    && Calm(s)
    && (forall p | IsProc(s, p) :: JobOf(s.pc[p]).Rest?)
    && (forall l | IsLock(s, l) :: !s.locked[l])
  }

  /** Each of these processes waits for a lock that one of them holds. */
  ghost predicate Circle(s: Sys, ps: set<int>) {
    && Sized(s) && (exists p :: p in ps)
    && forall p | p in ps ::
      && IsProc(s, p) && JobOf(s.pc[p]).Want? && IsLock(s, JobOf(s.pc[p]).l)
      && s.locked[JobOf(s.pc[p]).l] && s.hold[JobOf(s.pc[p]).l] in ps
  }

  /** Processes below n that are doing something. */
  ghost function Active(s: Sys, n: nat): nat
    requires n <= |s.pc|
  {
    if n == 0 then 0 else Active(s, n - 1) + if JobOf(s.pc[n - 1]).Rest? then 0 else 1
  }

  ghost function Taken(locked: seq<bool>, n: nat): nat
    requires n <= |locked|
  {
    if n == 0 then 0 else Taken(locked, n - 1) + if locked[n - 1] then 1 else 0
  }

  lemma {:induction false} FewerActive(s: Sys, t: Sys, p: int, n: nat)
    requires Finished(s, t, p) && n <= |s.pc|
    ensures Active(t, n) == Active(s, n) - if p < n && !JobOf(s.pc[p]).Rest? then 1 else 0
  {
    if n > 0 { FewerActive(s, t, p, n - 1); }
  }

  lemma {:induction false} FewerTaken(locked: seq<bool>, l: int, n: nat)
    requires 0 <= l < |locked| && n <= |locked| && locked[l]
    ensures Taken(locked[l := false], n) == Taken(locked, n) - if l < n then 1 else 0
  {
    if n > 0 { FewerTaken(locked, l, n - 1); }
  }

  ghost predicate Holds(s: Sys, p: int, l: int) {
    Sized(s) && IsProc(s, p) && IsLock(s, l) && s.mine[p][l]
  }

  /** p is at rest and could release l. */
  ghost predicate Idler(s: Sys, p: int, l: int) {
    Holds(s, p, l) && JobOf(s.pc[p]).Rest?
  }

  /** p could finish what it is doing. */
  ghost predicate Able(s: Sys, p: int) {
    && Sized(s) && IsProc(s, p)
    && match JobOf(s.pc[p])
       case Rest => false
       case Want(l) => IsLock(s, l) && !s.locked[l]
       case Give(l) => true
       case Killing => true
  }

  lemma JobSensible(s: Sys, p: int)
    requires Calm(s) && IsProc(s, p)
    ensures JobOf(s.pc[p]).Want? ==> IsLock(s, JobOf(s.pc[p]).l)
    ensures JobOf(s.pc[p]).Give? ==> IsLock(s, JobOf(s.pc[p]).l)
    ensures !JobOf(s.pc[p]).Want? ==> !s.st[p].Sleeping?
  {
    CalmFacts(s, p);
    assert ProcOk(s, p);
    if s.pc[p].YieldUnlock? { QuietJob(s.pc[p].k); }
  }

  /** An able process finishes. */
  lemma FinishJob(s: Sys, c: int, p: int) returns (t: Sys)
    requires Calm(s) && IsCpu(s, c) && Able(s, p)
    ensures Goes(s, t) && Calm(t) && SameShape(s, t) && Active(t, |t.pc|) < Active(s, |s.pc|)
  {
    hide Inv, Goes, Calm;
    JobSensible(s, p);
    var j := JobOf(s.pc[p]);
    if j.Want? {
      t := TakeJob(s, c, p, j.l);
    } else if j.Give? {
      t := GiveJob(s, c, p, j.l);
    } else {
      t := KillJob(s, c, p);
    }
    FewerActive(s, t, p, |s.pc|);
  }

  /** A process at rest releases a lock. */
  lemma LetGo(s: Sys, c: int, p: int, l: int) returns (t: Sys)
    requires Calm(s) && IsCpu(s, c) && Idler(s, p, l)
    ensures Goes(s, t) && Calm(t) && SameShape(s, t)
    ensures Active(t, |t.pc|) == Active(s, |s.pc|) && Taken(t.locked, |t.locked|) < Taken(s.locked, |s.locked|)
  {
    hide Inv, Goes, Calm;
    JobSensible(s, p);
    HeldIsLocked(s, p, l);
    t := GiveJob(s, c, p, l);
    FewerActive(s, t, p, |s.pc|);
    FewerTaken(s.locked, l, |s.locked|);
  }

  lemma HeldIsLocked(s: Sys, p: int, l: int)
    requires Calm(s) && Holds(s, p, l)
    ensures |s.locked| == |s.ilock| && s.locked[l] && s.hold[l] == p
  {
    assert MineOk(s, p, l);
  }

  lemma LockedIsHeld(s: Sys, l: int)
    requires Inv(s) && Sized(s) && IsLock(s, l) && s.locked[l]
    ensures IsProc(s, s.hold[l]) && Holds(s, s.hold[l], l)
  {
    assert LockOk(s, l);
  }

  /** p has something to do and cannot go on. */
  lemma Blocked(s: Sys, p: int)
    requires Calm(s) && IsProc(s, p) && !JobOf(s.pc[p]).Rest? && !Able(s, p)
    ensures JobOf(s.pc[p]).Want? && IsLock(s, JobOf(s.pc[p]).l) && s.locked[JobOf(s.pc[p]).l]
  {
    JobSensible(s, p);
  }

  lemma HolderActive(s: Sys, l: int)
    requires Calm(s) && IsLock(s, l) && s.locked[l] && forall p :: !Idler(s, p, l)
    ensures IsProc(s, s.hold[l]) && !JobOf(s.pc[s.hold[l]]).Rest?
  {
    LockedIsHeld(s, l);
    assert !Idler(s, s.hold[l], l);
  }

  /** When nobody can finish and nobody at rest holds a lock, all is over or there is a circle. */
  lemma HomeOrCircle(s: Sys)
    requires Calm(s) && (forall p, l :: !Idler(s, p, l)) && forall p :: !Able(s, p)
    ensures Home(s) || exists ps :: Circle(s, ps)
  {
    hide Calm, Idler, Able;
    CalmSized(s);
    var ps := set p | 0 <= p < |s.pc| && !JobOf(s.pc[p]).Rest?;
    forall l | IsLock(s, l) && s.locked[l] ensures s.hold[l] in ps { HolderActive(s, l); }
    if p :| IsProc(s, p) && !JobOf(s.pc[p]).Rest? {
      assert p in ps;
      forall x | x in ps ensures JobOf(s.pc[x]).Want? && IsLock(s, JobOf(s.pc[x]).l) && s.locked[JobOf(s.pc[x]).l] { Blocked(s, x); }
      assert Circle(s, ps);
    } else {
      forall l | IsLock(s, l) ensures !s.locked[l] { if s.locked[l] { HolderActive(s, l); } }
      assert Home(s);
    }
  }

  lemma {:induction false} GoHome(s: Sys, c: int) returns (t: Sys)
    requires Calm(s) && IsCpu(s, c)
    ensures Goes(s, t) && (Home(t) || exists ps :: Circle(t, ps))
    decreases Active(s, |s.pc|), Taken(s.locked, |s.locked|)
  {
    hide Inv, Goes, Calm, Home, Circle, Idler, Able;
    if p, l :| Idler(s, p, l) {
      var s1 := LetGo(s, c, p, l);
      t := GoHome(s1, c);
      GoesMore(s, s1, t);
    } else if p :| Able(s, p) {
      var s1 := FinishJob(s, c, p);
      t := GoHome(s1, c);
      GoesMore(s, s1, t);
    } else {
      GoesNone(s);
      HomeOrCircle(s);
      t := s;
    }
  }

  /** p waits for l, which a process that waits holds. */
  ghost predicate Stuck(s: Sys, p: int, l: int) {
    && Sized(s) && IsProc(s, p) && IsLock(s, l) && JobOf(s.pc[p]) == Want(l) && s.locked[l]
    && IsProc(s, s.hold[l]) && JobOf(s.pc[s.hold[l]]).Want?
  }

  lemma StuckBefore(s: Sys, t: Sys, p: int, l: int)
    requires Inv(s) && Inv(t) && Toward(s, t) && Stuck(t, p, l)
    ensures IsProc(s, p) && JobOf(s.pc[p]) == Want(l) && IsLock(s, l) && s.locked[l] && s.hold[l] == t.hold[l]
  {
    LockedIsHeld(t, l);
    assert MineOk(s, t.hold[l], l);
    hide Inv;
  }

  /** A circle at the end of a run in which nobody began to acquire a lock was there before. */
  lemma CircleBefore(s: Sys, t: Sys, ps: set<int>)
    requires Inv(s) && Inv(t) && Toward(s, t) && Circle(t, ps)
    ensures Circle(s, ps)
  {
    hide Inv, Toward;
    InvSized(s);
    forall p | p in ps
      ensures IsProc(s, p) && JobOf(s.pc[p]) == JobOf(t.pc[p]) && IsLock(s, JobOf(t.pc[p]).l)
      ensures s.locked[JobOf(t.pc[p]).l] && s.hold[JobOf(t.pc[p]).l] == t.hold[JobOf(t.pc[p]).l]
    {
      var l := JobOf(t.pc[p]).l;
      assert t.hold[l] in ps;
      StuckBefore(s, t, p, l);
    }
  }

  // ---- a circle stays ----

  lemma LockStays(s: Sys, p: int, l: int)
    requires Inv(s) && Enabled(s, Go(p)) && IsLock(s, l) && s.locked[l] && IsProc(s, s.hold[l]) && JobOf(s.pc[s.hold[l]]).Want?
    ensures ProcStep(s, p).locked[l] && ProcStep(s, p).hold[l] == s.hold[l]
  {
    assert ProcOk(s, p);
    if s.pc[p].SetLocked? {
    } else if s.pc[p].ClearLocked? {
      assert MineOk(s, p, s.pc[p].l);
    } else {
      Moved(s, p);
    }
  }

  /** Who waits for a taken lock goes on waiting for it. */
  lemma JobStays(s: Sys, t: Sys, p: int, l: int)
    requires Inv(s) && OnlyMoved(s, t, p) && JobOf(s.pc[p]) == Want(l) && IsLock(s, l) && s.locked[l]
    ensures JobOf(t.pc[p]) == Want(l)
  {
    assert ProcOk(s, p);
    hide Inv;
  }

  lemma StuckStays(s: Sys, e: Event, p: int, l: int)
    requires Inv(s) && Enabled(s, e) && Stuck(s, p, l)
    ensures
      var t := After(s, e);
      Sized(t) && IsProc(t, p) && IsLock(t, l) && JobOf(t.pc[p]) == Want(l) && t.locked[l] && t.hold[l] == s.hold[l]
  {
    hide Inv, ProcStep;
    if e.Go? {
      Moved(s, e.p);
      if e.p == p { JobStays(s, ProcStep(s, p), p, l); }
      LockStays(s, e.p, l);
    }
  }

  lemma CircleStays(s: Sys, e: Event, ps: set<int>)
    requires Inv(s) && Enabled(s, e) && Circle(s, ps)
    ensures Circle(After(s, e), ps)
  {
    hide Inv, After, Enabled;
    var t := After(s, e);
    StepShape(s, e);
    forall p | p in ps
      ensures IsProc(t, p) && JobOf(t.pc[p]) == JobOf(s.pc[p]) && IsLock(t, JobOf(s.pc[p]).l)
      ensures t.locked[JobOf(s.pc[p]).l] && t.hold[JobOf(s.pc[p]).l] == s.hold[JobOf(s.pc[p]).l]
    {
      var l := JobOf(s.pc[p]).l;
      assert s.hold[l] in ps;
      StuckStays(s, e, p, l);
    }
  }

  lemma {:induction false} CircleForever(s: Sys, es: seq<Event>, t: Sys, ps: set<int>)
    requires Inv(s) && Run(s, es, t) && Circle(s, ps)
    ensures Circle(t, ps)
    decreases |es|
  {
    hide Inv, Circle;
    if es != [] {
      CircleStays(s, es[0], ps);
      StepKeeps(s, es[0]);
      CircleForever(After(s, es[0]), es[1..], t, ps);
    }
  }

  // ---- the theorems, over every run ----

  /** On a machine with a CPU, whatever has happened: everything can be finished and every
      sleep-lock freed again if and only if no processes wait for each other in a circle. */
  lemma HomeIff(s0: Sys, es: seq<Event>, s: Sys)
    requires Initial(s0) && |s0.on| > 0 && Run(s0, es, s)
    ensures (exists t :: Home(t) && Leads(s, t)) <==> !(exists ps :: Circle(s, ps))
  {
    hide Inv, Goes, Home, Circle, Leads, Calm, Toward;
    InitialInv(s0);
    RunKeeps(s0, es, s);
    RunShape(s0, es, s);
    if ps :| Circle(s, ps) {
      forall t | Home(t) && Leads(s, t) ensures false { NoWayHome(s, t, ps); }
    } else {
      var s1 := Settles(s);
      var t := GoHome(s1, 0);
      GoesMore(s, s1, t);
      GoesToward(s, t);
      if ps :| Circle(t, ps) {
        CircleBefore(s, t, ps);
      }
      GoesLeads(s, t);
    }
  }

  lemma NoWayHome(s: Sys, t: Sys, ps: set<int>)
    requires Inv(s) && Circle(s, ps) && Leads(s, t)
    ensures !Home(t)
  {
    hide Inv;
    var es: seq<Event> :| Run(s, es, t);
    CircleForever(s, es, t, ps);
    var p :| p in ps;
  }

  lemma GoesLeads(s: Sys, t: Sys)
    requires Goes(s, t)
    ensures Leads(s, t)
  {
    var es: seq<Event> :| Run(s, es, t);
  }

  lemma {:induction false} RunShape(s: Sys, es: seq<Event>, t: Sys)
    requires Inv(s) && Run(s, es, t)
    ensures SameShape(s, t)
    decreases |es|
  {
    if es != [] {
      StepKeeps(s, es[0]);
      StepShape(s, es[0]);
      RunShape(After(s, es[0]), es[1..], t);
    }
  }

  lemma StepShape(s: Sys, e: Event)
    requires Enabled(s, e)
    ensures SameShape(s, After(s, e))
  {
    hide ProcStep;
    if e.Go? { Moved(s, e.p); }
  }

  /** A process at rest acquires a free lock. */
  lemma Acquires(s: Sys, c: int, p: int, l: int) returns (t: Sys)
    requires Calm(s) && IsCpu(s, c) && IsProc(s, p) && IsLock(s, l) && JobOf(s.pc[p]).Rest? && !s.locked[l]
    ensures Leads(s, t) && Calm(t) && Finished(s, t, p) && t.locked == s.locked[l := true]
    ensures t.mine == s.mine[p := s.mine[p][l := true]]
  {
    hide Inv, Goes, Leads, Calm;
    var s1 := StartsAcquire(s, c, p, l);
    var s2 := TakeInner(s1, c, p, l);
    var s3 := TakeRest(s2, c, p, l);
    t := Retire(s3, c, p);
    LeadsMore(s, s1, s2);
    LeadsMore(s, s2, s3);
    LeadsMore(s, s3, t);
  }

  /** A process at rest calls acquiresleep. */
  lemma StartsAcquire(s: Sys, c: int, p: int, l: int) returns (t: Sys)
    requires Calm(s) && IsCpu(s, c) && IsProc(s, p) && IsLock(s, l) && JobOf(s.pc[p]).Rest?
    ensures Leads(s, t) && Ready(t, c, p) && t.pc[p] == LockInner(l) && t.locked == s.locked && t.mine == s.mine && SameShape(s, t)
    ensures forall x | IsProc(s, x) && x != p :: JobOf(t.pc[x]) == JobOf(s.pc[x])
  {
    hide Inv, Goes, Leads, Calm, Ready;
    CalmFacts(s, p);
    SpotFacts(s, c);
    JobSensible(s, p);
    var s1 := Bring(s, c, p);
    ReadyFacts(s1, c, p);
    QuietJob(s1.pc[p]);
    CallReady(s1, c, p, LockInner(l));
    t := At(s1, p, LockInner(l));
    LeadsMore(s, s1, t);
  }

  /** A process at rest that calls acquiresleep on a taken lock falls asleep on it. */
  lemma FallsAsleep(s: Sys, c: int, p: int, l: int) returns (t: Sys)
    requires Calm(s) && IsCpu(s, c) && IsProc(s, p) && IsLock(s, l) && JobOf(s.pc[p]).Rest? && s.locked[l]
    ensures Leads(s, t) && Calm(t) && SameShape(s, t) && t.locked == s.locked && t.mine == s.mine
    ensures t.st[p].Sleeping? && t.chan[p] == l && JobOf(t.pc[p]) == Want(l)
    ensures forall x | IsProc(s, x) && x != p :: JobOf(t.pc[x]) == JobOf(s.pc[x])
  {
    hide Inv, Goes, Leads, Calm;
    var s1 := StartsAcquire(s, c, p, l);
    ReadyFree(s1, c, p);
    var s2 := TakeInner(s1, c, p, l);
    var s3 := Block(s2, c, p, l);
    t := SwitchOff(s3, c, p, l);
    LeadsMore(s, s1, s2);
    LeadsMore(s, s2, s3);
    LeadsMore(s, s3, t);
  }

  /** Wherever no processes wait in a circle, any process can still come to hold any lock. */
  lemma AnyLock(s0: Sys, es: seq<Event>, s: Sys, p: int, l: int)
    requires Initial(s0) && |s0.on| > 0 && Run(s0, es, s) && IsProc(s, p) && IsLock(s, l)
    requires !exists ps :: Circle(s, ps)
    ensures exists t :: Leads(s, t) && Holds(t, p, l)
  {
    hide Inv, Leads, Calm, Circle;
    HomeIff(s0, es, s);
    var t :| Home(t) && Leads(s, t);
    InitialInv(s0);
    RunKeeps(s0, es, s);
    RunShape(s0, es, s);
    LeadsShape(s, t);
    var u := Acquires(t, 0, p, l);
    LeadsMore(s, t, u);
    CalmSized(u);
  }

  lemma CalmSized(s: Sys)
    requires Calm(s)
    ensures Sized(s)
  {}

  lemma LeadsShape(s: Sys, t: Sys)
    requires Inv(s) && Leads(s, t)
    ensures SameShape(s, t)
  {
    var es: seq<Event> :| Run(s, es, t);
    RunShape(s, es, t);
  }

  /** From the start, on one CPU or more: one process takes a lock, another falls asleep on it,
      and when the first has released it the other gets it. */
  lemma Contended(s: Sys, p: int, q: int, l: int) returns (held: Sys, asleep: Sys, passed: Sys)
    requires Initial(s) && |s.on| > 0 && IsProc(s, p) && IsProc(s, q) && p != q && IsLock(s, l)
    ensures Leads(s, held) && Holds(held, p, l)
    ensures Leads(held, asleep) && Holds(asleep, p, l) && IsProc(asleep, q) && asleep.st[q].Sleeping? && asleep.chan[q] == l
    ensures Leads(asleep, passed) && Holds(passed, q, l) && !Holds(passed, p, l)
  {
    hide Inv, Goes, Leads, Calm;
    InitialHome(s);
    held := Acquires(s, 0, p, l);
    CalmSized(held);
    asleep := FallsAsleep(held, 0, q, l);
    CalmSized(asleep);
    JobSensible(asleep, p);
    var s1 := GiveJob(asleep, 0, p, l);
    CalmSized(s1);
    passed := TakeJob(s1, 0, q, l);
    CalmSized(passed);
    LeadsMore(asleep, s1, passed);
  }

  /** Two processes that take two locks in opposite orders, one CPU being enough: a circle. */
  lemma Crossed(s: Sys, p: int, q: int, l: int, m: int) returns (t: Sys)
    requires Initial(s) && |s.on| > 0 && IsProc(s, p) && IsProc(s, q) && p != q && IsLock(s, l) && IsLock(s, m) && l != m
    ensures Leads(s, t) && Circle(t, {p, q})
  {
    hide Inv, Leads, Calm;
    InitialHome(s);
    var s1 := Acquires(s, 0, p, l);
    CalmSized(s1);
    var s2 := Acquires(s1, 0, q, m);
    CalmSized(s2);
    var s3 := FallsAsleep(s2, 0, p, m);
    t := FallsAsleep(s3, 0, q, l);
    CalmSized(t);
    HeldIsLocked(t, p, l);
    HeldIsLocked(t, q, m);
    LeadsMore(s, s1, s2);
    LeadsMore(s, s2, s3);
    LeadsMore(s, s3, t);
    assert p in {p, q};
  }

  lemma InitialHome(s: Sys)
    requires Initial(s)
    ensures Home(s)
  {
    InitialInv(s);
    forall c | IsCpu(s, c) ensures Idle(s, c) {}
  }

  /** Whatever step wakes a sleeper: it is a releasesleep of the lock it sleeps on, or a kill. */
  lemma OnlyWoken(s: Sys, e: Event, q: int)
    requires Inv(s) && Enabled(s, e) && IsProc(s, q) && s.st[q].Sleeping?
    ensures SameShape(s, After(s, e))
    ensures !After(s, e).st[q].Sleeping? ==>
      e.Go? && (s.pc[e.p] == WakeSet(s.chan[q], q) || s.pc[e.p] == KillSet(q, q))
  {
    StepShape(s, e);
    assert ProcOk(s, q);
    if e.Go? {
      assert ProcOk(s, e.p);
      WokenGo(s, e.p, q);
    } else if e.Sched? {
      assert CpuOk(s, e.c);
    }
  }

  lemma WokenGo(s: Sys, p: int, q: int)
    requires Enabled(s, Go(p)) && IsProc(s, q) && s.st[q].Sleeping? && (p == q ==> s.pc[p].Switch?)
    ensures !ProcStep(s, p).st[q].Sleeping? ==> s.pc[p] == WakeSet(s.chan[q], q) || s.pc[p] == KillSet(q, q)
  {}
}
