/** Whole runs of the buffer cache with the log, with the steps of a commit between those of
    readers: over every sequence of steps in which callers log what they modify, each bread
    returns the latest logged contents, and a crash after any step loses nothing committed. */
module CacheRuns {
  import opened Basics
  import opened LogDisk
  import opened Storage
  import opened LogLayer

  /** How far a commit has come. */
  datatype Phase =
    | Open                         // no commit is running
    | Writing(k: nat)              // k blocks are in the log
    | Moving(k: nat)               // the header is written, k blocks are home
    | Erased                       // the header is empty again

  /** A step of some process.  Blocks stand for the buffers their holders have locked. */
  datatype Op =
    | Want(b: int)                 // bget takes its reference
    | Got(b: int)                  // bget has the sleep-lock, bread returns
    | Change(b: int, data: Block)
    | LogWrite(b: int)
    | Brelse(b: int)
    | BeginOp
    | EndOp                        // end_op under the log's lock
    | LogRound(k: nat)             // one round of write_log
    | Seal                         // write_head, the commit point
    | MoveRound(k: nat)            // one round of install_trans
    | Erase                        // write_head, with the list empty
    | EndCommit                    // end_op after its commit

  /** What callers may rely on, with no cache and no log in sight:
      view     the latest logged contents of every block,
      durable  what a crash now leaves of them,
      held     the private copy of each block's holder,
      dirty    whether the holder has changed it since it was last logged,
      wait     how many wait for the block. */
  datatype Spec = Spec(view: Disk, durable: Disk, held: seq<Option<Block>>, dirty: seq<bool>, wait: seq<int>,
                       logged: seq<int>, outstanding: int, phase: Phase)

  ghost predicate SpecSizes(s: Spec, n: nat) {
    |s.view| == |s.durable| == |s.held| == |s.dirty| == |s.wait| == n
  }

  ghost predicate Home(l: Layout, s: Spec, b: int) {
    SpecSizes(s, |s.view|) && 0 <= b < |s.view| && !InLog(l, b)
  }

  /** The logged blocks that are still pinned. */
  ghost function PinnedOf(lh: seq<int>, ph: Phase): seq<int> {
    if ph.Moving? && ph.k <= |lh| then lh[ph.k..] else lh
  }

  ghost predicate SpecInUse(s: Spec, b: int)
    requires SpecSizes(s, |s.view|) && 0 <= b < |s.view|
  {
    b in PinnedOf(s.logged, s.phase) || s.held[b].Some? || s.wait[b] > 0
  }

  /** Fewer blocks are in use than there are buffers. */
  ghost predicate SpecRoom(s: Spec) {
    SpecSizes(s, |s.view|) && |set b | 0 <= b < |s.view| && SpecInUse(s, b)| < NBUF
  }

  /** Which steps the source's own rules allow: write only inside an operation, release only
      what is logged, take the steps of a commit in their order, wait for a sleep-lock that
      is held, and never need a buffer when all are in use. */
  ghost predicate Legal(l: Layout, s: Spec, op: Op) {
    match op
    case Want(b) => Home(l, s, b) && s.wait[b] + 1 < NPROC && (SpecInUse(s, b) || SpecRoom(s))
    case Got(b) => Home(l, s, b) && s.wait[b] > 0 && s.held[b].None?
    case Change(b, _) => Home(l, s, b) && s.held[b].Some? && s.outstanding >= 1
    case LogWrite(b) =>
      && Home(l, s, b) && s.held[b].Some?
      && |s.logged| < LOGSIZE && |s.logged| < l.size - 1 && s.outstanding >= 1
    case Brelse(b) => Home(l, s, b) && s.held[b].Some? && !s.dirty[b]
    case BeginOp => s.phase.Open? && |s.logged| + (s.outstanding + 1) * MAXOPBLOCKS <= LOGSIZE
    case EndOp => s.outstanding >= 1 && (s.outstanding == 1 ==> Clean(s))
    case LogRound(k) => s.phase == Writing(k) && RoundLegal(l, s, k)
    case Seal => s.phase == Writing(|s.logged|) && s.logged != [] && SpecRoom(s)
    case MoveRound(k) => s.phase == Moving(k) && RoundLegal(l, s, k)
    case Erase => s.phase == Moving(|s.logged|) && SpecRoom(s)
    case EndCommit => s.phase == Erased || (s.phase == Writing(0) && s.logged == [])
  }

  ghost predicate RoundLegal(l: Layout, s: Spec, k: nat) {
    k < |s.logged| && Home(l, s, s.logged[k]) && s.held[s.logged[k]].None? && SpecRoom(s)
  }

  /** Every change is logged. */
  ghost predicate Clean(s: Spec) {
    |s.held| == |s.dirty| && forall b | 0 <= b < |s.held| && s.held[b].Some? :: !s.dirty[b]
  }

  ghost function Next(l: Layout, s: Spec, op: Op): Spec
    requires Legal(l, s, op)
  {
    match op
    case Want(b) => s.(wait := s.wait[b := s.wait[b] + 1])
    case Got(b) =>
      s.(wait := s.wait[b := s.wait[b] - 1], held := s.held[b := Some(s.view[b])], dirty := s.dirty[b := false])
    case Change(b, data) => s.(held := s.held[b := Some(data)], dirty := s.dirty[b := true])
    case LogWrite(b) =>
      s.(view := s.view[b := s.held[b].value], dirty := s.dirty[b := false],
         logged := if b in s.logged then s.logged else s.logged + [b])
    case Brelse(b) => s.(held := s.held[b := None])
    case BeginOp => s.(outstanding := s.outstanding + 1)
    case EndOp => s.(outstanding := s.outstanding - 1, phase := if s.outstanding == 1 then Writing(0) else s.phase)
    case LogRound(k) => s.(phase := Writing(k + 1))
    case Seal => s.(phase := Moving(0), durable := s.view)
    case MoveRound(k) => s.(phase := Moving(k + 1))
    case Erase => s.(phase := Erased, logged := [])
    case EndCommit => s.(phase := Open)
  }

  ghost predicate LegalRun(l: Layout, s: Spec, ops: seq<Op>)
    decreases |ops|
  {
    ops != [] ==> Legal(l, s, ops[0]) && LegalRun(l, Next(l, s, ops[0]), ops[1..])
  }

  ghost function Result(l: Layout, s: Spec, op: Op): seq<Block>
    requires Legal(l, s, op)
  {
    if op.Got? then [s.view[op.b]] else []
  }

  /** The contents that the breads of a run must return. */
  ghost function Reads(l: Layout, s: Spec, ops: seq<Op>): seq<Block>
    requires LegalRun(l, s, ops)
    decreases |ops|
  {
    if ops == [] then [] else Result(l, s, ops[0]) + Reads(l, Next(l, s, ops[0]), ops[1..])
  }

  ghost function After(l: Layout, s: Spec, ops: seq<Op>): Spec
    requires LegalRun(l, s, ops)
    decreases |ops|
  {
    if ops == [] then s else After(l, Next(l, s, ops[0]), ops[1..])
  }

  // ---- the cache with its log refines that ----

  ghost predicate PinsAre(pins: seq<int>, lh: seq<int>) {
    forall b | 0 <= b < |pins| :: pins[b] == Bit(b in lh)
  }

  /** The first n log slots hold the contents of the first n blocks of lh. */
  ghost predicate SlotsAre(l: Layout, d: Disk, view: Disk, lh: seq<int>, n: nat) {
    && n <= |lh| && l.start + n < |d| && (forall t | 0 <= t < |lh| :: 0 <= lh[t] < |view|)
    && forall t | 0 <= t < n :: d[l.start + 1 + t] == view[lh[t]]
  }

  ghost predicate HeaderIs(l: Layout, d: Disk, hs: seq<int>) {
    WellFormed(l, d) && HeaderBlocks(d[l.start]) == hs
  }

  /** What is on disk and pinned at each phase of a commit. */
  ghost predicate PhaseValid(l: Layout, s: State, lh: seq<int>, ph: Phase) {
    && Sound(s) && GoodTargets(l, |s.disk|, lh)
    && HeaderIs(l, s.disk, if ph.Moving? then lh else [])
    && PinsAre(s.g.pins, PinnedOf(lh, ph))
    && (ph.Writing? || ph.Moving? ==> ph.k <= |lh|)
    && (ph.Moving? ==> |lh| < NBUF)
    && (ph.Erased? ==> lh == [])
    && SlotsAre(l, s.disk, s.g.view, lh, InLogSoFar(lh, ph))
  }

  lemma MovingValid(l: Layout, s: State, lh: seq<int>, k: nat)
    ensures PhaseValid(l, s, lh, Moving(k)) <==>
            && Sound(s) && GoodTargets(l, |s.disk|, lh) && HeaderIs(l, s.disk, lh) && k <= |lh| < NBUF
            && PinsAre(s.g.pins, lh[k..]) && SlotsAre(l, s.disk, s.g.view, lh, |lh|)
  {
    hide Sound, GoodTargets, HeaderIs, PinsAre, SlotsAre;
  }

  lemma WritingValid(l: Layout, s: State, lh: seq<int>, k: nat)
    ensures PhaseValid(l, s, lh, Writing(k)) <==>
            && Sound(s) && GoodTargets(l, |s.disk|, lh) && HeaderIs(l, s.disk, []) && k <= |lh|
            && PinsAre(s.g.pins, lh) && SlotsAre(l, s.disk, s.g.view, lh, k)
  {
    hide Sound, GoodTargets, HeaderIs, PinsAre, SlotsAre;
  }

  lemma ErasedValid(l: Layout, s: State, lh: seq<int>)
    ensures PhaseValid(l, s, lh, Erased) <==>
            && Sound(s) && lh == [] && HeaderIs(l, s.disk, []) && PinsAre(s.g.pins, []) && SlotsAre(l, s.disk, s.g.view, [], 0)
  {
    hide Sound, PinsAre, SlotsAre;
  }

  ghost function InLogSoFar(lh: seq<int>, ph: Phase): (n: nat)
    ensures n <= |lh|
  {
    match ph
    case Writing(k) => if k <= |lh| then k else 0
    case Moving(_) => |lh|
    case _ => 0
  }

  /** What the cache and the specification agree on about block b. */
  ghost predicate Agree(l: Layout, s: Spec, st: State, b: int)
    requires Sizes(st) && SpecSizes(s, |st.disk|) && 0 <= b < |st.disk|
  {
    && (InLog(l, b) ==> s.held[b].None? && s.wait[b] == 0)
    && (!InLog(l, b) ==> s.view[b] == st.g.view[b])
    && s.wait[b] == st.g.wait[b] && st.g.wait[b] < NPROC
    && (s.held[b].Some? <==> st.g.held[b])
    && (s.held[b].Some? && 0 <= st.g.home[b] < NBUF ==>
          s.held[b].value == st.bufs[st.g.home[b]].data && s.dirty[b] == st.g.dirty[st.g.home[b]])
  }

  ghost predicate Agrees(l: Layout, s: Spec, st: State) {
    Sizes(st) && SpecSizes(s, |st.disk|) && forall b | 0 <= b < |st.disk| :: Agree(l, s, st, b)
  }

  /** The blocks a crash leaves, once the log is recovered. */
  ghost predicate Safe(l: Layout, durable: Disk, st: State, ph: Phase) {
    SameHome(l, if ph.Moving? then st.g.view else st.disk, durable)
  }

  ghost predicate Refines(l: Layout, s: Spec, st: State, lh: seq<int>) {
    && PhaseValid(l, st, lh, s.phase) && lh == s.logged
    && Agrees(l, s, st) && Safe(l, s.durable, st, s.phase)
    && s.outstanding >= 0
    && (!s.phase.Open? ==> s.outstanding == 0 && Clean(s))
  }

  lemma RefinesFacts(l: Layout, s: Spec, st: State, lh: seq<int>)
    requires Refines(l, s, st, lh)
    ensures PhaseValid(l, st, lh, s.phase) && Sound(st) && CacheInv(st) && Sizes(st) && SpecSizes(s, |st.disk|)
    ensures Agrees(l, s, st) && Safe(l, s.durable, st, s.phase) && lh == s.logged
    ensures s.outstanding >= 0 && (!s.phase.Open? ==> s.outstanding == 0 && Clean(s))
  {
  }

  lemma RoomAgrees(l: Layout, s: Spec, st: State, lh: seq<int>)
    requires Refines(l, s, st, lh)
    ensures forall b | 0 <= b < |st.disk| :: InUse(st.g, b) == SpecInUse(s, b)
    ensures Room(st.g, []) == SpecRoom(s)
  {
    RefinesFacts(l, s, st, lh);
    forall b | 0 <= b < |st.disk| ensures InUse(st.g, b) == SpecInUse(s, b) {
      assert Agree(l, s, st, b);
    }
    RoomCount(st.g, [], set b | 0 <= b < |s.view| && SpecInUse(s, b));
  }

  // ---- readers' steps ----

  /** A step that leaves the disk, the contents and the pins alone keeps the phase valid. */
  lemma PhaseFrame(l: Layout, st: State, t: State, lh: seq<int>, ph: Phase)
    requires PhaseValid(l, st, lh, ph) && CacheInv(t)
    requires t.disk == st.disk && t.g.view == st.g.view && t.g.pins == st.g.pins
    ensures PhaseValid(l, t, lh, ph)
  {
  }

  /** A step of a reader or of the holder of a buffer. */
  lemma StepRefines(l: Layout, s: Spec, st: State, lh: seq<int>, n: Spec, t: State)
    requires Refines(l, s, st, lh) && CacheInv(t) && Agrees(l, n, t)
    requires t.disk == st.disk && t.g.view == st.g.view && t.g.pins == st.g.pins
    requires n.logged == s.logged && n.phase == s.phase && n.durable == s.durable && n.outstanding == s.outstanding
    requires Clean(s) && s.outstanding == 0 ==> Clean(n)
    ensures Refines(l, n, t, lh)
  {
    RefinesFacts(l, s, st, lh);
    PhaseFrame(l, st, t, lh, s.phase);
    hide PhaseValid, Agrees, CacheInv, Clean;
  }

  /** A reference, even to a recycled buffer, disturbs no holder. */
  lemma WantKeepsHeld(st: State, b: int, i: int, t: State, c: int)
    requires Sound(st) && Has(st, i) && 0 <= b < |st.disk| && 0 <= c < |st.disk| && st.g.held[c]
    requires st.bufs[i].blockno == b || (st.bufs[i].refcnt == 0 && !Caches(st.bufs, b))
    requires t == Put(st, i, Referenced(st.bufs[i], b), RefAt(st.g, st.bufs[i].blockno, b, i)) && CacheInv(t)
    ensures 0 <= st.g.home[c] < NBUF && t.g.home[c] == st.g.home[c]
    ensures t.bufs[st.g.home[c]].data == st.bufs[st.g.home[c]].data
  {
    assert GoodBuf(st, i) && GoodBlock(st, c) && GoodBlock(st, st.bufs[i].blockno) && GoodBlock(st, b);
    assert GoodBlock(t, c);
    assert GoodBuf(st, st.g.home[c]) && GoodBuf(t, st.g.home[c]);
  }

  lemma WantRefines(l: Layout, s: Spec, st: State, lh: seq<int>, b: int, i: int, t: State)
    requires Refines(l, s, st, lh) && Legal(l, s, Want(b)) && Has(st, i) && 0 <= b < |st.disk|
    requires st.bufs[i].blockno == b || (st.bufs[i].refcnt == 0 && !Caches(st.bufs, b))
    requires t == Put(st, i, Referenced(st.bufs[i], b), RefAt(st.g, st.bufs[i].blockno, b, i)) && CacheInv(t)
    ensures Refines(l, Next(l, s, Want(b)), t, lh)
  {
    RefinesFacts(l, s, st, lh);
    var n := Next(l, s, Want(b));
    forall c | 0 <= c < |st.disk| ensures Agree(l, n, t, c) {
      assert Agree(l, s, st, c);
      hide CacheInv, Sound, PhaseValid, Refines;
      if st.g.held[c] {
        WantKeepsHeld(st, b, i, t, c);
      }
    }
    StepRefines(l, s, st, lh, n, t);
  }

  lemma GotRefines(l: Layout, s: Spec, st: State, lh: seq<int>, b: int, i: int, t: State)
    requires Refines(l, s, st, lh) && Legal(l, s, Got(b)) && Holds(t, i) && 0 <= b < |st.disk|
    requires |st.bufs| == NBUF && t == State(st.disk, st.bufs[i := t.bufs[i]], st.lru, LockAt(st.g, b))
    requires st.g.home[b] == i && !t.g.dirty[i] && t.bufs[i].data == t.g.view[b]
    ensures Refines(l, Next(l, s, Got(b)), t, lh)
  {
    RefinesFacts(l, s, st, lh);
    var n := Next(l, s, Got(b));
    assert GoodBlock(st, b);
    forall c | 0 <= c < |st.disk| ensures Agree(l, n, t, c) {
      assert Agree(l, s, st, c) && GoodBlock(st, c);
    }
    StepRefines(l, s, st, lh, n, t);
  }

  lemma ChangeRefines(l: Layout, s: Spec, st: State, lh: seq<int>, b: int, data: Block, i: int, t: State)
    requires Refines(l, s, st, lh) && Legal(l, s, Change(b, data)) && Has(st, i) && CacheInv(t)
    requires 0 <= b < |st.disk| && i == st.g.home[b] && st.bufs[i].blockno == b
    requires t == State(st.disk, st.bufs[i := st.bufs[i].(data := data)], st.lru, st.g.(dirty := st.g.dirty[i := true]))
    ensures Refines(l, Next(l, s, Change(b, data)), t, lh)
  {
    RefinesFacts(l, s, st, lh);
    var n := Next(l, s, Change(b, data));
    forall c | 0 <= c < |st.disk| ensures Agree(l, n, t, c) {
      assert Agree(l, s, st, c) && GoodBlock(st, c);
    }
    StepRefines(l, s, st, lh, n, t);
  }

  lemma BrelseRefines(l: Layout, s: Spec, st: State, lh: seq<int>, b: int, i: int, t: State)
    requires Refines(l, s, st, lh) && Legal(l, s, Brelse(b)) && Has(st, i) && CacheInv(t)
    requires 0 <= b < |st.disk| && i == st.g.home[b] && st.bufs[i].blockno == b
    requires t == State(st.disk, st.bufs[i := Drop(st.bufs[i])], t.lru, FreedAt(st.g, b))
    ensures Refines(l, Next(l, s, Brelse(b)), t, lh)
  {
    RefinesFacts(l, s, st, lh);
    var n := Next(l, s, Brelse(b));
    forall c | 0 <= c < |st.disk| ensures Agree(l, n, t, c) {
      assert Agree(l, s, st, c) && GoodBlock(st, c);
    }
    StepRefines(l, s, st, lh, n, t);
  }

  // ---- log_write and the counters ----

  lemma OpenValid(l: Layout, st: State, lh: seq<int>)
    ensures PhaseValid(l, st, lh, Open) <==> LogValid(l, st, lh)
  {
  }

  lemma LogWriteRefines(l: Layout, s: Spec, st: State, lh: seq<int>, b: int, i: int, t: State, lh': seq<int>)
    requires Refines(l, s, st, lh) && Legal(l, s, LogWrite(b)) && Has(st, i) && LogValid(l, t, lh')
    requires 0 <= b < |st.disk| && i == st.g.home[b] && st.bufs[i].blockno == b && s.held[b].value == st.bufs[i].data
    requires lh' == if b in lh then lh else lh + [b]
    requires |t.bufs| == NBUF && t == State(st.disk, st.bufs[i := st.bufs[i].(refcnt := t.bufs[i].refcnt)], st.lru,
                        Published(st, i).(pins := st.g.pins[b := 1]))
    ensures Refines(l, Next(l, s, LogWrite(b)), t, lh')
  {
    hide PhaseValid, LogValid, Sound;
    RefinesFacts(l, s, st, lh);
    OpenValid(l, t, lh');
    var n := Next(l, s, LogWrite(b));
    assert GoodBlock(st, b);
    forall c | 0 <= c < |st.disk| ensures Agree(l, n, t, c) {
      assert Agree(l, s, st, c) && GoodBlock(st, c);
    }
    hide CacheInv;
    assert Agrees(l, n, t);
  }

  /** begin_op and end_op's count, before a commit starts. */
  lemma CountRefines(l: Layout, s: Spec, st: State, lh: seq<int>, op: Op)
    requires Refines(l, s, st, lh) && Legal(l, s, op) && (op.BeginOp? || op.EndOp?)
    ensures Refines(l, Next(l, s, op), st, lh)
  {
    RefinesFacts(l, s, st, lh);
    var n := Next(l, s, op);
    forall c | 0 <= c < |st.disk| ensures Agree(l, n, st, c) {
      assert Agree(l, s, st, c);
    }
    StartWriting(l, st, lh);
    hide PhaseValid;
    assert Agrees(l, n, st);
  }

  lemma StartWriting(l: Layout, st: State, lh: seq<int>)
    ensures PhaseValid(l, st, lh, Open) ==> PhaseValid(l, st, lh, Writing(0))
  {
  }

  // ---- the steps of a commit ----

  /** Each step of a commit writes one block.  It leaves the home view and every reader as they were. */
  ghost predicate CommitStep(l: Layout, st: State, t: State) {
    && Sound(t) && |t.disk| == |st.disk|
    && SameHome(l, t.g.view, st.g.view)
    && t.g == st.g.(view := t.g.view, pins := t.g.pins, home := t.g.home)
  }

  lemma CommitAgrees(l: Layout, s: Spec, st: State, lh: seq<int>, n: Spec, t: State)
    requires Refines(l, s, st, lh) && !s.phase.Open? && CommitStep(l, st, t)
    requires n == s.(logged := n.logged, phase := n.phase, durable := n.durable) && |n.durable| == |s.durable|
    ensures Agrees(l, n, t)
  {
    RefinesFacts(l, s, st, lh);
    forall c | 0 <= c < |st.disk| ensures Agree(l, n, t, c) {
      assert Agree(l, s, st, c) && GoodBlock(st, c) && GoodBlock(t, c);
      if s.held[c].Some? {
        assert GoodBuf(st, st.g.home[c]) && GoodBuf(t, t.g.home[c]);
        CleanBuffers(l, s, st, t.g.home[c]);
      }
    }
  }

  lemma CleanBuffers(l: Layout, s: Spec, st: State, i: int)
    requires CacheInv(st) && Agrees(l, s, st) && Clean(s) && 0 <= i < NBUF
    ensures !st.g.dirty[i]
  {
    assert GoodBuf(st, i) && Agree(l, s, st, st.bufs[i].blockno);
  }

  /** The next block of a commit is still pinned. */
  lemma NextPinned(l: Layout, st: State, lh: seq<int>, ph: Phase, k: nat)
    requires PhaseValid(l, st, lh, ph) && (ph == Writing(k) || ph == Moving(k)) && k < |lh|
    ensures GhostSizes(st.g, |st.disk|) && GoodLayout(l, |st.disk|) && GoodTargets(l, |st.disk|, lh)
    ensures lh[k] in PinnedOf(lh, ph) && st.g.pins[lh[k]] == 1
    ensures forall t | 0 <= t < |PinnedOf(lh, ph)| :: 0 <= PinnedOf(lh, ph)[t] < |st.disk| && st.g.pins[PinnedOf(lh, ph)[t]] > 0
  {
    hide PhaseValid, SlotsAre, CacheInv;
    WritingValid(l, st, lh, k);
    MovingValid(l, st, lh, k);
    SoundSizes(st);
    var pinned := PinnedOf(lh, ph);
    assert lh[k] in pinned by {
      if ph.Moving? { assert pinned[0] == lh[k]; }
    }
    forall t | 0 <= t < |pinned| ensures 0 <= pinned[t] < |st.disk| && st.g.pins[pinned[t]] > 0 {
      assert pinned[t] in pinned;
      assert pinned[t] == lh[if ph.Moving? then k + t else t];
    }
  }

  lemma SoundSizes(st: State)
    requires Sound(st)
    ensures GhostSizes(st.g, |st.disk|)
  {}

  /** Nobody is in the way of a commit's next round. */
  lemma RoundReady(l: Layout, s: Spec, st: State, lh: seq<int>, k: nat)
    requires Refines(l, s, st, lh) && RoundLegal(l, s, k) && (s.phase == Writing(k) || s.phase == Moving(k))
    ensures RoundAccess(l, |st.disk|, st.g, lh, k) && st.g.pins[lh[k]] == 1 && Room(st.g, [lh[k]])
  {
    hide Room, SpecRoom, PhaseValid, Sound;
    RefinesFacts(l, s, st, lh);
    RoomAgrees(l, s, st, lh);
    NextPinned(l, st, lh, s.phase, k);
    hide Refines, PinnedOf, CacheInv;
    assert Agree(l, s, st, lh[k]);
    LogUnused(l, s, st, lh);
    RoomPinned(st.g, PinnedOf(lh, s.phase), [lh[k]]);
  }

  lemma LogUnused(l: Layout, s: Spec, st: State, lh: seq<int>)
    requires Refines(l, s, st, lh)
    ensures GhostSizes(st.g, |st.disk|) && forall b | 0 <= b < |st.disk| && InLog(l, b) :: !InUse(st.g, b)
  {
    RefinesFacts(l, s, st, lh);
    forall b | 0 <= b < |st.disk| && InLog(l, b) ensures !InUse(st.g, b) {
      assert Agree(l, s, st, b);
    }
  }

  lemma LogRoundRefines(l: Layout, s: Spec, st: State, lh: seq<int>, k: nat, t: State)
    requires Refines(l, s, st, lh) && Legal(l, s, LogRound(k)) && Sound(t) && GhostSizes(t.g, |t.disk|)
    requires k < |lh| && l.start + k + 1 < |st.disk| && GhostSizes(st.g, |st.disk|) && 0 <= lh[k] < |st.disk|
    requires t.disk == st.disk[l.start + k + 1 := st.g.view[lh[k]]]
    requires t.g == st.g.(view := st.g.view[l.start + k + 1 := st.g.view[lh[k]]], home := t.g.home)
    ensures Refines(l, Next(l, s, LogRound(k)), t, lh)
  {
    hide Refines, PhaseValid, Sound, Agrees, Clean, SpecRoom;
    RefinesFacts(l, s, st, lh);
    LoggedPhase(l, st, lh, k, t);
    CommitAgrees(l, s, st, lh, Next(l, s, LogRound(k)), t);
    RefinesFrom(l, Next(l, s, LogRound(k)), t, lh);
  }

  lemma LoggedPhase(l: Layout, st: State, lh: seq<int>, k: nat, t: State)
    requires PhaseValid(l, st, lh, Writing(k)) && Sound(t)
    requires k < |lh| && l.start + k + 1 < |st.disk| && GhostSizes(st.g, |st.disk|) && 0 <= lh[k] < |st.disk|
    requires t.disk == st.disk[l.start + k + 1 := st.g.view[lh[k]]]
    requires t.g == st.g.(view := st.g.view[l.start + k + 1 := st.g.view[lh[k]]], home := t.g.home)
    ensures PhaseValid(l, t, lh, Writing(k + 1)) && SameHome(l, t.disk, st.disk) && SameHome(l, t.g.view, st.g.view)
  {
    hide Sound, HeaderIs, SlotsAre, PinsAre, PhaseValid;
    WritingValid(l, st, lh, k);
    WritingValid(l, t, lh, k + 1);
    assert InLog(l, l.start + k + 1);
    SlotWritten(l, st.disk, [], k, st.g.view[lh[k]]);
    SlotsMore(l, st.disk, st.g.view, lh, k);
  }

  /** Writing a log slot leaves the header alone. */
  lemma SlotWritten(l: Layout, d: Disk, hs: seq<int>, k: nat, x: Block)
    requires HeaderIs(l, d, hs) && l.start + k + 1 < |d|
    ensures HeaderIs(l, d[l.start + k + 1 := x], hs)
  {
    assert d[l.start + k + 1 := x][l.start] == d[l.start];
  }

  lemma SlotsMore(l: Layout, d: Disk, view: Disk, lh: seq<int>, k: nat)
    requires SlotsAre(l, d, view, lh, k) && k < |lh| && |view| == |d| && GoodTargets(l, |d|, lh) && l.start + k + 1 < |d|
    ensures var slot := l.start + k + 1; SlotsAre(l, d[slot := view[lh[k]]], view[slot := view[lh[k]]], lh, k + 1)
  {
    var slot, next := l.start + k + 1, k + 1;
    assert InLog(l, slot);
    forall t | 0 <= t < next
      ensures d[slot := view[lh[k]]][l.start + 1 + t] == view[slot := view[lh[k]]][lh[t]]
    {
      assert !InLog(l, lh[t]);
    }
  }

  /** The commit point. */
  lemma SealRefines(l: Layout, s: Spec, st: State, lh: seq<int>, t: State)
    requires Refines(l, s, st, lh) && Legal(l, s, Seal) && Sound(t) && GhostSizes(t.g, |t.disk|)
    requires |lh| < WORDS && l.start < |st.disk| && t.disk == WithHead(l, st.disk, lh) && |st.g.view| == |st.disk|
    requires t.g == st.g.(view := st.g.view[l.start := t.disk[l.start]], home := t.g.home)
    ensures Refines(l, Next(l, s, Seal), t, lh)
  {
    hide Refines, PhaseValid, Sound, Agrees, Clean, SpecRoom, HeaderBlocks, EncodeHeader;
    RefinesFacts(l, s, st, lh);
    SealedCount(l, s, st, lh);
    SealedPhase(l, st, lh, t);
    CommitAgrees(l, s, st, lh, Next(l, s, Seal), t);
    ViewIsHome(l, s, st);
    RefinesFrom(l, Next(l, s, Seal), t, lh);
  }

  lemma ViewIsHome(l: Layout, s: Spec, st: State)
    requires Agrees(l, s, st)
    ensures SameHome(l, st.g.view, s.view)
  {
    forall b | 0 <= b < |st.disk| && !InLog(l, b) ensures st.g.view[b] == s.view[b] {
      assert Agree(l, s, st, b);
    }
  }

  lemma SealedPhase(l: Layout, st: State, lh: seq<int>, t: State)
    requires PhaseValid(l, st, lh, Writing(|lh|)) && Sound(t) && |lh| < NBUF
    requires |lh| < WORDS && l.start < |st.disk| == |st.g.view| && t.disk == WithHead(l, st.disk, lh)
    requires t.g == st.g.(view := st.g.view[l.start := t.disk[l.start]], home := t.g.home)
    ensures PhaseValid(l, t, lh, Moving(0)) && SameHome(l, t.g.view, st.g.view)
  {
    hide Sound, SlotsAre, PinsAre, PhaseValid;
    WritingValid(l, st, lh, |lh|);
    MovingValid(l, t, lh, 0);
    assert lh[0..] == lh && InLog(l, l.start);
    HeadSlots(l, st.disk, st.g.view, lh, |lh|, t.disk[l.start]);
  }

  /** Writing the header leaves the log slots alone. */
  lemma HeadSlots(l: Layout, d: Disk, view: Disk, lh: seq<int>, n: nat, x: Block)
    requires SlotsAre(l, d, view, lh, n) && GoodLayout(l, |d|) && |view| == |d| && GoodTargets(l, |d|, lh)
    ensures SlotsAre(l, d[l.start := x], view[l.start := x], lh, n)
  {
    assert InLog(l, l.start);
    forall t | 0 <= t < n ensures d[l.start := x][l.start + 1 + t] == view[l.start := x][lh[t]] {
      assert !InLog(l, lh[t]);
    }
  }

  /** A commit that has room for its header concerns fewer than NBUF blocks. */
  lemma SealedCount(l: Layout, s: Spec, st: State, lh: seq<int>)
    requires Refines(l, s, st, lh) && s.phase.Writing? && SpecRoom(s)
    ensures |lh| < NBUF
  {
    RefinesFacts(l, s, st, lh);
    DistinctCount(lh);
    var used := set b | 0 <= b < |s.view| && SpecInUse(s, b);
    SubsetSize((set b | b in lh), used);
  }

  lemma MoveRoundRefines(l: Layout, s: Spec, st: State, lh: seq<int>, k: nat, t: State)
    requires Refines(l, s, st, lh) && Legal(l, s, MoveRound(k)) && Sound(t)
    requires k < |lh| && l.start + k + 1 < |st.disk| && GhostSizes(st.g, |st.disk|) && 0 <= lh[k] < |st.disk|
    requires GhostSizes(t.g, |st.disk|) && t.disk == st.disk[lh[k] := st.disk[l.start + k + 1]]
    requires t.g == Pinned(st.g, lh[k], -1).(view := st.g.view[lh[k] := st.disk[l.start + k + 1]], home := t.g.home)
    ensures Refines(l, Next(l, s, MoveRound(k)), t, lh)
  {
    hide Refines, PhaseValid, Sound, Agrees, Clean, SpecRoom;
    RefinesFacts(l, s, st, lh);
    MovedPhase(l, st, lh, k, t);
    CommitAgrees(l, s, st, lh, Next(l, s, MoveRound(k)), t);
    RefinesFrom(l, Next(l, s, MoveRound(k)), t, lh);
  }

  lemma RefinesFrom(l: Layout, s: Spec, st: State, lh: seq<int>)
    requires PhaseValid(l, st, lh, s.phase) && lh == s.logged
    requires Agrees(l, s, st) && Safe(l, s.durable, st, s.phase) && s.outstanding == 0 && Clean(s)
    ensures Refines(l, s, st, lh)
  {
  }

  /** Writing a home block leaves the log alone. */
  lemma HomeWritten(l: Layout, d: Disk, hs: seq<int>, b: int, x: Block)
    requires HeaderIs(l, d, hs) && 0 <= b < |d| && !InLog(l, b)
    ensures HeaderIs(l, d[b := x], hs)
  {
    assert InLog(l, l.start);
  }

  lemma SlotsKept(l: Layout, d: Disk, view: Disk, lh: seq<int>, n: nat, b: int, x: Block)
    requires SlotsAre(l, d, view, lh, n) && 0 <= b < |d| && !InLog(l, b) && n < l.size
    ensures SlotsAre(l, d[b := x], view, lh, n)
  {
    forall t | 0 <= t < n ensures d[b := x][l.start + 1 + t] == view[lh[t]] {
      assert InLog(l, l.start + 1 + t);
    }
  }

  lemma MovedPhase(l: Layout, st: State, lh: seq<int>, k: nat, t: State)
    requires PhaseValid(l, st, lh, Moving(k)) && Sound(t)
    requires k < |lh| && l.start + k + 1 < |st.disk| && GhostSizes(st.g, |st.disk|) && 0 <= lh[k] < |st.disk|
    requires GhostSizes(t.g, |st.disk|) && t.disk == st.disk[lh[k] := st.disk[l.start + k + 1]]
    requires t.g == Pinned(st.g, lh[k], -1).(view := st.g.view[lh[k] := st.disk[l.start + k + 1]], home := t.g.home)
    ensures t.g.view == st.g.view && PhaseValid(l, t, lh, Moving(k + 1))
  {
    hide Sound, HeaderIs, SlotsAre, PinsAre, PhaseValid;
    MovingValid(l, st, lh, k);
    MovingValid(l, t, lh, k + 1);
    SlotIs(l, st.disk, st.g.view, lh, k);
    MovedPins(lh, k, st.g.pins, t.g.pins);
    HomeWritten(l, st.disk, lh, lh[k], st.disk[l.start + k + 1]);
    SlotsKept(l, st.disk, st.g.view, lh, |lh|, lh[k], st.disk[l.start + k + 1]);
  }

  lemma SlotIs(l: Layout, d: Disk, view: Disk, lh: seq<int>, k: nat)
    requires SlotsAre(l, d, view, lh, |lh|) && k < |lh|
    ensures 0 <= lh[k] < |view| && l.start + k + 1 < |d| && d[l.start + k + 1] == view[lh[k]]
  {
    assert d[l.start + 1 + k] == view[lh[k]];
  }

  lemma MovedPins(lh: seq<int>, k: nat, pins: seq<int>, after: seq<int>)
    requires k < |lh| && Distinct(lh) && 0 <= lh[k] < |pins| && after == pins[lh[k] := pins[lh[k]] - 1]
    requires PinsAre(pins, lh[k..])
    ensures PinsAre(after, lh[k + 1..])
  {
    assert lh[k..] == [lh[k]] + lh[k + 1..];
  }

  lemma EraseRefines(l: Layout, s: Spec, st: State, lh: seq<int>, t: State)
    requires Refines(l, s, st, lh) && Legal(l, s, Erase) && Sound(t) && GhostSizes(t.g, |t.disk|)
    requires l.start < |st.disk| && t.disk == WithHead(l, st.disk, []) && |st.g.view| == |st.disk|
    requires t.g == st.g.(view := st.g.view[l.start := t.disk[l.start]], home := t.g.home)
    ensures Refines(l, Next(l, s, Erase), t, [])
  {
    hide Refines, PhaseValid, Sound, Agrees, Clean, SpecRoom, HeaderBlocks, EncodeHeader;
    RefinesFacts(l, s, st, lh);
    ErasedPhase(l, st, lh, t);
    CommitAgrees(l, s, st, lh, Next(l, s, Erase), t);
    RefinesFrom(l, Next(l, s, Erase), t, []);
  }

  lemma ErasedPhase(l: Layout, st: State, lh: seq<int>, t: State)
    requires PhaseValid(l, st, lh, Moving(|lh|)) && Sound(t)
    requires l.start < |st.disk| == |st.g.view| && t.disk == WithHead(l, st.disk, [])
    requires t.g == st.g.(view := st.g.view[l.start := t.disk[l.start]], home := t.g.home)
    ensures PhaseValid(l, t, [], Erased) && SameHome(l, t.g.view, st.g.view) && SameHome(l, t.disk, st.g.view)
  {
    hide PinsAre, PhaseValid;
    MovingValid(l, st, lh, |lh|);
    ErasedValid(l, t, []);
    assert lh[|lh|..] == [] && InLog(l, l.start);
    UnpinnedHome(l, st);
  }

  /** With nothing pinned the latest contents are on disk. */
  lemma UnpinnedHome(l: Layout, st: State)
    requires Sound(st) && PinsAre(st.g.pins, [])
    ensures SameHome(l, st.disk, st.g.view)
  {
    forall b | 0 <= b < |st.disk| ensures st.disk[b] == st.g.view[b] {
      assert GoodBlock(st, b);
    }
  }

  lemma EndCommitRefines(l: Layout, s: Spec, st: State, lh: seq<int>)
    requires Refines(l, s, st, lh) && Legal(l, s, EndCommit)
    ensures Refines(l, Next(l, s, EndCommit), st, lh)
  {
    RefinesFacts(l, s, st, lh);
    var n := Next(l, s, EndCommit);
    forall c | 0 <= c < |st.disk| ensures Agree(l, n, st, c) {
      assert Agree(l, s, st, c);
    }
    assert PhaseValid(l, st, lh, Open);
    hide PhaseValid;
    assert Agrees(l, n, st);
  }

  // ---- whole runs ----

  /** The buffer a process got from bget, by its block. */
  method FindBuf(ld: LoggedDisk, b: int) returns (i: int)
    requires Sound(State(ld.disk, ld.bufs, ld.lru, ld.g)) && 0 <= b < |ld.disk| && InUse(ld.g, b) && ld.g.pins[b] >= 0
    ensures i == ld.g.home[b] && Has(State(ld.disk, ld.bufs, ld.lru, ld.g), i) && ld.bufs[i].blockno == b
    ensures ld.g.held[b] ==> Holds(State(ld.disk, ld.bufs, ld.lru, ld.g), i)
  {
    ghost var st := State(ld.disk, ld.bufs, ld.lru, ld.g);
    assert GoodBlock(st, b) && GoodBuf(st, ld.g.home[b]);
    i := 0;
    while !(ld.bufs[i].refcnt != 0 && ld.bufs[i].blockno == b)
      invariant 0 <= i <= ld.g.home[b]
      decreases NBUF - i
    {
      i := i + 1;
    }
    assert GoodBuf(st, i);
  }

  /** What a reader or holder of block b needs. */
  lemma HolderFacts(l: Layout, s: Spec, st: State, lh: seq<int>, b: int)
    requires Refines(l, s, st, lh) && Home(l, s, b)
    ensures Sound(st) && CacheInv(st) && Sizes(st) && SpecSizes(s, |st.disk|) && 0 <= b < |st.disk| && st.g.pins[b] >= 0
    ensures s.wait[b] == st.g.wait[b] && s.view[b] == st.g.view[b] && (s.held[b].Some? <==> st.g.held[b])
    ensures s.held[b].Some? && 0 <= st.g.home[b] < NBUF ==>
              s.held[b].value == st.bufs[st.g.home[b]].data && s.dirty[b] == st.g.dirty[st.g.home[b]]
    ensures lh == s.logged && (s.outstanding >= 1 ==> s.phase.Open? && LogValid(l, st, lh))
  {
    RefinesFacts(l, s, st, lh);
    assert Agree(l, s, st, b);
    OpenValid(l, st, lh);
  }

  lemma WantReady(l: Layout, s: Spec, st: State, lh: seq<int>, b: int)
    requires Refines(l, s, st, lh) && Legal(l, s, Want(b))
    ensures Caches(st.bufs, b) || exists i :: 0 <= i < NBUF && st.bufs[i].refcnt == 0
  {
    HolderFacts(l, s, st, lh, b);
    RoomAgrees(l, s, st, lh);
    SecondRoom(st, b);
  }

  /** A step on a block that its caller holds, waits for or wants. */
  method BlockStep(ld: LoggedDisk, op: Op, ghost s: Spec) returns (r: seq<Block>)
    requires Refines(ld.layout, s, State(ld.disk, ld.bufs, ld.lru, ld.g), ld.lh) && Legal(ld.layout, s, op)
    requires ld.outstanding == s.outstanding && (op.Want? || op.Got? || op.Change? || op.LogWrite? || op.Brelse?)
    modifies ld`bufs, ld`lru, ld`g, ld`lh
    ensures Refines(ld.layout, Next(ld.layout, s, op), State(ld.disk, ld.bufs, ld.lru, ld.g), ld.lh)
    ensures r == Result(ld.layout, s, op)
  {
    hide Refines, CacheInv, Sound, LogValid, SpecRoom, Agrees, PhaseValid, Lru, Caches, FirstMatch, LastUnreferenced;
    ghost var st, lh := State(ld.disk, ld.bufs, ld.lru, ld.g), ld.lh;
    HolderFacts(ld.layout, s, st, lh, op.b);
    r := [];
    match op {
      case Want(b) =>
        WantReady(ld.layout, s, st, lh, b);
        Shape(st);
        var i := ld.Bget(b);
        WantRefines(ld.layout, s, st, lh, b, i.value, State(ld.disk, ld.bufs, ld.lru, ld.g));
      case Got(b) =>
        var i := FindBuf(ld, b);
        ld.BreadLock(i);
        GotRefines(ld.layout, s, st, lh, b, i, State(ld.disk, ld.bufs, ld.lru, ld.g));
        r := [ld.bufs[i].data];
      case Change(b, data) =>
        var i := FindBuf(ld, b);
        ld.Modify(i, data);
        ChangeRefines(ld.layout, s, st, lh, b, data, i, State(ld.disk, ld.bufs, ld.lru, ld.g));
      case LogWrite(b) =>
        var i := FindBuf(ld, b);
        var ok := ld.LogWrite(i);
        LogWriteRefines(ld.layout, s, st, lh, b, i, State(ld.disk, ld.bufs, ld.lru, ld.g), ld.lh);
      case Brelse(b) =>
        var i := FindBuf(ld, b);
        ld.Brelse(i);
        BrelseRefines(ld.layout, s, st, lh, b, i, State(ld.disk, ld.bufs, ld.lru, ld.g));
    }
  }

  /** The header block can be had for writing. */
  lemma HeadReady(l: Layout, s: Spec, st: State, lh: seq<int>)
    requires Refines(l, s, st, lh) && SpecRoom(s)
    ensures Sound(st) && HeadAccess(l, |st.disk|, st.g) && Room(st.g, []) && |lh| < WORDS && |st.g.view| == |st.disk|
    ensures l.start < |st.disk|
  {
    RefinesFacts(l, s, st, lh);
    RoomAgrees(l, s, st, lh);
    LogUnused(l, s, st, lh);
    assert InLog(l, l.start);
  }

  /** A round of write_log or install_trans. */
  method RoundStep(ld: LoggedDisk, op: Op, k: nat, ghost s: Spec)
    requires Refines(ld.layout, s, State(ld.disk, ld.bufs, ld.lru, ld.g), ld.lh) && Legal(ld.layout, s, op)
    requires op == LogRound(k) || op == MoveRound(k)
    modifies ld`bufs, ld`lru, ld`disk, ld`g, ld`images
    ensures Refines(ld.layout, Next(ld.layout, s, op), State(ld.disk, ld.bufs, ld.lru, ld.g), ld.lh)
  {
    hide Refines, CacheInv, Sound, PhaseValid, SpecRoom, Room, RoundAccess, Agrees, Safe, Clean, RoundLegal;
    ghost var st, lh := State(ld.disk, ld.bufs, ld.lru, ld.g), ld.lh;
    RefinesFacts(ld.layout, s, st, lh);
    RoundReady(ld.layout, s, st, lh, k);
    RoundFacts(ld.layout, |st.disk|, st.g, lh, k);
    if op == LogRound(k) {
      var ok := ld.LogOne(k);
      LogRoundRefines(ld.layout, s, st, lh, k, State(ld.disk, ld.bufs, ld.lru, ld.g));
    } else {
      var ok := ld.InstallOne(k);
      MoveRoundRefines(ld.layout, s, st, lh, k, State(ld.disk, ld.bufs, ld.lru, ld.g));
    }
  }

  /** A step of begin_op, end_op or the commit. */
  method LogStep(ld: LoggedDisk, op: Op, ghost s: Spec)
    requires Refines(ld.layout, s, State(ld.disk, ld.bufs, ld.lru, ld.g), ld.lh) && Legal(ld.layout, s, op)
    requires ld.outstanding == s.outstanding && ld.committing == !s.phase.Open?
    requires !(op.Want? || op.Got? || op.Change? || op.LogWrite? || op.Brelse?)
    modifies ld
    ensures Refines(ld.layout, Next(ld.layout, s, op), State(ld.disk, ld.bufs, ld.lru, ld.g), ld.lh)
    ensures ld.outstanding == Next(ld.layout, s, op).outstanding && ld.committing == !Next(ld.layout, s, op).phase.Open?
  {
    hide Refines, CacheInv, Sound, PhaseValid, SpecRoom, Room, HeadAccess, WithHead, Agrees, Safe, Clean, RoundLegal;
    ghost var st, lh := State(ld.disk, ld.bufs, ld.lru, ld.g), ld.lh;
    RefinesFacts(ld.layout, s, st, lh);
    match op {
      case BeginOp =>
        var admitted := ld.BeginOp();
        CountRefines(ld.layout, s, st, lh, op);
      case EndOp =>
        var doCommit := ld.EndOp();
        CountRefines(ld.layout, s, st, lh, op);
      case LogRound(k) =>
        RoundStep(ld, op, k, s);
      case Seal =>
        HeadReady(ld.layout, s, st, lh);
        var ok := ld.WriteHead();
        SealRefines(ld.layout, s, st, lh, State(ld.disk, ld.bufs, ld.lru, ld.g));
      case MoveRound(k) =>
        RoundStep(ld, op, k, s);
      case Erase =>
        HeadReady(ld.layout, s, st, lh);
        ld.lh := [];
        var ok := ld.WriteHead();
        EraseRefines(ld.layout, s, st, lh, State(ld.disk, ld.bufs, ld.lru, ld.g));
      case EndCommit =>
        ld.EndCommit();
        EndCommitRefines(ld.layout, s, st, lh);
      case _ =>
    }
  }

  lemma RoundFacts(l: Layout, n: nat, g: Ghost, lh: seq<int>, k: nat)
    requires RoundAccess(l, n, g, lh, k)
    ensures k < |lh| && l.start + k + 1 < n && GhostSizes(g, n) && 0 <= lh[k] < n
  {
  }

  /** One step keeps cache and specification in agreement. */
  method Step(ld: LoggedDisk, op: Op, ghost s: Spec) returns (r: seq<Block>)
    requires Refines(ld.layout, s, State(ld.disk, ld.bufs, ld.lru, ld.g), ld.lh) && Legal(ld.layout, s, op)
    requires ld.outstanding == s.outstanding && ld.committing == !s.phase.Open?
    modifies ld
    ensures Refines(ld.layout, Next(ld.layout, s, op), State(ld.disk, ld.bufs, ld.lru, ld.g), ld.lh)
    ensures ld.outstanding == Next(ld.layout, s, op).outstanding && ld.committing == !Next(ld.layout, s, op).phase.Open?
    ensures r == Result(ld.layout, s, op)
  {
    RefinesFacts(ld.layout, s, State(ld.disk, ld.bufs, ld.lru, ld.g), ld.lh);
    hide Refines, CacheInv, Sound, PhaseValid, SpecRoom, Agrees, Safe, Clean;
    if op.Want? || op.Got? || op.Change? || op.LogWrite? || op.Brelse? {
      r := BlockStep(ld, op, s);
    } else {
      LogStep(ld, op, s);
      r := [];
    }
  }

  /** The specification's starting point over disk d. */
  ghost function Start(d: Disk): Spec {
    Spec(d, d, seq(|d|, _ => None), seq(|d|, _ => false), seq(|d|, _ => 0), [], 0, Open)
  }

  lemma StartRefines(l: Layout, d: Disk, st: State)
    requires Sound(st) && WellFormed(l, d) && HeaderBlocks(d[l.start]) == [] && |st.disk| == |d|
    requires st.disk == Recovered(l, d)
    requires forall b | 0 <= b < |d| :: st.g.pins[b] == 0 && !st.g.held[b] && st.g.wait[b] == 0
    ensures Refines(l, Start(st.disk), st, [])
  {
    forall b | 0 <= b < |d| ensures Agree(l, Start(st.disk), st, b) {
      assert GoodBlock(st, b);
    }
    assert PhaseValid(l, st, [], Open);
  }

  /** In every phase the disk recovers to what is durable, and recovery finds its buffers. */
  lemma CrashSafe(l: Layout, s: Spec, st: State, lh: seq<int>, crashes: seq<nat>)
    requires Refines(l, s, st, lh)
    ensures WellFormed(l, st.disk) && |HeaderBlocks(st.disk[l.start])| < NBUF
    ensures SameHome(l, Recovered(l, AfterCrashes(l, st.disk, crashes)), s.durable)
  {
    RefinesFacts(l, s, st, lh);
    RecoveryAfterCrashes(l, st.disk, crashes);
    if s.phase.Moving? {
      RecoveredView(l, st, lh, s.phase.k);
    } else {
      assert InLog(l, l.start);
    }
  }

  lemma RecoveredView(l: Layout, st: State, lh: seq<int>, k: nat)
    requires PhaseValid(l, st, lh, Moving(k))
    ensures WellFormed(l, st.disk) && SameHome(l, Recovered(l, st.disk), st.g.view)
  {
    hide PhaseValid, Sound, PinsAre, Installed, SlotsAre;
    MovingValid(l, st, lh, k);
    SlotValues(l, st, lh);
    InstalledHome(l, st.disk, lh, Values(st.g.view, lh), st.disk);
    MovedView(l, st, lh, k, Recovered(l, st.disk));
  }

  lemma SlotValues(l: Layout, st: State, lh: seq<int>)
    requires SlotsAre(l, st.disk, st.g.view, lh, |lh|)
    ensures l.start + |lh| < |st.disk| && forall t | 0 <= t < |lh| :: 0 <= lh[t] < |st.g.view|
    ensures forall t | 0 <= t < |lh| :: st.disk[l.start + 1 + t] == Values(st.g.view, lh)[t]
  {
  }

  lemma MovedView(l: Layout, st: State, lh: seq<int>, k: nat, r: Disk)
    requires Sound(st) && k <= |lh| && PinsAre(st.g.pins, lh[k..])
    requires forall t | 0 <= t < |lh| :: 0 <= lh[t] < |st.disk| && lh[t] < |st.g.view|
    requires HomeAfter(l, st.disk, lh, Values(st.g.view, lh), r)
    ensures SameHome(l, r, st.g.view)
  {
    forall b | 0 <= b < |st.disk| && !InLog(l, b) ensures r[b] == st.g.view[b] {
      if b in lh {
        var t :| 0 <= t < |lh| && lh[t] == b;
        assert r[lh[t]] == Values(st.g.view, lh)[t];
      } else {
        assert GoodBlock(st, b);
      }
    }
  }

  /** Power-on over a disk with an empty log. */
  method PowerOn(d: Disk, l: Layout) returns (ld: LoggedDisk)
    requires WellFormed(l, d) && HeaderBlocks(d[l.start]) == []
    ensures fresh(ld) && ld.layout == l && ld.disk == Recovered(l, d) && ld.outstanding == 0 && !ld.committing
    ensures Refines(l, Start(ld.disk), State(ld.disk, ld.bufs, ld.lru, ld.g), ld.lh)
  {
    hide Refines, Sound, CacheInv;
    ld := new LoggedDisk(d, l);
    var ok := ld.RecoverFromLog();
    StartRefines(l, d, State(ld.disk, ld.bufs, ld.lru, ld.g));
  }

  /** A whole run from power-on over a disk with an empty log, with readers and the steps of
      commits in any order.  Every bread returns the latest logged contents of its block,
      whatever the cache recycled.  If the machine stops after the run's last step, whichever
      that is, and recovery is cut short any number of times, the home blocks are in the end
      those of the last sealed commit. */
  method Run(d: Disk, l: Layout, ops: seq<Op>) returns (got: seq<Block>, left: Disk)
    requires WellFormed(l, d) && HeaderBlocks(d[l.start]) == []
    requires LegalRun(l, Start(Recovered(l, d)), ops)
    ensures got == Reads(l, Start(Recovered(l, d)), ops)
    ensures WellFormed(l, left) && |HeaderBlocks(left[l.start])| < NBUF
    ensures forall crashes ::
              SameHome(l, Recovered(l, AfterCrashes(l, left, crashes)), After(l, Start(Recovered(l, d)), ops).durable)
  {
    hide Refines, Legal, Sound, CacheInv, WellFormed, Recovered, SameHome;
    var ld := PowerOn(d, l);
    ghost var s := Start(ld.disk);
    got := [];
    ghost var all, last := Reads(l, s, ops), After(l, s, ops);
    var k := 0;
    assert ops[0..] == ops;
    while k < |ops|
      invariant 0 <= k <= |ops| && fresh(ld) && ld.layout == l
      invariant ld.outstanding == s.outstanding && ld.committing == !s.phase.Open?
      invariant Refines(l, s, State(ld.disk, ld.bufs, ld.lru, ld.g), ld.lh)
      invariant LegalRun(l, s, ops[k..]) && all == got + Reads(l, s, ops[k..]) && last == After(l, s, ops[k..])
    {
      ReadsStep(l, s, ops, k, got);
      var r := Step(ld, ops[k], s);
      got := got + r;
      s := Next(l, s, ops[k]);
      k := k + 1;
    }
    left := ld.disk;
    CrashSafe(l, s, State(ld.disk, ld.bufs, ld.lru, ld.g), ld.lh, []);
    forall crashes ensures SameHome(l, Recovered(l, AfterCrashes(l, left, crashes)), last.durable) {
      CrashSafe(l, s, State(ld.disk, ld.bufs, ld.lru, ld.g), ld.lh, crashes);
    }
  }

  lemma ReadsStep(l: Layout, s: Spec, ops: seq<Op>, k: nat, got: seq<Block>)
    requires k < |ops| && LegalRun(l, s, ops[k..])
    ensures Legal(l, s, ops[k]) && LegalRun(l, Next(l, s, ops[k]), ops[k + 1..])
    ensures got + Reads(l, s, ops[k..]) == got + Result(l, s, ops[k]) + Reads(l, Next(l, s, ops[k]), ops[k + 1..])
    ensures After(l, s, ops[k..]) == After(l, Next(l, s, ops[k]), ops[k + 1..])
  {
    assert ops[k..][0] == ops[k] && ops[k..][1..] == ops[k + 1..];
  }

  /** What is durable is never the middle of an operation: commits are sealed only when no
      operation is outstanding. */
  lemma {:induction false} SealsAreWhole(l: Layout, s: Spec, ops: seq<Op>)
    requires LegalRun(l, s, ops) && (!s.phase.Open? ==> s.outstanding == 0) && s.outstanding >= 0
    ensures var t := After(l, s, ops); (!t.phase.Open? ==> t.outstanding == 0) && (Legal(l, t, Seal) ==> t.outstanding == 0)
    decreases |ops|
  {
    if ops != [] {
      SealsAreWhole(l, Next(l, s, ops[0]), ops[1..]);
    }
  }

  // ---- one operation from beginning to end ----

  /** The steps ops are allowed from s on and lead to t. */
  ghost predicate RunsTo(l: Layout, s: Spec, ops: seq<Op>, t: Spec) {
    LegalRun(l, s, ops) && After(l, s, ops) == t
  }

  ghost predicate StepsTo(l: Layout, s: Spec, op: Op, t: Spec) {
    Legal(l, s, op) && Next(l, s, op) == t
  }

  lemma RunsOn(l: Layout, s: Spec, op: Op, s1: Spec, ops: seq<Op>, t: Spec)
    requires StepsTo(l, s, op, s1) && RunsTo(l, s1, ops, t)
    ensures RunsTo(l, s, [op] + ops, t)
  {
    assert ([op] + ops)[1..] == ops;
  }

  lemma NoSteps(l: Layout, s: Spec)
    ensures RunsTo(l, s, [], s)
  {}

  /** Nothing is going on: no operation, no commit, no buffer held or waited for. */
  ghost predicate Still(s: Spec) {
    && SpecSizes(s, |s.view|) && s.phase == Open && s.logged == [] && s.outstanding == 0
    && forall c | 0 <= c < |s.view| :: s.held[c] == None && !s.dirty[c] && s.wait[c] == 0
  }

  /** With one block in use at most there are buffers for others. */
  lemma RoomBesideOne(s: Spec, b: int)
    requires SpecSizes(s, |s.view|) && forall c | 0 <= c < |s.view| && SpecInUse(s, c) :: c == b
    ensures SpecRoom(s)
  {
    var used := set c | 0 <= c < |s.view| && SpecInUse(s, c);
    SubsetSize(used, {b});
  }

  /** One block is logged and nothing is held or waited for. */
  ghost predicate OneLogged(l: Layout, s: Spec, b: int) {
    && SpecSizes(s, |s.view|) && s.logged == [b] && Home(l, s, b)
    && forall c | 0 <= c < |s.view| :: s.held[c] == None && s.wait[c] == 0
  }

  lemma RoundSteps(l: Layout, s: Spec, b: int, moving: bool)
    requires OneLogged(l, s, b) && s.phase == if moving then Moving(0) else Writing(0)
    ensures StepsTo(l, s, if moving then MoveRound(0) else LogRound(0), s.(phase := if moving then Moving(1) else Writing(1)))
  {
    RoomBesideOne(s, b);
    hide SpecRoom;
  }

  lemma SealStep(l: Layout, s: Spec, b: int)
    requires OneLogged(l, s, b) && s.phase == Writing(1)
    ensures StepsTo(l, s, Seal, s.(phase := Moving(0), durable := s.view))
  {
    RoomBesideOne(s, b);
    hide SpecRoom;
  }

  lemma EraseStep(l: Layout, s: Spec, b: int)
    requires OneLogged(l, s, b) && s.phase == Moving(1)
    ensures StepsTo(l, s, Erase, s.(phase := Erased, logged := []))
  {
    RoomBesideOne(s, b);
    hide SpecRoom;
  }

  /** The commit of one logged block. */
  lemma CommitOne(l: Layout, s: Spec, b: int)
    requires OneLogged(l, s, b) && s.phase == Writing(0)
    ensures RunsTo(l, s, [LogRound(0), Seal, MoveRound(0), Erase, EndCommit], s.(phase := Open, logged := [], durable := s.view))
  {
    var s1 := s.(phase := Writing(1));
    var s2 := s1.(phase := Moving(0), durable := s.view);
    var s3 := s2.(phase := Moving(1));
    var s4 := s3.(phase := Erased, logged := []);
    var t := s4.(phase := Open);
    assert StepsTo(l, s4, EndCommit, t);
    hide StepsTo, RunsTo;
    RoundSteps(l, s, b, false);
    SealStep(l, s1, b);
    RoundSteps(l, s2, b, true);
    EraseStep(l, s3, b);
    hide OneLogged;
    NoSteps(l, t);
    RunsOn(l, s4, EndCommit, t, [], t);
    RunsOn(l, s3, Erase, s4, [EndCommit] + [], t);
    RunsOn(l, s2, MoveRound(0), s3, [Erase] + ([EndCommit] + []), t);
    RunsOn(l, s1, Seal, s2, [MoveRound(0)] + ([Erase] + ([EndCommit] + [])), t);
    RunsOn(l, s, LogRound(0), s1, [Seal] + ([MoveRound(0)] + ([Erase] + ([EndCommit] + []))), t);
    assert [LogRound(0), Seal, MoveRound(0), Erase, EndCommit] ==
      [LogRound(0)] + ([Seal] + ([MoveRound(0)] + ([Erase] + ([EndCommit] + []))));
  }

  /** bread: the reference and then the sleep-lock. */
  lemma ReadSteps(l: Layout, s: Spec, b: int)
    requires Still(s.(outstanding := 0)) && Home(l, s, b)
    ensures StepsTo(l, s, Want(b), s.(wait := s.wait[b := 1]))
    ensures StepsTo(l, s.(wait := s.wait[b := 1]), Got(b), s.(held := s.held[b := Some(s.view[b])]))
  {
    RoomBesideOne(s, b);
    hide SpecRoom;
    assert s.wait[b := 1][b := 0] == s.wait && s.dirty[b := false] == s.dirty;
  }

  /** The change, log_write and brelse. */
  lemma WriteSteps(l: Layout, s: Spec, b: int, data: Block)
    requires SpecSizes(s, |s.view|) && Home(l, s, b) && s.held[b] == None && !s.dirty[b] && s.logged == [] && s.outstanding == 1
    requires l.size >= 2
    ensures
      var s3 := s.(held := s.held[b := Some(s.view[b])]);
      var s4 := s.(held := s.held[b := Some(data)], dirty := s.dirty[b := true]);
      var s5 := s.(held := s.held[b := Some(data)], view := s.view[b := data], logged := [b]);
      && StepsTo(l, s3, Change(b, data), s4) && StepsTo(l, s4, LogWrite(b), s5)
      && StepsTo(l, s5, Brelse(b), s.(view := s.view[b := data], logged := [b]))
  {
    assert s.dirty[b := true][b := false] == s.dirty && s.held[b := Some(data)][b := None] == s.held;
    assert s.held[b := Some(s.view[b])][b := Some(data)] == s.held[b := Some(data)];
  }

  lemma OpSteps(l: Layout, s: Spec, b: int, data: Block)
    requires Still(s) && Home(l, s, b)
    ensures
      var s6 := s.(outstanding := 1, view := s.view[b := data], logged := [b]);
      && StepsTo(l, s, BeginOp, s.(outstanding := 1))
      && StepsTo(l, s6, EndOp, s6.(outstanding := 0, phase := Writing(0)))
      && OneLogged(l, s6.(outstanding := 0, phase := Writing(0)), b)
  {}

  lemma {:induction false} RunsJoin(l: Layout, s: Spec, ops: seq<Op>, s1: Spec, more: seq<Op>, t: Spec)
    requires RunsTo(l, s, ops, s1) && RunsTo(l, s1, more, t)
    ensures RunsTo(l, s, ops + more, t)
    decreases |ops|
  {
    if ops == [] {
      assert ops + more == more;
    } else {
      assert (ops + more)[1..] == ops[1..] + more;
      RunsJoin(l, Next(l, s, ops[0]), ops[1..], s1, more, t);
      hide Legal, Next;
    }
  }

  /** From any such state an operation that changes any block to anything can run from its
      beginning to the end of its commit, and then a crash leaves the new contents. */
  lemma WholeOperation(l: Layout, s: Spec, b: int, data: Block)
    requires Still(s) && Home(l, s, b) && l.size >= 2
    ensures
      RunsTo(l, s, [BeginOp, Want(b), Got(b), Change(b, data), LogWrite(b), Brelse(b), EndOp]
                   + [LogRound(0), Seal, MoveRound(0), Erase, EndCommit],
             s.(view := s.view[b := data], durable := s.view[b := data]))
  {
    hide StepsTo, RunsTo, OneLogged;
    var s1 := s.(outstanding := 1);
    var s2 := s1.(wait := s.wait[b := 1]);
    var s3 := s1.(held := s.held[b := Some(s.view[b])]);
    var s4 := s1.(held := s.held[b := Some(data)], dirty := s.dirty[b := true]);
    var s5 := s1.(held := s.held[b := Some(data)], view := s.view[b := data], logged := [b]);
    var s6 := s1.(view := s.view[b := data], logged := [b]);
    var s7 := s6.(outstanding := 0, phase := Writing(0));
    OpSteps(l, s, b, data);
    assert s1.(outstanding := 0) == s;
    ReadSteps(l, s1, b);
    WriteSteps(l, s1, b, data);
    Prefixes(b, data);
    NoSteps(l, s7);
    hide Still, Home;
    RunsOn(l, s6, EndOp, s7, [], s7);
    RunsOn(l, s5, Brelse(b), s6, [EndOp], s7);
    RunsOn(l, s4, LogWrite(b), s5, [Brelse(b), EndOp], s7);
    RunsOn(l, s3, Change(b, data), s4, [LogWrite(b), Brelse(b), EndOp], s7);
    RunsOn(l, s2, Got(b), s3, [Change(b, data), LogWrite(b), Brelse(b), EndOp], s7);
    RunsOn(l, s1, Want(b), s2, [Got(b), Change(b, data), LogWrite(b), Brelse(b), EndOp], s7);
    RunsOn(l, s, BeginOp, s1, [Want(b), Got(b), Change(b, data), LogWrite(b), Brelse(b), EndOp], s7);
    CommitOne(l, s7, b);
    RunsJoin(l, s, [BeginOp, Want(b), Got(b), Change(b, data), LogWrite(b), Brelse(b), EndOp], s7,
             [LogRound(0), Seal, MoveRound(0), Erase, EndCommit], s7.(phase := Open, logged := [], durable := s7.view));
  }

  lemma Prefixes(b: int, data: Block)
    ensures [EndOp] + [] == [EndOp]
    ensures [Brelse(b)] + [EndOp] == [Brelse(b), EndOp]
    ensures [LogWrite(b)] + [Brelse(b), EndOp] == [LogWrite(b), Brelse(b), EndOp]
    ensures [Change(b, data)] + [LogWrite(b), Brelse(b), EndOp] == [Change(b, data), LogWrite(b), Brelse(b), EndOp]
    ensures [Got(b)] + [Change(b, data), LogWrite(b), Brelse(b), EndOp] == [Got(b), Change(b, data), LogWrite(b), Brelse(b), EndOp]
    ensures [Want(b)] + [Got(b), Change(b, data), LogWrite(b), Brelse(b), EndOp]
         == [Want(b), Got(b), Change(b, data), LogWrite(b), Brelse(b), EndOp]
    ensures [BeginOp] + [Want(b), Got(b), Change(b, data), LogWrite(b), Brelse(b), EndOp]
         == [BeginOp, Want(b), Got(b), Change(b, data), LogWrite(b), Brelse(b), EndOp]
  {}
}
