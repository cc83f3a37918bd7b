/** The buffer cache (kernel/bio.c) and the redo log above it (kernel/log.c) as one
    object over one disk.

    Each method is a step some process takes, or several steps of one process that no
    other step comes between.  None and false stand for a panic. */
module LogLayer {
  import opened Basics
  import opened LogDisk
  import opened Storage

  /** The log code can reach its blocks: nobody holds them, and blocks in use lie outside the log. */
  ghost predicate LogAccess(l: Layout, n: nat, g: Ghost, lh: seq<int>) {
    && GhostSizes(g, n)
    && GoodLayout(l, n) && GoodTargets(l, n, lh)
    && (forall b | 0 <= b < n && InLog(l, b) :: !InUse(g, b))
    && (forall t | 0 <= t < |lh| :: !g.held[lh[t]] && g.wait[lh[t]] < NPROC)
  }

  /** The same for the round of write_log or install_trans on block lh[tail]. */
  ghost predicate RoundAccess(l: Layout, n: nat, g: Ghost, lh: seq<int>, tail: nat) {
    && GhostSizes(g, n)
    && GoodLayout(l, n) && GoodTargets(l, n, lh) && tail < |lh|
    && (forall b | 0 <= b < n && InLog(l, b) :: !InUse(g, b))
    && !g.held[lh[tail]] && g.wait[lh[tail]] < NPROC
  }

  /** Changes of contents and places do not matter for access and room. */
  lemma AccessFrame(l: Layout, n: nat, g: Ghost, h: Ghost, lh: seq<int>)
    requires LogAccess(l, n, g, lh) && h == g.(view := h.view, home := h.home) && GhostSizes(h, n)
    ensures LogAccess(l, n, h, lh)
  {
  }

  lemma RoomFrame(g: Ghost, h: Ghost, more: seq<int>)
    requires h == g.(view := h.view, home := h.home) && GhostSizes(g, |g.view|) && GhostSizes(h, |g.view|)
    ensures Room(h, more) == Room(g, more)
  {
    assert Busy(h) == Busy(g);
  }

  /** Blocks already in use need no more room. */
  lemma RoomPinned(g: Ghost, lh: seq<int>, more: seq<int>)
    requires GhostSizes(g, |g.view|) && (forall t | 0 <= t < |lh| :: 0 <= lh[t] < |g.view| && g.pins[lh[t]] > 0)
    requires forall b | b in more :: b in lh
    ensures Room(g, more) == Room(g, [])
  {
    assert forall b | b in more :: b in Busy(g);
    RoomCount(g, more, Busy(g));
    RoomCount(g, [], Busy(g));
  }

  ghost function Values(view: Disk, lh: seq<int>): (r: seq<Block>)
    requires forall t | 0 <= t < |lh| :: 0 <= lh[t] < |view|
    ensures |r| == |lh|
  {
    seq(|lh|, t requires 0 <= t < |lh| => view[lh[t]])
  }

  /** The disk, its ghost state and the images written so far. */
  datatype Snap = Snap(d: Disk, g: Ghost, im: seq<Disk>)

  /** Between s0 and s, write_log copied the first k logged blocks. */
  ghost predicate Logging(l: Layout, lh: seq<int>, k: nat, s0: Snap, s: Snap) {
    && GoodLayout(l, |s0.d|) && GoodTargets(l, |s0.d|, lh) && k <= |lh| && |s.g.view| == |s0.g.view| == |s0.d|
    && s.g == s0.g.(view := s.g.view, home := s.g.home)
    && (forall b | 0 <= b < |s0.d| && !InLog(l, b) :: s.g.view[b] == s0.g.view[b])
    && s.d == LogWritten(l, s0.d, Values(s0.g.view, lh), k)
    && s.im == s0.im + WriteLogImages(l, s0.d, Values(s0.g.view, lh), k)
  }

  lemma LoggingStart(l: Layout, lh: seq<int>, s: Snap)
    requires LogAccess(l, |s.d|, s.g, lh)
    ensures Logging(l, lh, 0, s, s)
  {
    assert WriteLogImages(l, s.d, Values(s.g.view, lh), 0) == [];
  }

  lemma LoggingStep(l: Layout, lh: seq<int>, k: nat, s0: Snap, s: Snap, t: Snap)
    requires Logging(l, lh, k, s0, s) && k < |lh|
    requires |s.d| == |s0.d| == |s.g.view| && t.d == s.d[l.start + k + 1 := s.g.view[lh[k]]]
    requires t.g == s.g.(view := s.g.view[l.start + k + 1 := s.g.view[lh[k]]], home := t.g.home)
    requires t.im == s.im + [t.d]
    ensures Logging(l, lh, k + 1, s0, t)
  {
    var vals := Values(s0.g.view, lh);
    assert InLog(l, l.start + k + 1) && !InLog(l, lh[k]);
    assert WriteLogImages(l, s0.d, vals, k + 1) == WriteLogImages(l, s0.d, vals, k) + [LogWritten(l, s0.d, vals, k + 1)];
  }

  /** The first k blocks of lh were unpinned after being written to disk d. */
  ghost predicate Unpinning(lh: seq<int>, k: nat, g0: Ghost, g: Ghost, d: Disk) {
    && k <= |lh| && GhostSizes(g, |d|) && GhostSizes(g0, |d|)
    && g == g0.(view := g.view, pins := g.pins, home := g.home)
    && forall b | 0 <= b < |d| ::
         if b in lh[..k] then g.pins[b] == g0.pins[b] - 1 && g.view[b] == d[b]
         else g.pins[b] == g0.pins[b] && g.view[b] == g0.view[b]
  }

  lemma UnpinningStep(lh: seq<int>, k: nat, g0: Ghost, g: Ghost, d: Disk, h: Ghost, x: Block)
    requires Unpinning(lh, k, g0, g, d) && k < |lh| && 0 <= lh[k] < |d| && lh[k] !in lh[..k]
    requires GhostSizes(g, |d|) && |h.home| == |d|
    requires h == Pinned(g, lh[k], -1).(view := g.view[lh[k] := x], home := h.home)
    ensures Unpinning(lh, k + 1, g0, h, d[lh[k] := x])
  {
    assert lh[..k + 1] == lh[..k] + [lh[k]];
  }

  /** Between s0 and s, install_trans copied the first k log slots home and unpinned them. */
  ghost predicate Installing(l: Layout, lh: seq<int>, k: nat, s0: Snap, s: Snap) {
    && |s.d| == |s0.d| && GoodLayout(l, |s0.d|) && GoodTargets(l, |s0.d|, lh) && k <= |lh|
    && Unpinning(lh, k, s0.g, s.g, s.d)
    && s.d == Installed(l, s0.d, lh, k)
    && s.im == s0.im + InstallImages(l, s0.d, lh, k)
  }

  lemma InstallingStart(l: Layout, lh: seq<int>, s: Snap)
    requires LogAccess(l, |s.d|, s.g, lh)
    ensures Installing(l, lh, 0, s, s)
  {
    assert InstallImages(l, s.d, lh, 0) == [];
  }

  /** One log slot was copied to its home block, which was then unpinned. */
  ghost predicate InstalledOne(l: Layout, lh: seq<int>, k: nat, s: Snap, t: Snap) {
    && k < |lh| && 0 <= lh[k] < |s.d| && l.start + k + 1 < |s.d| && GhostSizes(s.g, |s.d|) && GhostSizes(t.g, |s.d|)
    && t.d == s.d[lh[k] := s.d[l.start + k + 1]] && t.im == s.im + [t.d]
    && t.g == Pinned(s.g, lh[k], -1).(view := s.g.view[lh[k] := s.d[l.start + k + 1]], home := t.g.home)
  }

  lemma InstallingStep(l: Layout, lh: seq<int>, k: nat, s0: Snap, s: Snap, t: Snap)
    requires Installing(l, lh, k, s0, s) && k < |lh| && InstalledOne(l, lh, k, s, t)
    ensures Installing(l, lh, k + 1, s0, t)
  {
    var slot := l.start + k + 1;
    assert s.d[slot] == s0.d[slot] by {
      InstalledAt(l, s0.d, lh, k);
      assert InLog(l, slot) && slot !in lh[..k];
    }
    UnpinningStep(lh, k, s0.g, s.g, s.d, t.g, s.d[slot]);
    hide Unpinning;
    assert InstallImages(l, s0.d, lh, k + 1) == InstallImages(l, s0.d, lh, k) + [Installed(l, s0.d, lh, k + 1)];
  }

  /** Once k blocks were installed, only those in use before or installed can be in use. */
  lemma InstallingBusy(l: Layout, lh: seq<int>, k: nat, s0: Snap, s: Snap, b: int)
    requires LogAccess(l, |s0.d|, s0.g, lh) && Installing(l, lh, k, s0, s) && 0 <= b < |s0.d|
    ensures GhostSizes(s.g, |s0.d|) && GhostSizes(s0.g, |s0.d|)
    ensures b !in lh[..k] ==> InUse(s.g, b) == InUse(s0.g, b)
    ensures b in lh[..k] && !InUse(s0.g, b) ==> InUse(s.g, b)
  {
  }

  lemma InstallingRoom(l: Layout, lh: seq<int>, k: nat, s0: Snap, s: Snap)
    requires LogAccess(l, |s0.d|, s0.g, lh) && Installing(l, lh, k, s0, s) && k < |lh| && Room(s0.g, lh)
    ensures Room(s.g, [lh[k]])
  {
    var now, all := Busy(s.g) + {lh[k]}, Busy(s0.g) + (set b | b in lh);
    forall b | b in now ensures b in all {
      if b != lh[k] && b !in lh {
        InstallingBusy(l, lh, k, s0, s, b);
      }
    }
    hide LogAccess, Installing;
    RoomCount(s.g, [lh[k]], now);
    RoomCount(s0.g, lh, all);
    SubsetSize(now, all);
  }

  /** If nobody used the blocks, each one installed is one more in use. */
  lemma InstallingUnused(l: Layout, lh: seq<int>, k: nat, s0: Snap, s: Snap)
    requires LogAccess(l, |s0.d|, s0.g, lh) && Installing(l, lh, k, s0, s) && k < |lh|
    requires forall t | 0 <= t < |lh| :: !InUse(s0.g, lh[t])
    ensures Room(s.g, [lh[k]]) == Room(s0.g, lh[..k + 1])
  {
    assert lh[..k + 1] == lh[..k] + [lh[k]];
    var now := Busy(s.g) + {lh[k]};
    forall b ensures b in now <==> (0 <= b < |s0.d| && InUse(s0.g, b)) || b in lh[..k + 1] {
      if 0 <= b < |s0.d| {
        InstallingBusy(l, lh, k, s0, s, b);
      }
    }
    hide LogAccess, Installing;
    RoomCount(s.g, [lh[k]], now);
    RoomCount(s0.g, lh[..k + 1], now);
  }

  /** Each block is pinned and there is room, or nobody uses any of them. */
  ghost predicate Installable(g: Ghost, lh: seq<int>) {
    && GhostSizes(g, |g.view|) && (forall t | 0 <= t < |lh| :: 0 <= lh[t] < |g.view|)
    && (|| (Room(g, lh) && forall t | 0 <= t < |lh| :: g.pins[lh[t]] == 1)
        || (forall t | 0 <= t < |lh| :: !InUse(g, lh[t])))
  }

  /** Disk e is disk d with the first k log slots copied home. */
  ghost predicate PartlyInstalled(l: Layout, d: Disk, lh: seq<int>, k: nat, e: Disk) {
    GoodLayout(l, |d|) && GoodTargets(l, |d|, lh) && k <= |lh| && e == Installed(l, d, lh, k)
  }

  lemma InstallablePinned(l: Layout, n: nat, g: Ghost, lh: seq<int>)
    requires LogAccess(l, n, g, lh) && Room(g, lh) && GhostSizes(g, n)
    requires forall t | 0 <= t < |lh| :: 0 <= lh[t] < n && g.pins[lh[t]] == 1
    ensures Installable(g, lh)
  {
  }

  lemma CommitReady(l: Layout, s: State, lh: seq<int>)
    requires LogValid(l, s, lh) && LogAccess(l, |s.disk|, s.g, lh)
    ensures Sound(s) && WellFormed(l, s.disk) && HeaderBlocks(s.disk[l.start]) == [] && GhostSizes(s.g, |s.disk|)
    ensures forall b | 0 <= b < |s.disk| :: s.g.pins[b] == Bit(b in lh)
    ensures |lh| < WORDS && forall t | 0 <= t < |lh| :: 0 <= lh[t] < |s.disk| && s.g.pins[lh[t]] == 1
    ensures Room(s.g, lh) == Room(s.g, [])
  {
    RoomPinned(s.g, lh, lh);
  }

  lemma CommitNothing(l: Layout, s: State, lh: seq<int>, images: seq<Disk>)
    requires LogValid(l, s, lh) && lh == []
    ensures images == images + CommitImages(l, s.disk, lh, Values(s.g.view, lh))
  {
  }

  lemma InstallableRoom(l: Layout, lh: seq<int>, k: nat, s0: Snap, s: Snap)
    requires LogAccess(l, |s0.d|, s0.g, lh) && Installing(l, lh, k, s0, s) && k < |lh| && Installable(s0.g, lh)
    ensures s0.g.pins[lh[k]] == 1 || !InUse(s0.g, lh[k])
    ensures !Room(s.g, [lh[k]]) ==> !Room(s0.g, lh)
    ensures k == |lh| - 1 && Room(s.g, [lh[k]]) ==> Room(s0.g, lh)
    ensures PartlyInstalled(l, s0.d, lh, k, s.d)
  {
    if Room(s0.g, lh) {
      InstallingRoom(l, lh, k, s0, s);
    } else {
      InstallingUnused(l, lh, k, s0, s);
      if k == |lh| - 1 {
        assert lh[..k + 1] == lh;
      }
    }
  }

  lemma LogRoom(g0: Ghost, g: Ghost, lh: seq<int>, tail: nat)
    requires GhostSizes(g, |g.view|) && GhostSizes(g0, |g.view|) && g == g0.(view := g.view, home := g.home)
    requires tail < |lh| && forall t | 0 <= t < |lh| :: 0 <= lh[t] < |g.view| && g0.pins[lh[t]] > 0
    ensures Room(g, [lh[tail]]) == Room(g0, [])
  {
    RoomPinned(g, lh, [lh[tail]]);
    RoomFrame(g0, g, []);
  }

  lemma InstallingAccess(l: Layout, lh: seq<int>, k: nat, s0: Snap, s: Snap)
    requires LogAccess(l, |s0.d|, s0.g, lh) && Installing(l, lh, k, s0, s) && k < |lh|
    ensures LogAccess(l, |s.d|, s.g, lh) && |s.d| == |s0.d| && GhostSizes(s.g, |s0.d|) && 0 <= lh[k] < |s0.d|
    ensures s.g.pins[lh[k]] == s0.g.pins[lh[k]]
  {
    assert lh[k] !in lh[..k];
  }

  /** Between commits: no leaks, an empty header on disk, and exactly the logged blocks pinned. */
  ghost predicate LogValid(l: Layout, s: State, lh: seq<int>) {
    && Sound(s)
    && WellFormed(l, s.disk) && HeaderBlocks(s.disk[l.start]) == []
    && GoodTargets(l, |s.disk|, lh)
    && forall b | 0 <= b < |s.disk| :: s.g.pins[b] == Bit(b in lh)
  }

  /** The header block is free for the log to use. */
  ghost predicate HeadAccess(l: Layout, n: nat, g: Ghost) {
    GoodLayout(l, n) && GhostSizes(g, n) && !InUse(g, l.start)
  }

  lemma HeadReach(l: Layout, n: nat, g: Ghost, lh: seq<int>)
    requires LogAccess(l, n, g, lh)
    ensures HeadAccess(l, n, g)
  {
    assert InLog(l, l.start);
  }

  lemma {:induction false} DistinctCount(s: seq<int>)
    requires Distinct(s)
    ensures |set b | b in s| == |s|
  {
    if s != [] {
      var rest := s[..|s| - 1];
      DistinctCount(rest);
      assert (set b | b in s) == (set b | b in rest) + {s[|s| - 1]};
    }
  }

  /** With nobody else using a buffer, there is room for a commit or a recovery if and
      only if it concerns fewer than NBUF blocks. */
  lemma RoomIffFewer(g: Ghost, lh: seq<int>, more: seq<int>)
    requires GhostSizes(g, |g.view|) && Distinct(lh) && forall t | 0 <= t < |lh| :: 0 <= lh[t] < |g.view|
    requires forall b | 0 <= b < |g.view| :: InUse(g, b) ==> b in lh
    requires (forall b :: b in more <==> b in lh) || (more == [] && forall b | b in lh :: InUse(g, b))
    ensures Room(g, more) <==> |lh| < NBUF
  {
    DistinctCount(lh);
    RoomCount(g, more, set b | b in lh);
  }

  /** After power-on nothing is in use. */
  lemma BootAccess(l: Layout, d: Disk, g: Ghost)
    requires WellFormed(l, d) && g == Boot(d).(home := g.home) && |g.home| == |d|
    ensures var hs := HeaderBlocks(d[l.start]);
            && LogAccess(l, |d|, g, hs) && HeadAccess(l, |d|, g) && Room(g, []) && (Room(g, hs) <==> |hs| < NBUF)
            && Installable(g, hs)
  {
    RoomIffFewer(g, [], []);
    RoomIffFewer(g, HeaderBlocks(d[l.start]), HeaderBlocks(d[l.start]));
  }

  /** What the three parts of recovery add up to. */
  lemma RecoveryDone(l: Layout, d: Disk, s1: Snap, s2: Snap, s3: Snap)
    requires WellFormed(l, d) && s1.d == d && s1.g == Boot(d).(home := s1.g.home)
    requires Installing(l, HeaderBlocks(d[l.start]), |HeaderBlocks(d[l.start])|, s1, s2)
    requires s3.d == WithHead(l, s2.d, []) && s3.im == s2.im + [s3.d]
    requires |s2.g.view| == |d| && s3.g == s2.g.(view := s2.g.view[l.start := s3.d[l.start]], home := s3.g.home)
    ensures s3.d == Recovered(l, d) && s3.im == s1.im + RecoveryImages(l, d)
    ensures s3.g.held == s1.g.held && s3.g.wait == s1.g.wait && |s3.g.pins| == |d|
    ensures forall b | 0 <= b < |d| :: s3.g.pins[b] == -Bit(b in HeaderBlocks(d[l.start]))
  {
    var hs := HeaderBlocks(d[l.start]);
    assert hs[..|hs|] == hs;
  }

  /** A recovery that stops half-way has lost nothing. */
  lemma RecoveryStopped(l: Layout, d: Disk, k: nat, e: Disk)
    requires WellFormed(l, d) && PartlyInstalled(l, d, HeaderBlocks(d[l.start]), k, e)
    ensures WellFormed(l, e) && HeaderBlocks(e[l.start]) == HeaderBlocks(d[l.start])
    ensures SameHome(l, Recovered(l, e), Recovered(l, d))
  {
    ReinstallSame(l, d, HeaderBlocks(d[l.start]), k);
  }

  /** The header stays reachable, with room for it, once everything is installed. */
  lemma InstalledHeadAccess(l: Layout, lh: seq<int>, s0: Snap, s: Snap)
    requires LogAccess(l, |s0.d|, s0.g, lh) && Installing(l, lh, |lh|, s0, s)
    requires lh == [] ==> Room(s0.g, [])
    requires lh != [] ==> Room(s0.g, lh)
    ensures HeadAccess(l, |s.d|, s.g) && Room(s.g, [])
  {
    hide LogAccess, Installing, Room;
    InstallingAll(l, lh, s0, s);
    HeadReach(l, |s0.d|, s0.g, lh);
    assert lh[..|lh|] == lh;
    var all := Busy(s0.g) + (set b | b in lh);
    forall b | 0 <= b < |s.d| && InUse(s.g, b) ensures b in all {
      InstallingBusy(l, lh, |lh|, s0, s, b);
    }
    RoomCount(s0.g, lh, all);
    RoomCount(s.g, [], Busy(s.g));
    SubsetSize(Busy(s.g), all);
    HeaderUnused(l, lh, s0, s);
  }

  lemma HeaderUnused(l: Layout, lh: seq<int>, s0: Snap, s: Snap)
    requires LogAccess(l, |s0.d|, s0.g, lh) && Installing(l, lh, |lh|, s0, s)
    ensures HeadAccess(l, |s.d|, s.g)
  {
    assert InLog(l, l.start) && lh[..|lh|] == lh;
  }

  /** The images of the four parts of a commit, from d0 and im0 on. */
  lemma CommitTrace(l: Layout, lh: seq<int>, d0: Disk, vals: seq<Block>, d3: Disk, d4: Disk,
                    im0: seq<Disk>, im1: seq<Disk>, im3: seq<Disk>)
    requires GoodLayout(l, |d0|) && GoodTargets(l, |d0|, lh) && |vals| == |lh| > 0
    requires im1 == im0 + WriteLogImages(l, d0, vals, |lh|)
    requires d3 == Installed(l, Committed(l, d0, lh, vals), lh, |lh|)
    requires im3 == im1 + [Committed(l, d0, lh, vals)] + InstallImages(l, Committed(l, d0, lh, vals), lh, |lh|)
    requires d4 == WithHead(l, d3, [])
    ensures im3 + [d4] == im0 + CommitImages(l, d0, lh, vals)
  {
    var c := Committed(l, d0, lh, vals);
    var w, i := WriteLogImages(l, d0, vals, |lh|), InstallImages(l, c, lh, |lh|);
    assert im0 + (w + [c] + i + [d4]) == im0 + w + [c] + i + [d4];
  }

  /** The ghost state after a commit: nothing pinned, and the home view unchanged and on disk. */
  lemma CommitGhost(l: Layout, lh: seq<int>, s0: Snap, s1: Snap, s2: Snap, s3: Snap)
    requires WellFormed(l, s0.d) && GhostSizes(s0.g, |s0.d|) && GhostSizes(s1.g, |s0.d|) && GhostSizes(s2.g, |s0.d|)
    requires forall b | 0 <= b < |s0.d| :: s0.g.pins[b] == Bit(b in lh)
    requires Logging(l, lh, |lh|, s0, s1)
    requires s2.g == s1.g.(view := s2.g.view, home := s2.g.home)
    requires s2.g.view == s1.g.view[l.start := s2.g.view[l.start]]
    requires Unpinning(lh, |lh|, s2.g, s3.g, s3.d) && HomeAfter(l, s0.d, lh, Values(s0.g.view, lh), s3.d)
    ensures GhostSizes(s3.g, |s0.d|) && s3.g == s0.g.(view := s3.g.view, pins := s3.g.pins, home := s3.g.home)
    ensures forall b | 0 <= b < |s0.d| :: s3.g.pins[b] == 0
    ensures SameHome(l, s3.g.view, s0.g.view)
  {
    assert lh[..|lh|] == lh;
    forall b | 0 <= b < |s0.d| && !InLog(l, b) ensures s3.g.view[b] == s0.g.view[b] {
      if b in lh {
        var t :| 0 <= t < |lh| && lh[t] == b;
        assert s3.d[lh[t]] == Values(s0.g.view, lh)[t];
      } else {
        assert s3.g.view[b] == s2.g.view[b];
      }
    }
  }

  lemma LoggingGhost(l: Layout, lh: seq<int>, k: nat, s0: Snap, s: Snap)
    requires Logging(l, lh, k, s0, s) && GhostSizes(s0.g, |s0.d|) && LogAccess(l, |s.d|, s.g, lh)
    ensures GhostSizes(s.g, |s0.d|) && |s.d| == |s0.d| && s.g == s0.g.(view := s.g.view, home := s.g.home)
  {
  }

  lemma AccessSizes(l: Layout, n: nat, g: Ghost, lh: seq<int>)
    requires LogAccess(l, n, g, lh)
    ensures GhostSizes(g, n) && forall t | 0 <= t < |lh| :: 0 <= lh[t] < n
  {
  }

  lemma AccessRound(l: Layout, n: nat, g: Ghost, lh: seq<int>, tail: nat)
    requires LogAccess(l, n, g, lh) && tail < |lh|
    ensures RoundAccess(l, n, g, lh, tail)
  {
  }

  lemma LoggingFacts(l: Layout, lh: seq<int>, s0: Snap, s: Snap)
    requires Logging(l, lh, |lh|, s0, s)
    ensures GoodLayout(l, |s0.d|) && GoodTargets(l, |s0.d|, lh) && |s0.g.view| == |s0.d|
    ensures forall t | 0 <= t < |lh| :: 0 <= lh[t] < |s0.g.view|
    ensures |lh| < l.size && l.start + l.size <= |s0.d|
    ensures s.d == LogWritten(l, s0.d, Values(s0.g.view, lh), |lh|)
    ensures s.im == s0.im + WriteLogImages(l, s0.d, Values(s0.g.view, lh), |lh|)
  {
  }

  lemma InstallingFacts(l: Layout, lh: seq<int>, s0: Snap, s: Snap)
    requires Installing(l, lh, |lh|, s0, s)
    ensures GoodLayout(l, |s0.d|) && GoodTargets(l, |s0.d|, lh)
    ensures |lh| < l.size && l.start + l.size <= |s0.d| && forall i | 0 <= i < |lh| :: 0 <= lh[i] < |s0.d|
    ensures s.d == Installed(l, s0.d, lh, |lh|) && s.im == s0.im + InstallImages(l, s0.d, lh, |lh|)
  {
  }

  lemma InstallingAll(l: Layout, lh: seq<int>, s0: Snap, s: Snap)
    requires Installing(l, lh, |lh|, s0, s)
    ensures PartlyInstalled(l, s0.d, lh, |lh|, s.d) && |s.d| == |s0.d| && GhostSizes(s.g, |s.d|)
  {
  }

  lemma CommittedIs(l: Layout, d: Disk, lh: seq<int>, vals: seq<Block>)
    requires GoodLayout(l, |d|) && GoodTargets(l, |d|, lh) && |vals| == |lh|
    ensures |lh| < l.size && l.start + l.size <= |d| && |lh| < WORDS
    ensures Committed(l, d, lh, vals) == WithHead(l, LogWritten(l, d, vals, |lh|), lh)
  {
  }

  /** Erasing the header leaves the home blocks alone. */
  lemma BeforeErase(l: Layout, d: Disk, lh: seq<int>, vals: seq<Block>, e: Disk)
    requires GoodLayout(l, |d|) && GoodTargets(l, |d|, lh) && |vals| == |lh| && |e| == |d|
    requires HomeAfter(l, d, lh, vals, WithHead(l, e, []))
    ensures HomeAfter(l, d, lh, vals, e)
  {
    assert InLog(l, l.start);
  }

  /** The disk and its images after the four parts of a commit. */
  lemma CommitDisk(l: Layout, lh: seq<int>, s0: Snap, s1: Snap, s2: Snap, s3: Snap, s4: Snap)
    requires WellFormed(l, s0.d) && HeaderBlocks(s0.d[l.start]) == [] && lh != []
    requires Logging(l, lh, |lh|, s0, s1) && |s1.d| == |s1.g.view| == |s0.d|
    requires s2.d == WithHead(l, s1.d, lh) && s2.im == s1.im + [s2.d]
    requires Installing(l, lh, |lh|, s2, s3) && |s3.d| == |s3.g.view| == |s0.d|
    requires s4.d == WithHead(l, s3.d, []) && s4.im == s3.im + [s4.d]
    ensures GoodTargets(l, |s0.d|, lh) && s4.im == s0.im + CommitImages(l, s0.d, lh, Values(s0.g.view, lh))
    ensures HomeAfter(l, s0.d, lh, Values(s0.g.view, lh), s3.d)
    ensures WellFormed(l, s4.d) && HeaderBlocks(s4.d[l.start]) == []
  {
    LoggingFacts(l, lh, s0, s1);
    InstallingFacts(l, lh, s2, s3);
    var vals := Values(s0.g.view, lh);
    hide *;
    CrashAfterErase(l, s0.d, lh, vals);
    CommittedIs(l, s0.d, lh, vals);
    CommitTrace(l, lh, s0.d, vals, s3.d, s4.d, s0.im, s1.im, s3.im);
    BeforeErase(l, s0.d, lh, vals, s3.d);
  }

  /** The four parts of a commit taken together. */
  lemma CommitDone(l: Layout, lh: seq<int>, s0: Snap, s1: Snap, s2: Snap, s3: Snap, s4: Snap, fin: State)
    requires WellFormed(l, s0.d) && HeaderBlocks(s0.d[l.start]) == [] && lh != []
    requires Logging(l, lh, |lh|, s0, s1) && |s1.d| == |s0.d|
    requires s2.d == WithHead(l, s1.d, lh) && s2.im == s1.im + [s2.d]
    requires Installing(l, lh, |lh|, s2, s3) && |s3.d| == |s0.d|
    requires s4.d == WithHead(l, s3.d, []) && s4.im == s3.im + [s4.d]
    requires GhostSizes(s0.g, |s0.d|) && GhostSizes(s1.g, |s0.d|) && GhostSizes(s2.g, |s0.d|) && GhostSizes(s3.g, |s0.d|)
    requires forall b | 0 <= b < |s0.d| :: s0.g.pins[b] == Bit(b in lh)
    requires s2.g == s1.g.(view := s1.g.view[l.start := s2.d[l.start]], home := s2.g.home)
    requires s4.g == s3.g.(view := s3.g.view[l.start := s4.d[l.start]], home := s4.g.home)
    requires Sound(fin) && fin.disk == s4.d && fin.g == s4.g
    ensures GoodTargets(l, |s0.d|, lh) && s4.im == s0.im + CommitImages(l, s0.d, lh, Values(s0.g.view, lh))
    ensures LogValid(l, fin, []) && SameHome(l, s4.g.view, s0.g.view)
    ensures s4.g == s0.g.(view := s4.g.view, pins := s4.g.pins, home := s4.g.home)
  {
    CommitDisk(l, lh, s0, s1, s2, s3, s4);
    assert Unpinning(lh, |lh|, s2.g, s3.g, s3.d);
    hide Logging, Unpinning, Installing, HomeAfter, CommitImages, Sound, WithHead, HeaderBlocks, Values, GoodTargets;
    CommitGhost(l, lh, s0, s1, s2, s3);
    CommitEnd(l, s0.g.view, s3.g, s4.g.home, s4.d, fin);
  }

  /** Writing the header changes no home block and unpins nothing. */
  lemma CommitEnd(l: Layout, view: Disk, g: Ghost, home: seq<int>, d: Disk, fin: State)
    requires Sound(fin) && WellFormed(l, d) && HeaderBlocks(d[l.start]) == [] && fin.disk == d
    requires |view| == |d| && GhostSizes(g, |d|) && fin.g == g.(view := g.view[l.start := d[l.start]], home := home)
    requires forall b | 0 <= b < |d| :: g.pins[b] == 0
    requires SameHome(l, g.view, view)
    ensures LogValid(l, fin, []) && SameHome(l, fin.g.view, view)
  {
    hide Sound, HeaderBlocks;
    assert InLog(l, l.start);
  }

  lemma LoggedOnce(l: Layout, s: State, lh: seq<int>, i: int, bs: seq<Buf>)
    requires LogValid(l, s, lh) && Holds(s, i)
    requires !InLog(l, s.bufs[i].blockno) && |lh| < l.size - 1 && |lh| < LOGSIZE && s.bufs[i].blockno !in lh
    requires bs == s.bufs[i := s.bufs[i].(refcnt := Inc(s.bufs[i].refcnt))]
    requires CacheInv(State(s.disk, bs, s.lru, Pinned(s.g, s.bufs[i].blockno, 1)))
    ensures LogValid(l, State(s.disk, bs, s.lru, Pinned(s.g, s.bufs[i].blockno, 1)), lh + [s.bufs[i].blockno])
  {
  }

  lemma PublishValid(l: Layout, s: State, lh: seq<int>, i: int)
    requires LogValid(l, s, lh) && Holds(s, i) && s.bufs[i].blockno in lh
    ensures LogValid(l, s.(g := Published(s, i)), lh)
  {
    PublishKeeps(s, i, s.disk);
  }

  lemma Reach(l: Layout, s: State, lh: seq<int>, tail: nat)
    requires Sound(s) && RoundAccess(l, |s.disk|, s.g, lh, tail)
    ensures tail < |lh|
    ensures var slot, dst := l.start + tail + 1, lh[tail];
            && 0 <= slot < |s.disk| && !InUse(s.g, slot) && s.g.view[slot] == s.disk[slot]
            && 0 <= dst < |s.disk| && dst != slot && !s.g.held[dst] && s.g.wait[dst] < NPROC
            && GhostSizes(s.g, |s.disk|)
  {
    var slot, dst := l.start + tail + 1, lh[tail];
    assert InLog(l, slot);
    assert GoodBlock(s, slot) && GoodBlock(s, dst);
  }

  /** write_head's copy of the in-memory header into the header buffer. */
  method FillHeader(data: Block, lh: seq<int>) returns (r: Block)
    requires |lh| < WORDS
    ensures r == EncodeHeader(data, lh)
  {
    var w := data.words[0 := |lh|];
    for i := 0 to |lh|
      invariant |w| == WORDS && w == [|lh|] + lh[..i] + data.words[1 + i..]
    {
      w := w[1 + i := lh[i]];
    }
    r := Block(w);
  }

  /** read_head's copy of the header buffer into the in-memory header. */
  method FetchHeader(data: Block) returns (lh: seq<int>)
    requires 0 <= data.words[0] < WORDS
    ensures lh == HeaderBlocks(data)
  {
    lh := [];
    for i := 0 to data.words[0]
      invariant lh == data.words[1..1 + i]
    {
      lh := lh + [data.words[1 + i]];
    }
  }

  /** Crash atomicity as the users of the log see it.  Cut a commit short after any k
      block writes and recovery any number of times: in the end the home blocks are
      those of the disk before the commit, or exactly what readers saw when it began. */
  lemma CommitCrash(l: Layout, s: State, lh: seq<int>, k: nat, crashes: seq<nat>)
    requires LogValid(l, s, lh) && k <= |CommitImages(l, s.disk, lh, Values(s.g.view, lh))|
    ensures var image := ([s.disk] + CommitImages(l, s.disk, lh, Values(s.g.view, lh)))[k];
            && WellFormed(l, image)
            && SameHome(l, Recovered(l, AfterCrashes(l, image, crashes)), if k <= |lh| then s.disk else s.g.view)
  {
    var vals := Values(s.g.view, lh);
    CrashAtomicity(l, s.disk, lh, vals, k, crashes);
    var final := Recovered(l, AfterCrashes(l, ([s.disk] + CommitImages(l, s.disk, lh, vals))[k], crashes));
    if k > |lh| {
      forall b | 0 <= b < |s.disk| && !InLog(l, b) ensures final[b] == s.g.view[b] {
        assert GoodBlock(s, b);
        if b in lh {
          var t :| 0 <= t < |lh| && lh[t] == b;
          assert final[lh[t]] == vals[t];
        }
      }
    }
  }

  /** Buffer i is the least recently used one without a reference. */
  ghost predicate LastUnreferenced(bufs: seq<Buf>, lru: seq<int>, i: int)
    requires |bufs| == NBUF && Lru(lru)
  {
    exists k :: 0 <= k < NBUF && lru[k] == i && bufs[i].refcnt == 0 && forall j | k < j < NBUF :: bufs[lru[j]].refcnt != 0
  }

  class LoggedDisk {
    const layout: Layout
    var disk: Disk
    var bufs: seq<Buf>
    var lru: seq<int>              // most recently used first
    var lh: seq<int>               // blocks logged by the current transaction
    var outstanding: int
    var committing: bool

    ghost var g: Ghost
    ghost var images: seq<Disk>    // the disk after each block write so far

    /** Power on: binit's zeroed buffers over whatever the disk holds. */
    constructor (d: Disk, l: Layout)
      requires |d| > 0
      ensures Sound(State(disk, bufs, lru, g)) && disk == d && layout == l && g == Boot(d)
      ensures lh == [] && outstanding == 0 && !committing && images == []
    {
      layout, disk := l, d;
      bufs := seq(NBUF, _ => Buf(false, 0, 0, false, Block(seq(WORDS, _ => 0))));
      lh, outstanding, committing := [], 0, false;
      g, images := Boot(d), [];
      var order: seq<int> := [];
      for i := 0 to NBUF
        invariant |order| == i
        invariant forall k | 0 <= k < i :: order[k] == i - 1 - k
        invariant forall x | 0 <= x < i :: x in order
      {
        order := [i] + order;
      }
      lru := order;
      new;
      BootState(State(disk, bufs, lru, g));
    }

    // ---- kernel/bio.c ----

    /** bget up to its wait for the sleep-lock: a reference to the block's buffer, or to the
        least recently used unreferenced one, re-tagged, when the block is not cached. */
    method Bget(blockno: int) returns (r: Option<int>)
      requires Sizes(State(disk, bufs, lru, g)) && Lru(lru) && 0 <= blockno < |disk|
      requires forall i | 0 <= i < NBUF :: 0 <= bufs[i].blockno < |disk|
      modifies this`bufs, this`g
      ensures r.None? <==> !Caches(old(bufs), blockno) && forall i | 0 <= i < NBUF :: old(bufs[i].refcnt) != 0
      ensures r.None? ==> bufs == old(bufs) && g == old(g)
      ensures r.Some? ==>
        var i := r.value;
        && 0 <= i < NBUF
        && bufs == old(bufs)[i := Referenced(old(bufs[i]), blockno)]
        && g == RefAt(old(g), old(bufs[i].blockno), blockno, i)
        && (if Caches(old(bufs), blockno) then FirstMatch(old(State(disk, bufs, lru, g)), i, blockno)
            else LastUnreferenced(old(bufs), lru, i))
        && (old(Sound(State(disk, bufs, lru, g))) && old(g.wait[blockno]) < NPROC ==>
              CacheInv(State(disk, bufs, lru, g)) && g.home[blockno] == i)
    {
      ghost var s := State(disk, bufs, lru, g);
      var k := 0;
      while k < |lru|
        invariant 0 <= k <= |lru|
        invariant forall j | 0 <= j < k :: bufs[lru[j]].blockno != blockno
      {
        var b := lru[k];
        if bufs[b].blockno == blockno {
          CachedRef(s, k, blockno);
          g := RefAt(g, blockno, blockno, b);
          bufs := bufs[b := Referenced(bufs[b], blockno)];
          return Some(b);
        }
        k := k + 1;
      }
      assert !Caches(bufs, blockno) by { NotOnList(bufs, lru, blockno); }
      while k > 0
        invariant 0 <= k <= |lru|
        invariant forall j | k <= j < |lru| :: bufs[lru[j]].refcnt != 0
      {
        k := k - 1;
        var b := lru[k];
        if bufs[b].refcnt == 0 {
          RecycledRef(s, b, blockno);
          assert LastUnreferenced(bufs, lru, b);
          g := RefAt(g, bufs[b].blockno, blockno, b);
          bufs := bufs[b := Referenced(bufs[b], blockno)];
          return Some(b);
        }
      }
      forall i | 0 <= i < NBUF ensures bufs[i].refcnt != 0 {
        assert i in lru;
      }
      return None;                  // panic: no buffers
    }

    /** The end of bread: one who waited has the sleep-lock, and the block is read if it must be. */
    method BreadLock(i: int)
      requires CacheInv(State(disk, bufs, lru, g)) && Has(State(disk, bufs, lru, g), i) && g.home[bufs[i].blockno] == i
      requires !g.held[bufs[i].blockno] && g.wait[bufs[i].blockno] > 0
      modifies this`bufs, this`g
      ensures Holds(State(disk, bufs, lru, g), i) && !g.dirty[i] && !old(bufs[i].locked)
      ensures g == LockAt(old(g), bufs[i].blockno) && bufs == old(bufs)[i := bufs[i]]
      ensures bufs[i].blockno == old(bufs[i].blockno) && bufs[i].data == g.view[bufs[i].blockno]
      ensures bufs[i].refcnt == old(bufs[i].refcnt) == Wrap(Refs(g, bufs[i].blockno))
    {
      LockKeeps(State(disk, bufs, lru, g), i);
      assert GoodBuf(State(disk, bufs, lru, g), i);
      g := LockAt(g, bufs[i].blockno);
      if !bufs[i].valid {
        bufs := bufs[i := bufs[i].(locked := true, valid := true, data := disk[bufs[i].blockno])];
      } else {
        bufs := bufs[i := bufs[i].(locked := true)];
      }
      assert GoodBuf(State(disk, bufs, lru, g), i);
    }

    /** bread of a block that nobody holds: a locked buffer with the block's latest contents. */
    method Bread(blockno: int) returns (r: Option<int>)
      requires Sound(State(disk, bufs, lru, g)) && 0 <= blockno < |disk| && !g.held[blockno] && g.wait[blockno] < NPROC
      modifies this`bufs, this`g
      ensures r.None? <==> !Caches(old(bufs), blockno) && forall i | 0 <= i < NBUF :: old(bufs[i].refcnt) != 0
      ensures r.None? ==> bufs == old(bufs) && g == old(g)
      ensures r.Some? ==>
        var i := r.value;
        && Holds(State(disk, bufs, lru, g), i) && !old(bufs[i].locked) && !g.dirty[i]
        && g == HeldAt(old(g), blockno).(home := g.home)
        && bufs == old(bufs)[i := bufs[i]] && bufs[i].blockno == blockno
        && bufs[i].data == g.view[blockno]
        && bufs[i].refcnt == Wrap(Refs(g, blockno))
        && (g.pins[blockno] >= 0 ==> Sound(State(disk, bufs, lru, g)))
    {
      ghost var s0 := State(disk, bufs, lru, g);
      Shape(s0);
      assert GoodBlock(s0, blockno);
      hide CacheInv, Sound;
      r := Bget(blockno);
      if r.Some? {
        var i := r.value;
        assert bufs[i].blockno == blockno;
        HasBuf(State(disk, bufs, lru, g), i);
        BreadLock(i);
        assert g.wait == old(g.wait);
        HeldSound(s0, State(disk, bufs, lru, g), blockno);
      }
    }

    /** The holder changes its buffer. */
    method Modify(i: int, data: Block)
      requires Holds(State(disk, bufs, lru, g), i)
      modifies this`bufs, this`g
      ensures Holds(State(disk, bufs, lru, g), i) && g == old(g).(dirty := old(g.dirty)[i := true])
      ensures bufs == old(bufs)[i := old(bufs[i]).(data := data)]
    {
      ModifyKeeps(State(disk, bufs, lru, g), i, data);
      bufs := bufs[i := bufs[i].(data := data)];
      g := g.(dirty := g.dirty[i := true]);
    }

    method Bwrite(i: int)
      requires Holds(State(disk, bufs, lru, g), i)
      modifies this`disk, this`g, this`images
      ensures Holds(State(disk, bufs, lru, g), i) && g == Published(old(State(disk, bufs, lru, g)), i)
      ensures disk == old(disk)[bufs[i].blockno := bufs[i].data] && images == old(images) + [disk]
    {
      PublishKeeps(State(disk, bufs, lru, g), i, disk[bufs[i].blockno := bufs[i].data]);
      g := Published(State(disk, bufs, lru, g), i);
      disk := disk[bufs[i].blockno := bufs[i].data];
      images := images + [disk];
    }

    method Brelse(i: int)
      requires Holds(State(disk, bufs, lru, g), i) && !g.dirty[i]
      modifies this`bufs, this`lru, this`g
      ensures CacheInv(State(disk, bufs, lru, g)) && bufs == old(bufs)[i := Drop(old(bufs[i]))]
      ensures g == FreedAt(old(g), old(bufs[i].blockno))
      ensures bufs[i].refcnt != 0 ==> lru == old(lru)
      ensures bufs[i].refcnt == 0 ==> exists k :: 0 <= k < NBUF && old(lru[k]) == i && lru == MoveToFront(old(lru), k)
    {
      DropKeeps(State(disk, bufs, lru, g), i);
      g := FreedAt(g, bufs[i].blockno);
      bufs := bufs[i := Drop(bufs[i])];
      if bufs[i].refcnt == 0 {
        assert i in lru;
        var k :| 0 <= k < NBUF && lru[k] == i;
        MoveToFrontKeeps(State(disk, bufs, lru, g), k);
        lru := MoveToFront(lru, k);
      }
    }

    method Bpin(i: int)
      requires Holds(State(disk, bufs, lru, g), i) && g.pins[bufs[i].blockno] < MAXPINS
      modifies this`bufs, this`g
      ensures Holds(State(disk, bufs, lru, g), i) && g == Pinned(old(g), bufs[i].blockno, 1)
      ensures bufs == old(bufs)[i := old(bufs[i]).(refcnt := Inc(old(bufs[i].refcnt)))]
    {
      PinKeeps(State(disk, bufs, lru, g), i);
      g := Pinned(g, bufs[i].blockno, 1);
      bufs := bufs[i := bufs[i].(refcnt := Inc(bufs[i].refcnt))];
    }

    method Bunpin(i: int)
      requires Holds(State(disk, bufs, lru, g), i) && -MAXPINS < g.pins[bufs[i].blockno]
      requires g.view[bufs[i].blockno] == disk[bufs[i].blockno]
      modifies this`bufs, this`g
      ensures Holds(State(disk, bufs, lru, g), i) && g == Pinned(old(g), bufs[i].blockno, -1)
      ensures bufs == old(bufs)[i := old(bufs[i]).(refcnt := Dec(old(bufs[i].refcnt)))]
    {
      UnpinKeeps(State(disk, bufs, lru, g), i);
      g := Pinned(g, bufs[i].blockno, -1);
      bufs := bufs[i := bufs[i].(refcnt := Dec(bufs[i].refcnt))];
    }

    // ---- kernel/log.c ----

    /** Lock the buffers of two blocks, as each round of write_log and install_trans does.
        There are buffers for both if and only if one is left over with the second in use. */
    method BreadTwo(a: int, b: int) returns (ok: bool, i: int, j: int)
      requires Sound(State(disk, bufs, lru, g)) && 0 <= a < |disk| && 0 <= b < |disk| && a != b
      requires !InUse(g, a) && !g.held[b] && g.pins[b] >= 0 && g.wait[b] < NPROC
      modifies this`bufs, this`g
      ensures ok <==> Room(old(g), [b])
      ensures ok ==>
        && Holds(State(disk, bufs, lru, g), i) && Holds(State(disk, bufs, lru, g), j) && i != j
        && g == HeldAt(HeldAt(old(g), a), b).(home := g.home)
        && !g.dirty[i] && !g.dirty[j]
        && bufs[i].blockno == a && bufs[i].data == g.view[a]
        && bufs[j].blockno == b && bufs[j].data == g.view[b]
    {
      ghost var g0 := g;
      RoomForOne(State(disk, bufs, lru, g), a);
      RoomForSecond(g0, HeldAt(g0, a), a, b);
      i, j := 0, 0;
      var x := Bread(a);
      if x.None? {
        return false, i, j;
      }
      RoomForSecond(g0, g, a, b);
      SecondRoom(State(disk, bufs, lru, g), b);
      hide CacheInv, Sound, Room;
      var y := Bread(b);
      if y.None? {
        return false, i, j;
      }
      HasBuf(State(disk, bufs, lru, g), x.value);
      return true, x.value, y.value;
    }

    /** Replace a held buffer's contents and write it to disk. */
    method WriteOut(i: int, data: Block)
      requires Holds(State(disk, bufs, lru, g), i) && !g.dirty[i]
      modifies this`bufs, this`disk, this`g, this`images
      ensures Holds(State(disk, bufs, lru, g), i)
      ensures bufs == old(bufs)[i := old(bufs[i]).(data := data)]
      ensures g == old(g).(view := old(g.view)[bufs[i].blockno := data])
      ensures disk == old(disk)[bufs[i].blockno := data] && images == old(images) + [disk]
    {
      hide CacheInv;
      Modify(i, data);
      Bwrite(i);
      assert g.dirty == old(g.dirty);
    }

    /** Write a home block and let go of the log's pin on it. */
    method WriteHome(i: int, data: Block)
      requires Holds(State(disk, bufs, lru, g), i) && !g.dirty[i] && -MAXPINS < g.pins[bufs[i].blockno]
      modifies this`bufs, this`disk, this`g, this`images
      ensures Holds(State(disk, bufs, lru, g), i)
      ensures bufs == old(bufs)[i := bufs[i]] && bufs[i].blockno == old(bufs[i].blockno)
      ensures g == Pinned(old(g), bufs[i].blockno, -1).(view := old(g.view)[bufs[i].blockno := data])
      ensures disk == old(disk)[bufs[i].blockno := data] && images == old(images) + [disk]
    {
      hide CacheInv;
      WriteOut(i, data);
      Bunpin(i);
    }

    /** Release two held buffers; `held` is how things were before they were locked. */
    method BrelseTwo(i: int, j: int, ghost held: seq<bool>)
      requires Holds(State(disk, bufs, lru, g), i) && Holds(State(disk, bufs, lru, g), j) && i != j
      requires !g.dirty[i] && !g.dirty[j] && |held| == |disk|
      requires !held[bufs[i].blockno] && !held[bufs[j].blockno]
      requires g.held == held[bufs[i].blockno := true][bufs[j].blockno := true]
      modifies this`bufs, this`lru, this`g
      ensures CacheInv(State(disk, bufs, lru, g)) && g == old(g).(held := held) && GhostSizes(g, |disk|)
    {
      hide CacheInv;
      Brelse(i);
      Brelse(j);
      assert g.held == held;
    }

    /** The end of a round of write_log, with both buffers held. */
    method CopyOut(to: int, from: int, ghost held: seq<bool>)
      requires Holds(State(disk, bufs, lru, g), to) && Holds(State(disk, bufs, lru, g), from) && to != from
      requires !g.dirty[to] && !g.dirty[from] && |held| == |disk|
      requires bufs[to].blockno != bufs[from].blockno && !held[bufs[to].blockno] && !held[bufs[from].blockno]
      requires g.held == held[bufs[to].blockno := true][bufs[from].blockno := true]
      modifies this`bufs, this`lru, this`disk, this`g, this`images
      ensures CacheInv(State(disk, bufs, lru, g)) && GhostSizes(g, |disk|)
      ensures var b := old(bufs[to].blockno); var data := old(bufs[from].data);
              && g == old(g).(view := old(g.view)[b := data], held := held)
              && disk == old(disk)[b := data] && images == old(images) + [disk]
    {
      hide CacheInv;
      WriteOut(to, bufs[from].data);
      HasBuf(State(disk, bufs, lru, g), from);
      assert g.held == held[bufs[from].blockno := true][bufs[to].blockno := true];
      BrelseTwo(from, to, held);
    }

    /** The end of a round of install_trans, with both buffers held. */
    method CopyHome(lbuf: int, dbuf: int, ghost held: seq<bool>)
      requires Holds(State(disk, bufs, lru, g), lbuf) && Holds(State(disk, bufs, lru, g), dbuf) && lbuf != dbuf
      requires !g.dirty[lbuf] && !g.dirty[dbuf] && |held| == |disk| && -MAXPINS < g.pins[bufs[dbuf].blockno]
      requires !held[bufs[lbuf].blockno] && !held[bufs[dbuf].blockno]
      requires g.held == held[bufs[lbuf].blockno := true][bufs[dbuf].blockno := true]
      modifies this`bufs, this`lru, this`disk, this`g, this`images
      ensures CacheInv(State(disk, bufs, lru, g)) && GhostSizes(g, |disk|)
      ensures var b := old(bufs[dbuf].blockno); var data := old(bufs[lbuf].data);
              && g == Pinned(old(g), b, -1).(view := old(g.view)[b := data], held := held)
              && disk == old(disk)[b := data] && images == old(images) + [disk]
    {
      hide CacheInv;
      WriteHome(dbuf, bufs[lbuf].data);
      HasBuf(State(disk, bufs, lru, g), lbuf);
      BrelseTwo(lbuf, dbuf, held);
    }

    /** One round of write_log: copy a cached block to its log slot. */
    method LogOne(tail: nat) returns (ok: bool)
      requires Sound(State(disk, bufs, lru, g)) && RoundAccess(layout, |disk|, g, lh, tail) && g.pins[lh[tail]] > 0
      modifies this`bufs, this`lru, this`disk, this`g, this`images
      ensures ok <==> Room(old(g), [lh[tail]])
      ensures !ok ==> disk == old(disk) && images == old(images)
      ensures ok ==>
        && Sound(State(disk, bufs, lru, g)) && GhostSizes(g, |disk|)
        && disk == old(disk)[layout.start + tail + 1 := old(g.view)[lh[tail]]]
        && g == old(g).(view := old(g.view)[layout.start + tail + 1 := old(g.view)[lh[tail]]], home := g.home)
        && images == old(images) + [disk]
    {
      hide CacheInv, Sound, Holds, RoundAccess, Room;
      ghost var s0 := State(disk, bufs, lru, g);
      var slot := layout.start + tail + 1;
      Reach(layout, s0, lh, tail);
      var to, from;
      ok, to, from := BreadTwo(slot, lh[tail]);
      if ok {
        CopyOut(to, from, old(g.held));
        StillSound(s0, State(disk, bufs, lru, g), lh[tail], 0);
      }
    }

    /** One round of install_trans: copy a log slot to its home block and unpin it. */
    method InstallOne(tail: nat) returns (ok: bool)
      requires Sound(State(disk, bufs, lru, g)) && RoundAccess(layout, |disk|, g, lh, tail)
      requires g.pins[lh[tail]] == 1 || !InUse(g, lh[tail])
      modifies this`bufs, this`lru, this`disk, this`g, this`images
      ensures ok <==> Room(old(g), [lh[tail]])
      ensures !ok ==> disk == old(disk) && images == old(images)
      ensures ok ==> Sound(State(disk, bufs, lru, g))
      ensures ok ==> InstalledOne(layout, lh, tail, old(Snap(disk, g, images)), Snap(disk, g, images))
    {
      hide CacheInv, Sound, Holds, RoundAccess, Room, InstalledOne;
      ghost var s0 := State(disk, bufs, lru, g);
      var slot := layout.start + tail + 1;
      Reach(layout, s0, lh, tail);
      var lbuf, dbuf;
      ok, lbuf, dbuf := BreadTwo(slot, lh[tail]);
      if ok {
        CopyHome(lbuf, dbuf, old(g.held));
        InstalledRound(layout, lh, tail, s0, old(images), State(disk, bufs, lru, g));
      }
    }

    /** The same round, seen as progress of the whole copy. */
    method LogRound(tail: nat, ghost s0: Snap) returns (ok: bool)
      requires Sound(State(disk, bufs, lru, g)) && LogAccess(layout, |disk|, g, lh) && tail < |lh|
      requires Logging(layout, lh, tail, s0, Snap(disk, g, images)) && |disk| == |s0.d| && GhostSizes(s0.g, |s0.d|)
      requires forall t | 0 <= t < |lh| :: 0 <= lh[t] < |s0.d| && s0.g.pins[lh[t]] > 0
      modifies this`bufs, this`lru, this`disk, this`g, this`images
      ensures ok <==> Room(s0.g, [])
      ensures !ok ==> disk == old(disk) && images == old(images)
      ensures ok ==>
        && Sound(State(disk, bufs, lru, g)) && LogAccess(layout, |disk|, g, lh) && |disk| == |s0.d|
        && Logging(layout, lh, tail + 1, s0, Snap(disk, g, images))
    {
      hide Room, Sound, LogAccess, RoundAccess, Logging;
      ghost var s := Snap(disk, g, images);
      LoggingGhost(layout, lh, tail, s0, s);
      LogRoom(s0.g, g, lh, tail);
      AccessRound(layout, |disk|, g, lh, tail);
      ok := LogOne(tail);
      if ok {
        AccessFrame(layout, |disk|, s.g, g, lh);
        LoggingStep(layout, lh, tail, s0, s, Snap(disk, g, images));
      }
    }

    /** write_log: copy the modified blocks from the cache to the log. */
    method WriteLog() returns (ok: bool)
      requires Sound(State(disk, bufs, lru, g)) && LogAccess(layout, |disk|, g, lh)
      requires forall t | 0 <= t < |lh| :: g.pins[lh[t]] > 0
      modifies this`bufs, this`lru, this`disk, this`g, this`images
      ensures ok <==> lh == [] || Room(old(g), [])
      ensures !ok ==> disk == old(disk) && images == old(images)
      ensures ok ==> Sound(State(disk, bufs, lru, g)) && LogAccess(layout, |disk|, g, lh)
      ensures ok ==> |disk| == |old(disk)| && GhostSizes(g, |disk|) && g == old(g).(view := g.view, home := g.home)
      ensures ok ==> Logging(layout, lh, |lh|, old(Snap(disk, g, images)), Snap(disk, g, images))
    {
      hide Room, Sound, LogAccess, Logging;
      ghost var s0 := Snap(disk, g, images);
      AccessSizes(layout, |disk|, g, lh);
      LoggingStart(layout, lh, s0);
      var tail := 0;
      while tail < |lh|
        invariant 0 <= tail <= |lh| && |disk| == |s0.d|
        invariant Sound(State(disk, bufs, lru, g)) && LogAccess(layout, |disk|, g, lh)
        invariant Logging(layout, lh, tail, s0, Snap(disk, g, images))
        invariant tail == 0 ==> disk == s0.d && images == s0.im
        invariant tail > 0 ==> Room(s0.g, [])
      {
        ok := LogRound(tail, s0);
        if !ok {
          return;
        }
        tail := tail + 1;
      }
      LoggingGhost(layout, lh, |lh|, s0, Snap(disk, g, images));
      ok := true;
    }

    /** The same round, seen as progress of the whole installation. */
    method InstallRound(tail: nat, ghost s0: Snap) returns (ok: bool)
      requires Sound(State(disk, bufs, lru, g)) && tail < |lh| && LogAccess(layout, |s0.d|, s0.g, lh)
      requires Installing(layout, lh, tail, s0, Snap(disk, g, images)) && Installable(s0.g, lh)
      modifies this`bufs, this`lru, this`disk, this`g, this`images
      ensures !ok ==> !Room(s0.g, lh) && PartlyInstalled(layout, s0.d, lh, tail, disk)
      ensures ok ==> Sound(State(disk, bufs, lru, g))
      ensures ok ==> Installing(layout, lh, tail + 1, s0, Snap(disk, g, images))
      ensures ok && tail == |lh| - 1 ==> Room(s0.g, lh)
    {
      ghost var s := Snap(disk, g, images);
      InstallingAccess(layout, lh, tail, s0, s);
      InstallableRoom(layout, lh, tail, s0, s);
      hide Room, Installable, PartlyInstalled, Sound;
      ok := InstallOne(tail);
      if ok {
        InstallingStep(layout, lh, tail, s0, s, Snap(disk, g, images));
      }
    }

    /** install_trans: copy the logged blocks to their home locations.  Either each of them
        is pinned and room was found before (a commit), or nobody uses them (a recovery). */
    method InstallTrans() returns (ok: bool, ghost done: nat)
      requires Sound(State(disk, bufs, lru, g)) && LogAccess(layout, |disk|, g, lh)
      requires Installable(g, lh)
      modifies this`bufs, this`lru, this`disk, this`g, this`images
      ensures ok <==> lh == [] || Room(old(g), lh)
      ensures PartlyInstalled(layout, old(disk), lh, done, disk)
      ensures ok ==> Sound(State(disk, bufs, lru, g)) && |disk| == |old(disk)| && GhostSizes(g, |disk|)
      ensures ok ==> Installing(layout, lh, |lh|, old(Snap(disk, g, images)), Snap(disk, g, images))
    {
      hide *;
      ghost var s0 := Snap(disk, g, images);
      InstallingStart(layout, lh, s0);
      var tail := 0;
      while tail < |lh|
        invariant 0 <= tail <= |lh|
        invariant Sound(State(disk, bufs, lru, g))
        invariant Installing(layout, lh, tail, s0, Snap(disk, g, images))
        invariant tail == |lh| > 0 ==> Room(s0.g, lh)
      {
        ok := InstallRound(tail, s0);
        if !ok {
          return ok, tail;
        }
        tail := tail + 1;
      }
      InstallingAll(layout, lh, s0, Snap(disk, g, images));
      return true, tail;
    }

    /** write_head: the atomic write that commits or erases a transaction. */
    method WriteHead() returns (ok: bool)
      requires Sound(State(disk, bufs, lru, g)) && HeadAccess(layout, |disk|, g) && |lh| < WORDS
      modifies this`bufs, this`lru, this`disk, this`g, this`images
      ensures ok <==> Room(old(g), [])
      ensures !ok ==> disk == old(disk) && images == old(images)
      ensures ok ==>
        && Sound(State(disk, bufs, lru, g)) && GhostSizes(g, |disk|)
        && disk == WithHead(layout, old(disk), lh)
        && g == old(g).(view := old(g.view)[layout.start := disk[layout.start]], home := g.home)
        && images == old(images) + [disk]
    {
      RoomForOne(State(disk, bufs, lru, g), layout.start);
      assert GoodBlock(State(disk, bufs, lru, g), layout.start);
      hide CacheInv, Room;
      var b := Bread(layout.start);
      if b.None? {
        return false;
      }
      var data := FillHeader(bufs[b.value].data, lh);
      WriteOut(b.value, data);
      Brelse(b.value);
      assert g.held == old(g.held);
      return true;
    }

    method ReadHead() returns (ok: bool)
      requires Sound(State(disk, bufs, lru, g)) && HeadAccess(layout, |disk|, g)
      requires 0 <= disk[layout.start].words[0] < WORDS
      modifies this`bufs, this`lru, this`g, this`lh
      ensures ok <==> Room(old(g), [])
      ensures ok ==> Sound(State(disk, bufs, lru, g)) && lh == HeaderBlocks(disk[layout.start])
      ensures ok ==> g == old(g).(home := g.home) && GhostSizes(g, |disk|)
    {
      RoomForOne(State(disk, bufs, lru, g), layout.start);
      assert GoodBlock(State(disk, bufs, lru, g), layout.start);
      hide CacheInv, Room;
      var b := Bread(layout.start);
      if b.None? {
        return false;
      }
      lh := FetchHeader(bufs[b.value].data);
      Brelse(b.value);
      assert g.held == old(g.held);
      return true;
    }

    /** recover_from_log, as run on a machine just powered on.  It finds its buffers if and
        only if the header lists fewer than NBUF blocks.  The disk then ends up recovered, and
        every block it installs loses a buffer reference; otherwise every boot panics alike,
        though nothing on disk is lost. */
    method RecoverFromLog() returns (ok: bool)
      requires Sound(State(disk, bufs, lru, g)) && WellFormed(layout, disk) && g == Boot(disk)
      modifies this`bufs, this`lru, this`disk, this`g, this`images, this`lh
      ensures ok <==> |HeaderBlocks(old(disk)[layout.start])| < NBUF
      ensures ok ==>
        && Sound(State(disk, bufs, lru, g)) && lh == [] && g.held == old(g.held) && g.wait == old(g.wait)
        && disk == Recovered(layout, old(disk)) && images == old(images) + RecoveryImages(layout, old(disk))
        && forall b | 0 <= b < |disk| :: g.pins[b] == -Bit(b in HeaderBlocks(old(disk)[layout.start]))
      ensures !ok ==>
        && WellFormed(layout, disk) && HeaderBlocks(disk[layout.start]) == HeaderBlocks(old(disk)[layout.start])
        && SameHome(layout, Recovered(layout, disk), Recovered(layout, old(disk)))
    {
      ghost var d := disk;
      BootAccess(layout, disk, g);
      hide LogAccess, HeadAccess, Installing, Installable, PartlyInstalled, Room, Sound;
      ok := ReadHead();
      BootAccess(layout, disk, g);
      ghost var s1 := Snap(disk, g, images);
      ghost var done: nat;
      ok, done := InstallTrans();
      if !ok {
        RecoveryStopped(layout, d, done, disk);
        return;
      }
      ghost var s2 := Snap(disk, g, images);
      InstalledHeadAccess(layout, lh, s1, s2);
      lh := [];
      ok := WriteHead();
      RecoveryDone(layout, d, s1, s2, Snap(disk, g, images));
    }

    /** commit: log, commit point, install, erase.  It finds its buffers if and only if fewer
        than NBUF blocks are in use, the logged ones among them; the blocks seen by readers
        stay the same. */
    method Commit() returns (ok: bool)
      requires LogValid(layout, State(disk, bufs, lru, g), lh) && LogAccess(layout, |disk|, g, lh)
      modifies this`bufs, this`lru, this`disk, this`g, this`images, this`lh
      ensures ok <==> old(lh) == [] || Room(old(g), [])
      ensures !ok ==> disk == old(disk) && images == old(images)
      ensures ok ==>
        && LogValid(layout, State(disk, bufs, lru, g), lh) && lh == []
        && images == old(images) + CommitImages(layout, old(disk), old(lh), Values(old(g.view), old(lh)))
        && SameHome(layout, g.view, old(g.view)) && g == old(g).(view := g.view, pins := g.pins, home := g.home)
        && |disk| == |old(disk)|
    {
      hide CacheInv, Sound, LogValid, LogAccess, HeadAccess, Logging, Installing, Installable, PartlyInstalled, Room, CommitImages;
      hide HeaderBlocks, EncodeHeader;
      if |lh| == 0 {
        CommitNothing(layout, State(disk, bufs, lru, g), lh, images);
        return true;
      }
      ghost var s0 := Snap(disk, g, images);
      CommitReady(layout, State(disk, bufs, lru, g), lh);
      ok := WriteLog();
      if !ok {
        return;
      }
      ghost var s1 := Snap(disk, g, images);
      RoomFrame(s0.g, g, []);
      RoomFrame(s0.g, g, lh);
      HeadReach(layout, |disk|, g, lh);
      ok := WriteHead();
      ghost var s2 := Snap(disk, g, images);
      AccessFrame(layout, |disk|, s1.g, g, lh);
      RoomFrame(s1.g, g, lh);
      InstallablePinned(layout, |disk|, g, lh);
      ghost var done: nat;
      ok, done := InstallTrans();
      ghost var s3 := Snap(disk, g, images);
      InstalledHeadAccess(layout, lh, s2, s3);
      lh := [];
      ok := WriteHead();
      CommitDone(layout, old(lh), s0, s1, s2, s3, Snap(disk, g, images), State(disk, bufs, lru, g));
    }

    /** log_write: record a modified buffer in the transaction and keep it cached.
        Panics when the log is full or no operation is outstanding. */
    method LogWrite(i: int) returns (ok: bool)
      requires LogValid(layout, State(disk, bufs, lru, g), lh) && Holds(State(disk, bufs, lru, g), i)
      requires !InLog(layout, bufs[i].blockno)
      modifies this`bufs, this`g, this`lh
      ensures ok <==> |old(lh)| < LOGSIZE && |old(lh)| < layout.size - 1 && outstanding >= 1
      ensures !ok ==> bufs == old(bufs) && g == old(g) && lh == old(lh)
      ensures ok ==>
        var b := old(bufs[i].blockno);
        && LogValid(layout, State(disk, bufs, lru, g), lh) && Holds(State(disk, bufs, lru, g), i)
        && lh == (if b in old(lh) then old(lh) else old(lh) + [b])
        && g == Published(old(State(disk, bufs, lru, g)), i).(pins := old(g.pins)[b := 1])
        && bufs == old(bufs)[i := old(bufs[i]).(refcnt := bufs[i].refcnt)]
    {
      if |lh| >= LOGSIZE || |lh| >= layout.size - 1 {
        return false;
      }
      if outstanding < 1 {
        return false;
      }
      var k := 0;
      while k < |lh| && lh[k] != bufs[i].blockno
        invariant 0 <= k <= |lh| && forall j | 0 <= j < k :: lh[j] != bufs[i].blockno
      {
        k := k + 1;
      }
      if k == |lh| {
        ghost var s := State(disk, bufs, lru, g);
        Bpin(i);
        LoggedOnce(layout, s, lh, i, bufs);
        lh := lh + [bufs[i].blockno];
      }
      assert g.pins == old(g.pins)[bufs[i].blockno := 1];
      PublishValid(layout, State(disk, bufs, lru, g), lh, i);
      g := Published(State(disk, bufs, lru, g), i);
      return true;
    }

    /** begin_op: admitted unless a commit is running or the log might overflow. */
    method BeginOp() returns (admitted: bool)
      modifies this`outstanding
      ensures admitted <==> !committing && |lh| + (old(outstanding) + 1) * MAXOPBLOCKS <= LOGSIZE
      ensures outstanding == if admitted then old(outstanding) + 1 else old(outstanding)
    {
      if committing || |lh| + (outstanding + 1) * MAXOPBLOCKS > LOGSIZE {
        return false;
      }
      outstanding := outstanding + 1;
      return true;
    }

    /** end_op under the log's lock: the last operation to finish is to commit.  Panics when a
        commit is running. */
    method EndOp() returns (doCommit: Option<bool>)
      modifies this`outstanding, this`committing
      ensures outstanding == old(outstanding) - 1
      ensures doCommit == if old(committing) then None else Some(outstanding == 0)
      ensures committing <==> old(committing) || outstanding == 0
    {
      outstanding := outstanding - 1;
      if committing {
        return None;
      }
      if outstanding == 0 {
        committing := true;
        return Some(true);
      }
      return Some(false);
    }

    /** end_op after its commit. */
    method EndCommit()
      modifies this`committing
      ensures !committing
    {
      committing := false;
    }
  }

  /** The tags are in range and the list is complete in every state of the cache. */
  lemma Shape(s: State)
    requires CacheInv(s)
    ensures Sizes(s) && Lru(s.lru) && forall i | 0 <= i < NBUF :: 0 <= s.bufs[i].blockno < |s.disk|
  {
    forall i | 0 <= i < NBUF ensures 0 <= s.bufs[i].blockno < |s.disk| {
      assert GoodBuf(s, i);
    }
  }

  /** No count that lost a reference is in use after the pins, holders and waiters changed so. */
  lemma StillSound(s0: State, s: State, b: int, diff: int)
    requires Sound(s0) && CacheInv(s) && |s.disk| == |s0.disk| && 0 <= b < |s.disk|
    requires s.g.held == s0.g.held && s.g.wait == s0.g.wait && s.g.pins == s0.g.pins[b := s0.g.pins[b] + diff]
    requires s0.g.pins[b] + diff >= 0 || !InUse(s0.g, b)
    ensures Sound(s)
  {
    assert GoodBlock(s0, b);
  }

  lemma HeldSound(s0: State, s: State, b: int)
    requires Sound(s0) && CacheInv(s) && |s.disk| == |s0.disk| && 0 <= b < |s.disk|
    requires s.g.held == s0.g.held[b := true] && s.g.wait == s0.g.wait && s.g.pins == s0.g.pins
    ensures s.g.pins[b] >= 0 ==> Sound(s)
  {
  }

  lemma InstalledRound(l: Layout, lh: seq<int>, k: nat, s0: State, im: seq<Disk>, s: State)
    requires Sound(s0) && CacheInv(s) && RoundAccess(l, |s0.disk|, s0.g, lh, k)
    requires s0.g.pins[lh[k]] == 1 || !InUse(s0.g, lh[k])
    requires s.disk == s0.disk[lh[k] := s0.disk[l.start + k + 1]]
    requires s.g == Pinned(s0.g, lh[k], -1).(view := s0.g.view[lh[k] := s0.disk[l.start + k + 1]], home := s.g.home)
    ensures Sound(s) && InstalledOne(l, lh, k, Snap(s0.disk, s0.g, im), Snap(s.disk, s.g, im + [s.disk]))
  {
    StillSound(s0, s, lh[k], -1);
  }

  lemma CachedRef(s: State, k: nat, b: int)
    requires Sizes(s) && Lru(s.lru) && k < NBUF && 0 <= b < |s.disk|
    requires s.bufs[s.lru[k]].blockno == b && forall j | 0 <= j < k :: s.bufs[s.lru[j]].blockno != b
    ensures FirstMatch(s, s.lru[k], b) && Caches(s.bufs, b)
    ensures var t := Put(s, s.lru[k], Referenced(s.bufs[s.lru[k]], b), RefAt(s.g, b, b, s.lru[k]));
            Sound(s) && s.g.wait[b] < NPROC ==> CacheInv(t) && t.g.home[b] == s.lru[k]
  {
    if Sound(s) && s.g.wait[b] < NPROC {
      RefCached(s, s.lru[k], b);
    }
  }

  lemma RecycledRef(s: State, i: int, b: int)
    requires Sizes(s) && 0 <= i < NBUF && 0 <= s.bufs[i].blockno < |s.disk| && 0 <= b < |s.disk|
    requires s.bufs[i].refcnt == 0 && !Caches(s.bufs, b)
    ensures var t := Put(s, i, Referenced(s.bufs[i], b), RefAt(s.g, s.bufs[i].blockno, b, i));
            Sound(s) ==> CacheInv(t) && t.g.home[b] == i
  {
    if Sound(s) {
      RefRecycled(s, i, b);
    }
  }

  /** A block in use is cached; for another one there must be room. */
  lemma SecondRoom(s: State, b: int)
    requires Sound(s) && 0 <= b < |s.disk|
    ensures InUse(s.g, b) ==> Caches(s.bufs, b)
    ensures !InUse(s.g, b) ==>
              ((!Caches(s.bufs, b) && forall i | 0 <= i < NBUF :: s.bufs[i].refcnt != 0) <==> !Room(s.g, []))
  {
    if InUse(s.g, b) {
      assert GoodBlock(s, b);
    } else {
      RoomForOne(s, b);
    }
  }

  lemma NotOnList(bufs: seq<Buf>, lru: seq<int>, blockno: int)
    requires |bufs| == NBUF && Lru(lru)
    requires forall j | 0 <= j < NBUF :: bufs[lru[j]].blockno != blockno
    ensures !Caches(bufs, blockno)
  {
    forall i | 0 <= i < NBUF ensures bufs[i].blockno != blockno {
      assert i in lru;
    }
  }
}
