/** The state of the buffer cache above a disk, what it stands for, and how each
    elementary change of a buffer keeps that (kernel/bio.c). */
module Storage {
  import opened Basics
  import opened LogDisk

  const NBUF := MAXOPBLOCKS * 3
  const NPROC := 10
  const MAXPINS := 0x4000_0000     // far below where the counter would wrap

  /** refcnt is a 32-bit unsigned counter. */
  datatype Buf = Buf(valid: bool, blockno: int, refcnt: int, locked: bool, data: Block)

  /** What the cache stands for.  Of every block b:
      view[b]  its latest logged contents,
      pins[b]  how often it was pinned less how often it was unpinned,
      held[b]  whether some process holds its buffer locked,
      wait[b]  how many processes have a reference and wait for the lock,
      home[b]  the buffer that caches it, or -1;
      and of every buffer i:
      dirty[i] whether its holder has changed it and not logged it. */
  datatype Ghost = Ghost(view: Disk, pins: seq<int>, held: seq<bool>, wait: seq<int>, home: seq<int>, dirty: seq<bool>)

  datatype State = State(disk: Disk, bufs: seq<Buf>, lru: seq<int>, g: Ghost)

  function Inc(r: int): int { if r == UINT - 1 then 0 else r + 1 }
  function Dec(r: int): int { if r == 0 then UINT - 1 else r - 1 }

  function Bit(b: bool): int { if b then 1 else 0 }

  /** A reference count as the 32-bit counter shows it. */
  function Wrap(n: int): int { if n < 0 then n + UINT else n }

  /** Every buffer is on the MRU list exactly once. */
  ghost predicate Lru(lru: seq<int>) {
    && |lru| == NBUF
    && Distinct(lru)
    && (forall k | 0 <= k < NBUF :: 0 <= lru[k] < NBUF)
    && (forall i | 0 <= i < NBUF :: i in lru)
  }

  ghost predicate Caches(bufs: seq<Buf>, b: int) {
    exists i :: 0 <= i < |bufs| && bufs[i].blockno == b
  }

  ghost predicate GhostSizes(g: Ghost, n: nat) {
    |g.view| == |g.pins| == |g.held| == |g.wait| == |g.home| == n
  }

  ghost predicate Sizes(s: State) {
    |s.bufs| == |s.g.dirty| == NBUF && GhostSizes(s.g, |s.disk|) && 0 < |s.disk|
  }

  /** The references to block b: its holder, those who wait for it, and its pins. */
  ghost function Refs(g: Ghost, b: int): int
    requires GhostSizes(g, |g.view|) && 0 <= b < |g.view|
  {
    Bit(g.held[b]) + g.wait[b] + g.pins[b]
  }

  /** A buffer as binit leaves it: tagged with block 0, which it does not hold. */
  predicate Fresh(b: Buf) {
    b.blockno == 0 && !b.valid && b.refcnt == 0 && !b.locked
  }

  /** A buffer is the home of its block or as binit left it.  A locked buffer has been
      read; a clean valid one holds its block's current contents. */
  ghost predicate GoodBuf(s: State, i: int)
    requires Sizes(s) && 0 <= i < NBUF
  {
    var b := s.bufs[i];
    && 0 <= b.blockno < |s.disk|
    && (s.g.home[b.blockno] != i ==> Fresh(b))
    && (s.g.home[b.blockno] == i ==> b.locked == s.g.held[b.blockno] && b.refcnt == Wrap(Refs(s.g, b.blockno)))
    && (b.locked ==> b.valid)
    && (b.valid && !s.g.dirty[i] ==> b.data == s.g.view[b.blockno])
    && (s.g.dirty[i] ==> b.locked)
  }

  /** A block in use is cached; only a pinned block may differ from the disk. */
  ghost predicate GoodBlock(s: State, b: int)
    requires Sizes(s) && 0 <= b < |s.disk|
  {
    && -MAXPINS <= s.g.pins[b] <= MAXPINS && 0 <= s.g.wait[b] <= NPROC
    && (s.g.home[b] == -1 ==> !InUse(s.g, b))
    && (s.g.home[b] != -1 ==> 0 <= s.g.home[b] < NBUF && s.bufs[s.g.home[b]].blockno == b)
    && (s.g.pins[b] > 0 ==> s.bufs[s.g.home[b]].valid)
    && (s.g.pins[b] <= 0 ==> s.g.view[b] == s.disk[b])
  }

  ghost predicate InUse(g: Ghost, b: int)
    requires GhostSizes(g, |g.view|) && 0 <= b < |g.view|
  {
    g.pins[b] != 0 || g.held[b] || g.wait[b] > 0
  }

  /** Of all the buffers tagged with block 0, the one in use comes first on the list. */
  ghost predicate ZeroFirst(s: State)
    requires Sizes(s) && Lru(s.lru)
  {
    forall j, k | 0 <= j < k < NBUF && s.lru[k] == s.g.home[0] :: s.bufs[s.lru[j]].blockno != 0
  }

  /** The cache invariant. */
  ghost predicate CacheInv(s: State) {
    && Sizes(s)
    && Lru(s.lru) && ZeroFirst(s)
    && (forall i | 0 <= i < NBUF :: GoodBuf(s, i))
    && (forall b | 0 <= b < |s.disk| :: GoodBlock(s, b))
  }

  /** No process uses a buffer whose count has lost a reference. */
  ghost predicate Sound(s: State) {
    CacheInv(s) && forall b | 0 <= b < |s.disk| && s.g.pins[b] < 0 :: !s.g.held[b] && s.g.wait[b] == 0
  }

  /** The state of a machine just powered on over disk d. */
  ghost function Boot(d: Disk): Ghost {
    Ghost(d, seq(|d|, _ => 0), seq(|d|, _ => false), seq(|d|, _ => 0), seq(|d|, _ => -1), seq(NBUF, _ => false))
  }

  lemma BootState(s: State)
    requires |s.disk| > 0 && s.g == Boot(s.disk) && |s.bufs| == NBUF && Lru(s.lru)
    requires forall i | 0 <= i < NBUF :: Fresh(s.bufs[i])
    ensures Sound(s)
  {
    assert forall i | 0 <= i < NBUF :: GoodBuf(s, i);
    assert forall b | 0 <= b < |s.disk| :: GoodBlock(s, b);
  }

  // ---- a spare buffer exists exactly while fewer than NBUF blocks are in use ----

  /** Blocks whose buffers cannot be recycled. */
  ghost function Busy(g: Ghost): set<int>
    requires GhostSizes(g, |g.view|)
  {
    set b | 0 <= b < |g.view| && InUse(g, b)
  }

  /** Even with the blocks `more` in use a buffer is left over. */
  ghost predicate Room(g: Ghost, more: seq<int>) {
    GhostSizes(g, |g.view|) && |Busy(g) + (set b | b in more)| < NBUF
  }

  lemma {:induction false} InjectionBound(tags: seq<int>, s: set<int>)
    requires Distinct(tags) && forall i | 0 <= i < |tags| :: tags[i] in s
    ensures |tags| <= |s|
  {
    if tags != [] {
      var rest, last := tags[..|tags| - 1], tags[|tags| - 1];
      InjectionBound(rest, s - {last});
    }
  }

  lemma SubsetSize(a: set<int>, b: set<int>)
    requires a <= b
    ensures |a| <= |b|
  {
    assert b == a + (b - a);
  }

  /** If every buffer is referenced, the buffers carry NBUF different busy blocks. */
  lemma AllReferenced(s: State, tags: seq<int>)
    requires CacheInv(s)
    requires |tags| == NBUF && forall i | 0 <= i < NBUF :: s.bufs[i].refcnt != 0 && tags[i] == s.bufs[i].blockno
    ensures Distinct(tags) && forall i | 0 <= i < NBUF :: tags[i] in Busy(s.g)
  {
    forall i | 0 <= i < NBUF ensures tags[i] in Busy(s.g) && s.g.home[tags[i]] == i {
      assert GoodBuf(s, i) && GoodBlock(s, tags[i]);
    }
  }

  lemma SpareBuffer(s: State)
    requires CacheInv(s) && |Busy(s.g)| < NBUF
    ensures exists i :: 0 <= i < NBUF && s.bufs[i].refcnt == 0
  {
    if forall i | 0 <= i < NBUF :: s.bufs[i].refcnt != 0 {
      var tags := seq(NBUF, i requires 0 <= i < NBUF => s.bufs[i].blockno);
      AllReferenced(s, tags);
      InjectionBound(tags, Busy(s.g));
    }
  }

  lemma {:induction false} SetOfSeq(s: seq<int>)
    ensures |set b | b in s| <= |s|
  {
    if s != [] {
      var rest := s[..|s| - 1];
      SetOfSeq(rest);
      assert (set b | b in s) == (set b | b in rest) + {s[|s| - 1]};
    }
  }

  /** When NBUF blocks are in use every buffer is referenced and nothing else is cached. */
  lemma FullCache(s: State, i: int)
    requires Sound(s) && |Busy(s.g)| >= NBUF && 0 <= i < NBUF
    ensures s.bufs[i].refcnt != 0 && s.bufs[i].blockno in Busy(s.g)
  {
    var c := s.bufs[i].blockno;
    assert GoodBuf(s, i);
    if !(s.g.home[c] == i && InUse(s.g, c)) {
      var tags := seq(NBUF - 1, j requires 0 <= j < NBUF - 1 => s.bufs[if j < i then j else j + 1].blockno);
      forall b | b in Busy(s.g) ensures b in tags {
        assert GoodBlock(s, b);
        var h := s.g.home[b];
        assert tags[if h < i then h else h - 1] == b;
      }
      SetOfSeq(tags);
      SubsetSize(Busy(s.g), set b | b in tags);
    }
    assert GoodBlock(s, c);
  }

  /** bget finds a buffer for a block nobody uses if and only if fewer than NBUF blocks are in use. */
  lemma RoomForOne(s: State, b: int)
    requires Sound(s) && 0 <= b < |s.disk| && !InUse(s.g, b)
    ensures (!Caches(s.bufs, b) && forall i | 0 <= i < NBUF :: s.bufs[i].refcnt != 0) <==> !Room(s.g, [])
  {
    assert Busy(s.g) + (set x | x in []) == Busy(s.g);
    if Room(s.g, []) {
      SpareBuffer(s);
    } else {
      forall i | 0 <= i < NBUF ensures s.bufs[i].refcnt != 0 && s.bufs[i].blockno != b {
        FullCache(s, i);
      }
    }
  }

  /** Room for two: with the first of two blocks taken, there is a buffer for the second
      if and only if there was room for one more block beside the second. */
  lemma RoomForSecond(g: Ghost, h: Ghost, a: int, b: int)
    requires GhostSizes(g, |g.view|) && 0 <= a < |g.view| && 0 <= b < |g.view| && a != b && !InUse(g, a)
    requires h == HeldAt(g, a).(home := h.home) && |h.home| == |g.home|
    ensures Room(g, [b]) ==> Room(g, [])
    ensures if InUse(g, b) then Room(g, [b]) == Room(g, []) else Room(g, [b]) == Room(h, [])
  {
    RoomCount(g, [], Busy(g));
    RoomCount(h, [], Busy(g) + {a});
    RoomCount(g, [b], Busy(g) + {b});
    assert a !in Busy(g) && (b in Busy(g) <==> InUse(g, b));
    SubsetSize(Busy(g), Busy(g) + {b});
  }

  lemma RoomCount(g: Ghost, more: seq<int>, busy: set<int>)
    requires GhostSizes(g, |g.view|)
    requires forall b :: b in busy <==> (0 <= b < |g.view| && InUse(g, b)) || b in more
    ensures Room(g, more) <==> |busy| < NBUF
  {
    var both := Busy(g) + (set b | b in more);
    assert forall b :: b in both <==> b in busy;
    assert both == busy;
  }

  // ---- the elementary changes of a buffer ----

  function Referenced(b: Buf, blockno: int): Buf {
    if b.blockno == blockno then b.(refcnt := Inc(b.refcnt)) else b.(blockno := blockno, valid := false, refcnt := 1)
  }
  function Locked(b: Buf, disk: Disk): Buf
    requires 0 <= b.blockno < |disk|
  {
    b.(locked := true, valid := true, data := if b.valid then b.data else disk[b.blockno])
  }
  function Drop(b: Buf): Buf { b.(refcnt := Dec(b.refcnt), locked := false) }

  ghost function Put(s: State, i: int, b: Buf, g: Ghost): State
    requires 0 <= i < |s.bufs|
  {
    s.(bufs := s.bufs[i := b], g := g)
  }

  ghost predicate Has(s: State, i: int) {
    Sizes(s) && 0 <= i < NBUF && 0 <= s.bufs[i].blockno < |s.disk|
  }

  ghost predicate Holds(s: State, i: int) {
    CacheInv(s) && Has(s, i) && s.bufs[i].locked && s.bufs[i].valid && s.g.home[s.bufs[i].blockno] == i
  }

  lemma HasBuf(s: State, i: int)
    requires CacheInv(s) && 0 <= i < NBUF
    ensures Has(s, i) && (s.bufs[i].locked ==> Holds(s, i))
  {
    assert GoodBuf(s, i);
  }

  /** Where blocks are cached once buffer i moves from one block to another. */
  ghost function Moved(home: seq<int>, from: int, to: int, i: int): seq<int>
    requires 0 <= from < |home| && 0 <= to < |home|
  {
    if home[from] == i then home[from := -1][to := i] else home[to := i]
  }

  /** Buffer i, so far tagged `from`, gets a reference for block b. */
  ghost function RefAt(g: Ghost, from: int, b: int, i: int): Ghost
    requires GhostSizes(g, |g.view|) && 0 <= from < |g.view| && 0 <= b < |g.view|
  {
    g.(wait := g.wait[b := g.wait[b] + 1], home := Moved(g.home, from, b, i))
  }

  /** One who waited for block b holds it. */
  ghost function LockAt(g: Ghost, b: int): Ghost
    requires GhostSizes(g, |g.view|) && 0 <= b < |g.view|
  {
    g.(held := g.held[b := true], wait := g.wait[b := g.wait[b] - 1])
  }

  ghost function HeldAt(g: Ghost, b: int): Ghost
    requires 0 <= b < |g.held|
  {
    g.(held := g.held[b := true])
  }

  ghost function FreedAt(g: Ghost, b: int): Ghost
    requires 0 <= b < |g.held|
  {
    g.(held := g.held[b := false])
  }

  /** The first buffer on the list with block b's tag is its home, if it has one. */
  ghost predicate FirstMatch(s: State, i: int, b: int)
    requires |s.bufs| == NBUF && Lru(s.lru)
  {
    exists k :: 0 <= k < NBUF && s.lru[k] == i && s.bufs[i].blockno == b && forall j | 0 <= j < k :: s.bufs[s.lru[j]].blockno != b
  }

  lemma FirstIsHome(s: State, i: int, b: int)
    requires CacheInv(s) && FirstMatch(s, i, b) && 0 <= b < |s.disk|
    ensures Has(s, i) && (s.g.home[b] == i || (s.g.home[b] == -1 && b == 0 && Fresh(s.bufs[i])))
  {
    assert GoodBuf(s, i) && GoodBlock(s, b);
    assert s.g.home[b] == -1 || s.g.home[b] in s.lru;
  }

  /** Taking a reference to a cached block keeps the invariant. */
  lemma RefCached(s: State, i: int, b: int)
    requires CacheInv(s) && FirstMatch(s, i, b) && 0 <= b < |s.disk| && s.g.wait[b] < NPROC
    ensures CacheInv(Put(s, i, Referenced(s.bufs[i], b), RefAt(s.g, b, b, i)))
  {
    FirstIsHome(s, i, b);
    var t := Put(s, i, Referenced(s.bufs[i], b), RefAt(s.g, b, b, i));
    assert GoodBuf(s, i) && GoodBlock(s, b);
    forall j | 0 <= j < NBUF ensures GoodBuf(t, j) { assert GoodBuf(s, j); }
    forall c | 0 <= c < |s.disk| ensures GoodBlock(t, c) { assert GoodBlock(s, c); }
    assert ZeroFirst(t) by {
      var k :| 0 <= k < NBUF && s.lru[k] == i && forall j | 0 <= j < k :: s.bufs[s.lru[j]].blockno != b;
    }
  }

  /** Recycling an unreferenced buffer loses nothing. */
  lemma RefRecycled(s: State, i: int, b: int)
    requires Sound(s) && Has(s, i) && s.bufs[i].refcnt == 0 && !Caches(s.bufs, b) && 0 <= b < |s.disk|
    ensures CacheInv(Put(s, i, Referenced(s.bufs[i], b), RefAt(s.g, s.bufs[i].blockno, b, i)))
  {
    var c := s.bufs[i].blockno;
    var t := Put(s, i, Referenced(s.bufs[i], b), RefAt(s.g, c, b, i));
    assert GoodBuf(s, i) && GoodBlock(s, c) && GoodBlock(s, b);
    assert s.g.home[b] == -1;
    assert s.g.home[c] == i ==> !InUse(s.g, c);
    forall j | 0 <= j < NBUF ensures GoodBuf(t, j) { assert GoodBuf(s, j); }
    forall d | 0 <= d < |s.disk| ensures GoodBlock(t, d) { assert GoodBlock(s, d); }
    assert ZeroFirst(t);
  }

  /** Once one who waits has the lock and the block is read, the buffer shows its latest contents. */
  lemma LockKeeps(s: State, i: int)
    requires CacheInv(s) && Has(s, i) && s.g.home[s.bufs[i].blockno] == i
    requires !s.g.held[s.bufs[i].blockno] && s.g.wait[s.bufs[i].blockno] > 0
    ensures !s.g.dirty[i] && Locked(s.bufs[i], s.disk).data == s.g.view[s.bufs[i].blockno]
    ensures CacheInv(Put(s, i, Locked(s.bufs[i], s.disk), LockAt(s.g, s.bufs[i].blockno)))
  {
    var b := s.bufs[i].blockno;
    var t := Put(s, i, Locked(s.bufs[i], s.disk), LockAt(s.g, b));
    assert GoodBuf(s, i) && GoodBlock(s, b);
    forall j | 0 <= j < NBUF ensures GoodBuf(t, j) { assert GoodBuf(s, j); }
    forall c | 0 <= c < |s.disk| ensures GoodBlock(t, c) { assert GoodBlock(s, c); }
  }

  lemma ModifyKeeps(s: State, i: int, data: Block)
    requires Holds(s, i)
    ensures CacheInv(Put(s, i, s.bufs[i].(data := data), s.g.(dirty := s.g.dirty[i := true])))
  {
    var t := Put(s, i, s.bufs[i].(data := data), s.g.(dirty := s.g.dirty[i := true]));
    forall j | 0 <= j < NBUF ensures GoodBuf(t, j) { assert GoodBuf(s, j); }
    forall c | 0 <= c < |s.disk| ensures GoodBlock(t, c) { assert GoodBlock(s, c); }
  }

  /** The ghost state once buffer i's data are its block's current contents. */
  ghost function Published(s: State, i: int): Ghost
    requires Has(s, i)
  {
    s.g.(view := s.g.view[s.bufs[i].blockno := s.bufs[i].data], dirty := s.g.dirty[i := false])
  }

  /** A held buffer's data become current, on disk too unless the block is pinned. */
  lemma PublishKeeps(s: State, i: int, disk: Disk)
    requires Holds(s, i)
    requires disk == s.disk[s.bufs[i].blockno := s.bufs[i].data] || (disk == s.disk && s.g.pins[s.bufs[i].blockno] > 0)
    ensures CacheInv(s.(disk := disk, g := Published(s, i)))
  {
    var t := s.(disk := disk, g := Published(s, i));
    assert GoodBuf(s, i);
    forall j | 0 <= j < NBUF ensures GoodBuf(t, j) { assert GoodBuf(s, j); }
    forall c | 0 <= c < |s.disk| ensures GoodBlock(t, c) { assert GoodBlock(s, c); }
  }

  /** One pin more or, with diff == -1, one less. */
  ghost function Pinned(g: Ghost, b: int, diff: int): Ghost
    requires 0 <= b < |g.pins|
  {
    g.(pins := g.pins[b := g.pins[b] + diff])
  }

  lemma PinKeeps(s: State, i: int)
    requires Holds(s, i) && s.g.pins[s.bufs[i].blockno] < MAXPINS
    ensures CacheInv(Put(s, i, s.bufs[i].(refcnt := Inc(s.bufs[i].refcnt)), Pinned(s.g, s.bufs[i].blockno, 1)))
  {
    var t := Put(s, i, s.bufs[i].(refcnt := Inc(s.bufs[i].refcnt)), Pinned(s.g, s.bufs[i].blockno, 1));
    assert GoodBuf(s, i) && GoodBlock(s, s.bufs[i].blockno);
    forall j | 0 <= j < NBUF ensures GoodBuf(t, j) { assert GoodBuf(s, j); }
    forall c | 0 <= c < |s.disk| ensures GoodBlock(t, c) { assert GoodBlock(s, c); }
  }

  /** bunpin undoes a pin, or loses a reference of a block that was never pinned. */
  lemma UnpinKeeps(s: State, i: int)
    requires Holds(s, i) && -MAXPINS < s.g.pins[s.bufs[i].blockno]
    requires s.g.view[s.bufs[i].blockno] == s.disk[s.bufs[i].blockno]
    ensures CacheInv(Put(s, i, s.bufs[i].(refcnt := Dec(s.bufs[i].refcnt)), Pinned(s.g, s.bufs[i].blockno, -1)))
  {
    var t := Put(s, i, s.bufs[i].(refcnt := Dec(s.bufs[i].refcnt)), Pinned(s.g, s.bufs[i].blockno, -1));
    assert GoodBuf(s, i) && GoodBlock(s, s.bufs[i].blockno);
    forall j | 0 <= j < NBUF ensures GoodBuf(t, j) { assert GoodBuf(s, j); }
    forall c | 0 <= c < |s.disk| ensures GoodBlock(t, c) { assert GoodBlock(s, c); }
  }

  lemma DropKeeps(s: State, i: int)
    requires Holds(s, i) && !s.g.dirty[i]
    ensures CacheInv(Put(s, i, Drop(s.bufs[i]), FreedAt(s.g, s.bufs[i].blockno)))
  {
    var t := Put(s, i, Drop(s.bufs[i]), FreedAt(s.g, s.bufs[i].blockno));
    assert GoodBuf(s, i) && GoodBlock(s, s.bufs[i].blockno);
    forall j | 0 <= j < NBUF ensures GoodBuf(t, j) { assert GoodBuf(s, j); }
    forall c | 0 <= c < |s.disk| ensures GoodBlock(t, c) { assert GoodBlock(s, c); }
  }

  function MoveToFront(lru: seq<int>, k: nat): (r: seq<int>)
    requires k < |lru|
  {
    [lru[k]] + lru[..k] + lru[k + 1..]
  }

  lemma MovedList(lru: seq<int>, k: nat)
    requires Lru(lru) && k < NBUF
    ensures Lru(MoveToFront(lru, k)) && MoveToFront(lru, k)[0] == lru[k]
    ensures forall j | 1 <= j < NBUF :: MoveToFront(lru, k)[j] == lru[if j <= k then j - 1 else j]
  {
    var r := MoveToFront(lru, k);
    forall i | 0 <= i < NBUF ensures i in r {
      assert i in lru;
      var j :| 0 <= j < NBUF && lru[j] == i;
      assert r[if j == k then 0 else if j < k then j + 1 else j] == i;
    }
  }

  lemma MoveToFrontKeeps(s: State, k: nat)
    requires CacheInv(s) && k < NBUF && Has(s, s.lru[k]) && s.g.home[s.bufs[s.lru[k]].blockno] == s.lru[k]
    ensures CacheInv(s.(lru := MoveToFront(s.lru, k)))
  {
    MovedList(s.lru, k);
    hide MoveToFront;
    var t := s.(lru := MoveToFront(s.lru, k));
    forall j | 0 <= j < NBUF ensures GoodBuf(t, j) { assert GoodBuf(s, j); }
    forall c | 0 <= c < |s.disk| ensures GoodBlock(t, c) { assert GoodBlock(s, c); }
    assert ZeroFirst(t);
  }
}
