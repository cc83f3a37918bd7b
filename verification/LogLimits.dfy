/** Where the log and the cache come to their limits: what recovery does to the reference
    counts, and how many blocks a commit or a recovery can take.  Each method is a run from
    power-on; None and false stand for a panic. */
module LogLimits {
  import opened LogDisk
  import opened Storage
  import opened LogLayer

  // ---- reference counts after a recovery ----

  lemma RecoveredRoom(l: Layout, d: Disk, g: Ghost)
    requires WellFormed(l, d) && GhostSizes(g, |d|) && |HeaderBlocks(d[l.start])| < NBUF
    requires forall b | 0 <= b < |d| :: g.pins[b] == -Bit(b in HeaderBlocks(d[l.start])) && !g.held[b] && g.wait[b] == 0
    ensures Room(g, [])
  {
    RoomIffFewer(g, HeaderBlocks(d[l.start]), []);
  }

  /** After the recovery of any disk, the buffer that a bread returns is locked and yet has a
      reference count of 0, as if it were unused, if and only if the block was recovered. */
  method BreadAfterBoot(d: Disk, l: Layout, b: int) returns (buf: Buf)
    requires WellFormed(l, d) && |HeaderBlocks(d[l.start])| < NBUF && 0 <= b < |d|
    ensures buf.locked && buf.blockno == b && buf.data == Recovered(l, d)[b]
    ensures buf.refcnt == 0 <==> b in HeaderBlocks(d[l.start])
  {
    var ld := new LoggedDisk(d, l);
    var ok := ld.RecoverFromLog();
    ghost var st := State(ld.disk, ld.bufs, ld.lru, ld.g);
    RecoveredRoom(l, d, ld.g);
    assert GoodBlock(st, b);
    SecondRoom(st, b);
    hide CacheInv, Sound, Room;
    var i := ld.Bread(b);
    buf := ld.bufs[i.value];
  }

  predicate Unused(b: Buf) { b.refcnt == 0 }

  function CountUnused(bufs: seq<Buf>): (n: nat) {
    if bufs == [] then 0 else CountUnused(bufs[..|bufs| - 1]) + (if Unused(bufs[|bufs| - 1]) then 1 else 0)
  }

  lemma {:induction false} OneLessUnused(bufs: seq<Buf>, i: int, b: Buf)
    requires 0 <= i < |bufs| && Unused(bufs[i]) && !Unused(b)
    ensures CountUnused(bufs[i := b]) == CountUnused(bufs) - 1
  {
    var n := |bufs| - 1;
    if i < n {
      OneLessUnused(bufs[..n], i, b);
      assert bufs[i := b][..n] == bufs[..n][i := b];
    } else {
      assert bufs[i := b][..n] == bufs[..n];
    }
  }

  /** A block that no buffer is tagged with. */
  method Uncached(bufs: seq<Buf>) returns (x: nat)
    ensures x <= |bufs| && !Caches(bufs, x)
  {
    x := 0;
    while exists i | 0 <= i < |bufs| :: bufs[i].blockno == x
      invariant x <= |bufs|
      invariant forall y: int | 0 <= y < x :: Caches(bufs, y)
      decreases |bufs| - x
    {
      assert Caches(bufs, x);
      if x == |bufs| {
        TagsFill(bufs, x);
      }
      x := x + 1;
    }
  }

  ghost function Below(n: nat): (r: set<int>)
    ensures |r| == n && forall y :: y in r <==> 0 <= y < n
  {
    if n == 0 then {} else Below(n - 1) + {n - 1}
  }

  /** As many buffers cannot carry more different tags. */
  lemma TagsFill(bufs: seq<Buf>, n: nat)
    requires forall y: int | 0 <= y <= n :: Caches(bufs, y)
    ensures n < |bufs|
  {
    var tags := seq(|bufs|, i requires 0 <= i < |bufs| => bufs[i].blockno);
    forall y | y in Below(n + 1) ensures y in tags {
      assert Caches(bufs, y);
      var i :| 0 <= i < |bufs| && bufs[i].blockno == y;
      assert tags[i] == y;
    }
    SetOfSeq(tags);
    SubsetSize(Below(n + 1), set y | y in tags);
  }

  /** On any disk big enough, for any recovered block b: a process reads b and holds it; other
      processes ask for blocks that are not cached; sooner or later bget re-tags the buffer
      that b's holder has locked. */
  method RecyclesLocked(d: Disk, l: Layout, b: int) returns (was: Buf, x: int, now: Buf)
    requires WellFormed(l, d) && |HeaderBlocks(d[l.start])| < NBUF < |d| && b in HeaderBlocks(d[l.start])
    ensures was.locked && was.valid && was.blockno == b && was.data == Recovered(l, d)[b]
    ensures x != b && now == was.(blockno := x, valid := false, refcnt := 1)
  {
    var ld := new LoggedDisk(d, l);
    var ok := ld.RecoverFromLog();
    ghost var st := State(ld.disk, ld.bufs, ld.lru, ld.g);
    assert GoodBlock(st, b) && Caches(ld.bufs, b);
    var i := ld.Bread(b);
    was := ld.bufs[i.value];
    Shape(State(ld.disk, ld.bufs, ld.lru, ld.g));
    hide CacheInv, Sound, Lru;
    while true
      invariant fresh(ld) && Sizes(State(ld.disk, ld.bufs, ld.lru, ld.g)) && Lru(ld.lru) && NBUF < |ld.disk|
      invariant forall j | 0 <= j < NBUF :: 0 <= ld.bufs[j].blockno < |ld.disk|
      invariant 0 <= i.value < NBUF && ld.bufs[i.value] == was
      decreases CountUnused(ld.bufs)
    {
      x := Uncached(ld.bufs);
      ghost var before := ld.bufs;
      var j := ld.Bget(x);
      if j.value == i.value {
        return was, x, ld.bufs[j.value];
      }
      OneLessUnused(before, j.value, ld.bufs[j.value]);
    }
  }

  // ---- how many blocks a commit can take ----

  /** Nobody holds or waits for a buffer. */
  ghost predicate Quiet(g: Ghost) {
    |g.held| == |g.wait| && forall b | 0 <= b < |g.held| :: !g.held[b] && g.wait[b] == 0
  }

  lemma LogFrame(l: Layout, st: State, t: State, lh: seq<int>)
    requires LogValid(l, st, lh) && CacheInv(t) && t.disk == st.disk && t.g.pins == st.g.pins
    ensures LogValid(l, t, lh)
  {
  }

  lemma QuietRoom(l: Layout, st: State, lh: seq<int>)
    requires LogValid(l, st, lh) && Quiet(st.g)
    ensures Sound(st) && Sizes(st) && LogAccess(l, |st.disk|, st.g, lh) && (Room(st.g, []) <==> |lh| < NBUF)
    ensures forall b | 0 <= b < |st.disk| :: st.g.pins[b] >= 0
  {
    RoomIffFewer(st.g, lh, []);
  }

  /** Read a block, log it and release it, with nobody else about. */
  method LogBlock(ld: LoggedDisk, b: int)
    requires LogValid(ld.layout, State(ld.disk, ld.bufs, ld.lru, ld.g), ld.lh) && Quiet(ld.g) && ld.outstanding >= 1
    requires |ld.lh| < LOGSIZE && |ld.lh| < ld.layout.size - 1 && 0 <= b < |ld.disk| && !InLog(ld.layout, b) && b !in ld.lh
    modifies ld`bufs, ld`lru, ld`g, ld`lh
    ensures LogValid(ld.layout, State(ld.disk, ld.bufs, ld.lru, ld.g), ld.lh) && Quiet(ld.g)
    ensures ld.lh == old(ld.lh) + [b]
  {
    hide CacheInv, Sound, LogValid, LogAccess, Room;
    ghost var st := State(ld.disk, ld.bufs, ld.lru, ld.g);
    QuietRoom(ld.layout, st, ld.lh);
    SecondRoom(st, b);
    var i := ld.Bread(b);
    LogFrame(ld.layout, st, State(ld.disk, ld.bufs, ld.lru, ld.g), ld.lh);
    var ok := ld.LogWrite(i.value);
    ghost var t := State(ld.disk, ld.bufs, ld.lru, ld.g);
    ld.Brelse(i.value);
    LogFrame(ld.layout, t, State(ld.disk, ld.bufs, ld.lru, ld.g), ld.lh);
  }

  /** Three operations log the blocks bs among them, then end; nobody else is about.  No
      log_write panics, and the commit finds its buffers if and only if they are fewer than NBUF. */
  method CommitAll(d: Disk, l: Layout, bs: seq<int>) returns (ok: bool)
    requires WellFormed(l, d) && HeaderBlocks(d[l.start]) == [] && GoodTargets(l, |d|, bs)
    ensures ok <==> |bs| < NBUF
  {
    var ld := new LoggedDisk(d, l);
    ok := ld.RecoverFromLog();
    for i := 0 to 3
      invariant ld.outstanding == i && ld.lh == [] && !ld.committing && fresh(ld) && ld.layout == l
      invariant ld.disk == Recovered(l, d) && LogValid(l, State(ld.disk, ld.bufs, ld.lru, ld.g), []) && Quiet(ld.g)
    {
      var admitted := ld.BeginOp();
    }
    hide LogValid;
    for i := 0 to |bs|
      invariant ld.outstanding == 3 && ld.lh == bs[..i] && !ld.committing && fresh(ld) && ld.layout == l
      invariant |ld.disk| == |d| && LogValid(l, State(ld.disk, ld.bufs, ld.lru, ld.g), ld.lh) && Quiet(ld.g)
    {
      LogBlock(ld, bs[i]);
    }
    for i := 0 to 3
      invariant ld.outstanding == 3 - i && ld.lh == bs && ld.committing == (i == 3) && fresh(ld) && ld.layout == l
      invariant LogValid(l, State(ld.disk, ld.bufs, ld.lru, ld.g), ld.lh) && Quiet(ld.g)
    {
      var doCommit := ld.EndOp();
    }
    QuietRoom(l, State(ld.disk, ld.bufs, ld.lru, ld.g), ld.lh);
    ok := ld.Commit();
  }

  /** A disk of n empty blocks. */
  function Blank(n: nat): Disk { seq(n, _ => Block(seq(WORDS, _ => 0))) }

  /** With the smallest log on which log_write never finds the log too big, thirty blocks
      that three operations are entitled to make the commit panic. */
  method FullCommitPanics() returns (ok: bool)
    ensures !ok
  {
    var l := Layout(2, LOGSIZE + 1);
    var bs := seq(LOGSIZE, i => 33 + i);
    ok := CommitAll(Blank(63), l, bs);
  }

  /** Recovery cannot take a header that lists as many. */
  method FullRecoveryPanics() returns (ok: bool)
    ensures !ok
  {
    var l := Layout(2, LOGSIZE + 1);
    var bs: seq<int> := seq(LOGSIZE, i => 33 + i);
    var d := WithHead(l, Blank(63), bs);
    var ld := new LoggedDisk(d, l);
    ok := ld.RecoverFromLog();
  }
}
