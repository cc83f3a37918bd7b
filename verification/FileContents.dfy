/** readi, writei and itrunc (kernel/fs.c) and filewrite's chunks (kernel/file.c) against
    files as byte sequences. */
module FileContents {
  import opened Basics
  import opened Inodes
  import opened FileSystem

  function Min(a: int, b: int): int {
    if a < b then a else b
  }

  /** The bytes of a block with those from position a on replaced. */
  function Overlay(b: seq<int>, a: int, chunk: seq<int>): (r: seq<int>)
    requires 0 <= a && a + |chunk| <= |b|
    ensures |r| == |b|
    ensures forall i | 0 <= i < |b| :: r[i] == if a <= i < a + |chunk| then chunk[i - a] else b[i]
  {
    b[..a] + chunk + b[a + |chunk|..]
  }

  /** A file with the bytes from off on replaced, longer if need be. */
  function Splice(c: seq<int>, off: int, data: seq<int>): (r: seq<int>)
    requires 0 <= off <= |c|
    ensures |r| == if off + |data| > |c| then off + |data| else |c|
    ensures forall i | 0 <= i < |r| :: r[i] == if off <= i < off + |data| then data[i - off] else c[i]
  {
    c[..off] + data + if off + |data| < |c| then c[off + |data|..] else []
  }

  /** The first tot bytes of data are in f from off on; every other byte is as it was. */
  ghost predicate Written(s0: State, s: State, f: int, off: int, tot: int, data: seq<int>) {
    && 0 <= tot <= |data| && SameSizes(s0, s)
    && (forall i | off <= i < off + tot :: HasByte(s, f, i))
    && (forall i | off <= i < off + tot :: ByteAt(s, f, i) == data[i - off])
    && (forall g, i | HasByte(s0, g, i) && !(g == f && off <= i < off + tot) ::
          HasByte(s, g, i) && ByteAt(s, g, i) == ByteAt(s0, g, i))
  }

  lemma WrittenStart(s: State, f: int, off: int, data: seq<int>)
    ensures Written(s, s, f, off, 0, data)
  {}

  /** One round: bmap gave the block of offset off + tot, and m bytes go into it. */
  lemma WrittenStep(s0: State, s: State, s1: State, f: int, off: int, tot: int, m: int, data: seq<int>)
    requires Written(s0, s, f, off, tot, data) && SameBytes(s, s1, -1) && SameSizes(s, s1) && Inv(s1)
    requires 0 <= off && 0 < m && tot + m <= |data| && off + tot + m <= MAXFILE * BSIZE
    requires (off + tot) % BSIZE + m <= BSIZE
    requires IsSlot(s1, f, SlotOf((off + tot) / BSIZE)) && Entry(s1, f, SlotOf((off + tot) / BSIZE)) != 0
    ensures
      var b := Entry(s1, f, SlotOf((off + tot) / BSIZE));
      && 0 < b < |s1.blk| && |s1.blk[b]| == BSIZE
      && (var s2 := Stored(s1, b, Overlay(s1.blk[b], (off + tot) % BSIZE, data[tot..tot + m]));
          Inv(s2) && Written(s0, s2, f, off, tot + m, data) && SameSizes(s1, s2) && s2.ino == s1.ino)
  {
    var o := off + tot;
    var bn := o / BSIZE;
    var b := Entry(s1, f, SlotOf(bn));
    InvMaps(s1);
    assert SlotOk(s1, f, SlotOf(bn));
    var page := Overlay(s1.blk[b], o % BSIZE, data[tot..tot + m]);
    StoreKeeps(s1, f, bn, page);
    var s2 := Stored(s1, b, page);
    StoreNoHoles(s1, s2);
    WrittenChunk(s1, s2, f, o, m, page, data[tot..tot + m]);
    WrittenJoin(s0, s, s1, s2, f, off, tot, m, data);
  }

  lemma WrittenJoin(s0: State, s: State, s1: State, s2: State, f: int, off: int, tot: int, m: int, data: seq<int>)
    requires Written(s0, s, f, off, tot, data) && SameBytes(s, s1, -1) && SameSizes(s, s1) && SameSizes(s1, s2)
    requires 0 <= off && 0 < m && tot + m <= |data|
    requires forall i | off + tot <= i < off + tot + m :: HasByte(s2, f, i) && ByteAt(s2, f, i) == data[tot..tot + m][i - (off + tot)]
    requires forall g, i | HasByte(s1, g, i) && !(g == f && off + tot <= i < off + tot + m) ::
      HasByte(s2, g, i) && ByteAt(s2, g, i) == ByteAt(s1, g, i)
    ensures Written(s0, s2, f, off, tot + m, data)
  {
    hide HasByte, ByteAt;
    var o, n := off + tot, tot + m;
    forall i | off <= i < off + n ensures HasByte(s2, f, i) && ByteAt(s2, f, i) == data[i - off] {
      if i < o {
        NoByteMinus(s, s1, f, i);
      } else {
        assert data[tot..n][i - o] == data[i - off];
      }
    }
    forall g, i | HasByte(s0, g, i) && !(g == f && off <= i < off + n)
      ensures HasByte(s2, g, i) && ByteAt(s2, g, i) == ByteAt(s0, g, i)
    {
      NoByteMinus(s, s1, g, i);
    }
  }

  lemma NoByteMinus(s: State, s1: State, g: int, i: int)
    requires SameBytes(s, s1, -1) && HasByte(s, g, i)
    ensures HasByte(s1, g, i) && ByteAt(s1, g, i) == ByteAt(s, g, i)
  {}

  /** The bytes of one block write. */
  lemma WrittenChunk(s1: State, s2: State, f: int, o: int, m: int, page: seq<int>, chunk: seq<int>)
    requires Inv(s1) && 0 <= o && 0 < m == |chunk| && o % BSIZE + m <= BSIZE && o / BSIZE < MAXFILE
    requires IsSlot(s1, f, SlotOf(o / BSIZE)) && Entry(s1, f, SlotOf(o / BSIZE)) != 0
    requires 0 < Entry(s1, f, SlotOf(o / BSIZE)) < |s1.blk| && |s1.blk[Entry(s1, f, SlotOf(o / BSIZE))]| == BSIZE
    requires page == Overlay(s1.blk[Entry(s1, f, SlotOf(o / BSIZE))], o % BSIZE, chunk)
    requires forall g, i | HasByte(s1, g, i) ::
      HasByte(s2, g, i) && ByteAt(s2, g, i) == if g == f && i / BSIZE == o / BSIZE then page[i % BSIZE] else ByteAt(s1, g, i)
    ensures forall i | o <= i < o + m :: HasByte(s2, f, i) && ByteAt(s2, f, i) == chunk[i - o]
    ensures forall g, i | HasByte(s1, g, i) && !(g == f && o <= i < o + m) ::
      HasByte(s2, g, i) && ByteAt(s2, g, i) == ByteAt(s1, g, i)
  {
    InvMaps(s1);
    forall i | o <= i < o + m ensures HasByte(s2, f, i) && ByteAt(s2, f, i) == chunk[i - o] {
      assert i / BSIZE == o / BSIZE && i % BSIZE == o % BSIZE + (i - o);
      assert HasByte(s1, f, i);
    }
    forall g, i | HasByte(s1, g, i) && !(g == f && o <= i < o + m)
      ensures HasByte(s2, g, i) && ByteAt(s2, g, i) == ByteAt(s1, g, i)
    {
      if g == f && i / BSIZE == o / BSIZE {
        ByteBlock(s1, f, i);
        assert i - o == i % BSIZE - o % BSIZE;
      }
    }
  }

  /** Growing the size over written bytes makes no hole. */
  lemma Grown(s0: State, s: State, f: int, off: int, data: seq<int>, size: int)
    requires Inv(s0) && Inv(s) && Written(s0, s, f, off, |data|, data) && 0 <= f < |s.ino|
    requires 0 <= off <= s0.ino[f].size && off + |data| <= MAXFILE * BSIZE
    requires size == if off + |data| > s.ino[f].size then off + |data| else s.ino[f].size
    ensures
      var s1 := s.(ino := s.ino[f := s.ino[f].(size := size)]);
      && Inv(s1) && Written(s0, s, f, off, |data|, data)
      && Contents(s1, f) == Splice(Contents(s0, f), off, data)
      && (forall g | 0 <= g < |s.ino| && g != f :: s1.ino[g].size == s0.ino[g].size && Contents(s1, g) == Contents(s0, g))
  {
    var s1 := s.(ino := s.ino[f := s.ino[f].(size := size)]);
    InvMaps(s);
    SameSlots(s, s1);
    assert NoHoles(s0, f) && NoHoles(s, f);
    forall g | 0 <= g < |s1.ino| ensures NoHoles(s1, g) {
      assert NoHoles(s, g);
      forall bn | 0 <= bn < MAXFILE && bn * BSIZE < s1.ino[g].size ensures Entry(s1, g, SlotOf(bn)) != 0 {
        assert IsSlot(s, g, SlotOf(bn));
        if g == f && bn * BSIZE >= s.ino[f].size {
          assert HasByte(s, f, bn * BSIZE);
        }
      }
    }
    GrownBytes(s0, s, s1, f, off, data);
  }

  /** Changing sizes changes no slot. */
  lemma SameSlots(s: State, s1: State)
    requires Maps(s) && s1.blk == s.blk && s1.used == s.used && s1.owner == s.owner && |s1.ino| == |s.ino|
    requires forall g | 0 <= g < |s.ino| :: s1.ino[g].addrs == s.ino[g].addrs
    ensures Maps(s1)
    ensures forall g, j | IsSlot(s, g, j) :: IsSlot(s1, g, j) && Entry(s1, g, j) == Entry(s, g, j)
    ensures forall g, i :: ByteAt(s1, g, i) == ByteAt(s, g, i)
  {
    forall g, j | IsSlot(s1, g, j) ensures SlotOk(s1, g, j) {
      assert IsSlot(s, g, j) && SlotOk(s, g, j);
    }
    forall c | 0 <= c < |s1.owner| ensures BlockOk(s1, c) {
      assert BlockOk(s, c);
    }
  }

  lemma Mapped(s: State, g: int, i: int)
    requires Inv(s) && 0 <= g < |s.ino| && 0 <= i < s.ino[g].size
    ensures HasByte(s, g, i)
  {
    assert NoHoles(s, g);
    assert Entry(s, g, SlotOf(i / BSIZE)) != 0;
  }

  lemma GrownBytes(s0: State, s: State, s1: State, f: int, off: int, data: seq<int>)
    requires Inv(s0) && Inv(s1) && Written(s0, s, f, off, |data|, data) && 0 <= f < |s.ino| == |s1.ino|
    requires 0 <= off <= s0.ino[f].size
    requires forall g | 0 <= g < |s.ino| && g != f :: s1.ino[g].size == s0.ino[g].size
    requires s1.ino[f].size == if off + |data| > s0.ino[f].size then off + |data| else s0.ino[f].size
    requires forall g, i :: ByteAt(s1, g, i) == ByteAt(s, g, i)
    ensures Contents(s1, f) == Splice(Contents(s0, f), off, data)
    ensures forall g | 0 <= g < |s.ino| && g != f :: Contents(s1, g) == Contents(s0, g)
  {
    forall g | 0 <= g < |s.ino| ensures 0 <= s0.ino[g].size {
      assert NoHoles(s0, g);
    }
    forall i | 0 <= i < s1.ino[f].size
      ensures Contents(s1, f)[i] == Splice(Contents(s0, f), off, data)[i]
    {
      if !(off <= i < off + |data|) { Mapped(s0, f, i); }
    }
    forall g | 0 <= g < |s.ino| && g != f ensures Contents(s1, g) == Contents(s0, g) {
      forall i | 0 <= i < s0.ino[g].size ensures ByteAt(s1, g, i) == ByteAt(s0, g, i) {
        Mapped(s0, g, i);
      }
    }
  }

  // ---- what a write logs ----

  /** Blocks logged by the rounds that have written tot bytes from off on, beside those
      for the indirect block: two for each new data block, one for the first block of an
      unaligned write, which is never new. */
  function Spent(off: int, tot: int): int {
    if tot == 0 then 0
    else 2 * ((off + tot - 1) / BSIZE - off / BSIZE + 1) - if off % BSIZE != 0 then 1 else 0
  }

  /** All blocks a write of n bytes at off may log: with the indirect block, its bitmap
      block and the inode. */
  function LogBound(off: int, n: int): int {
    if n == 0 then 0 else Spent(off, n) + 3
  }

  /** filewrite's chunk size: ((MAXOPBLOCKS - 1 - 1 - 2) / 2) * BSIZE. */
  const CHUNK := (MAXOPBLOCKS - 1 - 1 - 2) / 2 * BSIZE

  /** Every chunk fits one operation's reservation in the log. */
  lemma ChunkFits(off: int, n: int)
    requires 0 <= off && 0 <= n <= CHUNK
    ensures LogBound(off, n) <= MAXOPBLOCKS
  {
    if n > 0 {
      var k := off % BSIZE;
      assert off + n - 1 == BSIZE * (off / BSIZE) + (k + n - 1);
      assert k == 0 ==> (off + n - 1) / BSIZE <= off / BSIZE + 2;
      assert (off + n - 1) / BSIZE <= off / BSIZE + 3;
    }
  }

  /** One round costs two blocks, or one when the block was there, as it is at the start
      of an unaligned write. */
  lemma SpentStep(off: int, tot: int, m: int)
    requires 0 <= off && 0 <= tot && 0 < m <= BSIZE - (off + tot) % BSIZE
    requires tot > 0 ==> (off + tot) % BSIZE == 0
    ensures Spent(off, tot + m) == Spent(off, tot) + if tot == 0 && off % BSIZE != 0 then 1 else 2
  {
    assert (off + tot + m - 1) / BSIZE == (off + tot) / BSIZE;
    if tot > 0 { assert (off + tot) / BSIZE == (off + tot - 1) / BSIZE + 1; }
  }

  /** The transaction so far: at most `spent` blocks beside what the indirect block costs. */
  ghost predicate Within(s0: State, log0: seq<int>, s: State, log: seq<int>, f: int, spent: int) {
    && IsSlot(s0, f, NDIRECT) && IsSlot(s, f, NDIRECT) && log0 <= log
    && |log| + Pending(s, f, log) <= |log0| + Pending(s0, f, log0) + spent
  }

  /** bmap and then logging the block itself. */
  lemma RoundCost(s: State, log: seq<int>, s1: State, log1: seq<int>, s2: State, log2: seq<int>, f: int, bn: int, addr: int)
    requires Inv(s) && Bmapped(s, log, s1, log1, f, bn, addr) && Logs(log1, log2, addr)
    requires s2.ino == s1.ino && IsSlot(s2, f, NDIRECT)
    ensures Within(s, log, s2, log2, f, if Entry(s, f, SlotOf(bn)) == 0 then 2 else 1)
  {
    PendingShrinks(s1, f, log1, log2);
  }

  lemma WithinTrans(s0: State, log0: seq<int>, s: State, log: seq<int>, s1: State, log1: seq<int>, f: int, a: int, b: int)
    requires Within(s0, log0, s, log, f, a) && Within(s, log, s1, log1, f, b)
    ensures Within(s0, log0, s1, log1, f, a + b)
  {}

  // ---- the operations ----

  /** One round of writei: m bytes of data into the block of offset off + tot. */
  method WriteRound(fs: FileSystem, f: int, off: int, tot: int, m: int, data: seq<int>, ghost s0: State) returns (ok: bool)
    requires Inv(fs.S()) && 0 <= f < |fs.ino| && Written(s0, fs.S(), f, off, tot, data)
    requires 0 <= off && 0 < m && 0 <= tot && tot + m <= |data| && off + |data| <= MAXFILE * BSIZE
    requires (off + tot) % BSIZE + m <= BSIZE
    modifies fs`blk, fs`used, fs`ino, fs`log, fs`owner
    ensures Inv(fs.S()) && |fs.ino| == |old(fs.ino)| && (ok ==> Written(s0, fs.S(), f, off, tot + m, data))
    ensures Gained(old(fs.S()), fs.S(), f, (off + tot) / BSIZE, (off + tot) / BSIZE + 1)
    ensures IsSlot(old(fs.S()), f, SlotOf((off + tot) / BSIZE))
    ensures ok ==> Within(old(fs.S()), old(fs.log), fs.S(), fs.log, f,
                          if Entry(old(fs.S()), f, SlotOf((off + tot) / BSIZE)) == 0 then 2 else 1)
    ensures !ok ==> forall c | 0 <= c < |fs.used| :: fs.used[c]
    ensures Once(old(fs.log), fs.log) && IsSlot(old(fs.S()), f, NDIRECT)
    ensures !ok ==> |fs.log| <= |old(fs.log)| + Pending(old(fs.S()), f, old(fs.log))
    ensures Logged(fs.layout, old(fs.Now()), fs.Now(), fs.log) && OnlyInode(old(fs.ino), fs.ino, f)
  {
    hide Inv, Bmapped, Written, Within, Spent, Logged, Gained;
    ghost var s, log, now := fs.S(), fs.log, fs.Now();
    var addr;
    ok, addr := fs.Bmap(f, (off + tot) / BSIZE);
    if !ok {
      return;
    }
    ghost var s1, log1, now1 := fs.S(), fs.log, fs.Now();
    BmappedFacts(s, log, s1, log1, f, (off + tot) / BSIZE, addr);
    WrittenStep(s0, s, s1, f, off, tot, m, data);
    fs.blk := fs.blk[addr := Overlay(fs.blk[addr], (off + tot) % BSIZE, data[tot..tot + m])];
    assert fs.S() == Stored(s1, addr, Overlay(s1.blk[addr], (off + tot) % BSIZE, data[tot..tot + m]));
    fs.LogWrite(addr);
    SameOwners(s, s1, fs.S(), f, (off + tot) / BSIZE, (off + tot) / BSIZE + 1);
    LoggedBlock(fs.layout, now1, addr, fs.blk[addr], fs.log);
    LoggedTrans(fs.layout, now, now1, fs.Now(), log1, fs.log);
    RoundCost(s, log, s1, log1, fs.S(), fs.log, f, (off + tot) / BSIZE, addr);
  }

  lemma SameOwners(s0: State, s: State, s1: State, f: int, lo: int, hi: int)
    requires Gained(s0, s, f, lo, hi) && s1.owner == s.owner
    ensures Gained(s0, s1, f, lo, hi)
  {}

  lemma BmappedFacts(s0: State, log0: seq<int>, s: State, log: seq<int>, f: int, bn: int, addr: int)
    requires Bmapped(s0, log0, s, log, f, bn, addr)
    ensures Inv(s) && IsSlot(s, f, SlotOf(bn)) && Entry(s, f, SlotOf(bn)) == addr && addr != 0
    ensures SameBytes(s0, s, -1) && SameSizes(s0, s) && IsSlot(s, f, NDIRECT)
  {}

  /** Blocks that the bytes below o reach into. */
  function BlocksTo(o: int): int {
    (o + BSIZE - 1) / BSIZE
  }

  /** The loop of writei. */
  method WriteLoop(fs: FileSystem, f: int, off: int, data: seq<int>) returns (ok: bool)
    requires Inv(fs.S()) && 0 <= f < |fs.ino| && 0 <= off <= fs.ino[f].size && off + |data| <= MAXFILE * BSIZE
    modifies fs`blk, fs`used, fs`ino, fs`log, fs`owner
    ensures Inv(fs.S()) && |fs.ino| == |old(fs.ino)| && (ok ==> Written(old(fs.S()), fs.S(), f, off, |data|, data))
    ensures Gained(old(fs.S()), fs.S(), f, off / BSIZE, BlocksTo(off + |data|))
    ensures ok ==> Within(old(fs.S()), old(fs.log), fs.S(), fs.log, f, Spent(off, |data|))
    ensures ok && data == [] ==> fs.S() == old(fs.S()) && fs.log == old(fs.log)
    ensures Once(old(fs.log), fs.log)
    ensures !ok ==> Full(fs.S()) && |fs.log| <= |old(fs.log)| + LogBound(off, |data|)
    ensures Logged(fs.layout, old(fs.Now()), fs.Now(), fs.log) && OnlyInode(old(fs.ino), fs.ino, f)
  {
    hide Inv, Written, Within, Spent, ByteAt, Logged, Gained;
    var n := |data|;
    ghost var s0, log0, now0 := fs.S(), fs.log, fs.Now();
    LoggedSame(fs.layout, now0, log0);
    NoneGained(s0, f, off / BSIZE, BlocksTo(off + n));
    InvSize(s0, f);
    WrittenStart(s0, f, off, data);
    WithinStart(s0, log0, f, off);
    var tot := 0;
    while tot < n
      invariant 0 <= tot <= n && (0 < tot < n ==> (off + tot) % BSIZE == 0)
      invariant Inv(fs.S()) && |fs.ino| == |s0.ino| && Written(s0, fs.S(), f, off, tot, data)
      invariant tot == 0 ==> fs.S() == s0 && fs.log == log0
      invariant Within(s0, log0, fs.S(), fs.log, f, Spent(off, tot)) && Once(log0, fs.log)
      invariant Logged(fs.layout, now0, fs.Now(), fs.log) && OnlyInode(s0.ino, fs.ino, f)
      invariant Gained(s0, fs.S(), f, off / BSIZE, BlocksTo(off + n))
    {
      var m := Min(n - tot, BSIZE - (off + tot) % BSIZE);
      ghost var s, log, now := fs.S(), fs.log, fs.Now();
      if tot == 0 && off % BSIZE != 0 { StartMapped(s0, f, off); }
      ok := WriteRound(fs, f, off, tot, m, data, s0);
      LoggedTrans(fs.layout, now0, now, fs.Now(), log, fs.log);
      BlockInRange(off, tot, n);
      GainedWider(s, fs.S(), f, (off + tot) / BSIZE, (off + tot) / BSIZE + 1, off / BSIZE, BlocksTo(off + n));
      GainedMore(s0, s, fs.S(), f, off / BSIZE, BlocksTo(off + n), off / BSIZE, BlocksTo(off + n));
      if !ok {
        WithinFail(s0, log0, s, log, |fs.log|, f, off, tot, n);
        return false;
      }
      SpentStep(off, tot, m);
      ghost var cost := if Entry(s, f, SlotOf((off + tot) / BSIZE)) == 0 then 2 else 1;
      WithinTrans(s0, log0, s, log, fs.S(), fs.log, f, Spent(off, tot), cost);
      WithinMore(s0, log0, fs.S(), fs.log, f, Spent(off, tot) + cost, Spent(off, tot + m));
      RoundEnd(off + tot, m, n - tot);
      tot := tot + m;
    }
    ok := true;
  }

  lemma BlockInRange(off: int, tot: int, n: int)
    requires 0 <= off && 0 <= tot < n
    ensures off / BSIZE <= (off + tot) / BSIZE < BlocksTo(off + n)
  {}

  lemma GainedWider(s0: State, s: State, f: int, lo: int, hi: int, lo1: int, hi1: int)
    requires Gained(s0, s, f, lo, hi) && lo1 <= lo && hi <= hi1
    ensures Gained(s0, s, f, lo1, hi1)
  {}

  /** A round that fails has logged no more than the whole write may. */
  lemma WithinFail(s0: State, log0: seq<int>, s: State, log: seq<int>, now: int, f: int, off: int, tot: int, n: int)
    requires Within(s0, log0, s, log, f, Spent(off, tot)) && 0 <= off && 0 <= tot < n
    requires now <= |log| + Pending(s, f, log)
    ensures now <= |log0| + LogBound(off, n)
  {
    assert (off + tot - 1) / BSIZE <= (off + n - 1) / BSIZE;
  }

  /** A round that is not the last ends at a block boundary. */
  lemma RoundEnd(o: int, m: int, left: int)
    requires 0 <= o && 0 < left && m == Min(left, BSIZE - o % BSIZE)
    ensures m < left ==> (o + m) % BSIZE == 0
  {
    if m < left { assert o + m == BSIZE * (o / BSIZE + 1); }
  }

  /** writei: the file becomes its old contents with data spliced in at off, no other
      file changes, the inode is on disk, and the blocks logged are within LogBound.
      `ok` is false when balloc panics because no block is free. */
  method WriteI(fs: FileSystem, f: int, off: int, data: seq<int>) returns (ok: bool, r: int)
    requires Inv(fs.S()) && 0 <= f < |fs.ino| == |fs.dino| && 0 <= off < UINT && |data| < UINT
    modifies fs`blk, fs`used, fs`ino, fs`dino, fs`log, fs`owner
    ensures Inv(fs.S()) && |fs.ino| == |old(fs.ino)| == |fs.dino|
    ensures Gained(old(fs.S()), fs.S(), f, off / BSIZE, BlocksTo(off + |data|))
    ensures ok ==> (r == -1 <==> off > old(fs.ino)[f].size || off + |data| > MAXFILE * BSIZE)
    ensures ok && r == -1 ==> fs.S() == old(fs.S()) && fs.dino == old(fs.dino) && fs.log == old(fs.log)
    ensures ok && r != -1 ==> r == |data| && Stayed(old(fs.S()), fs.S(), f)
    ensures ok && r != -1 ==> Contents(fs.S(), f) == Splice(Contents(old(fs.S()), f), off, data)
    ensures ok && r > 0 ==> fs.dino == old(fs.dino)[f := fs.ino[f]]
    ensures Once(old(fs.log), fs.log) && |fs.log| <= |old(fs.log)| + LogBound(off, |data|)
    ensures !ok ==> Full(fs.S())
    ensures Logged(fs.layout, old(fs.Now()), fs.Now(), fs.log) && OnlyInode(old(fs.ino), fs.ino, f)
    ensures ok && r == 0 ==> fs.S() == old(fs.S()) && fs.dino == old(fs.dino)
  {
    hide Inv, Written, Within, Spent, ByteAt, Logged, Gained;
    var n := |data|;
    ghost var s0, log0, now0 := fs.S(), fs.log, fs.Now();
    LoggedSame(fs.layout, now0, log0);
    NoneGained(s0, f, off / BSIZE, BlocksTo(off + n));
    InvSize(s0, f);
    SpentPositive(off, n);
    if off > fs.ino[f].size || (off + n) % UINT < off {
      return true, -1;
    }
    if (off + n) % UINT > MAXFILE * BSIZE {
      return true, -1;
    }
    ok := WriteLoop(fs, f, off, data);
    if !ok {
      return false, 0;
    }
    ghost var s, log, now := fs.S(), fs.log, fs.Now();
    WrittenSizes(s0, s, f, off, data);
    WithinBound(s0, log0, s, fs.log, f, Spent(off, n));
    Grown(s0, s, f, off, data, if off + n > s.ino[f].size then off + n else s.ino[f].size);
    if n > 0 {
      if off + n > fs.ino[f].size {
        fs.ino := fs.ino[f := fs.ino[f].(size := off + n)];
      }
      fs.IUpdate(f);
      LoggedTrans(fs.layout, now0, now, fs.Now(), log, fs.log);
    }
    SameOwners(s0, s, fs.S(), f, off / BSIZE, BlocksTo(off + n));
    assert fs.S() == s.(ino := s.ino[f := s.ino[f].(size := if off + n > s.ino[f].size then off + n else s.ino[f].size)]);
    r := n;
  }

  /** No block is free. */
  ghost predicate Full(s: State) {
    forall c | 0 <= c < |s.used| :: s.used[c]
  }

  /** Every file but f has the size and contents it had. */
  ghost predicate Stayed(s0: State, s: State, f: int) {
    |s.ino| == |s0.ino| && forall g | 0 <= g < |s0.ino| && g != f :: Contents(s, g) == Contents(s0, g)
  }

  lemma InvSize(s: State, f: int)
    requires Inv(s) && 0 <= f < |s.ino|
    ensures 0 <= s.ino[f].size <= MAXFILE * BSIZE && IsSlot(s, f, NDIRECT)
  {
    assert NoHoles(s, f);
  }

  lemma WithinStart(s: State, log: seq<int>, f: int, off: int)
    requires IsSlot(s, f, NDIRECT)
    ensures Within(s, log, s, log, f, Spent(off, 0))
  {}

  lemma WithinMore(s0: State, log0: seq<int>, s: State, log: seq<int>, f: int, a: int, b: int)
    requires Within(s0, log0, s, log, f, a) && a <= b
    ensures Within(s0, log0, s, log, f, b)
  {}

  lemma WithinBound(s0: State, log0: seq<int>, s: State, log: seq<int>, f: int, a: int)
    requires Within(s0, log0, s, log, f, a)
    ensures log0 <= log && |log| <= |log0| + 2 + a && (a == 0 ==> |log| <= |log0| + 2)
  {}

  /** The block an unaligned write starts in is there, since off <= size and there are
      no holes. */
  lemma StartMapped(s: State, f: int, off: int)
    requires Inv(s) && 0 <= f < |s.ino| && 0 <= off <= s.ino[f].size && off % BSIZE != 0
    ensures IsSlot(s, f, SlotOf(off / BSIZE)) && Entry(s, f, SlotOf(off / BSIZE)) != 0
  {
    Mapped(s, f, off / BSIZE * BSIZE);
  }

  lemma WrittenSizes(s0: State, s: State, f: int, off: int, data: seq<int>)
    requires Written(s0, s, f, off, |data|, data)
    ensures SameSizes(s0, s)
  {}

  lemma SpentPositive(off: int, n: int)
    requires 0 <= off && 0 <= n
    ensures 0 <= LogBound(off, n)
  {}

  /** readi: the slice of the file from off on, cut at its end; nothing is allocated,
      logged or changed, because no block below the size is missing. */
  method ReadI(fs: FileSystem, f: int, off: int, n: int) returns (r: int, dst: seq<int>)
    requires Inv(fs.S()) && 0 <= f < |fs.ino| && 0 <= off < UINT && 0 <= n < UINT
    modifies fs`blk, fs`used, fs`ino, fs`log, fs`owner
    ensures fs.S() == old(fs.S()) && fs.log == old(fs.log)
    ensures r == -1 <==> off > fs.ino[f].size || off + n >= UINT
    ensures r == -1 ==> dst == []
    ensures r != -1 ==> r == Min(n, fs.ino[f].size - off) == |dst| && dst == Contents(fs.S(), f)[off..off + r]
  {
    hide Inv, Bmapped, ByteAt, Contents, HasByte;
    ghost var s := fs.S();
    InvSize(s, f);
    dst := [];
    if off > fs.ino[f].size || (off + n) % UINT < off {
      return -1, [];
    }
    var n1 := n;
    if off + n > fs.ino[f].size {
      n1 := fs.ino[f].size - off;
    }
    var tot := 0;
    while tot < n1
      invariant 0 <= tot == |dst| <= n1 && fs.S() == s && fs.log == old(fs.log)
      invariant dst == Span(s, f, off, tot)
    {
      var m := Min(n1 - tot, BSIZE - (off + tot) % BSIZE);
      Mapped(s, f, off + tot);
      var ok, addr := fs.Bmap(f, (off + tot) / BSIZE);
      BmappedThere(s, old(fs.log), fs.S(), fs.log, f, (off + tot) / BSIZE, addr);
      BlockSpan(s, f, off + tot, m);
      SpanJoin(s, f, off, tot, m);
      dst := dst + fs.blk[addr][(off + tot) % BSIZE..(off + tot) % BSIZE + m];
      tot := tot + m;
    }
    SpanContents(s, f, off, n1);
    r := n1;
  }

  lemma BmappedThere(s0: State, log0: seq<int>, s: State, log: seq<int>, f: int, bn: int, addr: int)
    requires Bmapped(s0, log0, s, log, f, bn, addr) && IsSlot(s0, f, SlotOf(bn)) && Entry(s0, f, SlotOf(bn)) != 0
    ensures s == s0 && log == log0 && Entry(s0, f, SlotOf(bn)) == addr
  {}

  /** Bytes o to o + n of a file. */
  ghost function Span(s: State, f: int, o: int, n: int): (r: seq<int>)
    requires 0 <= n
  {
    seq(n, i => ByteAt(s, f, o + i))
  }

  lemma SpanJoin(s: State, f: int, o: int, a: int, b: int)
    requires 0 <= a && 0 <= b
    ensures Span(s, f, o, a) + Span(s, f, o + a, b) == Span(s, f, o, a + b)
  {}

  lemma SpanContents(s: State, f: int, o: int, n: int)
    requires 0 <= f < |s.ino| && 0 <= o && 0 <= n && o + n <= s.ino[f].size
    ensures Span(s, f, o, n) == Contents(s, f)[o..o + n]
  {}

  /** Bytes o to o + m of the file, within one block, are that block's bytes. */
  lemma BlockSpan(s: State, f: int, o: int, m: int)
    requires Inv(s) && HasByte(s, f, o) && 0 < m && o % BSIZE + m <= BSIZE
    ensures
      var b := Entry(s, f, SlotOf(o / BSIZE));
      && 0 < b < |s.blk| && |s.blk[b]| == BSIZE
      && s.blk[b][o % BSIZE..o % BSIZE + m] == Span(s, f, o, m)
  {
    InvMaps(s);
    ByteBlock(s, f, o);
    var part := s.blk[Entry(s, f, SlotOf(o / BSIZE))][o % BSIZE..o % BSIZE + m];
    forall i | 0 <= i < m ensures part[i] == Span(s, f, o, m)[i] {
      assert (o + i) / BSIZE == o / BSIZE && (o + i) % BSIZE == o % BSIZE + i;
      assert HasByte(s, f, o + i);
      ByteBlock(s, f, o + i);
    }
  }

  /** writei, then readi of any file at any place: of the file written, the bytes are those
      of the splice, and those just written are the data; any other file reads as it did. */
  method WriteThenRead(fs: FileSystem, f: int, off: int, data: seq<int>, g: int, o: int, n: int)
    returns (ok: bool, w: int, r: int, dst: seq<int>)
    requires Inv(fs.S()) && 0 <= f < |fs.ino| == |fs.dino| && 0 <= g < |fs.ino|
    requires 0 <= off < UINT && |data| < UINT && 0 <= o < UINT && 0 <= n < UINT
    modifies fs`blk, fs`used, fs`ino, fs`dino, fs`log, fs`owner
    ensures ok && w != -1 ==> off <= |Contents(old(fs.S()), f)|
    ensures ok && w != -1 && r != -1 && g != f ==>
      0 <= o <= o + r <= |Contents(old(fs.S()), g)| && dst == Contents(old(fs.S()), g)[o..o + r]
    ensures ok && w != -1 && r != -1 && g == f ==>
      var now := Splice(Contents(old(fs.S()), f), off, data);
      0 <= o <= o + r <= |now| && dst == now[o..o + r]
    ensures ok && w != -1 && g == f && o == off && n == |data| ==> r == |data| && dst == data
  {
    ghost var s0 := fs.S();
    InvSize(s0, f);
    SizeIs(s0, f);
    ok, w := WriteI(fs, f, off, data);
    if !ok {
      return ok, w, -1, [];
    }
    ghost var s1 := fs.S();
    SizeIs(s1, g);
    r, dst := ReadI(fs, g, o, n);
    if w != -1 {
      ReadBack(Contents(s0, f), off, data);
    }
  }

  lemma SizeIs(s: State, f: int)
    requires Inv(s) && 0 <= f < |s.ino|
    ensures |Contents(s, f)| == s.ino[f].size
  {
    assert NoHoles(s, f);
  }

  /** What was written is what is read. */
  lemma ReadBack(c: seq<int>, off: int, data: seq<int>)
    requires 0 <= off <= |c|
    ensures Splice(c, off, data)[off..off + |data|] == data
  {}

  /** Writing in pieces is writing at once. */
  lemma SplicePieces(c: seq<int>, off: int, a: seq<int>, b: seq<int>)
    requires 0 <= off <= |c|
    ensures Splice(Splice(c, off, a), off + |a|, b) == Splice(c, off, a + b)
  {}

  /** i bytes of data are in the file from off on, and no other file changed. */
  ghost predicate Through(s0: State, s: State, f: int, off: int, data: seq<int>, i: int) {
    && Inv(s) && |s.ino| == |s0.ino| && 0 <= f < |s.ino| && Stayed(s0, s, f) && 0 <= i <= |data| && 0 <= off
    && |Contents(s, f)| == s.ino[f].size && |Contents(s0, f)| == s0.ino[f].size
    && (if i == 0 then s == s0
        else off <= s0.ino[f].size && off + i <= s.ino[f].size && Contents(s, f) == Splice(Contents(s0, f), off, data[..i]))
  }

  lemma ThroughStart(s: State, f: int, off: int, data: seq<int>)
    requires Inv(s) && 0 <= f < |s.ino| && 0 <= off
    ensures Through(s, s, f, off, data, 0)
  {
    assert NoHoles(s, f);
  }

  lemma ThroughStep(s0: State, s: State, s1: State, f: int, off: int, data: seq<int>, i: int, n: int)
    requires Through(s0, s, f, off, data, i) && 0 < n && i + n <= |data| && off + i <= s.ino[f].size
    requires Inv(s1) && Stayed(s, s1, f) && Contents(s1, f) == Splice(Contents(s, f), off + i, data[i..i + n])
    ensures Through(s0, s1, f, off, data, i + n)
  {
    SizeIs(s1, f);
    assert data[..i] + data[i..i + n] == data[..i + n];
    hide Inv, Contents;
    if i > 0 {
      SplicePieces(Contents(s0, f), off, data[..i], data[i..i + n]);
    } else {
      assert data[..i] == [] && data[i..i + n] == data[..i + n];
    }
    hide Splice;
  }

  /** A transaction that names at most MAXOPBLOCKS blocks, none twice. */
  ghost predicate Small(log: seq<int>) {
    Distinct(log) && |log| <= MAXOPBLOCKS
  }

  /** The disk that transaction j, counted from `from` on, found; `first` the first of them. */
  ghost function Found(txns: seq<Txn>, from: nat, first: Image, j: nat): Image
    requires from <= j <= |txns|
  {
    if j == from then first else txns[j - 1].disk
  }

  /** Transactions from number `from` on are small, and each names all that it changed on disk. */
  ghost predicate Covered(l: Layout, txns: seq<Txn>, from: nat, first: Image) {
    forall j | from <= j < |txns| :: Small(txns[j].log) && Logged(l, Found(txns, from, first, j), txns[j].disk, txns[j].log)
  }

  lemma CoveredMore(l: Layout, txns: seq<Txn>, from: nat, first: Image, t: Txn)
    requires Covered(l, txns, from, first) && from <= |txns|
    requires Small(t.log) && Logged(l, Found(txns, from, first, |txns|), t.disk, t.log)
    ensures Covered(l, txns + [t], from, first)
  {
    hide Logged, Small;
    var all := txns + [t];
    forall j | from <= j < |all| ensures Small(all[j].log) && Logged(l, Found(all, from, first, j), all[j].disk, all[j].log) {
      assert Found(all, from, first, j) == Found(txns, from, first, j);
      if j < |txns| { assert all[j] == txns[j]; }
    }
  }

  /** The files that a crash right after a transaction leaves. */
  ghost function Files(t: Txn): State {
    State(t.disk.blk, t.disk.used, t.disk.dino, t.owner)
  }

  /** After each of the transactions from number `from` on, the disk has one more chunk of the
      first `done` bytes of data in file f, and no other file has changed. */
  ghost predicate Growing(txns: seq<Txn>, from: nat, s0: State, f: int, off: int, data: seq<int>, done: int) {
    forall j | from <= j < |txns| :: Through(s0, Files(txns[j]), f, off, data, Min((j - from + 1) * CHUNK, done))
  }

  lemma GrowingMore(txns: seq<Txn>, from: nat, s0: State, f: int, off: int, data: seq<int>, done: int, done1: int, t: Txn)
    requires Growing(txns, from, s0, f, off, data, done) && |txns| == from + Chunks(done) && 0 <= done && done % CHUNK == 0
    requires done <= done1 <= done + CHUNK && Through(s0, Files(t), f, off, data, done1)
    ensures Growing(txns + [t], from, s0, f, off, data, done1)
  {
    hide Through, Files;
    var q := done / 3072;
    assert done == 3072 * q && Chunks(done) == q;
    forall j | from <= j < |txns + [t]|
      ensures Through(s0, Files((txns + [t])[j]), f, off, data, Min((j - from + 1) * CHUNK, done1))
    {
      if j < |txns| {
        assert (txns + [t])[j] == txns[j];
        assert Min((j - from + 1) * CHUNK, done) == Min((j - from + 1) * CHUNK, done1);
      }
    }
  }

  /** A transaction that writei filled, starting with none. */
  lemma ChunkSmall(off: int, n: int, log: seq<int>)
    requires 0 <= off && 0 <= n <= CHUNK && Once([], log) && |log| <= LogBound(off, n)
    ensures Small(log)
  {
    ChunkFits(off, n);
  }

  /** The chunks that n bytes make. */
  function Chunks(n: int): int {
    (n + CHUNK - 1) / CHUNK
  }

  lemma OneChunk(i: int, len: int)
    requires 0 <= i < len && i % CHUNK == 0
    ensures Chunks(i) == i / CHUNK
    ensures var n := i + Min(len - i, CHUNK); Chunks(n) == Chunks(i) + 1 && (n % CHUNK == 0 || n == len)
  {
    var q := i / 3072;
    assert i == 3072 * q;
  }

  /** Nothing has changed since the last commit, and the inodes in memory are those on disk. */
  ghost predicate Synced(disk: Image, now: Image, ino: seq<Inode>) {
    disk == now && ino == now.dino
  }

  lemma InodeWritten(ino: seq<Inode>, ino1: seq<Inode>, dino: seq<Inode>, f: int)
    requires ino == dino && OnlyInode(ino, ino1, f) && 0 <= f < |dino|
    ensures ino1 == dino[f := ino1[f]]
  {}

  /** One chunk of filewrite: a transaction around writei.  Once it has ended the disk holds what
      memory does, if it did before. */
  method WriteChunk(fs: FileSystem, f: int, off: int, data: seq<int>) returns (ok: bool, r: int)
    requires Inv(fs.S()) && 0 <= f < |fs.ino| == |fs.dino| && 0 <= off < UINT && |data| <= CHUNK
    requires SameLengths(fs.disk, fs.Now())
    modifies fs`blk, fs`used, fs`ino, fs`dino, fs`log, fs`owner, fs`disk, fs`committed
    ensures ok ==> Inv(fs.S()) && |fs.ino| == |old(fs.ino)| == |fs.dino|
    ensures ok ==> (r == -1 <==> off > old(fs.ino)[f].size || off + |data| > MAXFILE * BSIZE)
    ensures ok && r == -1 ==> fs.S() == old(fs.S()) && fs.dino == old(fs.dino)
    ensures ok && r != -1 ==> r == |data| && Stayed(old(fs.S()), fs.S(), f)
    ensures ok && r != -1 ==> Contents(fs.S(), f) == Splice(Contents(old(fs.S()), f), off, data)
    ensures !ok ==> Full(fs.S()) && fs.committed == old(fs.committed) && fs.disk == old(fs.disk)
    ensures ok ==> fs.committed == old(fs.committed) + [Txn(fs.log, fs.disk, fs.owner)]
    ensures Small(fs.log) && SameLengths(fs.disk, fs.Now())
    ensures ok && old(Synced(fs.disk, fs.Now(), fs.ino)) ==>
      Synced(fs.disk, fs.Now(), fs.ino) && Logged(fs.layout, old(fs.disk), fs.disk, fs.log)
  {
    hide Inv, Splice, Contents, Stayed, LogBound, Full, Small, Logged, Once;
    ghost var ino0, now0 := fs.ino, fs.Now();
    fs.BeginOp();
    ok, r := WriteI(fs, f, off, data);
    ChunkSmall(off, |data|, fs.log);
    LoggedLengths(fs.layout, now0, fs.Now(), fs.log);
    if !ok {
      return;
    }
    if old(Synced(fs.disk, fs.Now(), fs.ino)) {
      InstallAll(fs.layout, fs.disk, fs.Now(), fs.log);
      if r > 0 { InodeWritten(ino0, fs.ino, now0.dino, f); }
    }
    fs.EndOp();
  }

  lemma LoggedLengths(l: Layout, a: Image, b: Image, log: seq<int>)
    requires Logged(l, a, b, log)
    ensures SameLengths(a, b)
  {}

  /** filewrite on an inode: chunk by chunk, each in a transaction of its own that logs at most
      MAXOPBLOCKS distinct blocks.  `done` bytes get written: all of them, or those before the
      first chunk that writei rejects.  As many transactions are committed as there are chunks
      in those bytes, and one for the rejected chunk; the one that a panic cuts short (not ok)
      is as small.  From a disk that agrees with memory on, every transaction names all that it
      changes, so that a crash after it leaves the file with the chunks up to then. */
  method FileWrite(fs: FileSystem, f: int, off: int, data: seq<int>)
    returns (ok: bool, ret: int, off1: int, ghost done: int)
    requires Inv(fs.S()) && 0 <= f < |fs.ino| == |fs.dino| && 0 <= off < UINT && |data| < 0x8000_0000
    requires SameLengths(fs.disk, fs.Now())
    modifies fs`blk, fs`used, fs`ino, fs`dino, fs`log, fs`owner, fs`disk, fs`committed
    ensures old(fs.committed) <= fs.committed
    ensures forall j | |old(fs.committed)| <= j < |fs.committed| :: Small(fs.committed[j].log)
    ensures ok ==> Through(old(fs.S()), fs.S(), f, off, data, done) && off1 == off + done
    ensures ok ==> ret == if done == |data| then |data| else -1
    ensures ok && done < |data| ==>
      off > old(fs.ino)[f].size || off + done + Min(CHUNK, |data| - done) > MAXFILE * BSIZE
    ensures ok ==> |fs.committed| == |old(fs.committed)| + Chunks(done) + (if done < |data| then 1 else 0)
    ensures !ok ==> Full(fs.S()) && done % CHUNK == 0 && |fs.committed| == |old(fs.committed)| + Chunks(done)
    ensures !ok ==> Small(fs.log)
    ensures fs.disk == Found(fs.committed, |old(fs.committed)|, old(fs.disk), |fs.committed|)
    ensures old(Synced(fs.disk, fs.Now(), fs.ino)) ==>
      && Covered(fs.layout, fs.committed, |old(fs.committed)|, old(fs.disk))
      && Growing(fs.committed, |old(fs.committed)|, old(fs.S()), f, off, data, done)
      && (ok ==> Synced(fs.disk, fs.Now(), fs.ino))
  {
    hide Inv, ByteAt, Splice, Contents, Stayed, LogBound, Full, Through, Small, Chunks, Once, Covered, Growing, Logged;
    ghost var s0, first, from := fs.S(), fs.disk, |fs.committed|;
    ghost var synced := Synced(fs.disk, fs.Now(), fs.ino);
    ThroughStart(s0, f, off, data);
    NoChunks(fs.layout, fs.committed, first, s0, f, off, data);
    var i := 0;
    off1, done := off, 0;
    while i < |data|
      invariant 0 <= i <= |data| && done == i && off1 == off + i && off1 < UINT
      invariant Inv(fs.S()) && 0 <= f < |fs.ino| == |fs.dino| && Through(s0, fs.S(), f, off, data, i)
      invariant old(fs.committed) <= fs.committed && SameLengths(fs.disk, fs.Now())
      invariant forall j | from <= j < |fs.committed| :: Small(fs.committed[j].log)
      invariant i % CHUNK == 0 || i == |data|
      invariant |fs.committed| == from + Chunks(i)
      invariant fs.disk == Found(fs.committed, from, first, |fs.committed|)
      invariant synced ==> Covered(fs.layout, fs.committed, from, first) && Synced(fs.disk, fs.Now(), fs.ino)
      invariant synced ==> Growing(fs.committed, from, s0, f, off, data, i)
    {
      var n1 := Min(|data| - i, CHUNK);
      OneChunk(i, |data|);
      ghost var s, txns := fs.S(), fs.committed;
      ThroughSize(s0, s, f, off, data, i);
      var r;
      ok, r := WriteChunk(fs, f, off1, data[i..i + n1]);
      if !ok {
        ret := 0;
        return;
      }
      if r >= 0 { ThroughStep(s0, s, fs.S(), f, off, data, i, n1); }
      if synced {
        var t := fs.committed[|txns|];
        assert Files(t) == fs.S();
        CoveredMore(fs.layout, txns, from, first, t);
        GrowingMore(txns, from, s0, f, off, data, i, if r < 0 then i else i + n1, t);
      }
      if r < 0 {
        break;
      }
      off1 := off1 + r;
      i := i + r;
      done := i;
    }
    ok, ret := true, if i == |data| then |data| else -1;
  }

  lemma NoChunks(l: Layout, txns: seq<Txn>, first: Image, s0: State, f: int, off: int, data: seq<int>)
    ensures Chunks(0) == 0 && Covered(l, txns, |txns|, first) && Growing(txns, |txns|, s0, f, off, data, 0)
  {}

  lemma ThroughSize(s0: State, s: State, f: int, off: int, data: seq<int>, i: int)
    requires Through(s0, s, f, off, data, i)
    ensures 0 <= f < |s.ino| == |s0.ino| && |Contents(s, f)| == s.ino[f].size
    ensures i > 0 ==> off + i <= s.ino[f].size
    ensures i == 0 ==> s == s0
  {}
}
