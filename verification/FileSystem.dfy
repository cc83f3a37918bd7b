/** balloc, bfree, bmap, itrunc, readi, writei (kernel/fs.c) and the chunks of filewrite
    (kernel/file.c): file contents, block ownership and what each operation logs. */
module FileSystem {
  import opened Basics
  import opened Inodes

  const BPB := 8192                // bitmap bits per block
  const IPB := 16                  // inodes per block

  /** log_write(b): b joins the transaction unless it is already there. */
  predicate Logs(log: seq<int>, log1: seq<int>, b: int) {
    log <= log1 && b in log1 && |log1| <= |log| + 1 && (b in log ==> log1 == log)
  }

  /** The transaction grows, and names no block twice if it did not. */
  ghost predicate Once(log: seq<int>, log1: seq<int>) {
    log <= log1 && (Distinct(log) ==> Distinct(log1))
  }

  /** What the log protects: blocks, bitmap bits and inodes on disk. */
  datatype Image = Image(blk: seq<seq<int>>, used: seq<bool>, dino: seq<Inode>)

  /** Where the bitmap and the inodes are on disk. */
  datatype Layout = Layout(bmapStart: int, inodeStart: int)

  function BitBlock(l: Layout, b: int): int { b / BPB + l.bmapStart }

  function InodeBlock(l: Layout, f: int): int { f / IPB + l.inodeStart }

  ghost predicate SameLengths(a: Image, b: Image) {
    |a.blk| == |b.blk| && |a.used| == |b.used| && |a.dino| == |b.dino|
  }

  /** The transaction covers the change from a to b: it names every block that differs, the
      bitmap block of every bit that does and the block of every inode that does. */
  ghost predicate Logged(l: Layout, a: Image, b: Image, log: seq<int>) {
    && SameLengths(a, b)
    && (forall c | 0 <= c < |a.blk| && b.blk[c] != a.blk[c] :: c in log)
    && (forall c | 0 <= c < |a.used| && b.used[c] != a.used[c] :: BitBlock(l, c) in log)
    && (forall f | 0 <= f < |a.dino| && b.dino[f] != a.dino[f] :: InodeBlock(l, f) in log)
  }

  lemma LoggedTrans(l: Layout, a: Image, b: Image, c: Image, log: seq<int>, log1: seq<int>)
    requires Logged(l, a, b, log) && Logged(l, b, c, log1) && log <= log1
    ensures Logged(l, a, c, log1)
  {
    forall x | x in log ensures x in log1 {
      var i :| 0 <= i < |log| && log[i] == x;
      assert log1[i] == x;
    }
  }

  lemma LoggedBlock(l: Layout, a: Image, c: int, data: seq<int>, log: seq<int>)
    requires 0 <= c < |a.blk| && c in log
    ensures Logged(l, a, a.(blk := a.blk[c := data]), log)
  {}

  lemma LoggedSame(l: Layout, a: Image, log: seq<int>)
    ensures Logged(l, a, a, log)
  {}

  /** What commit leaves on a disk that held a: the logged blocks of b. */
  ghost function Install(l: Layout, a: Image, b: Image, log: seq<int>): Image
    requires SameLengths(a, b)
  {
    Image(seq(|a.blk|, c requires 0 <= c < |a.blk| => if c in log then b.blk[c] else a.blk[c]),
          seq(|a.used|, c requires 0 <= c < |a.used| => if BitBlock(l, c) in log then b.used[c] else a.used[c]),
          seq(|a.dino|, f requires 0 <= f < |a.dino| => if InodeBlock(l, f) in log then b.dino[f] else a.dino[f]))
  }

  /** A transaction that covers the change leaves all of it on disk. */
  lemma InstallAll(l: Layout, a: Image, b: Image, log: seq<int>)
    requires Logged(l, a, b, log)
    ensures Install(l, a, b, log) == b
  {}

  /** A transaction that has ended: the blocks it named and what it left on disk. */
  datatype Txn = Txn(log: seq<int>, disk: Image, owner: seq<Owner>)

  /** What logging f's indirect block may still cost this transaction: allocating it takes
      a bitmap block and the block itself, changing it takes the block. */
  ghost function Pending(s: State, f: int, log: seq<int>): int
    requires IsSlot(s, f, NDIRECT)
  {
    if Entry(s, f, NDIRECT) == 0 then 2 else if Entry(s, f, NDIRECT) in log then 0 else 1
  }

  lemma PendingShrinks(s: State, f: int, log: seq<int>, log1: seq<int>)
    requires IsSlot(s, f, NDIRECT) && log <= log1
    ensures Pending(s, f, log1) <= Pending(s, f, log)
  {
    if Entry(s, f, NDIRECT) in log {
      var i :| 0 <= i < |log| && log[i] == Entry(s, f, NDIRECT);
      assert log1[i] == log[i];
    }
  }

  ghost predicate SameSizes(s: State, s1: State) {
    |s1.ino| == |s.ino| && forall g | 0 <= g < |s.ino| :: s1.ino[g].size == s.ino[g].size
  }

  /** No inode in memory but f's has changed. */
  ghost predicate OnlyInode(ino: seq<Inode>, ino1: seq<Inode>, f: int) {
    |ino1| == |ino| && forall g | 0 <= g < |ino| && g != f :: ino1[g] == ino[g]
  }

  /** Slot k is that of one of the blocks from lo to hi of a file, or its indirect block if they need it. */
  predicate Needed(k: int, lo: int, hi: int) {
    if k == NDIRECT then hi > NDIRECT else lo <= (if k < NDIRECT then k else k - 1) < hi
  }

  /** No block has changed hands but free ones that f took for its blocks from lo to hi. */
  ghost predicate Gained(s0: State, s: State, f: int, lo: int, hi: int) {
    && |s.owner| == |s0.owner|
    && forall c | 0 <= c < |s0.owner| && s.owner[c] != s0.owner[c] ::
      s0.owner[c].Nobody? && s.owner[c].Slot? && s.owner[c].f == f && Needed(s.owner[c].k, lo, hi)
  }

  lemma NoneGained(s: State, f: int, lo: int, hi: int)
    ensures Gained(s, s, f, lo, hi)
  {}

  lemma GainedMore(s0: State, s: State, s1: State, f: int, lo: int, hi: int, lo1: int, hi1: int)
    requires Gained(s0, s, f, lo, hi) && Gained(s, s1, f, lo1, hi1) && lo <= lo1 && hi <= hi1
    ensures Gained(s0, s1, f, lo, hi1)
  {}

  lemma ClaimGains(s: State, f: int, k: int, b: int, lo: int, hi: int)
    requires CanClaim(s, f, k, b) && Needed(k, lo, hi)
    ensures Gained(s, Claimed(s, f, k, b), f, lo, hi)
  {
    assert BlockOk(s, b);
  }

  /** bmap(f, bn) gave addr: f's block bn is addr; no byte of any file changed; and a
      block that was missing is in the transaction, at a cost of two blocks beside what
      the indirect block may cost. */
  ghost predicate Bmapped(s0: State, log0: seq<int>, s: State, log: seq<int>, f: int, bn: int, addr: int) {
    && 0 <= bn < MAXFILE && IsSlot(s0, f, SlotOf(bn)) && IsSlot(s, f, SlotOf(bn))
    && Inv(s) && Entry(s, f, SlotOf(bn)) == addr && addr != 0
    && SameBytes(s0, s, -1) && SameSizes(s0, s) && log0 <= log
    && (if Entry(s0, f, SlotOf(bn)) != 0 then s == s0 && log == log0
        else
          && addr in log
          && |log| + Pending(s, f, log) <= |log0| + Pending(s0, f, log0) + 2)
  }

  class FileSystem {
    const layout: Layout
    var blk: seq<seq<int>>
    var used: seq<bool>              // the bitmap, one bit per block
    var ino: seq<Inode>              // inodes in memory
    var dino: seq<Inode>             // inodes on disk
    var log: seq<int>                // blocks in the current transaction
    ghost var owner: seq<Owner>
    ghost var disk: Image            // what the last commit left on disk
    ghost var committed: seq<Txn>    // the transactions that have ended

    ghost function S(): State
      reads this
    {
      State(blk, used, ino, owner)
    }

    ghost function Now(): Image
      reads this
    {
      Image(blk, used, dino)
    }

    /** begin_op, for an operation with no others about: a transaction of its own. */
    method BeginOp()
      modifies `log
      ensures log == []
    {
      log := [];
    }

    /** end_op: the transaction is committed, and of what has changed the blocks it names
        reach the disk. */
    method EndOp()
      requires SameLengths(disk, Now())
      modifies `disk, `committed
      ensures disk == Install(layout, old(disk), Now(), log) && committed == old(committed) + [Txn(log, disk, owner)]
    {
      disk := Install(layout, disk, Now(), log);
      committed := committed + [Txn(log, disk, owner)];
    }

    method LogWrite(b: int)
      modifies `log
      ensures Logs(old(log), log, b) && Once(old(log), log)
    {
      if b !in log {
        log := log + [b];
      }
    }

    /** balloc: the lowest free block, marked and zeroed; fails only when none is free. */
    method Balloc() returns (ok: bool, b: int)
      requires |blk| == |used|
      modifies `blk, `used, `log
      ensures !ok ==> blk == old(blk) && used == old(used) && log == old(log)
      ensures !ok ==> forall c | 0 <= c < |used| :: used[c]
      ensures ok ==> 0 <= b < |old(used)| && !old(used)[b] && forall c | 0 <= c < b :: old(used)[c]
      ensures ok ==> used == old(used)[b := true] && blk == old(blk)[b := Zeros()]
      ensures ok ==> Once(old(log), log) && b in log && |log| <= |old(log)| + 2
      ensures Logged(layout, old(Now()), Now(), log)
    {
      var base := 0;
      while base < |used|
        invariant 0 <= base && base % BPB == 0 && blk == old(blk) && used == old(used) && log == old(log)
        invariant forall c | 0 <= c < base && c < |used| :: used[c]
      {
        var bi := 0;
        while bi < BPB && base + bi < |used|
          invariant 0 <= bi <= BPB && blk == old(blk) && used == old(used) && log == old(log)
          invariant forall c | 0 <= c < base + bi && c < |used| :: used[c]
        {
          if !used[base + bi] {
            used := used[base + bi := true];
            LogWrite(BitBlock(layout, base));
            blk := blk[base + bi := Zeros()];
            LogWrite(base + bi);
            assert BitBlock(layout, base + bi) == BitBlock(layout, base);
            return true, base + bi;
          }
          bi := bi + 1;
        }
        base := base + BPB;
      }
      ok, b := false, 0;
    }

    /** bfree: unmarks b; freeing a free block is a panic. */
    method Bfree(b: int) returns (ok: bool)
      requires 0 <= b < |used|
      modifies `used, `log
      ensures ok <==> old(used[b])
      ensures !ok ==> used == old(used) && log == old(log)
      ensures ok ==> used == old(used)[b := false] && Logs(old(log), log, BitBlock(layout, b)) && Once(old(log), log)
      ensures Logged(layout, old(Now()), Now(), log)
    {
      if !used[b] {
        return false;
      }
      used := used[b := false];
      LogWrite(BitBlock(layout, b));
      return true;
    }

    /** iupdate: the inode goes to disk and its block joins the transaction. */
    method IUpdate(f: int)
      requires 0 <= f < |ino| == |dino|
      modifies `dino, `log
      ensures dino == old(dino)[f := ino[f]] && Logs(old(log), log, InodeBlock(layout, f)) && Once(old(log), log)
      ensures Logged(layout, old(Now()), Now(), log)
    {
      dino := dino[f := ino[f]];
      LogWrite(InodeBlock(layout, f));
    }

    /** The allocations in bmap that fill addrs[k]. */
    method AllocAddr(f: int, k: int) returns (ok: bool, b: int)
      requires Inv(S()) && IsSlot(S(), f, k) && k <= NDIRECT && Entry(S(), f, k) == 0
      modifies `blk, `used, `ino, `log, `owner
      ensures !ok ==> log == old(log) && forall c | 0 <= c < |used| :: used[c]
      ensures ok ==> CanClaim(old(S()), f, k, b) && b > 0 && S() == Claimed(old(S()), f, k, b) && Inv(S())
      ensures ok ==> Once(old(log), log) && b in log && |log| <= |old(log)| + 2
      ensures !ok ==> S() == old(S())
      ensures Logged(layout, old(Now()), Now(), log) && OnlyInode(old(ino), ino, f)
    {
      hide Inv, Logged;
      ghost var s := S();
      InvMaps(s);
      ok, b := Balloc();
      if ok {
        ClaimWhole(s, f, k, b);
        ino := ino[f := ino[f].(addrs := ino[f].addrs[k := b])];
        owner := owner[b := Slot(f, k)];
      }
    }

    /** The allocation in bmap that fills an entry of the indirect block at address ind. */
    method AllocEntry(f: int, k: int, ind: int) returns (ok: bool, b: int)
      requires Inv(S()) && IsSlot(S(), f, k) && k > NDIRECT && Entry(S(), f, k) == 0
      requires ind == Entry(S(), f, NDIRECT) && 0 < ind < |blk| && |blk[ind]| == BSIZE && used[ind]
      modifies `blk, `used, `log, `owner
      ensures !ok ==> log == old(log) && forall c | 0 <= c < |used| :: used[c]
      ensures ok ==> CanClaim(old(S()), f, k, b) && b > 0 && S() == Claimed(old(S()), f, k, b) && Inv(S())
      ensures ok ==> Once(old(log), log) && b in log && ind in log
      ensures ok ==> |log| <= |old(log)| + if ind in old(log) then 2 else 3
      ensures !ok ==> S() == old(S())
      ensures Logged(layout, old(Now()), Now(), log)
    {
      hide Inv, Logged;
      ghost var s, now := S(), Now();
      InvMaps(s);
      ok, b := Balloc();
      ghost var now1, log1 := Now(), log;
      if ok {
        ClaimWhole(s, f, k, b);
        blk := blk[ind := PutWord(blk[ind], k - NDIRECT - 1, b)];
        owner := owner[b := Slot(f, k)];
        LogWrite(ind);
        LoggedBlock(layout, now1, ind, blk[ind], log);
        LoggedTrans(layout, now, now1, Now(), log1, log);
      }
    }

    /** bmap. Fails only when no block is free, and never for a block that is there. */
    method Bmap(f: int, bn: int) returns (ok: bool, addr: int)
      requires Inv(S()) && 0 <= f < |ino| && 0 <= bn < MAXFILE
      modifies `blk, `used, `ino, `log, `owner
      ensures ok ==> Bmapped(old(S()), old(log), S(), log, f, bn, addr)
      ensures !ok ==> forall c | 0 <= c < |used| :: used[c]
      ensures Once(old(log), log) && IsSlot(old(S()), f, NDIRECT)
      ensures !ok ==> |log| <= |old(log)| + Pending(old(S()), f, old(log))
      ensures IsSlot(old(S()), f, SlotOf(bn)) && (Entry(old(S()), f, SlotOf(bn)) != 0 ==> ok)
      ensures Logged(layout, old(Now()), Now(), log) && OnlyInode(old(ino), ino, f)
      ensures Inv(S()) && Gained(old(S()), S(), f, bn, bn + 1)
    {
      hide Inv, Bmapped, CanClaim, Claimed, Logged, Gained;
      ghost var s0, log0, now := S(), log, Now();
      SlotFacts(s0, f, bn);
      LoggedSame(layout, now, log);
      NoneGained(s0, f, bn, bn + 1);
      if bn < NDIRECT {
        addr := ino[f].addrs[bn];
        if addr == 0 {
          ok, addr := AllocAddr(f, bn);
          if ok {
            BmappedDirect(s0, log0, log, f, bn, addr);
            ClaimGains(s0, f, bn, addr, bn, bn + 1);
          }
          return;
        }
        BmappedSame(s0, log0, f, bn);
        return true, addr;
      }
      var n := bn - NDIRECT;
      var ind := ino[f].addrs[NDIRECT];
      if ind == 0 {
        ok, ind := AllocAddr(f, NDIRECT);
        if !ok {
          return false, 0;
        }
        IndirectAdded(s0, f, ind, bn);
        ClaimGains(s0, f, NDIRECT, ind, bn, bn + 1);
        SlotFacts(S(), f, bn);
      }
      IndirectFacts(S(), f, bn);
      ghost var s1, log1, now1 := S(), log, Now();
      addr := Word(blk[ind], n);
      if addr == 0 {
        ok, addr := AllocEntry(f, bn + 1, ind);
        LoggedTrans(layout, now, now1, Now(), log1, log);
        if ok {
          BmappedEntry(s0, log0, s1, log1, log, f, bn, ind, addr);
          ClaimGains(s1, f, bn + 1, addr, bn, bn + 1);
          GainedMore(s0, s1, S(), f, bn, bn + 1, bn, bn + 1);
        }
        return;
      }
      BmappedSame(s0, log0, f, bn);
      ok := true;
    }
  }

  lemma SlotFacts(s: State, f: int, bn: int)
    requires Inv(s) && 0 <= f < |s.ino| && 0 <= bn < MAXFILE
    ensures IsSlot(s, f, SlotOf(bn)) && IsSlot(s, f, NDIRECT) && Maps(s) && Sized(s)
  {}

  lemma BmappedSame(s: State, log: seq<int>, f: int, bn: int)
    requires Inv(s) && 0 <= bn < MAXFILE && IsSlot(s, f, SlotOf(bn)) && Entry(s, f, SlotOf(bn)) != 0
    ensures Bmapped(s, log, s, log, f, bn, Entry(s, f, SlotOf(bn)))
  {}

  lemma BmappedDirect(s: State, log0: seq<int>, log: seq<int>, f: int, bn: int, b: int)
    requires Inv(s) && 0 <= bn < NDIRECT && CanClaim(s, f, bn, b) && log0 <= log && b in log && |log| <= |log0| + 2
    ensures Bmapped(s, log0, Claimed(s, f, bn, b), log, f, bn, b)
  {
    ClaimWhole(s, f, bn, b);
    var s1 := Claimed(s, f, bn, b);
    assert IsSlot(s, f, NDIRECT) && IsSlot(s, f, bn);
    PendingShrinks(s, f, log0, log);
  }

  /** A new indirect block has no entries yet. */
  lemma IndirectAdded(s: State, f: int, ind: int, bn: int)
    requires Inv(s) && CanClaim(s, f, NDIRECT, ind) && NDIRECT <= bn < MAXFILE && IsSlot(s, f, SlotOf(bn))
    ensures
      var s1 := Claimed(s, f, NDIRECT, ind);
      && Inv(s1) && IsSlot(s1, f, NDIRECT) && Entry(s1, f, NDIRECT) == ind && ind > 0
      && IsSlot(s1, f, SlotOf(bn)) && Entry(s, f, SlotOf(bn)) == 0 && Entry(s1, f, SlotOf(bn)) == 0
      && SameBytes(s, s1, -1) && SameSizes(s, s1)
  {
    ClaimWhole(s, f, NDIRECT, ind);
    assert IsSlot(s, f, NDIRECT);
  }

  lemma IndirectFacts(s: State, f: int, bn: int)
    requires Inv(s) && NDIRECT <= bn < MAXFILE && IsSlot(s, f, SlotOf(bn)) && Entry(s, f, NDIRECT) != 0
    ensures
      var ind := Entry(s, f, NDIRECT);
      && ind == s.ino[f].addrs[NDIRECT] && 0 < ind < |s.blk| == |s.used| && |s.blk[ind]| == BSIZE && s.used[ind]
      && Entry(s, f, SlotOf(bn)) == Word(s.blk[ind], bn - NDIRECT)
  {
    assert IsSlot(s, f, NDIRECT) && SlotOk(s, f, NDIRECT) && BlockOk(s, Entry(s, f, NDIRECT));
  }

  /** s1 is s0, or s0 with a new indirect block; then the entry is filled. */
  lemma BmappedEntry(s0: State, log0: seq<int>, s1: State, log1: seq<int>, log: seq<int>, f: int, bn: int, ind: int, b: int)
    requires Inv(s0) && Inv(s1) && NDIRECT <= bn < MAXFILE && IsSlot(s0, f, SlotOf(bn)) && IsSlot(s1, f, SlotOf(bn))
    requires CanClaim(s1, f, bn + 1, b) && Entry(s1, f, NDIRECT) == ind && ind != 0
    requires
      || (s1 == s0 && log1 == log0)
      || (Entry(s0, f, NDIRECT) == 0 && Entry(s0, f, SlotOf(bn)) == 0 && SameBytes(s0, s1, -1) && SameSizes(s0, s1)
          && log0 <= log1 && ind in log1 && |log1| <= |log0| + 2)
    requires log1 <= log && b in log && ind in log && |log| <= |log1| + if ind in log1 then 2 else 3
    ensures Bmapped(s0, log0, Claimed(s1, f, bn + 1, b), log, f, bn, b)
  {
    ClaimWhole(s1, f, bn + 1, b);
    var s2 := Claimed(s1, f, bn + 1, b);
    assert IsSlot(s1, f, NDIRECT) && IsSlot(s1, f, bn + 1);
    SameBytesTrans(s0, s1, s2, -1);
    assert Pending(s2, f, log) == 0;
  }

  lemma SameBytesTrans(s0: State, s1: State, s2: State, but: int)
    requires (s1 == s0 || SameBytes(s0, s1, but)) && SameBytes(s1, s2, but)
    ensures SameBytes(s0, s2, but)
  {}

  lemma InvMaps(s: State)
    requires Inv(s)
    ensures Maps(s) && Sized(s)
  {}

  /** Claiming a free block for an empty slot keeps everything. */
  lemma ClaimWhole(s: State, f: int, k: int, b: int)
    requires Inv(s) && CanClaim(s, f, k, b)
    ensures b > 0 && Inv(Claimed(s, f, k, b)) && SameBytes(s, Claimed(s, f, k, b), -1)
    ensures OneSlot(s, Claimed(s, f, k, b), f, k, b)
  {
    ClaimKeeps(s, f, k, b);
    ClaimedSlots(s, f, k, b);
    ClaimBytes(s, f, k, b);
    NoNewHoles(s, Claimed(s, f, k, b), f, k, b);
  }
}
