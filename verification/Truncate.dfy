/** itrunc (kernel/fs.c): a file gives up exactly the blocks it owns. */
module Truncate {
  import opened Inodes
  import opened FileSystem
  import opened FileContents

  /** The order in which itrunc empties slots: direct, indirect entries, indirect block. */
  function Rank(k: int): int {
    if k < NDIRECT then k else if k > NDIRECT then k - 1 else SLOTS - 1
  }

  /** The slots of f with rank below r are empty and their blocks belong to nobody; every
      other slot and owner, and every byte of other files, is as in s0. */
  ghost predicate Emptied(s0: State, s: State, f: int, r: int) {
    && Maps(s) && |s.owner| == |s0.owner| && SameSizes(s0, s) && SameBytes(s0, s, f)
    && (forall g, k | IsSlot(s0, g, k) :: IsSlot(s, g, k)
          && Entry(s, g, k) == if g == f && Rank(k) < r then 0 else Entry(s0, g, k))
    && (forall b | 0 <= b < |s.owner| ::
          s.owner[b] == if s0.owner[b].Slot? && s0.owner[b].f == f && Rank(s0.owner[b].k) < r then Nobody else s0.owner[b])
  }

  lemma EmptiedStart(s: State, f: int)
    requires Maps(s)
    ensures Emptied(s, s, f, 0)
  {
    forall b | 0 <= b < |s.owner| && s.owner[b].Slot? ensures Rank(s.owner[b].k) >= 0 {
      assert BlockOk(s, b);
    }
  }

  /** The slot of rank r was empty already. */
  lemma EmptiedSkip(s0: State, s: State, f: int, k: int)
    requires Maps(s0) && Emptied(s0, s, f, Rank(k)) && IsSlot(s0, f, k) && Entry(s0, f, k) == 0
    ensures Emptied(s0, s, f, Rank(k) + 1)
  {
    var r := Rank(k) + 1;
    forall b | 0 <= b < |s.owner| ensures s.owner[b] ==
        if s0.owner[b].Slot? && s0.owner[b].f == f && Rank(s0.owner[b].k) < r then Nobody else s0.owner[b]
    {
      assert BlockOk(s0, b) && BlockOk(s0, 0);
    }
  }

  /** The block in the slot of rank r is given up. It was marked, so bfree does not panic. */
  lemma EmptiedStep(s0: State, s: State, f: int, k: int)
    requires Maps(s0) && Emptied(s0, s, f, Rank(k)) && IsSlot(s0, f, k) && Entry(s0, f, k) != 0
    ensures IsSlot(s, f, k) && Entry(s, f, k) == Entry(s0, f, k) && CanRelease(s, f, k) && s.used[Entry(s, f, k)]
    ensures Emptied(s0, Released(s, f, k, Entry(s, f, k)), f, Rank(k) + 1)
  {
    var b := Entry(s0, f, k);
    assert SlotOk(s, f, k) && SlotOk(s0, f, k) && BlockOk(s, b) && SlotOk(s, f, NDIRECT);
    if k == NDIRECT {
      forall j | NDIRECT < j < SLOTS ensures Entry(s, f, j) == 0 { assert IsSlot(s0, f, j); }
    } else if k > NDIRECT {
      assert IsSlot(s0, f, NDIRECT);
    }
    ReleaseKeeps(s, f, k);
    ReleaseBytes(s, f, k);
    var s1 := Released(s, f, k, b);
    SameBytesTrans(s0, s, s1, f);
    forall g, j | IsSlot(s0, g, j) ensures IsSlot(s1, g, j)
      && Entry(s1, g, j) == if g == f && Rank(j) < Rank(k) + 1 then 0 else Entry(s0, g, j)
    {
      assert IsSlot(s, g, j);
    }
    forall c | 0 <= c < |s1.owner| ensures s1.owner[c] ==
        if s0.owner[c].Slot? && s0.owner[c].f == f && Rank(s0.owner[c].k) < Rank(k) + 1 then Nobody else s0.owner[c]
    {
      assert BlockOk(s0, c) && BlockOk(s, c);
    }
  }

  /** What a free block holds does not matter. */
  lemma FreeContents(s0: State, s: State, f: int, r: int, b: int, data: seq<int>)
    requires Emptied(s0, s, f, r) && 0 <= b < |s.blk| && |data| == BSIZE && 0 <= b < |s.owner| && s.owner[b] == Nobody
    ensures Emptied(s0, Stored(s, b, data), f, r)
  {
    var s1 := Stored(s, b, data);
    forall g, j | IsSlot(s, g, j) ensures IsSlot(s1, g, j) && Entry(s1, g, j) == Entry(s, g, j) {
      assert SlotOk(s, g, NDIRECT);
    }
    forall g, j | IsSlot(s1, g, j) ensures SlotOk(s1, g, j) {
      assert IsSlot(s, g, j) && SlotOk(s, g, j);
    }
    forall c | 0 <= c < |s1.owner| ensures BlockOk(s1, c) {
      assert BlockOk(s, c);
    }
    forall g, i | g != f && HasByte(s0, g, i) ensures HasByte(s1, g, i) && ByteAt(s1, g, i) == ByteAt(s0, g, i) {
      assert HasByte(s, g, i);
      ByteBlock(s, g, i);
      assert IsSlot(s, g, SlotOf(i / BSIZE));
      ByteBlock(s1, g, i);
    }
  }

  /** With every slot empty and the size 0, the file is empty and all is well. */
  lemma EmptiedEnd(s0: State, s: State, f: int)
    requires Inv(s0) && Emptied(s0, s, f, SLOTS) && 0 <= f < |s.ino| == |s0.ino|
    ensures
      var s1 := s.(ino := s.ino[f := s.ino[f].(size := 0)]);
      && Inv(s1) && Contents(s1, f) == [] && Stayed(s0, s1, f)
      && (forall b | 0 <= b < |s.owner| == |s0.owner| ::
            s1.owner[b] == if s0.owner[b].Slot? && s0.owner[b].f == f then Nobody else s0.owner[b])
  {
    var s1 := s.(ino := s.ino[f := s.ino[f].(size := 0)]);
    InvMaps(s0);
    SameSlots(s, s1);
    forall g | 0 <= g < |s1.ino| ensures NoHoles(s1, g) {
      assert NoHoles(s0, g);
      forall bn | 0 <= bn < MAXFILE && bn * BSIZE < s1.ino[g].size ensures Entry(s1, g, SlotOf(bn)) != 0 {
        assert IsSlot(s0, g, SlotOf(bn)) && Entry(s0, g, SlotOf(bn)) != 0;
      }
    }
    forall g | 0 <= g < |s0.ino| && g != f ensures Contents(s1, g) == Contents(s0, g) {
      forall i | 0 <= i < s0.ino[g].size ensures ByteAt(s1, g, i) == ByteAt(s0, g, i) {
        Mapped(s0, g, i);
      }
    }
    forall b | 0 <= b < |s.owner|
      ensures s1.owner[b] == if s0.owner[b].Slot? && s0.owner[b].f == f then Nobody else s0.owner[b]
    {
      assert BlockOk(s0, b);
    }
  }

  /** bfree of the block in slot k of f, then emptying the slot when it is in addrs. */
  method FreeAddr(fs: FileSystem, f: int, k: int, ghost s0: State)
    requires Maps(s0) && Emptied(s0, fs.S(), f, Rank(k)) && IsSlot(s0, f, k) && k <= NDIRECT
    requires IsSlot(fs.S(), f, k)
    modifies fs`used, fs`ino, fs`log, fs`owner
    ensures Emptied(s0, fs.S(), f, Rank(k) + 1) && |fs.ino| == |old(fs.ino)| && IsSlot(fs.S(), f, NDIRECT)
    ensures fs.blk == old(fs.blk)
    ensures Once(old(fs.log), fs.log) && Logged(fs.layout, old(fs.Now()), fs.Now(), fs.log) && OnlyInode(old(fs.ino), fs.ino, f)
  {
    hide Emptied, Maps, Rank, Logged, Once;
    ghost var s := fs.S();
    NothingLogged(fs.layout, fs.Now(), fs.log);
    EmptiedSame(s0, s, f, Rank(k), k);
    if fs.ino[f].addrs[k] != 0 {
      EmptiedStep(s0, s, f, k);
      var freed := fs.Bfree(fs.ino[f].addrs[k]);
      assert freed;
      fs.owner := fs.owner[fs.ino[f].addrs[k] := Nobody];
      fs.ino := fs.ino[f := fs.ino[f].(addrs := fs.ino[f].addrs[k := 0])];
    } else {
      EmptiedSkip(s0, s, f, k);
    }
  }

  lemma NothingLogged(l: Layout, a: Image, log: seq<int>)
    ensures Logged(l, a, a, log) && Once(log, log)
  {}

  lemma LoggedMore(l: Layout, a: Image, b: Image, c: Image, log0: seq<int>, log: seq<int>, log1: seq<int>)
    requires Once(log0, log) && Logged(l, a, b, log) && Once(log, log1) && Logged(l, b, c, log1)
    ensures Once(log0, log1) && Logged(l, a, c, log1)
  {
    LoggedTrans(l, a, b, c, log, log1);
  }

  lemma EmptiedSame(s0: State, s: State, f: int, r: int, k: int)
    requires Emptied(s0, s, f, r) && IsSlot(s0, f, k) && r <= Rank(k)
    ensures IsSlot(s, f, k) && Entry(s, f, k) == Entry(s0, f, k)
  {}

  /** The words of f's indirect block, as the block map sees them. */
  ghost predicate EntryWords(s: State, f: int, block: seq<int>) {
    |block| == BSIZE && forall k | NDIRECT < k < SLOTS :: IsSlot(s, f, k) && Entry(s, f, k) == Word(block, k - NDIRECT - 1)
  }

  /** The loop over the indirect block. Its words stay as they are while the blocks they
      name are given up; v is the state with the words already passed cleared. */
  method FreeEntries(fs: FileSystem, f: int, ind: int, ghost s0: State) returns (ghost v: State)
    requires Maps(s0) && Emptied(s0, fs.S(), f, NDIRECT) && IsSlot(s0, f, NDIRECT)
    requires ind == Entry(s0, f, NDIRECT) && 0 < ind < |fs.blk| && |fs.blk[ind]| == BSIZE
    requires EntryWords(s0, f, fs.blk[ind])
    modifies fs`used, fs`log, fs`owner
    ensures Emptied(s0, v, f, SLOTS - 1) && ind < |v.blk| == |fs.blk| && Stored(v, ind, fs.blk[ind]) == fs.S()
    ensures Once(old(fs.log), fs.log) && Logged(fs.layout, old(fs.Now()), fs.Now(), fs.log)
  {
    hide Emptied, Maps, Rank, Logged, Once;
    ghost var now0, log0 := fs.Now(), fs.log;
    NothingLogged(fs.layout, now0, log0);
    v := fs.S();
    RankEntries();
    assert Stored(v, ind, fs.blk[ind]) == fs.S();
    var j := 0;
    while j < NINDIRECT
      invariant 0 <= j <= NINDIRECT
      invariant Emptied(s0, v, f, NDIRECT + j) && ind < |v.blk| == |fs.blk| && Stored(v, ind, fs.blk[ind]) == fs.S()
      invariant Once(log0, fs.log) && Logged(fs.layout, now0, fs.Now(), fs.log)
    {
      ghost var k := j + 13;
      assert IsSlot(s0, f, k) && Entry(s0, f, k) == Word(fs.blk[ind], j);
      var b := Word(fs.blk[ind], j);
      if b != 0 {
        EmptiedStep(s0, v, f, k);
        EmptiedSame(s0, v, f, Rank(k), NDIRECT);
        ghost var now, log := fs.Now(), fs.log;
        var freed := fs.Bfree(b);
        assert freed;
        LoggedMore(fs.layout, now0, now, fs.Now(), log0, log, fs.log);
        fs.owner := fs.owner[b := Nobody];
        v := Released(v, f, k, b);
        assert Stored(v, ind, fs.blk[ind]) == fs.S();
      } else {
        EmptiedSkip(s0, v, f, k);
      }
      j := j + 1;
    }
  }

  lemma RankEntries()
    ensures forall k | NDIRECT < k < SLOTS :: Rank(k) == k - 1
    ensures Rank(NDIRECT) == SLOTS - 1
  {}

  /** Without an indirect block there are no entries to give up. */
  lemma NoIndirect(s0: State, s: State, f: int)
    requires Maps(s0) && Emptied(s0, s, f, NDIRECT) && IsSlot(s0, f, NDIRECT) && Entry(s0, f, NDIRECT) == 0
    ensures Emptied(s0, s, f, SLOTS)
  {
    forall b | 0 <= b < |s.owner| ensures s.owner[b] ==
        if s0.owner[b].Slot? && s0.owner[b].f == f && Rank(s0.owner[b].k) < SLOTS then Nobody else s0.owner[b]
    {
      assert BlockOk(s0, b) && BlockOk(s0, 0);
    }
  }

  /** The words of the indirect block are the entries. */
  lemma EntriesAre(s0: State, s: State, f: int)
    requires Maps(s0) && Emptied(s0, s, f, NDIRECT) && IsSlot(s0, f, NDIRECT) && Entry(s0, f, NDIRECT) != 0
    requires s.blk == s0.blk
    ensures
      var ind := Entry(s0, f, NDIRECT);
      && 0 < ind < |s.blk| && |s.blk[ind]| == BSIZE && s.ino[f].addrs[NDIRECT] == ind
      && EntryWords(s0, f, s.blk[ind])
  {
    assert SlotOk(s0, f, NDIRECT) && IsSlot(s, f, NDIRECT);
  }

  /** Giving up the indirect block itself. */
  lemma IndirectGone(s0: State, v: State, s: State, f: int, ind: int)
    requires Maps(s0) && Emptied(s0, v, f, SLOTS - 1) && IsSlot(s0, f, NDIRECT) && Entry(s0, f, NDIRECT) == ind != 0
    requires 0 < ind < |v.blk| == |s.blk| && |s.blk[ind]| == BSIZE && s == Stored(v, ind, s.blk[ind])
    ensures 0 <= ind < |s.used| == |s.owner| && s.used[ind] && IsSlot(s, f, NDIRECT)
    ensures Emptied(s0, Released(s, f, NDIRECT, ind), f, SLOTS)
  {
    EmptiedStep(s0, v, f, NDIRECT);
    var r := Released(v, f, NDIRECT, ind);
    FreeContents(s0, r, f, SLOTS, ind, s.blk[ind]);
    assert Stored(r, ind, s.blk[ind]) == Released(s, f, NDIRECT, ind);
  }

  /** itrunc: the file becomes empty, the blocks it owned belong to nobody, every other
      block keeps its owner, and no other file changes. bfree never meets a free block. */
  method ITrunc(fs: FileSystem, f: int)
    requires Inv(fs.S()) && 0 <= f < |fs.ino| == |fs.dino|
    modifies fs`used, fs`ino, fs`dino, fs`log, fs`owner
    ensures Inv(fs.S()) && |fs.owner| == |old(fs.owner)| && |fs.ino| == |old(fs.ino)|
    ensures Contents(fs.S(), f) == [] && Stayed(old(fs.S()), fs.S(), f)
    ensures forall b | 0 <= b < |fs.owner| ::
      fs.owner[b] == if old(fs.owner)[b].Slot? && old(fs.owner)[b].f == f then Nobody else old(fs.owner)[b]
    ensures fs.dino == old(fs.dino)[f := fs.ino[f]] && OnlyInode(old(fs.ino), fs.ino, f)
    ensures Once(old(fs.log), fs.log) && Logged(fs.layout, old(fs.Now()), fs.Now(), fs.log)
  {
    hide Inv, Emptied, Maps, Rank, Logged, Once;
    ghost var s0, now0, log0 := fs.S(), fs.Now(), fs.log;
    NothingLogged(fs.layout, now0, log0);
    SlotFacts(s0, f, 0);
    EmptiedStart(s0, f);
    RankDirect();
    var i := 0;
    while i < NDIRECT
      invariant 0 <= i <= NDIRECT && Emptied(s0, fs.S(), f, i) && |fs.ino| == |s0.ino| && fs.blk == s0.blk
      invariant IsSlot(fs.S(), f, NDIRECT) && fs.dino == old(fs.dino) && OnlyInode(s0.ino, fs.ino, f)
      invariant Once(log0, fs.log) && Logged(fs.layout, now0, fs.Now(), fs.log)
    {
      ghost var now, log := fs.Now(), fs.log;
      FreeAddr(fs, f, i, s0);
      LoggedMore(fs.layout, now0, now, fs.Now(), log0, log, fs.log);
      i := i + 1;
    }
    RankEntries();
    EmptiedSame(s0, fs.S(), f, NDIRECT, NDIRECT);
    if fs.ino[f].addrs[NDIRECT] != 0 {
      EntriesAre(s0, fs.S(), f);
      var ind := fs.ino[f].addrs[NDIRECT];
      ghost var now, log := fs.Now(), fs.log;
      ghost var v := FreeEntries(fs, f, ind, s0);
      LoggedMore(fs.layout, now0, now, fs.Now(), log0, log, fs.log);
      IndirectGone(s0, v, fs.S(), f, ind);
      now, log := fs.Now(), fs.log;
      var freed := fs.Bfree(ind);
      assert freed;
      LoggedMore(fs.layout, now0, now, fs.Now(), log0, log, fs.log);
      fs.owner := fs.owner[ind := Nobody];
      fs.ino := fs.ino[f := fs.ino[f].(addrs := fs.ino[f].addrs[NDIRECT := 0])];
    } else {
      NoIndirect(s0, fs.S(), f);
    }
    EmptiedSizes(s0, fs.S(), f);
    EmptiedEnd(s0, fs.S(), f);
    fs.ino := fs.ino[f := fs.ino[f].(size := 0)];
    ghost var now, log := fs.Now(), fs.log;
    fs.IUpdate(f);
    LoggedMore(fs.layout, now0, now, fs.Now(), log0, log, fs.log);
  }

  lemma RankDirect()
    ensures forall k | 0 <= k < NDIRECT :: Rank(k) == k
  {}

  lemma EmptiedSizes(s0: State, s: State, f: int)
    requires Emptied(s0, s, f, SLOTS)
    ensures |s.owner| == |s0.owner| && |s.ino| == |s0.ino|
  {}
}
