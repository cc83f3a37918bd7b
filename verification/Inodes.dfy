/** Inodes, their direct and indirect block maps and the free-block bitmap
    (kernel/fs.c, kernel/fs.h), on the blocks as the log and cache present them. */
module Inodes {

  const BSIZE := 1024
  const NDIRECT := 12
  const NINDIRECT := 256
  const MAXFILE := 268             // NDIRECT + NINDIRECT
  const SLOTS := 269               // 12 direct, the indirect block, 256 indirect entries

  datatype Inode = Inode(size: int, addrs: seq<int>)

  /** Who a block belongs to: nobody, the file system's own metadata, or one slot. Slot k
      of an inode is addrs[k] for k <= 12 and entry k - 13 of its indirect block above. */
  datatype Owner = Nobody | Metadata | Slot(f: int, k: int)

  datatype State = State(blk: seq<seq<int>>, used: seq<bool>, ino: seq<Inode>, owner: seq<Owner>)

  // ---- 32-bit little-endian words in a block of bytes ----

  function Word(b: seq<int>, j: int): int
    requires |b| == BSIZE && 0 <= j < NINDIRECT
  {
    b[4 * j] + 0x100 * b[4 * j + 1] + 0x1_0000 * b[4 * j + 2] + 0x100_0000 * b[4 * j + 3]
  }

  function PutWord(b: seq<int>, j: int, w: int): (r: seq<int>)
    requires |b| == BSIZE && 0 <= j < NINDIRECT
    ensures |r| == BSIZE
  {
    b[4 * j := w % 0x100][4 * j + 1 := w / 0x100 % 0x100][4 * j + 2 := w / 0x1_0000 % 0x100]
     [4 * j + 3 := w / 0x100_0000]
  }

  lemma Bytes(w: int)
    requires 0 <= w < 0x1_0000_0000
    ensures w % 0x100 + 0x100 * (w / 0x100 % 0x100) + 0x1_0000 * (w / 0x1_0000 % 0x100) + 0x100_0000 * (w / 0x100_0000) == w
  {}

  /** Storing a word changes that word and no other. */
  lemma WordOfPut(b: seq<int>, j: int, w: int, i: int)
    requires |b| == BSIZE && 0 <= j < NINDIRECT && 0 <= i < NINDIRECT && 0 <= w < 0x1_0000_0000
    ensures Word(PutWord(b, j, w), i) == if i == j then w else Word(b, i)
  {
    Bytes(w);
  }

  function Zeros(): (r: seq<int>)
    ensures |r| == BSIZE && forall j | 0 <= j < NINDIRECT :: Word(r, j) == 0
  {
    seq(BSIZE, _ => 0)
  }

  // ---- the block map ----

  ghost predicate Sized(s: State) {
    && |s.blk| == |s.used| == |s.owner| <= 0x1_0000_0000
    && (forall b | 0 <= b < |s.blk| :: |s.blk[b]| == BSIZE)
    && (forall f | 0 <= f < |s.ino| :: |s.ino[f].addrs| == NDIRECT + 1)
  }

  ghost predicate IsSlot(s: State, f: int, k: int) {
    0 <= f < |s.ino| && 0 <= k < SLOTS && |s.ino[f].addrs| == NDIRECT + 1
  }

  /** The block number in a slot, 0 for none. */
  ghost function Entry(s: State, f: int, k: int): int
    requires IsSlot(s, f, k)
  {
    var a := s.ino[f].addrs;
    if k <= NDIRECT then a[k]
    else if 0 < a[NDIRECT] < |s.blk| && |s.blk[a[NDIRECT]]| == BSIZE then Word(s.blk[a[NDIRECT]], k - NDIRECT - 1)
    else 0
  }

  ghost predicate SlotOk(s: State, f: int, k: int)
    requires IsSlot(s, f, k)
  {
    Entry(s, f, k) == 0 || (0 < Entry(s, f, k) < |s.owner| && s.owner[Entry(s, f, k)] == Slot(f, k))
  }

  ghost predicate BlockOk(s: State, b: int)
    requires 0 <= b < |s.owner| == |s.used|
  {
    && (s.used[b] <==> s.owner[b] != Nobody)
    && (s.owner[b].Slot? ==> IsSlot(s, s.owner[b].f, s.owner[b].k) && Entry(s, s.owner[b].f, s.owner[b].k) == b)
  }

  /** The slot that holds a file's block bn. */
  function SlotOf(bn: int): int {
    if bn < NDIRECT then bn else bn + 1
  }

  /** No block below the file's size is missing. */
  ghost predicate NoHoles(s: State, f: int)
    requires 0 <= f < |s.ino|
  {
    && |s.ino[f].addrs| == NDIRECT + 1 && 0 <= s.ino[f].size <= MAXFILE * BSIZE
    && forall bn | 0 <= bn < MAXFILE && bn * BSIZE < s.ino[f].size :: Entry(s, f, SlotOf(bn)) != 0
  }

  /** Bitmap, slots and owners agree: every set bit has exactly one owner. */
  ghost predicate Maps(s: State) {
    && Sized(s)
    && |s.owner| > 0 && s.owner[0].Metadata?
    && (forall f, k | IsSlot(s, f, k) :: SlotOk(s, f, k))
    && (forall b | 0 <= b < |s.owner| :: BlockOk(s, b))
  }

  ghost predicate Inv(s: State) {
    Maps(s) && forall f | 0 <= f < |s.ino| :: NoHoles(s, f)
  }

  /** What mkfs leaves: a bitmap that covers just the metadata blocks, and empty inodes. */
  lemma FreshIsSound(s: State, meta: int)
    requires Sized(s) && 0 < meta <= |s.owner|
    requires forall b | 0 <= b < |s.owner| :: s.used[b] == (b < meta) && s.owner[b] == if b < meta then Metadata else Nobody
    requires forall f | 0 <= f < |s.ino| :: s.ino[f].size == 0 && forall k | 0 <= k <= NDIRECT :: s.ino[f].addrs[k] == 0
    ensures Inv(s)
  {
    forall f, k | IsSlot(s, f, k) ensures SlotOk(s, f, k) {}
    forall b | 0 <= b < |s.owner| ensures BlockOk(s, b) {}
    forall f | 0 <= f < |s.ino| ensures NoHoles(s, f) {}
  }

  /** Byte i of file f. */
  ghost function ByteAt(s: State, f: int, i: int): int {
    if Sized(s) && 0 <= f < |s.ino| && 0 <= i < MAXFILE * BSIZE && IsSlot(s, f, SlotOf(i / BSIZE))
       && 0 <= Entry(s, f, SlotOf(i / BSIZE)) < |s.blk|
    then s.blk[Entry(s, f, SlotOf(i / BSIZE))][i % BSIZE] else 0
  }

  /** The file as a byte sequence. */
  ghost function Contents(s: State, f: int): seq<int>
    requires 0 <= f < |s.ino|
  {
    seq(if s.ino[f].size < 0 then 0 else s.ino[f].size, i => ByteAt(s, f, i))
  }

  // ---- giving a slot a block ----

  /** Block b, zeroed and marked, stored in slot k of f. */
  function Claimed(s: State, f: int, k: int, b: int): State
    requires 0 <= f < |s.ino| && |s.ino[f].addrs| == NDIRECT + 1 && 0 <= k < SLOTS
    requires 0 <= b < |s.blk| == |s.used| == |s.owner|
    requires k > NDIRECT ==> 0 <= s.ino[f].addrs[NDIRECT] < |s.blk| && |s.blk[s.ino[f].addrs[NDIRECT]]| == BSIZE
    requires k > NDIRECT ==> s.ino[f].addrs[NDIRECT] != b
  {
    var s1 := s.(blk := s.blk[b := Zeros()], used := s.used[b := true], owner := s.owner[b := Slot(f, k)]);
    if k <= NDIRECT then
      s1.(ino := s1.ino[f := s1.ino[f].(addrs := s1.ino[f].addrs[k := b])])
    else
      var i := s1.ino[f].addrs[NDIRECT];
      s1.(blk := s1.blk[i := PutWord(s1.blk[i], k - NDIRECT - 1, b)])
  }

  /** The given slot is empty and block b is free for it. */
  ghost predicate CanClaim(s: State, f: int, k: int, b: int) {
    && Maps(s) && IsSlot(s, f, k) && Entry(s, f, k) == 0
    && 0 <= b < |s.blk| == |s.used| == |s.owner| && !s.used[b]
    && (k > NDIRECT ==>
          0 < s.ino[f].addrs[NDIRECT] < |s.blk| && |s.blk[s.ino[f].addrs[NDIRECT]]| == BSIZE && s.ino[f].addrs[NDIRECT] != b)
  }

  lemma ClaimedSlot(s: State, f: int, k: int, b: int, g: int, j: int)
    requires CanClaim(s, f, k, b) && IsSlot(s, g, j)
    ensures IsSlot(Claimed(s, f, k, b), g, j)
    ensures Entry(Claimed(s, f, k, b), g, j) == if g == f && j == k then b else Entry(s, g, j)
  {
    assert SlotOk(s, g, NDIRECT) && SlotOk(s, f, NDIRECT) && SlotOk(s, g, j) && BlockOk(s, b);
    var i := s.ino[f].addrs[NDIRECT];
    if k > NDIRECT && j > NDIRECT {
      WordOfPut(s.blk[i], k - NDIRECT - 1, b, j - NDIRECT - 1);
    }
  }

  /** Slot (f, k) of s1 holds b, every other slot what it held in s. */
  ghost predicate OneSlot(s: State, s1: State, f: int, k: int, b: int) {
    && |s1.ino| == |s.ino| && (forall g | 0 <= g < |s.ino| :: s1.ino[g].size == s.ino[g].size)
    && forall g, j | IsSlot(s, g, j) ::
      IsSlot(s1, g, j) && Entry(s1, g, j) == if g == f && j == k then b else Entry(s, g, j)
  }

  lemma ClaimedSlots(s: State, f: int, k: int, b: int)
    requires CanClaim(s, f, k, b)
    ensures OneSlot(s, Claimed(s, f, k, b), f, k, b)
  {
    var s1 := Claimed(s, f, k, b);
    forall g, j | IsSlot(s, g, j)
      ensures IsSlot(s1, g, j) && Entry(s1, g, j) == if g == f && j == k then b else Entry(s, g, j)
    {
      ClaimedSlot(s, f, k, b, g, j);
    }
  }

  lemma ClaimKeeps(s: State, f: int, k: int, b: int)
    requires CanClaim(s, f, k, b)
    ensures b > 0 && Maps(Claimed(s, f, k, b))
  {
    var s1 := Claimed(s, f, k, b);
    ClaimedSlots(s, f, k, b);
    assert BlockOk(s, 0) && BlockOk(s, b);
    forall g, j | IsSlot(s1, g, j) ensures SlotOk(s1, g, j) {
      assert IsSlot(s, g, j) && SlotOk(s, g, j);
    }
    forall c | 0 <= c < |s1.owner| ensures BlockOk(s1, c) {
      assert BlockOk(s, c);
    }
  }

  /** Filling an empty slot makes no hole. */
  lemma NoNewHoles(s: State, s1: State, f: int, k: int, b: int)
    requires OneSlot(s, s1, f, k, b) && b != 0 && Sized(s1) && Inv(s) && Maps(s1)
    ensures Inv(s1)
  {
    forall g | 0 <= g < |s1.ino| ensures NoHoles(s1, g) {
      assert NoHoles(s, g);
      forall bn | 0 <= bn < MAXFILE && bn * BSIZE < s1.ino[g].size ensures Entry(s1, g, SlotOf(bn)) != 0 {
        assert IsSlot(s, g, SlotOf(bn)) && Entry(s, g, SlotOf(bn)) != 0;
      }
    }
  }

  // ---- bytes ----

  /** Byte i of file f has a block. */
  ghost predicate HasByte(s: State, f: int, i: int) {
    0 <= i < MAXFILE * BSIZE && IsSlot(s, f, SlotOf(i / BSIZE)) && Entry(s, f, SlotOf(i / BSIZE)) != 0
  }

  /** Every byte there was, of every file but `but`, is there unchanged. */
  ghost predicate SameBytes(s: State, s1: State, but: int) {
    && |s1.ino| == |s.ino|
    && forall g, i | g != but && HasByte(s, g, i) :: HasByte(s1, g, i) && ByteAt(s1, g, i) == ByteAt(s, g, i)
  }

  lemma ByteBlock(s: State, f: int, i: int)
    requires Maps(s) && HasByte(s, f, i)
    ensures
      var b := Entry(s, f, SlotOf(i / BSIZE));
      && 0 < b < |s.blk| == |s.owner| && |s.blk[b]| == BSIZE && s.owner[b] == Slot(f, SlotOf(i / BSIZE))
      && ByteAt(s, f, i) == s.blk[b][i % BSIZE]
  {
    assert SlotOk(s, f, SlotOf(i / BSIZE));
  }

  lemma ClaimBytes(s: State, f: int, k: int, b: int)
    requires CanClaim(s, f, k, b)
    ensures SameBytes(s, Claimed(s, f, k, b), -1)
  {
    var s1 := Claimed(s, f, k, b);
    ClaimKeeps(s, f, k, b);
    forall g, i | g != -1 && HasByte(s, g, i) ensures HasByte(s1, g, i) && ByteAt(s1, g, i) == ByteAt(s, g, i) {
      ByteBlock(s, g, i);
      ClaimedSlot(s, f, k, b, g, SlotOf(i / BSIZE));
      ByteBlock(s1, g, i);
      assert BlockOk(s, b) && SlotOk(s, f, NDIRECT);
    }
  }

  // ---- writing a data block ----

  function Stored(s: State, b: int, data: seq<int>): State
    requires 0 <= b < |s.blk|
  {
    s.(blk := s.blk[b := data])
  }

  /** Writing a data block changes the bytes of that block of that file only. */
  lemma StoreKeeps(s: State, f: int, bn: int, data: seq<int>)
    requires Maps(s) && 0 <= bn < MAXFILE && IsSlot(s, f, SlotOf(bn)) && Entry(s, f, SlotOf(bn)) != 0 && |data| == BSIZE
    ensures 0 < Entry(s, f, SlotOf(bn)) < |s.blk|
    ensures
      var s1 := Stored(s, Entry(s, f, SlotOf(bn)), data);
      && Maps(s1) && (forall g, j | IsSlot(s, g, j) :: IsSlot(s1, g, j) && Entry(s1, g, j) == Entry(s, g, j))
      && (forall g, i | HasByte(s, g, i) ::
            HasByte(s1, g, i) && ByteAt(s1, g, i) == if g == f && i / BSIZE == bn then data[i % BSIZE] else ByteAt(s, g, i))
  {
    var e := Entry(s, f, SlotOf(bn));
    assert SlotOk(s, f, SlotOf(bn));
    var s1 := Stored(s, e, data);
    forall g, j | IsSlot(s, g, j) ensures IsSlot(s1, g, j) && Entry(s1, g, j) == Entry(s, g, j) {
      assert SlotOk(s, g, NDIRECT);
    }
    forall g, j | IsSlot(s1, g, j) ensures SlotOk(s1, g, j) {
      assert IsSlot(s, g, j) && SlotOk(s, g, j);
    }
    forall c | 0 <= c < |s1.owner| ensures BlockOk(s1, c) {
      assert BlockOk(s, c);
    }
    forall g, i | HasByte(s, g, i)
      ensures HasByte(s1, g, i) && ByteAt(s1, g, i) == if g == f && i / BSIZE == bn then data[i % BSIZE] else ByteAt(s, g, i)
    {
      ByteBlock(s, g, i);
      assert IsSlot(s, g, SlotOf(i / BSIZE));
      ByteBlock(s1, g, i);
    }
  }

  /** Storing data blocks makes no hole. */
  lemma StoreNoHoles(s: State, s1: State)
    requires Inv(s) && Maps(s1) && s1.ino == s.ino
    requires forall g, j | IsSlot(s, g, j) :: IsSlot(s1, g, j) && Entry(s1, g, j) == Entry(s, g, j)
    ensures Inv(s1)
  {
    forall g | 0 <= g < |s1.ino| ensures NoHoles(s1, g) {
      assert NoHoles(s, g);
      forall bn | 0 <= bn < MAXFILE && bn * BSIZE < s1.ino[g].size ensures Entry(s1, g, SlotOf(bn)) != 0 {
        assert IsSlot(s, g, SlotOf(bn)) && Entry(s, g, SlotOf(bn)) != 0;
      }
    }
  }

  // ---- giving a block up ----

  /** Slot k of f emptied and its block unmarked. */
  function Released(s: State, f: int, k: int, b: int): State
    requires 0 <= f < |s.ino| && |s.ino[f].addrs| == NDIRECT + 1 && 0 <= k < SLOTS
    requires 0 <= b < |s.blk| == |s.used| == |s.owner|
    requires k > NDIRECT ==> 0 <= s.ino[f].addrs[NDIRECT] < |s.blk| && |s.blk[s.ino[f].addrs[NDIRECT]]| == BSIZE
  {
    var s1 := s.(used := s.used[b := false], owner := s.owner[b := Nobody]);
    if k <= NDIRECT then
      s1.(ino := s1.ino[f := s1.ino[f].(addrs := s1.ino[f].addrs[k := 0])])
    else
      var i := s1.ino[f].addrs[NDIRECT];
      s1.(blk := s1.blk[i := PutWord(s1.blk[i], k - NDIRECT - 1, 0)])
  }

  /** The slot holds a block; the indirect block goes only after its entries. */
  ghost predicate CanRelease(s: State, f: int, k: int) {
    && Maps(s) && IsSlot(s, f, k) && 0 < Entry(s, f, k) < |s.blk| == |s.used| == |s.owner|
    && (k == NDIRECT ==> forall j | NDIRECT < j < SLOTS :: Entry(s, f, j) == 0)
    && (k > NDIRECT ==> 0 < s.ino[f].addrs[NDIRECT] < |s.blk| && |s.blk[s.ino[f].addrs[NDIRECT]]| == BSIZE)
  }

  lemma ReleasedSlot(s: State, f: int, k: int, g: int, j: int)
    requires CanRelease(s, f, k) && IsSlot(s, g, j)
    ensures
      var s1 := Released(s, f, k, Entry(s, f, k));
      IsSlot(s1, g, j) && Entry(s1, g, j) == if g == f && j == k then 0 else Entry(s, g, j)
  {
    assert SlotOk(s, g, NDIRECT) && SlotOk(s, f, NDIRECT) && SlotOk(s, g, j);
    if k > NDIRECT && j > NDIRECT {
      WordOfPut(s.blk[s.ino[f].addrs[NDIRECT]], k - NDIRECT - 1, 0, j - NDIRECT - 1);
    }
  }

  lemma ReleaseKeeps(s: State, f: int, k: int)
    requires CanRelease(s, f, k)
    ensures
      var s1 := Released(s, f, k, Entry(s, f, k));
      s.used[Entry(s, f, k)] && Maps(s1) && OneSlot(s, s1, f, k, 0)
  {
    var b := Entry(s, f, k);
    var s1 := Released(s, f, k, b);
    assert SlotOk(s, f, k) && BlockOk(s, b) && BlockOk(s, 0);
    forall g, j | IsSlot(s, g, j)
      ensures IsSlot(s1, g, j) && Entry(s1, g, j) == if g == f && j == k then 0 else Entry(s, g, j)
    {
      ReleasedSlot(s, f, k, g, j);
    }
    forall g, j | IsSlot(s1, g, j) ensures SlotOk(s1, g, j) {
      assert IsSlot(s, g, j) && SlotOk(s, g, j);
    }
    forall c | 0 <= c < |s1.owner| ensures BlockOk(s1, c) {
      assert BlockOk(s, c);
    }
  }

  lemma ReleaseBytes(s: State, f: int, k: int)
    requires CanRelease(s, f, k)
    ensures SameBytes(s, Released(s, f, k, Entry(s, f, k)), f)
  {
    var s1 := Released(s, f, k, Entry(s, f, k));
    ReleaseKeeps(s, f, k);
    forall g, i | g != f && HasByte(s, g, i) ensures HasByte(s1, g, i) && ByteAt(s1, g, i) == ByteAt(s, g, i) {
      ByteBlock(s, g, i);
      ReleasedSlot(s, f, k, g, SlotOf(i / BSIZE));
      ByteBlock(s1, g, i);
      assert SlotOk(s, f, NDIRECT);
    }
  }
}
