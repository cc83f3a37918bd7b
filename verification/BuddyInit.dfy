/** Initialisation of the buddy allocator (kernel/buddy.c): which blocks bd_mark sets,
    which blocks bd_initfree pushes, and exactly when its final check panics.

    The heap has n sizes; [0, m) holds the allocator's tables and [e, heap size) is
    unavailable.  m and e are leaf-aligned byte offsets; all three follow from the number
    of bytes that bd_init is given. */
module BuddyInit {
  import opened BuddyTree
  import opened BuddyCanon
  import opened Rings
  import opened BuddyHeap

  /** blk_index_next: the first block of size k at or after address p. */
  function BlkIndexNext(k: nat, p: int): int {
    if k == 0 then p / LEAF_SIZE + (if p % LEAF_SIZE != 0 then 1 else 0) else (BlkIndexNext(k - 1, p) + 1) / 2
  }

  /** bd_mark has set the bits of the blocks that meet [0, m) or [e, heap size). */
  predicate Marked(m: int, e: int, k: nat, i: int) {
    i < BlkIndexNext(k, m) || i >= BlkIndex(k, e)
  }

  /** A block is marked exactly when one of its halves is. */
  lemma MarkedHalves(m: int, e: int, k: nat, i: int)
    ensures Marked(m, e, k + 1, i) <==> Marked(m, e, k, 2 * i) || Marked(m, e, k, 2 * i + 1)
  {
  }

  // ---- the bytes bd_initfree counts ----

  /** Tables within the memory, and not so large that the first pair bd_initfree looks at
      could lie past the last byte of a bit array. */
  predicate Fits(n: nat, m: int, e: int) {
    && n >= 2 && m % LEAF_SIZE == 0 && e % LEAF_SIZE == 0
    && 0 < m <= e <= BlkSize(n - 1) && 8 * m <= 7 * BlkSize(n - 1)
  }

  /** bd_initfree_pair: one of the pair is marked and the other is not. */
  predicate OneFree(m: int, e: int, k: nat, i: int) {
    Marked(m, e, k, i) != Marked(m, e, k, Buddy(i))
  }

  /** What size k adds to bd_initfree's count, from blocks within the heap. */
  function LevelFree(m: int, e: int, k: nat): int {
    var left, right := BlkIndexNext(k, m), BlkIndex(k, e);
    (if OneFree(m, e, k, left) then BlkSize(k) else 0)
    + (if right > left && OneFree(m, e, k, right) then BlkSize(k) else 0)
  }

  /** Both pairs of size k are the same pair, whose free half is then pushed twice. */
  predicate PushedTwice(m: int, e: int, k: nat) {
    BlkIndexNext(k, m) % 2 == 0 && BlkIndex(k, e) == BlkIndexNext(k, m) + 1
  }

  /** The memory fills the heap, so that the right pair of size k lies past the last block.
      Its bits are those of the first two blocks of size k + 1, in the array that follows; if
      the second of them is free, a block past the heap is pushed. */
  predicate Stray(n: nat, m: int, e: int, k: nat)
    requires k < n - 1
  {
    e == BlkSize(n - 1) && Width(n - 1 - k) >= 8 && BlkIndexNext(k + 1, m) <= 1
  }

  /** No block of a size below k is pushed twice, and none past the heap. */
  ghost predicate Clean(n: nat, m: int, e: int, k: nat)
    requires k < n
  {
    forall j: nat | j < k :: !PushedTwice(m, e, j) && !Stray(n, m, e, j)
  }

  /** What bd_initfree counts for the sizes below k. */
  function CountFree(n: nat, m: int, e: int, k: nat): int
    requires k < n
  {
    if k == 0 then 0
    else CountFree(n, m, e, k - 1) + LevelFree(m, e, k - 1) + (if Stray(n, m, e, k - 1) then BlkSize(k - 1) else 0)
  }

  /** What it counts too much. */
  function Surplus(n: nat, m: int, e: int, k: nat): int
    requires k < n
  {
    if k == 0 then 0
    else
      Surplus(n, m, e, k - 1)
      + (if PushedTwice(m, e, k - 1) then BlkSize(k - 1) else 0) + (if Stray(n, m, e, k - 1) then BlkSize(k - 1) else 0)
  }

  /** Bytes of the blocks of size k that lie wholly within [m, e). */
  function Remaining(m: int, e: int, k: nat): int {
    var left, right := BlkIndexNext(k, m), BlkIndex(k, e);
    if left < right then Addr(k, right) - Addr(k, left) else 0
  }

  lemma {:induction false} AddrMono(k: nat, i: int, j: int)
    requires 0 <= i <= j
    ensures 0 <= Addr(k, i) <= Addr(k, j)
    decreases k
  {
    if k > 0 { AddrMono(k - 1, 2 * i, 2 * j); }
  }

  /** blk_index rounds down and blk_index_next rounds up. */
  lemma {:induction false} IndexBounds(k: nat, p: int)
    requires p >= 0
    ensures 0 <= BlkIndex(k, p) <= BlkIndexNext(k, p) <= BlkIndex(k, p) + 1
    ensures Addr(k, BlkIndex(k, p)) <= p < Addr(k, BlkIndex(k, p) + 1) && p <= Addr(k, BlkIndexNext(k, p))
    ensures p > 0 ==> BlkIndexNext(k, p) >= 1 && Addr(k, BlkIndexNext(k, p) - 1) < p
  {
    if k > 0 {
      IndexBounds(k - 1, p);
      var i, j := BlkIndex(k - 1, p), BlkIndexNext(k - 1, p);
      AddrMono(k - 1, 2 * (i / 2), i);
      AddrMono(k - 1, i + 1, 2 * (i / 2 + 1));
      AddrMono(k - 1, j, 2 * ((j + 1) / 2));
      if p > 0 { AddrMono(k - 1, 2 * ((j + 1) / 2 - 1), j - 1); }
    }
  }

  lemma LevelBalance(m: int, e: int, k: nat)
    requires 0 < m <= e
    ensures Remaining(m, e, k) == Remaining(m, e, k + 1) + LevelFree(m, e, k)
                                  - (if PushedTwice(m, e, k) then BlkSize(k) else 0)
  {
    IndexBounds(k, m);
    IndexBounds(k, e);
    PairBalance(k, BlkIndexNext(k, m), BlkIndex(k, e));
  }

  /** The same for the block numbers alone: left and right are the first whole block of
      the range and the first block past it. */
  lemma PairBalance(k: nat, left: int, right: int)
    requires left >= 1 && right >= 0
    ensures var l2, r2 := (left + 1) / 2, right / 2;
            var lowFree := (left % 2 == 1 && left < right) || (left % 2 == 0 && right == left + 1);
            var highFree := right > left && right % 2 == 1;
            (if left < right then Addr(k, right) - Addr(k, left) else 0)
            == (if l2 < r2 then Addr(k, 2 * r2) - Addr(k, 2 * l2) else 0)
               + (if lowFree then BlkSize(k) else 0) + (if highFree then BlkSize(k) else 0)
               - (if left % 2 == 0 && right == left + 1 then BlkSize(k) else 0)
  {
    AddrFacts(k, left);
    if right > 0 { AddrFacts(k, right - 1); }
  }

  lemma {:induction false} CountBalance(n: nat, m: int, e: int, k: nat)
    requires 0 < m <= e && m % LEAF_SIZE == 0 && e % LEAF_SIZE == 0 && k < n
    ensures CountFree(n, m, e, k) == e - m - Remaining(m, e, k) + Surplus(n, m, e, k)
    ensures Surplus(n, m, e, k) >= 0 && (Surplus(n, m, e, k) == 0 <==> Clean(n, m, e, k))
  {
    if k > 0 {
      CountBalance(n, m, e, k - 1);
      LevelBalance(m, e, k - 1);
    }
  }

  lemma {:induction false} WholeHeap(n: nat, p: int)
    requires 0 <= p < BlkSize(n)
    ensures BlkIndex(n, p) == 0
  {
    IndexBounds(n, p);
    var i := BlkIndex(n, p);
    if i >= 1 {
      AddrMono(n, 1, i);
      AddrFacts(n, 0);
    }
  }

  /** bd_init's final check passes exactly when no block is pushed twice or past the heap. */
  lemma InitPanicIff(n: nat, m: int, e: int)
    requires Fits(n, m, e)
    ensures CountFree(n, m, e, n - 1) == e - m <==> Clean(n, m, e, n - 1)
  {
    CountBalance(n, m, e, n - 1);
    IndexBounds(n - 1, m);
    if e < BlkSize(n - 1) {
      WholeHeap(n - 1, e);
    } else {
      EndOfHeap(n - 1, 0);
      AddrFacts(n - 1, 1);
    }
  }

  /** When the end is at least four times the size of the tables nothing is pushed twice. */
  lemma RoomyInit(m: int, e: int, k: nat)
    requires 0 < m && 4 * m <= e
    ensures !PushedTwice(m, e, k)
  {
    IndexBounds(k, m);
    IndexBounds(k, e);
    var left := BlkIndexNext(k, m);
    if PushedTwice(m, e, k) {
      AddrFacts(k, left - 1);
      AddrFacts(k, left);
      AddrFacts(k, left + 1);
      AddrMono(k, 1, left - 1);
      AddrFacts(k, 0);
    }
  }

  // ---- marking ----

  ghost predicate InRange(start: int, stop: int, k: nat, i: int) {
    BlkIndex(k, start) <= i < BlkIndexNext(k, stop)
  }

  /** bd_mark at one size. */
  method MarkSize(a: Allocator, k: nat, start: int, stop: int)
    requires Shape(a.H()) && k < |a.alloc| && 0 <= BlkIndex(k, start) && BlkIndexNext(k, stop) <= |a.alloc[k]|
    modifies a`alloc, a`split
    ensures Shape(a.H()) && SameShape(old(a.H()), a.H())
    ensures forall i | 0 <= i < |a.alloc[k]| :: a.alloc[k][i] == (old(a.alloc[k][i]) || InRange(start, stop, k, i))
    ensures forall i | 0 <= i < |a.alloc[k]| ::
              a.split[k][i] == (old(a.split[k][i]) || (k > 0 && InRange(start, stop, k, i)))
    ensures forall j | 0 <= j < |a.alloc| && j != k :: a.alloc[j] == old(a.alloc[j]) && a.split[j] == old(a.split[j])
  {
    var bi, bj := BlkIndex(k, start), BlkIndexNext(k, stop);
    ghost var b0 := bi;
    while bi < bj
      invariant b0 <= bi && (bi <= bj || bi == b0)
      invariant Shape(a.H()) && SameShape(old(a.H()), a.H())
      invariant forall i | 0 <= i < |a.alloc[k]| :: a.alloc[k][i] == (old(a.alloc[k][i]) || b0 <= i < bi)
      invariant forall i | 0 <= i < |a.alloc[k]| :: a.split[k][i] == (old(a.split[k][i]) || (k > 0 && b0 <= i < bi))
      invariant forall j | 0 <= j < |a.alloc| && j != k :: a.alloc[j] == old(a.alloc[j]) && a.split[j] == old(a.split[j])
      decreases bj - bi
    {
      if k > 0 {
        a.split := Set(a.split, k, bi, true);
      }
      a.alloc := Set(a.alloc, k, bi, true);
      bi := bi + 1;
    }
  }

  /** bd_mark: every block that meets [start, stop) is marked, and split unless it is a leaf. */
  method Mark(a: Allocator, start: int, stop: int)
    requires Shape(a.H()) && 0 <= start && start % LEAF_SIZE == 0 && stop % LEAF_SIZE == 0
    requires forall k | 0 <= k < |a.alloc| :: BlkIndexNext(k, stop) <= |a.alloc[k]|
    modifies a`alloc, a`split
    ensures Shape(a.H()) && SameShape(old(a.H()), a.H())
    ensures forall k, i | IsBlock(a.H(), k, i) ::
              && a.alloc[k][i] == (old(a.alloc[k][i]) || InRange(start, stop, k, i))
              && a.split[k][i] == (old(a.split[k][i]) || (k > 0 && InRange(start, stop, k, i)))
  {
    var k := 0;
    while k < |a.alloc|
      invariant 0 <= k <= |a.alloc|
      invariant Shape(a.H()) && SameShape(old(a.H()), a.H())
      invariant forall j, i | IsBlock(a.H(), j, i) && j < k ::
              && a.alloc[j][i] == (old(a.alloc[j][i]) || InRange(start, stop, j, i))
              && a.split[j][i] == (old(a.split[j][i]) || (j > 0 && InRange(start, stop, j, i)))
      invariant forall j | k <= j < |a.alloc| :: a.alloc[j] == old(a.alloc[j]) && a.split[j] == old(a.split[j])
    {
      IndexBounds(k, start);
      MarkSize(a, k, start, stop);
      k := k + 1;
    }
  }

  // ---- the free lists ----

  /** The bits after marking. */
  ghost predicate Bits(h: Heap, m: int, e: int) {
    && Shape(h)
    && forall j, i | IsBlock(h, j, i) ::
         h.alloc[j][i] == Marked(m, e, j, i) && h.split[j][i] == (j > 0 && Marked(m, e, j, i))
  }

  /** After marking, with the free lists of the sizes below k in place. */
  ghost predicate Marking(h: Heap, m: int, e: int, k: nat) {
    && Bits(h, m, e) && k < |h.alloc|
    && (forall j | 0 <= j < k :: GoodList(h, j))
    && (forall j | k <= j < |h.alloc| :: h.free[j] == [])
  }

  /** The blocks bd_initfree pushes at size k, last first. */
  function Pushed(m: int, e: int, k: nat): (r: seq<int>) {
    var left, right := BlkIndexNext(k, m), BlkIndex(k, e);
    (if right > left && right % 2 == 1 then [right - 1] else []) + (if left < right && left % 2 == 1 then [left] else [])
  }

  lemma PushedIs(m: int, e: int, k: nat, i: int)
    requires 0 < m <= e
    ensures i in Pushed(m, e, k) <==> !Marked(m, e, k, i) && Marked(m, e, k + 1, i / 2)
  {
    IndexBounds(k, m);
    IndexBounds(k, e);
  }

  lemma SameList(h: Heap, t: Heap, j: int)
    requires Shape(h) && 0 <= j < |h.alloc| && GoodList(h, j)
    requires t == Heap(h.alloc, h.split, t.free) && |t.free| == |h.free| && t.free[j] == h.free[j]
    ensures GoodList(t, j)
  {
    assert forall i | IsBlock(h, j, i) :: IsFree(t, j, i) == IsFree(h, j, i);
  }

  lemma PushedGood(t: Heap, m: int, e: int, k: nat, up: nat)
    requires up == k + 1 && Shape(t) && k < |t.alloc| - 1 && 0 < m <= e && BlkIndex(k, e) <= |t.alloc[k]| && t.free[k] == Pushed(m, e, k)
    requires forall i | 0 <= i < |t.alloc[k]| :: t.alloc[k][i] == Marked(m, e, k, i)
    requires forall i | 0 <= i < |t.split[up]| :: t.split[up][i] == Marked(m, e, up, i)
    ensures GoodList(t, k)
  {
    IndexBounds(k, m);
    forall i ensures i in t.free[k] <==> IsBlock(t, k, i) && IsFree(t, k, i) {
      PushedIs(m, e, k, i);
    }
  }

  lemma PushedIsFreeList(h: Heap, m: int, e: int, k: nat, t: Heap)
    requires Marking(h, m, e, k) && k < |h.alloc| - 1 && 0 < m <= e && BlkIndex(k, e) <= |h.alloc[k]|
    requires t == Heap(h.alloc, h.split, h.free[k := Pushed(m, e, k)])
    ensures Marking(t, m, e, k + 1)
  {
    PushedGood(t, m, e, k, k + 1);
    forall j | 0 <= j < k ensures GoodList(t, j) {
      SameList(h, t, j);
    }
    hide GoodList;
  }

  lemma {:induction false} WidthPositive(h: Heap, k: int)
    requires Shape(h) && 0 <= k < |h.alloc|
    ensures |h.alloc[k]| >= 1
    decreases |h.alloc| - k
  {
    if k < |h.alloc| - 1 { WidthPositive(h, k + 1); }
  }

  /** Once every size is done the tables describe a proper tree. */
  lemma MarkedInv(h: Heap, m: int, e: int)
    requires |h.alloc| >= 2 && Marking(h, m, e, |h.alloc| - 1) && 0 < m <= e && m % LEAF_SIZE == 0
    ensures Inv(h) && Live(h, 0, 0)
    ensures forall k, i :: Live(h, k, i) <==> k == 0 && 0 <= i < |h.alloc[0]| && Marked(m, e, 0, i)
  {
    var n := |h.alloc|;
    WidthPositive(h, 0);
    IndexBounds(n - 1, m);
    forall k, i | IsBlock(h, k, i) ensures GoodBits(h, k, i) {
      if k > 0 { MarkedHalves(m, e, k - 1, i); }
      if k < n - 1 { MarkedHalves(m, e, k, i / 2); }
    }
    assert GoodList(h, n - 1);
    assert forall k | 0 <= k < n :: GoodList(h, k);
  }

  lemma {:induction false} EndOfHeap(k: nat, d: nat)
    ensures Addr(k, Width(d)) == BlkSize(k + d)
    decreases d
  {
    if d > 0 {
      EndOfHeap(k + 1, d - 1);
      assert Addr(k + 1, Width(d - 1)) == Addr(k, 2 * Width(d - 1));
    } else {
      AddrFacts(k, 0);
      OriginAddr(k);
    }
  }

  lemma {:induction false} OriginAddr(k: nat)
    ensures Addr(k, 0) == 0
  {
    if k > 0 { OriginAddr(k - 1); }
  }

  lemma WidthBytes(d: nat)
    ensures Width(d) >= 8 <==> d >= 3
    ensures d >= 3 ==> Width(d) % 8 == 0
    ensures d >= 1 ==> Width(d) % 2 == 0 && (d < 3 ==> Width(d) == 2 || Width(d) == 4)
  {
    if d >= 3 {
      assert Width(d) == 2 * Width(d - 1) && Width(d - 1) == 2 * Width(d - 2) && Width(d - 2) == 2 * Width(d - 3);
      var q := Width(d - 3);
      hide Width;
      assert 8 * q % 8 == 0 && 8 * q % 2 == 0;
    } else {
      assert Width(0) == 1 && Width(1) == 2 && Width(2) == 4;
    }
  }

  /** Where the two pairs that bd_initfree looks at lie in the bit array: the first may lie just
      past the last block only if the array's last byte has bits to spare, and the second does
      exactly when the memory fills the heap. */
  lemma PairsInRange(n: nat, m: int, e: int, k: nat)
    requires Fits(n, m, e) && k < n - 1
    ensures 1 <= BlkIndexNext(k, m) <= Width(n - 1 - k) && 0 <= BlkIndex(k, e) <= Width(n - 1 - k)
    ensures BlkIndexNext(k, m) == Width(n - 1 - k) ==> Width(n - 1 - k) % 8 != 0
    ensures BlkIndex(k, e) == Width(n - 1 - k) <==> e == BlkSize(n - 1)
    ensures Width(n - 1 - k) % 2 == 0 && (Width(n - 1 - k) % 8 == 0 <==> Width(n - 1 - k) >= 8)
  {
    var w := Width(n - 1 - k);
    WidthBytes(n - 1 - k);
    EndOfHeap(k, n - 1 - k);
    IndexBounds(k, m);
    IndexBounds(k, e);
    AddrFacts(k, w);
    if BlkIndex(k, e) >= w { AddrMono(k, w, BlkIndex(k, e)); }
    if BlkIndexNext(k, m) >= w {
      AddrMono(k, w - 1, BlkIndexNext(k, m) - 1);
      if BlkIndexNext(k, m) > w { AddrMono(k, w, BlkIndexNext(k, m) - 1); }
      AddrFacts(k, w - 1);
      if w >= 8 { EightTimes(k, n - 1); }
    }
  }

  lemma EightTimes(k: nat, j: nat)
    requires j >= k + 3
    ensures BlkSize(j) >= 8 * BlkSize(k)
  {
    assert BlkSize(k + 1) == 2 * BlkSize(k) && BlkSize(k + 2) == 2 * BlkSize(k + 1) && BlkSize(k + 3) == 2 * BlkSize(k + 2);
    BlkSizeMono(k + 3, j);
  }

  /** Marking done; sizes below k listed; size k partly listed. */
  ghost predicate Listing(h: Heap, m: int, e: int, k: nat) {
    && Bits(h, m, e) && k < |h.alloc| - 1
    && (forall j | 0 <= j < k :: GoodList(h, j))
    && (forall i | i in h.free[k] :: IsBlock(h, k, i) && !Marked(m, e, k, i))
    && (forall j | k < j < |h.alloc| :: h.free[j] == [])
  }

  lemma {:induction false} UnmarkedInside(m: int, e: int, x: int, j: nat, d: nat)
    requires !Marked(m, e, j + d, Up(x, d))
    ensures !Marked(m, e, j, x)
    decreases d
  {
    if d > 0 {
      UnmarkedInside(m, e, x / 2, j + 1, d - 1);
      MarkedHalves(m, e, j, x / 2);
    }
  }

  /** A block about to be listed is on no ring yet. */
  lemma NotListed(h: Heap, next: seq<int>, prev: seq<int>, lists: seq<seq<int>>, at: seq<Place>,
                  m: int, e: int, k: nat, i: int)
    requires Listing(h, m, e, k) && Linked(next, prev, lists, at) && Tied(h, lists, |next|)
    requires IsBlock(h, k, i) && !Marked(m, e, k, i) && i !in h.free[k]
    ensures |h.alloc| <= Cell(|h.alloc|, k, i) < |next| && at[Cell(|h.alloc|, k, i)].ring == -1
  {
    LeafOf(h, k, i);
    var n, leaf := |h.alloc|, BlkIndex(0, Addr(k, i));
    var x := n + leaf;
    if at[x].ring != -1 {
      var q, p := at[x].ring, at[x].pos;
      assert lists[q] == RingOf(n, q, h.free[q]) && lists[q][p] == x;
      var y := h.free[q][p - 1];
      assert y in h.free[q];
      if q < k {
        assert GoodList(h, q);
        LeafOf(h, q, y);
        UpAdd(leaf, q, 1);
        assert Up(y, 1) == Up(y / 2, 0);
        UpAdd(leaf, q + 1, k - q - 1);
        UnmarkedInside(m, e, y / 2, q + 1, k - q - 1);
        assert false;
      } else {
        LeafOf(h, k, y);
        assert false;
      }
    }
  }

  /** The rings hold the free lists. */
  ghost predicate Ringed(a: Allocator)
    reads a, a.mem
  {
    Linked(a.mem.next, a.mem.prev, a.mem.lists, a.mem.at) && Tied(a.H(), a.mem.lists, |a.mem.next|)
  }

  /** bit_isset on the alloc array of size k, whose bits past the last block are the unused ones
      of its last byte, which are clear, or those of the array that follows it. */
  function BitIsSet(alloc: seq<seq<bool>>, k: nat, i: int): bool
    requires k < |alloc| - 1 && 0 <= i && (i >= |alloc[k]| && |alloc[k]| % 8 == 0 ==> i - |alloc[k]| < |alloc[k + 1]|)
  {
    if i < |alloc[k]| then alloc[k][i] else |alloc[k]| % 8 == 0 && alloc[k + 1][i - |alloc[k]|]
  }

  /** A pair of blocks of size k, or of the two just past the last one. */
  ghost predicate IsPair(alloc: seq<seq<bool>>, k: nat, bi: int) {
    && k < |alloc| - 1 && 0 <= bi <= |alloc[k]| && |alloc[k]| % 2 == 0
    && (bi == |alloc[k]| && |alloc[k]| % 8 == 0 ==> 2 <= |alloc[k + 1]|)
  }

  /** The two bits of the pair differ. */
  predicate Differ(alloc: seq<seq<bool>>, k: nat, bi: int)
    requires IsPair(alloc, k, bi)
  {
    BitIsSet(alloc, k, bi) != BitIsSet(alloc, k, Buddy(bi))
  }

  /** Which pairs differ once the memory is marked. */
  lemma DifferIs(h: Heap, m: int, e: int, k: nat, bi: int)
    requires Bits(h, m, e) && IsPair(h.alloc, k, bi)
    ensures bi < |h.alloc[k]| ==> Differ(h.alloc, k, bi) == OneFree(m, e, k, bi)
    ensures bi == |h.alloc[k]| && BlkIndex(k, e) <= bi ==> !OneFree(m, e, k, bi)
    ensures bi == |h.alloc[k]| ==>
              Differ(h.alloc, k, bi) == (|h.alloc[k]| % 8 == 0 && Marked(m, e, k + 1, 0) != Marked(m, e, k + 1, 1))
  {
    if bi < |h.alloc[k]| {
      assert IsBlock(h, k, bi) && IsBlock(h, k, Buddy(bi));
    } else if |h.alloc[k]| % 8 == 0 {
      var up := k + 1;
      assert IsBlock(h, up, 0) && IsBlock(h, up, 1);
    }
  }

  /** bd_initfree_pair: if one bit of the pair is set and the other is not, the other's block is
      pushed.  While every block pushed was within the heap and on no list (`sound`) the rings
      hold the free lists.  A block past the heap has no cell here: what pushing it overwrites
      is not described. */
  method InitFreePair(a: Allocator, k: nat, bi: int, ghost m: int, ghost e: int, ghost sound: bool) returns (size: int)
    requires Bits(a.H(), m, e) && IsPair(a.alloc, k, bi)
    requires Closed(a.mem.next, a.mem.prev) && |a.mem.next| == |a.alloc| + |a.alloc[0]|
    requires sound ==> Listing(a.H(), m, e, k) && Ringed(a)
    requires sound && Differ(a.alloc, k, bi) ==> bi < |a.alloc[k]| && FreeOne(m, e, k, bi) !in a.free[k]
    modifies a`free, a.mem
    ensures Closed(a.mem.next, a.mem.prev) && |a.mem.next| == |a.alloc| + |a.alloc[0]|
    ensures size == if Differ(a.alloc, k, bi) then BlkSize(k) else 0
    ensures sound ==> Ringed(a) && Listing(a.H(), m, e, k)
    ensures |a.free| == |old(a.free)|
    ensures a.free == if Differ(a.alloc, k, bi) && bi < |a.alloc[k]|
                      then old(a.free)[k := [FreeOne(m, e, k, bi)] + old(a.free[k])] else old(a.free)
  {
    var buddy := Buddy(bi);
    ghost var h := a.H();
    DifferIs(h, m, e, k, bi);
    BitsShape(h, m, e);
    size := 0;
    if BitIsSet(a.alloc, k, bi) != BitIsSet(a.alloc, k, buddy) {
      size := BlkSize(k);
      var x := if BitIsSet(a.alloc, k, bi) then buddy else bi;
      if x < |a.alloc[k]| {
        PushedOne(h, m, e, k, bi, x);
        ghost var t := Heap(h.alloc, h.split, h.free[k := [x] + h.free[k]]);
        LeafOf(h, k, x);
        if sound {
          NotListed(h, a.mem.next, a.mem.prev, a.mem.lists, a.mem.at, m, e, k, x);
          TiedPush(h, a.mem.lists, |a.mem.next|, t, k, x);
          ListingPush(h, t, m, e, k, x);
        }
        hide Listing, Linked, Tied, Bits;
        a.mem.LstPush(k, |a.alloc| + BlkIndex(0, Addr(k, x)));
        a.free := t.free;
      }
    }
  }

  /** The block a pair within the heap pushes. */
  lemma PushedOne(h: Heap, m: int, e: int, k: nat, bi: int, x: int)
    requires Bits(h, m, e) && IsPair(h.alloc, k, bi) && Differ(h.alloc, k, bi)
    requires x == if BitIsSet(h.alloc, k, bi) then Buddy(bi) else bi
    requires x < |h.alloc[k]|
    ensures bi < |h.alloc[k]| && IsBlock(h, k, x) && x == FreeOne(m, e, k, bi) && !Marked(m, e, k, x)
  {
    assert bi < |h.alloc[k]|;
    assert IsBlock(h, k, bi) && IsBlock(h, k, Buddy(bi));
  }

  function FreeOne(m: int, e: int, k: nat, i: int): int {
    if Marked(m, e, k, i) then Buddy(i) else i
  }

  lemma ListingPush(h: Heap, t: Heap, m: int, e: int, k: nat, x: int)
    requires Listing(h, m, e, k) && IsBlock(h, k, x) && !Marked(m, e, k, x)
    requires t == Heap(h.alloc, h.split, h.free[k := [x] + h.free[k]])
    ensures Listing(t, m, e, k)
  {
    forall j | 0 <= j < k ensures GoodList(t, j) { SameList(h, t, j); }
    hide GoodList;
  }

  lemma MarkingIsListing(h: Heap, m: int, e: int, k: nat)
    requires Marking(h, m, e, k) && k < |h.alloc| - 1
    ensures Listing(h, m, e, k) && h.free[k] == []
  {
  }

  /** The two pairs of one size push exactly `Pushed`, unless they are the same pair. */
  lemma TwoPairs(m: int, e: int, k: nat)
    requires 0 < m <= e && !PushedTwice(m, e, k)
    ensures var left, right := BlkIndexNext(k, m), BlkIndex(k, e);
            var one := if OneFree(m, e, k, left) then [FreeOne(m, e, k, left)] else [];
            var two := if right > left && OneFree(m, e, k, right) then [FreeOne(m, e, k, right)] else [];
            && two + one == Pushed(m, e, k)
            && (right > left && OneFree(m, e, k, right) ==> FreeOne(m, e, k, right) !in one)
  {
    IndexBounds(k, m);
    IndexBounds(k, e);
  }

  /** The two pairs of size k are pairs, and what they add up to. */
  lemma LevelCount(h: Heap, n: nat, m: int, e: int, k: nat)
    requires Fits(n, m, e) && Bits(h, m, e) && |h.alloc| == n && k < n - 1
    requires |h.alloc[k]| == Width(n - 1 - k) && |h.alloc[k + 1]| == Width(n - 2 - k)
    ensures var left, right := BlkIndexNext(k, m), BlkIndex(k, e);
            && 0 < m <= e && right <= |h.alloc[k]| && IsPair(h.alloc, k, left) && IsPair(h.alloc, k, right)
            && LevelFree(m, e, k) + (if Stray(n, m, e, k) then BlkSize(k) else 0)
               == (if Differ(h.alloc, k, left) then BlkSize(k) else 0)
                  + (if right > left && Differ(h.alloc, k, right) then BlkSize(k) else 0)
            && (Differ(h.alloc, k, left) == OneFree(m, e, k, left)) && (OneFree(m, e, k, left) ==> left < |h.alloc[k]|)
            && (!Stray(n, m, e, k) ==>
                  && (right > left ==> Differ(h.alloc, k, right) == OneFree(m, e, k, right))
                  && (OneFree(m, e, k, right) && right > left ==> right < |h.alloc[k]|))
  {
    var left, right, w, up := BlkIndexNext(k, m), BlkIndex(k, e), Width(n - 1 - k), k + 1;
    PairsInRange(n, m, e, k);
    assert w == 2 * Width(n - 2 - k);
    DifferIs(h, m, e, k, left);
    DifferIs(h, m, e, k, right);
    IndexBounds(up, m);
    if right == w {
      EndOfHeap(up, n - 1 - up);
      AddrFacts(up, Width(n - 1 - up));
    }
    hide Bits, Differ, Fits;
  }

  /** bd_initfree at one size. */
  method InitFreeSize(a: Allocator, k: nat, m: int, e: int, ghost sound: bool) returns (size: int)
    requires Fits(|a.alloc|, m, e) && k < |a.alloc| - 1
    requires |a.alloc[k]| == Width(|a.alloc| - 1 - k) && |a.alloc[k + 1]| == Width(|a.alloc| - 2 - k)
    requires Bits(a.H(), m, e) && Closed(a.mem.next, a.mem.prev) && |a.mem.next| == |a.alloc| + |a.alloc[0]|
    requires sound ==> Marking(a.H(), m, e, k) && Ringed(a)
    modifies a`free, a.mem
    ensures Closed(a.mem.next, a.mem.prev) && |a.mem.next| == |a.alloc| + |a.alloc[0]| && |a.free| == |old(a.free)|
    ensures size == LevelFree(m, e, k) + (if Stray(|a.alloc|, m, e, k) then BlkSize(k) else 0)
    ensures sound && !PushedTwice(m, e, k) && !Stray(|a.alloc|, m, e, k) ==> Marking(a.H(), m, e, k + 1) && Ringed(a)
  {
    hide Listing, Linked, Tied, Marking, Bits, Fits, Pushed, LevelFree, Differ, IsPair, OneFree, FreeOne, Stray, PushedTwice;
    ghost var h := a.H();
    LevelCount(h, |a.alloc|, m, e, k);
    BitsShape(h, m, e);
    ghost var good := sound && !PushedTwice(m, e, k) && !Stray(|a.alloc|, m, e, k);
    if good {
      MarkingIsListing(h, m, e, k);
      TwoPairs(m, e, k);
    }
    var left, right := BlkIndexNext(k, m), BlkIndex(k, e);
    size := InitFreePair(a, k, left, m, e, good);
    if right > left {
      BitsSame(h, a.H(), m, e);
      var more := InitFreePair(a, k, right, m, e, good);
      size := size + more;
    }
    if good {
      assert a.free[k] == Pushed(m, e, k);
      PushedIsFreeList(h, m, e, k, a.H());
    }
  }

  /** bd_initfree: pushes every maximal block within [m, e) and counts their bytes, with those of
      blocks that are pushed twice or past the heap. */
  method InitFree(a: Allocator, m: int, e: int) returns (total: int)
    requires Fits(|a.alloc|, m, e) && forall k | 0 <= k < |a.alloc| :: |a.alloc[k]| == Width(|a.alloc| - 1 - k)
    requires Marking(a.H(), m, e, 0) && Ringed(a)
    modifies a`free, a.mem
    ensures total == CountFree(|a.alloc|, m, e, |a.alloc| - 1)
    ensures Clean(|a.alloc|, m, e, |a.alloc| - 1) ==> Marking(a.H(), m, e, |a.alloc| - 1) && Ringed(a)
  {
    total := 0;
    var k := 0;
    while k < |a.alloc| - 1
      invariant 0 <= k <= |a.alloc| - 1 && total == CountFree(|a.alloc|, m, e, k)
      invariant Bits(a.H(), m, e) && Closed(a.mem.next, a.mem.prev) && |a.mem.next| == |a.alloc| + |a.alloc[0]|
      invariant Clean(|a.alloc|, m, e, k) ==> Marking(a.H(), m, e, k) && Ringed(a)
    {
      hide Bits, Marking, Linked, Tied;
      ghost var h := a.H();
      var size := InitFreeSize(a, k, m, e, Clean(|a.alloc|, m, e, k));
      BitsSame(h, a.H(), m, e);
      total := total + size;
      k := k + 1;
    }
  }

  lemma BitsShape(h: Heap, m: int, e: int)
    requires Bits(h, m, e)
    ensures Shape(h)
  {
  }

  lemma BitsSame(h: Heap, t: Heap, m: int, e: int)
    requires Bits(h, m, e) && t == Heap(h.alloc, h.split, t.free) && |t.free| == |h.free|
    ensures Bits(t, m, e)
  {
  }

  lemma {:induction false} NextOfAddr(k: nat, i: int)
    ensures BlkIndexNext(k, Addr(k, i)) == i
    decreases k
  {
    if k > 0 { NextOfAddr(k - 1, 2 * i); }
  }

  /** blk_index_next is the source's quotient, plus one when there is a remainder. */
  lemma NextFormula(k: nat, p: int)
    requires p >= 0
    ensures BlkIndexNext(k, p) == p / BlkSize(k) + (if p % BlkSize(k) != 0 then 1 else 0)
  {
    IndexBounds(k, p);
    AddressFormulas(k, p, BlkIndex(k, p));
    Remainder(k, p);
    NextOfAddr(k, BlkIndex(k, p));
  }

  lemma Remainder(k: nat, p: int)
    requires p >= 0
    ensures p == Addr(k, BlkIndex(k, p)) + p % BlkSize(k)
  {
    AddressFormulas(k, p, BlkIndex(k, p));
    QuotientRemainder(p, BlkSize(k));
  }

  lemma QuotientRemainder(p: int, b: int)
    requires b > 0
    ensures p == (p / b) * b + p % b
  {
  }

  lemma MarkRange(n: nat, m: int, e: int, k: nat)
    requires Fits(n, m, e) && k < n
    ensures BlkIndexNext(k, m) <= Width(n - 1 - k) && BlkIndexNext(k, BlkSize(n - 1)) == Width(n - 1 - k)
    ensures BlkIndex(k, e) >= 0 && BlkIndex(k, 0) == 0
  {
    EndOfHeap(k, n - 1 - k);
    NextOfAddr(k, Width(n - 1 - k));
    AddrFacts(k, 0);
    OriginAddr(k);
    IndexBounds(k, e);
    if k < n - 1 {
      PairsInRange(n, m, e, k);
    } else {
      IndexBounds(k, m);
      WholeHeap(k, m);
    }
  }

  lemma TiedSame(h: Heap, t: Heap, lists: seq<seq<int>>, cells: nat)
    requires Tied(h, lists, cells) && Shape(t) && SameShape(h, t) && t.free == h.free
    ensures Tied(t, lists, cells)
  {
  }

  /** What the two calls of bd_mark leave behind. */
  lemma TwoMarks(h: Heap, g: Heap, t: Heap, n: nat, m: int, e: int)
    requires Fits(n, m, e) && Shape(h) && Shape(g) && Shape(t) && SameShape(h, g) && SameShape(g, t) && |h.alloc| == n
    requires t.free == h.free && forall k | 0 <= k < n :: h.free[k] == [] && |h.alloc[k]| == Width(n - 1 - k)
    requires forall k, i | IsBlock(h, k, i) :: !h.alloc[k][i] && !h.split[k][i]
    requires forall k, i | IsBlock(g, k, i) ::
               && g.alloc[k][i] == (h.alloc[k][i] || InRange(0, m, k, i))
               && g.split[k][i] == (h.split[k][i] || (k > 0 && InRange(0, m, k, i)))
    requires forall k, i | IsBlock(t, k, i) ::
               && t.alloc[k][i] == (g.alloc[k][i] || InRange(e, BlkSize(n - 1), k, i))
               && t.split[k][i] == (g.split[k][i] || (k > 0 && InRange(e, BlkSize(n - 1), k, i)))
    ensures Marking(t, m, e, 0)
  {
    forall k, i | IsBlock(t, k, i)
      ensures t.alloc[k][i] == Marked(m, e, k, i) && t.split[k][i] == (k > 0 && Marked(m, e, k, i))
    {
      MarkRange(n, m, e, k);
      assert IsBlock(h, k, i) && IsBlock(g, k, i);
    }
  }

  method MarkTables(a: Allocator, n: nat, m: int, e: int)
    requires Fits(n, m, e) && |a.alloc| == n && Shape(a.H()) && Tied(a.H(), a.mem.lists, |a.mem.next|)
    requires forall k, i | IsBlock(a.H(), k, i) :: !a.alloc[k][i] && !a.split[k][i]
    requires forall k | 0 <= k < n :: a.free[k] == [] && |a.alloc[k]| == Width(n - 1 - k)
    modifies a`alloc, a`split
    ensures Marking(a.H(), m, e, 0) && SameShape(old(a.H()), a.H()) && Tied(a.H(), a.mem.lists, |a.mem.next|)
  {
    ghost var h := a.H();
    forall k | 0 <= k < n
      ensures BlkIndexNext(k, m) <= |a.alloc[k]| && BlkIndexNext(k, BlkSize(n - 1)) <= |a.alloc[k]|
    {
      MarkRange(n, m, e, k);
    }
    assert BlkSize(n - 1) % LEAF_SIZE == 0 by {
      EndOfHeap(0, n - 1);
    }
    Mark(a, 0, m);
    ghost var g := a.H();
    Mark(a, e, BlkSize(n - 1));
    TwoMarks(h, g, a.H(), n, m, e);
    TiedSame(h, a.H(), a.mem.lists, |a.mem.next|);
  }

  // ---- the sizes and tables bd_init computes ----

  /** ROUNDUP */
  function RoundUp(x: int, s: int): int
    requires s > 0
  {
    ((x - 1) / s + 1) * s
  }

  /** Bytes of the bit array of a size d sizes below the largest. */
  function BitBytes(d: nat): int { RoundUp(Width(d), 8) / 8 }

  /** Bytes of the bit arrays of the n largest sizes. */
  function ArrayBytes(n: nat): int {
    if n == 0 then 0 else ArrayBytes(n - 1) + BitBytes(n - 1)
  }

  const SZ_INFO := 32     // sizeof(Sz_info): a list head and two pointers

  /** Bytes of all tables for n sizes: the size array, an alloc array for each size and a
      split array for each size but the smallest. */
  function TableBytes(n: nat): int
    requires n >= 1
  {
    RoundUp(SZ_INFO * n + ArrayBytes(n) + ArrayBytes(n - 1), LEAF_SIZE)
  }

  /** log2 */
  method Log2(x: int) returns (k: nat)
    requires x >= 0
    ensures (x == 0 ==> k == 0) && (x > 0 ==> Width(k) <= x < Width(k + 1))
  {
    k := 0;
    var n := x;
    ghost var unit := 1;
    while n > 1
      invariant unit == Width(k) && n >= 0 && (x > 0 ==> n >= 1) && (x == 0 ==> k == 0 && n == 0)
      invariant n * unit <= x < (n + 1) * unit
    {
      Halve(x, n, unit);
      k := k + 1;
      n := n / 2;
      unit := 2 * unit;
    }
  }

  lemma Halve(x: int, n: int, unit: int)
    requires n * unit <= x < (n + 1) * unit && unit >= 1
    ensures n / 2 * (2 * unit) <= x < (n / 2 + 1) * (2 * unit)
  {
    assert n / 2 * (2 * unit) == (n / 2 * 2) * unit;
    assert (n / 2 + 1) * (2 * unit) == (n / 2 * 2 + 2) * unit;
    Scale(n, n / 2 * 2, unit);
    Scale(n / 2 * 2 + 2, n + 1, unit);
  }

  lemma {:induction false} SizeOfWidth(k: nat)
    ensures BlkSize(k) == LEAF_SIZE * Width(k)
  {
    if k > 0 { SizeOfWidth(k - 1); }
  }

  /** The number of sizes bd_init needs: the largest is the one firstk would choose for all
      of the memory. */
  method NumSizes(sz: int) returns (n: nat)
    requires sz >= 0
    ensures n >= 1 && IsFirstK(n - 1, sz) && forall k: nat | IsFirstK(k, sz) :: n == k + 1
  {
    var k := Log2(sz / LEAF_SIZE);
    n := k + 1;
    SizeOfWidth(k);
    SizeOfWidth(k + 1);
    if k > 0 { SizeOfWidth(k - 1); }
    if sz > BlkSize(n - 1) {
      n := n + 1;
    }
    forall j: nat | IsFirstK(j, sz) ensures n == j + 1 {
      FirstKUnique(j, n - 1, sz);
    }
  }

  /** Where the tables end: bd_init's three steps over the table area. */
  method LayTables(n: nat) returns (p: int)
    requires n >= 1
    ensures p == TableBytes(n)
  {
    p := SZ_INFO * n;
    for k := 0 to n
      invariant p == SZ_INFO * n + ArrayBytes(n) - ArrayBytes(n - k)
    {
      p := p + RoundUp(Width(n - 1 - k), 8) / 8;
    }
    for k := 1 to n
      invariant p == SZ_INFO * n + ArrayBytes(n) + ArrayBytes(n - 1) - ArrayBytes(n - k)
    {
      p := p + RoundUp(Width(n - 1 - k), 8) / 8;
    }
    p := RoundUp(p, LEAF_SIZE);
  }

  // ---- exactly when bd_init panics ----

  lemma RoundUpBounds(x: int, s: int)
    requires s > 0
    ensures x <= RoundUp(x, s) < x + s
  {
    QuotientRemainder(x - 1, s);
    assert RoundUp(x, s) == (x - 1) / s * s + s;
  }

  lemma BitBytesBound(d: nat)
    ensures 8 * BitBytes(d) <= Width(d) + 8
  {
    RoundUpBounds(Width(d), 8);
  }

  /** From nine sizes on the tables take at most an eighth of the heap. */
  lemma {:induction false} TablesSmall(n: nat)
    requires n >= 9
    ensures Width(n) >= 512 && 8 * (SZ_INFO * n + ArrayBytes(n) + ArrayBytes(n - 1) + LEAF_SIZE) <= BlkSize(n - 1)
    ensures 0 < 8 * TableBytes(n) <= BlkSize(n - 1)
  {
    SizeOfWidth(n - 1);
    ArraysPositive(n);
    if n == 9 {
      EightSizes();
      OneMoreArray(8, 34, 256);
    } else {
      TablesSmall(n - 1);
      SizeOfWidth(n - 2);
      BitBytesBound(n - 1);
      BitBytesBound(n - 2);
    }
    RoundUpBounds(SZ_INFO * n + ArrayBytes(n) + ArrayBytes(n - 1), LEAF_SIZE);
  }

  lemma {:induction false} ArraysPositive(n: nat)
    ensures ArrayBytes(n) >= 0
  {
    if n > 0 {
      ArraysPositive(n - 1);
      RoundUpBounds(Width(n - 1), 8);
    }
  }

  lemma BitBytesIs(d: nat)
    ensures BitBytes(d) == (Width(d) + 7) / 8
  {
    var q := (Width(d) - 1) / 8 + 1;
    assert RoundUp(Width(d), 8) == q * 8;
    assert q * 8 / 8 == q;
  }

  lemma OneArray()
    ensures ArrayBytes(0) == 0 && ArrayBytes(1) == 1 && Width(1) == 2
  {
    BitBytesIs(0);
  }

  lemma OneMoreArray(n: nat, bytes: int, width: int)
    requires ArrayBytes(n) == bytes && Width(n) == width
    ensures ArrayBytes(n + 1) == bytes + (width + 7) / 8 && Width(n + 1) == 2 * width
  {
    BitBytesIs(n);
  }

  lemma RoundUpIs(x: int, q: int)
    requires 16 * (q - 1) < x <= 16 * q
    ensures RoundUp(x, 16) == 16 * q
  {
    assert (x - 1) / 16 == q - 1;
  }

  lemma TablesAre(n: nat, bytes: int, fewer: int, q: int)
    requires n >= 1 && ArrayBytes(n) == bytes && ArrayBytes(n - 1) == fewer
    requires 16 * (q - 1) < 32 * n + bytes + fewer <= 16 * q
    ensures TableBytes(n) == 16 * q
  {
    hide RoundUp, ArrayBytes;
    RoundUpIs(32 * n + bytes + fewer, q);
  }

  /** The tables for up to eight sizes. */
  lemma EightSizes()
    ensures TableBytes(1) == 48 && TableBytes(2) == 80 && TableBytes(3) == 112 && TableBytes(4) == 144
    ensures TableBytes(5) == 176 && TableBytes(6) == 208 && TableBytes(7) == 256 && TableBytes(8) == 320
    ensures Width(8) == 256 && ArrayBytes(8) == 34
  {
    hide Width, ArrayBytes, BitBytes, TableBytes, RoundUp;
    OneArray();
    OneMoreArray(1, 1, 2);
    OneMoreArray(2, 2, 4);
    OneMoreArray(3, 3, 8);
    OneMoreArray(4, 4, 16);
    OneMoreArray(5, 6, 32);
    OneMoreArray(6, 10, 64);
    OneMoreArray(7, 18, 128);
    TablesAre(1, 1, 0, 3);
    TablesAre(2, 2, 1, 5);
    TablesAre(3, 3, 2, 7);
    TablesAre(4, 4, 3, 9);
    TablesAre(5, 6, 4, 11);
    TablesAre(6, 10, 6, 13);
    TablesAre(7, 18, 10, 16);
    TablesAre(8, 34, 18, 20);
  }

  /** The block of each of the first seven sizes that an address is in. */
  lemma FirstIndexes(p: int)
    requires p >= 0
    ensures BlkIndex(0, p) == p / 16 && BlkIndex(1, p) == p / 32 && BlkIndex(2, p) == p / 64 && BlkIndex(3, p) == p / 128
    ensures BlkIndex(4, p) == p / 256 && BlkIndex(5, p) == p / 512 && BlkIndex(6, p) == p / 1024
  {
    assert BlkIndex(1, p) == BlkIndex(0, p) / 2 && BlkIndex(2, p) == BlkIndex(1, p) / 2;
    assert BlkIndex(3, p) == BlkIndex(2, p) / 2 && BlkIndex(4, p) == BlkIndex(3, p) / 2;
    assert BlkIndex(5, p) == BlkIndex(4, p) / 2 && BlkIndex(6, p) == BlkIndex(5, p) / 2;
  }

  lemma FirstNexts(p: int)
    requires p >= 0 && p % LEAF_SIZE == 0
    ensures BlkIndexNext(0, p) == p / 16 && BlkIndexNext(1, p) == (p / 16 + 1) / 2
    ensures BlkIndexNext(2, p) == (BlkIndexNext(1, p) + 1) / 2 && BlkIndexNext(3, p) == (BlkIndexNext(2, p) + 1) / 2
    ensures BlkIndexNext(4, p) == (BlkIndexNext(3, p) + 1) / 2 && BlkIndexNext(5, p) == (BlkIndexNext(4, p) + 1) / 2
    ensures BlkIndexNext(6, p) == (BlkIndexNext(5, p) + 1) / 2
  {
  }

  /** No block of a size below k is pushed twice. */
  ghost predicate NoneTwice(m: int, e: int, k: nat) {
    forall j: nat | j < k :: !PushedTwice(m, e, j)
  }

  /** Five sizes: the free half of a pair is pushed twice just when the memory reaches byte 224. */
  lemma FiveSizes(e: int)
    requires 176 <= e < 256 && e % LEAF_SIZE == 0
    ensures NoneTwice(176, e, 4) <==> e < 224
  {
    FirstIndexes(e);
    FirstNexts(176);
    assert BlkIndexNext(1, 176) == 6 && BlkIndexNext(2, 176) == 3 && BlkIndexNext(3, 176) == 2;
    if e >= 224 {
      assert PushedTwice(176, e, 1);
    } else {
      forall k: nat | k < 4 ensures !PushedTwice(176, e, k) {
        assert k == 0 || k == 1 || k == 2 || k == 3;
      }
    }
  }

  /** Six sizes: the free half of a pair is pushed twice just when the memory reaches byte 320. */
  lemma SixSizes(e: int)
    requires 256 <= e < 512 && e % LEAF_SIZE == 0
    ensures NoneTwice(208, e, 5) <==> e < 320
  {
    FirstIndexes(e);
    FirstNexts(208);
    assert BlkIndexNext(2, 208) == 4 && BlkIndexNext(3, 208) == 2;
    if e >= 320 {
      assert PushedTwice(208, e, if e < 384 then 2 else 3);
    } else {
      forall k: nat | k < 5 ensures !PushedTwice(208, e, k) {
        assert k == 0 || k == 1 || k == 2 || k == 3 || k == 4;
      }
    }
  }

  lemma SevenSizes(e: int)
    requires 512 <= e < 1024
    ensures NoneTwice(256, e, 6)
  {
    FirstIndexes(e);
    FirstNexts(256);
    forall k: nat | k < 6 ensures !PushedTwice(256, e, k) {
      assert k == 0 || k == 1 || k == 2 || k == 3 || k == 4 || k == 5;
    }
  }

  lemma EightSizesFit(e: int)
    requires 1024 <= e < 2048
    ensures NoneTwice(320, e, 7)
  {
    FirstIndexes(e);
    FirstNexts(320);
    forall k: nat | k < 7 ensures !PushedTwice(320, e, k) {
      assert k == 0 || k == 1 || k == 2 || k == 3 || k == 4 || k == 5 || k == 6;
    }
  }

  /** The end of the available memory, as bd_init computes it. */
  function EndOf(n: nat, sz: int): int
    requires n >= 1
  {
    var unavailable := BlkSize(n - 1) - sz;
    BlkSize(n - 1) - (if unavailable > 0 then RoundUp(unavailable, LEAF_SIZE) else unavailable)
  }

  /** The end is the size rounded down to whole leaves. */
  lemma EndIs(n: nat, sz: int)
    requires n >= 2 && IsFirstK(n - 1, sz)
    ensures EndOf(n, sz) == sz - sz % LEAF_SIZE && BlkSize(n - 2) <= EndOf(n, sz) <= BlkSize(n - 1)
    ensures EndOf(n, sz) == BlkSize(n - 1) <==> sz == BlkSize(n - 1)
  {
    SizeOfWidth(n - 1);
    SizeOfWidth(n - 2);
    var w, u := Width(n - 1), LEAF_SIZE * Width(n - 1) - sz;
    assert u > 0 ==> RoundUp(u, LEAF_SIZE) == LEAF_SIZE * w - (sz - sz % LEAF_SIZE);
  }

  /** bd_init's tables fit in the memory it is given exactly from 176 bytes on. */
  lemma TablesFitIff(n: nat, sz: int)
    requires n >= 1 && sz >= 0 && IsFirstK(n - 1, sz)
    ensures TableBytes(n) <= EndOf(n, sz) <==> sz >= 176
  {
    if n == 1 {
      EightSizes();
      assert EndOf(1, sz) <= BlkSize(0) == 16 && sz <= 16;
      hide TableBytes;
    } else {
      EndIs(n, sz);
      hide EndOf, TableBytes, IsFirstK, BlkSize;
      if n >= 9 { ManyTablesFit(n); } else { FewTablesFit(n); }
    }
  }

  lemma FewTablesFit(n: nat)
    requires 2 <= n <= 8
    ensures n <= 4 ==> BlkSize(n - 1) < TableBytes(n) && BlkSize(n - 1) <= 128
    ensures n == 5 ==> TableBytes(n) == 176
    ensures n >= 6 ==> TableBytes(n) <= BlkSize(n - 2) && BlkSize(n - 2) >= 256
  {
    hide BlkSize, TableBytes;
    SmallSizes();
    EightSizes();
  }

  lemma ManyTablesFit(n: nat)
    requires n >= 9
    ensures TableBytes(n) <= BlkSize(n - 2) && BlkSize(n - 2) >= 256
  {
    assert BlkSize(n - 1) == 2 * BlkSize(n - 2);
    hide BlkSize, TableBytes;
    TablesSmall(n);
    SmallSizes();
    BlkSizeMono(4, n - 2);
  }

  /** Where the memory ends below the end of the heap no block past it is pushed. */
  lemma CleanBelow(n: nat, m: int, e: int)
    requires n >= 1 && e < BlkSize(n - 1)
    ensures Clean(n, m, e, n - 1) <==> NoneTwice(m, e, n - 1)
  {}

  /** Where the memory fills the heap no block is pushed twice, and one past it is pushed
      exactly when the tables take at most a quarter. */
  lemma CleanFull(n: nat, m: int)
    requires n >= 4 && Fits(n, m, BlkSize(n - 1))
    ensures Clean(n, m, BlkSize(n - 1), n - 1) <==> m > BlkSize(n - 3)
  {
    var e := BlkSize(n - 1);
    forall k: nat | k < n - 1 ensures !PushedTwice(m, e, k) && (Stray(n, m, e, k) ==> m <= BlkSize(n - 3)) {
      PairsInRange(n, m, e, k);
      WidthBytes(n - 1 - k);
      if Stray(n, m, e, k) {
        SecondIsFree(k + 1, m);
        BlkSizeMono(k + 1, n - 3);
      }
    }
    if m <= BlkSize(n - 3) {
      SecondIsFree(n - 3, m);
      WidthBytes(3);
      assert Stray(n, m, e, n - 4);
    }
  }

  /** The second block of size k is free exactly when the tables fit in the first. */
  lemma SecondIsFree(k: nat, m: int)
    requires m > 0
    ensures BlkIndexNext(k, m) <= 1 <==> m <= BlkSize(k)
  {
    IndexBounds(k, m);
    OriginAddr(k);
    AddrFacts(k, 0);
    if BlkIndexNext(k, m) >= 2 { AddrMono(k, 1, BlkIndexNext(k, m) - 1); }
  }

  /** The numbers of bytes, from 176 on, for which bd_init panics. */
  ghost predicate InitPanics(sz: int) {
    224 <= sz < 256 || 320 <= sz < 512 || (1024 <= sz && PowerOfTwo(sz))
  }

  ghost predicate PowerOfTwo(sz: int) {
    exists k: nat :: sz == BlkSize(k)
  }

  /** Exactly when bd_init panics, in terms of the number of bytes it is given. */
  lemma InitPanicsExactly(n: nat, sz: int)
    requires sz >= 176 && n >= 1 && IsFirstK(n - 1, sz)
    ensures Fits(n, TableBytes(n), EndOf(n, sz))
    ensures Clean(n, TableBytes(n), EndOf(n, sz), n - 1) <==> !InitPanics(sz)
  {
    hide TableBytes, EndOf, IsFirstK, NoneTwice, Clean, PowerOfTwo;
    AtLeastFive(n, sz);
    SizeFits(n, sz);
    PowerIff(n, sz);
    if sz == BlkSize(n - 1) {
      FullPanics(n);
    } else {
      CleanBelow(n, TableBytes(n), EndOf(n, sz));
      TwicePanics(n, sz);
    }
  }

  /** Memory that does not fill its heap. */
  lemma TwicePanics(n: nat, sz: int)
    requires sz >= 176 && n >= 5 && IsFirstK(n - 1, sz) && sz != BlkSize(n - 1)
    ensures NoneTwice(TableBytes(n), EndOf(n, sz), n - 1) <==> !(224 <= sz < 256 || 320 <= sz < 512)
  {
    hide TableBytes, EndOf, IsFirstK, NoneTwice, BlkSize;
    SmallSizes();
    EightSizes();
    EndIs(n, sz);
    if n == 5 {
      FiveSizes(EndOf(n, sz));
    } else if n == 6 {
      SixSizes(EndOf(n, sz));
    } else if n == 7 {
      SevenSizes(EndOf(n, sz));
    } else if n == 8 {
      EightSizesFit(EndOf(n, sz));
    } else {
      BlkSizeMono(7, n - 2);
      RoomySizes(n, EndOf(n, sz));
    }
  }

  /** Memory that fills its heap: panics from seven sizes on. */
  lemma FullPanics(n: nat)
    requires n >= 5 && Fits(n, TableBytes(n), BlkSize(n - 1)) && EndOf(n, BlkSize(n - 1)) == BlkSize(n - 1)
    ensures Clean(n, TableBytes(n), EndOf(n, BlkSize(n - 1)), n - 1) <==> BlkSize(n - 1) < 1024
    ensures BlkSize(n - 1) < 1024 ==> BlkSize(n - 1) == 256 || BlkSize(n - 1) == 512
  {
    hide TableBytes, EndOf, Clean, Fits;
    SmallSizes();
    EightSizes();
    CleanFull(n, TableBytes(n));
    if n >= 7 { BlkSizeMono(6, n - 1); }
    if n >= 9 { TablesSmall(n); }
  }

  lemma SizeFits(n: nat, sz: int)
    requires sz >= 176 && n >= 5 && IsFirstK(n - 1, sz)
    ensures Fits(n, TableBytes(n), EndOf(n, sz)) && EndOf(n, sz) <= BlkSize(n - 1)
    ensures sz == BlkSize(n - 1) <==> EndOf(n, sz) == BlkSize(n - 1)
  {
    hide TableBytes, EndOf, IsFirstK, BlkSize;
    SmallSizes();
    EndIs(n, sz);
    TablesFitIff(n, sz);
    TablesRoom(n);
  }

  /** The tables are whole leaves and take at most seven eighths of the heap. */
  lemma TablesRoom(n: nat)
    requires n >= 5
    ensures 0 < TableBytes(n) && TableBytes(n) % LEAF_SIZE == 0 && 8 * TableBytes(n) <= 7 * BlkSize(n - 1)
  {
    hide BlkSize, TableBytes;
    TablesAligned(n);
    SmallSizes();
    EightSizes();
    if n >= 9 { TablesSmall(n); }
  }

  lemma TablesAligned(n: nat)
    requires n >= 1
    ensures TableBytes(n) % 16 == 0
  {
    var q := (32 * n + ArrayBytes(n) + ArrayBytes(n - 1) - 1) / 16 + 1;
    assert TableBytes(n) == q * 16;
  }

  lemma PowerIff(n: nat, sz: int)
    requires n >= 1 && IsFirstK(n - 1, sz) && sz > LEAF_SIZE
    ensures PowerOfTwo(sz) <==> sz == BlkSize(n - 1)
  {
    if k: nat :| sz == BlkSize(k) {
      assert IsFirstK(k, sz);
      FirstKUnique(k, n - 1, sz);
    }
  }

  lemma AtLeastFive(n: nat, sz: int)
    requires sz > 128 && n >= 1 && IsFirstK(n - 1, sz)
    ensures n >= 5
  {
    SmallSizes();
    if n <= 4 { BlkSizeMono(n - 1, 3); }
  }

  lemma RoomySizes(n: nat, e: int)
    requires n >= 9 && BlkSize(n - 2) <= e < BlkSize(n - 1)
    ensures NoneTwice(TableBytes(n), e, n - 1)
  {
    var m := TableBytes(n);
    TablesSmall(n);
    hide TableBytes;
    forall k: nat | k < n - 1 ensures !PushedTwice(m, e, k) {
      RoomyInit(m, e, k);
    }
  }

  lemma SmallSizes()
    ensures BlkSize(0) == 16 && BlkSize(1) == 32 && BlkSize(2) == 64 && BlkSize(3) == 128
    ensures BlkSize(4) == 256 && BlkSize(5) == 512 && BlkSize(6) == 1024 && BlkSize(7) == 2048 && BlkSize(8) == 4096
  {
    assert BlkSize(1) == 32 && BlkSize(2) == 64 && BlkSize(3) == 128 && BlkSize(4) == 256;
  }

  /** The rest of bd_init, once it knows the number of sizes, the end of its tables and the
      end of the memory. */
  method InitHeap(n: nat, m: int, e: int) returns (a: Allocator, panicked: bool)
    requires Fits(n, m, e)
    ensures fresh(a) && fresh(a.mem) && |a.alloc| == n
    ensures panicked <==> !Clean(n, m, e, n - 1)
    ensures !panicked ==> a.Valid()
    ensures !panicked ==> forall k, i :: Live(a.H(), k, i) <==> k == 0 && 0 <= i < Width(n - 1) && Marked(m, e, 0, i)
  {
    hide BlkSize, Clean, Linked, Tied, Marking, Fits, CountFree, Inv;
    FitsFacts(n, m, e);
    InitPanicIff(n, m, e);
    a := new Allocator(n);
    MarkTables(a, n, m, e);
    var total := InitFree(a, m, e);
    panicked := total != e - m;
    if !panicked {
      MarkedInv(a.H(), m, e);
    }
  }

  /** bd_init on the memory [base, end), which can hold its tables (TablesFitIff).  It panics if
      and only if `InitPanics`; otherwise the result is a proper heap in which exactly the leaves
      of the tables and those past the end are in use. */
  method BdInit(base: int, end: int) returns (a: Allocator, panicked: bool)
    requires 0 <= base && 176 <= end - RoundUp(base, LEAF_SIZE) && end - base < 0x8000_0000
    ensures fresh(a) && fresh(a.mem) && |a.alloc| >= 1 && IsFirstK(|a.alloc| - 1, end - RoundUp(base, LEAF_SIZE))
    ensures panicked <==> InitPanics(end - RoundUp(base, LEAF_SIZE))
    ensures !panicked ==> a.Valid()
    ensures !panicked ==>
      var n := |a.alloc|;
      var m, e := TableBytes(n), EndOf(n, end - RoundUp(base, LEAF_SIZE));
      forall k, i :: Live(a.H(), k, i) <==> k == 0 && 0 <= i < Width(n - 1) && Marked(m, e, 0, i)
  {
    hide TableBytes, RoundUp, IsFirstK, Clean, Fits, EndOf, InitPanics;
    var sz := end - RoundUp(base, LEAF_SIZE);
    var n := NumSizes(sz);
    InitPanicsExactly(n, sz);
    var m := LayTables(n);
    a, panicked := InitHeap(n, m, EndOf(n, sz));
  }

  lemma FitsFacts(n: nat, m: int, e: int)
    requires Fits(n, m, e)
    ensures n >= 2 && 0 < m <= e && m % LEAF_SIZE == 0
  {
  }

  /** One memory of each failing kind: 240, 384 and 1024 bytes. */
  method InitCanPanic() returns (five: bool, six: bool, full: bool)
    ensures five && six && full
  {
    SmallSizes();
    assert RoundUp(0x1000, LEAF_SIZE) == 0x1000;
    assert InitPanics(240) && InitPanics(384) && PowerOfTwo(BlkSize(6)) && InitPanics(1024);
    hide RoundUp, InitPanics;
    var a;
    a, five := BdInit(0x1000, 0x1000 + 240);
    a, six := BdInit(0x1000, 0x1000 + 384);
    a, full := BdInit(0x1000, 0x1000 + 1024);
  }
}
