/** The tree of blocks described by the buddy allocator's bit arrays and free lists
    (kernel/buddy.c).  Block (k, i) is the i-th block of size k; its halves are
    (k-1, 2i) and (k-1, 2i+1). */
module BuddyTree {
  import opened Basics

  /** alloc[k][i]: block (k,i) is in use or split; split[k][i]: it is split;
      free[k]: the free list of size k, first element first. */
  datatype Heap = Heap(alloc: seq<seq<bool>>, split: seq<seq<bool>>, free: seq<seq<int>>)

  /** One block of the largest size, and twice as many of each smaller one. */
  ghost predicate Shape(h: Heap) {
    && |h.alloc| == |h.split| == |h.free| >= 1
    && |h.alloc[|h.alloc| - 1]| == 1
    && (forall k | 0 <= k < |h.alloc| - 1 :: |h.alloc[k]| == 2 * |h.alloc[k + 1]|)
    && (forall k | 0 <= k < |h.alloc| :: |h.split[k]| == |h.alloc[k]|)
  }

  ghost predicate IsBlock(h: Heap, k: int, i: int) {
    0 <= k < |h.alloc| && 0 <= i < |h.alloc[k]|
  }

  function Buddy(i: int): int { if i % 2 == 0 then i + 1 else i - 1 }

  /** The block is a node of the tree: every larger block around it is split. */
  ghost predicate Exists(h: Heap, k: int, i: int)
    requires Shape(h) && IsBlock(h, k, i)
  {
    k == |h.alloc| - 1 || h.split[k + 1][i / 2]
  }

  /** The bits of one block.  A split block has a half in use: no two buddies are both free. */
  ghost predicate GoodBits(h: Heap, k: int, i: int)
    requires Shape(h) && IsBlock(h, k, i)
  {
    && (h.split[k][i] ==> k > 0 && h.alloc[k][i] && (h.alloc[k - 1][2 * i] || h.alloc[k - 1][2 * i + 1]))
    && (h.alloc[k][i] ==> Exists(h, k, i))
  }

  ghost predicate IsFree(h: Heap, k: int, i: int)
    requires Shape(h) && IsBlock(h, k, i)
  {
    Exists(h, k, i) && !h.alloc[k][i]
  }

  /** The free list of size k holds exactly the free blocks of that size, once each. */
  ghost predicate GoodList(h: Heap, k: int)
    requires Shape(h) && 0 <= k < |h.alloc|
  {
    && Distinct(h.free[k])
    && (forall i :: i in h.free[k] <==> IsBlock(h, k, i) && IsFree(h, k, i))
  }

  ghost predicate Inv(h: Heap) {
    && Shape(h)
    && (forall k, i | IsBlock(h, k, i) :: GoodBits(h, k, i))
    && (forall k | 0 <= k < |h.alloc| :: GoodList(h, k))
  }

  /** An allocated block (or a reserved one): in use and not split. */
  ghost predicate Live(h: Heap, k: int, i: int) {
    Shape(h) && IsBlock(h, k, i) && h.alloc[k][i] && !h.split[k][i]
  }

  // ---- the four elementary changes ----

  function Set(bits: seq<seq<bool>>, k: int, i: int, b: bool): seq<seq<bool>>
    requires 0 <= k < |bits| && 0 <= i < |bits[k]|
  {
    bits[k := bits[k][i := b]]
  }

  /** bd_malloc pops the first free block of size k and marks it. */
  function Taken(h: Heap, k: int): Heap
    requires Shape(h) && 0 <= k < |h.alloc| && h.free[k] != [] && IsBlock(h, k, h.free[k][0])
  {
    Heap(Set(h.alloc, k, h.free[k][0], true), h.split, h.free[k := h.free[k][1..]])
  }

  /** bd_malloc splits (k,i), keeps the lower half and frees the upper one. */
  function SplitAt(h: Heap, k: int, i: int): Heap
    requires Shape(h) && IsBlock(h, k, i) && k > 0
  {
    Heap(Set(h.alloc, k - 1, 2 * i, true), Set(h.split, k, i, true), h.free[k - 1 := [2 * i + 1] + h.free[k - 1]])
  }

  /** The list without its element x. */
  function Without(s: seq<int>, x: int): seq<int> {
    if s == [] then [] else if s[0] == x then s[1..] else [s[0]] + Without(s[1..], x)
  }

  /** bd_free joins (k,i) with its free buddy. */
  function Merged(h: Heap, k: int, i: int): Heap
    requires Shape(h) && IsBlock(h, k, i) && k < |h.alloc| - 1
  {
    Heap(Set(h.alloc, k, i, false), Set(h.split, k + 1, i / 2, false), h.free[k := Without(h.free[k], Buddy(i))])
  }

  /** bd_free puts (k,i) on its free list. */
  function Freed(h: Heap, k: int, i: int): Heap
    requires Shape(h) && IsBlock(h, k, i)
  {
    Heap(Set(h.alloc, k, i, false), h.split, h.free[k := [i] + h.free[k]])
  }

  lemma ListChange(h: Heap, t: Heap, k: int)
    requires Shape(h) && Shape(t) && |t.alloc| == |h.alloc| && 0 <= k < |h.alloc| && |t.alloc[k]| == |h.alloc[k]|
    requires GoodList(h, k) && Distinct(t.free[k])
    requires forall i | IsBlock(h, k, i) && IsFree(t, k, i) != IsFree(h, k, i) :: (i in t.free[k]) == IsFree(t, k, i)
    requires forall i | !IsBlock(h, k, i) || IsFree(t, k, i) == IsFree(h, k, i) :: (i in t.free[k]) == (i in h.free[k])
    ensures GoodList(t, k)
  {
  }

  /** t is h with another set of live blocks: `gone` out, `born` in. */
  ghost predicate LiveChange(h: Heap, t: Heap, gone: (int, int), born: (int, int)) {
    && (forall k, i :: (k, i) != gone && (k, i) != born ==> Live(t, k, i) == Live(h, k, i))
    && Live(t, born.0, born.1) && !Live(h, born.0, born.1)
    && (gone != born ==> Live(h, gone.0, gone.1) && !Live(t, gone.0, gone.1))
  }

  lemma TakenBits(h: Heap, k: int)
    requires Inv(h) && 0 <= k < |h.alloc| && h.free[k] != []
    ensures IsBlock(h, k, h.free[k][0]) && IsFree(h, k, h.free[k][0]) && !h.split[k][h.free[k][0]]
    ensures forall a, b | IsBlock(Taken(h, k), a, b) :: GoodBits(Taken(h, k), a, b)
  {
    var i := h.free[k][0];
    assert GoodList(h, k) && i in h.free[k];
    var t := Taken(h, k);
    assert GoodBits(h, k, i);
    forall a, b | IsBlock(t, a, b) ensures GoodBits(t, a, b) { assert GoodBits(h, a, b); }
  }

  lemma TakenList(h: Heap, k: int, a: int)
    requires Shape(h) && 0 <= k < |h.alloc| && h.free[k] != [] && IsBlock(h, k, h.free[k][0])
    requires IsFree(h, k, h.free[k][0]) && 0 <= a < |h.alloc| && GoodList(h, a)
    ensures GoodList(Taken(h, k), a)
  {
    var t, i := Taken(h, k), h.free[k][0];
    assert forall b | IsBlock(h, a, b) :: IsFree(t, a, b) == (IsFree(h, a, b) && (a, b) != (k, i));
    if a == k {
      assert forall y :: y in h.free[k] <==> y == i || y in h.free[k][1..];
    }
    ListChange(h, t, a);
  }

  lemma TakenKeeps(h: Heap, k: int)
    requires Inv(h) && 0 <= k < |h.alloc| && h.free[k] != []
    ensures var i := h.free[k][0];
            IsBlock(h, k, i) && Inv(Taken(h, k)) && LiveChange(h, Taken(h, k), (k, i), (k, i))
  {
    TakenBits(h, k);
    forall a | 0 <= a < |h.alloc| ensures GoodList(Taken(h, k), a) { TakenList(h, k, a); }
    hide GoodBits, GoodList, IsFree;
  }

  lemma PushIs(s: seq<int>, x: int)
    requires Distinct(s) && x !in s
    ensures Distinct([x] + s) && forall y :: y in [x] + s <==> y in s || y == x
  {
  }

  lemma SplitBits(h: Heap, k: int, i: int)
    requires Inv(h) && Live(h, k, i) && k > 0
    ensures IsBlock(h, k - 1, 2 * i) && IsBlock(h, k - 1, 2 * i + 1)
    ensures !h.alloc[k - 1][2 * i] && !h.alloc[k - 1][2 * i + 1] && !Exists(h, k - 1, 2 * i + 1)
    ensures forall a, b | IsBlock(SplitAt(h, k, i), a, b) :: GoodBits(SplitAt(h, k, i), a, b)
  {
    var t := SplitAt(h, k, i);
    assert GoodBits(h, k, i) && GoodBits(h, k - 1, 2 * i) && GoodBits(h, k - 1, 2 * i + 1);
    forall a, b | IsBlock(t, a, b) ensures GoodBits(t, a, b) { assert GoodBits(h, a, b); }
  }

  lemma SplitList(h: Heap, k: int, i: int, a: int)
    requires Shape(h) && Live(h, k, i) && k > 0 && IsBlock(h, k - 1, 2 * i) && IsBlock(h, k - 1, 2 * i + 1)
    requires !h.alloc[k - 1][2 * i + 1] && !Exists(h, k - 1, 2 * i + 1)
    requires 0 <= a < |h.alloc| && GoodList(h, a)
    ensures GoodList(SplitAt(h, k, i), a)
  {
    var t, j := SplitAt(h, k, i), 2 * i + 1;
    assert forall b | IsBlock(h, a, b) :: IsFree(t, a, b) == (IsFree(h, a, b) || (a, b) == (k - 1, j));
    if a == k - 1 { PushIs(h.free[a], j); }
    ListChange(h, t, a);
  }

  lemma SplitKeeps(h: Heap, k: int, i: int)
    requires Inv(h) && Live(h, k, i) && k > 0
    ensures IsBlock(h, k - 1, 2 * i) && Inv(SplitAt(h, k, i)) && LiveChange(h, SplitAt(h, k, i), (k, i), (k - 1, 2 * i))
  {
    SplitBits(h, k, i);
    forall a | 0 <= a < |h.alloc| ensures GoodList(SplitAt(h, k, i), a) { SplitList(h, k, i, a); }
    hide GoodBits, GoodList, IsFree;
  }

  lemma {:induction false} WithoutIs(s: seq<int>, x: int)
    requires Distinct(s)
    ensures Distinct(Without(s, x)) && forall y :: y in Without(s, x) <==> y in s && y != x
  {
    if s != [] {
      assert Distinct(s[1..]) && s[0] !in s[1..];
      assert forall y :: y in s <==> y == s[0] || y in s[1..];
      if s[0] != x {
        WithoutIs(s[1..], x);
        PushIs(Without(s[1..], x), s[0]);
      }
    }
  }

  lemma MergeBits(h: Heap, k: int, i: int)
    requires Inv(h) && Live(h, k, i) && k < |h.alloc| - 1 && !h.alloc[k][Buddy(i)]
    ensures IsBlock(h, k, Buddy(i)) && IsFree(h, k, Buddy(i)) && IsBlock(h, k + 1, i / 2) && h.alloc[k + 1][i / 2]
    ensures h.split[k + 1][i / 2]
    ensures forall a, b | IsBlock(Merged(h, k, i), a, b) :: GoodBits(Merged(h, k, i), a, b)
  {
    var t := Merged(h, k, i);
    assert GoodBits(h, k, i) && GoodBits(h, k, Buddy(i)) && GoodBits(h, k + 1, i / 2);
    forall a, b | IsBlock(t, a, b) ensures GoodBits(t, a, b) { assert GoodBits(h, a, b); }
  }

  lemma MergeList(h: Heap, k: int, i: int, a: int)
    requires Shape(h) && Live(h, k, i) && k < |h.alloc| - 1 && IsBlock(h, k, Buddy(i)) && IsFree(h, k, Buddy(i))
    requires h.alloc[k + 1][i / 2] && 0 <= a < |h.alloc| && GoodList(h, a)
    ensures GoodList(Merged(h, k, i), a)
  {
    var t, j := Merged(h, k, i), Buddy(i);
    assert forall b | IsBlock(h, a, b) :: IsFree(t, a, b) == (IsFree(h, a, b) && (a, b) != (k, j));
    if a == k { WithoutIs(h.free[k], j); }
    ListChange(h, t, a);
  }

  lemma MergeKeeps(h: Heap, k: int, i: int)
    requires Inv(h) && Live(h, k, i) && k < |h.alloc| - 1 && !h.alloc[k][Buddy(i)]
    ensures IsBlock(h, k + 1, i / 2) && Buddy(i) in h.free[k]
    ensures Inv(Merged(h, k, i)) && LiveChange(h, Merged(h, k, i), (k, i), (k + 1, i / 2))
  {
    MergeBits(h, k, i);
    assert GoodList(h, k);
    forall a | 0 <= a < |h.alloc| ensures GoodList(Merged(h, k, i), a) { MergeList(h, k, i, a); }
    hide GoodBits, GoodList, IsFree;
  }

  lemma FreedBits(h: Heap, k: int, i: int)
    requires Inv(h) && Live(h, k, i) && k < |h.alloc| - 1 && h.alloc[k][Buddy(i)]
    ensures Exists(h, k, i)
    ensures forall a, b | IsBlock(Freed(h, k, i), a, b) :: GoodBits(Freed(h, k, i), a, b)
  {
    var t := Freed(h, k, i);
    assert GoodBits(h, k, i) && GoodBits(h, k + 1, i / 2);
    forall a, b | IsBlock(t, a, b) ensures GoodBits(t, a, b) { assert GoodBits(h, a, b); }
  }

  lemma FreedKeeps(h: Heap, k: int, i: int)
    requires Inv(h) && Live(h, k, i) && k < |h.alloc| - 1 && h.alloc[k][Buddy(i)]
    ensures Inv(Freed(h, k, i)) && LiveChange(Freed(h, k, i), h, (k, i), (k, i))
  {
    var t := Freed(h, k, i);
    FreedBits(h, k, i);
    hide GoodBits;
    forall a | 0 <= a < |t.alloc| ensures GoodList(t, a) {
      assert GoodList(h, a);
      assert forall b | IsBlock(h, a, b) :: IsFree(t, a, b) == (IsFree(h, a, b) || (a, b) == (k, i));
      if a == k { PushIs(h.free[k], i); }
      ListChange(h, t, a);
    }
  }
}
