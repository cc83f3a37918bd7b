/** The buddy allocator itself: addresses, free rings, bd_malloc, size and bd_free
    (kernel/buddy.c).  Addresses are byte offsets from bd_base. */
module BuddyHeap {
  import opened Basics
  import opened BuddyTree
  import opened BuddyCanon
  import opened Rings

  const LEAF_SIZE := 16

  // ---- address arithmetic ----

  /** BLK_SIZE(k): bytes in a block of size k. */
  function BlkSize(k: nat): (r: int)
    ensures r >= LEAF_SIZE
  {
    if k == 0 then LEAF_SIZE else 2 * BlkSize(k - 1)
  }

  /** blk_index: the block of size k that contains address p. */
  function BlkIndex(k: nat, p: int): int {
    if k == 0 then p / LEAF_SIZE else BlkIndex(k - 1, p) / 2
  }

  /** addr: where block (k,i) starts. */
  function Addr(k: nat, i: int): int
    decreases k
  {
    if k == 0 then LEAF_SIZE * i else Addr(k - 1, 2 * i)
  }

  lemma {:induction false} IndexIsUp(k: nat, d: nat, p: int)
    ensures BlkIndex(k + d, p) == Up(BlkIndex(k, p), d)
    decreases d
  {
    if d > 0 {
      IndexIsUp(k, d - 1, p);
      UpAdd(BlkIndex(k, p), d - 1, 1);
      assert Up(Up(BlkIndex(k, p), d - 1), 1) == Up(Up(BlkIndex(k, p), d - 1) / 2, 0);
    }
  }

  lemma {:induction false} AddrFacts(k: nat, i: int)
    requires i >= 0
    ensures BlkIndex(k, Addr(k, i)) == i && Addr(k, i + 1) == Addr(k, i) + BlkSize(k)
    ensures Addr(k, i) >= 0 && Addr(k, i) % LEAF_SIZE == 0
    decreases k
  {
    if k > 0 {
      AddrFacts(k - 1, 2 * i);
      AddrFacts(k - 1, 2 * i + 1);
    }
  }

  /** The two functions above are the source's quotient and product. */
  lemma {:induction false} AddressFormulas(k: nat, p: int, i: int)
    requires p >= 0
    ensures BlkIndex(k, p) == p / BlkSize(k) && Addr(k, i) == i * BlkSize(k)
    decreases k
  {
    if k > 0 {
      AddressFormulas(k - 1, p, 2 * i);
      HalfQuotient(p, BlkSize(k - 1));
      assert (2 * i) * BlkSize(k - 1) == i * (2 * BlkSize(k - 1));
    }
  }

  lemma HalfQuotient(p: int, b: int)
    requires p >= 0 && b > 0
    ensures p / (2 * b) == (p / b) / 2
  {
    var q, h := p / b, p / (2 * b);
    assert p == q * b + p % b;
    assert p == h * (2 * b) + p % (2 * b);
    assert h * (2 * b) == (2 * h) * b;
    assert (q - 2 * h) * b == p % (2 * b) - p % b;
    if q - 2 * h >= 2 { Scale(q - 2 * h, 2, b); }
    if q - 2 * h <= -1 { Scale(-1, q - 2 * h, b); }
  }

  lemma Scale(x: int, y: int, b: int)
    requires x >= y && b > 0
    ensures x * b >= y * b
  {
  }

  // ---- the free rings ----

  /** The memory cell of block (k,i)'s list links, after the n ring heads. */
  function Cell(n: nat, k: nat, i: int): int { n + BlkIndex(0, Addr(k, i)) }

  ghost function RingOf(n: nat, k: nat, s: seq<int>): (r: seq<int>)
    ensures |r| == |s| + 1
  {
    [k as int] + seq(|s|, j requires 0 <= j < |s| => Cell(n, k, s[j]))
  }

  /** The rings hold exactly the free lists, in order. */
  ghost predicate Tied(h: Heap, lists: seq<seq<int>>, cells: nat) {
    && Shape(h) && |lists| == |h.free| && cells == |h.alloc| + |h.alloc[0]|
    && forall k | 0 <= k < |lists| :: lists[k] == RingOf(|h.alloc|, k, h.free[k])
  }

  lemma LeafOf(h: Heap, k: nat, i: int)
    requires Shape(h) && IsBlock(h, k, i)
    ensures var x := BlkIndex(0, Addr(k, i)); IsBlock(h, 0, x) && Up(x, k) == i
  {
    AddrFacts(k, i);
    IndexIsUp(0, k, Addr(k, i));
    LeafInRange(h, k, i);
  }

  lemma {:induction false} LeafInRange(h: Heap, k: nat, i: int)
    requires Shape(h) && IsBlock(h, k, i)
    ensures IsBlock(h, 0, BlkIndex(0, Addr(k, i)))
    decreases k
  {
    if k > 0 { LeafInRange(h, k - 1, 2 * i); }
  }

  /** A block inside a live block is on no ring. */
  lemma Unplaced(h: Heap, next: seq<int>, prev: seq<int>, lists: seq<seq<int>>, at: seq<Place>,
                 k: nat, i: int, a: nat, b: int)
    requires Inv(h) && Linked(next, prev, lists, at) && Tied(h, lists, |next|)
    requires IsBlock(h, k, i) && Live(h, a, b) && Within(k, i, a, b)
    ensures |h.alloc| <= Cell(|h.alloc|, k, i) < |next| && at[Cell(|h.alloc|, k, i)].ring == -1
  {
    LeafOf(h, k, i);
    var n, leaf := |h.alloc|, BlkIndex(0, Addr(k, i));
    var x := n + leaf;
    if at[x].ring != -1 {
      var q, p := at[x].ring, at[x].pos;
      assert lists[q] == RingOf(n, q, h.free[q]) && lists[q][p] == x;
      var y := h.free[q][p - 1];
      assert GoodList(h, q) && y in h.free[q];
      LeafOf(h, q, y);
      UpAdd(leaf, k, a - k);
      Tiling(h, leaf);
      assert Tile(h, q, Up(leaf, q)) && Tile(h, a, Up(leaf, a));
      assert false;
    }
  }

  lemma {:induction false} WithoutAt(s: seq<int>, j: nat)
    requires Distinct(s) && j < |s|
    ensures Without(s, s[j]) == s[..j] + s[j + 1..]
    decreases j
  {
    if j > 0 {
      WithoutAt(s[1..], j - 1);
      assert s[1..][..j - 1] == s[1..j] && s[1..][j..] == s[j + 1..];
      assert s[..j] == [s[0]] + s[1..j];
    }
  }

  /** A free block is on its ring, past the head. */
  lemma PlacedFree(h: Heap, next: seq<int>, prev: seq<int>, lists: seq<seq<int>>, at: seq<Place>, k: nat, i: int)
    requires Inv(h) && Linked(next, prev, lists, at) && Tied(h, lists, |next|)
    requires k < |h.alloc| && i in h.free[k]
    ensures var x := Cell(|h.alloc|, k, i);
            && 0 <= x < |next| && at[x].ring == k && 0 < at[x].pos <= |h.free[k]| && h.free[k][at[x].pos - 1] == i
  {
    var j :| 0 <= j < |h.free[k]| && h.free[k][j] == i;
    assert lists[k] == RingOf(|h.alloc|, k, h.free[k]);
    assert CellOk(next, prev, lists, at, k, j + 1);
  }

  lemma TiedPush(h: Heap, lists: seq<seq<int>>, cells: nat, t: Heap, k: nat, i: int)
    requires Tied(h, lists, cells) && Shape(t) && k < |h.free| && |t.alloc| == |h.alloc| && |t.alloc[0]| == |h.alloc[0]|
    requires t.free == h.free[k := [i] + h.free[k]]
    ensures Tied(t, lists[k := [k, Cell(|h.alloc|, k, i)] + lists[k][1..]], cells)
  {
  }

  lemma TiedPop(h: Heap, lists: seq<seq<int>>, cells: nat, t: Heap, k: nat)
    requires Tied(h, lists, cells) && Shape(t) && k < |h.free| && |t.alloc| == |h.alloc| && |t.alloc[0]| == |h.alloc[0]|
    requires h.free[k] != [] && t.free == h.free[k := h.free[k][1..]]
    ensures |lists[k]| > 1 && lists[k][1] == Cell(|h.alloc|, k, h.free[k][0])
    ensures Tied(t, lists[k := [k] + lists[k][2..]], cells)
  {
    assert lists[k] == RingOf(|h.alloc|, k, h.free[k]);
    assert [k as int] + lists[k][2..] == RingOf(|h.alloc|, k, h.free[k][1..]);
  }

  lemma TiedRemove(h: Heap, lists: seq<seq<int>>, cells: nat, t: Heap, k: nat, j: nat)
    requires Tied(h, lists, cells) && Shape(t) && k < |h.free| && |t.alloc| == |h.alloc| && |t.alloc[0]| == |h.alloc[0]|
    requires 0 < j <= |h.free[k]| && Distinct(h.free[k]) && t.free == h.free[k := Without(h.free[k], h.free[k][j - 1])]
    ensures j < |lists[k]| && Tied(t, lists[k := lists[k][..j] + lists[k][j + 1..]], cells)
  {
    WithoutAt(h.free[k], j - 1);
    assert lists[k] == RingOf(|h.alloc|, k, h.free[k]);
    RingWithout(|h.alloc|, k, h.free[k], j);
  }

  lemma RingWithout(n: nat, k: nat, s: seq<int>, j: nat)
    requires 0 < j <= |s|
    ensures RingOf(n, k, s)[..j] + RingOf(n, k, s)[j + 1..] == RingOf(n, k, s[..j - 1] + s[j..])
  {
  }

  // ---- sizes ----

  /** The smallest size whose blocks hold n bytes. */
  ghost predicate IsFirstK(k: nat, n: int) {
    BlkSize(k) >= n && (k > 0 ==> BlkSize(k - 1) < n)
  }

  /** firstk.  The doubling loop ends before the 64-bit size wraps when n <= 2^63. */
  method FirstK(n: int) returns (k: nat)
    requires 0 <= n <= 0x8000_0000_0000_0000
    ensures IsFirstK(k, n)
  {
    k := 0;
    var size := LEAF_SIZE;
    while size < n
      invariant size == BlkSize(k) && (k > 0 ==> BlkSize(k - 1) < n)
      decreases n - size
    {
      k := k + 1;
      size := size * 2;
    }
  }

  lemma {:induction false} FirstKUnique(j: nat, k: nat, n: int)
    requires IsFirstK(j, n) && IsFirstK(k, n)
    ensures j == k
  {
    if j < k { BlkSizeMono(j, k - 1); }
    if k < j { BlkSizeMono(k, j - 1); }
  }

  lemma {:induction false} BlkSizeMono(j: nat, k: nat)
    requires j <= k
    ensures BlkSize(j) <= BlkSize(k)
    decreases k
  {
    if j < k { BlkSizeMono(j, k - 1); }
  }

  // ---- which free lists change ----

  /** Size k is the least one from fk on that has a free block. */
  ghost predicate Least(f: seq<seq<int>>, fk: nat, k: nat) {
    fk <= k < |f| && f[k] != [] && forall j | fk <= j < k :: f[j] == []
  }

  /** The first block of size k, at address p, is off its list, the upper half that each split
      down to size low left over is on its list, and no other list has changed. */
  ghost predicate SplitDown(f: seq<seq<int>>, g: seq<seq<int>>, k: nat, low: nat, p: int) {
    && |g| == |f| && low <= k < |f| && f[k] != [] && p == Addr(k, f[k][0]) && g[k] == f[k][1..]
    && (forall j | low <= j < k :: g[j] == [BlkIndex(j, p) + 1] + f[j])
    && (forall j | 0 <= j < |f| && (j < low || j > k) :: g[j] == f[j])
  }

  lemma SplitStarts(f: seq<seq<int>>, k: nat)
    requires k < |f| && f[k] != []
    ensures SplitDown(f, f[k := f[k][1..]], k, k, Addr(k, f[k][0]))
  {}

  lemma SplitMore(f: seq<seq<int>>, g: seq<seq<int>>, k: nat, low: nat, p: int, i: int)
    requires SplitDown(f, g, k, low, p) && low > 0 && i >= 0 && p == Addr(low - 1, 2 * i)
    ensures SplitDown(f, g[low - 1 := [2 * i + 1] + g[low - 1]], k, low - 1, p)
  {
    AddrFacts(low - 1, 2 * i);
  }

  /** The block of size k in which (k0,i0) ends up is first on its list, the buddies that were
      joined below it are off theirs, and no other list has changed. */
  ghost predicate JoinedUp(h: Heap, g: seq<seq<int>>, k0: nat, i0: int, k: nat) {
    && |g| == |h.free| && k0 <= k < |g| && g[k] == [Up(i0, k - k0)] + h.free[k]
    && (forall j | k0 <= j < k :: g[j] == Without(h.free[j], Buddy(Up(i0, j - k0))))
    && (forall j | 0 <= j < |g| && (j < k0 || j > k) :: g[j] == h.free[j])
  }

  /** The buddies joined so far, on the way from size k0 up to size k. */
  ghost predicate Joining(h: Heap, g: seq<seq<int>>, k0: nat, i0: int, k: nat) {
    && |g| == |h.free| && k0 <= k < |g|
    && (forall j | k0 <= j < k :: g[j] == Without(h.free[j], Buddy(Up(i0, j - k0))))
    && (forall j | 0 <= j < |g| && (j < k0 || j >= k) :: g[j] == h.free[j])
  }

  /** Live blocks of t: those of h and (k,i). */
  ghost predicate Grew(h: Heap, t: Heap, k: int, i: int) {
    SameShape(h, t) && LiveChange(h, t, (k, i), (k, i))
  }

  lemma GrewLive(h: Heap, t: Heap, k: int, i: int)
    requires Grew(h, t, k, i)
    ensures Live(t, k, i) && |t.alloc| == |h.alloc|
  {}

  lemma GrewSplit(g: Heap, h: Heap, t: Heap, k: int, i: int)
    requires Grew(g, h, k, i) && SameShape(h, t) && LiveChange(h, t, (k, i), (k - 1, 2 * i))
    ensures Grew(g, t, k - 1, 2 * i)
  {
  }

  /** Live blocks of t: those of h with (k,i) in place of (k0,i0). */
  ghost predicate Swapped(h: Heap, t: Heap, k0: int, i0: int, k: int, i: int) {
    && SameShape(h, t) && Live(h, k0, i0)
    && forall a, b :: Live(t, a, b) == ((Live(h, a, b) && (a, b) != (k0, i0)) || (a, b) == (k, i))
  }

  lemma SwappedMerge(h: Heap, t: Heap, u: Heap, k0: int, i0: int, k: int, i: int)
    requires Swapped(h, t, k0, i0, k, i) && SameShape(t, u) && LiveChange(t, u, (k, i), (k + 1, i / 2))
    requires (k, i) == (k0, i0) || !Live(h, k, i)
    ensures Swapped(h, u, k0, i0, k + 1, i / 2)
    ensures (k + 1, i / 2) != (k0, i0) ==> !Live(h, k + 1, i / 2)
  {
  }

  lemma SwappedEnd(h: Heap, t: Heap, u: Heap, k0: int, i0: int, k: int, i: int)
    requires Swapped(h, t, k0, i0, k, i) && Grew(u, t, k, i)
    requires (k, i) == (k0, i0) || !Live(h, k, i)
    ensures Grew(u, h, k0, i0)
  {
  }

  /** Blocks of a size d sizes below the largest. */
  function Width(d: nat): (r: nat)
    ensures r >= 1
  {
    if d == 0 then 1 else 2 * Width(d - 1)
  }

  function Zeros(n: nat): (r: seq<seq<bool>>)
    ensures |r| == n
    ensures forall k | 0 <= k < n :: |r[k]| == Width(n - 1 - k) && forall i | 0 <= i < |r[k]| :: !r[k][i]
  {
    seq(n, k requires 0 <= k < n => seq(Width(n - 1 - k), _ => false))
  }

  class Allocator {
    var alloc: seq<seq<bool>>
    var split: seq<seq<bool>>
    const mem: ListMemory
    ghost var free: seq<seq<int>>

    ghost function H(): Heap
      reads this
    {
      Heap(alloc, split, free)
    }

    /** The tree invariant, the rings that hold its free lists, and the first leaf in
        use: it holds the allocator's own tables and is never freed. */
    ghost predicate Valid()
      reads this, mem
    {
      && Inv(H()) && Live(H(), 0, 0)
      && Linked(mem.next, mem.prev, mem.lists, mem.at) && Tied(H(), mem.lists, |mem.next|)
    }

    /** Zeroed bit arrays and empty rings for n sizes. */
    constructor (n: nat)
      requires n >= 1
      ensures Shape(H()) && |alloc| == n && fresh(mem)
      ensures forall k, i | IsBlock(H(), k, i) :: !alloc[k][i] && !split[k][i]
      ensures forall k | 0 <= k < n :: free[k] == [] && |alloc[k]| == Width(n - 1 - k)
      ensures Linked(mem.next, mem.prev, mem.lists, mem.at) && Tied(H(), mem.lists, |mem.next|)
    {
      alloc, split := Zeros(n), Zeros(n);
      mem := new ListMemory(n, n + Width(n - 1));
      free := seq(n, _ => []);
    }

    /** bd_malloc's pop of a block of size k. */
    method TakeFirst(k: nat) returns (p: int, ghost i: int)
      requires Valid() && k < |alloc| && free[k] != []
      modifies this, mem
      ensures Valid() && i >= 0 && p == Addr(k, i) && Grew(old(H()), H(), k, i)
      ensures i == old(free)[k][0] && free == old(free)[k := old(free)[k][1..]]
    {
      ghost var h := H();
      i := free[k][0];
      TakeFacts(h, mem.next, mem.prev, mem.lists, mem.at, k);
      hide Inv, Linked, Tied, Live;
      var c := mem.LstPop(k);
      p := LEAF_SIZE * (c.value - |alloc|);
      alloc := Set(alloc, k, BlkIndex(k, p), true);
      free := Taken(h, k).free;
    }

    /** bd_malloc's split of its block: keep the lower half, free the upper one. */
    method SplitOnce(k: nat, p: int, ghost i: int)
      requires Valid() && 0 < k < |alloc| && p == Addr(k, i) && Live(H(), k, i)
      modifies this, mem
      ensures Valid() && p == Addr(k - 1, 2 * i) && SameShape(old(H()), H())
      ensures LiveChange(old(H()), H(), (k, i), (k - 1, 2 * i)) && k <= |free| == |old(free)|
      ensures free == old(free)[k - 1 := [2 * i + 1] + old(free)[k - 1]]
    {
      ghost var h := H();
      SplitFacts(h, mem.next, mem.prev, mem.lists, mem.at, k, i);
      hide Inv, Linked, Tied, Live;
      var q := p + BlkSize(k - 1);
      split := Set(split, k, BlkIndex(k, p), true);
      alloc := Set(alloc, k - 1, BlkIndex(k - 1, p), true);
      mem.LstPush(k - 1, |alloc| + BlkIndex(0, q));
      free := SplitAt(h, k, i).free;
    }

    /** The first nonempty free list at or above fk. */
    method FindList(fk: nat) returns (k: nat)
      requires Valid()
      ensures fk <= k && forall j | fk <= j < k && j < |alloc| :: free[j] == []
      ensures k < |alloc| ==> free[k] != []
    {
      k := fk;
      while k < |alloc|
        invariant fk <= k && forall j | fk <= j < k && j < |alloc| :: free[j] == []
      {
        var empty := mem.LstEmpty(k);
        assert mem.lists[k] == RingOf(|alloc|, k, free[k]);
        if !empty {
          return;
        }
        k := k + 1;
      }
    }

    /** bd_malloc: a block of the smallest size that fits.  It fails exactly when no
        aligned block of that size is wholly free; otherwise one block more is live, cut from
        the first block of the least size that has one. */
    method Malloc(nbytes: int) returns (r: Option<int>, ghost fk: nat, ghost i: int)
      requires Valid() && 0 <= nbytes <= 0x8000_0000_0000_0000
      modifies this, mem
      ensures Valid() && IsFirstK(fk, nbytes)
      ensures r.None? <==> forall j :: IsBlock(old(H()), fk, j) ==> Occupied(old(H()), fk, j)
      ensures r.None? ==> H() == old(H())
      ensures r.Some? ==> i >= 0 && r.value == Addr(fk, i) && Grew(old(H()), H(), fk, i)
      ensures r.Some? ==> exists k: nat :: Least(old(free), fk, k) && SplitDown(old(free), free, k, fk, r.value)
    {
      hide Inv, Live, Linked, Tied, Grew, SplitDown;
      i := 0;
      ghost var h := H();
      var want := FirstK(nbytes);
      fk := want;
      var k := FindList(want);
      RoomAt(h, fk, k);
      if k >= |alloc| {
        return None, fk, i;
      }
      var p;
      ghost var from := k;
      p, i := TakeFirst(k);
      GrewLive(h, H(), k, i);
      SplitStarts(h.free, k);
      while k > want
        invariant want <= k < |alloc| && Valid() && p == Addr(k, i) && i >= 0 && Live(H(), k, i) && Grew(h, H(), k, i)
        invariant from < |h.free| && SplitDown(h.free, free, from, k, p)
      {
        ghost var g := H();
        SplitOnce(k, p, i);
        GrewSplit(h, g, H(), k, i);
        SplitMore(h.free, g.free, from, k, p, i);
        k, i := k - 1, 2 * i;
      }
      return Some(p), fk, i;
    }

    /** size: the size at which a live block was allocated, found by looking for the
        smallest split block around its address. */
    method Size(p: int, ghost k0: nat, ghost i0: int) returns (k: nat)
      requires Valid() && Live(H(), k0, i0) && (k0, i0) != (0, 0) && p == Addr(k0, i0)
      ensures k == k0 < |alloc| - 1
    {
      ghost var h := H();
      BelowTop(h, k0, i0);
      AddrFacts(k0, i0);
      k := 0;
      SizeScan(h, k0, i0, p, k);
      while !split[k + 1][BlkIndex(k + 1, p)]
        invariant 0 <= k <= k0 && IsBlock(h, k + 1, BlkIndex(k + 1, p))
        invariant split[k + 1][BlkIndex(k + 1, p)] <==> k == k0
        decreases k0 - k
      {
        k := k + 1;
        SizeScan(h, k0, i0, p, k);
      }
    }

    /** One round of bd_free's loop: join the block with its free buddy. */
    method MergeOnce(k: nat, p: int, ghost i: int) returns (p': int)
      requires Valid() && k < |alloc| - 1 && p == Addr(k, i) && Live(H(), k, i) && (k, i) != (0, 0)
      requires !alloc[k][Buddy(i)]
      modifies this, mem
      ensures Valid() && p' == Addr(k + 1, i / 2) && SameShape(old(H()), H())
      ensures LiveChange(old(H()), H(), (k, i), (k + 1, i / 2)) && k + 1 < |free| == |old(free)|
      ensures free == old(free)[k := Without(old(free)[k], Buddy(i))]
    {
      ghost var h := H();
      MergeFacts(h, mem.next, mem.prev, mem.lists, mem.at, k, i);
      hide Inv, Linked, Tied, Live;
      var bi := BlkIndex(k, p);
      var buddy := Buddy(bi);
      alloc := Set(alloc, k, bi, false);
      var q := Addr(k, buddy);
      mem.LstRemove(|alloc| + BlkIndex(0, q));
      p' := if buddy % 2 == 0 then q else p;
      split := Set(split, k + 1, BlkIndex(k + 1, p'), false);
      free := Merged(h, k, i).free;
    }

    /** The end of bd_free: the block goes on its free list. */
    method PutBack(k: nat, p: int, ghost i: int)
      requires Valid() && k < |alloc| - 1 && p == Addr(k, i) && Live(H(), k, i) && (k, i) != (0, 0)
      requires alloc[k][Buddy(i)]
      modifies this, mem
      ensures Valid() && Grew(H(), old(H()), k, i)
      ensures k < |free| == |old(free)| && free == old(free)[k := [i] + old(free)[k]]
    {
      ghost var h := H();
      AddrFacts(k, i);
      FreedKeeps(h, k, i);
      ghost var t := Freed(h, k, i);
      assert Within(k, i, k, i);
      Unplaced(h, mem.next, mem.prev, mem.lists, mem.at, k, i, k, i);
      TiedPush(h, mem.lists, |mem.next|, t, k, i);
      alloc := Set(alloc, k, BlkIndex(k, p), false);
      mem.LstPush(k, |alloc| + BlkIndex(0, p));
      free := t.free;
    }

    /** bd_free: the block is no longer live, and nothing else changes hands; joined with
        every free buddy, it is first on its list.  The top block is never reached, because the
        first leaf stays in use. */
    method Free(p: int, ghost k0: nat, ghost i0: int)
      requires Valid() && Live(H(), k0, i0) && (k0, i0) != (0, 0) && p == Addr(k0, i0)
      modifies this, mem
      ensures Valid() && Grew(H(), old(H()), k0, i0)
      ensures exists k: nat :: JoinedUp(old(H()), free, k0, i0, k)
    {
      hide Inv, Live, Linked, Tied, Swapped, Grew, Joining, JoinedUp;
      ghost var h := H();
      var k := Size(p, k0, i0);
      var q := p;
      ghost var i := i0;
      FreeStarts(h, k0, i0);
      while !alloc[k][Buddy(BlkIndex(k, q))]
        invariant 0 <= k < |alloc| - 1 && Valid() && q == Addr(k, i) && Live(H(), k, i) && (k, i) != (0, 0)
        invariant BlkIndex(k, q) == i && 0 <= Buddy(i) < |alloc[k]|
        invariant Swapped(h, H(), k0, i0, k, i) && ((k, i) == (k0, i0) || !Live(h, k, i))
        invariant k0 <= k && Joining(h, free, k0, i0, k) && i == Up(i0, k - k0)
        decreases |alloc| - k
      {
        ghost var g := H();
        q := MergeOnce(k, q, i);
        SwappedMerge(h, g, H(), k0, i0, k, i);
        JoinStep(h, g.free, k0, i0, k);
        k, i := k + 1, i / 2;
        StillLive(h, H(), k0, i0, k, i);
      }
      ghost var g := H();
      PutBack(k, q, i);
      SwappedEnd(h, g, H(), k0, i0, k, i);
      JoinEnd(h, g.free, k0, i0, k);
    }
  }

  /** The search of bd_malloc ended at size k. */
  lemma RoomAt(h: Heap, fk: nat, k: nat)
    requires Inv(h) && fk <= k && (forall j | fk <= j < k && j < |h.alloc| :: h.free[j] == []) && (k < |h.alloc| ==> h.free[k] != [])
    ensures k >= |h.alloc| <==> forall j :: IsBlock(h, fk, j) ==> Occupied(h, fk, j)
    ensures k < |h.alloc| ==> Least(h.free, fk, k)
  {
    if fk < |h.alloc| { RoomIff(h, fk); }
  }

  /** bd_free at its first size. */
  lemma FreeStarts(h: Heap, k: nat, i: int)
    requires Inv(h) && Live(h, 0, 0) && Live(h, k, i) && (k, i) != (0, 0)
    ensures k < |h.alloc| - 1 && BlkIndex(k, Addr(k, i)) == i && 0 <= Buddy(i) < |h.alloc[k]|
    ensures Swapped(h, h, k, i, k, i) && Joining(h, h.free, k, i, k)
  {
    BelowTop(h, k, i);
    AddrFacts(k, i);
  }

  lemma StillLive(h: Heap, t: Heap, k0: nat, i0: int, k: nat, i: int)
    requires Inv(t) && Live(t, 0, 0) && Swapped(h, t, k0, i0, k, i) && k > 0
    ensures Live(t, k, i) && k < |t.alloc| - 1 && BlkIndex(k, Addr(k, i)) == i && 0 <= Buddy(i) < |t.alloc[k]|
  {
    BelowTop(t, k, i);
    AddrFacts(k, i);
  }

  lemma JoinStep(h: Heap, g: seq<seq<int>>, k0: nat, i0: int, k: nat)
    requires Joining(h, g, k0, i0, k) && k + 1 < |g|
    ensures Joining(h, g[k := Without(g[k], Buddy(Up(i0, k - k0)))], k0, i0, k + 1)
    ensures Up(i0, k + 1 - k0) == Up(i0, k - k0) / 2
  {
    UpNext(i0, k - k0);
  }

  lemma JoinEnd(h: Heap, g: seq<seq<int>>, k0: nat, i0: int, k: nat)
    requires Joining(h, g, k0, i0, k)
    ensures JoinedUp(h, g[k := [Up(i0, k - k0)] + g[k]], k0, i0, k)
  {}

  lemma UpNext(i: int, d: nat)
    ensures Up(i, d + 1) == Up(i, d) / 2
  {
    UpAdd(i, d, 1);
    assert Up(Up(i, d), 1) == Up(Up(i, d) / 2, 0);
  }

  /** A live block other than the first leaf is not the whole heap. */
  lemma BelowTop(h: Heap, k: nat, i: int)
    requires Inv(h) && Live(h, 0, 0) && Live(h, k, i) && (k, i) != (0, 0)
    ensures k < |h.alloc| - 1
  {
    if k == |h.alloc| - 1 {
      assert GoodBits(h, 0, 0);
      SplitAbove(h, 0, 0, k);
    }
  }

  /** Taking the first block of size k, on the tree, on the rings and on addresses. */
  lemma TakeFacts(h: Heap, next: seq<int>, prev: seq<int>, lists: seq<seq<int>>, at: seq<Place>, k: nat)
    requires Inv(h) && Live(h, 0, 0) && Linked(next, prev, lists, at) && Tied(h, lists, |next|)
    requires k < |h.alloc| && h.free[k] != []
    ensures Shape(h) && IsBlock(h, k, h.free[k][0]) && k < |lists| && |lists[k]| > 1
    ensures var i, t := h.free[k][0], Taken(h, k);
            && BlkIndex(k, Addr(k, i)) == i && LEAF_SIZE * (lists[k][1] - |h.alloc|) == Addr(k, i)
            && Inv(t) && Live(t, 0, 0) && Grew(h, t, k, i) && Tied(t, lists[k := [k] + lists[k][2..]], |next|)
  {
    TakenKeeps(h, k);
    var i := h.free[k][0];
    AddrFacts(k, i);
    TiedPop(h, lists, |next|, Taken(h, k), k);
  }

  /** Splitting (k,i), on the tree, on the rings and on addresses. */
  lemma SplitFacts(h: Heap, next: seq<int>, prev: seq<int>, lists: seq<seq<int>>, at: seq<Place>, k: nat, i: int)
    requires Inv(h) && Live(h, 0, 0) && Linked(next, prev, lists, at) && Tied(h, lists, |next|)
    requires Live(h, k, i) && 0 < k
    ensures BlkIndex(k, Addr(k, i)) == i && IsBlock(h, k, i) && BlkIndex(k - 1, Addr(k, i)) == 2 * i
    ensures Addr(k - 1, 2 * i) == Addr(k, i) && Addr(k - 1, 2 * i + 1) == Addr(k, i) + BlkSize(k - 1)
    ensures Shape(h) && IsBlock(h, k - 1, 2 * i) && Closed(next, prev)
    ensures var t, x := SplitAt(h, k, i), Cell(|h.alloc|, k - 1, 2 * i + 1);
            && Inv(t) && Live(t, 0, 0) && SameShape(h, t) && LiveChange(h, t, (k, i), (k - 1, 2 * i))
            && k <= |lists| && 0 <= x < |next| && |at| == |next| && at[x].ring == -1
            && Tied(t, lists[k - 1 := [k - 1, x] + lists[k - 1][1..]], |next|)
  {
    var t, j := SplitAt(h, k, i), 2 * i + 1;
    SplitKeeps(h, k, i);
    AddrFacts(k, i);
    AddrFacts(k - 1, 2 * i);
    AddrFacts(k - 1, j);
    assert Within(k - 1, j, k, i) by { assert Up(j, 1) == Up(j / 2, 0); }
    Unplaced(h, next, prev, lists, at, k - 1, j, k, i);
    TiedPush(h, lists, |next|, t, k - 1, j);
  }

  /** Joining (k,i) with its free buddy, on the tree, on the rings and on addresses. */
  lemma MergeFacts(h: Heap, next: seq<int>, prev: seq<int>, lists: seq<seq<int>>, at: seq<Place>, k: nat, i: int)
    requires Inv(h) && Live(h, 0, 0) && Linked(next, prev, lists, at) && Tied(h, lists, |next|)
    requires Live(h, k, i) && k < |h.alloc| - 1 && (k, i) != (0, 0) && !h.alloc[k][Buddy(i)]
    ensures BlkIndex(k, Addr(k, i)) == i && IsBlock(h, k + 1, i / 2) && BlkIndex(k + 1, Addr(k + 1, i / 2)) == i / 2
    ensures Addr(k + 1, i / 2) == if Buddy(i) % 2 == 0 then Addr(k, Buddy(i)) else Addr(k, i)
    ensures var t, x := Merged(h, k, i), Cell(|h.alloc|, k, Buddy(i));
            && Inv(t) && Live(t, 0, 0) && SameShape(h, t) && LiveChange(h, t, (k, i), (k + 1, i / 2))
            && 0 <= x < |next| && at[x].ring == k && 0 < at[x].pos < |lists[k]|
            && Tied(t, lists[k := lists[k][..at[x].pos] + lists[k][at[x].pos + 1..]], |next|)
  {
    var t, j := Merged(h, k, i), Buddy(i);
    AddrFacts(k, i);
    AddrFacts(k, j);
    AddrFacts(k + 1, i / 2);
    MergeKeeps(h, k, i);
    PlacedFree(h, next, prev, lists, at, k, j);
    assert Distinct(h.free[k]) by { assert GoodList(h, k); }
    TiedRemove(h, lists, |next|, t, k, at[Cell(|h.alloc|, k, j)].pos);
    assert Addr(k + 1, i / 2) == Addr(k, 2 * (i / 2));
  }

  /** Around a live block's address, exactly the sizes above its own are split. */
  lemma SizeScan(h: Heap, k0: nat, i0: int, p: int, k: nat)
    requires Inv(h) && Live(h, k0, i0) && k0 < |h.alloc| - 1 && p == Addr(k0, i0) && k <= k0
    ensures IsBlock(h, k + 1, BlkIndex(k + 1, p))
    ensures h.split[k + 1][BlkIndex(k + 1, p)] <==> k == k0
  {
    LeafOf(h, k0, i0);
    var leaf := BlkIndex(0, p);
    IndexIsUp(0, k + 1, p);
    UpBlock(h, 0, leaf, k + 1);
    var b := Up(leaf, k + 1);
    assert GoodBits(h, k + 1, b);
    if k == k0 {
      assert GoodBits(h, k0, i0);
      UpAdd(leaf, k0, 1);
      assert Up(i0, 1) == Up(i0 / 2, 0);
    } else {
      UpAdd(leaf, k + 1, k0 - k - 1);
      if h.split[k + 1][b] && k + 1 < k0 {
        SplitAbove(h, k + 1, b, k0 - k - 1);
      }
    }
  }
}
