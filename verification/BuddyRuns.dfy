/** Whole runs of the buddy allocator: any calls of bd_malloc and bd_free after bd_init. */
module BuddyRuns {
  import opened Basics
  import opened BuddyTree
  import opened BuddyCanon
  import opened BuddyHeap
  import opened BuddyInit
  import opened Rings

  /** A call: allocate so many bytes, or free the block allocated earlier that is now the
      which-th one held. */
  datatype Call = Malloc(nbytes: int) | Free(which: nat)

  predicate Legal(c: Call) {
    c.Malloc? ==> 0 <= c.nbytes <= 0x8000_0000_0000_0000
  }

  /** The i-th block of size k. */
  datatype Spot = Spot(k: nat, i: int)

  /** The live blocks of h are those of first and the ones held, each held once and at its address. */
  ghost predicate Holding(first: Heap, h: Heap, held: seq<int>, spots: seq<Spot>) {
    && SameShape(first, h) && Live(first, 0, 0) && |held| == |spots|
    && (forall j | 0 <= j < |spots| :: held[j] == Addr(spots[j].k, spots[j].i) && !Live(first, spots[j].k, spots[j].i))
    && (forall a, b | 0 <= a < b < |spots| :: spots[a] != spots[b])
    && (forall k: nat, i :: Live(h, k, i) <==> Live(first, k, i) || Spot(k, i) in spots)
  }

  lemma HoldingMore(first: Heap, h: Heap, t: Heap, held: seq<int>, spots: seq<Spot>, x: Spot)
    requires Holding(first, h, held, spots) && Grew(h, t, x.k, x.i)
    ensures Holding(first, t, held + [Addr(x.k, x.i)], spots + [x])
  {
    assert forall k: nat, i :: Spot(k, i) in spots + [x] <==> Spot(k, i) in spots || Spot(k, i) == x;
  }

  /** Taking element w out of a list without repetitions. */
  lemma LessIs(spots: seq<Spot>, w: nat)
    requires w < |spots| && forall a, b | 0 <= a < b < |spots| :: spots[a] != spots[b]
    ensures var less := spots[..w] + spots[w + 1..];
            && (forall a, b | 0 <= a < b < |less| :: less[a] != less[b])
            && (forall s :: s in less <==> s in spots && s != spots[w])
  {
    var less := spots[..w] + spots[w + 1..];
    assert forall j | 0 <= j < |less| :: less[j] == spots[if j < w then j else j + 1];
    forall s ensures s in less <==> s in spots && s != spots[w] {
      if s in spots && s != spots[w] {
        var j :| 0 <= j < |spots| && spots[j] == s;
        assert less[if j < w then j else j - 1] == s;
      }
    }
  }

  lemma HoldingLess(first: Heap, h: Heap, t: Heap, held: seq<int>, spots: seq<Spot>, w: nat)
    requires Holding(first, h, held, spots) && w < |held| && Grew(t, h, spots[w].k, spots[w].i)
    ensures Holding(first, t, held[..w] + held[w + 1..], spots[..w] + spots[w + 1..])
  {
    LessIs(spots, w);
    hide Live, SameShape;
    var less := spots[..w] + spots[w + 1..];
    forall k: nat, i ensures Live(t, k, i) <==> Live(first, k, i) || Spot(k, i) in less {
      assert Live(h, k, i) <==> Live(first, k, i) || Spot(k, i) in spots;
    }
    assert SameShape(first, t) by { SameShapes(first, h, t); }
  }

  lemma SameShapes(first: Heap, h: Heap, t: Heap)
    requires SameShape(first, h) && SameShape(t, h)
    ensures SameShape(first, t)
  {
  }

  /** Once nothing is held, the free lists of every size hold what they held at first. */
  lemma AllReturned(first: Heap, h: Heap)
    requires Inv(first) && Inv(h) && Holding(first, h, [], [])
    ensures |h.free| == |first.free|
    ensures forall k | 0 <= k < |first.free| :: multiset(h.free[k]) == multiset(first.free[k])
  {
    forall k, i ensures Live(h, k, i) == Live(first, k, i) {
      if k >= 0 {
        assert Spot(k, i) !in [];
      }
    }
    forall k | 0 <= k < |first.free| ensures multiset(h.free[k]) == multiset(first.free[k]) {
      Canonical(h, first, k);
    }
  }

  lemma HeldIs(first: Heap, h: Heap, held: seq<int>, spots: seq<Spot>, w: nat)
    requires Holding(first, h, held, spots) && w < |held|
    ensures |spots| == |held| && Live(h, spots[w].k, spots[w].i) && (spots[w].k as int, spots[w].i) != (0, 0)
    ensures held[w] == Addr(spots[w].k, spots[w].i)
  {
    assert spots[w] == Spot(spots[w].k, spots[w].i);
  }

  /** One call.  A failed allocation and a call that names no block change nothing; a block
      that is allocated has the least size that holds the bytes. */
  method Step(a: Allocator, c: Call, held: seq<int>, ghost spots: seq<Spot>, ghost first: Heap)
    returns (held': seq<int>, ghost spots': seq<Spot>)
    requires a.Valid() && Legal(c) && Holding(first, a.H(), held, spots)
    modifies a, a.mem
    ensures a.Valid() && Holding(first, a.H(), held', spots')
    ensures c.Free? ==> held' == if c.which < |held| then held[..c.which] + held[c.which + 1..] else held
    ensures c.Free? && c.which < |held| ==>
      exists k: nat :: JoinedUp(old(a.H()), a.free, spots[c.which].k, spots[c.which].i, k)
    ensures c.Malloc? ==>
      exists fk: nat ::
        && IsFirstK(fk, c.nbytes)
        && if (forall j :: IsBlock(old(a.H()), fk, j) ==> Occupied(old(a.H()), fk, j)) then held' == held
           else && |held'| == |spots'| == |held| + 1 && held'[..|held|] == held && spots'[|held|].k == fk
                && exists k: nat :: Least(old(a.free), fk, k) && SplitDown(old(a.free), a.free, k, fk, held'[|held|])
    ensures held' == held ==> a.H() == old(a.H())
  {
    ghost var h := a.H();
    held', spots' := held, spots;
    match c {
      case Malloc(nbytes) =>
        var r, fk, i := a.Malloc(nbytes);
        if r.Some? {
          HoldingMore(first, h, a.H(), held, spots, Spot(fk, i));
          held', spots' := held + [r.value], spots + [Spot(fk, i)];
        }
      case Free(w) =>
        if w < |held| {
          HeldIs(first, h, held, spots, w);
          a.Free(held[w], spots[w].k, spots[w].i);
          HoldingLess(first, h, a.H(), held, spots, w);
          held', spots' := held[..w] + held[w + 1..], spots[..w] + spots[w + 1..];
        }
    }
  }

  /** When a block of the wanted size is free, the first of them is taken and the lists of all
      other sizes stay as they are: nothing larger is split. */
  lemma ExactFit(f: seq<seq<int>>, g: seq<seq<int>>, fk: nat, k: nat, p: int)
    requires Least(f, fk, k) && SplitDown(f, g, k, fk, p) && f[fk] != []
    ensures p == Addr(fk, f[fk][0]) && g == f[fk := f[fk][1..]]
  {}

  /** The lists after a block was cut off and joined again, when they hold the same blocks. */
  lemma CutAndJoined(h: Heap, f: seq<seq<int>>, g: seq<seq<int>>, fk: nat, k: nat, p: int, i: int, k2: nat)
    requires Least(f, fk, k) && SplitDown(f, h.free, k, fk, p) && JoinedUp(h, g, fk, i, k2)
    requires |g| == |f| && forall j | 0 <= j < |f| :: multiset(g[j]) == multiset(f[j])
    ensures g == f
  {
    forall j | 0 <= j < |f| ensures |g[j]| == |f[j]| {
      assert |g[j]| == |multiset(g[j])| && |f[j]| == |multiset(f[j])|;
    }
    WithoutShorter(h.free[k], Buddy(Up(i, k - fk)));
    assert k2 == k;
    SameFirst(g[k][0], f[k][0], f[k][1..]);
    assert f[k] == [f[k][0]] + f[k][1..];
  }

  lemma {:induction false} WithoutShorter(s: seq<int>, x: int)
    ensures |Without(s, x)| <= |s|
  {
    if s != [] { WithoutShorter(s[1..], x); }
  }

  lemma SameFirst(x: int, y: int, s: seq<int>)
    ensures multiset([x] + s) == multiset([y] + s) ==> x == y
  {
    if x != y {
      assert multiset([x] + s)[x] == multiset(s)[x] + 1;
      assert multiset([y] + s)[x] == multiset(s)[x];
    }
  }

  /** Allocating and freeing at once leaves every free list as it was, order included. */
  method MallocFree(a: Allocator, nbytes: int) returns (r: Option<int>)
    requires a.Valid() && 0 <= nbytes <= 0x8000_0000_0000_0000
    modifies a, a.mem
    ensures a.Valid() && a.free == old(a.free)
  {
    ghost var h := a.H();
    ghost var fk, i;
    r, fk, i := a.Malloc(nbytes);
    if r.Some? {
      ghost var t := a.H();
      ghost var k: nat :| Least(h.free, fk, k) && SplitDown(h.free, a.free, k, fk, r.value);
      assert Grew(h, t, fk, i);
      a.Free(r.value, fk, i);
      ghost var k2: nat :| JoinedUp(t, a.free, fk, i, k2);
      SameLists(h, t, a.H(), fk, i);
      CutAndJoined(t, h.free, a.free, fk, k, r.value, i, k2);
    }
  }

  lemma SameLists(h: Heap, t: Heap, u: Heap, k: int, i: int)
    requires Inv(h) && Inv(u) && Grew(h, t, k, i) && Grew(u, t, k, i)
    ensures |u.free| == |h.free| && forall j | 0 <= j < |h.free| :: multiset(u.free[j]) == multiset(h.free[j])
  {
    forall j | 0 <= j < |h.free| ensures multiset(u.free[j]) == multiset(h.free[j]) { Canonical(u, h, j); }
  }

  /** Any run from bd_init on.  If it frees every block it took, the free lists of every size
      end up with the blocks they had right after bd_init (`first`, in which exactly the
      leaves outside the available memory are in use). */
  method Run(base: int, end: int, calls: seq<Call>)
    returns (a: Allocator, held: seq<int>, ghost spots: seq<Spot>, ghost first: Heap)
    requires 0 <= base && 176 <= end - RoundUp(base, LEAF_SIZE) && end - base < 0x8000_0000
    requires !InitPanics(end - RoundUp(base, LEAF_SIZE)) && forall c | c in calls :: Legal(c)
    ensures a.Valid() && Inv(first) && |first.alloc| >= 1 && IsFirstK(|first.alloc| - 1, end - RoundUp(base, LEAF_SIZE))
    ensures var n := |first.alloc|;
            var m, e := TableBytes(n), EndOf(n, end - RoundUp(base, LEAF_SIZE));
            forall k, i :: Live(first, k, i) <==> k == 0 && 0 <= i < Width(n - 1) && Marked(m, e, 0, i)
    ensures Holding(first, a.H(), held, spots)
    ensures held == [] ==>
      && |a.free| == |first.free|
      && forall k | 0 <= k < |first.free| :: multiset(a.free[k]) == multiset(first.free[k])
  {
    hide RoundUp, TableBytes, EndOf, IsFirstK, InitPanics, Linked, Tied, Inv;
    var panicked;
    a, panicked := BdInit(base, end);
    first := a.H();
    held, spots := [], [];
    for j := 0 to |calls|
      invariant fresh(a) && fresh(a.mem) && a.Valid() && Holding(first, a.H(), held, spots)
    {
      held, spots := Step(a, calls[j], held, spots, first);
    }
    if held == [] {
      AllReturned(first, a.H());
    }
  }
}
