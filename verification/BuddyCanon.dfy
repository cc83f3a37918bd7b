/** What the bits and free lists of the buddy allocator mean: they tile the heap, and
    the free blocks are determined by the live ones (kernel/buddy.c). */
module BuddyCanon {
  import opened Basics
  import opened BuddyTree

  /** The block d sizes up that contains block i. */
  function Up(i: int, d: nat): int
    decreases d
  {
    if d == 0 then i else Up(i / 2, d - 1)
  }

  lemma {:induction false} UpAdd(i: int, c: nat, d: nat)
    ensures Up(Up(i, c), d) == Up(i, c + d)
    decreases c
  {
    if c > 0 { UpAdd(i / 2, c - 1, d); }
  }

  lemma {:induction false} UpBlock(h: Heap, k: int, i: int, d: nat)
    requires Shape(h) && IsBlock(h, k, i) && k + d < |h.alloc|
    ensures IsBlock(h, k + d, Up(i, d))
    decreases d
  {
    if d > 0 { UpBlock(h, k + 1, i / 2, d - 1); }
  }

  /** Every block around a node of the tree is split. */
  lemma {:induction false} SplitAbove(h: Heap, k: int, i: int, d: nat)
    requires Inv(h) && IsBlock(h, k, i) && Exists(h, k, i) && 0 < d && k + d < |h.alloc|
    ensures IsBlock(h, k + d, Up(i, d)) && h.split[k + d][Up(i, d)]
    decreases d
  {
    UpBlock(h, k, i, d);
    assert GoodBits(h, k + 1, i / 2);
    if d > 1 {
      SplitAbove(h, k + 1, i / 2, d - 1);
    } else {
      assert Up(i / 2, 0) == i / 2;
    }
  }

  /** Block (j,y) lies within block (k,i). */
  ghost predicate Within(j: int, y: int, k: int, i: int) {
    j <= k && Up(y, k - j) == i
  }

  /** Some live block overlaps block (k,i). */
  ghost predicate Occupied(h: Heap, k: int, i: int) {
    exists j, y :: Live(h, j, y) && (Within(j, y, k, i) || Within(k, i, j, y))
  }

  lemma {:induction false} LiveInside(h: Heap, k: int, i: int) returns (j: int, y: int)
    requires Inv(h) && IsBlock(h, k, i) && h.alloc[k][i]
    ensures Live(h, j, y) && Within(j, y, k, i)
    decreases k
  {
    if !h.split[k][i] {
      j, y := k, i;
    } else {
      assert GoodBits(h, k, i);
      var c := if h.alloc[k - 1][2 * i] then 2 * i else 2 * i + 1;
      j, y := LiveInside(h, k - 1, c);
      UpAdd(y, k - 1 - j, 1);
      assert Up(c, 1) == Up(c / 2, 0) == i;
    }
  }

  // ---- tiling ----

  ghost predicate Tile(h: Heap, k: int, i: int) {
    Shape(h) && IsBlock(h, k, i) && (IsFree(h, k, i) || Live(h, k, i))
  }

  lemma TileBits(h: Heap, k: int, i: int)
    requires Inv(h) && Tile(h, k, i)
    ensures Exists(h, k, i) && !h.split[k][i]
  {
    assert GoodBits(h, k, i);
  }

  lemma {:induction false} FindTile(h: Heap, x: int, top: nat) returns (k: nat)
    requires Inv(h) && IsBlock(h, 0, x) && top < |h.alloc|
    requires IsBlock(h, top, Up(x, top)) && Exists(h, top, Up(x, top))
    ensures k <= top && Tile(h, k, Up(x, k))
  {
    assert GoodBits(h, top, Up(x, top));
    if h.split[top][Up(x, top)] {
      UpBlock(h, 0, x, top - 1);
      UpAdd(x, top - 1, 1);
      assert Up(Up(x, top - 1), 1) == Up(Up(x, top - 1) / 2, 0);
      k := FindTile(h, x, top - 1);
    } else {
      k := top;
    }
  }

  /** Free and live blocks tile the heap: every leaf lies in exactly one of them. */
  lemma Tiling(h: Heap, x: int)
    requires Inv(h) && IsBlock(h, 0, x)
    ensures exists k: nat :: Tile(h, k, Up(x, k))
    ensures forall j: nat, k: nat | Tile(h, j, Up(x, j)) && Tile(h, k, Up(x, k)) :: j == k
  {
    UpBlock(h, 0, x, |h.alloc| - 1);
    var _ := FindTile(h, x, |h.alloc| - 1);
    forall j: nat, k: nat | Tile(h, j, Up(x, j)) && Tile(h, k, Up(x, k)) ensures j == k {
      TileBits(h, j, Up(x, j));
      TileBits(h, k, Up(x, k));
      if j < k {
        SplitAbove(h, j, Up(x, j), k - j);
        UpAdd(x, j, k - j);
      } else if k < j {
        SplitAbove(h, k, Up(x, k), j - k);
        UpAdd(x, k, j - k);
      }
    }
  }

  // ---- canonicity ----

  lemma FreeNotOccupied(h: Heap, k: int, i: int)
    requires Inv(h) && IsBlock(h, k, i) && IsFree(h, k, i)
    ensures !Occupied(h, k, i)
  {
    forall j, y | Live(h, j, y) ensures !Within(j, y, k, i) && !Within(k, i, j, y) {
      assert GoodBits(h, j, y) && GoodBits(h, k, i);
      if j < k && Within(j, y, k, i) {
        SplitAbove(h, j, y, k - j);
      } else if k < j && Within(k, i, j, y) {
        SplitAbove(h, k, i, j - k);
      }
    }
  }

  lemma UnoccupiedNotAlloc(h: Heap, k: int, i: int)
    requires Inv(h) && IsBlock(h, k, i) && !Occupied(h, k, i)
    ensures !h.alloc[k][i]
  {
    if h.alloc[k][i] {
      var j, y := LiveInside(h, k, i);
      assert false;
    }
  }

  /** A block is free exactly when nothing live overlaps it and it cannot be any larger. */
  lemma FreeIff(h: Heap, k: int, i: int)
    requires Inv(h) && IsBlock(h, k, i)
    ensures IsFree(h, k, i) <==> !Occupied(h, k, i) && (k == |h.alloc| - 1 || Occupied(h, k + 1, i / 2))
  {
    if IsFree(h, k, i) {
      FreeNotOccupied(h, k, i);
      if k < |h.alloc| - 1 {
        assert GoodBits(h, k + 1, i / 2);
        var j, y := LiveInside(h, k + 1, i / 2);
      }
    }
    if !Occupied(h, k, i) {
      UnoccupiedNotAlloc(h, k, i);
      if k < |h.alloc| - 1 && Occupied(h, k + 1, i / 2) {
        OccupiedParent(h, k, i);
      }
    }
  }

  lemma OccupiedParent(h: Heap, k: int, i: int)
    requires Inv(h) && IsBlock(h, k, i) && k < |h.alloc| - 1
    requires !Occupied(h, k, i) && Occupied(h, k + 1, i / 2)
    ensures Exists(h, k, i)
  {
    var j, y :| Live(h, j, y) && (Within(j, y, k + 1, i / 2) || Within(k + 1, i / 2, j, y));
    if j <= k {
      assert GoodBits(h, j, y);
      SplitAbove(h, j, y, k + 1 - j);
    } else {
      ParentWithin(k, i, j, y);
      assert false;
    }
  }

  /** What contains the parent contains the block. */
  lemma ParentWithin(k: int, i: int, j: int, y: int)
    requires j > k && (Within(j, y, k + 1, i / 2) || Within(k + 1, i / 2, j, y))
    ensures Within(k, i, j, y)
  {
    assert Up(i, j - k) == Up(i / 2, j - k - 1);
  }

  ghost predicate SameShape(h: Heap, g: Heap) {
    && |h.alloc| == |g.alloc|
    && forall k | 0 <= k < |h.alloc| :: |h.alloc[k]| == |g.alloc[k]|
  }

  /** Two states with the same live blocks have the same free lists, up to order. */
  lemma Canonical(h: Heap, g: Heap, k: int)
    requires Inv(h) && Inv(g) && SameShape(h, g) && 0 <= k < |h.alloc|
    requires forall j, y :: Live(h, j, y) == Live(g, j, y)
    ensures forall i :: i in h.free[k] <==> i in g.free[k]
    ensures multiset(h.free[k]) == multiset(g.free[k])
  {
    assert GoodList(h, k) && GoodList(g, k);
    forall i | IsBlock(h, k, i) ensures IsFree(h, k, i) == IsFree(g, k, i) {
      FreeIff(h, k, i);
      FreeIff(g, k, i);
      assert Occupied(h, k, i) == Occupied(g, k, i);
      assert Occupied(h, k + 1, i / 2) == Occupied(g, k + 1, i / 2);
    }
    DistinctMultiset(h.free[k], g.free[k]);
  }

  lemma {:induction false} Once(s: seq<int>, x: int)
    requires Distinct(s)
    ensures multiset(s)[x] == if x in s then 1 else 0
  {
    if s != [] {
      var r := s[..|s| - 1];
      Once(r, x);
      assert s == r + [s[|s| - 1]];
    }
  }

  lemma DistinctMultiset(s: seq<int>, t: seq<int>)
    requires Distinct(s) && Distinct(t) && forall x :: x in s <==> x in t
    ensures multiset(s) == multiset(t)
  {
    forall x ensures multiset(s)[x] == multiset(t)[x] {
      Once(s, x);
      Once(t, x);
    }
  }

  // ---- when allocation fails ----

  lemma {:induction false} RoomGivesFree(h: Heap, k: int, i: int) returns (j: int)
    requires Inv(h) && IsBlock(h, k, i) && !Occupied(h, k, i)
    ensures k <= j < |h.alloc| && h.free[j] != []
    decreases |h.alloc| - k
  {
    FreeIff(h, k, i);
    if IsFree(h, k, i) {
      assert GoodList(h, k) && i in h.free[k];
      j := k;
    } else {
      j := RoomGivesFree(h, k + 1, i / 2);
    }
  }

  /** Every block contains a block of each smaller size. */
  lemma {:induction false} Descend(h: Heap, k: int, i: int, d: nat) returns (x: int)
    requires Shape(h) && IsBlock(h, k, i) && d <= k
    ensures IsBlock(h, k - d, x) && Up(x, d) == i
    decreases d
  {
    if d == 0 {
      x := i;
    } else {
      var c := Descend(h, k, i, d - 1);
      x := 2 * c;
      assert Up(x, d) == Up(x / 2, d - 1);
    }
  }

  lemma WithinTrans(a: int, x: int, b: int, y: int, c: int, z: int)
    requires Within(a, x, b, y) && Within(b, y, c, z)
    ensures Within(a, x, c, z)
  {
    UpAdd(x, b - a, c - b);
  }

  lemma WithinUnique(a: int, x: int, b: int, y: int, c: int, z: int)
    requires Within(a, x, b, y) && Within(a, x, c, z) && b <= c
    ensures Within(b, y, c, z)
  {
    UpAdd(x, b - a, c - b);
  }

  /** What lies within an unoccupied block is unoccupied. */
  lemma UnoccupiedInside(h: Heap, k: int, i: int, j: int, y: int)
    requires !Occupied(h, k, i) && Within(j, y, k, i)
    ensures !Occupied(h, j, y)
  {
    forall a, b | Live(h, a, b) ensures !Within(a, b, j, y) && !Within(j, y, a, b) {
      if Within(a, b, j, y) {
        WithinTrans(a, b, j, y, k, i);
      } else if Within(j, y, a, b) {
        if a <= k {
          WithinUnique(j, y, a, b, k, i);
        } else {
          WithinUnique(j, y, k, i, a, b);
        }
      }
    }
  }

  /** A free list of size fk or larger is nonempty exactly when some aligned block of
      size fk has nothing live in it or around it. */
  lemma RoomIff(h: Heap, fk: nat)
    requires Inv(h) && fk < |h.alloc|
    ensures (exists k :: fk <= k < |h.alloc| && h.free[k] != []) <==> exists i :: IsBlock(h, fk, i) && !Occupied(h, fk, i)
  {
    if k :| fk <= k < |h.alloc| && h.free[k] != [] {
      var b := h.free[k][0];
      assert GoodList(h, k) && b in h.free[k];
      FreeNotOccupied(h, k, b);
      var x := Descend(h, k, b, k - fk);
      UnoccupiedInside(h, k, b, fk, x);
    }
    if i :| IsBlock(h, fk, i) && !Occupied(h, fk, i) {
      var k := RoomGivesFree(h, fk, i);
    }
  }
}
