/** The K&R heap (user/umalloc.c; section 8.7 of The C Programming Language, 2nd ed.) as
    values: headers in memory, a circular address-ordered free list, and who owns what.

    Addresses count header-sized units. Address 0 is the static header `base`; memory
    from sbrk lies above it. */
module FreeList {

  /** ptr and size are the header fields by address; own[u] is the header of the block
      that unit u belongs to, 0 if it is not the allocator's; live[h] says whether block
      h is with the program; fl is the free list in address order, from base on. */
  datatype Heap = Heap(ptr: seq<int>, size: seq<int>, own: seq<int>, live: seq<bool>, fl: seq<int>)

  ghost predicate Sized(s: Heap) {
    |s.ptr| == |s.size| == |s.own| == |s.live| && |s.fl| > 0
  }

  /** h is the header of a block. */
  ghost predicate IsBlock(s: Heap, h: int) {
    0 < h < |s.own| && s.own[h] == h
  }

  ghost predicate Live(s: Heap, h: int) {
    IsBlock(s, h) && |s.live| == |s.own| && s.live[h]
  }

  ghost predicate BlockOk(s: Heap, h: int)
    requires Sized(s) && IsBlock(s, h)
  {
    && 0 < s.size[h] && h + s.size[h] <= |s.own|
    && (forall u | h <= u < h + s.size[h] :: s.own[u] == h)
    && (!s.live[h] ==> h in s.fl)
  }

  ghost predicate UnitOk(s: Heap, u: int)
    requires Sized(s) && 0 <= u < |s.own|
  {
    s.own[u] == 0 || (0 < s.own[u] <= u && s.own[s.own[u]] == s.own[u] && u < s.own[u] + s.size[s.own[u]])
  }

  ghost predicate ItemOk(s: Heap, i: int)
    requires Sized(s) && 0 <= i < |s.fl|
  {
    if i == 0 then s.fl[0] == 0 && 0 < |s.own| && s.size[0] == 0
    else IsBlock(s, s.fl[i]) && !s.live[s.fl[i]]
  }

  function Next(fl: seq<int>, i: int): int
    requires 0 <= i < |fl|
  {
    if i + 1 < |fl| then fl[i + 1] else fl[0]
  }

  ghost predicate Linked(s: Heap, i: int) {
    0 <= i < |s.fl| && 0 <= s.fl[i] < |s.ptr| && s.ptr[s.fl[i]] == Next(s.fl, i)
  }

  /** Free block i ends before free block j starts. */
  ghost predicate Before(s: Heap, i: int, j: int) {
    0 <= i < j < |s.fl| && 0 <= s.fl[i] < |s.size| && s.fl[i] + s.size[s.fl[i]] <= s.fl[j]
  }

  /** Blocks tile what the allocator has, and the free ones are the circular list. */
  ghost predicate Tiled(s: Heap) {
    && Sized(s)
    && (forall h | IsBlock(s, h) :: BlockOk(s, h))
    && (forall u | 0 <= u < |s.own| :: UnitOk(s, u))
    && (forall i | 0 <= i < |s.fl| :: ItemOk(s, i))
    && (forall i | 0 <= i < |s.fl| :: Linked(s, i))
    && (forall i, j | 0 <= i < j < |s.fl| :: Before(s, i, j))
  }

  /** No two free blocks touch. */
  ghost predicate Apart(s: Heap) {
    forall i, j | 0 <= i < j < |s.fl| :: !Touch(s, i, j)
  }

  ghost predicate Touch(s: Heap, i: int, j: int) {
    0 <= i < j < |s.fl| && 0 <= s.fl[i] < |s.size| && s.fl[i] + s.size[s.fl[i]] == s.fl[j]
  }

  ghost predicate Inv(s: Heap) {
    Tiled(s) && Apart(s)
  }

  ghost function Reowned(own: seq<int>, lo: int, hi: int, h: int): (r: seq<int>)
    ensures |r| == |own| && forall u | 0 <= u < |own| :: r[u] == if lo <= u < hi then h else own[u]
  {
    seq(|own|, u requires 0 <= u < |own| => if lo <= u < hi then h else own[u])
  }

  // ---- putting a block on the list ----

  /** Live block b goes on the list after item i. */
  ghost function Inserted(s: Heap, i: int, b: int): Heap
    requires 0 <= i < |s.fl| && 0 <= b < |s.ptr| && |s.live| == |s.ptr| && 0 <= s.fl[i] < |s.ptr|
  {
    s.(ptr := s.ptr[b := s.ptr[s.fl[i]]][s.fl[i] := b], live := s.live[b := false], fl := s.fl[..i + 1] + [b] + s.fl[i + 1..])
  }

  ghost predicate Fits(s: Heap, i: int, b: int) {
    0 <= i < |s.fl| && Live(s, b) && s.fl[i] < b && (i + 1 < |s.fl| ==> b < s.fl[i + 1])
  }

  lemma BlocksApart(s: Heap, g: int, h: int)
    requires Tiled(s) && IsBlock(s, g) && IsBlock(s, h) && g < h
    ensures g + s.size[g] <= h
  {
    assert BlockOk(s, g);
  }

  lemma InsertKeeps(s: Heap, i: int, b: int)
    requires Tiled(s) && Fits(s, i, b)
    ensures 0 <= s.fl[i] < |s.ptr| && Tiled(Inserted(s, i, b))
  {
    assert ItemOk(s, i) && Linked(s, i);
    var s1 := Inserted(s, i, b);
    var n := |s.fl|;
    assert forall j | 0 <= j < |s1.fl| :: s1.fl[j] == if j <= i then s.fl[j] else if j == i + 1 then b else s.fl[j - 1];
    forall h | IsBlock(s1, h) ensures BlockOk(s1, h) {
      assert BlockOk(s, h);
      if h in s.fl { InsertedHas(s, i, b, h); }
      assert s1.fl[i + 1] == b;
    }
    forall u | 0 <= u < |s1.own| ensures UnitOk(s1, u) { assert UnitOk(s, u); }
    forall j | 0 <= j < |s1.fl| ensures ItemOk(s1, j) && Linked(s1, j) {
      InsertedItem(s, i, b, j);
    }
    forall j, k | 0 <= j < k < |s1.fl| ensures Before(s1, j, k) {
      InsertedBefore(s, i, b, j, k);
    }
  }

  lemma InsertedHas(s: Heap, i: int, b: int, h: int)
    requires 0 <= i < |s.fl| && h in s.fl
    ensures h in s.fl[..i + 1] + [b] + s.fl[i + 1..]
  {
    var j :| 0 <= j < |s.fl| && s.fl[j] == h;
    if j <= i { assert (s.fl[..i + 1] + [b] + s.fl[i + 1..])[j] == h; }
    else { assert (s.fl[..i + 1] + [b] + s.fl[i + 1..])[j + 1] == h; }
  }

  lemma InsertedItem(s: Heap, i: int, b: int, j: int)
    requires Tiled(s) && Fits(s, i, b) && 0 <= j <= |s.fl| && 0 <= s.fl[i] < |s.ptr|
    ensures Sized(Inserted(s, i, b)) && ItemOk(Inserted(s, i, b), j) && Linked(Inserted(s, i, b), j)
  {
    var m := if j <= i then j else if j == i + 1 then i else j - 1;
    assert ItemOk(s, i) && Linked(s, i) && ItemOk(s, m) && Linked(s, m) && ItemOk(s, 0);
    if m < i { assert Before(s, m, i); }
    if i < m { assert Before(s, i, m); }
  }

  /** b starts after every item up to i ends. */
  lemma EndsBefore(s: Heap, i: int, b: int, j: int)
    requires Tiled(s) && Fits(s, i, b) && 0 <= j <= i
    ensures 0 <= s.fl[j] < |s.size| && s.fl[j] + s.size[s.fl[j]] <= b && s.fl[j] != b
  {
    assert ItemOk(s, 0) && ItemOk(s, j);
    if j < i { assert Before(s, j, i); }
    if j > 0 { BlocksApart(s, s.fl[j], b); }
  }

  /** b ends before every item after i starts. */
  lemma StartsAfter(s: Heap, i: int, b: int, k: int)
    requires Tiled(s) && Fits(s, i, b) && i < k < |s.fl|
    ensures 0 < b < |s.size| && b + s.size[b] <= s.fl[k]
  {
    var n := i + 1;
    assert ItemOk(s, k) && ItemOk(s, n) && BlockOk(s, s.fl[n]);
    if n < k { assert Before(s, n, k); }
    BlocksApart(s, b, s.fl[k]);
  }

  lemma InsertedBefore(s: Heap, i: int, b: int, j: int, k: int)
    requires Tiled(s) && Fits(s, i, b) && 0 <= j < k <= |s.fl| && 0 <= s.fl[i] < |s.ptr|
    ensures Before(Inserted(s, i, b), j, k)
  {
    if k == i + 1 {
      EndsBefore(s, i, b, j);
    } else if j == i + 1 {
      StartsAfter(s, i, b, k - 1);
    } else {
      assert Before(s, if j <= i then j else j - 1, if k <= i then k else k - 1);
    }
  }

  // ---- joining neighbours ----

  /** Item i takes over item i + 1, which starts where it ends. */
  ghost function Joined(s: Heap, i: int): Heap
    requires 0 <= i && i + 1 < |s.fl| && Sized(s) && 0 <= s.fl[i] < |s.ptr| && 0 <= s.fl[i + 1] < |s.ptr|
  {
    var a, b := s.fl[i], s.fl[i + 1];
    s.(ptr := s.ptr[a := s.ptr[b]], size := s.size[a := s.size[a] + s.size[b]],
       own := Reowned(s.own, b, b + s.size[b], a), fl := s.fl[..i + 1] + s.fl[i + 2..])
  }

  /** Items i and i + 1 are blocks that touch. */
  ghost predicate Joins(s: Heap, i: int) {
    && 0 < i && i + 1 < |s.fl| && Sized(s) && IsBlock(s, s.fl[i]) && IsBlock(s, s.fl[i + 1])
    && s.fl[i] + s.size[s.fl[i]] == s.fl[i + 1]
  }

  lemma JoinKeeps(s: Heap, i: int)
    requires Tiled(s) && Joins(s, i)
    ensures Tiled(Joined(s, i))
  {
    var s1 := Joined(s, i);
    forall h | IsBlock(s1, h) ensures BlockOk(s1, h) { JoinedBlock(s, i, h); }
    forall u | 0 <= u < |s1.own| ensures UnitOk(s1, u) { JoinedUnit(s, i, u); }
    forall j | 0 <= j < |s1.fl| ensures ItemOk(s1, j) && Linked(s1, j) { JoinedItem(s, i, j); }
    forall j, k | 0 <= j < k < |s1.fl| ensures Before(s1, j, k) { JoinedBefore(s, i, j, k); }
  }

  lemma JoinedBlock(s: Heap, i: int, h: int)
    requires Tiled(s) && Joins(s, i) && IsBlock(Joined(s, i), h)
    ensures Sized(Joined(s, i)) && BlockOk(Joined(s, i), h)
  {
    var a, b := s.fl[i], s.fl[i + 1];
    var s1 := Joined(s, i);
    assert BlockOk(s, a) && BlockOk(s, b) && UnitOk(s, h);
    assert IsBlock(s, h) && h != b;
    assert BlockOk(s, h);
    if h in s.fl {
      var j :| 0 <= j < |s.fl| && s.fl[j] == h;
      if j <= i { assert s1.fl[j] == h; } else { assert s1.fl[j - 1] == h; }
    }
    assert s1.fl[i] == a;
  }

  lemma JoinedUnit(s: Heap, i: int, u: int)
    requires Tiled(s) && Joins(s, i) && 0 <= u < |s.own|
    ensures Sized(Joined(s, i)) && UnitOk(Joined(s, i), u)
  {
    var a, b := s.fl[i], s.fl[i + 1];
    assert BlockOk(s, a) && BlockOk(s, b) && UnitOk(s, u);
    if s.own[u] != 0 { assert UnitOk(s, s.own[u]); }
  }

  lemma JoinedItem(s: Heap, i: int, j: int)
    requires Tiled(s) && Joins(s, i) && 0 <= j < |s.fl| - 1
    ensures Sized(Joined(s, i)) && ItemOk(Joined(s, i), j) && Linked(Joined(s, i), j)
  {
    var m := if j <= i then j else j + 1;
    assert ItemOk(s, i) && ItemOk(s, i + 1) && Linked(s, i) && Linked(s, i + 1) && ItemOk(s, m) && Linked(s, m) && ItemOk(s, 0);
    assert BlockOk(s, s.fl[i + 1]) && BlockOk(s, s.fl[i]);
    if m < i { assert Before(s, m, i) && Before(s, m, i + 1); }
    if i + 1 < m { assert Before(s, i, m) && Before(s, i + 1, m); }
  }

  lemma JoinedBefore(s: Heap, i: int, j: int, k: int)
    requires Tiled(s) && Joins(s, i) && 0 <= j < k < |s.fl| - 1
    ensures Before(Joined(s, i), j, k)
  {
    var mj, mk := if j <= i then j else j + 1, if k <= i then k else k + 1;
    assert Before(s, mj, mk) && ItemOk(s, mj) && ItemOk(s, i);
    if j == i { assert Before(s, i + 1, mk); }
    if mj != i {
      if mj < i { assert Before(s, mj, i); } else { assert Before(s, i, mj); }
    }
  }

  // ---- free ----

  /** Items j and j + 1 touch. */
  ghost predicate TouchNext(s: Heap, j: int) {
    0 <= j && j + 1 < |s.fl| && 0 <= s.fl[j] < |s.size| && s.fl[j] + s.size[s.fl[j]] == s.fl[j + 1]
  }

  /** Only neighbours on the list can touch. */
  lemma OnlyNeighbours(s: Heap)
    requires Tiled(s) && forall j | 0 <= j < |s.fl| :: !TouchNext(s, j)
    ensures Apart(s)
  {
    forall i, j | 0 <= i < j < |s.fl| ensures !Touch(s, i, j) {
      assert !TouchNext(s, i);
      var m := i + 1;
      if m < j {
        assert Before(s, i, m) && Before(s, m, j) && ItemOk(s, m) && BlockOk(s, s.fl[m]);
      }
    }
  }

  lemma ApartNext(s: Heap, j: int)
    requires Apart(s) && 0 <= j < |s.fl|
    ensures !TouchNext(s, j)
  {
    var m := j + 1;
    if m < |s.fl| { assert !Touch(s, j, m); }
  }

  lemma InsertedTouch(s: Heap, i: int, b: int, j: int)
    requires Tiled(s) && Apart(s) && Fits(s, i, b) && 0 <= s.fl[i] < |s.ptr| && j != i && j != i + 1
    ensures !TouchNext(Inserted(s, i, b), j)
  {
    var m := if j < i then j else j - 1;
    if 0 <= m < |s.fl| { ApartNext(s, m); }
  }

  lemma JoinedTouch(s: Heap, i: int, j: int)
    requires Tiled(s) && Joins(s, i) && TouchNext(Joined(s, i), j)
    ensures TouchNext(s, if j < i then j else j + 1)
  {
    var m := if j < i then j else j + 1;
    assert ItemOk(s, i) && ItemOk(s, i + 1) && ItemOk(s, m) && ItemOk(s, 0);
    if m < i { assert Before(s, m, i); }
    if i < m { assert Before(s, i, m); }
  }

  /** free(b) after item i of the list: on the list, joined with the next block and then
      with the previous one where they touch. */
  ghost function Freed(s: Heap, i: int, b: int): Heap
    requires Tiled(s) && Fits(s, i, b)
  {
    InsertKeeps(s, i, b);
    var s1 := Inserted(s, i, b);
    var up := i + 1 < |s.fl| && b + s.size[b] == s.fl[i + 1];
    var s2 := if up then JoinUp(s, i, b); Joined(s1, i + 1) else s1;
    if i > 0 && s.fl[i] + s.size[s.fl[i]] == b then JoinDown(s, i, b, up, s2); Joined(s2, i) else s2
  }

  lemma JoinUp(s: Heap, i: int, b: int)
    requires Tiled(s) && Fits(s, i, b) && i + 1 < |s.fl| && b + s.size[b] == s.fl[i + 1]
    ensures 0 <= s.fl[i] < |s.ptr| && Joins(Inserted(s, i, b), i + 1)
  {
    InsertKeeps(s, i, b);
    assert ItemOk(s, i + 1);
  }

  lemma JoinDown(s: Heap, i: int, b: int, up: bool, s2: Heap)
    requires Tiled(s) && Fits(s, i, b) && 0 < i && 0 <= s.fl[i] < |s.ptr| == |s.size| && s.fl[i] + s.size[s.fl[i]] == b
    requires if up then Joins(Inserted(s, i, b), i + 1) && s2 == Joined(Inserted(s, i, b), i + 1) else s2 == Inserted(s, i, b)
    ensures Tiled(s2) && Joins(s2, i)
  {
    InsertKeeps(s, i, b);
    assert ItemOk(s, i);
    if up {
      JoinKeeps(Inserted(s, i, b), i + 1);
      assert Before(Inserted(s, i, b), i, i + 1);
    }
  }

  lemma FreedKeeps(s: Heap, i: int, b: int)
    requires Inv(s) && Fits(s, i, b)
    ensures Inv(Freed(s, i, b))
  {
    InsertKeeps(s, i, b);
    var s1 := Inserted(s, i, b);
    var up := i + 1 < |s.fl| && b + s.size[b] == s.fl[i + 1];
    if up {
      JoinUp(s, i, b);
      JoinKeeps(s1, i + 1);
    }
    var s2 := if up then Joined(s1, i + 1) else s1;
    forall j | 0 <= j < |s2.fl| && j != i ensures !TouchNext(s2, j) {
      FreedUpTouch(s, i, b, j, s2, up);
    }
    var down := i > 0 && s.fl[i] + s.size[s.fl[i]] == b;
    if down {
      JoinDown(s, i, b, up, s2);
      JoinKeeps(s2, i);
      var s3 := Joined(s2, i);
      forall j | 0 <= j < |s3.fl| ensures !TouchNext(s3, j) {
        if TouchNext(s3, j) { JoinedTouch(s2, i, j); }
      }
      OnlyNeighbours(s3);
    } else {
      FirstApart(s, i, b, up, s2);
      OnlyNeighbours(s2);
    }
  }

  lemma FreedUpTouch(s: Heap, i: int, b: int, j: int, s2: Heap, up: bool)
    requires Inv(s) && Fits(s, i, b) && 0 <= s.fl[i] < |s.ptr| && j != i && Tiled(Inserted(s, i, b))
    requires up <==> i + 1 < |s.fl| && b + s.size[b] == s.fl[i + 1]
    requires if up then Joins(Inserted(s, i, b), i + 1) && s2 == Joined(Inserted(s, i, b), i + 1) else s2 == Inserted(s, i, b)
    ensures !TouchNext(s2, j)
  {
    var s1 := Inserted(s, i, b);
    if up {
      if TouchNext(s2, j) {
        JoinedTouch(s1, i + 1, j);
        InsertedTouch(s, i, b, if j < i + 1 then j else j + 1);
      }
    } else if j != i + 1 {
      InsertedTouch(s, i, b, j);
    }
  }

  /** base touches nothing, and item i does not touch b. */
  lemma FirstApart(s: Heap, i: int, b: int, up: bool, s2: Heap)
    requires Tiled(s) && Fits(s, i, b) && 0 <= s.fl[i] < |s.ptr| && !(i > 0 && s.fl[i] + s.size[s.fl[i]] == b)
    requires if up then Joins(Inserted(s, i, b), i + 1) && s2 == Joined(Inserted(s, i, b), i + 1) else s2 == Inserted(s, i, b)
    ensures !TouchNext(s2, i)
  {
    assert ItemOk(s, i) && ItemOk(s, 0);
  }

  /** From s to s1 the program's blocks are the same, but that b (if a block) is no longer
      and a is now one of them, and the allocator's units are the same. */
  ghost predicate Moved(s: Heap, s1: Heap, b: int, a: int) {
    && Sized(s) && Sized(s1) && |s1.own| == |s.own|
    && (forall h | Live(s, h) && h != b :: Live(s1, h) && s1.size[h] == s.size[h])
    && (forall h | Live(s1, h) && h != a :: Live(s, h) && h != b)
    && (forall u | 0 <= u < |s.own| :: s1.own[u] == 0 <==> s.own[u] == 0)
  }

  lemma JoinMoves(s: Heap, i: int)
    requires Tiled(s) && Joins(s, i)
    ensures Moved(s, Joined(s, i), 0, 0)
  {
    var a, b := s.fl[i], s.fl[i + 1];
    assert ItemOk(s, i) && ItemOk(s, i + 1) && BlockOk(s, b) && BlockOk(s, a);
    var s1 := Joined(s, i);
    forall h | Live(s1, h) ensures Live(s, h) {
      assert UnitOk(s, h);
    }
    forall h | Live(s, h) ensures Live(s1, h) && s1.size[h] == s.size[h] {
      if b < h { BlocksApart(s, b, h); }
    }
  }

  lemma MovedTrans(s: Heap, s1: Heap, s2: Heap, b: int)
    requires Moved(s, s1, b, 0) && Moved(s1, s2, 0, 0)
    ensures Moved(s, s2, b, 0)
  {}

  lemma FreedMoves(s: Heap, i: int, b: int)
    requires Tiled(s) && Fits(s, i, b)
    ensures Moved(s, Freed(s, i, b), b, 0)
  {
    InsertKeeps(s, i, b);
    var s1 := Inserted(s, i, b);
    assert Moved(s, s1, b, 0);
    var up := i + 1 < |s.fl| && b + s.size[b] == s.fl[i + 1];
    var s2 := if up then JoinUp(s, i, b); Joined(s1, i + 1) else s1;
    if up {
      JoinMoves(s1, i + 1);
      MovedTrans(s, s1, s2, b);
    }
    if i > 0 && s.fl[i] + s.size[s.fl[i]] == b {
      JoinDown(s, i, b, up, s2);
      JoinMoves(s2, i);
      MovedTrans(s, s2, Joined(s2, i), b);
    }
  }

  // ---- malloc ----

  /** Item i, taken off the list whole. */
  ghost function TakenWhole(s: Heap, i: int): Heap
    requires 0 < i < |s.fl| && Sized(s) && 0 <= s.fl[i] < |s.ptr| && 0 <= s.fl[i - 1] < |s.ptr|
  {
    s.(ptr := s.ptr[s.fl[i - 1] := s.ptr[s.fl[i]]], live := s.live[s.fl[i] := true], fl := s.fl[..i] + s.fl[i + 1..])
  }

  lemma TakenWholeItem(s: Heap, i: int, j: int)
    requires Tiled(s) && 0 < i < |s.fl| && 0 <= j < |s.fl| - 1
    ensures 0 <= s.fl[i] < |s.ptr| && 0 <= s.fl[i - 1] < |s.ptr|
    ensures Sized(TakenWhole(s, i)) && ItemOk(TakenWhole(s, i), j) && Linked(TakenWhole(s, i), j)
  {
    var m := if j < i then j else j + 1;
    var h := i - 1;
    assert ItemOk(s, i) && Linked(s, i) && ItemOk(s, h) && Linked(s, h) && ItemOk(s, m) && Linked(s, m) && ItemOk(s, 0);
    assert Before(s, h, i) && BlockOk(s, s.fl[i]);
    if m < h { assert Before(s, m, h) && Before(s, m, i); }
    if i < m { assert Before(s, i, m) && Before(s, h, m); }
  }

  lemma TakenWholeKeeps(s: Heap, i: int)
    requires Inv(s) && 0 < i < |s.fl|
    ensures IsBlock(s, s.fl[i]) && 0 <= s.fl[i - 1] < |s.ptr|
    ensures Inv(TakenWhole(s, i)) && Moved(s, TakenWhole(s, i), 0, s.fl[i]) && Live(TakenWhole(s, i), s.fl[i])
  {
    assert ItemOk(s, i) && ItemOk(s, i - 1) && ItemOk(s, 0);
    var s1 := TakenWhole(s, i);
    forall h | IsBlock(s1, h) ensures BlockOk(s1, h) {
      assert BlockOk(s, h);
      if h in s.fl && h != s.fl[i] {
        var j :| 0 <= j < |s.fl| && s.fl[j] == h;
        if j < i { assert s1.fl[j] == h; } else { assert s1.fl[j - 1] == h; }
      }
    }
    forall u | 0 <= u < |s1.own| ensures UnitOk(s1, u) { assert UnitOk(s, u); }
    forall j | 0 <= j < |s1.fl| ensures ItemOk(s1, j) && Linked(s1, j) { TakenWholeItem(s, i, j); }
    forall j, k | 0 <= j < k < |s1.fl| ensures Before(s1, j, k) && !Touch(s1, j, k) {
      var mj, mk := if j < i then j else j + 1, if k < i then k else k + 1;
      assert Before(s, mj, mk) && !Touch(s, mj, mk);
    }
  }

  /** The last n units of item i, as a block of their own. */
  ghost function TakenTail(s: Heap, i: int, n: int): Heap
    requires 0 < i < |s.fl| && Sized(s) && 0 <= s.fl[i] && 0 < n && s.fl[i] < |s.ptr| && n < s.size[s.fl[i]]
    requires s.fl[i] + s.size[s.fl[i]] <= |s.ptr|
  {
    var p := s.fl[i];
    var q := p + s.size[p] - n;
    s.(size := s.size[p := s.size[p] - n][q := n], own := Reowned(s.own, q, q + n, q), live := s.live[q := true])
  }

  lemma TakenTailKeeps(s: Heap, i: int, n: int)
    requires Inv(s) && 0 < i < |s.fl| && IsBlock(s, s.fl[i]) && 0 < n < s.size[s.fl[i]]
    ensures s.fl[i] + s.size[s.fl[i]] <= |s.ptr|
    ensures
      var q := s.fl[i] + s.size[s.fl[i]] - n;
      && Inv(TakenTail(s, i, n)) && Moved(s, TakenTail(s, i, n), 0, q) && Live(TakenTail(s, i, n), q)
      && !Live(s, q) && TakenTail(s, i, n).size[q] == n
  {
    assert ItemOk(s, i) && BlockOk(s, s.fl[i]) && ItemOk(s, 0);
    var s1 := TakenTail(s, i, n);
    forall h | IsBlock(s1, h) ensures BlockOk(s1, h) { TakenTailBlock(s, i, n, h); }
    forall u | 0 <= u < |s1.own| ensures UnitOk(s1, u) {
      assert UnitOk(s, u);
      if s.own[u] != 0 { assert UnitOk(s, s.own[u]); }
    }
    forall j | 0 <= j < |s1.fl| ensures ItemOk(s1, j) && Linked(s1, j) { TakenTailItem(s, i, n, j); }
    forall j, k | 0 <= j < k < |s1.fl| ensures Before(s1, j, k) && !Touch(s1, j, k) {
      assert Before(s, j, k) && !Touch(s, j, k) && ItemOk(s, j);
      TakenTailItem(s, i, n, j);
      if j != i { TakenTailSize(s, i, n, s.fl[j], j); }
    }
    TakenTailMoves(s, i, n);
  }

  /** Other items keep their size: the new header is inside item i. */
  lemma TakenTailSize(s: Heap, i: int, n: int, h: int, j: int)
    requires Tiled(s) && 0 < i < |s.fl| && IsBlock(s, s.fl[i]) && 0 < n < s.size[s.fl[i]]
    requires 0 <= j < |s.fl| && h == s.fl[j] && j != i
    ensures 0 <= h < |s.size| && s.fl[i] + s.size[s.fl[i]] <= |s.ptr|
    ensures TakenTail(s, i, n).size[h] == s.size[h] && h != s.fl[i]
  {
    assert ItemOk(s, i) && BlockOk(s, s.fl[i]) && ItemOk(s, j) && ItemOk(s, 0);
    if j < i { assert Before(s, j, i); } else { assert Before(s, i, j); }
  }

  lemma TakenTailItem(s: Heap, i: int, n: int, j: int)
    requires Tiled(s) && 0 < i < |s.fl| && IsBlock(s, s.fl[i]) && 0 < n < s.size[s.fl[i]] && 0 <= j < |s.fl|
    ensures s.fl[i] + s.size[s.fl[i]] <= |s.ptr|
    ensures Sized(TakenTail(s, i, n)) && ItemOk(TakenTail(s, i, n), j) && Linked(TakenTail(s, i, n), j)
  {
    assert ItemOk(s, i) && BlockOk(s, s.fl[i]) && ItemOk(s, j) && Linked(s, j) && ItemOk(s, 0);
    if j < i { assert Before(s, j, i); }
    if i < j { assert Before(s, i, j); }
  }

  lemma TakenTailBlock(s: Heap, i: int, n: int, h: int)
    requires Tiled(s) && 0 < i < |s.fl| && IsBlock(s, s.fl[i]) && 0 < n < s.size[s.fl[i]]
    requires s.fl[i] + s.size[s.fl[i]] <= |s.ptr| && IsBlock(TakenTail(s, i, n), h)
    ensures Sized(TakenTail(s, i, n)) && BlockOk(TakenTail(s, i, n), h)
  {
    var p := s.fl[i];
    var q := p + s.size[p] - n;
    assert ItemOk(s, i) && BlockOk(s, p) && UnitOk(s, h);
    if h != q && h != p {
      assert IsBlock(s, h) && BlockOk(s, h);
      if h < p { BlocksApart(s, h, p); } else { BlocksApart(s, p, h); }
    }
  }

  lemma TakenTailMoves(s: Heap, i: int, n: int)
    requires Tiled(s) && 0 < i < |s.fl| && IsBlock(s, s.fl[i]) && 0 < n < s.size[s.fl[i]]
    requires s.fl[i] + s.size[s.fl[i]] <= |s.ptr|
    ensures
      var q := s.fl[i] + s.size[s.fl[i]] - n;
      Moved(s, TakenTail(s, i, n), 0, q) && Live(TakenTail(s, i, n), q) && !Live(s, q)
  {
    var p := s.fl[i];
    var q := p + s.size[p] - n;
    var s1 := TakenTail(s, i, n);
    assert ItemOk(s, i) && BlockOk(s, p);
    forall h | Live(s, h) ensures Live(s1, h) && s1.size[h] == s.size[h] {
      if p < h { BlocksApart(s, p, h); }
    }
  }

  // ---- sbrk ----

  /** Memory up to address a + n exists; [a, a + n) is one live block. */
  ghost function Grown(s: Heap, a: int, n: int): Heap
    requires Sized(s) && |s.own| <= a && 0 < n
  {
    var more := a + n - |s.own|;
    Heap(s.ptr + seq(more, _ => 0), (s.size + seq(more, _ => 0))[a := n],
         s.own + seq(more, j => if |s.own| + j < a then 0 else a), (s.live + seq(more, _ => false))[a := true], s.fl)
  }

  lemma GrownKeeps(s: Heap, a: int, n: int)
    requires Inv(s) && 0 < |s.own| <= a && 0 < n
    ensures Inv(Grown(s, a, n)) && Live(Grown(s, a, n), a) && Grown(s, a, n).size[a] == n
    ensures forall h | Live(s, h) :: Live(Grown(s, a, n), h) && Grown(s, a, n).size[h] == s.size[h]
    ensures forall h | Live(Grown(s, a, n), h) && h != a :: Live(s, h)
    ensures forall u | 0 <= u < a + n :: Grown(s, a, n).own[u] == 0 <==> if u < |s.own| then s.own[u] == 0 else u < a
  {
    var s1 := Grown(s, a, n);
    forall h | IsBlock(s1, h) ensures BlockOk(s1, h) {
      if h < |s.own| { assert BlockOk(s, h); }
    }
    forall u | 0 <= u < |s1.own| ensures UnitOk(s1, u) {
      if u < |s.own| { assert UnitOk(s, u); }
    }
    forall i | 0 <= i < |s1.fl| ensures ItemOk(s1, i) && Linked(s1, i) {
      assert ItemOk(s, i) && Linked(s, i);
    }
    forall i, j | 0 <= i < j < |s1.fl| ensures Before(s1, i, j) && !Touch(s1, i, j) {
      assert Before(s, i, j) && !Touch(s, i, j) && ItemOk(s, i);
    }
  }
}
