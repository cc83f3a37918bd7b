/** Doubly linked circular lists threaded through memory cells (kernel/list.c).
    Cell q < |lists| is the head of ring q; the other cells are free blocks. */
module Rings {
  import opened Basics

  /** For every cell, the ring it is on (or -1) and its position there. */
  datatype Place = Place(ring: int, pos: int)

  ghost predicate CellOk(next: seq<int>, prev: seq<int>, lists: seq<seq<int>>, at: seq<Place>, q: int, j: int)
    requires |next| == |prev| == |at| && 0 <= q < |lists| && 0 <= j < |lists[q]|
  {
    var r := lists[q];
    var x := r[j];
    && 0 <= x < |next| && at[x] == Place(q, j)
    && next[x] == (if j + 1 < |r| then r[j + 1] else r[0])
    && prev[x] == (if j > 0 then r[j - 1] else r[|r| - 1])
  }

  /** Links lead from cells to cells. */
  ghost predicate Closed(next: seq<int>, prev: seq<int>) {
    |next| == |prev| && forall x | 0 <= x < |next| :: 0 <= next[x] < |next|
  }

  /** The links describe the rings `lists`, each starting with its head. */
  ghost predicate Linked(next: seq<int>, prev: seq<int>, lists: seq<seq<int>>, at: seq<Place>) {
    && Closed(next, prev) && |at| == |next| && |lists| <= |next|
    && (forall q | 0 <= q < |lists| :: |lists[q]| >= 1 && lists[q][0] == q)
    && (forall q, j | 0 <= q < |lists| && 0 <= j < |lists[q]| :: CellOk(next, prev, lists, at, q, j))
    && (forall x | 0 <= x < |at| && at[x].ring != -1 ::
          0 <= at[x].ring < |lists| && 0 <= at[x].pos < |lists[at[x].ring]| && lists[at[x].ring][at[x].pos] == x)
  }

  /** Where cells are once e has been pushed onto ring q. */
  ghost function PlacePush(at: seq<Place>, q: int, e: int): seq<Place> {
    seq(|at|, x requires 0 <= x < |at| =>
      if x == e then Place(q, 1)
      else if at[x].ring == q && at[x].pos >= 1 then Place(q, at[x].pos + 1)
      else at[x])
  }

  /** Where cells are once the cell at position j of ring q has been removed. */
  ghost function PlaceRemove(at: seq<Place>, q: int, j: int): seq<Place> {
    seq(|at|, x requires 0 <= x < |at| =>
      if at[x] == Place(q, j) then Place(-1, 0)
      else if at[x].ring == q && at[x].pos > j then Place(q, at[x].pos - 1)
      else at[x])
  }

  function NextPush(next: seq<int>, q: int, e: int): seq<int>
    requires 0 <= q < |next| && 0 <= e < |next|
  {
    next[e := next[q]][q := e]
  }

  function PrevPush(next: seq<int>, prev: seq<int>, q: int, e: int): seq<int>
    requires |next| == |prev| && 0 <= q < |next| && 0 <= e < |next| && 0 <= next[q] < |next|
  {
    prev[e := q][next[q] := e]
  }

  lemma PushLinked(next: seq<int>, prev: seq<int>, lists: seq<seq<int>>, at: seq<Place>, q: int, e: int)
    requires Linked(next, prev, lists, at) && 0 <= q < |lists| && 0 <= e < |next| && at[e].ring == -1
    ensures 0 <= next[q] < |next|
    ensures Linked(NextPush(next, q, e), PrevPush(next, prev, q, e),
                   lists[q := [q, e] + lists[q][1..]], PlacePush(at, q, e))
  {
    var r := lists[q];
    assert CellOk(next, prev, lists, at, q, 0);
    if |r| > 1 { assert CellOk(next, prev, lists, at, q, 1); }
    var n2, p2 := NextPush(next, q, e), PrevPush(next, prev, q, e);
    var l2, a2 := lists[q := [q, e] + r[1..]], PlacePush(at, q, e);
    forall c, j | 0 <= c < |l2| && 0 <= j < |l2[c]| ensures CellOk(n2, p2, l2, a2, c, j) {
      if c != q {
        assert CellOk(next, prev, lists, at, c, j);
      } else if j == 0 {
        assert CellOk(next, prev, lists, at, q, |r| - 1);
      } else if j >= 2 {
        assert CellOk(next, prev, lists, at, q, j - 1);
      }
    }
  }

  lemma RemoveLinked(next: seq<int>, prev: seq<int>, lists: seq<seq<int>>, at: seq<Place>, e: int)
    requires Linked(next, prev, lists, at) && 0 <= e < |next| && at[e].ring != -1 && at[e].pos > 0
    ensures 0 <= prev[e] < |next| && 0 <= next[e] < |next| && prev[e] != e
    ensures var q, j := at[e].ring, at[e].pos;
            Linked(next[prev[e] := next[e]], prev[next[e] := prev[e]],
                   lists[q := lists[q][..j] + lists[q][j + 1..]], PlaceRemove(at, q, j))
  {
    var q, j := at[e].ring, at[e].pos;
    var r := lists[q];
    assert CellOk(next, prev, lists, at, q, j) && CellOk(next, prev, lists, at, q, j - 1);
    if j + 1 < |r| { assert CellOk(next, prev, lists, at, q, j + 1); } else { assert CellOk(next, prev, lists, at, q, 0); }
    var n2, p2 := next[prev[e] := next[e]], prev[next[e] := prev[e]];
    var l2, a2 := lists[q := r[..j] + r[j + 1..]], PlaceRemove(at, q, j);
    forall c, m | 0 <= c < |l2| && 0 <= m < |l2[c]| ensures CellOk(n2, p2, l2, a2, c, m) {
      RemoveCell(next, prev, lists, at, e, c, m);
    }
    hide CellOk;
  }

  lemma RemoveCell(next: seq<int>, prev: seq<int>, lists: seq<seq<int>>, at: seq<Place>, e: int, c: int, m: int)
    requires Linked(next, prev, lists, at) && 0 <= e < |next| && at[e].ring != -1 && at[e].pos > 0
    requires 0 <= prev[e] < |next| && 0 <= next[e] < |next| && 0 <= c < |lists|
    requires var q, j := at[e].ring, at[e].pos;
             0 <= m < |lists[q := lists[q][..j] + lists[q][j + 1..]][c]|
    ensures var q, j := at[e].ring, at[e].pos;
            CellOk(next[prev[e] := next[e]], prev[next[e] := prev[e]],
                   lists[q := lists[q][..j] + lists[q][j + 1..]], PlaceRemove(at, q, j), c, m)
  {
    var q, j := at[e].ring, at[e].pos;
    var r := lists[q];
    assert CellOk(next, prev, lists, at, q, j) && CellOk(next, prev, lists, at, q, j - 1);
    if j + 1 < |r| { assert CellOk(next, prev, lists, at, q, j + 1); } else { assert CellOk(next, prev, lists, at, q, 0); }
    if c != q {
      assert CellOk(next, prev, lists, at, c, m);
    } else if m < j {
      assert CellOk(next, prev, lists, at, q, m);
    } else {
      assert CellOk(next, prev, lists, at, q, m + 1);
    }
    assert Closed(next, prev) && |at| == |next|;
    hide Linked;
  }

  class ListMemory {
    var next: seq<int>
    var prev: seq<int>
    ghost var lists: seq<seq<int>>
    ghost var at: seq<Place>

    ghost predicate Valid()
      reads this
    {
      Linked(next, prev, lists, at)
    }

    /** lst_init on each of `heads` heads, over `cells` cells in all. */
    constructor (heads: nat, cells: nat)
      requires heads <= cells
      ensures Valid() && |next| == cells
      ensures lists == seq(heads, q => [q])
      ensures forall x | 0 <= x < cells :: at[x] == if x < heads then Place(x, 0) else Place(-1, 0)
    {
      next := seq(cells, x => x);
      prev := seq(cells, x => x);
      lists := seq(heads, q => [q]);
      at := seq(cells, x requires 0 <= x < cells => if x < heads then Place(x, 0) else Place(-1, 0));
      new;
      assert forall q, j | 0 <= q < |lists| && 0 <= j < |lists[q]| :: CellOk(next, prev, lists, at, q, j);
    }

    method LstEmpty(q: int) returns (r: bool)
      requires Valid() && 0 <= q < |lists|
      ensures r <==> lists[q] == [q]
    {
      assert CellOk(next, prev, lists, at, q, 0);
      if |lists[q]| > 1 {
        assert CellOk(next, prev, lists, at, q, 1);
      }
      return next[q] == q;
    }

    method LstRemove(e: int)
      requires Valid() && 0 <= e < |next| && at[e].ring != -1 && at[e].pos > 0
      modifies this
      ensures Valid() && |next| == |old(next)|
      ensures var q, j := old(at[e].ring), old(at[e].pos);
              && 0 <= q < |old(lists)| && 0 < j < |old(lists[q])| && old(lists[q][j]) == e
              && lists == old(lists)[q := old(lists[q])[..j] + old(lists[q])[j + 1..]]
              && at == PlaceRemove(old(at), q, j)
    {
      RemoveLinked(next, prev, lists, at, e);
      lists, at := lists[at[e].ring := lists[at[e].ring][..at[e].pos] + lists[at[e].ring][at[e].pos + 1..]],
                   PlaceRemove(at, at[e].ring, at[e].pos);
      next := next[prev[e] := next[e]];
      prev := prev[next[e] := prev[e]];
    }

    /** lst_pop: the first element; popping an empty ring is a panic. */
    method LstPop(q: int) returns (r: Option<int>)
      requires Valid() && 0 <= q < |lists|
      modifies this
      ensures Valid() && |next| == |old(next)|
      ensures r.None? <==> old(lists[q]) == [q]
      ensures r.None? ==> lists == old(lists) && at == old(at)
      ensures r.Some? ==>
        && |old(lists[q])| > 1 && r.value == old(lists[q][1])
        && lists == old(lists)[q := [q] + old(lists[q])[2..]] && at == PlaceRemove(old(at), q, 1)
    {
      var empty := LstEmpty(q);
      if empty {
        return None;
      }
      assert CellOk(next, prev, lists, at, q, 0);
      assert |lists[q]| > 1;
      assert CellOk(next, prev, lists, at, q, 1);
      var e := next[q];
      LstRemove(e);
      assert old(lists[q])[..1] == [q];
      return Some(e);
    }

    /** lst_push, whatever the links.  A cell that is on no ring becomes the first of ring q;
        pushing one that is on a ring is not the list operation it looks like. */
    method LstPush(q: int, e: int)
      requires Closed(next, prev) && 0 <= q < |next| && 0 <= e < |next|
      modifies this
      ensures Closed(next, prev) && |next| == |old(next)|
      ensures next == NextPush(old(next), q, e) && prev == PrevPush(old(next), old(prev), q, e)
      ensures old(Valid() && q < |lists| && at[e].ring == -1) ==>
        Valid() && lists == old(lists)[q := [q, e] + old(lists[q])[1..]] && at == PlacePush(old(at), q, e)
    {
      if Valid() && q < |lists| && at[e].ring == -1 {
        PushLinked(next, prev, lists, at, q, e);
        lists, at := lists[q := [q, e] + lists[q][1..]], PlacePush(at, q, e);
      }
      var first := next[q];
      next := next[e := first];
      prev := prev[e := q];
      prev := prev[first := e];
      next := next[q := e];
    }
  }
}
