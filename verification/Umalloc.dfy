/** free, morecore and malloc (user/umalloc.c), in place on the headers. */
module Umalloc {
  import opened FreeList

  const HEADER := 16               // sizeof(Header)

  /** The steps along a cycle of n from index i to index t. */
  function Dist(i: int, t: int, n: int): int {
    if i <= t then t - i else t - i + n
  }

  function Step(i: int, n: int): int {
    if i + 1 < n then i + 1 else 0
  }

  /** The place of live block b: after the last free block below it. */
  lemma FindPlace(s: Heap, b: int) returns (t: int)
    requires Tiled(s) && Live(s, b)
    ensures Fits(s, t, b)
  {
    assert ItemOk(s, 0);
    t := |s.fl| - 1;
    while s.fl[t] > b
      invariant 0 <= t < |s.fl| && (t + 1 < |s.fl| ==> b < s.fl[t + 1])
      decreases t
    {
      assert ItemOk(s, t);
      t := t - 1;
    }
    assert ItemOk(s, t);
  }

  /** What the loop in free sees at item i: it stops just at the place of b. */
  lemma StopsAt(s: Heap, b: int, t: int, i: int)
    requires Tiled(s) && Fits(s, t, b) && 0 <= i < |s.fl|
    ensures 0 <= s.fl[i] < |s.ptr| && s.ptr[s.fl[i]] == s.fl[Step(i, |s.fl|)] && 0 <= t < |s.fl|
    ensures
      var p, q := s.fl[i], s.ptr[s.fl[i]];
      (b > p && b < q) || (p >= q && (b > p || b < q)) <==> i == t
  {
    assert ItemOk(s, i) && Linked(s, i) && ItemOk(s, 0);
    var n := i + 1;
    if n < |s.fl| { assert Before(s, i, n) && ItemOk(s, n); }
    if t < i { assert Before(s, t, i) && ItemOk(s, t); }
    if n < |s.fl| && n <= t {
      if n < t { assert Before(s, n, t) && BlockOk(s, s.fl[n]); }
    }
    if t + 1 < |s.fl| && t < i { if t + 1 < i { assert Before(s, t + 1, i) && ItemOk(s, t + 1) && BlockOk(s, s.fl[t + 1]); } }
    if 0 < i { assert Before(s, 0, i); }
  }

  class Allocator {
    var ptr: seq<int>
    var size: seq<int>
    var freep: int                   // -1 before the first malloc
    var brk: int                     // where the process's memory ends, as sbrk left it
    ghost var own: seq<int>
    ghost var live: seq<bool>
    ghost var fl: seq<int>

    ghost function S(): Heap
      reads this
    {
      Heap(ptr, size, own, live, fl)
    }

    ghost predicate Valid()
      reads this
    {
      if freep == -1 then Sized(S()) && |own| > 0 && fl == [0] && forall u | 0 <= u < |own| :: own[u] == 0
      else Inv(S()) && freep in fl
    }

    /** Nothing but the static header; its fields hold anything. */
    constructor ()
      ensures Valid() && freep == -1 && brk == 1 && Backed(S(), brk) && S() == Heap([0], [0], [0], [false], [0])
    {
      ptr, size, freep, brk := [0], [0], -1, 1;
      own, live, fl := [0], [false], [0];
    }

    /** The loop in free: finds the item after which bp belongs within one turn of the
        list. */
    method Place(bp: int, ghost t: int) returns (p: int)
      requires Valid() && freep != -1 && Tiled(S()) && Fits(S(), t, bp)
      ensures p == fl[t]
    {
      hide Inv, Tiled, Fits;
      ghost var s := S();
      p := freep;
      ghost var i :| 0 <= i < |fl| && fl[i] == p;
      StopsAt(s, bp, t, i);
      while !(bp > p && bp < ptr[p])
        invariant 0 <= i < |fl| && p == fl[i] && 0 <= p < |ptr|
        invariant ptr[p] == fl[Step(i, |fl|)]
        invariant (bp > p && bp < ptr[p]) || (p >= ptr[p] && (bp > p || bp < ptr[p])) <==> i == t
        decreases Dist(i, t, |fl|)
      {
        if p >= ptr[p] && (bp > p || bp < ptr[p]) {
          break;
        }
        p := ptr[p];
        i := Step(i, |fl|);
        StopsAt(s, bp, t, i);
      }
    }

    /** free: the block goes back, joined with its neighbours. */
    method Free(ap: int) returns (ghost t: int)
      requires Valid() && freep != -1 && Live(S(), ap - 1)
      modifies this
      ensures Valid() && freep != -1 && brk == old(brk) && Moved(old(S()), S(), ap - 1, 0)
      ensures Tiled(old(S())) && Fits(old(S()), t, ap - 1) && S() == Freed(old(S()), t, ap - 1) && freep == old(fl)[t]
    {
      hide Inv, Tiled, Fits, Freed, Moved;
      ghost var s := S();
      InvTiled(s);
      var bp := ap - 1;
      t := FindPlace(s, bp);
      FreedKeeps(s, t, bp);
      FreedMoves(s, t, bp);
      FreedMemory(s, t, bp);
      FreedHasPrev(s, t, bp);
      var p := Place(bp, t);
      if bp + size[bp] == ptr[p] {
        size := size[bp := size[bp] + size[ptr[p]]];
        ptr := ptr[bp := ptr[ptr[p]]];
      } else {
        ptr := ptr[bp := ptr[p]];
      }
      if p + size[p] == bp {
        size := size[p := size[p] + size[bp]];
        ptr := ptr[p := ptr[bp]];
      } else {
        ptr := ptr[p := bp];
      }
      own, live, fl := Freed(s, t, bp).own, Freed(s, t, bp).live, Freed(s, t, bp).fl;
      freep := p;
      assert S() == Freed(s, t, bp);
    }

    /** morecore: at least 4096 units go on the list, at the address sb that sbrk gave unless
        it failed (-1); some free block is then big enough.  All units on the list are memory
        of the process if and only if fewer than 2^31 bytes were asked for. */
    method MoreCore(nu: int, sb: int) returns (p: int)
      requires Valid() && freep != -1 && 0 < nu < 0x1_0000_0000 && (sb == -1 || (|ptr| <= sb && brk <= sb))
      modifies this
      ensures Valid() && freep != -1
      ensures sb == -1 ==> p == -1 && S() == old(S()) && freep == old(freep) && brk == old(brk)
      ensures sb != -1 ==> p == freep && Obtained(old(S()), S(), sb, AtLeast4096(nu))
      ensures sb != -1 ==> |old(fl)| > 0 && freep == old(fl)[|old(fl)| - 1]
      ensures sb != -1 ==> Big(S(), nu) && brk == Break(sb, AsInt(AtLeast4096(nu) * HEADER))
      ensures sb != -1 && old(Backed(S(), brk)) ==> (Backed(S(), brk) <==> AtLeast4096(nu) * HEADER < 0x8000_0000)
    {
      hide Inv, Tiled, Fits, Freed, Moved, Grown, Backed, AsInt, Break;
      var n := AtLeast4096(nu);
      if sb == -1 {
        return -1;
      }
      ghost var s, brk0 := S(), brk;
      InvTiled(s);
      GrownKeeps(s, sb, n);
      GrownMemory(s, sb, n);
      brk := Break(sb, AsInt(n * HEADER));
      ptr := ptr + seq(sb + n - |ptr|, _ => 0);
      size := size + seq(sb + n - |size|, _ => 0);
      size := size[sb := n];
      own, live := Grown(s, sb, n).own, Grown(s, sb, n).live;
      assert S() == Grown(s, sb, n);
      ghost var t := Free(sb + 1);
      PlaceOfNew(s, sb, n, t);
      ObtainedBy(s, S(), sb, n);
      FreedBig(Grown(s, sb, n), t, sb, nu);
      BackedIff(s, brk0, S(), sb, n);
      p := freep;
    }

    /** The end of malloc: item j is big enough; take it whole or take its tail. */
    method Take(prevp: int, p: int, nunits: int, ghost j: int) returns (r: int)
      requires Valid() && freep != -1 && 0 < nunits && 0 < j < |fl| && prevp == fl[j - 1] && p == fl[j]
      requires 0 <= p < |size| && size[p] >= nunits
      modifies this
      ensures Valid() && freep == prevp >= 0 && r > 1 && brk == old(brk) && Granted(old(S()), S(), r - 1, nunits)
      ensures 0 < j < |old(fl)| && Cut(old(S()), S(), j, nunits, r)
    {
      hide Inv, Tiled, TakenWhole, TakenTail, Moved;
      ghost var s := S();
      InvTiled(s);
      ItemIs(s, j);
      if size[p] == nunits {
        TakenWholeKeeps(s, j);
        TakenWholeMemory(s, j);
        ptr := ptr[prevp := ptr[p]];
        live, fl := TakenWhole(s, j).live, TakenWhole(s, j).fl;
        assert S() == TakenWhole(s, j);
        r := p + 1;
      } else {
        TakenTailKeeps(s, j, nunits);
        TakenTailMemory(s, j, nunits);
        size := size[p := size[p] - nunits];
        var q := p + size[p];
        size := size[q := nunits];
        own, live := TakenTail(s, j, nunits).own, TakenTail(s, j, nunits).live;
        assert S() == TakenTail(s, j, nunits);
        r := q + 1;
      }
      freep := prevp;
    }

    /** malloc: a block of Units(nbytes) units that was free, from the list as it is (s0)
        or as it is after one call of sbrk (s1), which sb answers; 0 exactly when no free
        block is big enough and sbrk fails. The search takes at most two turns of the list, and
        the first block that fits is cut, from where the last search ended on (`start`), or
        from the last free block below the new memory. */
    method Malloc(nbytes: int, sb: int) returns (r: int, ghost s0: Heap, ghost s1: Heap, ghost start: int)
      requires Valid() && 0 <= nbytes < 0x1_0000_0000 && (sb == -1 || (|ptr| <= sb && brk <= sb))
      modifies this
      ensures Valid() && freep != -1 && Ready(old(S()), s0)
      ensures Big(s0, Units(nbytes)) ==> s1 == s0
      ensures !Big(s0, Units(nbytes)) && sb != -1 ==> Obtained(s0, s1, sb, AtLeast4096(Units(nbytes)))
      ensures r == 0 <==> !Big(s0, Units(nbytes)) && sb == -1
      ensures r == 0 ==> S() == s0
      ensures r != 0 ==> Granted(s1, S(), r - 1, Units(nbytes)) && NextFit(s1, start, S(), r, Units(nbytes), freep)
      ensures Big(s0, Units(nbytes)) ==> start == if old(freep) == -1 then 0 else old(freep)
      ensures !Big(s0, Units(nbytes)) && r != 0 ==> start == s0.fl[|s0.fl| - 1]
      ensures brk == if sb == -1 || Big(s0, Units(nbytes)) then old(brk)
                     else Break(sb, AsInt(AtLeast4096(Units(nbytes)) * HEADER))
      ensures old(Backed(S(), brk)) ==>
        (Backed(S(), brk) <==> r == 0 || Big(s0, Units(nbytes)) || AtLeast4096(Units(nbytes)) * HEADER < 0x8000_0000)
    {
      hide Backed, Break, AsInt, Inv, Obtained, Granted, Big, Tiled, Looking, Sized, Ready, Units, NextFit, Cut;
      var nunits := Units(nbytes);
      UnitsPositive(nbytes);
      ghost var backed := Backed(S(), brk);
      Prepare();
      s0, s1, start := S(), S(), freep;
      ghost var grew := false;
      var prevp := freep;
      ghost var f, i := LookStart(s0, freep, nunits);
      var p := ptr[prevp];
      while true
        invariant Valid() && freep != -1 && S() == s1 && Ready(old(S()), s0)
        invariant Looking(s1, freep, f, i, prevp, p, nunits)
        invariant start == freep && |s0.fl| > 0
        invariant !grew ==> s1 == s0 && freep == if old(freep) == -1 then 0 else old(freep)
        invariant grew ==> freep == s0.fl[|s0.fl| - 1]
        invariant grew ==> sb != -1 && !Big(s0, nunits) && Obtained(s0, s1, sb, AtLeast4096(nunits)) && Big(s1, nunits)
        invariant brk == if grew then Break(sb, AsInt(AtLeast4096(nunits) * HEADER)) else old(brk)
        invariant backed ==> (Backed(s1, brk) <==> !grew || AtLeast4096(nunits) * HEADER < 0x8000_0000)
        decreases if grew then 0 else 1, Dist(Step(i, |fl|), f, |fl|)
      {
        LookFacts(s1, freep, f, i, prevp, p, nunits);
        if size[p] >= nunits {
          r := Take(prevp, p, nunits, Step(i, |s1.fl|));
          GrantedBacked(s1, S(), r - 1, nunits, brk);
          FirstFit(s1, start, f, i, prevp, p, nunits, S(), r);
          return;
        }
        if p == freep {
          LookEnd(s1, freep, f, i, prevp, p, nunits);
          p := MoreCore(nunits, sb);
          if p == -1 {
            return 0, s0, s1, start;
          }
          s1, grew, start := S(), true, freep;
          f, i := LookStart(s1, freep, nunits);
        } else {
          i := LookOn(s1, freep, f, i, prevp, p, nunits);
        }
        prevp, p := p, ptr[p];
      }
    }

    /** The list exists: made on the first call, empty but for base. */
    method Prepare()
      requires Valid()
      modifies this
      ensures Valid() && freep != -1 && Ready(old(S()), S()) && |ptr| == |old(ptr)| && brk == old(brk)
      ensures freep == if old(freep) == -1 then 0 else old(freep)
      ensures Backed(S(), brk) == old(Backed(S(), brk))
    {
      if freep == -1 {
        StartInv(S());
        ptr, freep := ptr[0 := 0], 0;
        size := size[0 := 0];
      }
    }
  }

  lemma InvTiled(s: Heap)
    requires Inv(s)
    ensures Tiled(s) && Apart(s) && Sized(s) && |s.own| > 0
  {
    assert ItemOk(s, 0);
  }

  /** The header writes of free, case by case. */
  lemma FreedMemory(s: Heap, t: int, b: int)
    requires Tiled(s) && Fits(s, t, b)
    ensures Sized(s) && 0 <= t < |s.fl| && 0 <= s.fl[t] < |s.ptr| && 0 < b < |s.ptr|
    ensures
      var p := s.fl[t];
      var q := s.ptr[p];
      var r := Freed(s, t, b);
      && 0 <= q < |s.ptr|
      && (b + s.size[b] == q && p + s.size[p] == b ==>
            r.size == s.size[b := s.size[b] + s.size[q]][p := s.size[p] + (s.size[b] + s.size[q])]
            && r.ptr == s.ptr[b := s.ptr[q]][p := s.ptr[q]])
      && (b + s.size[b] == q && p + s.size[p] != b ==>
            r.size == s.size[b := s.size[b] + s.size[q]] && r.ptr == s.ptr[b := s.ptr[q]][p := b])
      && (b + s.size[b] != q && p + s.size[p] == b ==>
            r.size == s.size[p := s.size[p] + s.size[b]] && r.ptr == s.ptr[b := q][p := q])
      && (b + s.size[b] != q && p + s.size[p] != b ==> r.size == s.size && r.ptr == s.ptr[b := q][p := b])
  {
    assert ItemOk(s, t) && Linked(s, t) && ItemOk(s, 0) && BlockOk(s, b);
    InsertKeeps(s, t, b);
    if t + 1 < |s.fl| { assert ItemOk(s, t + 1); }
  }

  lemma FreedHasPrev(s: Heap, t: int, b: int)
    requires Tiled(s) && Fits(s, t, b)
    ensures 0 <= t < |s.fl| && s.fl[t] in Freed(s, t, b).fl
  {
    InsertKeeps(s, t, b);
    assert Freed(s, t, b).fl[t] == s.fl[t];
  }

  /** What morecore asks for: the least number of units that is neither below n nor below 4096. */
  function AtLeast4096(n: int): (r: int)
    ensures r >= n && r >= 4096 && (r == n || r == 4096)
  {
    if n < 4096 then 4096 else n
  }

  /** Some free block has n units. */
  ghost predicate Big(s: Heap, n: int) {
    exists g | 0 <= g < |s.fl| :: 0 <= s.fl[g] < |s.size| && s.size[s.fl[g]] >= n
  }

  /** The program's blocks are the same; the allocator has [a, a + n) besides what it had. */
  ghost predicate Obtained(s: Heap, s1: Heap, a: int, n: int) {
    && Sized(s) && Sized(s1) && |s1.own| == a + n && |s.own| <= a
    && (forall h | Live(s, h) :: Live(s1, h) && s1.size[h] == s.size[h])
    && (forall h | Live(s1, h) :: Live(s, h))
    && (forall u | 0 <= u < a + n :: s1.own[u] == 0 <==> if u < |s.own| then s.own[u] == 0 else u < a)
  }

  /** One more block is with the program: h, of n units, out of what was free. */
  ghost predicate Granted(s: Heap, s1: Heap, h: int, n: int) {
    Moved(s, s1, 0, h) && Live(s1, h) && |s1.size| == |s1.own| && s1.size[h] == n && !Live(s, h)
  }

  /** Free block j gave up n units: all it had, or those at its end. */
  ghost predicate Cut(s: Heap, s1: Heap, j: int, n: int, r: int)
    requires 0 < j < |s.fl|
  {
    && Sized(s) && 0 <= s.fl[j - 1] < |s.ptr| && 0 <= s.fl[j] < |s.ptr| && s.size[s.fl[j]] >= n
    && (if s.size[s.fl[j]] == n then r == s.fl[j] + 1 && s1.fl == s.fl[..j] + s.fl[j + 1..] && s1.size == s.size
        else r == s.fl[j] + s.size[s.fl[j]] - n + 1 && s1.fl == s.fl && |s1.size| == |s.size|
             && s1.size[s.fl[j]] == s.size[s.fl[j]] - n)
  }

  /** The first free block after `start`, round the list, that has n units was cut, and the next
      search starts before it. */
  ghost predicate NextFit(s: Heap, start: int, s1: Heap, r: int, n: int, freep: int) {
    exists f, j ::
      && Searched(s, f, j, n) && s.fl[f] == start && 0 < j && Cut(s, s1, j, n, r) && freep == s.fl[j - 1]
  }

  lemma GrownMemory(s: Heap, a: int, n: int)
    requires Sized(s) && |s.own| <= a && 0 < n
    ensures Grown(s, a, n).ptr == s.ptr + seq(a + n - |s.ptr|, _ => 0)
    ensures Grown(s, a, n).size == (s.size + seq(a + n - |s.size|, _ => 0))[a := n]
    ensures Grown(s, a, n).fl == s.fl
  {}

  lemma ObtainedBy(s: Heap, s1: Heap, a: int, n: int)
    requires Inv(s) && 0 < |s.own| <= a && 0 < n && Moved(Grown(s, a, n), s1, a, 0)
    ensures Obtained(s, s1, a, n)
  {
    GrownKeeps(s, a, n);
    assert forall h | Live(s, h) :: h != a;
  }

  lemma FreedBig(s: Heap, t: int, b: int, n: int)
    requires Tiled(s) && Fits(s, t, b) && n <= s.size[b]
    ensures Big(Freed(s, t, b), n)
  {
    InsertKeeps(s, t, b);
    assert ItemOk(s, t) && BlockOk(s, b);
    var s1 := Freed(s, t, b);
    if t + 1 < |s.fl| { assert ItemOk(s, t + 1) && BlockOk(s, s.fl[t + 1]); }
    if t > 0 && s.fl[t] + s.size[s.fl[t]] == b {
      assert BlockOk(s, s.fl[t]);
      assert s1.fl[t] == s.fl[t] && s1.size[s1.fl[t]] >= n;
    } else {
      assert s1.fl[t + 1] == b && s1.size[b] >= n;
    }
  }

  lemma ItemIs(s: Heap, j: int)
    requires Tiled(s) && 0 < j < |s.fl|
    ensures Sized(s) && IsBlock(s, s.fl[j]) && !Live(s, s.fl[j]) && 0 <= s.fl[j - 1] < |s.ptr| && s.fl[j - 1] != s.fl[j]
    ensures s.fl[j] + s.size[s.fl[j]] <= |s.ptr|
  {
    assert ItemOk(s, j) && ItemOk(s, j - 1) && ItemOk(s, 0) && BlockOk(s, s.fl[j]);
    var i := j - 1;
    assert Before(s, i, j) && Linked(s, i);
  }

  lemma TakenWholeMemory(s: Heap, j: int)
    requires 0 < j < |s.fl| && Sized(s) && 0 <= s.fl[j] < |s.ptr| && 0 <= s.fl[j - 1] < |s.ptr| && s.fl[j - 1] != s.fl[j]
    ensures TakenWhole(s, j).ptr == s.ptr[s.fl[j - 1] := s.ptr[s.fl[j]]] && TakenWhole(s, j).size == s.size
    ensures TakenWhole(s, j).own == s.own && s.fl[j - 1] in TakenWhole(s, j).fl
    ensures TakenWhole(s, j).fl == s.fl[..j] + s.fl[j + 1..]
  {
    assert TakenWhole(s, j).fl[j - 1] == s.fl[j - 1];
  }

  lemma TakenTailMemory(s: Heap, j: int, n: int)
    requires 0 < j < |s.fl| && Sized(s) && 0 <= s.fl[j] && 0 < n && s.fl[j] < |s.ptr| && n < s.size[s.fl[j]]
    requires s.fl[j] + s.size[s.fl[j]] <= |s.ptr|
    ensures
      var p := s.fl[j];
      && TakenTail(s, j, n).size == s.size[p := s.size[p] - n][p + s.size[p] - n := n]
      && TakenTail(s, j, n).ptr == s.ptr && TakenTail(s, j, n).fl == s.fl && s.fl[j - 1] in s.fl
  {}

  /** (nbytes + sizeof(Header) - 1) / sizeof(Header) + 1 */
  function Units(nbytes: int): (r: int)
    requires 0 <= nbytes
    ensures r >= 1 && (r - 2) * HEADER < nbytes <= (r - 1) * HEADER
  {
    (nbytes + HEADER - 1) / HEADER + 1
  }

  lemma UnitsPositive(nbytes: int)
    requires 0 <= nbytes
    ensures Units(nbytes) > 0 && (nbytes < 0x1_0000_0000 ==> Units(nbytes) < 0x1_0000_0000)
  {}

  /** s1 is s, or s had no list yet and s1 has one with only base on it. */
  ghost predicate Ready(s: Heap, s1: Heap) {
    || s1 == s
    || (Sized(s) && Sized(s1) && s1.own == s.own && s1.fl == [0] && |s.own| > 0 && s1.size[0] == 0 && (forall u | 0 <= u < |s.own| :: s.own[u] == 0))
  }

  lemma StartInv(s: Heap)
    requires Sized(s) && |s.own| > 0 && s.fl == [0] && forall u | 0 <= u < |s.own| :: s.own[u] == 0
    ensures Inv(s.(ptr := s.ptr[0 := 0], size := s.size[0 := 0]))
  {
    var s1 := s.(ptr := s.ptr[0 := 0], size := s.size[0 := 0]);
    forall i | 0 <= i < |s1.fl| ensures ItemOk(s1, i) && Linked(s1, i) {}
  }

  lemma NextIs(s: Heap, i: int)
    requires Tiled(s) && 0 <= i < |s.fl|
    ensures 0 <= s.fl[i] < |s.ptr| && s.ptr[s.fl[i]] == s.fl[Step(i, |s.fl|)] && 0 <= s.fl[Step(i, |s.fl|)] < |s.size|
  {
    assert Linked(s, i) && Linked(s, Step(i, |s.fl|)) && Sized(s);
  }

  /** The items from the one after f up to, but without, j are too small. */
  ghost predicate Searched(s: Heap, f: int, j: int, n: int) {
    && 0 <= f < |s.fl| && 0 <= j < |s.fl|
    && forall g | 0 <= g < |s.fl| && Dist(Step(f, |s.fl|), g, |s.fl|) < Dist(Step(f, |s.fl|), j, |s.fl|) ::
         0 <= s.fl[g] < |s.size| && s.size[s.fl[g]] < n
  }

  /** Where malloc's loop is: freep is item f, prevp item i and p the item after it. */
  ghost predicate Looking(s: Heap, freep: int, f: int, i: int, prevp: int, p: int, n: int) {
    && Tiled(s) && 0 <= f < |s.fl| && s.fl[f] == freep && 0 <= i < |s.fl| && prevp == s.fl[i]
    && p == s.fl[Step(i, |s.fl|)] && 0 <= p < |s.size| && n > 0 && Searched(s, f, Step(i, |s.fl|), n)
  }

  lemma LookStart(s: Heap, freep: int, n: int) returns (f: int, i: int)
    requires Inv(s) && freep in s.fl && n > 0
    ensures 0 <= freep < |s.ptr| && Looking(s, freep, f, i, freep, s.ptr[freep], n)
  {
    f :| 0 <= f < |s.fl| && s.fl[f] == freep;
    i := f;
    InvTiled(s);
    NextIs(s, f);
  }

  lemma LookFacts(s: Heap, freep: int, f: int, i: int, prevp: int, p: int, n: int)
    requires Looking(s, freep, f, i, prevp, p, n)
    ensures Sized(s) && 0 <= p < |s.size| && 0 <= i < |s.fl| && 0 <= f < |s.fl| && 0 <= prevp < |s.ptr|
    ensures s.size[p] >= n ==> Big(s, n) && 0 < Step(i, |s.fl|) < |s.fl| && prevp == s.fl[Step(i, |s.fl|) - 1] && p == s.fl[Step(i, |s.fl|)]
  {
    assert ItemOk(s, 0);
    NextIs(s, i);
  }

  lemma FirstFit(s: Heap, start: int, f: int, i: int, prevp: int, p: int, n: int, s1: Heap, r: int)
    requires Looking(s, start, f, i, prevp, p, n)
    requires 0 < Step(i, |s.fl|) < |s.fl| && prevp == s.fl[Step(i, |s.fl|) - 1] && Cut(s, s1, Step(i, |s.fl|), n, r)
    ensures NextFit(s, start, s1, r, n, prevp)
  {}

  /** New memory lies above every free block. */
  lemma PlaceOfNew(s: Heap, a: int, n: int, t: int)
    requires Inv(s) && 0 < |s.own| <= a && 0 < n && Fits(Grown(s, a, n), t, a)
    ensures |s.fl| > 0 && t == |s.fl| - 1
  {
    GrownKeeps(s, a, n);
    GrownMemory(s, a, n);
    forall i | 0 <= i < |s.fl| ensures s.fl[i] < a { assert ItemOk(s, i); }
  }

  /** One item on. */
  lemma LookOn(s: Heap, freep: int, f: int, i: int, prevp: int, p: int, n: int) returns (j: int)
    requires Looking(s, freep, f, i, prevp, p, n) && p != freep && s.size[p] < n
    ensures 0 <= p < |s.ptr| && Looking(s, freep, f, j, p, s.ptr[p], n)
    ensures Dist(Step(j, |s.fl|), f, |s.fl|) < Dist(Step(i, |s.fl|), f, |s.fl|)
  {
    j := Step(i, |s.fl|);
    NextIs(s, j);
    var k := Step(j, |s.fl|);
    forall g | 0 <= g < |s.fl| && Dist(Step(f, |s.fl|), g, |s.fl|) < Dist(Step(f, |s.fl|), k, |s.fl|)
      ensures 0 <= s.fl[g] < |s.size| && s.size[s.fl[g]] < n
    {
      if g != j { assert Dist(Step(f, |s.fl|), g, |s.fl|) < Dist(Step(f, |s.fl|), j, |s.fl|); }
    }
  }

  /** Once round to freep, which is too small: nothing is big enough. */
  lemma LookEnd(s: Heap, freep: int, f: int, i: int, prevp: int, p: int, n: int)
    requires Looking(s, freep, f, i, prevp, p, n) && p == freep && s.size[p] < n
    ensures !Big(s, n)
  {
    var j := Step(i, |s.fl|);
    if f < j { Increasing(s, f, j); } else if j < f { Increasing(s, j, f); }
    forall g | 0 <= g < |s.fl| ensures 0 <= s.fl[g] < |s.size| && s.size[s.fl[g]] < n {
      if g != f { assert Dist(Step(f, |s.fl|), g, |s.fl|) < Dist(Step(f, |s.fl|), f, |s.fl|); }
    }
  }

  lemma Increasing(s: Heap, i: int, j: int)
    requires Tiled(s) && 0 <= i < j < |s.fl|
    ensures s.fl[i] < s.fl[j]
  {
    assert ItemOk(s, i) && ItemOk(s, j) && ItemOk(s, 0) && Before(s, i, j);
    if i > 0 { assert BlockOk(s, s.fl[i]); }
  }

  // ---- what sbrk was asked for ----

  /** What sbrk's int parameter makes of n bytes. */
  function AsInt(n: int): int {
    (n + 0x8000_0000) % 0x1_0000_0000 - 0x8000_0000
  }

  /** Where sbrk(n) leaves the end of a process that ended at unit sb: a negative n shrinks the
      process, unless the 32-bit sum wraps, and then nothing changes. */
  function Break(sb: int, n: int): int {
    if n > 0 || sb * HEADER + n >= 0 then sb + n / HEADER else sb
  }

  /** Every unit that the allocator manages is memory of the process. */
  ghost predicate Backed(s: Heap, brk: int) {
    forall u | 0 <= u < |s.own| && s.own[u] != 0 :: u < brk
  }

  /** sbrk is asked for what morecore then puts on the list exactly when that is below 2^31 bytes. */
  lemma SbrkArgument(n: int)
    requires 0 < n <= 0x1_0000_0000
    ensures n * 16 < 0x8000_0000 ==> AsInt(n * 16) == n * 16
    ensures n * 16 >= 0x8000_0000 ==> AsInt(n * 16) < n * 16
    ensures AsInt(n * 16) % 16 == 0
  {}

  lemma BackedIff(s: Heap, brk: int, s1: Heap, sb: int, n: int)
    requires Obtained(s, s1, sb, n) && brk <= sb && 0 < n <= 0x1_0000_0000
    ensures Backed(s, brk) ==> (Backed(s1, Break(sb, AsInt(n * HEADER))) <==> n * HEADER < 0x8000_0000)
  {
    SbrkArgument(n);
    hide AsInt;
    var asked := AsInt(n * 16);
    assert n * HEADER == n * 16;
    if n * 16 >= 0x8000_0000 {
      assert Break(sb, asked) < sb + n;
      assert s1.own[sb + n - 1] != 0;
    }
  }

  lemma GrantedBacked(s: Heap, s1: Heap, h: int, n: int, brk: int)
    requires Granted(s, s1, h, n)
    ensures Backed(s1, brk) == Backed(s, brk)
  {}

  /** A request just under 2^31 bytes, on a fresh heap whose process ends at unit sb: malloc
      returns a block whose last units are no memory of the process. */
  method BigRequest(sb: int) returns (a: Allocator, r: int)
    requires 1 <= sb < 0x1000_0000
    ensures r != 0 && !Backed(a.S(), a.brk) && a.brk == sb + (if sb * HEADER >= 0x8000_0000 then -0x800_0000 else 0)
  {
    a := new Allocator();
    assert Units(0x7fff_fff0) == 0x800_0000 && AsInt(0x800_0000 * HEADER) == -0x8000_0000;
    hide Granted, Obtained, Backed, Units, NextFit;
    ghost var s0, s1, start;
    r, s0, s1, start := a.Malloc(0x7fff_fff0, sb);
    assert !Big(s0, 0x800_0000);
  }
}
