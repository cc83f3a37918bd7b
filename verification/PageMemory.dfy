/** kalloc/kfree and the page-table operations of kernel/vm.c, in place on physical memory. */
module PageMemory {
  import opened PageTable

  /** The index of va's entry in a table of the given level. */
  function PX(level: int, va: int): int {
    if level == 2 then va / 0x4000_0000 % ENTRIES
    else if level == 1 then va / 0x20_0000 % ENTRIES
    else va / PGSIZE % ENTRIES
  }

  /** The page of the table of the given level on the path to page number v, or -1. */
  ghost function TableAt(t: Tab, level: int, v: int): int
    requires SizedTab(t) && 0 <= v < VPNS && 0 <= level <= 2
  {
    if level == 2 then t.root else if level == 1 then t.mid[v / ENTRIES / ENTRIES] else t.low[v / ENTRIES]
  }

  /** The table pages that walk has to make to reach page number v. */
  ghost function Missing(t: Tab, v: int): int
    requires SizedTab(t) && 0 <= v < VPNS
  {
    if t.mid[v / ENTRIES / ENTRIES] == -1 then 2 else if t.low[v / ENTRIES] == -1 then 1 else 0
  }

  /** Those still to make from the table of the given level on. */
  ghost function MissingBelow(t: Tab, level: int, v: int): int
    requires SizedTab(t) && 0 <= v < VPNS
  {
    if level == 2 then Missing(t, v) else if level == 1 && t.low[v / ENTRIES] == -1 then 1 else 0
  }

  // ---- the table pages that a range of page numbers needs ----

  /** Last-level tables from b to b1 that are not there. */
  ghost function MissingLows(t: Tab, b: int, b1: int): (r: int)
    ensures r >= 0
    decreases b1 - b
  {
    if b >= b1 then 0
    else MissingLows(t, b, b1 - 1) + if 0 <= b1 - 1 < |t.low| && t.low[b1 - 1] == -1 then 1 else 0
  }

  /** Second-level tables from i to i1 that are not there. */
  ghost function MissingMids(t: Tab, i: int, i1: int): (r: int)
    ensures r >= 0
    decreases i1 - i
  {
    if i >= i1 then 0
    else MissingMids(t, i, i1 - 1) + if 0 <= i1 - 1 < |t.mid| && t.mid[i1 - 1] == -1 then 1 else 0
  }

  /** The table pages missing on the paths to the page numbers in [lo, hi). */
  ghost function Tables(t: Tab, lo: int, hi: int): (r: int)
    ensures r >= 0
  {
    if hi <= lo then 0
    else MissingLows(t, lo / ENTRIES, (hi - 1) / ENTRIES + 1)
         + MissingMids(t, lo / ENTRIES / ENTRIES, (hi - 1) / ENTRIES / ENTRIES + 1)
  }

  /** Last-level table b is on the path to some page number in [lo, hi). */
  predicate LowOn(b: int, lo: int, hi: int) {
    lo < hi && lo / ENTRIES <= b <= (hi - 1) / ENTRIES
  }

  /** Second-level table i is. */
  predicate MidOn(i: int, lo: int, hi: int) {
    lo < hi && lo / ENTRIES / ENTRIES <= i <= (hi - 1) / ENTRIES / ENTRIES
  }

  /** t1 has the tables of t and all those on the paths to [lo, hi). */
  ghost predicate Built(t: Tab, t1: Tab, lo: int, hi: int) {
    && SizedTab(t) && SizedTab(t1)
    && (forall b | 0 <= b < LOWS :: t1.low[b] == -1 <==> t.low[b] == -1 && !LowOn(b, lo, hi))
    && (forall i | 0 <= i < ENTRIES :: t1.mid[i] == -1 <==> t.mid[i] == -1 && !MidOn(i, lo, hi))
  }

  /** Off the path to page number v no table is new. */
  ghost predicate OnlyPath(t: Tab, t1: Tab, v: int) {
    && SizedTab(t) && SizedTab(t1)
    && (forall b | 0 <= b < LOWS && b != v / ENTRIES :: t1.low[b] == t.low[b])
    && (forall i | 0 <= i < ENTRIES && i != v / ENTRIES / ENTRIES :: t1.mid[i] == t.mid[i])
  }

  lemma BuiltStart(s: Phys, t: Tab, lo: int)
    requires TabInv(s, t)
    ensures Built(t, t, lo, lo) && Tables(t, lo, lo) == 0
  {}

  /** One more page number needs what its last-level and second-level tables add. */
  lemma TablesStep(t: Tab, lo: int, v: int)
    requires SizedTab(t) && 0 <= lo <= v < VPNS
    ensures Tables(t, lo, v + 1) == Tables(t, lo, v)
      + (if t.low[v / ENTRIES] == -1 && !LowOn(v / ENTRIES, lo, v) then 1 else 0)
      + (if t.mid[v / ENTRIES / ENTRIES] == -1 && !MidOn(v / ENTRIES / ENTRIES, lo, v) then 1 else 0)
  {
    var b, i := v / ENTRIES, v / ENTRIES / ENTRIES;
    if lo == v {
      assert MissingLows(t, b, b) == 0 && MissingMids(t, i, i) == 0;
    } else {
      assert (v - 1) / ENTRIES == b || (v - 1) / ENTRIES == b - 1;
      assert (v - 1) / ENTRIES / ENTRIES == i || (v - 1) / ENTRIES / ENTRIES == i - 1;
    }
  }

  /** walk to v makes what one more page number needs. */
  lemma BuiltStep(s: Phys, t: Tab, t1: Tab, t2: Tab, lo: int, v: int)
    requires TabInv(s, t) && Built(t, t1, lo, v) && OnlyPath(t1, t2, v) && 0 <= lo <= v < VPNS
    requires t2.low[v / ENTRIES] != -1 && t2.mid[v / ENTRIES / ENTRIES] != -1
    ensures Built(t, t2, lo, v + 1)
  {
    forall b | 0 <= b < LOWS ensures t2.low[b] == -1 <==> t.low[b] == -1 && !LowOn(b, lo, v + 1) {}
    forall i | 0 <= i < ENTRIES ensures t2.mid[i] == -1 <==> t.mid[i] == -1 && !MidOn(i, lo, v + 1) {}
  }

  /** The tables for [lo, v), and then those for v. */
  lemma BuiltTrans(t: Tab, t1: Tab, t2: Tab, lo: int, v: int)
    requires Built(t, t1, lo, v) && Built(t1, t2, v, v + 1) && 0 <= lo <= v < VPNS
    ensures Built(t, t2, lo, v + 1)
  {}

  lemma MissingIs(s: Phys, t: Tab, t1: Tab, lo: int, v: int)
    requires TabInv(s, t) && Built(t, t1, lo, v) && 0 <= lo <= v < VPNS
    ensures Missing(t1, v) == Tables(t, lo, v + 1) - Tables(t, lo, v)
  {
    TablesStep(t, lo, v);
    assert LowOk(s, t, v / ENTRIES);
    assert LowOn(v / ENTRIES, lo, v) ==> MidOn(v / ENTRIES / ENTRIES, lo, v);
  }

  lemma {:induction false} TablesGrow(t: Tab, lo: int, u: int, v: int)
    requires SizedTab(t) && 0 <= lo <= u <= v <= VPNS
    ensures Tables(t, lo, u) <= Tables(t, lo, v)
    decreases v
  {
    if u < v {
      TablesGrow(t, lo, u, v - 1);
      TablesStep(t, lo, v - 1);
    }
  }

  ghost function ChildRole(t: Tab, level: int, v: int): Role {
    if level == 2 then Mid(t.root, v / ENTRIES / ENTRIES) else Low(t.root, v / ENTRIES)
  }

  ghost function WithTable(t: Tab, level: int, v: int, p: int): Tab
    requires SizedTab(t) && 0 <= v < VPNS
  {
    if level == 2 then t.(mid := t.mid[v / ENTRIES / ENTRIES := p]) else t.(low := t.low[v / ENTRIES := p])
  }

  /** From s0 to s1 page p kept its use and contents, or was a table page of root and
      may have been written, or was free and became a table page of root. */
  ghost predicate GrewAt(s0: Phys, s1: Phys, root: int, p: int) {
    && 0 <= p < |s0.mem| == |s1.mem| == |s0.role| == |s1.role|
    && (if s0.role[p].FreePage? && IsTable(s1.role[p], root) then true
        else s1.role[p] == s0.role[p] && (IsTable(s0.role[p], root) || s1.mem[p] == s0.mem[p]))
  }

  /** Only table pages of root were written, and only free pages became such. */
  ghost predicate Grew(s0: Phys, s1: Phys, root: int) {
    && |s0.mem| == |s1.mem| == |s0.role| == |s1.role|
    && |s1.free| <= |s0.free|
    && forall p | 0 <= p < |s0.mem| :: GrewAt(s0, s1, root, p)
  }

  lemma GrewRefl(s: Phys, root: int)
    requires |s.mem| == |s.role|
    ensures Grew(s, s, root)
  {
    forall p | 0 <= p < |s.mem| ensures GrewAt(s, s, root, p) {}
  }

  lemma GrewTrans(s0: Phys, s1: Phys, s2: Phys, root: int)
    requires Grew(s0, s1, root) && Grew(s1, s2, root)
    ensures Grew(s0, s2, root)
  {
    forall p | 0 <= p < |s0.mem| ensures GrewAt(s0, s2, root, p) {
      assert GrewAt(s0, s1, root, p) && GrewAt(s1, s2, root, p);
    }
  }

  /** Growing one table leaves every other table alone. */
  lemma GrewElsewhere(s0: Phys, s1: Phys, root: int, t: Tab)
    requires Grew(s0, s1, root) && Shaped(s0) && Shaped(s1) && TabInv(s0, t) && t.root != root
    ensures TabInv(s1, t) && SameMap(s0, t, s1, t)
  {
    forall p | 0 <= p < |s0.mem| && (IsTable(s0.role[p], t.root) || IsTable(s1.role[p], t.root))
      ensures s1.role[p] == s0.role[p] && s1.mem[p] == s0.mem[p]
    {
      assert GrewAt(s0, s1, root, p);
    }
    TableFrame(s0, s1, t);
  }

  /** Entry PX(level, va) of the level's table on va's path, as the tree has it. */
  lemma EntryOnPath(s: Phys, t: Tab, level: int, va: int)
    requires TabInv(s, t) && 0 <= va < MAXVA && 1 <= level <= 2 && TableAt(t, level, va / PGSIZE) != -1
    ensures SizedTab(t)
    ensures
      var page := TableAt(t, level, va / PGSIZE);
      var child := TableAt(t, level - 1, va / PGSIZE);
      && 0 < page < |s.mem| == |s.role| && |s.mem[page]| == ENTRIES && IsTable(s.role[page], t.root)
      && 0 <= PX(level, va) < ENTRIES
      && (if child == -1 then s.mem[page][PX(level, va)] % 2 == 0
          else
            && 0 < child < |s.mem| && |s.mem[child]| == ENTRIES && s.mem[page][PX(level, va)] == 1024 * child + 1
            && s.mem[page][PX(level, va)] % 2 == 1 && s.mem[page][PX(level, va)] / 1024 == child)
  {
    var b := va / PGSIZE / ENTRIES;
    assert PX(2, va) == b / ENTRIES && PX(1, va) == b % ENTRIES;
    assert MidOk(s, t, b / ENTRIES) && LowOk(s, t, b);
  }

  /** The state after walk links a zeroed page into the level's table. */
  ghost function Extended(s: Phys, t: Tab, level: int, va: int): Phys
    requires PhysInv(s) && TabInv(s, t) && |s.free| > 0 && 0 <= va < MAXVA && 1 <= level <= 2
    requires TableAt(t, level, va / PGSIZE) != -1 && TableAt(t, level - 1, va / PGSIZE) == -1
  {
    EntryOnPath(s, t, level, va);
    TakenKeeps(s, Other);
    var p := s.free[|s.free| - 1];
    var page := TableAt(t, level, va / PGSIZE);
    var s1 := Taken(s, ChildRole(t, level, va / PGSIZE));
    s1.(mem := s1.mem[p := Fill(0)][page := s1.mem[p := Fill(0)][page][PX(level, va) := 1024 * p + 1]])
  }

  lemma TableAdded(s: Phys, t: Tab, level: int, va: int)
    requires PhysInv(s) && TabInv(s, t) && |s.free| > 0 && 0 <= va < MAXVA && 1 <= level <= 2
    requires TableAt(t, level, va / PGSIZE) != -1 && TableAt(t, level - 1, va / PGSIZE) == -1
    ensures
      var s1 := Extended(s, t, level, va);
      var t1 := WithTable(t, level, va / PGSIZE, s.free[|s.free| - 1]);
      PhysInv(s1) && TabInv(s1, t1) && SameMap(s, t, s1, t1)
  {
    var s1 := Extended(s, t, level, va);
    var b := va / PGSIZE / ENTRIES;
    EntryOnPath(s, t, level, va);
    if level == 2 {
      MidAdded(s, t, b / ENTRIES);
      assert s1 == WithMid(s, t, b / ENTRIES);
    } else {
      LowAdded(s, t, b);
      assert s1 == WithLow(s, t, b);
    }
  }

  lemma ExtendedGrew(s: Phys, t: Tab, level: int, va: int)
    requires PhysInv(s) && TabInv(s, t) && |s.free| > 0 && 0 <= va < MAXVA && 1 <= level <= 2
    requires TableAt(t, level, va / PGSIZE) != -1 && TableAt(t, level - 1, va / PGSIZE) == -1
    ensures Grew(s, Extended(s, t, level, va), t.root)
  {
    var s1 := Extended(s, t, level, va);
    EntryOnPath(s, t, level, va);
    TakenKeeps(s, Other);
    forall q | 0 <= q < |s.mem| ensures GrewAt(s, s1, t.root, q) {}
  }

  // ---- runs of leaves ----

  /** PA2PTE(pa) | perm | PTE_V for the page k pages after pa. */
  function Pte(pa: int, k: int, perm: int): int {
    (pa / PGSIZE + k) * 1024 + perm + 1 - perm % 2
  }

  /** Where a call to mappages has got to: `done` pages from `first` on are mapped. */
  ghost predicate Mapping(s0: Phys, t0: Tab, s: Phys, t: Tab, first: int, done: int, pa: int, perm: int) {
    && TabInv(s, t) && t.root == t0.root && Grew(s0, s, t0.root)
    && (forall v | 0 <= v < VPNS ::
          Leaf(s, t, v) == if first <= v < first + done then Pte(pa, v - first, perm) else Leaf(s0, t0, v))
    && (forall v | first <= v < first + done :: Leaf(s0, t0, v) % 2 == 0)
  }

  lemma MappingStart(s: Phys, t: Tab, first: int, pa: int, perm: int)
    requires TabInv(s, t) && |s.mem| == |s.role|
    ensures Mapping(s, t, s, t, first, 0, pa, perm)
  {
    GrewRefl(s, t.root);
  }

  lemma MappingWalk(s0: Phys, t0: Tab, s: Phys, t: Tab, s1: Phys, t1: Tab, first: int, done: int, pa: int, perm: int)
    requires Mapping(s0, t0, s, t, first, done, pa, perm)
    requires TabInv(s1, t1) && t1.root == t.root && SameMap(s, t, s1, t1) && Grew(s, s1, t.root)
    ensures Mapping(s0, t0, s1, t1, first, done, pa, perm)
  {
    GrewTrans(s0, s, s1, t0.root);
  }

  lemma MappingStep(s0: Phys, t0: Tab, s: Phys, t: Tab, first: int, done: int, pa: int, perm: int)
    requires PhysInv(s) && Mapping(s0, t0, s, t, first, done, pa, perm)
    requires 0 <= first && 0 <= done && first + done < VPNS
    requires t.low[(first + done) / ENTRIES] != -1 && Leaf(s, t, first + done) % 2 == 0
    ensures IsPage(s, t.low[(first + done) / ENTRIES], Low(t.root, (first + done) / ENTRIES))
    ensures
      var v := first + done;
      var s1 := WithLeaf(s, t.low[v / ENTRIES], v % ENTRIES, Pte(pa, done, perm));
      PhysInv(s1) && Mapping(s0, t0, s1, t, first, done + 1, pa, perm)
  {
    var v := first + done;
    LeafWritten(s, t, v, Pte(pa, done, perm));
    var s1 := WithLeaf(s, t.low[v / ENTRIES], v % ENTRIES, Pte(pa, done, perm));
    forall p | 0 <= p < |s.mem| ensures GrewAt(s, s1, t.root, p) {}
    assert |s1.mem| == |s.mem| == |s.role|;
    GrewTrans(s0, s, s1, t0.root);
  }

  /** From s0 to s1 page p kept its use and contents, or is a table page of root, or was
      the data page of a page number in [lo, hi) and is now free. */
  ghost predicate UnmappedAt(s0: Phys, s1: Phys, root: int, lo: int, hi: int, p: int) {
    && 0 <= p < |s0.mem| == |s1.mem| == |s0.role| == |s1.role|
    && (if s0.role[p].Data? && s0.role[p].t == root && lo <= s0.role[p].v < hi then s1.role[p].FreePage?
        else s1.role[p] == s0.role[p] && (IsTable(s0.role[p], root) || s1.mem[p] == s0.mem[p]))
  }

  /** Where a call to uvmunmap has got to: the PTEs in [lo, hi) are 0, no other
      translation changed, and with `free` the data pages of [lo, hi) are free. */
  ghost predicate Unmapping(s0: Phys, s: Phys, t: Tab, lo: int, hi: int, free: bool) {
    var freed := if free then hi else lo;
    && TabInv(s, t)
    && |s0.mem| == |s.mem| == |s0.role| == |s.role|
    && (forall p | 0 <= p < |s0.mem| :: UnmappedAt(s0, s, t.root, lo, freed, p))
    && (forall v | 0 <= v < VPNS :: Leaf(s, t, v) == if lo <= v < hi then 0 else Leaf(s0, t, v))
  }

  /** PTE w is a leaf for a data page of this table at page number v. */
  ghost predicate Owned(s: Phys, root: int, v: int, w: int) {
    IsLeaf(w) && IsPage(s, w / 1024, Data(root, v))
  }

  /** Every leaf in [lo, hi) is the only mapping of a data page of this table. */
  ghost predicate OwnsLeaves(s: Phys, t: Tab, lo: int, hi: int) {
    && |s.mem| == |s.role|
    && (forall v | lo <= v < hi && IsLeaf(Leaf(s, t, v)) :: Owned(s, t.root, v, Leaf(s, t, v)))
    && (forall p | 0 <= p < |s.mem| && s.role[p].Data? && s.role[p].t == t.root && lo <= s.role[p].v < hi ::
          p == Leaf(s, t, s.role[p].v) / 1024)
  }

  /** The PTE is valid and not a pointer to a lower table. */
  predicate IsLeaf(w: int) {
    w % 2 == 1 && w % 1024 != 1
  }

  lemma UnmappingStart(s: Phys, t: Tab, lo: int, free: bool)
    requires TabInv(s, t) && |s.mem| == |s.role|
    ensures Unmapping(s, s, t, lo, lo, free)
  {
    forall p | 0 <= p < |s.mem| ensures UnmappedAt(s, s, t.root, lo, lo, p) {}
  }

  lemma UnmappingClear(s0: Phys, s: Phys, t: Tab, lo: int, hi: int)
    requires PhysInv(s) && Unmapping(s0, s, t, lo, hi, false)
    requires 0 <= lo <= hi < VPNS && t.low[hi / ENTRIES] != -1
    ensures IsPage(s, t.low[hi / ENTRIES], Low(t.root, hi / ENTRIES))
    ensures
      var s1 := WithLeaf(s, t.low[hi / ENTRIES], hi % ENTRIES, 0);
      PhysInv(s1) && Unmapping(s0, s1, t, lo, hi + 1, false)
  {
    LeafWritten(s, t, hi, 0);
    var s1 := WithLeaf(s, t.low[hi / ENTRIES], hi % ENTRIES, 0);
    forall p | 0 <= p < |s0.mem| ensures UnmappedAt(s0, s1, t.root, lo, lo, p) {
      assert UnmappedAt(s0, s, t.root, lo, lo, p);
    }
  }

  /** Freeing a data page leaves its table alone. */
  lemma DataFreed(s: Phys, t: Tab, p: int, v: int)
    requires PhysInv(s) && TabInv(s, t) && IsPage(s, p, Data(t.root, v))
    ensures PhysInv(Given(s, p)) && TabInv(Given(s, p), t) && SameMap(s, t, Given(s, p), t)
  {
    GivenKeeps(s, p);
    TableFrame(s, Given(s, p), t);
  }

  lemma UnmappingFree(s0: Phys, s: Phys, t: Tab, lo: int, hi: int)
    requires PhysInv(s) && Unmapping(s0, s, t, lo, hi, true)
    requires 0 <= lo <= hi < VPNS && t.low[hi / ENTRIES] != -1
    requires Owned(s0, t.root, hi, Leaf(s, t, hi)) && Leaf(s, t, hi) == Leaf(s0, t, hi)
    requires forall p | 0 <= p < |s0.mem| && s0.role[p] == Data(t.root, hi) :: p == Leaf(s0, t, hi) / 1024
    ensures IsPage(s, Leaf(s, t, hi) / 1024, Data(t.root, hi))
    ensures
      var s1 := Given(s, Leaf(s, t, hi) / 1024);
      && PhysInv(s1) && TabInv(s1, t) && IsPage(s1, t.low[hi / ENTRIES], Low(t.root, hi / ENTRIES))
      && (var s2 := WithLeaf(s1, t.low[hi / ENTRIES], hi % ENTRIES, 0);
          PhysInv(s2) && Unmapping(s0, s2, t, lo, hi + 1, true))
  {
    var q := Leaf(s, t, hi) / 1024;
    assert UnmappedAt(s0, s, t.root, lo, hi, q);
    DataFreed(s, t, q, hi);
    var s1 := Given(s, q);
    LeafWritten(s1, t, hi, 0);
    var s2 := WithLeaf(s1, t.low[hi / ENTRIES], hi % ENTRIES, 0);
    var next := hi + 1;
    forall p | 0 <= p < |s0.mem| ensures UnmappedAt(s0, s2, t.root, lo, next, p) {
      assert UnmappedAt(s0, s, t.root, lo, hi, p);
    }
  }

  class PageMemory {
    const end: int                   // first address after the kernel
    const top: int                   // PHYSTOP
    var mem: seq<seq<int>>
    var head: int                    // kmem.freelist
    ghost var free: seq<int>
    ghost var role: seq<Role>

    ghost function S(): Phys
      reads this
    {
      Phys(mem, head, free, role)
    }

    ghost predicate Valid()
      reads this
    {
      && PhysInv(S())
      && 0 < end <= top && |mem| == top / PGSIZE == |role|
      && (forall p | 0 <= p < |role| && PGSIZE * p < end :: role[p].Other?)
    }

    /** kfree. Its panics are the caller's obligations: aligned, within [end, top). */
    method Kfree(pa: int)
      requires Valid()
      requires pa % PGSIZE == 0 && end <= pa < |mem| * PGSIZE && !role[pa / PGSIZE].FreePage?
      modifies `mem, `head, `free, `role
      ensures Valid() && S() == Given(old(S()), pa / PGSIZE)
    {
      ghost var s := S();
      assert pa == PGSIZE * (pa / PGSIZE);
      GivenKeeps(s, pa / PGSIZE);
      mem := mem[pa / PGSIZE := Fill(0x0101_0101_0101_0101)];
      mem := mem[pa / PGSIZE := mem[pa / PGSIZE][0 := head]];
      head := pa;
      role := role[pa / PGSIZE := FreePage(|free|)];
      free := free + [pa / PGSIZE];
      assert S() == Given(s, pa / PGSIZE);
    }

    /** kalloc: 0 exactly when nothing is free; the page's new use is the caller's. */
    method Kalloc(ghost r: Role) returns (pa: int)
      requires Valid() && !r.FreePage?
      modifies `mem, `head, `free, `role
      ensures pa == 0 <==> old(free) == []
      ensures pa == 0 ==> S() == old(S()) && Valid()
      ensures pa != 0 ==>
        && pa == PGSIZE * old(free)[|old(free)| - 1] && IsFree(old(S()), pa / PGSIZE, |old(free)| - 1)
        && pa >= end && S() == Taken(old(S()), r) && Valid()
    {
      pa := head;
      if |free| > 0 {
        TakenKeeps(S(), r);
        assert Linked(S(), |free| - 1);
      }
      if pa != 0 {
        head := mem[pa / PGSIZE][0];
        mem := mem[pa / PGSIZE := Fill(0x0505_0505_0505_0505)];
        role := role[pa / PGSIZE := r];
        free := free[..|free| - 1];
      }
    }

    /** kinit: every whole page of [end, top) is free and nothing else is. */
    constructor (end: int, top: int, mem: seq<seq<int>>)
      requires 0 < end <= top && |mem| == top / PGSIZE
      requires forall p | 0 <= p < |mem| :: |mem[p]| == ENTRIES
      ensures Valid() && this.end == end && this.top == top
      ensures forall p | 0 <= p < |role| :: role[p].FreePage? <==> end <= PGSIZE * p
      ensures |role| == |mem| && |free| == if end <= PGSIZE * |mem| then |mem| - (end + PGSIZE - 1) / PGSIZE else 0
    {
      this.end, this.top, this.mem, head := end, top, mem, 0;
      free, role := [], seq(|mem|, _ => Other);
      new;
      var p := (end + PGSIZE - 1) / PGSIZE * PGSIZE;
      while p + PGSIZE <= top
        invariant Valid() && p % PGSIZE == 0 && p >= end
        invariant p < end + PGSIZE || p <= top
        invariant |free| == p / PGSIZE - (end + PGSIZE - 1) / PGSIZE && (|free| == 0 || p <= PGSIZE * |mem|)
        invariant forall q | 0 <= q < |role| :: role[q].FreePage? <==> end <= PGSIZE * q < p
      {
        Kfree(p);
        p := p + PGSIZE;
      }
    }

    /** The allocation in walk: a zeroed page becomes entry j of a table page. */
    method Extend(page: int, j: int, ghost t: Tab, ghost level: int, ghost va: int)
      returns (child: int, ghost t1: Tab)
      requires Valid() && TabInv(S(), t) && 0 <= va < MAXVA && 1 <= level <= 2
      requires page == TableAt(t, level, va / PGSIZE) != -1 && TableAt(t, level - 1, va / PGSIZE) == -1
      requires j == PX(level, va)
      modifies `mem, `head, `free, `role
      ensures Valid() && TabInv(S(), t1) && SameMap(old(S()), t, S(), t1) && Grew(old(S()), S(), t.root)
      ensures t1.root == t.root
      ensures child == -1 ==> S() == old(S()) && t1 == t && free == []
      ensures child != -1 ==> SizedTab(t1) && child == TableAt(t1, level - 1, va / PGSIZE)
      ensures OnlyPath(t, t1, va / PGSIZE)
      ensures child != -1 ==>
        && |free| == |old(free)| - 1
        && MissingBelow(t1, level - 1, va / PGSIZE) == MissingBelow(t, level, va / PGSIZE) - 1
      ensures child == -1 ==> 0 < MissingBelow(t, level, va / PGSIZE)
    {
      hide PhysInv, TabInv, Grew, Missing, MissingBelow;
      ghost var s := S();
      EntryOnPath(s, t, level, va);
      MissingHere(s, t, level, va / PGSIZE);
      if |free| > 0 {
        TableAdded(s, t, level, va);
        ExtendedGrew(s, t, level, va);
      }
      var pa := Kalloc(ChildRole(t, level, va / PGSIZE));
      if pa == 0 {
        GrewRefl(s, t.root);
        child, t1 := -1, t;
      } else {
        child := pa / PGSIZE;
        mem := mem[child := Fill(0)];
        mem := mem[page := mem[page][j := 1024 * child + 1]];
        t1 := WithTable(t, level, va / PGSIZE, child);
        assert S() == Extended(s, t, level, va);
      }
    }

    /** walk: finds or makes the last-level table; every translation stays as it was. */
    method Walk(root: int, va: int, alloc: bool, ghost t: Tab) returns (page: int, i: int, ghost t1: Tab)
      requires Valid() && TabInv(S(), t) && t.root == root && 0 <= va < MAXVA
      modifies `mem, `head, `free, `role
      ensures Valid() && TabInv(S(), t1) && t1.root == root
      ensures SameMap(old(S()), t, S(), t1) && Grew(old(S()), S(), root)
      ensures page == t1.low[va / PGSIZE / ENTRIES] && i == va / PGSIZE % ENTRIES
      ensures page != -1 ==> IsPage(S(), page, Low(root, va / PGSIZE / ENTRIES))
      ensures alloc ==> (page == -1 <==> |old(free)| < Missing(t, va / PGSIZE))
      ensures alloc && page != -1 ==> |free| == |old(free)| - Missing(t, va / PGSIZE)
      ensures alloc && page == -1 ==> free == []
      ensures OnlyPath(t, t1, va / PGSIZE) && (page != -1 ==> t1.mid[va / PGSIZE / ENTRIES / ENTRIES] != -1)
      ensures !alloc ==> S() == old(S()) && t1 == t
    {
      hide PhysInv, TabInv, SameMap, Grew, PX, TableAt, Missing, MissingBelow, OnlyPath;
      ghost var v := va / PGSIZE;
      page, i, t1 := root, va / PGSIZE % ENTRIES, t;
      RootFacts(S(), t, v);
      var level := 2;
      while level > 0
        invariant 0 <= level <= 2
        invariant Valid() && TabInv(S(), t1) && SizedTab(t1) && t1.root == root
        invariant SameMap(old(S()), t, S(), t1) && Grew(old(S()), S(), root) && OnlyPath(t, t1, v)
        invariant page == TableAt(t1, level, v) != -1
        invariant alloc ==> |old(free)| - Missing(t, v) == |free| - MissingBelow(t1, level, v)
        invariant !alloc ==> S() == old(S()) && t1 == t
      {
        EntryOnPath(S(), t1, level, va);
        var j := PX(level, va);
        var pte := mem[page][j];
        if pte % 2 == 1 {
          MissingPast(S(), t1, level, v);
          page := pte / 1024;
        } else if !alloc {
          page := -1;
          NoLow(S(), t1, level, va);
          return;
        } else {
          ghost var s := S();
          ghost var t0 := t1;
          page, t1 := Extend(page, j, t1, level, va);
          WalkStep(old(S()), t, s, t0, S(), t1);
          OnlyPathTrans(t, t0, t1, v);
          if page == -1 {
            NoLow(S(), t1, level, va);
            return;
          }
        }
        level := level - 1;
      }
      LowFacts(S(), t1, v);
    }

    /** walkaddr: the physical address a user page is mapped to, or 0. */
    method WalkAddr(root: int, va: int, ghost t: Tab) returns (pa: int)
      requires Valid() && TabInv(S(), t) && t.root == root && 0 <= va
      modifies `mem, `head, `free, `role
      ensures Valid() && S() == old(S())
      ensures pa == if va < MAXVA && Leaf(S(), t, va / PGSIZE) % 2 == 1 && Leaf(S(), t, va / PGSIZE) / 16 % 2 == 1
                    then Leaf(S(), t, va / PGSIZE) / 1024 * PGSIZE else 0
    {
      hide PhysInv, TabInv, SameMap, Grew;
      if va >= MAXVA {
        return 0;
      }
      var page, i;
      ghost var t1;
      page, i, t1 := Walk(root, va, false, t);
      LeafOfWalk(S(), t, va / PGSIZE);
      if page == -1 || mem[page][i] % 2 == 0 || mem[page][i] / 16 % 2 == 0 {
        return 0;
      }
      pa := mem[page][i] / 1024 * PGSIZE;
    }

    /** One round of mappages: the page at address a mapped to that at p. */
    method MapOne(root: int, a: int, p: int, perm: int, ghost s0: Phys, ghost t0: Tab, ghost t: Tab,
                  ghost first: int, ghost done: int, ghost pa: int)
      returns (r: Outcome, ghost t1: Tab)
      requires Valid() && Mapping(s0, t0, S(), t, first, done, pa, perm) && TabInv(s0, t0) && TabInv(S(), t) && t.root == root
      requires 0 <= first && 0 <= done && a == PGSIZE * (first + done) && p == pa + PGSIZE * done && 0 <= perm < 1024
      requires |free| == |s0.free| - Tables(t0, first, first + done) && Built(t0, t, first, first + done)
      modifies `mem, `head, `free, `role
      ensures Valid() && TabInv(S(), t1) && t1.root == root
      ensures Mapping(s0, t0, S(), t1, first, if r.Success? then done + 1 else done, pa, perm)
      ensures r.Panic? <==> NoRoom(s0, t0, first + done)
      ensures r.Failure? ==> free == [] && |s0.free| < Tables(t0, first, first + done + 1)
      ensures r.Panic? ==> |free| == |old(free)|
      ensures r.Success? ==>
        |free| == |s0.free| - Tables(t0, first, first + done + 1) && Built(t0, t1, first, first + done + 1)
    {
      hide PhysInv, TabInv, SameMap, Grew, Mapping, Missing, Tables, Built, OnlyPath, Leaf;
      ghost var s := S();
      t1 := t;
      if a >= MAXVA {
        return Panic, t1;        // in walk
      }
      MissingIs(s0, t0, t, first, first + done);
      NoneMissing(s, t, first + done);
      MappingNow(s0, t0, s, t, first, done, pa, perm);
      var page, i;
      page, i, t1 := Walk(root, a, true, t);
      MappingWalk(s0, t0, s, t, S(), t1, first, done, pa, perm);
      if page == -1 {
        return Failure, t1;
      }
      LeafOfWalk(S(), t1, first + done);
      MappingNow(s0, t0, S(), t1, first, done, pa, perm);
      if mem[page][i] % 2 == 1 {
        return Panic, t1;
      }
      BuiltStep(s0, t0, t, t1, first, first + done);
      MappingStep(s0, t0, S(), t1, first, done, pa, perm);
      mem := mem[page := mem[page][i := p / PGSIZE * 1024 + perm + 1 - perm % 2]];
      MappingTab(s0, t0, S(), t1, first, done + 1, pa, perm);
      r := Success;
    }

    /** mappages on any 64-bit address and size.  `done` pages got mapped: all of them, or
        those before the page where the call stops: it panics on a page that is already mapped
        ("remap") or past MAXVA ("walk"), and fails when a table cannot be allocated. */
    method MapPages(root: int, va: int, size: int, pa: int, perm: int, ghost t: Tab)
      returns (r: Outcome, ghost t1: Tab, ghost done: int)
      requires Valid() && TabInv(S(), t) && t.root == root
      requires 0 <= va < UINT64 && 0 <= size < UINT64 && 0 <= perm < 1024
      modifies `mem, `head, `free, `role
      ensures Valid() && Mapping(old(S()), t, S(), t1, va / PGSIZE, done, pa, perm)
      ensures 0 <= done && (r.Success? ==> done == Pages(va, size) > 0) && (done > 0 ==> va / PGSIZE + done <= MAXPAGE)
      ensures !r.Success? ==> (Pages(va, size) > 0 ==> done < Pages(va, size))
      ensures r.Panic? ==> NoRoom(old(S()), t, va / PGSIZE + done)
      ensures !r.Failure? ==> |free| == |old(free)| - Tables(t, va / PGSIZE, va / PGSIZE + done)
      ensures r.Failure? ==>
        && free == [] && !NoRoom(old(S()), t, va / PGSIZE + done)
        && |old(free)| < Tables(t, va / PGSIZE, va / PGSIZE + done + 1)
      ensures r.Success? ==> Built(t, t1, va / PGSIZE, va / PGSIZE + done)
      ensures Pages(va, size) > 0 ==>
        (r.Success? <==> AllRoom(old(S()), t, va / PGSIZE, va / PGSIZE + Pages(va, size))
                         && |old(free)| >= Tables(t, va / PGSIZE, va / PGSIZE + Pages(va, size)))
    {
      hide PhysInv, TabInv, Mapping, Tables, Built, OnlyPath, Leaf, AllRoom;
      ghost var first := va / PGSIZE;
      var a := va / PGSIZE * PGSIZE;
      var last := (va + size - 1) % UINT64 / PGSIZE * PGSIZE;
      var p := pa;
      t1, done := t, 0;
      ghost var s0 := S();
      SizeFacts(s0);
      TabSized(s0, t);
      MappingStart(s0, t, first, pa, perm);
      BuiltStart(s0, t, first);
      while true
        invariant Valid() && Mapping(s0, t, S(), t1, first, done, pa, perm) && TabInv(S(), t1) && t1.root == root
        invariant |free| == |s0.free| - Tables(t, first, first + done) && Built(t, t1, first, first + done)
        invariant a == PGSIZE * (first + done) && p == pa + PGSIZE * done && 0 <= done
        invariant done == 0 || a <= MAXVA
        invariant Pages(va, size) > 0 ==> a <= last
        decreases MAXVA - a
      {
        r, t1 := MapOne(root, a, p, perm, s0, t, t1, first, done, pa);
        if !r.Success? {
          if Pages(va, size) > 0 { TooMuch(s0, t, first, first + done, first + Pages(va, size), r.Panic?); }
          return;
        }
        done := done + 1;
        if a == last {
          break;
        }
        a, p := a + PGSIZE, p + PGSIZE;
      }
      MappedRoom(s0, t, S(), t1, first, done, pa, perm);
    }

    /** One round of uvmunmap: free the data page if asked, clear the PTE. */
    method UnmapOne(page: int, i: int, doFree: bool, ghost s0: Phys, ghost t: Tab, ghost lo: int, ghost hi: int)
      requires Valid() && Unmapping(s0, S(), t, lo, hi, doFree) && TabInv(S(), t)
      requires 0 <= lo <= hi < VPNS && page == t.low[hi / ENTRIES] != -1 && i == hi % ENTRIES
      requires IsPage(S(), page, Low(t.root, hi / ENTRIES))
      requires Leaf(S(), t, hi) == Leaf(s0, t, hi) == mem[page][i]
      requires doFree ==> Owned(s0, t.root, hi, Leaf(s0, t, hi))
      requires doFree ==> forall p | 0 <= p < |s0.mem| == |s0.role| && s0.role[p] == Data(t.root, hi) ::
                 p == Leaf(s0, t, hi) / 1024
      modifies `mem, `head, `free, `role
      ensures Valid() && Unmapping(s0, S(), t, lo, hi + 1, doFree) && TabInv(S(), t)
      ensures |free| == |old(free)| + if doFree then 1 else 0
    {
      hide PhysInv, TabInv, Unmapping;
      ghost var s := S();
      UnmappingSizes(s0, s, t, lo, hi, doFree);
      if doFree {
        UnmappingFree(s0, s, t, lo, hi);
        Kfree(mem[page][i] / 1024 * PGSIZE);
      } else {
        UnmappingClear(s0, s, t, lo, hi);
      }
      ghost var s1 := S();
      mem := mem[page := mem[page][i := 0]];
      assert S() == WithLeaf(s1, page, i, 0);
      UnmappingSizes(s0, S(), t, lo, hi + 1, doFree);
    }

    /** uvmunmap on any 64-bit address and size.  `done` pages got unmapped: all of them, or
        those before the first page that has no leaf PTE or lies past MAXVA, where the call
        panics.  Pages it frees (up to `hi`) are data pages of this table. */
    method UvmUnmap(root: int, va: int, size: int, doFree: bool, ghost t: Tab, ghost hi: int)
      returns (ok: bool, ghost done: int)
      requires Valid() && TabInv(S(), t) && t.root == root
      requires 0 <= va < UINT64 && 0 <= size < UINT64
      requires doFree ==> va / PGSIZE <= hi && OwnsLeaves(S(), t, va / PGSIZE, hi)
      requires doFree ==> EndPage(va, size) <= hi || !IsLeaf(Leaf(S(), t, hi))
      modifies `mem, `head, `free, `role
      ensures Valid() && Unmapping(old(S()), S(), t, va / PGSIZE, va / PGSIZE + done, doFree)
      ensures |free| == |old(free)| + if doFree then done else 0
      ensures 0 <= done && (ok ==> done == Pages(va, size) > 0)
      ensures !ok ==> (Pages(va, size) > 0 ==> done < Pages(va, size))
      ensures !ok ==> va / PGSIZE + done >= MAXPAGE || !IsLeaf(Leaf(old(S()), t, va / PGSIZE + done))
      ensures forall v | va / PGSIZE <= v < va / PGSIZE + done :: v < MAXPAGE && IsLeaf(Leaf(old(S()), t, v))
    {
      hide PhysInv, TabInv, SameMap, Grew, Unmapping, OwnsLeaves, OnlyPath, Missing, Leaf;
      ghost var first := va / PGSIZE;
      var a := va / PGSIZE * PGSIZE;
      var last := (va + size - 1) % UINT64 / PGSIZE * PGSIZE;
      done := 0;
      SizeFacts(S());
      UnmappingStart(S(), t, first, doFree);
      while true
        invariant Valid() && Unmapping(old(S()), S(), t, first, first + done, doFree) && TabInv(S(), t)
        invariant |free| == |old(free)| + if doFree then done else 0
        invariant a == PGSIZE * (first + done) && 0 <= done && (doFree ==> first + done <= hi)
        invariant done == 0 || a <= MAXVA
        invariant Pages(va, size) > 0 ==> a <= last
        invariant forall v | first <= v < first + done :: v < MAXPAGE && IsLeaf(Leaf(old(S()), t, v))
        decreases MAXVA - a
      {
        ghost var v := first + done;
        if a >= MAXVA {
          return false, done;            // in walk
        }
        var page, i;
        ghost var t1;
        page, i, t1 := Walk(root, a, false, t);
        LeafOfWalk(S(), t, v);
        UnmappingNow(old(S()), S(), t, first, v, doFree);
        if page == -1 || mem[page][i] % 2 == 0 || mem[page][i] % 1024 == 1 {
          return false, done;
        }
        if doFree {
          OwnsLeaf(old(S()), t, first, hi, v);
        }
        UnmapOne(page, i, doFree, old(S()), t, first, v);
        done := done + 1;
        if a == last {
          break;
        }
        a := a + PGSIZE;
      }
      ok := true;
    }
  }

  datatype Outcome = Success | Failure | Panic

  const UINT64 := 0x1_0000_0000_0000_0000
  const MAXPAGE := 0x400_0000        // MAXVA / PGSIZE

  /** The number of pages from va's to that of the last byte, va + size - 1 as a 64-bit sum: 0 or
      less if the sum passes 2^64, and 2^52 for size 0 at address 0, where it wraps below 0. */
  function Pages(va: int, size: int): int {
    (va + size - 1) % UINT64 / PGSIZE - va / PGSIZE + 1
  }

  /** A page that mappages cannot map: it is mapped already or lies past MAXVA. */
  ghost predicate NoRoom(s: Phys, t: Tab, v: int) {
    v >= MAXPAGE || Leaf(s, t, v) % 2 == 1
  }

  ghost predicate AllRoom(s: Phys, t: Tab, lo: int, hi: int) {
    forall v | lo <= v < hi :: !NoRoom(s, t, v)
  }

  lemma MappedRoom(s0: Phys, t0: Tab, s: Phys, t: Tab, first: int, done: int, pa: int, perm: int)
    requires Mapping(s0, t0, s, t, first, done, pa, perm) && first + done <= MAXPAGE
    ensures AllRoom(s0, t0, first, first + done)
  {}

  /** Mapping [lo, hi) stopped at v: there is no room or too little memory. */
  lemma TooMuch(s: Phys, t: Tab, lo: int, v: int, hi: int, panic: bool)
    requires SizedTab(t) && 0 <= lo <= v < hi
    requires if panic then NoRoom(s, t, v) else |s.free| < Tables(t, lo, v + 1)
    ensures !AllRoom(s, t, lo, hi) || |s.free| < Tables(t, lo, hi)
  {
    if hi <= MAXPAGE {
      TablesGrow(t, lo, v + 1, hi);
    } else {
      assert NoRoom(s, t, hi - 1);
    }
  }

  /** A page that is mapped has its tables. */
  lemma NoneMissing(s: Phys, t: Tab, v: int)
    requires TabInv(s, t) && 0 <= v < VPNS
    ensures Leaf(s, t, v) % 2 == 1 ==> Missing(t, v) == 0
  {
    assert LowOk(s, t, v / ENTRIES);
  }

  /** Where a loop over those pages ends at the latest. */
  function EndPage(va: int, size: int): int {
    if 0 < Pages(va, size) && va / PGSIZE + Pages(va, size) <= MAXPAGE then va / PGSIZE + Pages(va, size) else MAXPAGE
  }

  lemma TabSized(s: Phys, t: Tab)
    requires TabInv(s, t)
    ensures SizedTab(t)
  {}

  lemma LeafOfWalk(s: Phys, t: Tab, v: int)
    requires TabInv(s, t) && 0 <= v < VPNS
    ensures SizedTab(t)
    ensures t.low[v / ENTRIES] == -1 ==> Leaf(s, t, v) == 0
    ensures t.low[v / ENTRIES] != -1 ==>
      IsPage(s, t.low[v / ENTRIES], Low(t.root, v / ENTRIES)) && Leaf(s, t, v) == s.mem[t.low[v / ENTRIES]][v % ENTRIES]
  {
    assert LowOk(s, t, v / ENTRIES);
  }

  lemma SizeFacts(s: Phys)
    requires PhysInv(s)
    ensures |s.mem| == |s.role| && Shaped(s)
  {}

  lemma MappingNow(s0: Phys, t0: Tab, s: Phys, t: Tab, first: int, done: int, pa: int, perm: int)
    requires Mapping(s0, t0, s, t, first, done, pa, perm) && 0 <= first && 0 <= done && first + done < VPNS
    ensures Leaf(s, t, first + done) == Leaf(s0, t0, first + done)
  {}

  lemma MappingTab(s0: Phys, t0: Tab, s: Phys, t: Tab, first: int, done: int, pa: int, perm: int)
    requires Mapping(s0, t0, s, t, first, done, pa, perm)
    ensures TabInv(s, t) && t.root == t0.root
  {}

  lemma UnmappingSizes(s0: Phys, s: Phys, t: Tab, lo: int, hi: int, free: bool)
    requires Unmapping(s0, s, t, lo, hi, free)
    ensures |s0.mem| == |s.mem| == |s0.role| == |s.role| && TabInv(s, t)
  {}

  lemma UnmappingNow(s0: Phys, s: Phys, t: Tab, lo: int, hi: int, free: bool)
    requires Unmapping(s0, s, t, lo, hi, free) && 0 <= lo <= hi < VPNS
    ensures Leaf(s, t, hi) == Leaf(s0, t, hi)
  {}

  lemma OwnsLeaf(s: Phys, t: Tab, lo: int, hi: int, v: int)
    requires OwnsLeaves(s, t, lo, hi) && lo <= v < hi && IsLeaf(Leaf(s, t, v))
    ensures Owned(s, t.root, v, Leaf(s, t, v))
    ensures forall p | 0 <= p < |s.mem| == |s.role| && s.role[p] == Data(t.root, v) :: p == Leaf(s, t, v) / 1024
  {}

  lemma RootFacts(s: Phys, t: Tab, v: int)
    requires TabInv(s, t) && 0 <= v < VPNS
    ensures SizedTab(t) && TableAt(t, 2, v) == t.root && MissingBelow(t, 2, v) == Missing(t, v)
    ensures IsPage(s, t.root, Root(t.root)) && SameMap(s, t, s, t) && Grew(s, s, t.root) && OnlyPath(t, t, v)
  {
    GrewRefl(s, t.root);
  }

  lemma LowFacts(s: Phys, t: Tab, v: int)
    requires TabInv(s, t) && 0 <= v < VPNS && TableAt(t, 0, v) != -1
    ensures TableAt(t, 0, v) == t.low[v / ENTRIES] && MissingBelow(t, 0, v) == 0
    ensures IsPage(s, t.low[v / ENTRIES], Low(t.root, v / ENTRIES)) && t.mid[v / ENTRIES / ENTRIES] != -1
  {
    assert LowOk(s, t, v / ENTRIES);
  }

  lemma OnlyPathTrans(t: Tab, t1: Tab, t2: Tab, v: int)
    requires OnlyPath(t, t1, v) && OnlyPath(t1, t2, v)
    ensures OnlyPath(t, t2, v)
  {}

  lemma MissingHere(s: Phys, t: Tab, level: int, v: int)
    requires TabInv(s, t) && 0 <= v < VPNS && 1 <= level <= 2 && TableAt(t, level - 1, v) == -1
    ensures 0 < MissingBelow(t, level, v)
    ensures forall p | p >= 0 :: MissingBelow(WithTable(t, level, v, p), level - 1, v) == MissingBelow(t, level, v) - 1
  {
    assert LowOk(s, t, v / ENTRIES);
  }

  lemma MissingPast(s: Phys, t: Tab, level: int, v: int)
    requires TabInv(s, t) && 0 <= v < VPNS && 1 <= level <= 2 && TableAt(t, level - 1, v) != -1
    ensures MissingBelow(t, level, v) == MissingBelow(t, level - 1, v)
  {
    assert LowOk(s, t, v / ENTRIES);
  }

  lemma NoLow(s: Phys, t: Tab, level: int, va: int)
    requires TabInv(s, t) && 0 <= va < MAXVA && 1 <= level <= 2 && TableAt(t, level - 1, va / PGSIZE) == -1
    ensures t.low[va / PGSIZE / ENTRIES] == -1
  {
    assert LowOk(s, t, va / PGSIZE / ENTRIES);
  }

  lemma WalkStep(s0: Phys, t0: Tab, s: Phys, t: Tab, s1: Phys, t1: Tab)
    requires SameMap(s0, t0, s, t) && SameMap(s, t, s1, t1) && Grew(s0, s, t0.root) && Grew(s, s1, t0.root)
    ensures SameMap(s0, t0, s1, t1) && Grew(s0, s1, t0.root)
  {
    GrewTrans(s0, s, s1, t0.root);
  }
}
