/** Growing, shrinking, copying and freeing user memory (kernel/vm.c): every page is
    accounted for on success and on failure. */
module UserMemory {
  import opened PageTable
  import opened PageMemory

  /** PGROUNDUP on a 64-bit size. */
  function RoundUp(a: int): int {
    (a + PGSIZE - 1) % UINT64 / PGSIZE * PGSIZE
  }

  /** The pages that sz bytes from address 0 on take. */
  function PagesOf(sz: int): int {
    (sz + PGSIZE - 1) / PGSIZE
  }

  // ---- uvmcreate ----

  /** Every page of a page table or its data belongs to a table whose root exists. */
  ghost predicate Rooted(s: Phys) {
    forall p | 0 <= p < |s.role| && (s.role[p].Root? || s.role[p].Mid? || s.role[p].Low? || s.role[p].Data?) ::
      0 <= s.role[p].t < |s.role| && s.role[s.role[p].t] == Root(s.role[p].t)
  }

  ghost function NewTab(root: int): Tab {
    Tab(root, seq(ENTRIES, _ => -1), seq(LOWS, _ => -1))
  }

  lemma NewTable(s: Phys)
    requires PhysInv(s) && |s.free| > 0 && Rooted(s)
    ensures IsFree(s, s.free[|s.free| - 1], |s.free| - 1)
    ensures
      var p := s.free[|s.free| - 1];
      var s1 := Taken(s, Root(p));
      var s2 := s1.(mem := s1.mem[p := Fill(0)]);
      PhysInv(s2) && TabInv(s2, NewTab(p)) && Rooted(s2) && forall v | 0 <= v < VPNS :: Leaf(s2, NewTab(p), v) == 0
  {
    var p := s.free[|s.free| - 1];
    TakenKeeps(s, Root(p));
    var s1 := Taken(s, Root(p));
    WriteKeeps(s1, p, Fill(0));
    var s2 := s1.(mem := s1.mem[p := Fill(0)]);
    var t := NewTab(p);
    forall i | 0 <= i < ENTRIES ensures MidOk(s2, t, i) {}
    forall b | 0 <= b < LOWS ensures LowOk(s2, t, b) {}
    forall q | 0 <= q < |s2.role| ensures Placed(t, s2.role[q], q) {}
  }

  /** Nothing happened to any page but p, which was free. */
  ghost predicate OnlyPage(s0: Phys, s: Phys, p: int) {
    && |s0.mem| == |s.mem| == |s0.role| == |s.role| && 0 < p < |s.mem|
    && s0.role[p].FreePage? && s.role[p] == Root(p)
    && forall q | 0 <= q < |s.mem| && q != p :: s.role[q] == s0.role[q] && s.mem[q] == s0.mem[q]
  }

  /** uvmcreate: a table of one zeroed page that maps nothing; fails (panics) exactly when
      no page is free. */
  method UvmCreate(m: PageMemory) returns (root: int, ghost t: Tab)
    requires m.Valid() && Rooted(m.S())
    modifies m`mem, m`head, m`free, m`role
    ensures m.Valid() && Rooted(m.S()) && (root == 0 <==> old(m.free) == [])
    ensures root == 0 ==> m.S() == old(m.S())
    ensures root != 0 ==> TabInv(m.S(), t) && t == NewTab(root) && forall v | 0 <= v < VPNS :: Leaf(m.S(), t, v) == 0
    ensures root != 0 ==> |m.free| == |old(m.free)| - 1 && OnlyPage(old(m.S()), m.S(), root)
  {
    hide PhysInv, TabInv;
    ghost var s := m.S();
    ghost var r := Root(if |s.free| > 0 then s.free[|s.free| - 1] else 0);
    if |s.free| > 0 { NewTable(s); }
    var pa := m.Kalloc(r);
    root := pa / PGSIZE;
    t := NewTab(root);
    if pa != 0 {
      m.mem := m.mem[root := Fill(0)];
    }
  }

  // ---- uvmalloc ----

  /** From s0 to s page p kept its use and contents, or was free and is free, a table
      page, or the data page of a page number in [lo, hi). */
  ghost predicate AllocAt(s0: Phys, s: Phys, t: Tab, lo: int, hi: int, p: int) {
    && 0 <= p < |s0.mem| == |s.mem| == |s0.role| == |s.role|
    && (if s0.role[p].FreePage? then
          || s.role[p].FreePage?
          || IsTable(s.role[p], t.root)
          || (s.role[p].Data? && s.role[p].t == t.root && lo <= s.role[p].v < hi && p == Leaf(s, t, s.role[p].v) / 1024)
        else s.role[p] == s0.role[p] && (IsTable(s0.role[p], t.root) || s.mem[p] == s0.mem[p]))
  }

  /** What new pages hold: zeros, or a copy of another table's pages. */
  datatype Content = Zeros | CopyOf(from: Tab)

  ghost function WantPage(s: Phys, c: Content, v: int): seq<int> {
    match c
    case Zeros => Fill(0)
    case CopyOf(t) => if 0 <= Leaf(s, t, v) / 1024 < |s.mem| then s.mem[Leaf(s, t, v) / 1024] else []
  }

  ghost function WantFlags(s: Phys, c: Content, v: int): int {
    match c
    case Zeros => 31               // PTE_W | PTE_X | PTE_R | PTE_U | PTE_V
    case CopyOf(t) => Leaf(s, t, v) % 1024
  }

  /** PTE w maps v to a page that was free in s0, with the wanted flags and contents. */
  ghost predicate Fresh(s0: Phys, s: Phys, root: int, c: Content, v: int, w: int) {
    && w % 1024 == WantFlags(s0, c, v) && IsPage(s, w / 1024, Data(root, v)) && s.mem[w / 1024] == WantPage(s0, c, v)
    && |s0.role| == |s.role| && s0.role[w / 1024].FreePage?
  }

  /** [lo, hi) is mapped to fresh pages, and nothing else changed but that free pages
      may have become table pages. With lo == hi no data page was kept. */
  ghost predicate Allocated(s0: Phys, t0: Tab, s: Phys, t: Tab, c: Content, lo: int, hi: int) {
    && TabInv(s, t) && t.root == t0.root
    && |s0.mem| == |s.mem| == |s0.role| == |s.role|
    && (forall p | 0 <= p < |s0.mem| :: AllocAt(s0, s, t, lo, hi, p))
    && (forall v | lo <= v < hi :: Fresh(s0, s, t.root, c, v, Leaf(s, t, v)))
    && (forall v | 0 <= v < VPNS && !(lo <= v < hi) :: Trans(Leaf(s, t, v)) == Trans(Leaf(s0, t0, v)))
  }

  /** What a PTE translates to: nothing unless it is valid. */
  function Trans(w: int): int {
    if w % 2 == 1 then w else 0
  }

  /** No page is the data page of a page number in [lo, hi). */
  ghost predicate NoData(s: Phys, root: int, lo: int, hi: int) {
    forall p | 0 <= p < |s.role| && s.role[p].Data? && s.role[p].t == root :: !(lo <= s.role[p].v < hi)
  }

  /** The data pages of page numbers in [lo, hi) are mapped. */
  ghost predicate DataMapped(s: Phys, t: Tab, lo: int, hi: int) {
    forall p | 0 <= p < |s.role| && s.role[p].Data? && s.role[p].t == t.root && lo <= s.role[p].v < hi ::
      Leaf(s, t, s.role[p].v) % 2 == 1
  }

  /** No PTE of page numbers in [lo, hi) is valid. */
  ghost predicate Unmapped(s: Phys, t: Tab, lo: int, hi: int) {
    forall v | lo <= v < hi :: Leaf(s, t, v) % 2 == 0
  }

  /** The pages that mapping [lo, hi) to fresh pages takes: those and their missing tables. */
  ghost function Need(t: Tab, lo: int, hi: int): int {
    (if lo < hi then hi - lo else 0) + Tables(t, lo, hi)
  }

  /** Page v is the first of those from lo on that cannot be mapped. */
  ghost predicate FirstTaken(s: Phys, t: Tab, lo: int, v: int) {
    lo <= v && NoRoom(s, t, v) && AllRoom(s, t, lo, v)
  }

  /** The pages of [lo, v) are mapped to fresh pages, and so many fewer are free. */
  ghost predicate Spent(s0: Phys, t0: Tab, s: Phys, t: Tab, lo: int, v: int) {
    Built(t0, t, lo, v) && |s.free| == |s0.free| - Need(t0, lo, v)
  }

  lemma SpentStart(s: Phys, t: Tab, lo: int)
    requires TabInv(s, t)
    ensures Spent(s, t, s, t, lo, lo) && AllRoom(s, t, lo, lo)
  {
    BuiltStart(s, t, lo);
  }

  lemma NeedStep(s0: Phys, t0: Tab, t: Tab, s: Phys, lo: int, v: int)
    requires TabInv(s0, t0) && TabInv(s, t) && Built(t0, t, lo, v) && 0 <= lo <= v < VPNS
    ensures Need(t0, lo, v + 1) == Need(t0, lo, v) + 1 + Tables(t, v, v + 1)
    ensures Need(t0, lo, v) >= 0
  {
    MissingIs(s0, t0, t, lo, v);
    BuiltStart(s, t, v);
    MissingIs(s, t, t, v, v);
  }

  lemma NeedMore(t: Tab, lo: int, u: int, v: int)
    requires SizedTab(t) && 0 <= lo <= u <= v <= VPNS
    ensures Need(t, lo, u) <= Need(t, lo, v)
  {
    TablesGrow(t, lo, u, v);
  }

  lemma UnmappedNoData(s: Phys, t: Tab, lo: int, hi: int, n: int)
    requires DataMapped(s, t, lo, n) && Unmapped(s, t, lo, hi) && hi <= n
    ensures NoData(s, t.root, lo, hi)
  {}

  lemma AllocatedStart(s: Phys, t: Tab, c: Content, lo: int)
    requires TabInv(s, t) && |s.mem| == |s.role|
    ensures Allocated(s, t, s, t, c, lo, lo)
  {
    forall p | 0 <= p < |s.mem| ensures AllocAt(s, s, t, lo, lo, p) {}
  }

  lemma AllocatedTab(s0: Phys, t0: Tab, s: Phys, t: Tab, c: Content, lo: int, hi: int)
    requires Allocated(s0, t0, s, t, c, lo, hi)
    ensures TabInv(s, t) && t.root == t0.root
  {}

  /** A page that was not reached yet is mapped just if it was. */
  lemma AllocatedNow(s0: Phys, t0: Tab, s: Phys, t: Tab, c: Content, lo: int, hi: int)
    requires Allocated(s0, t0, s, t, c, lo, hi) && 0 <= hi < VPNS
    ensures Leaf(s, t, hi) % 2 == Leaf(s0, t0, hi) % 2
  {
    assert Trans(Leaf(s, t, hi)) == Trans(Leaf(s0, t0, hi));
  }

  ghost function Filled(s: Phys, page: seq<int>): Phys
    requires |s.free| > 0 && IsFree(s, s.free[|s.free| - 1], |s.free| - 1)
  {
    Taken(s, Other).(mem := Taken(s, Other).mem[s.free[|s.free| - 1] := page])
  }

  /** The page kalloc takes belongs to no table, whatever is stored in it. */
  lemma FilledKeeps(s: Phys, t: Tab, page: seq<int>)
    requires PhysInv(s) && TabInv(s, t) && |s.free| > 0 && |page| == ENTRIES
    ensures IsFree(s, s.free[|s.free| - 1], |s.free| - 1)
    ensures PhysInv(Filled(s, page)) && TabInv(Filled(s, page), t) && SameMap(s, t, Filled(s, page), t)
  {
    TakenKeeps(s, Other);
    WriteKeeps(Taken(s, Other), s.free[|s.free| - 1], page);
    TableFrame(s, Filled(s, page), t);
  }

  /** A free page p of s was taken and filled (s2), and mappages ran to s3 with `done`
      pages mapped at hi. */
  ghost predicate TookPage(s: Phys, t: Tab, s2: Phys, s3: Phys, t3: Tab, page: seq<int>, perm: int, hi: int, p: int, done: int) {
    && PhysInv(s) && PhysInv(s3) && |s.free| > 0 && IsFree(s, p, |s.free| - 1) && p == s.free[|s.free| - 1]
    && |page| == ENTRIES && 0 <= perm < 1024 && s2 == Filled(s, page)
    && SameMap(s, t, s2, t) && Mapping(s2, t, s3, t3, hi, done, PGSIZE * p, perm)
  }

  lemma TookElsewhere(s: Phys, t: Tab, s2: Phys, s3: Phys, t3: Tab, page: seq<int>, perm: int, hi: int, p: int, done: int)
    requires TookPage(s, t, s2, s3, t3, page, perm, hi, p, done)
    ensures PhysInv(s) && PhysInv(s3) && Shaped(s) && Shaped(s3)
    ensures 0 < p < |s.mem| == |s.role| == |s3.mem| == |s3.role| && s3.role[p].Other? && s3.mem[p] == page
    ensures forall q | 0 <= q < |s.mem| && q != p :: GrewAt(s, s3, t.root, q)
    ensures TabInv(s3, t3) && t3.root == t.root
    ensures forall v | 0 <= v < VPNS ::
      Leaf(s3, t3, v) == if hi <= v < hi + done then Pte(PGSIZE * p, v - hi, perm) else Leaf(s, t, v)
  {
    assert GrewAt(s2, s3, t.root, p);
    forall q | 0 <= q < |s.mem| && q != p ensures GrewAt(s, s3, t.root, q) {
      assert GrewAt(s2, s3, t.root, q);
    }
  }

  lemma RoleKeeps(s: Phys, p: int, r: Role)
    requires PhysInv(s) && 0 <= p < |s.role| && !s.role[p].FreePage? && !r.FreePage?
    ensures PhysInv(s.(role := s.role[p := r]))
  {
    var s1 := s.(role := s.role[p := r]);
    forall k | 0 <= k < |s1.free| ensures IsFree(s1, s1.free[k], k) && Linked(s1, k) {
      assert IsFree(s, s.free[k], k) && Linked(s, k);
    }
  }

  /** After a page was taken, filled and mapped at hi, it becomes the data page of hi. */
  lemma AllocatedStep(s0: Phys, t0: Tab, s: Phys, t: Tab, s2: Phys, s3: Phys, t3: Tab, c: Content, page: seq<int>, perm: int,
                      lo: int, hi: int, p: int)
    requires Allocated(s0, t0, s, t, c, lo, hi) && 0 <= lo <= hi < VPNS
    requires TookPage(s, t, s2, s3, t3, page, perm, hi, p, 1)
    requires page == WantPage(s0, c, hi) && perm + 1 - perm % 2 == WantFlags(s0, c, hi)
    ensures 0 <= p < |s3.role|
    ensures
      var s4 := s3.(role := s3.role[p := Data(t0.root, hi)]);
      PhysInv(s4) && Allocated(s0, t0, s4, t3, c, lo, hi + 1)
  {
    hide PhysInv, WantPage, WantFlags;
    TookElsewhere(s, t, s2, s3, t3, page, perm, hi, p, 1);
    var s4 := s3.(role := s3.role[p := Data(t0.root, hi)]);
    assert AllocAt(s0, s, t, lo, hi, p);
    RoleKeeps(s3, p, Data(t0.root, hi));
    TableFrame(s3, s4, t3);
    PteParts(p, perm);
    var next := hi + 1;
    forall v | lo <= v < next ensures Fresh(s0, s4, t.root, c, v, Leaf(s4, t3, v)) {
      if v < hi {
        assert Fresh(s0, s, t.root, c, v, Leaf(s, t, v));
        assert GrewAt(s, s3, t.root, Leaf(s, t, v) / 1024);
      }
    }
    forall q | 0 <= q < |s0.mem| ensures AllocAt(s0, s4, t3, lo, next, q) {
      assert AllocAt(s0, s, t, lo, hi, q);
      if q != p { assert GrewAt(s, s3, t.root, q); }
    }
  }

  lemma PteParts(p: int, perm: int)
    requires 0 <= perm < 1024
    ensures Pte(PGSIZE * p, 0, perm) / 1024 == p && Pte(PGSIZE * p, 0, perm) % 1024 == perm + 1 - perm % 2
  {}

  /** After mapping failed the taken page goes back. */
  lemma AllocatedUndo(s0: Phys, t0: Tab, s: Phys, t: Tab, s2: Phys, s3: Phys, t3: Tab, c: Content, page: seq<int>, perm: int,
                      lo: int, hi: int, p: int)
    requires Allocated(s0, t0, s, t, c, lo, hi) && 0 <= lo <= hi < VPNS
    requires TookPage(s, t, s2, s3, t3, page, perm, hi, p, 0)
    ensures 0 < p < |s3.role| == |s3.mem| && s3.role[p].Other?
    ensures PhysInv(Given(s3, p)) && Allocated(s0, t0, Given(s3, p), t3, c, lo, hi)
  {
    TookElsewhere(s, t, s2, s3, t3, page, perm, hi, p, 0);
    assert AllocAt(s0, s, t, lo, hi, p);
    var s4 := Given(s3, p);
    GivenKeeps(s3, p);
    TableFrame(s3, s4, t3);
    forall v | lo <= v < hi ensures Fresh(s0, s4, t.root, c, v, Leaf(s4, t3, v)) {
      assert Fresh(s0, s, t.root, c, v, Leaf(s, t, v));
      assert GrewAt(s, s3, t.root, Leaf(s, t, v) / 1024);
    }
    forall q | 0 <= q < |s0.mem| ensures AllocAt(s0, s4, t3, lo, hi, q) {
      assert AllocAt(s0, s, t, lo, hi, q);
      if q != p { assert GrewAt(s, s3, t.root, q); }
    }
  }

  lemma LeafFlags(w: int)
    ensures IsLeaf(w) <==> IsLeaf(w % 1024)
    ensures IsLeaf(w) ==> w % 1024 % 2 == 1
  {
    EvenPart(512 * (w / 1024), w % 1024);
    assert w == 2 * (512 * (w / 1024)) + w % 1024;
  }

  lemma LeafIsValid(w: int)
    ensures IsLeaf(w) ==> w % 2 == 1
  {}

  lemma EvenPart(k: int, r: int)
    ensures (2 * k + r) % 2 == r % 2
  {}

  /** What was allocated is owned, so it can be unmapped and freed. */
  lemma AllocatedOwned(s0: Phys, t0: Tab, s: Phys, t: Tab, c: Content, lo: int, hi: int)
    requires Allocated(s0, t0, s, t, c, lo, hi) && NoData(s0, t0.root, lo, hi)
    requires forall v | lo <= v < hi :: IsLeaf(WantFlags(s0, c, v))
    ensures OwnsLeaves(s, t, lo, hi)
    ensures forall v | lo <= v < hi :: IsLeaf(Leaf(s, t, v))
  {
    hide IsLeaf, WantFlags, WantPage, Leaf;
    forall v | lo <= v < hi ensures IsLeaf(Leaf(s, t, v)) && Owned(s, t.root, v, Leaf(s, t, v)) {
      assert Fresh(s0, s, t.root, c, v, Leaf(s, t, v)) && IsLeaf(WantFlags(s0, c, v));
      LeafFlags(Leaf(s, t, v));
    }
    forall p | 0 <= p < |s.mem| && s.role[p].Data? && s.role[p].t == t.root && lo <= s.role[p].v < hi
      ensures p == Leaf(s, t, s.role[p].v) / 1024
    {
      assert AllocAt(s0, s, t, lo, hi, p);
    }
  }

  /** Unmapping and freeing what was allocated leaves no data page behind. */
  lemma AllocatedFreed(s0: Phys, t0: Tab, s: Phys, s1: Phys, t: Tab, c: Content, lo: int, hi: int)
    requires Allocated(s0, t0, s, t, c, lo, hi) && Unmapping(s, s1, t, lo, hi, true) && lo <= hi
    requires NoData(s0, t0.root, lo, hi) && forall v | lo <= v < hi :: Leaf(s0, t0, v) % 2 == 0
    ensures Allocated(s0, t0, s1, t, c, lo, lo)
  {
    forall p | 0 <= p < |s0.mem| ensures AllocAt(s0, s1, t, lo, lo, p) {
      assert AllocAt(s0, s, t, lo, hi, p) && UnmappedAt(s, s1, t.root, lo, hi, p);
    }
  }

  lemma SameLeaf(s0: Phys, t0: Tab, s1: Phys, t1: Tab, v: int)
    requires SameMap(s0, t0, s1, t1) && 0 <= v < VPNS
    ensures Leaf(s1, t1, v) == Leaf(s0, t0, v)
  {}

  /** A page that uvmunmap stops at. */
  ghost predicate NoLeaf(s: Phys, t: Tab, v: int) {
    v >= MAXPAGE || !IsLeaf(Leaf(s, t, v))
  }

  /** uvmdealloc on any 64-bit sizes: unmaps and frees the pages in
      [RoundUp(newsz), RoundUp(oldsz)), and panics if and only if one of them has no leaf. */
  method UvmDealloc(m: PageMemory, root: int, oldsz: int, newsz: int, ghost t: Tab) returns (r: Outcome, sz: int)
    requires m.Valid() && TabInv(m.S(), t) && t.root == root
    requires 0 <= newsz < UINT64 && 0 <= oldsz < UINT64
    requires newsz < oldsz ==> OwnsLeaves(m.S(), t, RoundUp(newsz) / PGSIZE, RoundUp(oldsz) / PGSIZE)
    modifies m`mem, m`head, m`free, m`role
    ensures m.Valid() && !r.Failure? && sz == if newsz < oldsz then newsz else oldsz
    ensures r.Panic? <==>
      newsz < oldsz && exists v :: RoundUp(newsz) / PGSIZE <= v < RoundUp(oldsz) / PGSIZE && NoLeaf(old(m.S()), t, v)
    ensures r.Success? ==>
      Unmapping(old(m.S()), m.S(), t, RoundUp(newsz) / PGSIZE,
                if newsz < oldsz && RoundUp(newsz) < RoundUp(oldsz) then RoundUp(oldsz) / PGSIZE else RoundUp(newsz) / PGSIZE,
                true)
    ensures r.Success? ==>
      |m.free| - |old(m.free)|
      == if newsz < oldsz && RoundUp(newsz) < RoundUp(oldsz) then RoundUp(oldsz) / PGSIZE - RoundUp(newsz) / PGSIZE else 0
  {
    hide PhysInv, TabInv, Unmapping, OwnsLeaves, IsLeaf, Leaf;
    ghost var s0 := m.S();
    SizeFacts(s0);
    UnmappingStart(s0, t, RoundUp(newsz) / PGSIZE, true);
    if newsz >= oldsz {
      return Success, oldsz;
    }
    var newup := RoundUp(newsz);
    if newup < RoundUp(oldsz) {
      ghost var lo, hi := newup / PGSIZE, RoundUp(oldsz) / PGSIZE;
      RangeOf(oldsz, newup);
      var ok;
      ghost var done;
      ok, done := m.UvmUnmap(root, newup, oldsz - newup, true, t, hi);
      if !ok {
        assert NoLeaf(s0, t, lo + done);
        return Panic, newsz;
      }
    }
    return Success, newsz;
  }

  /** The range that uvmdealloc passes on. */
  lemma RangeOf(oldsz: int, newup: int)
    requires 0 <= oldsz < UINT64 && 0 <= newup < RoundUp(oldsz) && newup % PGSIZE == 0
    ensures newup < oldsz && Pages(newup, oldsz - newup) == RoundUp(oldsz) / PGSIZE - newup / PGSIZE
    ensures EndPage(newup, oldsz - newup) <= RoundUp(oldsz) / PGSIZE
  {
    assert oldsz + PGSIZE - 1 < UINT64;
  }

  /** The loop bodies of uvmalloc and uvmcopy: a page with the given contents mapped at
      address a, or nothing kept.  It panics exactly when a page could be had but cannot be
      mapped there, and otherwise fails exactly when too few pages are free. */
  method AllocOne(m: PageMemory, root: int, a: int, page: seq<int>, perm: int,
                  ghost s0: Phys, ghost t0: Tab, ghost t: Tab, ghost c: Content, ghost lo: int)
    returns (r: Outcome, ghost t1: Tab)
    requires m.Valid() && TabInv(m.S(), t) && t.root == root && a % PGSIZE == 0 && 0 <= lo <= a / PGSIZE && a < UINT64
    requires TabInv(s0, t0) && Allocated(s0, t0, m.S(), t, c, lo, a / PGSIZE) && Spent(s0, t0, m.S(), t, lo, a / PGSIZE)
    requires |page| == ENTRIES && page == WantPage(s0, c, a / PGSIZE)
    requires 0 <= perm < 1024 && perm + 1 - perm % 2 == WantFlags(s0, c, a / PGSIZE)
    modifies m`mem, m`head, m`free, m`role
    ensures m.Valid() && TabInv(m.S(), t1) && t1.root == root
    ensures !r.Panic? ==> Allocated(s0, t0, m.S(), t1, c, lo, if r.Success? then a / PGSIZE + 1 else a / PGSIZE)
    ensures r.Panic? <==> NoRoom(s0, t0, a / PGSIZE) && |s0.free| > Need(t0, lo, a / PGSIZE)
    ensures r.Success? <==> !NoRoom(s0, t0, a / PGSIZE) && |s0.free| >= Need(t0, lo, a / PGSIZE + 1)
    ensures r.Success? ==> Spent(s0, t0, m.S(), t1, lo, a / PGSIZE + 1)
  {
    hide PhysInv, TabInv, SameMap, Mapping, Allocated, WantPage, WantFlags, Tables, Built, Need, Leaf, AllRoom;
    ghost var s, v := m.S(), a / PGSIZE;
    TabSized(s, t);
    AllocatedTab(s0, t0, s, t, c, lo, v);
    OnePage(a);
    if a < MAXVA {
      AllocatedNow(s0, t0, s, t, c, lo, v);
      NeedStep(s0, t0, t, s, lo, v);
    }
    if |m.free| > 0 { FilledKeeps(s, t, page); }
    var pa := m.Kalloc(Other);
    if pa == 0 {
      return Failure, t;
    }
    m.mem := m.mem[pa / PGSIZE := page];
    ghost var s2 := m.S();
    if a < MAXVA { SameLeaf(s, t, s2, t, v); }
    OneRoom(s2, t, v);
    assert pa == PGSIZE * (pa / PGSIZE);
    ghost var done;
    r, t1, done := m.MapPages(root, a, PGSIZE, pa, perm, t);
    ghost var s3 := m.S();
    MappingTab(s2, t, s3, t1, v, done, pa, perm);
    if r.Panic? {
      return;
    }
    assert TookPage(s, t, s2, s3, t1, page, perm, v, pa / PGSIZE, done);
    if r.Failure? {
      AllocatedUndo(s0, t0, s, t, s2, s3, t1, c, page, perm, lo, v, pa / PGSIZE);
      m.Kfree(pa);
      AllocatedTab(s0, t0, m.S(), t1, c, lo, v);
      return;
    }
    BuiltTrans(t0, t, t1, lo, v);
    AllocatedStep(s0, t0, s, t, s2, s3, t1, c, page, perm, lo, v, pa / PGSIZE);
    m.role := m.role[pa / PGSIZE := Data(root, v)];
    AllocatedTab(s0, t0, m.S(), t1, c, lo, v + 1);
  }

  lemma OneRoom(s: Phys, t: Tab, v: int)
    ensures AllRoom(s, t, v, v + 1) <==> !NoRoom(s, t, v)
  {}

  lemma OnePage(a: int)
    requires 0 <= a < UINT64 && a % PGSIZE == 0
    ensures Pages(a, PGSIZE) == 1 && (a < MAXVA <==> a / PGSIZE < MAXPAGE)
  {
    assert (a + PGSIZE - 1) / PGSIZE == a / PGSIZE;
  }

  lemma ZerosWanted(s: Phys, v: int)
    ensures WantPage(s, Zeros, v) == Fill(0) && WantFlags(s, Zeros, v) == 31 && |Fill(0)| == ENTRIES
  {}

  lemma ZerosOwned(s0: Phys, t0: Tab, s: Phys, t: Tab, lo: int, hi: int, n: int)
    requires Allocated(s0, t0, s, t, Zeros, lo, hi) && DataMapped(s0, t0, lo, n) && Unmapped(s0, t0, lo, hi) && hi <= n
    ensures OwnsLeaves(s, t, lo, hi) && NoData(s0, t0.root, lo, hi)
    ensures forall v | lo <= v < hi :: IsLeaf(Leaf(s, t, v))
  {
    UnmappedNoData(s0, t0, lo, hi, n);
    AllocatedOwned(s0, t0, s, t, Zeros, lo, hi);
  }

  /** uvmalloc on any 64-bit sizes: the whole of [oldsz, newsz) mapped to fresh zeroed pages,
      or all data mappings as they were and every data page it took free again.  It succeeds
      exactly when no page of the range is mapped already or lies past MAXVA and enough pages
      are free for the range and its missing tables; it panics exactly when memory lasts up to
      the first page that cannot be mapped. */
  method UvmAlloc(m: PageMemory, root: int, oldsz: int, newsz: int, ghost t: Tab)
    returns (r: Outcome, sz: int, ghost t1: Tab)
    requires m.Valid() && TabInv(m.S(), t) && t.root == root
    requires 0 <= oldsz < UINT64 && 0 <= newsz < UINT64
    requires DataMapped(m.S(), t, RoundUp(oldsz) / PGSIZE, PagesOf(newsz))
    modifies m`mem, m`head, m`free, m`role
    ensures m.Valid() && sz == if newsz < oldsz then oldsz else if r.Success? then newsz else 0
    ensures newsz < oldsz ==> r.Success? && m.S() == old(m.S()) && t1 == t
    ensures newsz >= oldsz ==>
      var lo, hi := RoundUp(oldsz) / PGSIZE, PagesOf(newsz);
      && (r.Success? <==> AllRoom(old(m.S()), t, lo, hi) && |old(m.free)| >= Need(t, lo, hi))
      && (r.Panic? <==> exists v :: FirstTaken(old(m.S()), t, lo, v) && v < hi && |old(m.free)| > Need(t, lo, v))
    ensures newsz >= oldsz && r.Success? ==>
      && |m.free| == |old(m.free)| - Need(t, RoundUp(oldsz) / PGSIZE, PagesOf(newsz))
      && Allocated(old(m.S()), t, m.S(), t1, Zeros, RoundUp(oldsz) / PGSIZE,
                   if RoundUp(oldsz) / PGSIZE < PagesOf(newsz) then PagesOf(newsz) else RoundUp(oldsz) / PGSIZE)
    ensures r.Failure? ==>
      Allocated(old(m.S()), t, m.S(), t1, Zeros, RoundUp(oldsz) / PGSIZE, RoundUp(oldsz) / PGSIZE)
  {
    hide PhysInv, TabInv, SameMap, Unmapping, OwnsLeaves, Allocated, NoData, DataMapped, WantPage, WantFlags, IsLeaf, Leaf,
      Need, Spent, AllRoom, NoRoom, FirstTaken;
    ghost var s0 := m.S();
    t1 := t;
    if newsz < oldsz {
      return Success, oldsz, t1;
    }
    var start := RoundUp(oldsz);
    ghost var lo, hi := start / PGSIZE, PagesOf(newsz);
    var a := start;
    SizeFacts(s0);
    TabSized(s0, t);
    AllocatedStart(s0, t, Zeros, lo);
    SpentStart(s0, t, lo);
    while a < newsz
      invariant m.Valid() && TabInv(m.S(), t1) && t1.root == root
      invariant a % PGSIZE == 0 && start <= a && (a == start || (a <= MAXVA && a / PGSIZE <= hi))
      invariant Allocated(s0, t, m.S(), t1, Zeros, lo, a / PGSIZE)
      invariant Spent(s0, t, m.S(), t1, lo, a / PGSIZE) && AllRoom(s0, t, lo, a / PGSIZE)
    {
      ghost var s, v := m.S(), a / PGSIZE;
      ZerosWanted(s0, v);
      ghost var t2 := t1;
      r, t1 := AllocOne(m, root, a, Fill(0), 30, s0, t, t2, Zeros, lo);
      AllocStop(s0, t, lo, v, hi);
      if r.Panic? {
        return r, 0, t1;
      }
      if r.Failure? {
        s := m.S();
        RoomUnmapped(s0, t, lo, v);
        ZerosOwned(s0, t, s, t1, lo, v, hi);
        Rounded(a);
        var d, _ := UvmDealloc(m, root, a, start, t1);
        AllocatedFreed(s0, t, s, m.S(), t1, Zeros, lo, v);
        return r, 0, t1;
      }
      MoreRoom(s0, t, lo, v);
      a := a + PGSIZE;
    }
    AllocDone(s0, t, m.S(), t1, lo, a / PGSIZE, hi);
    return Success, newsz, t1;
  }

  /** Page v of [lo, hi), up to which everything could be mapped, decides unless it can be too. */
  lemma AllocStop(s: Phys, t: Tab, lo: int, v: int, hi: int)
    requires TabInv(s, t) && 0 <= lo <= v < hi && AllRoom(s, t, lo, v)
    ensures NoRoom(s, t, v) ==> !AllRoom(s, t, lo, hi) && FirstTaken(s, t, lo, v)
    ensures NoRoom(s, t, v) ==> forall u :: FirstTaken(s, t, lo, u) ==> u == v
    ensures !NoRoom(s, t, v) && |s.free| < Need(t, lo, v + 1) ==>
      && (AllRoom(s, t, lo, hi) ==> |s.free| < Need(t, lo, hi))
      && (forall u :: FirstTaken(s, t, lo, u) && u < hi ==> |s.free| < Need(t, lo, u))
  {
    if !NoRoom(s, t, v) && |s.free| < Need(t, lo, v + 1) {
      if AllRoom(s, t, lo, hi) {
        assert !NoRoom(s, t, hi - 1);
        NeedMore(t, lo, v + 1, hi);
      }
      forall u | FirstTaken(s, t, lo, u) && u < hi ensures |s.free| < Need(t, lo, u) {
        assert u > v && (u > v + 1 ==> !NoRoom(s, t, u - 1));
        NeedMore(t, lo, v + 1, u);
      }
    }
  }

  lemma MoreRoom(s: Phys, t: Tab, lo: int, v: int)
    requires AllRoom(s, t, lo, v) && !NoRoom(s, t, v)
    ensures AllRoom(s, t, lo, v + 1) && v < MAXPAGE
  {}

  lemma RoomUnmapped(s: Phys, t: Tab, lo: int, v: int)
    requires AllRoom(s, t, lo, v)
    ensures Unmapped(s, t, lo, v)
  {
    forall u | lo <= u < v ensures Leaf(s, t, u) % 2 == 0 { assert !NoRoom(s, t, u); }
  }

  lemma AllocDone(s0: Phys, t0: Tab, s: Phys, t: Tab, lo: int, v: int, hi: int)
    requires Spent(s0, t0, s, t, lo, v) && AllRoom(s0, t0, lo, v) && lo <= v && (v == hi || (v == lo && hi <= lo))
    ensures AllRoom(s0, t0, lo, hi) && |s.free| == |s0.free| - Need(t0, lo, hi)
    ensures forall u :: FirstTaken(s0, t0, lo, u) ==> u >= hi
  {}

  lemma Rounded(a: int)
    requires 0 <= a < UINT64 && a % PGSIZE == 0
    ensures RoundUp(a) == a
  {
    assert (a + PGSIZE - 1) / PGSIZE == a / PGSIZE;
  }

  lemma Flags31(w: int)
    requires w % 1024 == 31
    ensures w % 2 == 1 && w / 16 % 2 == 1
  {
    var p := w / 1024;
    EvenPart(512 * p + 15, 1);
    EvenPart(32 * p, 1);
    Sixteenth(64 * p + 1);
    assert w == 16 * (64 * p + 1) + 15;
  }

  lemma Sixteenth(q: int)
    ensures (16 * q + 15) / 16 == q
  {}

  /** A page that was allocated is one that user code can reach, and holds zeros. */
  lemma Reachable(s0: Phys, t0: Tab, s: Phys, t: Tab, lo: int, hi: int, v: int)
    requires Allocated(s0, t0, s, t, Zeros, lo, hi) && lo <= v < hi
    ensures
      var w := Leaf(s, t, v);
      w % 2 == 1 && w / 16 % 2 == 1 && 0 < w / 1024 < |s.mem| && s.mem[w / 1024] == Fill(0)
  {
    assert Fresh(s0, s, t.root, Zeros, v, Leaf(s, t, v));
    Flags31(Leaf(s, t, v));
  }

  /** uvmalloc and then walkaddr of an address in the memory it added: a page of zeros. */
  method GrowAndWalk(m: PageMemory, root: int, oldsz: int, newsz: int, va: int, ghost t: Tab)
    returns (r: Outcome, pa: int, ghost t1: Tab)
    requires m.Valid() && TabInv(m.S(), t) && t.root == root
    requires 0 <= oldsz <= newsz < UINT64 && RoundUp(oldsz) <= va < newsz
    requires DataMapped(m.S(), t, RoundUp(oldsz) / PGSIZE, PagesOf(newsz))
    modifies m`mem, m`head, m`free, m`role
    ensures m.Valid() && (r.Success? ==> pa > 0 && pa % PGSIZE == 0 && pa / PGSIZE < |m.mem| && m.mem[pa / PGSIZE] == Fill(0))
  {
    hide PhysInv, TabInv, Allocated, DataMapped, Need, AllRoom, Leaf;
    ghost var s0 := m.S();
    var sz;
    r, sz, t1 := UvmAlloc(m, root, oldsz, newsz, t);
    pa := 0;
    if r.Success? {
      ghost var lo, hi := RoundUp(oldsz) / PGSIZE, PagesOf(newsz);
      InRange(oldsz, newsz, va);
      AllocatedTab(s0, t, m.S(), t1, Zeros, lo, hi);
      Reachable(s0, t, m.S(), t1, lo, hi, va / PGSIZE);
      RoomBelow(s0, t, lo, hi, va / PGSIZE);
      pa := m.WalkAddr(root, va, t1);
    }
  }

  lemma InRange(oldsz: int, newsz: int, va: int)
    requires 0 <= oldsz < UINT64 && RoundUp(oldsz) <= va < newsz
    ensures RoundUp(oldsz) / PGSIZE <= va / PGSIZE < PagesOf(newsz)
  {}

  lemma RoomBelow(s: Phys, t: Tab, lo: int, hi: int, v: int)
    requires AllRoom(s, t, lo, hi) && lo <= v < hi
    ensures v < MAXPAGE
  {
    assert !NoRoom(s, t, v);
  }

  /** Allocating in one table leaves every other table, and its data, alone. */
  lemma AllocatedElsewhere(s0: Phys, t0: Tab, s: Phys, t: Tab, c: Content, lo: int, hi: int, told: Tab)
    requires Allocated(s0, t0, s, t, c, lo, hi) && Shaped(s0) && Shaped(s) && TabInv(s0, told) && told.root != t0.root
    ensures TabInv(s, told) && SameMap(s0, told, s, told)
    ensures forall p | 0 <= p < |s0.mem| && s0.role[p].Data? :: s.mem[p] == s0.mem[p] && s.role[p] == s0.role[p]
  {
    forall p | 0 <= p < |s0.mem| && (IsTable(s0.role[p], told.root) || IsTable(s.role[p], told.root))
      ensures s.role[p] == s0.role[p] && s.mem[p] == s0.mem[p]
    {
      assert AllocAt(s0, s, t, lo, hi, p);
    }
    forall p | 0 <= p < |s0.mem| && s0.role[p].Data? ensures s.mem[p] == s0.mem[p] && s.role[p] == s0.role[p] {
      assert AllocAt(s0, s, t, lo, hi, p);
    }
    TableFrame(s0, s, told);
  }

  /** The page uvmcopy reads for v is the parent's page as it was at the start. */
  lemma CopySource(s0: Phys, t0: Tab, s: Phys, t: Tab, lo: int, hi: int, told: Tab, v: int)
    requires Allocated(s0, t0, s, t, CopyOf(told), lo, hi) && PhysInv(s0) && PhysInv(s)
    requires TabInv(s0, told) && told.root != t0.root && 0 <= v < VPNS && Owned(s0, told.root, v, Leaf(s0, told, v))
    ensures
      var w := Leaf(s, told, v);
      && w == Leaf(s0, told, v) && w % 2 == 1 && 0 <= w / 1024 < |s.mem| && |s.mem[w / 1024]| == ENTRIES
      && s.mem[w / 1024] == WantPage(s0, CopyOf(told), v)
      && w % 1024 + 1 - w % 1024 % 2 == WantFlags(s0, CopyOf(told), v)
    ensures TabInv(s, told)
  {
    LeafFlags(Leaf(s0, told, v));
    AllocatedElsewhere(s0, t0, s, t, CopyOf(told), lo, hi, told);
  }

  /** uvmcopy on any 64-bit size.  `at` is the page the loop got to.  On success the child has
      its own copy of every page, with the same flags.  On failure nothing is kept, but when
      not even the first page can be had the clean-up call uvmunmap(new, 0, 0, 1) panics.
      The other panics are a page that the parent lacks, one that the child has, and MAXVA. */
  method UvmCopy(m: PageMemory, oldRoot: int, newRoot: int, sz: int, ghost told: Tab, ghost tnew: Tab)
    returns (r: Outcome, ghost t1: Tab, ghost at: int)
    requires m.Valid() && TabInv(m.S(), told) && told.root == oldRoot && TabInv(m.S(), tnew) && tnew.root == newRoot
    requires oldRoot != newRoot && 0 <= sz < UINT64
    requires OwnsLeaves(m.S(), told, 0, PagesOf(sz)) && DataMapped(m.S(), tnew, 0, PagesOf(sz))
    requires LeavesOnly(m.S(), told, PagesOf(sz))
    requires sz > 0 ==> Leaf(m.S(), tnew, 0) % 2 == 0
    modifies m`mem, m`head, m`free, m`role
    ensures m.Valid() && 0 <= at <= PagesOf(sz) && (r.Success? <==> at == PagesOf(sz))
    ensures Copyable(old(m.S()), told, tnew, at) && |old(m.free)| >= Need(tnew, 0, at)
    ensures r.Success? ==> |m.free| == |old(m.free)| - Need(tnew, 0, at)
    ensures !r.Panic? ==> Allocated(old(m.S()), tnew, m.S(), t1, CopyOf(told), 0, if r.Success? then at else 0)
    ensures r.Panic? ==>
      || Lacks(old(m.S()), told, at)
      || (NoRoom(old(m.S()), tnew, at) && |old(m.free)| > Need(tnew, 0, at))
      || (at == 0 && |old(m.free)| < Need(tnew, 0, 1))
    ensures r.Failure? ==> at > 0 && !Lacks(old(m.S()), told, at)
    ensures r.Failure? ==> |old(m.free)| < Need(tnew, 0, at + 1) && (NoRoom(old(m.S()), tnew, at) ==> |old(m.free)| == Need(tnew, 0, at))
    ensures r.Success? <==> Copyable(old(m.S()), told, tnew, PagesOf(sz)) && |old(m.free)| >= Need(tnew, 0, PagesOf(sz))
    ensures Copyable(old(m.S()), told, tnew, PagesOf(sz)) ==> (r.Panic? <==> sz > 0 && |old(m.free)| < Need(tnew, 0, 1))
  {
    hide PhysInv, TabInv, SameMap, Unmapping, OwnsLeaves, Allocated, NoData, DataMapped, WantPage, WantFlags, IsLeaf, Leaf,
      Need, Spent, AllRoom, NoRoom, Lacks, Copyable, LeavesOnly;
    ghost var s0, n := m.S(), PagesOf(sz);
    t1, at := tnew, 0;
    SizeFacts(s0);
    AllocatedStart(s0, tnew, CopyOf(told), 0);
    SpentStart(s0, tnew, 0);
    CopyStart(s0, told, tnew);
    var i := 0;
    while i < sz
      invariant m.Valid() && TabInv(m.S(), t1) && t1.root == newRoot
      invariant i == PGSIZE * at && 0 <= at <= n && at <= MAXPAGE
      invariant Allocated(s0, tnew, m.S(), t1, CopyOf(told), 0, at)
      invariant Spent(s0, tnew, m.S(), t1, 0, at) && Copyable(s0, told, tnew, at)
    {
      CopyStop(s0, told, tnew, m.S(), t1, at, n);
      if i >= MAXVA {
        return Panic, t1, at;            // in walk
      }
      CopyTable(s0, tnew, m.S(), t1, 0, at, told);
      LeafOfWalk(m.S(), told, at);
      SameLeaf(s0, told, m.S(), told, at);
      var page, j;
      ghost var t2;
      page, j, t2 := m.Walk(oldRoot, i, false, told);
      LacksIs(s0, told, at);
      if page == -1 || m.mem[page][j] % 2 == 0 {
        return Panic, t1, at;
      }
      ValidIsLeaf(s0, told, n, at);
      OwnsLeaf(s0, told, 0, n, at);
      CopySource(s0, tnew, m.S(), t1, 0, at, told, at);
      var pte := m.mem[page][j];
      ghost var t3 := t1;
      r, t1 := AllocOne(m, newRoot, i, m.mem[pte / 1024], pte % 1024, s0, tnew, t3, CopyOf(told), 0);
      if r.Panic? {
        return;
      }
      if r.Failure? {
        ghost var s := m.S();
        CopyOwned(s0, tnew, s, t1, told, at, n);
        NotYet(s0, tnew, s, t1, CopyOf(told), at);
        var ok;
        ghost var done;
        ok, done := m.UvmUnmap(newRoot, 0, i, true, t1, at);
        if !ok {
          return Panic, t1, at;
        }
        AllocatedFreed(s0, tnew, s, m.S(), t1, CopyOf(told), 0, at);
        return;
      }
      i, at := i + PGSIZE, at + 1;
    }
    CopyDone(s0, told, tnew, m.S(), t1, at);
    r := Success;
  }

  /** A page that uvmcopy panics on, since the parent lacks it or it lies past MAXVA. */
  ghost predicate Lacks(s: Phys, told: Tab, v: int) {
    v >= MAXPAGE || Leaf(s, told, v) % 2 == 0
  }

  lemma LacksIs(s: Phys, told: Tab, v: int)
    requires v < MAXPAGE
    ensures Lacks(s, told, v) <==> Leaf(s, told, v) % 2 == 0
  {}

  /** Below n the parent has every page, the child none, and all lie below MAXVA. */
  ghost predicate Copyable(s: Phys, told: Tab, tnew: Tab, n: int) {
    AllRoom(s, tnew, 0, n) && forall v | 0 <= v < n :: !Lacks(s, told, v)
  }

  lemma CopyTable(s0: Phys, t0: Tab, s: Phys, t: Tab, lo: int, hi: int, told: Tab)
    requires Allocated(s0, t0, s, t, CopyOf(told), lo, hi) && PhysInv(s0) && PhysInv(s)
    requires TabInv(s0, told) && told.root != t0.root
    ensures TabInv(s, told) && SameMap(s0, told, s, told)
  {
    AllocatedElsewhere(s0, t0, s, t, CopyOf(told), lo, hi, told);
  }

  /** The valid PTEs below n are leaves. */
  ghost predicate LeavesOnly(s: Phys, t: Tab, n: int) {
    forall v | 0 <= v < n && Leaf(s, t, v) % 2 == 1 :: IsLeaf(Leaf(s, t, v))
  }

  lemma ValidIsLeaf(s: Phys, t: Tab, n: int, v: int)
    requires LeavesOnly(s, t, n) && 0 <= v < n && !Lacks(s, t, v)
    ensures IsLeaf(Leaf(s, t, v))
  {}

  lemma CopyStart(s: Phys, told: Tab, tnew: Tab)
    ensures Copyable(s, told, tnew, 0)
  {}

  /** At page v, up to which everything was copied. */
  lemma CopyStop(s0: Phys, told: Tab, tnew: Tab, s: Phys, t: Tab, v: int, n: int)
    requires TabInv(s0, tnew) && Spent(s0, tnew, s, t, 0, v) && Copyable(s0, told, tnew, v) && 0 <= v < n && v <= MAXPAGE
    ensures |s0.free| >= Need(tnew, 0, v) && Need(tnew, 0, v) < Need(tnew, 0, v + 1)
    ensures v > 0 ==> Need(tnew, 0, 1) <= Need(tnew, 0, v)
    ensures Lacks(s0, told, v) || NoRoom(s0, tnew, v) ==> !Copyable(s0, told, tnew, n)
    ensures !Lacks(s0, told, v) && !NoRoom(s0, tnew, v) ==> Copyable(s0, told, tnew, v + 1)
    ensures v >= MAXPAGE ==> Lacks(s0, told, v)
    ensures |s0.free| < Need(tnew, 0, v + 1) && Copyable(s0, told, tnew, n) ==> |s0.free| < Need(tnew, 0, n)
  {
    hide TabInv, Leaf, Tables;
    TabSized(s0, tnew);
    TablesStep(tnew, 0, v);
    if v > 0 { NeedMore(tnew, 0, 1, v); }
    if Copyable(s0, told, tnew, n) {
      assert !NoRoom(s0, tnew, n - 1);
      NeedMore(tnew, 0, v + 1, n);
    }
  }

  lemma CopyDone(s0: Phys, told: Tab, tnew: Tab, s: Phys, t: Tab, n: int)
    requires TabInv(s0, tnew) && Spent(s0, tnew, s, t, 0, n) && Copyable(s0, told, tnew, n) && 0 <= n <= MAXPAGE
    ensures |s.free| == |s0.free| - Need(tnew, 0, n) && (n > 0 ==> |s0.free| >= Need(tnew, 0, 1))
  {
    if n > 0 { NeedMore(tnew, 0, 1, n); }
  }

  lemma CopyOwned(s0: Phys, t0: Tab, s: Phys, t: Tab, told: Tab, hi: int, n: int)
    requires Allocated(s0, t0, s, t, CopyOf(told), 0, hi) && DataMapped(s0, t0, 0, n) && Copyable(s0, told, t0, hi) && hi <= n
    requires LeavesOnly(s0, told, n)
    ensures OwnsLeaves(s, t, 0, hi) && NoData(s0, t0.root, 0, hi) && Unmapped(s0, t0, 0, hi)
    ensures forall v | 0 <= v < hi :: IsLeaf(Leaf(s, t, v))
  {
    forall v | 0 <= v < hi ensures IsLeaf(WantFlags(s0, CopyOf(told), v)) {
      ValidIsLeaf(s0, told, n, v);
      LeafFlags(Leaf(s0, told, v));
    }
    RoomUnmapped(s0, t0, 0, hi);
    UnmappedNoData(s0, t0, 0, hi, n);
    AllocatedOwned(s0, t0, s, t, CopyOf(told), 0, hi);
  }

  /** What the clean-up call of uvmcopy finds. */
  lemma NotYet(s0: Phys, t0: Tab, s: Phys, t: Tab, c: Content, n: int)
    requires Allocated(s0, t0, s, t, c, 0, n) && 0 <= n < MAXPAGE && Leaf(s0, t0, 0) % 2 == 0
    ensures n == 0 ==> !IsLeaf(Leaf(s, t, 0)) && Pages(0, 0) > 0
    ensures n > 0 ==> Pages(0, PGSIZE * n) == EndPage(0, PGSIZE * n) == n
  {
    if n == 0 { AllocatedNow(s0, t0, s, t, c, 0, 0); }
  }
}
