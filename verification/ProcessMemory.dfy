/** A process's memory as growproc and fork leave it (kernel/proc.c): a process of sz bytes has
    exactly the pages below sz mapped, each to a data page of its own. */
module ProcessMemory {
  import opened PageTable
  import opened PageMemory
  import opened UserMemory

  const UINT32 := 0x1_0000_0000
  const USERPAGES := 0x10_0000     // page numbers of 32-bit addresses

  /** The pages of the first sz bytes, and no others below 2^32, are mapped, each by a leaf. */
  ghost predicate MapsSize(s: Phys, t: Tab, sz: int) {
    forall v | 0 <= v < USERPAGES :: if v < PagesOf(sz) then IsLeaf(Leaf(s, t, v)) else Leaf(s, t, v) % 2 == 0
  }

  ghost predicate ProcInv(s: Phys, t: Tab, sz: int) {
    0 <= sz < UINT32 && TabInv(s, t) && MapsSize(s, t, sz) && OwnsLeaves(s, t, 0, USERPAGES) && DataMapped(s, t, 0, USERPAGES)
  }

  /** PGROUNDUP is the least multiple of the page size that is not below its argument, as long as
      that is a 64-bit number. */
  lemma RoundUpLeast(a: int)
    requires 0 <= a <= UINT64 - PGSIZE
    ensures RoundUp(a) % PGSIZE == 0 && a <= RoundUp(a) < a + PGSIZE && RoundUp(a) / PGSIZE == PagesOf(a)
  {
    assert (a + PGSIZE - 1) % UINT64 == a + PGSIZE - 1;
  }

  lemma PagesMono(a: int, b: int)
    requires 0 <= a <= b < UINT32
    ensures 0 <= PagesOf(a) <= PagesOf(b) <= USERPAGES
  {}

  // ---- growing ----

  /** A page outside what was allocated has the translation it had. */
  lemma LeafKept(s0: Phys, t0: Tab, s: Phys, t: Tab, c: Content, lo: int, hi: int, v: int)
    requires Allocated(s0, t0, s, t, c, lo, hi) && 0 <= v < VPNS && !(lo <= v < hi)
    ensures Leaf(s, t, v) % 2 == Leaf(s0, t0, v) % 2
    ensures Leaf(s0, t0, v) % 2 == 1 ==> Leaf(s, t, v) == Leaf(s0, t0, v)
  {
    assert Trans(Leaf(s, t, v)) == Trans(Leaf(s0, t0, v));
  }

  lemma OwnsMore(s0: Phys, t0: Tab, s: Phys, t: Tab, c: Content, lo: int, hi: int)
    requires Allocated(s0, t0, s, t, c, lo, hi) && OwnsLeaves(s0, t0, 0, USERPAGES) && DataMapped(s0, t0, 0, USERPAGES)
    requires 0 <= lo <= hi <= USERPAGES && Unmapped(s0, t0, lo, hi) && forall v | lo <= v < hi :: IsLeaf(WantFlags(s0, c, v))
    ensures OwnsLeaves(s, t, 0, USERPAGES) && DataMapped(s, t, 0, USERPAGES)
  {
    UnmappedNoData(s0, t0, lo, hi, USERPAGES);
    AllocatedOwned(s0, t0, s, t, c, lo, hi);
    hide WantFlags, WantPage, TabInv, Leaf, IsLeaf;
    forall v | 0 <= v < USERPAGES && IsLeaf(Leaf(s, t, v)) ensures Owned(s, t.root, v, Leaf(s, t, v)) {
      if !(lo <= v < hi) { OwnedKept(s0, t0, s, t, c, lo, hi, v); }
    }
    forall p | 0 <= p < |s.mem| && s.role[p].Data? && s.role[p].t == t.root && 0 <= s.role[p].v < USERPAGES
      ensures p == Leaf(s, t, s.role[p].v) / 1024 && Leaf(s, t, s.role[p].v) % 2 == 1
    {
      var v := s.role[p].v;
      assert AllocAt(s0, s, t, lo, hi, p);
      if lo <= v < hi {
        assert IsLeaf(Leaf(s, t, v));
        LeafIsValid(Leaf(s, t, v));
      } else {
        LeafKept(s0, t0, s, t, c, lo, hi, v);
      }
    }
  }

  lemma OwnedKept(s0: Phys, t0: Tab, s: Phys, t: Tab, c: Content, lo: int, hi: int, v: int)
    requires Allocated(s0, t0, s, t, c, lo, hi) && OwnsLeaves(s0, t0, 0, USERPAGES) && 0 <= v < USERPAGES && !(lo <= v < hi)
    requires IsLeaf(Leaf(s, t, v))
    ensures Owned(s, t.root, v, Leaf(s, t, v))
  {
    LeafKept(s0, t0, s, t, c, lo, hi, v);
    LeafIsValid(Leaf(s, t, v));
    OwnsLeaf(s0, t0, 0, USERPAGES, v);
    assert AllocAt(s0, s, t, lo, hi, Leaf(s, t, v) / 1024);
  }

  /** Fresh pages for the bytes from sz to sz1. */
  lemma GrownProc(s0: Phys, t0: Tab, s: Phys, t: Tab, c: Content, sz: int, sz1: int)
    requires ProcInv(s0, t0, sz) && 0 <= sz <= sz1 < UINT32
    requires Allocated(s0, t0, s, t, c, PagesOf(sz), PagesOf(sz1))
    requires forall v | PagesOf(sz) <= v < PagesOf(sz1) :: IsLeaf(WantFlags(s0, c, v))
    ensures ProcInv(s, t, sz1)
  {
    hide TabInv, Leaf, OwnsLeaves, DataMapped, WantFlags, WantPage;
    var lo, hi := PagesOf(sz), PagesOf(sz1);
    PagesMono(sz, sz1);
    AllocatedTab(s0, t0, s, t, c, lo, hi);
    OwnsMore(s0, t0, s, t, c, lo, hi);
    forall v | 0 <= v < USERPAGES ensures if v < hi then IsLeaf(Leaf(s, t, v)) else Leaf(s, t, v) % 2 == 0 {
      if lo <= v < hi {
        assert Fresh(s0, s, t.root, c, v, Leaf(s, t, v));
        LeafFlags(Leaf(s, t, v));
      } else {
        LeafKept(s0, t0, s, t, c, lo, hi, v);
        LeafIsValid(Leaf(s0, t0, v));
      }
    }
  }

  /** Nothing was kept. */
  lemma SameProc(s0: Phys, t0: Tab, s: Phys, t: Tab, sz: int, c: Content, lo: int)
    requires ProcInv(s0, t0, sz) && Allocated(s0, t0, s, t, c, lo, lo) && 0 <= lo <= USERPAGES
    ensures ProcInv(s, t, sz)
  {
    hide TabInv, Leaf, OwnsLeaves, DataMapped;
    AllocatedTab(s0, t0, s, t, c, lo, lo);
    OwnsMore(s0, t0, s, t, c, lo, lo);
    forall v | 0 <= v < USERPAGES ensures if v < PagesOf(sz) then IsLeaf(Leaf(s, t, v)) else Leaf(s, t, v) % 2 == 0 {
      LeafKept(s0, t0, s, t, c, lo, lo, v);
      LeafIsValid(Leaf(s0, t0, v));
    }
  }

  /** Room for the pages that a process of sz bytes does not have. */
  lemma RoomAbove(s: Phys, t: Tab, sz: int, hi: int)
    requires MapsSize(s, t, sz) && hi <= USERPAGES && 0 <= sz
    ensures AllRoom(s, t, PagesOf(sz), hi)
  {
    forall v | PagesOf(sz) <= v < hi ensures !NoRoom(s, t, v) {}
  }

  lemma FewerMapped(s: Phys, t: Tab, n: int)
    requires DataMapped(s, t, 0, USERPAGES) && n <= USERPAGES
    ensures forall lo | 0 <= lo :: DataMapped(s, t, lo, n)
  {}

  // ---- shrinking ----

  lemma OwnsLess(s0: Phys, s: Phys, t: Tab, lo: int, hi: int)
    requires Unmapping(s0, s, t, lo, hi, true) && OwnsLeaves(s0, t, 0, USERPAGES) && DataMapped(s0, t, 0, USERPAGES)
    requires 0 <= lo <= hi <= USERPAGES
    ensures OwnsLeaves(s, t, 0, USERPAGES) && DataMapped(s, t, 0, USERPAGES)
  {
    hide TabInv, IsLeaf, Leaf;
    forall v | 0 <= v < USERPAGES && IsLeaf(Leaf(s, t, v)) ensures Owned(s, t.root, v, Leaf(s, t, v)) {
      LeafIsValid(Leaf(s, t, v));
      OwnsLeaf(s0, t, 0, USERPAGES, v);
      FreedPage(s0, s, t, lo, hi, Leaf(s, t, v) / 1024);
    }
    forall p | 0 <= p < |s.mem| && s.role[p].Data? && s.role[p].t == t.root && 0 <= s.role[p].v < USERPAGES
      ensures p == Leaf(s, t, s.role[p].v) / 1024 && Leaf(s, t, s.role[p].v) % 2 == 1
    {
      FreedPage(s0, s, t, lo, hi, p);
    }
  }

  lemma FreedPage(s0: Phys, s: Phys, t: Tab, lo: int, hi: int, p: int)
    requires Unmapping(s0, s, t, lo, hi, true) && 0 <= p < |s.mem|
    ensures UnmappedAt(s0, s, t.root, lo, hi, p)
  {}

  lemma ShrunkProc(s0: Phys, s: Phys, t: Tab, sz: int, sz1: int)
    requires ProcInv(s0, t, sz) && 0 <= sz1 <= sz && Unmapping(s0, s, t, PagesOf(sz1), PagesOf(sz), true)
    ensures ProcInv(s, t, sz1)
  {
    hide TabInv, Leaf, OwnsLeaves, DataMapped, IsLeaf;
    PagesMono(sz1, sz);
    OwnsLess(s0, s, t, PagesOf(sz1), PagesOf(sz));
    forall v | 0 <= v < USERPAGES ensures if v < PagesOf(sz1) then IsLeaf(Leaf(s, t, v)) else Leaf(s, t, v) % 2 == 0 {}
  }

  lemma OwnsPart(s: Phys, t: Tab, lo: int, hi: int)
    requires OwnsLeaves(s, t, 0, USERPAGES) && 0 <= lo && hi <= USERPAGES
    ensures OwnsLeaves(s, t, lo, hi)
  {}

  lemma NoLeafAbove(s: Phys, t: Tab, sz: int)
    requires MapsSize(s, t, sz) && 0 <= sz < UINT32
    ensures forall v | 0 <= v < PagesOf(sz) :: !NoLeaf(s, t, v)
  {
    PagesMono(sz, sz);
    forall v | 0 <= v < PagesOf(sz) ensures !NoLeaf(s, t, v) {}
  }

  // ---- growproc ----

  /** growproc: the process has sz + n bytes, all zeros above sz, or what it had if the 32-bit sum
      wraps or memory is short, which alone is an error.  It never panics. */
  method GrowProc(m: PageMemory, root: int, sz: int, n: int, ghost t: Tab) returns (r: int, sz1: int, ghost t1: Tab)
    requires m.Valid() && ProcInv(m.S(), t, sz) && t.root == root && -0x8000_0000 <= n < 0x8000_0000
    modifies m`mem, m`head, m`free, m`role
    ensures m.Valid() && ProcInv(m.S(), t1, sz1) && t1.root == root
    ensures r == -1 <==> n > 0 && sz + n < UINT32 && |old(m.free)| < Need(t, PagesOf(sz), PagesOf(sz + n))
    ensures r != -1 ==> r == 0 && sz1 == if 0 <= sz + n < UINT32 then sz + n else sz
    ensures r == -1 ==> sz1 == sz
    ensures sz1 > sz ==>
      && Allocated(old(m.S()), t, m.S(), t1, Zeros, PagesOf(sz), PagesOf(sz1))
      && |m.free| == |old(m.free)| - Need(t, PagesOf(sz), PagesOf(sz1))
    ensures sz1 < sz ==>
      && Unmapping(old(m.S()), m.S(), t, PagesOf(sz1), PagesOf(sz), true)
      && |m.free| == |old(m.free)| + PagesOf(sz) - PagesOf(sz1)
  {
    hide PhysInv, TabInv, Allocated, Unmapping, OwnsLeaves, DataMapped, MapsSize, Need, AllRoom, NoLeaf, Leaf, FirstTaken;
    ghost var s0 := m.S();
    t1 := t;
    var want := (sz + n) % UINT32;
    RoundUpLeast(sz);
    RoundUpLeast(want);
    PagesMono(sz, sz);
    PagesMono(want, want);
    if n > 0 {
      RoomAbove(s0, t, sz, PagesOf(want));
      FewerMapped(s0, t, PagesOf(want));
      AllRoomNone(s0, t, PagesOf(sz), PagesOf(want));
      var o;
      o, sz1, t1 := UvmAlloc(m, root, sz, want, t);
      if want >= sz { PagesMono(sz, want); }
      if o.Failure? {
        SameProc(s0, t, m.S(), t1, sz, Zeros, PagesOf(sz));
        AllocatedTab(s0, t, m.S(), t1, Zeros, PagesOf(sz), PagesOf(sz));
        return -1, sz, t1;
      }
      if want >= sz {
        GrownProc(s0, t, m.S(), t1, Zeros, sz, want);
        AllocatedTab(s0, t, m.S(), t1, Zeros, PagesOf(sz), PagesOf(want));
      }
    } else if n < 0 {
      OwnsPart(s0, t, PagesOf(want), PagesOf(sz));
      NoLeafAbove(s0, t, sz);
      var o;
      o, sz1 := UvmDealloc(m, root, sz, want, t);
      if want < sz {
        PagesMono(want, sz);
        ShrunkProc(s0, m.S(), t, sz, want);
      } else {
        NothingUnmapped(s0, m.S(), t, PagesOf(want), sz);
      }
    } else {
      sz1 := sz;
    }
    r := 0;
  }

  lemma AllRoomNone(s: Phys, t: Tab, lo: int, hi: int)
    requires AllRoom(s, t, lo, hi)
    ensures forall v :: FirstTaken(s, t, lo, v) ==> v >= hi
  {}

  lemma NothingUnmapped(s0: Phys, s: Phys, t: Tab, lo: int, sz: int)
    requires ProcInv(s0, t, sz) && Unmapping(s0, s, t, lo, lo, true) && 0 <= lo <= USERPAGES
    ensures ProcInv(s, t, sz)
  {
    hide TabInv, Leaf, OwnsLeaves, DataMapped, IsLeaf;
    OwnsLess(s0, s, t, lo, lo);
    forall v | 0 <= v < USERPAGES ensures Leaf(s, t, v) == Leaf(s0, t, v) {}
  }

  // ---- fork ----

  /** Allocating for one process leaves another as it was. */
  lemma OtherProc(s0: Phys, t0: Tab, s: Phys, t: Tab, c: Content, lo: int, hi: int, told: Tab, sz: int)
    requires Allocated(s0, t0, s, t, c, lo, hi) && PhysInv(s0) && PhysInv(s) && told.root != t0.root && ProcInv(s0, told, sz)
    ensures ProcInv(s, told, sz)
  {
    AllocatedElsewhere(s0, t0, s, t, c, lo, hi, told);
    hide TabInv, Leaf, IsLeaf, PhysInv, WantFlags, WantPage;
    forall v | 0 <= v < USERPAGES ensures Leaf(s, told, v) == Leaf(s0, told, v) { SameLeaf(s0, told, s, told, v); }
    forall v | 0 <= v < USERPAGES && IsLeaf(Leaf(s, told, v)) ensures Owned(s, told.root, v, Leaf(s, told, v)) {
      OwnsLeaf(s0, told, 0, USERPAGES, v);
    }
    forall p | 0 <= p < |s.mem| && s.role[p].Data? && s.role[p].t == told.root && 0 <= s.role[p].v < USERPAGES
      ensures p == Leaf(s, told, s.role[p].v) / 1024 && Leaf(s, told, s.role[p].v) % 2 == 1
    {
      assert AllocAt(s0, s, t, lo, hi, p);
    }
  }

  lemma CopyReady(s: Phys, told: Tab, tnew: Tab, sz: int)
    requires ProcInv(s, told, sz) && ProcInv(s, tnew, 0)
    ensures LeavesOnly(s, told, PagesOf(sz)) && Copyable(s, told, tnew, PagesOf(sz)) && Leaf(s, tnew, 0) % 2 == 0
    ensures OwnsLeaves(s, told, 0, PagesOf(sz)) && DataMapped(s, tnew, 0, PagesOf(sz))
    ensures forall v | 0 <= v < PagesOf(sz) :: IsLeaf(WantFlags(s, CopyOf(told), v))
  {
    PagesMono(sz, sz);
    OwnsPart(s, told, 0, PagesOf(sz));
    RoomAbove(s, tnew, 0, PagesOf(sz));
    forall v | 0 <= v < PagesOf(sz) ensures !Lacks(s, told, v) && IsLeaf(WantFlags(s, CopyOf(told), v)) {
      LeafIsValid(Leaf(s, told, v));
      LeafFlags(Leaf(s, told, v));
    }
  }

  /** fork's copy of the parent's memory into a new process: the parent is as it was, and the child
      has its size with its own copy of every page, or nothing if memory is short.  When memory
      is too short for the first page and its tables, and only then, it panics. */
  method ForkMemory(m: PageMemory, oldRoot: int, newRoot: int, sz: int, ghost told: Tab, ghost tnew: Tab)
    returns (r: Outcome, ghost t1: Tab)
    requires m.Valid() && ProcInv(m.S(), told, sz) && told.root == oldRoot
    requires ProcInv(m.S(), tnew, 0) && tnew.root == newRoot && oldRoot != newRoot
    modifies m`mem, m`head, m`free, m`role
    ensures r.Panic? <==> sz > 0 && |old(m.free)| < Need(tnew, 0, 1)
    ensures r.Success? <==> |old(m.free)| >= Need(tnew, 0, PagesOf(sz))
    ensures !r.Panic? ==> m.Valid() && ProcInv(m.S(), told, sz) && ProcInv(m.S(), t1, if r.Success? then sz else 0)
    ensures r.Success? ==> |m.free| == |old(m.free)| - Need(tnew, 0, PagesOf(sz))
    ensures r.Success? ==> forall v | 0 <= v < PagesOf(sz) :: Fresh(old(m.S()), m.S(), newRoot, CopyOf(told), v, Leaf(m.S(), t1, v))
  {
    hide PhysInv, TabInv, Allocated, OwnsLeaves, DataMapped, MapsSize, Need, Copyable, LeavesOnly, Leaf, Fresh, WantFlags, IsLeaf;
    ghost var s0 := m.S();
    CopyReady(s0, told, tnew, sz);
    ghost var at;
    r, t1, at := UvmCopy(m, oldRoot, newRoot, sz, told, tnew);
    if !r.Panic? {
      OtherProc(s0, tnew, m.S(), t1, CopyOf(told), 0, if r.Success? then at else 0, told, sz);
      if r.Success? {
        GrownProc(s0, tnew, m.S(), t1, CopyOf(told), 0, sz);
        Copies(s0, tnew, m.S(), t1, told, PagesOf(sz));
      } else {
        SameProc(s0, tnew, m.S(), t1, 0, CopyOf(told), 0);
      }
    }
  }

  lemma Copies(s0: Phys, t0: Tab, s: Phys, t: Tab, told: Tab, n: int)
    requires Allocated(s0, t0, s, t, CopyOf(told), 0, n)
    ensures forall v | 0 <= v < n :: Fresh(s0, s, t0.root, CopyOf(told), v, Leaf(s, t, v))
  {}
}
