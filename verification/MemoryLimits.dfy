/** Three calls that panic where one might not expect it (kernel/vm.c), each as a run from
    kinit on a small machine. */
module MemoryLimits {
  import opened PageTable
  import opened PageMemory
  import opened UserMemory
  import opened TableFree

  lemma NothingMapped(s: Phys, t: Tab, hi: int)
    requires |s.mem| == |s.role| && hi <= VPNS && forall v | 0 <= v < VPNS :: Leaf(s, t, v) == 0
    requires forall p | 0 <= p < |s.role| :: !s.role[p].Data?
    ensures OwnsLeaves(s, t, 0, hi) && DataMapped(s, t, 0, hi)
  {}

  /** At boot no page belongs to a table. */
  lemma NoTables(s: Phys)
    requires forall p | 0 <= p < |s.role| :: s.role[p].FreePage? || s.role[p].Other?
    ensures Rooted(s)
  {}

  /** A new table has no data pages. */
  lemma NoDataYet(s: Phys, s1: Phys, root: int, t: Tab)
    requires Rooted(s) && OnlyPage(s, s1, root) && t.root == root
    ensures DataMapped(s1, t, 0, 1)
  {}

  /** uvmdealloc is said to accept an old size larger than the process.  Here the process has
      no pages and the old size is one page. */
  method DeallocPanics() returns (r: Outcome)
    ensures r.Panic?
  {
    hide PhysInv, TabInv, Unmapping;
    var m := new PageMemory(PGSIZE, 4 * PGSIZE, seq(4, _ => Fill(0)));
    NoTables(m.S());
    ghost var s := m.S();
    var root, t := UvmCreate(m);
    assert OnlyPage(s, m.S(), root);
    SizeFacts(m.S());
    NothingMapped(m.S(), t, 1);
    assert NoLeaf(m.S(), t, 0);
    var sz;
    r, sz := UvmDealloc(m, root, PGSIZE, 0, t);
  }

  /** Making another table leaves the first one and its data alone. */
  lemma Beside(s: Phys, s1: Phys, t: Tab, root: int, hi: int)
    requires PhysInv(s) && PhysInv(s1) && TabInv(s, t) && OnlyPage(s, s1, root) && OwnsLeaves(s, t, 0, hi) && hi <= VPNS
    ensures t.root != root && TabInv(s1, t) && SameMap(s, t, s1, t) && OwnsLeaves(s1, t, 0, hi)
  {
    assert s.role[t.root] == Root(t.root);
    TableFrame(s, s1, t);
    forall v | 0 <= v < hi && IsLeaf(Leaf(s1, t, v)) ensures Owned(s1, t.root, v, Leaf(s1, t, v)) {
      assert Owned(s, t.root, v, Leaf(s, t, v));
    }
  }

  lemma FirstPage(s0: Phys, t0: Tab, s: Phys, t: Tab)
    requires Allocated(s0, t0, s, t, Zeros, 0, 1) && DataMapped(s0, t0, 0, 1) && Unmapped(s0, t0, 0, 1)
    ensures OwnsLeaves(s, t, 0, 1) && IsLeaf(Leaf(s, t, 0)) && TabInv(s, t) && t.root == t0.root
    ensures Rooted(s0) && s0.role[t0.root] == Root(t0.root) && 0 <= t0.root < |s.role| ==> Rooted(s)
  {
    ZerosOwned(s0, t0, s, t, 0, 1, 1);
    if Rooted(s0) && s0.role[t0.root] == Root(t0.root) {
      forall p | 0 <= p < |s.role| && (s.role[p].Root? || s.role[p].Mid? || s.role[p].Low? || s.role[p].Data?)
        ensures 0 <= s.role[p].t < |s.role| && s.role[s.role[p].t] == Root(s.role[p].t)
      {
        assert AllocAt(s0, s, t, 0, 1, p) && AllocAt(s0, s, t, 0, 1, t0.root);
        if !s0.role[p].FreePage? { assert AllocAt(s0, s, t, 0, 1, s0.role[p].t); }
      }
    }
  }

  /** The first page of a new table takes three pages of memory. */
  lemma NewNeeds(s: Phys, root: int)
    requires forall v | 0 <= v < VPNS :: Leaf(s, NewTab(root), v) == 0
    ensures NewTab(root).root == root && Need(NewTab(root), 0, 1) == 3 && AllRoom(s, NewTab(root), 0, 1)
  {
    var t := NewTab(root);
    TablesStep(t, 0, 0);
    assert Tables(t, 0, 0) == 0;
    assert !NoRoom(s, t, 0);
  }

  lemma OneCopyable(s: Phys, s1: Phys, told: Tab, tnew: Tab)
    requires SameMap(s, told, s1, told) && IsLeaf(Leaf(s, told, 0)) && AllRoom(s1, tnew, 0, 1)
    ensures Copyable(s1, told, tnew, 1) && LeavesOnly(s1, told, 1) && Leaf(s1, tnew, 0) % 2 == 0
  {
    assert !NoRoom(s1, tnew, 0);
    assert !Lacks(s1, told, 0);
  }

  /** uvmcopy is said to free what it allocated when it fails.  Here the parent's only page
      and the tables take all memory, so the first page of the child cannot be had. */
  method CopyPanics() returns (r: Outcome)
    ensures r.Panic?
  {
    hide PhysInv, TabInv, Allocated, OwnsLeaves, Rooted, IsLeaf, DataMapped, Need, AllRoom, Copyable, LeavesOnly, NoRoom, Lacks, SameMap, NewTab;
    var m := new PageMemory(PGSIZE, 6 * PGSIZE, seq(6, _ => Fill(0)));
    NoTables(m.S());
    ghost var s := m.S();
    var parent, t := UvmCreate(m);
    assert OnlyPage(s, m.S(), parent);
    SizeFacts(m.S());
    NothingMapped(m.S(), t, 1);
    ghost var s1 := m.S();
    NewNeeds(s1, parent);
    RoomUnmapped(s1, t, 0, 1);
    var sz, ok;
    ghost var told;
    ok, sz, told := UvmAlloc(m, parent, 0, PGSIZE, t);
    FirstPage(s1, t, m.S(), told);
    ghost var s2 := m.S();
    var child, tnew := UvmCreate(m);
    Beside(s2, m.S(), told, child, 1);
    NewNeeds(m.S(), child);
    NoDataYet(s2, m.S(), child, tnew);
    OneCopyable(s2, m.S(), told, tnew);
    ghost var t1, at;
    r, t1, at := UvmCopy(m, parent, child, PGSIZE, told, tnew);
  }

  /** uvmfree of a table that maps nothing, with size 0. */
  method FreePanics() returns (ok: bool)
    ensures !ok
  {
    hide PhysInv, TabInv, Unmapping;
    var m := new PageMemory(PGSIZE, 4 * PGSIZE, seq(4, _ => Fill(0)));
    NoTables(m.S());
    ghost var s := m.S();
    var root, t := UvmCreate(m);
    assert OnlyPage(s, m.S(), root);
    SizeFacts(m.S());
    NothingMapped(m.S(), t, 0);
    ok := UvmFree(m, root, 0, t);
  }
}
