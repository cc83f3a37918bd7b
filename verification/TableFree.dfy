/** freewalk and uvmfree (kernel/vm.c): taking a page table apart. */
module TableFree {
  import opened PageTable
  import opened PageMemory
  import opened UserMemory

  ghost predicate AllInvalid(s: Phys, t: Tab) {
    forall v | 0 <= v < VPNS :: Leaf(s, t, v) % 2 == 0
  }

  /** From s0 to s page p kept its use, and its contents unless it is a table page of
      root, or was a table page of root and is free. */
  ghost predicate ShrunkAt(s0: Phys, s: Phys, root: int, p: int) {
    && 0 <= p < |s0.mem| == |s.mem| == |s0.role| == |s.role|
    && (if IsTable(s0.role[p], root) then s.role[p] == s0.role[p] || s.role[p].FreePage?
        else s.role[p] == s0.role[p] && s.mem[p] == s0.mem[p])
  }

  ghost predicate Shrunk(s0: Phys, s: Phys, root: int) {
    && |s0.mem| == |s.mem| == |s0.role| == |s.role|
    && forall p | 0 <= p < |s0.mem| :: ShrunkAt(s0, s, root, p)
  }

  /** The table page of the given level and index: the root, mid[x] or low[x]. */
  ghost function Node(t: Tab, level: int, x: int): int
    requires SizedTab(t)
  {
    if level == 2 then t.root
    else if level == 1 && 0 <= x < ENTRIES then t.mid[x]
    else if level == 0 && 0 <= x < LOWS then t.low[x]
    else -1
  }

  ghost function Child(t: Tab, level: int, x: int, i: int): int
    requires SizedTab(t)
  {
    Node(t, level - 1, x * ENTRIES + i)
  }

  ghost function NodeRole(root: int, level: int, x: int): Role {
    if level == 2 then Root(root) else if level == 1 then Mid(root, x) else Low(root, x)
  }

  ghost predicate InLevel(level: int, x: int) {
    (level == 2 && x == 0) || (level == 1 && 0 <= x < ENTRIES) || (level == 0 && 0 <= x < LOWS)
  }

  /** The node has no child at the first n entries. */
  ghost predicate Childless(t: Tab, level: int, x: int, n: int)
    requires SizedTab(t)
  {
    level == 0 || forall i | 0 <= i < n :: Child(t, level, x, i) == -1
  }

  /** t1 is t after nodes below the given level may have gone. */
  ghost predicate Pruned(t: Tab, t1: Tab, level: int)
  {
    && SizedTab(t) && SizedTab(t1) && t1.root == t.root
    && (level < 2 ==> t1.mid == t.mid) && (level < 1 ==> t1.low == t.low)
    && (forall i | 0 <= i < ENTRIES :: t1.mid[i] == t.mid[i] || t1.mid[i] == -1)
    && (forall b | 0 <= b < LOWS :: t1.low[b] == t.low[b] || t1.low[b] == -1)
  }

  ghost function Without(t: Tab, level: int, x: int): Tab
    requires SizedTab(t) && InLevel(level, x)
  {
    if level == 1 then t.(mid := t.mid[x := -1])
    else if level == 0 then t.(low := t.low[x := -1]) else t
  }

  /** Entry i of a table page points to its child, or is invalid. */
  lemma EntryOf(s: Phys, t: Tab, level: int, x: int, i: int)
    requires TabInv(s, t) && AllInvalid(s, t) && InLevel(level, x) && 0 <= i < ENTRIES
    requires SizedTab(t) && Node(t, level, x) != -1
    ensures IsPage(s, Node(t, level, x), NodeRole(t.root, level, x))
    ensures
      var w := s.mem[Node(t, level, x)][i];
      if level == 0 then w % 2 == 0
      else
        var c := Child(t, level, x, i);
        && InLevel(level - 1, x * ENTRIES + i)
        && (if c == -1 then w % 2 == 0
            else w == 1024 * c + 1 && IsPage(s, c, NodeRole(t.root, level - 1, x * ENTRIES + i)))
  {
    if level == 2 {
      assert MidOk(s, t, i);
    } else if level == 1 {
      assert MidOk(s, t, x) && LowOk(s, t, x * ENTRIES + i);
    } else {
      assert LowOk(s, t, x) && MidOk(s, t, x / ENTRIES);
      EvenWord(s, t, x, i);
    }
  }

  lemma EvenWord(s: Phys, t: Tab, b: int, i: int)
    requires TabInv(s, t) && AllInvalid(s, t) && 0 <= b < LOWS && 0 <= i < ENTRIES && t.low[b] != -1
    ensures IsPage(s, t.low[b], Low(t.root, b)) && s.mem[t.low[b]][i] % 2 == 0
  {
    assert LowOk(s, t, b);
    assert Leaf(s, t, b * ENTRIES + i) % 2 == 0;
  }

  /** The state after freewalk freed the child at entry i and cleared the entry. */
  ghost function Dropped(s: Phys, t: Tab, level: int, x: int, i: int): Phys
    requires TabInv(s, t) && AllInvalid(s, t) && InLevel(level, x) && 0 <= i < ENTRIES && level > 0
    requires SizedTab(t) && Node(t, level, x) != -1 && Child(t, level, x, i) != -1
  {
    EntryOf(s, t, level, x, i);
    WithLeaf(Given(s, Child(t, level, x, i)), Node(t, level, x), i, 0)
  }

  lemma DroppedPhys(s: Phys, t: Tab, level: int, x: int, i: int)
    requires PhysInv(s) && TabInv(s, t) && AllInvalid(s, t) && InLevel(level, x) && 0 <= i < ENTRIES && level > 0
    requires SizedTab(t) && Node(t, level, x) != -1 && Child(t, level, x, i) != -1
    ensures PhysInv(Dropped(s, t, level, x, i)) && Shrunk(s, Dropped(s, t, level, x, i), t.root)
  {
    EntryOf(s, t, level, x, i);
    var c := Child(t, level, x, i);
    var p := Node(t, level, x);
    GivenKeeps(s, c);
    WriteKeeps(Given(s, c), p, Given(s, c).mem[p][i := 0]);
    var s1 := Dropped(s, t, level, x, i);
    forall q | 0 <= q < |s.mem| ensures ShrunkAt(s, s1, t.root, q) {}
  }

  lemma LowDropped(s: Phys, t: Tab, x: int, i: int)
    requires PhysInv(s) && TabInv(s, t) && AllInvalid(s, t) && 0 <= x < ENTRIES && 0 <= i < ENTRIES
    requires SizedTab(t) && t.mid[x] != -1 && t.low[x * ENTRIES + i] != -1
    ensures
      var s1 := Dropped(s, t, 1, x, i);
      var t1 := Without(t, 0, x * ENTRIES + i);
      TabInv(s1, t1) && AllInvalid(s1, t1)
  {
    var y := x * ENTRIES + i;
    EntryOf(s, t, 1, x, i);
    var s1 := Dropped(s, t, 1, x, i);
    var t1 := Without(t, 0, y);
    forall j | 0 <= j < ENTRIES ensures MidOk(s1, t1, j) {
      assert MidOk(s, t, j);
    }
    forall b | 0 <= b < LOWS ensures LowOk(s1, t1, b) {
      assert LowOk(s, t, b) && MidOk(s, t, b / ENTRIES);
    }
    forall p | 0 <= p < |s1.role| ensures Placed(t1, s1.role[p], p) {
      assert Placed(t, s.role[p], p);
    }
    forall v | 0 <= v < VPNS ensures Leaf(s1, t1, v) % 2 == 0 {
      assert LowOk(s, t, v / ENTRIES) && Leaf(s, t, v) % 2 == 0;
    }
  }

  lemma MidDropped(s: Phys, t: Tab, i: int)
    requires PhysInv(s) && TabInv(s, t) && AllInvalid(s, t) && 0 <= i < ENTRIES
    requires SizedTab(t) && t.mid[i] != -1 && Childless(t, 1, i, ENTRIES)
    ensures
      var s1 := Dropped(s, t, 2, 0, i);
      var t1 := Without(t, 1, i);
      TabInv(s1, t1) && AllInvalid(s1, t1)
  {
    EntryOf(s, t, 2, 0, i);
    var s1 := Dropped(s, t, 2, 0, i);
    var t1 := Without(t, 1, i);
    forall j | 0 <= j < ENTRIES ensures MidOk(s1, t1, j) {
      assert MidOk(s, t, j);
    }
    forall b | 0 <= b < LOWS ensures LowOk(s1, t1, b) {
      assert LowOk(s, t, b) && MidOk(s, t, b / ENTRIES);
      if b / ENTRIES == i { assert Child(t, 1, i, b % ENTRIES) == -1; }
    }
    forall p | 0 <= p < |s1.role| ensures Placed(t1, s1.role[p], p) {
      assert Placed(t, s.role[p], p);
    }
    forall v | 0 <= v < VPNS ensures Leaf(s1, t1, v) % 2 == 0 {
      assert LowOk(s, t, v / ENTRIES) && Leaf(s, t, v) % 2 == 0;
    }
  }

  lemma ChildDropped(s: Phys, t: Tab, level: int, x: int, i: int)
    requires PhysInv(s) && TabInv(s, t) && AllInvalid(s, t) && InLevel(level, x) && 0 <= i < ENTRIES && level > 0
    requires SizedTab(t) && Node(t, level, x) != -1 && Child(t, level, x, i) != -1
    requires Childless(t, level - 1, x * ENTRIES + i, ENTRIES)
    ensures InLevel(level - 1, x * ENTRIES + i)
    ensures
      var s1 := Dropped(s, t, level, x, i);
      var t1 := Without(t, level - 1, x * ENTRIES + i);
      PhysInv(s1) && TabInv(s1, t1) && AllInvalid(s1, t1) && Shrunk(s, s1, t.root)
  {
    EntryOf(s, t, level, x, i);
    if level == 2 {
      MidDropped(s, t, i);
    } else {
      LowDropped(s, t, x, i);
    }
    DroppedPhys(s, t, level, x, i);
  }

  lemma ShrunkTrans(s0: Phys, s1: Phys, s2: Phys, root: int)
    requires Shrunk(s0, s1, root) && Shrunk(s1, s2, root)
    ensures Shrunk(s0, s2, root)
  {
    forall p | 0 <= p < |s0.mem| ensures ShrunkAt(s0, s2, root, p) {
      assert ShrunkAt(s0, s1, root, p) && ShrunkAt(s1, s2, root, p);
    }
  }

  /** The bookkeeping of one more child gone. */
  lemma PrunedStep(t: Tab, t1: Tab, t2: Tab, level: int, x: int, i: int)
    requires Pruned(t, t1, level) && Pruned(t1, t2, level - 1) && InLevel(level, x) && level > 0 && 0 <= i < ENTRIES
    requires Childless(t1, level, x, i)
    ensures InLevel(level - 1, x * ENTRIES + i) && Child(t2, level, x, i) == Child(t1, level, x, i)
    ensures Node(t2, level, x) == Node(t1, level, x) == Node(t, level, x)
    ensures
      var t3 := Without(t2, level - 1, x * ENTRIES + i);
      Pruned(t, t3, level) && Childless(t3, level, x, i + 1)
  {
    var t3 := Without(t2, level - 1, x * ENTRIES + i);
    forall j | 0 <= j < i + 1 ensures Child(t3, level, x, j) == -1 {
      if j < i { assert Child(t1, level, x, j) == -1; }
    }
  }

  /** freewalk on a table page: frees everything below it, then the page itself. */
  method FreeWalk(m: PageMemory, page: int, ghost t: Tab, ghost level: int, ghost x: int)
    returns (ghost g: Phys, ghost t1: Tab)
    requires m.Valid() && TabInv(m.S(), t) && AllInvalid(m.S(), t) && InLevel(level, x)
    requires SizedTab(t) && page == Node(t, level, x) != -1
    modifies m`mem, m`head, m`free, m`role
    ensures m.Valid() && PhysInv(g) && 0 <= page < |g.mem| == |g.role| && m.S() == Given(g, page)
    ensures TabInv(g, t1) && AllInvalid(g, t1) && Pruned(t, t1, level) && SizedTab(t1) && t1.root == t.root
    ensures Childless(t1, level, x, ENTRIES) && Shrunk(old(m.S()), g, t.root)
    decreases level
  {
    hide PhysInv, TabInv, AllInvalid, Pruned, Childless, Shrunk;
    t1 := t;
    WalkStart(m.S(), t, level, x);
    var i := 0;
    while i < ENTRIES
      invariant 0 <= i <= ENTRIES
      invariant m.Valid() && TabInv(m.S(), t1) && AllInvalid(m.S(), t1) && Pruned(t, t1, level) && SizedTab(t1)
      invariant t1.root == t.root && Node(t1, level, x) == page
      invariant Childless(t1, level, x, i) && Shrunk(old(m.S()), m.S(), t.root)
    {
      EntryOf(m.S(), t1, level, x, i);
      var pte := m.mem[page][i];
      if pte % 2 == 1 && pte / 2 % 8 == 0 {
        ghost var s := m.S();
        ghost var t2;
        g, t2 := FreeWalk(m, pte / 1024, t1, level - 1, x * ENTRIES + i);
        PrunedStep(t, t1, t2, level, x, i);
        ChildDropped(g, t2, level, x, i);
        EntryOf(g, t2, level, x, i);
        m.mem := m.mem[page := m.mem[page][i := 0]];
        assert m.S() == Dropped(g, t2, level, x, i);
        ShrunkTrans(old(m.S()), s, g, t.root);
        ShrunkTrans(old(m.S()), g, m.S(), t.root);
        t1 := Without(t2, level - 1, x * ENTRIES + i);
      } else {
        assert pte % 2 == 0;
        NoChild(m.S(), t1, level, x, i);
      }
      i := i + 1;
    }
    EntryOf(m.S(), t1, level, x, 0);
    g := m.S();
    m.Kfree(page * PGSIZE);
  }

  lemma WalkStart(s: Phys, t: Tab, level: int, x: int)
    requires PhysInv(s) && TabInv(s, t) && SizedTab(t)
    ensures Pruned(t, t, level) && Childless(t, level, x, 0) && Shrunk(s, s, t.root)
  {
    forall p | 0 <= p < |s.mem| ensures ShrunkAt(s, s, t.root, p) {}
  }

  lemma NoChild(s: Phys, t: Tab, level: int, x: int, i: int)
    requires TabInv(s, t) && AllInvalid(s, t) && InLevel(level, x) && 0 <= i < ENTRIES
    requires SizedTab(t) && Node(t, level, x) != -1 && Childless(t, level, x, i)
    requires IsPage(s, Node(t, level, x), NodeRole(t.root, level, x)) && s.mem[Node(t, level, x)][i] % 2 == 0
    ensures Childless(t, level, x, i + 1)
  {
    EntryOf(s, t, level, x, i);
  }

  /** Page p went back to the allocator if it belonged to root's table, as a table page
      or as user memory; otherwise nothing happened to it. */
  ghost predicate ReclaimedAt(s0: Phys, s: Phys, root: int, p: int) {
    && 0 <= p < |s0.mem| == |s.mem| == |s0.role| == |s.role|
    && (if IsTable(s0.role[p], root) || (s0.role[p].Data? && s0.role[p].t == root) then s.role[p].FreePage?
        else s.role[p] == s0.role[p] && s.mem[p] == s0.mem[p])
  }

  lemma Reclaimed(s0: Phys, s1: Phys, g: Phys, t: Tab, t1: Tab, n: int)
    requires Unmapping(s0, s1, t, 0, n, true) && Shrunk(s1, g, t.root) && TabInv(g, t1) && t1.root == t.root
    requires Childless(t1, 2, 0, ENTRIES)
    requires forall p | 0 <= p < |s0.role| && s0.role[p].Data? && s0.role[p].t == t.root :: 0 <= s0.role[p].v < n
    ensures 0 <= t.root < |g.mem| == |g.role|
    ensures forall p | 0 <= p < |s0.mem| :: ReclaimedAt(s0, Given(g, t.root), t.root, p)
  {
    var s := Given(g, t.root);
    forall p | 0 <= p < |s0.mem| ensures ReclaimedAt(s0, s, t.root, p) {
      assert UnmappedAt(s0, s1, t.root, 0, n, p) && ShrunkAt(s1, g, t.root, p) && Placed(t1, g.role[p], p);
      if IsTable(g.role[p], t.root) { OnlyRootLeft(g, t1, p); }
    }
  }

  lemma OnlyRootLeft(g: Phys, t: Tab, p: int)
    requires TabInv(g, t) && SizedTab(t) && Childless(t, 2, 0, ENTRIES)
    requires 0 <= p < |g.role| && IsTable(g.role[p], t.root)
    ensures p == t.root
  {
    forall i | 0 <= i < ENTRIES ensures t.mid[i] == -1 {
      assert Child(t, 2, 0, i) == -1;
    }
    forall b | 0 <= b < LOWS ensures t.low[b] == -1 {
      assert LowOk(g, t, b);
    }
    assert Placed(t, g.role[p], p);
  }

  /** uvmfree: every data page and table page of the table goes back to the allocator,
      and no other page is touched.  For size 0 it panics: uvmunmap's last address wraps, and
      the first page has no leaf. */
  method UvmFree(m: PageMemory, root: int, sz: int, ghost t: Tab) returns (ok: bool)
    requires m.Valid() && TabInv(m.S(), t) && t.root == root && 0 <= sz <= MAXVA
    requires OwnsLeaves(m.S(), t, 0, PagesOf(sz))
    requires forall v | 0 <= v < VPNS :: if v < PagesOf(sz) then IsLeaf(Leaf(m.S(), t, v)) else Leaf(m.S(), t, v) % 2 == 0
    requires forall p | 0 <= p < |m.role| && m.role[p].Data? && m.role[p].t == root :: 0 <= m.role[p].v < PagesOf(sz)
    modifies m`mem, m`head, m`free, m`role
    ensures ok <==> sz > 0
    ensures ok ==> m.Valid() && forall p | 0 <= p < |m.mem| :: ReclaimedAt(old(m.S()), m.S(), root, p)
  {
    hide PhysInv, TabInv, Unmapping, OwnsLeaves, Shrunk, Pruned;
    SizeOf(sz);
    ghost var done;
    ok, done := m.UvmUnmap(root, 0, sz, true, t, PagesOf(sz));
    if !ok {
      return;
    }
    ghost var s1 := m.S();
    AllCleared(old(m.S()), s1, t, PagesOf(sz));
    ghost var g;
    ghost var t1;
    g, t1 := FreeWalk(m, root, t, 2, 0);
    Reclaimed(old(m.S()), s1, g, t, t1, PagesOf(sz));
  }

  lemma SizeOf(sz: int)
    requires 0 <= sz <= MAXVA
    ensures PagesOf(sz) <= MAXPAGE && Pages(0, sz) > 0
    ensures sz > 0 ==> 0 < PagesOf(sz) == Pages(0, sz) == EndPage(0, sz)
  {}

  lemma AllCleared(s0: Phys, s: Phys, t: Tab, n: int)
    requires Unmapping(s0, s, t, 0, n, true) && forall v | n <= v < VPNS :: Leaf(s0, t, v) % 2 == 0
    ensures TabInv(s, t) && AllInvalid(s, t) && SizedTab(t) && t.root > 0
    ensures |s0.mem| == |s.mem| == |s0.role| == |s.role|
  {}
}
