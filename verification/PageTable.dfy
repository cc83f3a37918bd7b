/** Sv39 page tables kept in allocated pages (kernel/vm.c, kernel/kalloc.c,
    kernel/riscv.h; section 4.4 of the RISC-V Privileged Architecture, version 20190608):
    the tree of table pages, the free list threaded through free pages, and the finite
    map from page numbers to PTEs that the tree stands for.

    Physical page p holds addresses 4096*p to 4096*p+4095, as 512 words of 64 bits.
    A PTE is 1024 * (physical page number) + flags. */
module PageTable {

  const PGSIZE := 4096
  const ENTRIES := 512
  const LOWS := 0x4_0000           // last-level tables under one root: 512 * 512
  const VPNS := 0x800_0000         // page numbers of 39-bit addresses
  const MAXVA := 0x40_0000_0000    // the kernel uses 38 of the 39 bits

  /** What a physical page is used for; `t` is the root page of the table it belongs to. */
  datatype Role =
    | FreePage(k: int)             // at depth k of the free list, 0 being the last to go
    | Root(t: int)
    | Mid(t: int, i: int)          // second-level table for root entry i
    | Low(t: int, b: int)          // last-level table for page numbers 512*b .. 512*b+511
    | Data(t: int, v: int)         // user memory mapped at page number v
    | Other

  /** Physical memory, the head of the free list, its pages from the last to the first
      to be handed out, and the use of every page. */
  datatype Phys = Phys(mem: seq<seq<int>>, head: int, free: seq<int>, role: seq<Role>)

  /** The table pages of one page table: mid[i] and low[b] are page numbers, or -1. */
  datatype Tab = Tab(root: int, mid: seq<int>, low: seq<int>)

  predicate IsTable(r: Role, root: int) {
    (r.Root? || r.Mid? || r.Low?) && r.t == root
  }

  function Fill(w: int): seq<int> {
    seq(ENTRIES, _ => w)
  }

  // ---- physical pages and the free list ----

  ghost predicate Shaped(s: Phys) {
    |s.role| == |s.mem| && forall p | 0 <= p < |s.mem| :: |s.mem[p]| == ENTRIES
  }

  ghost predicate IsFree(s: Phys, p: int, k: int) {
    0 < p < |s.mem| && |s.role| == |s.mem| && s.role[p] == FreePage(k) && |s.mem[p]| == ENTRIES
  }

  function LinkTo(free: seq<int>, k: int): int
    requires 0 <= k <= |free|
  {
    if k == 0 then 0 else PGSIZE * free[k - 1]
  }

  ghost predicate Linked(s: Phys, k: int) {
    && 0 <= k < |s.free| && 0 <= s.free[k] < |s.mem| && |s.mem[s.free[k]]| == ENTRIES
    && s.mem[s.free[k]][0] == LinkTo(s.free, k)
  }

  /** The list reached from the head through first words is the free pages, once each. */
  ghost predicate PhysInv(s: Phys) {
    && Shaped(s)
    && (forall k | 0 <= k < |s.free| :: IsFree(s, s.free[k], k))
    && (forall k | 0 <= k < |s.free| :: Linked(s, k))
    && (forall p | 0 <= p < |s.role| :: s.role[p].FreePage? ==> 0 <= s.role[p].k < |s.free| && s.free[s.role[p].k] == p)
    && s.head == LinkTo(s.free, |s.free|)
  }

  /** kalloc: the head page, filled with 5s, now used as r. */
  function Taken(s: Phys, r: Role): Phys
    requires |s.free| > 0 && 0 <= s.free[|s.free| - 1] < |s.mem| == |s.role| && |s.mem[s.free[|s.free| - 1]]| == ENTRIES
  {
    var p := s.free[|s.free| - 1];
    Phys(s.mem[p := Fill(0x0505_0505_0505_0505)], s.mem[p][0], s.free[..|s.free| - 1], s.role[p := r])
  }

  /** kfree: page p, filled with 1s and linked in front of the list. */
  function Given(s: Phys, p: int): Phys
    requires 0 <= p < |s.mem| == |s.role|
  {
    Phys(s.mem[p := Fill(0x0101_0101_0101_0101)[0 := s.head]], PGSIZE * p, s.free + [p],
         s.role[p := FreePage(|s.free|)])
  }

  lemma TakenLink(s: Phys, r: Role, k: int)
    requires PhysInv(s) && 0 <= k < |s.free| - 1 && IsFree(s, s.free[|s.free| - 1], |s.free| - 1)
    ensures IsFree(Taken(s, r), s.free[k], k) && Linked(Taken(s, r), k)
  {
    assert IsFree(s, s.free[k], k) && Linked(s, k);
  }

  lemma TopIsFree(s: Phys)
    requires PhysInv(s) && |s.free| > 0
    ensures IsFree(s, s.free[|s.free| - 1], |s.free| - 1) && Linked(s, |s.free| - 1) && Shaped(s)
  {}

  lemma TakenPage(s: Phys, r: Role, q: int)
    requires PhysInv(s) && |s.free| > 0 && !r.FreePage? && IsFree(s, s.free[|s.free| - 1], |s.free| - 1)
    requires 0 <= q < |s.role| && Taken(s, r).role[q].FreePage?
    ensures 0 <= Taken(s, r).role[q].k < |s.free| - 1 && s.free[Taken(s, r).role[q].k] == q
  {}

  lemma TakenKeeps(s: Phys, r: Role)
    requires PhysInv(s) && |s.free| > 0 && !r.FreePage?
    ensures IsFree(s, s.free[|s.free| - 1], |s.free| - 1)
    ensures PhysInv(Taken(s, r))
  {
    TopIsFree(s);
    var s1 := Taken(s, r);
    assert Shaped(s1);
    assert s1.head == LinkTo(s1.free, |s1.free|);
    assert PhysInv(s1) by {
      hide IsFree, Linked, LinkTo, Shaped;
      forall k | 0 <= k < |s1.free| ensures IsFree(s1, s1.free[k], k) && Linked(s1, k) {
        TakenLink(s, r, k);
      }
      forall q | 0 <= q < |s1.role| && s1.role[q].FreePage?
        ensures 0 <= s1.role[q].k < |s1.free| && s1.free[s1.role[q].k] == q
      {
        TakenPage(s, r, q);
      }
    }
  }

  lemma GivenKeeps(s: Phys, p: int)
    requires PhysInv(s) && 0 < p < |s.mem| && !s.role[p].FreePage?
    ensures PhysInv(Given(s, p))
  {
    var s1 := Given(s, p);
    forall k | 0 <= k < |s1.free|
      ensures IsFree(s1, s1.free[k], k) && Linked(s1, k)
    {
      if k < |s.free| { assert IsFree(s, s.free[k], k) && Linked(s, k); }
    }
  }

  /** Writing a page that is not free leaves the free list alone. */
  lemma WriteKeeps(s: Phys, p: int, page: seq<int>)
    requires PhysInv(s) && 0 <= p < |s.mem| && !s.role[p].FreePage? && |page| == ENTRIES
    ensures PhysInv(s.(mem := s.mem[p := page]))
  {
    var s1 := s.(mem := s.mem[p := page]);
    forall k | 0 <= k < |s1.free|
      ensures IsFree(s1, s1.free[k], k) && Linked(s1, k)
    {
      assert IsFree(s, s.free[k], k) && Linked(s, k);
    }
  }

  // ---- the tree of table pages ----

  ghost predicate IsPage(s: Phys, p: int, r: Role) {
    0 < p < |s.mem| == |s.role| && |s.mem[p]| == ENTRIES && s.role[p] == r
  }

  ghost predicate SizedTab(t: Tab) {
    |t.mid| == ENTRIES && |t.low| == LOWS
  }

  ghost predicate MidOk(s: Phys, t: Tab, i: int)
    requires IsPage(s, t.root, Root(t.root)) && SizedTab(t) && 0 <= i < ENTRIES
  {
    if t.mid[i] == -1 then s.mem[t.root][i] % 2 == 0
    else IsPage(s, t.mid[i], Mid(t.root, i)) && s.mem[t.root][i] == 1024 * t.mid[i] + 1
  }

  ghost predicate LowOk(s: Phys, t: Tab, b: int)
    requires SizedTab(t) && 0 <= b < LOWS
  {
    var m := t.mid[b / ENTRIES];
    if m == -1 then t.low[b] == -1
    else
      && IsPage(s, m, Mid(t.root, b / ENTRIES))
      && (if t.low[b] == -1 then s.mem[m][b % ENTRIES] % 2 == 0
          else IsPage(s, t.low[b], Low(t.root, b)) && s.mem[m][b % ENTRIES] == 1024 * t.low[b] + 1)
  }

  /** A page used as a table page of t is where t says. */
  ghost predicate Placed(t: Tab, r: Role, p: int)
    requires SizedTab(t)
  {
    match r
    case Root(x) => x == t.root ==> p == t.root
    case Mid(x, i) => x == t.root ==> 0 <= i < ENTRIES && t.mid[i] == p
    case Low(x, b) => x == t.root ==> 0 <= b < LOWS && t.low[b] == p
    case _ => true
  }

  ghost predicate TabInv(s: Phys, t: Tab) {
    && SizedTab(t)
    && IsPage(s, t.root, Root(t.root))
    && (forall i | 0 <= i < ENTRIES :: MidOk(s, t, i))
    && (forall b | 0 <= b < LOWS :: LowOk(s, t, b))
    && (forall p | 0 <= p < |s.role| :: Placed(t, s.role[p], p))
  }

  /** The PTE for page number v; 0 when there is no last-level table for it. */
  ghost function Leaf(s: Phys, t: Tab, v: int): int {
    if 0 <= v < VPNS && |t.low| == LOWS && 0 <= t.low[v / ENTRIES] < |s.mem| && |s.mem[t.low[v / ENTRIES]]| == ENTRIES
    then s.mem[t.low[v / ENTRIES]][v % ENTRIES] else 0
  }

  ghost predicate SameMap(s0: Phys, t0: Tab, s1: Phys, t1: Tab) {
    forall v | 0 <= v < VPNS :: Leaf(s1, t1, v) == Leaf(s0, t0, v)
  }

  /** A table none of whose pages changed is unchanged, whatever happened elsewhere. */
  lemma TableFrame(s0: Phys, s1: Phys, t: Tab)
    requires TabInv(s0, t) && Shaped(s0) && Shaped(s1) && |s1.mem| == |s0.mem|
    requires forall p | 0 <= p < |s0.mem| && (IsTable(s0.role[p], t.root) || IsTable(s1.role[p], t.root))
      :: s1.role[p] == s0.role[p] && s1.mem[p] == s0.mem[p]
    ensures TabInv(s1, t) && SameMap(s0, t, s1, t)
  {
    assert s1.role[t.root] == s0.role[t.root];
    forall i | 0 <= i < ENTRIES ensures MidOk(s1, t, i) {
      assert MidOk(s0, t, i);
    }
    forall b | 0 <= b < LOWS ensures LowOk(s1, t, b) {
      assert LowOk(s0, t, b) && MidOk(s0, t, b / ENTRIES);
    }
    forall p | 0 <= p < |s1.role| ensures Placed(t, s1.role[p], p) {
      assert Placed(t, s0.role[p], p);
    }
    forall v | 0 <= v < VPNS ensures Leaf(s1, t, v) == Leaf(s0, t, v) {
      assert LowOk(s0, t, v / ENTRIES) && MidOk(s0, t, v / ENTRIES / ENTRIES);
    }
  }

  // ---- growing the tree: the two allocations in walk ----

  /** Page p, zeroed, becomes the second-level table for root entry i. */
  function WithMid(s: Phys, t: Tab, i: int): Phys
    requires |s.free| > 0 && 0 <= s.free[|s.free| - 1] < |s.mem| == |s.role| && |s.mem[s.free[|s.free| - 1]]| == ENTRIES
    requires 0 <= t.root < |s.mem| && |s.mem[t.root]| == ENTRIES && 0 <= i < ENTRIES
    requires s.free[|s.free| - 1] != t.root
  {
    var p := s.free[|s.free| - 1];
    var s1 := Taken(s, Mid(t.root, i));
    s1.(mem := s1.mem[p := Fill(0)][t.root := s1.mem[t.root][i := 1024 * p + 1]])
  }

  lemma MidAdded(s: Phys, t: Tab, i: int)
    requires PhysInv(s) && TabInv(s, t) && |s.free| > 0 && 0 <= i < ENTRIES && t.mid[i] == -1
    ensures IsFree(s, s.free[|s.free| - 1], |s.free| - 1) && s.free[|s.free| - 1] != t.root
    ensures
      var t1 := t.(mid := t.mid[i := s.free[|s.free| - 1]]);
      PhysInv(WithMid(s, t, i)) && TabInv(WithMid(s, t, i), t1) && SameMap(s, t, WithMid(s, t, i), t1)
  {
    TakenKeeps(s, Mid(t.root, i));
    var p := s.free[|s.free| - 1];
    var s1 := Taken(s, Mid(t.root, i));
    WriteKeeps(s1, p, Fill(0));
    WriteKeeps(s1.(mem := s1.mem[p := Fill(0)]), t.root, s1.mem[t.root][i := 1024 * p + 1]);
    MidAddedTree(s, t, i);
  }

  lemma MidAddedTree(s: Phys, t: Tab, i: int)
    requires Shaped(s) && TabInv(s, t) && |s.free| > 0 && 0 <= i < ENTRIES && t.mid[i] == -1
    requires IsFree(s, s.free[|s.free| - 1], |s.free| - 1) && s.free[|s.free| - 1] != t.root
    ensures
      var t1 := t.(mid := t.mid[i := s.free[|s.free| - 1]]);
      TabInv(WithMid(s, t, i), t1) && SameMap(s, t, WithMid(s, t, i), t1)
  {
    var p := s.free[|s.free| - 1];
    var s2 := WithMid(s, t, i);
    var t1 := t.(mid := t.mid[i := p]);
    forall j | 0 <= j < ENTRIES ensures MidOk(s2, t1, j) {
      assert MidOk(s, t, j);
    }
    forall b | 0 <= b < LOWS ensures LowOk(s2, t1, b) {
      assert LowOk(s, t, b) && MidOk(s, t, b / ENTRIES);
    }
    forall q | 0 <= q < |s2.role| ensures Placed(t1, s2.role[q], q) {
      assert Placed(t, s.role[q], q);
    }
    forall v | 0 <= v < VPNS ensures Leaf(s2, t1, v) == Leaf(s, t, v) {
      assert LowOk(s, t, v / ENTRIES) && MidOk(s, t, v / ENTRIES / ENTRIES);
    }
  }

  /** Page p, zeroed, becomes the last-level table b. */
  function WithLow(s: Phys, t: Tab, b: int): Phys
    requires |s.free| > 0 && 0 <= s.free[|s.free| - 1] < |s.mem| == |s.role| && |s.mem[s.free[|s.free| - 1]]| == ENTRIES
    requires |t.mid| == ENTRIES && 0 <= b < LOWS
    requires 0 <= t.mid[b / ENTRIES] < |s.mem| && |s.mem[t.mid[b / ENTRIES]]| == ENTRIES
    requires s.free[|s.free| - 1] != t.mid[b / ENTRIES]
  {
    var p := s.free[|s.free| - 1];
    var m := t.mid[b / ENTRIES];
    var s1 := Taken(s, Low(t.root, b));
    s1.(mem := s1.mem[p := Fill(0)][m := s1.mem[m][b % ENTRIES := 1024 * p + 1]])
  }

  lemma LowAdded(s: Phys, t: Tab, b: int)
    requires PhysInv(s) && TabInv(s, t) && |s.free| > 0 && 0 <= b < LOWS && t.mid[b / ENTRIES] != -1 && t.low[b] == -1
    ensures IsPage(s, t.mid[b / ENTRIES], Mid(t.root, b / ENTRIES))
    ensures IsFree(s, s.free[|s.free| - 1], |s.free| - 1) && s.free[|s.free| - 1] != t.mid[b / ENTRIES]
    ensures
      var t1 := t.(low := t.low[b := s.free[|s.free| - 1]]);
      PhysInv(WithLow(s, t, b)) && TabInv(WithLow(s, t, b), t1) && SameMap(s, t, WithLow(s, t, b), t1)
  {
    TakenKeeps(s, Low(t.root, b));
    assert LowOk(s, t, b);
    var p := s.free[|s.free| - 1];
    var m := t.mid[b / ENTRIES];
    var s1 := Taken(s, Low(t.root, b));
    WriteKeeps(s1, p, Fill(0));
    WriteKeeps(s1.(mem := s1.mem[p := Fill(0)]), m, s1.mem[m][b % ENTRIES := 1024 * p + 1]);
    LowAddedTree(s, t, b);
  }

  lemma LowAddedTree(s: Phys, t: Tab, b: int)
    requires Shaped(s) && TabInv(s, t) && |s.free| > 0 && 0 <= b < LOWS && t.mid[b / ENTRIES] != -1 && t.low[b] == -1
    requires IsPage(s, t.mid[b / ENTRIES], Mid(t.root, b / ENTRIES))
    requires IsFree(s, s.free[|s.free| - 1], |s.free| - 1) && s.free[|s.free| - 1] != t.mid[b / ENTRIES]
    ensures
      var t1 := t.(low := t.low[b := s.free[|s.free| - 1]]);
      TabInv(WithLow(s, t, b), t1) && SameMap(s, t, WithLow(s, t, b), t1)
  {
    var p := s.free[|s.free| - 1];
    var s2 := WithLow(s, t, b);
    var t1 := t.(low := t.low[b := p]);
    forall j | 0 <= j < ENTRIES ensures MidOk(s2, t1, j) {
      assert MidOk(s, t, j);
    }
    forall c | 0 <= c < LOWS ensures LowOk(s2, t1, c) {
      assert LowOk(s, t, c) && MidOk(s, t, c / ENTRIES);
    }
    forall q | 0 <= q < |s2.role| ensures Placed(t1, s2.role[q], q) {
      assert Placed(t, s.role[q], q);
    }
    forall v | 0 <= v < VPNS ensures Leaf(s2, t1, v) == Leaf(s, t, v) {
      assert LowOk(s, t, v / ENTRIES) && MidOk(s, t, v / ENTRIES / ENTRIES);
    }
  }

  // ---- writing a leaf ----

  function WithLeaf(s: Phys, p: int, i: int, w: int): Phys
    requires 0 <= p < |s.mem| && 0 <= i < |s.mem[p]|
  {
    s.(mem := s.mem[p := s.mem[p][i := w]])
  }

  /** Writing one last-level entry changes exactly one translation. */
  lemma LeafWritten(s: Phys, t: Tab, v: int, w: int)
    requires PhysInv(s) && TabInv(s, t) && 0 <= v < VPNS && t.low[v / ENTRIES] != -1
    ensures IsPage(s, t.low[v / ENTRIES], Low(t.root, v / ENTRIES))
    ensures
      var s1 := WithLeaf(s, t.low[v / ENTRIES], v % ENTRIES, w);
      && PhysInv(s1) && TabInv(s1, t)
      && (forall u | 0 <= u < VPNS :: Leaf(s1, t, u) == if u == v then w else Leaf(s, t, u))
  {
    assert LowOk(s, t, v / ENTRIES);
    var p := t.low[v / ENTRIES];
    var s1 := WithLeaf(s, p, v % ENTRIES, w);
    WriteKeeps(s, p, s.mem[p][v % ENTRIES := w]);
    forall j | 0 <= j < ENTRIES ensures MidOk(s1, t, j) {
      assert MidOk(s, t, j);
    }
    forall c | 0 <= c < LOWS ensures LowOk(s1, t, c) {
      assert LowOk(s, t, c) && MidOk(s, t, c / ENTRIES);
    }
    forall u | 0 <= u < VPNS ensures Leaf(s1, t, u) == if u == v then w else Leaf(s, t, u) {
      assert LowOk(s, t, u / ENTRIES) && MidOk(s, t, u / ENTRIES / ENTRIES);
    }
  }
}
