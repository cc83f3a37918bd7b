/** The virtio disk driver's descriptors and rings (kernel/virtio_disk.c; sections 2.6.5,
    2.6.6 and 2.6.8 of Virtio 1.1), with the device as a party that takes entries from
    the available ring and puts entries on the used ring. */
module VirtioRing {

  const NUM := 8
  const UINT16 := 0x1_0000

  /** What a descriptor points to. */
  datatype Addr = NoAddr | Header(write: bool, sector: int) | BufData(b: int) | StatusOf(d0: int)

  /** A descriptor: `more` is VRING_DESC_F_NEXT, `dev` VRING_DESC_F_WRITE. */
  datatype Desc = Desc(addr: Addr, more: bool, dev: bool, next: int)

  /** How far a request has got. Queued(p) and Done(p) give its place on the available
      and on the used ring, counted from the start of time. */
  datatype Stage = Queued(p: int) | Taken | Done(p: int) | Seen

  datatype Req = NoReq | Req(d1: int, d2: int, b: int, write: bool, sector: int, stage: Stage)

  /** free, desc, avail, availIdx, usedIdx, info and disk are the driver's; used and
      usedId the device's. own[d] is the head of the chain descriptor d belongs to, or
      -1; req[h] the request whose chain starts at h; qa and qu the requests on the two
      rings, and ca and cu how many have left them. */
  datatype State = State(free: seq<bool>, desc: seq<Desc>, avail: seq<int>, availIdx: int, used: seq<int>, usedId: int,
                         usedIdx: int, info: seq<int>, disk: seq<bool>,
                         own: seq<int>, req: seq<Req>, qa: seq<int>, qu: seq<int>, ca: int, cu: int)

  // ---- counting ----

  function Count(f: seq<bool>): int {
    if f == [] then 0 else Count(f[..|f| - 1]) + if f[|f| - 1] then 1 else 0
  }

  function Active(r: seq<Req>): int {
    if r == [] then 0 else Active(r[..|r| - 1]) + if r[|r| - 1].Req? then 1 else 0
  }

  lemma {:induction false} CountSet(f: seq<bool>, i: int, v: bool)
    requires 0 <= i < |f|
    ensures Count(f[i := v]) == Count(f) + (if v then 1 else 0) - (if f[i] then 1 else 0)
  {
    var n := |f| - 1;
    if i < n {
      CountSet(f[..n], i, v);
      assert f[i := v][..n] == f[..n][i := v];
    } else {
      assert f[i := v][..n] == f[..n];
    }
  }

  lemma {:induction false} ActiveSet(r: seq<Req>, i: int, v: Req)
    requires 0 <= i < |r|
    ensures Active(r[i := v]) == Active(r) + (if v.Req? then 1 else 0) - (if r[i].Req? then 1 else 0)
  {
    var n := |r| - 1;
    if i < n {
      ActiveSet(r[..n], i, v);
      assert r[i := v][..n] == r[..n][i := v];
    } else {
      assert r[i := v][..n] == r[..n];
    }
  }

  lemma {:induction false} CountNonNegative(f: seq<bool>)
    ensures 0 <= Count(f) <= |f|
    ensures Count(f) == 0 ==> forall i | 0 <= i < |f| :: !f[i]
  {
    if f != [] { CountNonNegative(f[..|f| - 1]); }
  }

  lemma {:induction false} ActiveNonNegative(r: seq<Req>)
    ensures 0 <= Active(r)
  {
    if r != [] { ActiveNonNegative(r[..|r| - 1]); }
  }

  /** Distinct active heads are at most as many as the active requests. */
  lemma {:induction false} QueueBound(q: seq<int>, r: seq<Req>)
    requires forall i | 0 <= i < |q| :: 0 <= q[i] < |r| && r[q[i]].Req?
    requires forall i, j | 0 <= i < j < |q| :: q[i] != q[j]
    ensures |q| <= Active(r)
  {
    ActiveNonNegative(r);
    if q != [] {
      var n := |q| - 1;
      ActiveSet(r, q[n], NoReq);
      QueueBound(q[..n], r[q[n] := NoReq]);
    }
  }

  // ---- the invariant ----

  ghost predicate Sized(s: State) {
    && |s.free| == |s.desc| == |s.avail| == |s.used| == |s.info| == |s.own| == |s.req| == NUM
    && 0 <= s.ca && 0 <= s.cu
  }

  /** The chain of head h: three descriptors of its own, linked and filled in. */
  ghost predicate ChainOk(s: State, h: int)
    requires Sized(s) && 0 <= h < NUM && s.req[h].Req?
  {
    var r := s.req[h];
    && 0 <= r.d1 < NUM && 0 <= r.d2 < NUM && h != r.d1 && h != r.d2 && r.d1 != r.d2
    && s.own[h] == h && s.own[r.d1] == h && s.own[r.d2] == h
    && s.desc[h] == Desc(Header(r.write, r.sector), true, false, r.d1)
    && s.desc[r.d1] == Desc(BufData(r.b), true, !r.write, r.d2)
    && s.desc[r.d2] == Desc(StatusOf(h), false, true, 0)
    && 0 <= r.b < |s.disk| && s.info[h] == r.b && (s.disk[r.b] <==> !r.stage.Seen?)
  }

  /** A request on a ring is at its place there. */
  ghost predicate StageOk(s: State, h: int)
    requires Sized(s) && 0 <= h < NUM && s.req[h].Req?
  {
    match s.req[h].stage
    case Queued(p) => s.ca <= p < s.ca + |s.qa| && s.qa[p - s.ca] == h
    case Done(p) => s.cu <= p < s.cu + |s.qu| && s.qu[p - s.cu] == h
    case _ => true
  }

  /** Descriptor d is free, or one of the three of its chain. */
  ghost predicate DescOk(s: State, d: int)
    requires Sized(s) && 0 <= d < NUM
  {
    && (s.free[d] <==> s.own[d] == -1)
    && -1 <= s.own[d] < NUM
    && (s.own[d] >= 0 ==> s.req[s.own[d]].Req?
                          && (d == s.own[d] || d == s.req[s.own[d]].d1 || d == s.req[s.own[d]].d2))
  }

  ghost predicate AvailOk(s: State, i: int)
    requires Sized(s) && 0 <= i < |s.qa|
  {
    && 0 <= s.qa[i] < NUM && s.req[s.qa[i]].Req? && s.req[s.qa[i]].stage == Queued(s.ca + i)
    && s.avail[(s.ca + i) % NUM] == s.qa[i]
  }

  ghost predicate UsedOk(s: State, i: int)
    requires Sized(s) && 0 <= i < |s.qu|
  {
    && 0 <= s.qu[i] < NUM && s.req[s.qu[i]].Req? && s.req[s.qu[i]].stage == Done(s.cu + i)
    && s.used[(s.cu + i) % NUM] == s.qu[i]
  }

  /** Two requests are for different buffers. */
  ghost predicate BufsApart(s: State, g: int, h: int)
    requires Sized(s) && 0 <= g < NUM && 0 <= h < NUM
  {
    g != h && s.req[g].Req? && s.req[h].Req? ==> s.req[g].b != s.req[h].b
  }

  ghost predicate Inv(s: State) {
    && Sized(s)
    && (forall h | 0 <= h < NUM && s.req[h].Req? :: ChainOk(s, h) && StageOk(s, h))
    && (forall d | 0 <= d < NUM :: DescOk(s, d))
    && (forall i | 0 <= i < |s.qa| :: AvailOk(s, i))
    && (forall i | 0 <= i < |s.qu| :: UsedOk(s, i))
    && (forall g, h | 0 <= g < NUM && 0 <= h < NUM :: BufsApart(s, g, h))
    && s.availIdx == (s.ca + |s.qa|) % UINT16
    && s.usedId == (s.cu + |s.qu|) % UINT16
    && s.usedIdx == s.cu % NUM
    && Count(s.free) + 3 * Active(s.req) == NUM
  }

  // ---- what the invariant gives ----

  /** At most two requests are in flight, so neither ring holds more than two entries. */
  lemma AtMostTwo(s: State)
    requires Inv(s)
    ensures 0 <= Active(s.req) <= 2 && |s.qa| <= 2 && |s.qu| <= 2
  {
    CountNonNegative(s.free);
    ActiveNonNegative(s.req);
    forall i | 0 <= i < |s.qa| ensures 0 <= s.qa[i] < NUM && s.req[s.qa[i]].Req? && s.req[s.qa[i]].stage == Queued(s.ca + i) {
      assert AvailOk(s, i);
    }
    forall i | 0 <= i < |s.qu| ensures 0 <= s.qu[i] < NUM && s.req[s.qu[i]].Req? && s.req[s.qu[i]].stage == Done(s.cu + i) {
      assert UsedOk(s, i);
    }
    QueueBound(s.qa, s.req);
    QueueBound(s.qu, s.req);
  }

  lemma WrapMod(x: int)
    requires 0 <= x
    ensures x % UINT16 % NUM == x % NUM
  {
    assert x == UINT16 * (x / UINT16) + x % UINT16;
    assert x == NUM * (0x2000 * (x / UINT16)) + x % UINT16;
    ModOf(0x2000 * (x / UINT16), x % UINT16);
  }

  lemma ModOf(k: int, r: int)
    ensures (NUM * k + r) % NUM == r % NUM
  {}

  /** The comparison modulo NUM in virtio_disk_intr is true exactly when the used ring
      has entries not yet looked at, also across the wrap of the 16-bit index. */
  lemma CompareIsExact(s: State)
    requires Inv(s)
    ensures s.usedIdx % NUM != s.usedId % NUM <==> s.qu != []
  {
    AtMostTwo(s);
    WrapMod(s.cu + |s.qu|);
    if |s.qu| == 1 { Near(s.cu, 1); } else if |s.qu| == 2 { Near(s.cu, 2); }
  }

  lemma Near(x: int, k: int)
    requires 0 < k < NUM
    ensures (x + k) % NUM != x % NUM
  {}

  /** The slot of the available ring that the next request goes in is not one the device
      has still to take. */
  lemma AvailSlotFree(s: State, i: int)
    requires Inv(s) && 0 <= i < |s.qa|
    ensures s.availIdx % NUM == (s.ca + |s.qa|) % NUM
    ensures (s.ca + i) % NUM != s.availIdx % NUM
  {
    AtMostTwo(s);
    WrapMod(s.ca + |s.qa|);
    Near(s.ca + i, |s.qa| - i);
  }

  // ---- the steps ----

  /** virtio_disk_rw up to the wait: a request for buffer b in descriptors d0, d1, d2. */
  ghost function Submitted(s: State, d0: int, d1: int, d2: int, b: int, write: bool, sector: int): State
    requires Sized(s) && 0 <= d0 < NUM && 0 <= d1 < NUM && 0 <= d2 < NUM && 0 <= b < |s.disk|
  {
    State(s.free[d0 := false][d1 := false][d2 := false],
          s.desc[d0 := Desc(Header(write, sector), true, false, d1)][d1 := Desc(BufData(b), true, !write, d2)]
                [d2 := Desc(StatusOf(d0), false, true, 0)],
          s.avail[s.availIdx % NUM := d0], (s.availIdx + 1) % UINT16, s.used, s.usedId, s.usedIdx,
          s.info[d0 := b], s.disk[b := true],
          s.own[d0 := d0][d1 := d0][d2 := d0], s.req[d0 := Req(d1, d2, b, write, sector, Queued(s.ca + |s.qa|))],
          s.qa + [d0], s.qu, s.ca, s.cu)
  }

  /** Three different free descriptors, and a buffer with no request in flight. */
  ghost predicate CanSubmit(s: State, d0: int, d1: int, d2: int, b: int) {
    && Inv(s) && Sized(s) && 0 <= d0 < NUM && 0 <= d1 < NUM && 0 <= d2 < NUM && d0 != d1 && d0 != d2 && d1 != d2
    && s.free[d0] && s.free[d1] && s.free[d2]
    && 0 <= b < |s.disk| && (forall h | 0 <= h < NUM && s.req[h].Req? :: s.req[h].b != b)
  }

  lemma SubmitHead(s: State, d0: int, d1: int, d2: int, b: int, write: bool, sector: int, h: int)
    requires CanSubmit(s, d0, d1, d2, b) && 0 <= h < NUM && Submitted(s, d0, d1, d2, b, write, sector).req[h].Req?
    ensures Sized(Submitted(s, d0, d1, d2, b, write, sector)) && ChainOk(Submitted(s, d0, d1, d2, b, write, sector), h) && StageOk(Submitted(s, d0, d1, d2, b, write, sector), h)
  {
    NoRequestAt(s, d0);
    assert DescOk(s, d0) && DescOk(s, d1) && DescOk(s, d2);
    if h != d0 { assert ChainOk(s, h) && StageOk(s, h); }
  }

  lemma SubmitDesc(s: State, d0: int, d1: int, d2: int, b: int, write: bool, sector: int, d: int)
    requires CanSubmit(s, d0, d1, d2, b) && 0 <= d < NUM
    ensures Sized(Submitted(s, d0, d1, d2, b, write, sector)) && DescOk(Submitted(s, d0, d1, d2, b, write, sector), d)
  {
    NoRequestAt(s, d0);
    assert DescOk(s, d) && DescOk(s, d0);
  }

  lemma SubmitRings(s: State, d0: int, d1: int, d2: int, b: int, write: bool, sector: int)
    requires CanSubmit(s, d0, d1, d2, b)
    ensures Sized(Submitted(s, d0, d1, d2, b, write, sector))
    ensures forall i | 0 <= i < |Submitted(s, d0, d1, d2, b, write, sector).qa| :: AvailOk(Submitted(s, d0, d1, d2, b, write, sector), i)
    ensures forall i | 0 <= i < |Submitted(s, d0, d1, d2, b, write, sector).qu| :: UsedOk(Submitted(s, d0, d1, d2, b, write, sector), i)
    ensures forall g, h | 0 <= g < NUM && 0 <= h < NUM :: BufsApart(Submitted(s, d0, d1, d2, b, write, sector), g, h)
  {
    NoRequestAt(s, d0);
    var s1 := Submitted(s, d0, d1, d2, b, write, sector);
    forall i | 0 <= i < |s1.qa| ensures AvailOk(s1, i) { if i < |s.qa| { AvailSlotFree(s, i); assert AvailOk(s, i); } else { WrapMod(s.ca + |s.qa|); } }
    forall i | 0 <= i < |s1.qu| ensures UsedOk(s1, i) { assert UsedOk(s, i); }
    forall g, h | 0 <= g < NUM && 0 <= h < NUM ensures BufsApart(s1, g, h) { assert BufsApart(s, g, h); }
  }

  lemma SubmitCounts(s: State, d0: int, d1: int, d2: int, b: int, write: bool, sector: int)
    requires CanSubmit(s, d0, d1, d2, b)
    ensures
      var s1 := Submitted(s, d0, d1, d2, b, write, sector);
      Count(s1.free) == Count(s.free) - 3 && Active(s1.req) == Active(s.req) + 1
  {
    NoRequestAt(s, d0);
    CountSet(s.free, d0, false);
    CountSet(s.free[d0 := false], d1, false);
    CountSet(s.free[d0 := false][d1 := false], d2, false);
    ActiveSet(s.req, d0, Submitted(s, d0, d1, d2, b, write, sector).req[d0]);
  }

  lemma SubmitKeeps(s: State, d0: int, d1: int, d2: int, b: int, write: bool, sector: int)
    requires CanSubmit(s, d0, d1, d2, b)
    ensures Inv(Submitted(s, d0, d1, d2, b, write, sector))
  {
    NoRequestAt(s, d0);
    var s1 := Submitted(s, d0, d1, d2, b, write, sector);
    SubmitCounts(s, d0, d1, d2, b, write, sector);
    NextIndex(s.ca + |s.qa|);
    SubmitRings(s, d0, d1, d2, b, write, sector);
    hide ChainOk, StageOk, DescOk, AvailOk, UsedOk, BufsApart, Count, Active;
    forall h | 0 <= h < NUM && s1.req[h].Req? ensures ChainOk(s1, h) && StageOk(s1, h) { SubmitHead(s, d0, d1, d2, b, write, sector, h); }
    forall d | 0 <= d < NUM ensures DescOk(s1, d) { SubmitDesc(s, d0, d1, d2, b, write, sector, d); }
  }

  /** A free descriptor is in no chain. */
  lemma NoRequestAt(s: State, d: int)
    requires Inv(s) && 0 <= d < NUM && s.free[d]
    ensures s.req[d].NoReq? && (forall h | 0 <= h < NUM && s.req[h].Req? :: s.req[h].d1 != d && s.req[h].d2 != d)
  {
    assert DescOk(s, d);
    assert s.req[d].Req? ==> ChainOk(s, d);
    forall h | 0 <= h < NUM && s.req[h].Req? ensures s.req[h].d1 != d && s.req[h].d2 != d { assert ChainOk(s, h); }
  }

  lemma NextIndex(x: int)
    requires 0 <= x
    ensures (x % UINT16 + 1) % UINT16 == (x + 1) % UINT16
  {}

  /** The device takes the oldest entry of the available ring. */
  ghost function DeviceTook(s: State): State
    requires s.qa != [] && 0 <= s.qa[0] < |s.req| && s.req[s.qa[0]].Req?
  {
    s.(req := s.req[s.qa[0] := s.req[s.qa[0]].(stage := Taken)], qa := s.qa[1..], ca := s.ca + 1)
  }

  lemma DeviceTakeHead(s: State, h: int)
    requires Inv(s) && s.qa != [] && AvailOk(s, 0) && 0 <= h < NUM && DeviceTook(s).req[h].Req?
    ensures Sized(DeviceTook(s)) && ChainOk(DeviceTook(s), h) && StageOk(DeviceTook(s), h)
  {
    assert ChainOk(s, h) && StageOk(s, h);
  }

  lemma DeviceTakeRings(s: State)
    requires Inv(s) && s.qa != [] && AvailOk(s, 0)
    ensures Sized(DeviceTook(s))
    ensures forall i | 0 <= i < |DeviceTook(s).qa| :: AvailOk(DeviceTook(s), i)
    ensures forall i | 0 <= i < |DeviceTook(s).qu| :: UsedOk(DeviceTook(s), i)
    ensures forall g, h | 0 <= g < NUM && 0 <= h < NUM :: BufsApart(DeviceTook(s), g, h)
  {
    var s1 := DeviceTook(s);
    forall i | 0 <= i < |s1.qa| ensures AvailOk(s1, i) { var m := i + 1; assert AvailOk(s, m) && s1.ca + i == s.ca + m; }
    forall i | 0 <= i < |s1.qu| ensures UsedOk(s1, i) { assert UsedOk(s, i); }
    forall g, h | 0 <= g < NUM && 0 <= h < NUM ensures BufsApart(s1, g, h) { assert BufsApart(s, g, h); }
  }

  lemma DeviceTakeDesc(s: State, d: int)
    requires Inv(s) && s.qa != [] && AvailOk(s, 0) && 0 <= d < NUM
    ensures Sized(DeviceTook(s)) && DescOk(DeviceTook(s), d)
  {
    assert DescOk(s, d);
  }

  lemma DeviceTakeKeeps(s: State)
    requires Inv(s) && s.qa != []
    ensures AvailOk(s, 0) && Inv(DeviceTook(s)) && s.avail[s.ca % NUM] == s.qa[0]
  {
    assert AvailOk(s, 0);
    var s1 := DeviceTook(s);
    ActiveSet(s.req, s.qa[0], s1.req[s.qa[0]]);
    DeviceTakeRings(s);
    hide ChainOk, StageOk, DescOk, AvailOk, UsedOk, BufsApart, Count, Active;
    forall h | 0 <= h < NUM && s1.req[h].Req? ensures ChainOk(s1, h) && StageOk(s1, h) { DeviceTakeHead(s, h); }
    forall d | 0 <= d < NUM ensures DescOk(s1, d) { DeviceTakeDesc(s, d); }
  }

  /** The device finishes a request it took, in any order, and says so on the used ring. */
  ghost function DeviceDid(s: State, h: int): State
    requires Sized(s) && 0 <= h < NUM && s.req[h].Req?
  {
    s.(req := s.req[h := s.req[h].(stage := Done(s.cu + |s.qu|))], qu := s.qu + [h],
       used := s.used[s.usedId % NUM := h], usedId := (s.usedId + 1) % UINT16)
  }

  lemma DeviceDoneHead(s: State, x: int, h: int)
    requires Inv(s) && 0 <= x < NUM && s.req[x].Req? && s.req[x].stage.Taken? && 0 <= h < NUM && DeviceDid(s, x).req[h].Req?
    ensures Sized(DeviceDid(s, x)) && ChainOk(DeviceDid(s, x), h) && StageOk(DeviceDid(s, x), h)
  {
    AtMostTwo(s);
    WrapMod(s.cu + |s.qu|);
    assert ChainOk(s, h) && StageOk(s, h);
  }

  lemma DeviceDoneDesc(s: State, x: int, d: int)
    requires Inv(s) && 0 <= x < NUM && s.req[x].Req? && s.req[x].stage.Taken? && 0 <= d < NUM
    ensures Sized(DeviceDid(s, x)) && DescOk(DeviceDid(s, x), d)
  {
    AtMostTwo(s);
    WrapMod(s.cu + |s.qu|);
    assert DescOk(s, d);
  }

  lemma DeviceDoneRings(s: State, x: int)
    requires Inv(s) && 0 <= x < NUM && s.req[x].Req? && s.req[x].stage.Taken?
    ensures Sized(DeviceDid(s, x))
    ensures forall i | 0 <= i < |DeviceDid(s, x).qa| :: AvailOk(DeviceDid(s, x), i)
    ensures forall i | 0 <= i < |DeviceDid(s, x).qu| :: UsedOk(DeviceDid(s, x), i)
    ensures forall g, h | 0 <= g < NUM && 0 <= h < NUM :: BufsApart(DeviceDid(s, x), g, h)
  {
    AtMostTwo(s);
    WrapMod(s.cu + |s.qu|);
    var s1 := DeviceDid(s, x);
    forall i | 0 <= i < |s1.qa| ensures AvailOk(s1, i) { assert AvailOk(s, i); }
    forall i | 0 <= i < |s1.qu| ensures UsedOk(s1, i) { if i < |s.qu| { assert UsedOk(s, i); Near(s.cu + i, |s.qu| - i); } }
    forall g, h | 0 <= g < NUM && 0 <= h < NUM ensures BufsApart(s1, g, h) { assert BufsApart(s, g, h); }
  }

  lemma DeviceDoneKeeps(s: State, x: int)
    requires Inv(s) && 0 <= x < NUM && s.req[x].Req? && s.req[x].stage.Taken?
    ensures Inv(DeviceDid(s, x))
  {
    AtMostTwo(s);
    WrapMod(s.cu + |s.qu|);
    var s1 := DeviceDid(s, x);
    ActiveSet(s.req, x, s1.req[x]);
    NextIndex(s.cu + |s.qu|);
    DeviceDoneRings(s, x);
    hide ChainOk, StageOk, DescOk, AvailOk, UsedOk, BufsApart, Count, Active;
    forall h | 0 <= h < NUM && s1.req[h].Req? ensures ChainOk(s1, h) && StageOk(s1, h) { DeviceDoneHead(s, x, h); }
    forall d | 0 <= d < NUM ensures DescOk(s1, d) { DeviceDoneDesc(s, x, d); }
  }

  /** One round of virtio_disk_intr: the buffer of the oldest used entry is done. */
  ghost function Delivered(s: State): State
    requires Sized(s) && s.qu != [] && 0 <= s.qu[0] < NUM && s.req[s.qu[0]].Req? && 0 <= s.req[s.qu[0]].b < |s.disk|
  {
    s.(req := s.req[s.qu[0] := s.req[s.qu[0]].(stage := Seen)], qu := s.qu[1..], cu := s.cu + 1,
       usedIdx := (s.usedIdx + 1) % NUM, disk := s.disk[s.req[s.qu[0]].b := false])
  }

  lemma DeliverHead(s: State, h: int)
    requires Inv(s) && s.qu != [] && UsedOk(s, 0) && ChainOk(s, s.qu[0]) && 0 <= h < NUM && Delivered(s).req[h].Req?
    ensures Sized(Delivered(s)) && ChainOk(Delivered(s), h) && StageOk(Delivered(s), h)
  {
    assert ChainOk(s, h) && StageOk(s, h) && BufsApart(s, h, s.qu[0]);
  }

  lemma DeliverDesc(s: State, d: int)
    requires Inv(s) && s.qu != [] && UsedOk(s, 0) && ChainOk(s, s.qu[0]) && 0 <= d < NUM
    ensures Sized(Delivered(s)) && DescOk(Delivered(s), d)
  {
    assert DescOk(s, d);
  }

  lemma DeliverRings(s: State)
    requires Inv(s) && s.qu != [] && UsedOk(s, 0) && ChainOk(s, s.qu[0])
    ensures Sized(Delivered(s))
    ensures forall i | 0 <= i < |Delivered(s).qa| :: AvailOk(Delivered(s), i)
    ensures forall i | 0 <= i < |Delivered(s).qu| :: UsedOk(Delivered(s), i)
    ensures forall g, h | 0 <= g < NUM && 0 <= h < NUM :: BufsApart(Delivered(s), g, h)
  {
    var s1 := Delivered(s);
    forall i | 0 <= i < |s1.qa| ensures AvailOk(s1, i) { assert AvailOk(s, i); }
    forall i | 0 <= i < |s1.qu| ensures UsedOk(s1, i) { var m := i + 1; assert UsedOk(s, m) && s1.cu + i == s.cu + m; }
    forall g, h | 0 <= g < NUM && 0 <= h < NUM ensures BufsApart(s1, g, h) { assert BufsApart(s, g, h); }
  }

  lemma DeliverKeeps(s: State)
    requires Inv(s) && s.qu != [] && UsedOk(s, 0) && ChainOk(s, s.qu[0])
    ensures Inv(Delivered(s))
  {
    var s1 := Delivered(s);
    ActiveSet(s.req, s.qu[0], s1.req[s.qu[0]]);
    DeliverRings(s);
    hide ChainOk, StageOk, DescOk, AvailOk, UsedOk, BufsApart, Count, Active;
    forall h | 0 <= h < NUM && s1.req[h].Req? ensures ChainOk(s1, h) && StageOk(s1, h) { DeliverHead(s, h); }
    forall d | 0 <= d < NUM ensures DescOk(s1, d) { DeliverDesc(s, d); }
  }

  /** The end of virtio_disk_rw: a seen request gives its three descriptors back. */
  ghost function Finished(s: State, h: int): State
    requires Sized(s) && 0 <= h < NUM && s.req[h].Req? && 0 <= s.req[h].d1 < NUM && 0 <= s.req[h].d2 < NUM
  {
    var r := s.req[h];
    s.(free := s.free[h := true][r.d1 := true][r.d2 := true], info := s.info[h := -1],
       desc := s.desc[h := s.desc[h].(addr := NoAddr)][r.d1 := s.desc[r.d1].(addr := NoAddr)][r.d2 := s.desc[r.d2].(addr := NoAddr)],
       own := s.own[h := -1][r.d1 := -1][r.d2 := -1], req := s.req[h := NoReq])
  }

  lemma FinishHead(s: State, x: int, h: int)
    requires Inv(s) && 0 <= x < NUM && s.req[x].Req? && s.req[x].stage.Seen? && ChainOk(s, x) && 0 <= h < NUM && Finished(s, x).req[h].Req?
    ensures Sized(Finished(s, x)) && ChainOk(Finished(s, x), h) && StageOk(Finished(s, x), h)
  {
    assert ChainOk(s, h) && StageOk(s, h);
  }

  lemma FinishDesc(s: State, x: int, d: int)
    requires Inv(s) && 0 <= x < NUM && s.req[x].Req? && s.req[x].stage.Seen? && ChainOk(s, x) && 0 <= d < NUM
    ensures Sized(Finished(s, x)) && DescOk(Finished(s, x), d)
  {
    assert DescOk(s, d) && DescOk(s, x);
    if s.own[d] >= 0 { assert ChainOk(s, s.own[d]); }
  }

  lemma FinishRings(s: State, x: int)
    requires Inv(s) && 0 <= x < NUM && s.req[x].Req? && s.req[x].stage.Seen? && ChainOk(s, x)
    ensures Sized(Finished(s, x))
    ensures forall i | 0 <= i < |Finished(s, x).qa| :: AvailOk(Finished(s, x), i)
    ensures forall i | 0 <= i < |Finished(s, x).qu| :: UsedOk(Finished(s, x), i)
    ensures forall g, h | 0 <= g < NUM && 0 <= h < NUM :: BufsApart(Finished(s, x), g, h)
  {
    var s1 := Finished(s, x);
    forall i | 0 <= i < |s1.qa| ensures AvailOk(s1, i) { assert AvailOk(s, i); }
    forall i | 0 <= i < |s1.qu| ensures UsedOk(s1, i) { assert UsedOk(s, i); }
    forall g, h | 0 <= g < NUM && 0 <= h < NUM ensures BufsApart(s1, g, h) { assert BufsApart(s, g, h); }
  }

  lemma FinishCounts(s: State, x: int)
    requires Inv(s) && 0 <= x < NUM && s.req[x].Req? && ChainOk(s, x)
    ensures !s.free[x] && !s.free[s.req[x].d1] && !s.free[s.req[x].d2]
    ensures Count(Finished(s, x).free) == Count(s.free) + 3 && Active(Finished(s, x).req) == Active(s.req) - 1
  {
    var r := s.req[x];
    assert DescOk(s, x) && DescOk(s, r.d1) && DescOk(s, r.d2);
    ActiveSet(s.req, x, NoReq);
    CountSet(s.free, x, true);
    CountSet(s.free[x := true], r.d1, true);
    CountSet(s.free[x := true][r.d1 := true], r.d2, true);
  }

  lemma FinishKeeps(s: State, x: int)
    requires Inv(s) && 0 <= x < NUM && s.req[x].Req? && s.req[x].stage.Seen? && ChainOk(s, x)
    ensures Inv(Finished(s, x))
    ensures !s.free[x] && !s.free[s.req[x].d1] && !s.free[s.req[x].d2]
  {
    var s1 := Finished(s, x);
    FinishCounts(s, x);
    FinishRings(s, x);
    hide ChainOk, StageOk, DescOk, AvailOk, UsedOk, BufsApart, Count, Active;
    forall h | 0 <= h < NUM && s1.req[h].Req? ensures ChainOk(s1, h) && StageOk(s1, h) { FinishHead(s, x, h); }
    forall d | 0 <= d < NUM ensures DescOk(s1, d) { FinishDesc(s, x, d); }
  }

  lemma OldestUsed(s: State)
    requires Inv(s) && s.qu != []
    ensures UsedOk(s, 0) && s.used[s.usedIdx] == s.qu[0] && ChainOk(s, s.qu[0])
  {
    assert UsedOk(s, 0);
  }

  lemma ChainOf(s: State, h: int)
    requires Inv(s) && 0 <= h < NUM && s.req[h].Req?
    ensures ChainOk(s, h)
  {}

  /** What a free descriptor holds does not matter. */
  lemma FreeDescKeeps(s: State, desc: seq<Desc>)
    requires Inv(s) && |desc| == NUM && forall d | 0 <= d < NUM && !s.free[d] :: desc[d] == s.desc[d]
    ensures Inv(s.(desc := desc))
  {
    var s1 := s.(desc := desc);
    forall h | 0 <= h < NUM && s1.req[h].Req? ensures ChainOk(s1, h) && StageOk(s1, h) {
      assert ChainOk(s, h) && StageOk(s, h);
      assert DescOk(s, h) && DescOk(s, s.req[h].d1) && DescOk(s, s.req[h].d2);
    }
    forall d | 0 <= d < NUM ensures DescOk(s1, d) { assert DescOk(s, d); }
    forall i | 0 <= i < |s1.qa| ensures AvailOk(s1, i) { assert AvailOk(s, i); }
    forall i | 0 <= i < |s1.qu| ensures UsedOk(s1, i) { assert UsedOk(s, i); }
    forall g, h | 0 <= g < NUM && 0 <= h < NUM ensures BufsApart(s1, g, h) { assert BufsApart(s, g, h); }
  }

  // ---- nothing gets stuck ----

  /** One step after a request was made: the device takes or finishes one, the interrupt
      delivers one, or one who waited gives its descriptors back. */
  ghost predicate Moves(s: State, s1: State) {
    && Sized(s)
    && (|| (s.qa != [] && AvailOk(s, 0) && s1 == DeviceTook(s))
        || (s.qu != [] && UsedOk(s, 0) && ChainOk(s, s.qu[0]) && s1 == Delivered(s))
        || exists h | 0 <= h < NUM && s.req[h].Req? :: ChainOk(s, h) &&
             ((s.req[h].stage.Taken? && s1 == DeviceDid(s, h)) || (s.req[h].stage.Seen? && s1 == Finished(s, h))))
  }

  /** Each state follows from the one before. */
  ghost predicate Path(ss: seq<State>) {
    ss != [] && forall i | 0 < i < |ss| :: Moves(ss[i - 1], ss[i])
  }

  /** Steps that a request has before it. */
  function Left(r: Req): int {
    if r.NoReq? then 0 else match r.stage case Queued(p) => 4 case Taken => 3 case Done(p) => 2 case Seen => 1
  }

  function Work(r: seq<Req>): nat {
    if r == [] then 0 else Work(r[..|r| - 1]) + Left(r[|r| - 1])
  }

  lemma {:induction false} WorkSet(r: seq<Req>, i: int, v: Req)
    requires 0 <= i < |r|
    ensures Work(r[i := v]) == Work(r) + Left(v) - Left(r[i])
  {
    var n := |r| - 1;
    if i < n {
      WorkSet(r[..n], i, v);
      assert r[i := v][..n] == r[..n][i := v];
    } else {
      assert r[i := v][..n] == r[..n];
    }
  }

  lemma {:induction false} NoneActiveIff(r: seq<Req>)
    ensures Active(r) == 0 <==> forall h | 0 <= h < |r| :: r[h].NoReq?
  {
    ActiveNonNegative(r);
    if r != [] {
      ActiveNonNegative(r[..|r| - 1]);
      NoneActiveIff(r[..|r| - 1]);
    }
  }

  /** While a request is in flight something can happen to one. */
  lemma Progress(s: State, h: int) returns (s1: State)
    requires Inv(s) && 0 <= h < NUM && s.req[h].Req?
    ensures Moves(s, s1) && Inv(s1) && Work(s1.req) < Work(s.req)
  {
    assert ChainOk(s, h) && StageOk(s, h);
    match s.req[h].stage
    case Queued(p) =>
      DeviceTakeKeeps(s);
      s1 := DeviceTook(s);
      WorkSet(s.req, s.qa[0], s1.req[s.qa[0]]);
    case Taken =>
      DeviceDoneKeeps(s, h);
      s1 := DeviceDid(s, h);
      WorkSet(s.req, h, s1.req[h]);
    case Done(p) =>
      OldestUsed(s);
      DeliverKeeps(s);
      s1 := Delivered(s);
      WorkSet(s.req, s.qu[0], s1.req[s.qu[0]]);
    case Seen =>
      FinishKeeps(s, h);
      s1 := Finished(s, h);
      WorkSet(s.req, h, NoReq);
  }

  /** From every state whatever is in flight can be brought to its end, and then all descriptors
      are free again. */
  lemma {:induction false} Drains(s: State) returns (ss: seq<State>)
    requires Inv(s)
    ensures Path(ss) && ss[0] == s && Inv(ss[|ss| - 1]) && Active(ss[|ss| - 1].req) == 0 && Count(ss[|ss| - 1].free) == NUM
    decreases Work(s.req)
  {
    hide Moves;
    NoneActiveIff(s.req);
    if h :| 0 <= h < |s.req| && s.req[h].Req? {
      var s1 := Progress(s, h);
      var rest := Drains(s1);
      ss := [s] + rest;
    } else {
      ss := [s];
    }
  }
}
