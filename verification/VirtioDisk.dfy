/** alloc_desc, free_desc, alloc3_desc, free_chain, virtio_disk_rw and virtio_disk_intr
    (kernel/virtio_disk.c), in place on the driver's tables. */
module VirtioDisk {
  import opened VirtioRing

  const SECTORS := 2               // BSIZE / 512: sectors in a block

  /** The platter with the sectors from `sector` on replaced. */
  function Stored(platter: seq<int>, sector: int, block: seq<int>): (r: seq<int>)
    requires 0 <= sector && sector + |block| <= |platter|
    ensures |r| == |platter|
    ensures forall i | 0 <= i < |r| :: r[i] == if sector <= i < sector + |block| then block[i - sector] else platter[i]
  {
    platter[..sector] + block + platter[sector + |block|..]
  }

  /** A chain as the device wants it: header, data the right way round, and a status byte. */
  predicate WellMade(desc: seq<Desc>, h: int, buffers: int, sectors: int) {
    && |desc| == NUM && 0 <= h < NUM && desc[h].addr.Header? && desc[h].more && 0 <= desc[h].next < NUM
    && var d := desc[desc[h].next];
       && d.addr.BufData? && 0 <= d.addr.b < buffers && d.more && 0 <= d.next < NUM && d.dev == !desc[h].addr.write
       && desc[d.next].addr.StatusOf? && 0 <= desc[d.next].addr.d0 < NUM && desc[d.next].dev && !desc[d.next].more
       && 0 <= desc[h].addr.sector && desc[h].addr.sector + SECTORS <= sectors
  }

  /** Every one of n buffers holds a block, and every request in flight is for one that the disk
      has and has not failed. */
  ghost predicate Stocked(data: seq<seq<int>>, n: int, sectors: int, status: seq<int>, req: seq<Req>) {
    && |data| == n && (forall b | 0 <= b < n :: |data[b]| == SECTORS) && |status| == |req| == NUM
    && forall h | 0 <= h < NUM && req[h].Req? :: 0 <= req[h].sector && req[h].sector + SECTORS <= sectors && status[h] == 0
  }

  lemma StockedWith(data: seq<seq<int>>, n: int, sectors: int, status: seq<int>, req: seq<Req>, h: int, r: Req)
    requires Stocked(data, n, sectors, status, req) && 0 <= h < NUM
    requires r.Req? ==> 0 <= r.sector && r.sector + SECTORS <= sectors
    ensures |status| == |req| == NUM && Stocked(data, n, sectors, status[h := 0], req[h := r])
    ensures r.NoReq? || (req[h].Req? && r.sector == req[h].sector) ==> Stocked(data, n, sectors, status, req[h := r])
  {}

  lemma StockedFacts(data: seq<seq<int>>, n: int, sectors: int, status: seq<int>, req: seq<Req>, h: int)
    requires Stocked(data, n, sectors, status, req) && 0 <= h < NUM
    ensures |data| == n && (forall b | 0 <= b < n :: |data[b]| == SECTORS) && |status| == |req| == NUM
    ensures req[h].Req? ==> 0 <= req[h].sector && req[h].sector + SECTORS <= sectors && status[h] == 0
  {}

  lemma StockedBlock(data: seq<seq<int>>, n: int, sectors: int, status: seq<int>, req: seq<Req>, b: int, block: seq<int>)
    requires Stocked(data, n, sectors, status, req) && 0 <= b < n && |block| == SECTORS
    ensures |data| == n && Stocked(data[b := block], n, sectors, status, req)
  {}

  class Disk {
    var data: seq<seq<int>>          // b->data, by buffer, as the sectors it is made of
    var platter: seq<int>            // the disk itself, by sector
    var status: seq<int>             // info[].status, by head
    var free: seq<bool>
    var desc: seq<Desc>
    var avail: seq<int>
    var availIdx: int
    var used: seq<int>               // written by the device
    var usedId: int                  // written by the device
    var usedIdx: int
    var info: seq<int>               // the buffer of the chain with this head, or -1
    var disk: seq<bool>              // b->disk, by buffer
    var devIdx: int                  // how far the device has looked on the available ring
    ghost var own: seq<int>
    ghost var req: seq<Req>
    ghost var qa: seq<int>
    ghost var qu: seq<int>
    ghost var ca: int
    ghost var cu: int

    ghost function S(): State
      reads this
    {
      State(free, desc, avail, availIdx, used, usedId, usedIdx, info, disk, own, req, qa, qu, ca, cu)
    }

    ghost predicate Valid()
      reads this
    {
      Inv(S()) && devIdx == ca % UINT16 && Stocked(data, |disk|, |platter|, status, req)
    }

    /** alloc_desc: the first free descriptor, marked used, or -1. */
    method AllocDesc() returns (i: int)
      requires |free| == NUM
      modifies `free
      ensures i == -1 ==> free == old(free) && Count(free) == 0
      ensures i != -1 ==> 0 <= i < NUM && old(free)[i] && (forall j | 0 <= j < i :: !old(free)[j]) && free == old(free)[i := false]
      ensures i != -1 ==> Count(free) == Count(old(free)) - 1
    {
      i := 0;
      while i < NUM
        invariant 0 <= i <= NUM && free == old(free) && forall j | 0 <= j < i :: !free[j]
      {
        if free[i] {
          CountSet(free, i, false);
          free := free[i := false];
          return;
        }
        i := i + 1;
      }
      NoneFree(free);
      i := -1;
    }

    /** free_desc: a bad index and a free descriptor are panics. */
    method FreeDesc(i: int) returns (ok: bool)
      requires |free| == |desc| == NUM && 0 <= i
      modifies `free, `desc
      ensures ok <==> i < NUM && !old(free)[i]
      ensures !ok ==> free == old(free) && desc == old(desc)
      ensures ok ==> free == old(free)[i := true] && desc == old(desc)[i := old(desc)[i].(addr := NoAddr)]
    {
      if i >= NUM || free[i] {
        return false;
      }
      desc := desc[i := desc[i].(addr := NoAddr)];
      free := free[i := true];
      return true;
    }

    /** alloc3_desc: three descriptors, or none and as many free as before. */
    method Alloc3() returns (ok: bool, idx: seq<int>)
      requires |free| == |desc| == NUM
      modifies `free, `desc
      ensures ok <==> Count(old(free)) >= 3
      ensures !ok ==> free == old(free) && Touched(old(free), old(desc), desc)
      ensures ok ==> |idx| == 3 && desc == old(desc) && Three(old(free), idx) && free == Without3(old(free), idx)
    {
      idx := [];
      var i := 0;
      while i < 3
        invariant 0 <= i <= 3 && |idx| == i && desc == old(desc) && |free| == NUM
        invariant forall j | 0 <= j < i :: 0 <= idx[j] < NUM && old(free)[idx[j]] && !free[idx[j]]
        invariant forall j, k | 0 <= j < k < i :: idx[j] != idx[k]
        invariant forall d | 0 <= d < NUM && d !in idx :: free[d] == old(free)[d]
        invariant Count(free) == Count(old(free)) - i
      {
        var d := AllocDesc();
        if d < 0 {
          var j := 0;
          while j < i
            invariant 0 <= j <= i && |free| == |desc| == NUM
            invariant forall k | 0 <= k < |idx| :: 0 <= idx[k] < NUM && old(free)[idx[k]] && (free[idx[k]] <==> k < j)
            invariant forall k | 0 <= k < NUM && k !in idx :: free[k] == old(free)[k] && desc[k] == old(desc)[k]
          {
            var freed := FreeDesc(idx[j]);
            assert freed;
            j := j + 1;
          }
          assert free == old(free) by {
            forall k | 0 <= k < NUM ensures free[k] == old(free)[k] {}
          }
          CountNonNegative(free);
          return false, idx;
        }
        idx := idx + [d];
        i := i + 1;
      }
      CountNonNegative(free);
      ok := true;
      assert free == Without3(old(free), idx);
    }

    /** After virtio_disk_init: all descriptors free, both rings empty; n buffers. */
    constructor (n: int, platter: seq<int>)
      requires 0 <= n
      ensures Valid() && qa == [] && qu == [] && Active(req) == 0 && |disk| == n && this.platter == platter
    {
      data, status, this.platter := seq(n, _ => seq(SECTORS, _ => 0)), seq(NUM, _ => 0), platter;
      free, desc := seq(NUM, _ => true), seq(NUM, _ => Desc(NoAddr, false, false, 0));
      avail, availIdx, used, usedId, usedIdx, devIdx := seq(NUM, _ => 0), 0, seq(NUM, _ => 0), 0, 0, 0;
      info, disk := seq(NUM, _ => -1), seq(n, _ => false);
      own, req, qa, qu, ca, cu := seq(NUM, _ => -1), seq(NUM, _ => NoReq), [], [], 0, 0;
      new;
      AllFree(free);
      NoneActive(req);
    }

    /** virtio_disk_rw up to its wait for completion: a request on the available ring; or,
        when fewer than three descriptors are free, which is when two requests are in
        flight, nothing (the caller sleeps and tries again). */
    method Submit(b: int, write: bool, blockno: int) returns (ok: bool, h: int, ghost d1: int, ghost d2: int)
      requires Valid() && 0 <= b < |disk| && forall g | 0 <= g < |req| && req[g].Req? :: req[g].b != b
      requires 0 <= blockno && (blockno + 1) * SECTORS <= |platter|
      modifies this
      ensures Valid() && (ok <==> Active(old(req)) < 2) && data == old(data) && platter == old(platter)
      ensures !ok ==> S() == old(S()).(desc := desc)
      ensures ok ==> CanSubmit(old(S()), h, d1, d2, b) && S() == Submitted(old(S()), h, d1, d2, b, write, blockno * SECTORS)
    {
      hide Inv, Count, Active, Submitted, Stocked, CanSubmit, Touched, Sized, Three;
      ghost var s := S();
      InvFacts(s);
      var idx;
      ok, idx := Alloc3();
      if !ok {
        TouchedKeeps(s, desc);
        h, d1, d2 := -1, -1, -1;
        return;
      }
      MaySubmit(s, idx, b);
      Enqueue(idx[0], idx[1], idx[2], b, write, blockno * SECTORS, s);
      h, d1, d2 := idx[0], idx[1], idx[2];
    }

    /** The request, once three descriptors have been found in state s. */
    method Enqueue(d0: int, d1: int, d2: int, b: int, write: bool, sector: int, ghost s: State)
      requires CanSubmit(s, d0, d1, d2, b) && S() == s.(free := s.free[d0 := false][d1 := false][d2 := false])
      requires devIdx == ca % UINT16 && Stocked(data, |disk|, |platter|, status, req)
      requires 0 <= sector && sector + SECTORS <= |platter|
      modifies this
      ensures Valid() && S() == Submitted(s, d0, d1, d2, b, write, sector) && data == old(data) && platter == old(platter)
    {
      hide Inv, Count, Active, Submitted, Stocked;
      InvFacts(s);
      StockedWith(data, |disk|, |platter|, status, req, d0, Req(d1, d2, b, write, sector, Queued(ca + |qa|)));
      SubmitKeeps(s, d0, d1, d2, b, write, sector);
      status := status[d0 := 0];
      Publish(d0, d1, d2, b, write, sector);
      SubmittedBy(s, S(), d0, d1, d2, b, write, sector);
    }

    /** Filling in the descriptors and the available ring. */
    method Publish(d0: int, d1: int, d2: int, b: int, write: bool, sector: int)
      requires Sized(S()) && 0 <= d0 < NUM && 0 <= d1 < NUM && 0 <= d2 < NUM && 0 <= b < |disk| && 0 <= availIdx
      modifies `desc, `disk, `info, `avail, `availIdx, `own, `req, `qa
      ensures desc == old(desc)[d0 := Desc(Header(write, sector), true, false, d1)][d1 := Desc(BufData(b), true, !write, d2)]
                               [d2 := Desc(StatusOf(d0), false, true, 0)]
      ensures disk == old(disk)[b := true] && info == old(info)[d0 := b]
      ensures avail == old(avail)[old(availIdx) % NUM := d0] && availIdx == (old(availIdx) + 1) % UINT16
      ensures own == old(own)[d0 := d0][d1 := d0][d2 := d0] && qa == old(qa) + [d0]
      ensures req == old(req)[d0 := Req(d1, d2, b, write, sector, Queued(ca + |old(qa)|))]
    {
      desc := desc[d0 := Desc(Header(write, sector), true, false, d1)][d1 := Desc(BufData(b), true, !write, d2)]
                  [d2 := Desc(StatusOf(d0), false, true, 0)];
      disk, info := disk[b := true], info[d0 := b];
      avail := avail[availIdx % NUM := d0];
      availIdx := (availIdx + 1) % UINT16;
      own := own[d0 := d0][d1 := d0][d2 := d0];
      req := req[d0 := Req(d1, d2, b, write, sector, Queued(ca + |qa|))];
      qa := qa + [d0];
    }

    /** free_chain from a head whose chain is d1, d2. */
    method FreeChain(h: int, ghost d1: int, ghost d2: int)
      requires |free| == |desc| == NUM && 0 <= h < NUM && 0 <= d1 < NUM && 0 <= d2 < NUM && h != d1 && h != d2 && d1 != d2
      requires !free[h] && !free[d1] && !free[d2]
      requires desc[h].more && desc[h].next == d1 && desc[d1].more && desc[d1].next == d2 && !desc[d2].more
      modifies `free, `desc
      ensures free == old(free)[h := true][d1 := true][d2 := true]
      ensures desc == old(desc)[h := old(desc)[h].(addr := NoAddr)][d1 := old(desc)[d1].(addr := NoAddr)]
                               [d2 := old(desc)[d2].(addr := NoAddr)]
    {
      var i := h;
      ghost var n := 0;
      while true
        invariant 0 <= n <= 2 && i == (if n == 0 then h else if n == 1 then d1 else d2)
        invariant |free| == |desc| == NUM
        invariant n == 0 ==> free == old(free) && desc == old(desc)
        invariant n == 1 ==> free == old(free)[h := true] && desc == old(desc)[h := old(desc)[h].(addr := NoAddr)]
        invariant n == 2 ==>
          && free == old(free)[h := true][d1 := true]
          && desc == old(desc)[h := old(desc)[h].(addr := NoAddr)][d1 := old(desc)[d1].(addr := NoAddr)]
        decreases 2 - n
      {
        var freed := FreeDesc(i);
        assert freed;
        if !desc[i].more {
          break;
        }
        i := desc[i].next;
        n := n + 1;
      }
    }

    /** The end of virtio_disk_rw, once the interrupt has cleared b->disk. */
    method Finish(h: int)
      requires Valid() && 0 <= h < |req| == NUM && req[h].Req? && 0 <= req[h].b < |disk| && !disk[req[h].b]
      modifies this
      ensures Valid() && Sized(old(S())) && 0 <= old(req)[h].d1 < NUM && 0 <= old(req)[h].d2 < NUM
      ensures S() == Finished(old(S()), h) && data == old(data) && platter == old(platter)
    {
      hide Inv, Count, Active, Stocked;
      ghost var s := S();
      InvFacts(s);
      ChainOf(s, h);
      FinishKeeps(s, h);
      StockedWith(data, |disk|, |platter|, status, req, h, NoReq);
      GiveBack(h);
    }

    method GiveBack(h: int)
      requires Sized(S()) && 0 <= h < NUM && req[h].Req? && ChainOk(S(), h)
      requires !free[h] && !free[req[h].d1] && !free[req[h].d2]
      modifies `info, `free, `desc, `own, `req
      ensures S() == Finished(old(S()), h) && req == old(req)[h := NoReq]
    {
      info := info[h := -1];
      FreeChain(h, req[h].d1, req[h].d2);
      own := own[h := -1][req[h].d1 := -1][req[h].d2 := -1];
      req := req[h := NoReq];
    }

    /** One round of virtio_disk_intr; a status other than 0 is a panic. */
    method DeliverOne(ghost s: State) returns (ok: bool)
      requires Valid() && qu != [] && Inv(s) && AllDelivered(s, S())
      modifies `disk, `usedIdx, `req, `qu, `cu
      ensures ok && Valid() && AllDelivered(s, S()) && |qu| == |old(qu)| - 1
    {
      hide Inv, Count, Active, AllDelivered, Stocked, Delivered;
      ghost var s1 := S();
      InvFacts(s1);
      OldestUsed(s1);
      StockedFacts(data, |disk|, |platter|, status, req, qu[0]);
      StockedWith(data, |disk|, |platter|, status, req, qu[0], req[qu[0]].(stage := Seen));
      DeliverKeeps(s1);
      DeliveredStep(s, s1);
      ok := status[used[usedIdx]] == 0;
      DeliverOldest();
    }

    method DeliverOldest()
      requires Sized(S()) && 0 <= usedIdx < NUM && qu != [] && UsedOk(S(), 0) && used[usedIdx] == qu[0] && ChainOk(S(), qu[0])
      modifies `disk, `usedIdx, `req, `qu, `cu
      ensures S() == Delivered(old(S())) && |qu| == |old(qu)| - 1 && |disk| == |old(disk)| && req == old(req)[old(qu[0]) := old(req[qu[0]]).(stage := Seen)]
    {
      var id := used[usedIdx];
      disk := disk[info[id] := false];
      usedIdx := (usedIdx + 1) % NUM;
      req := req[id := req[id].(stage := Seen)];
      qu, cu := qu[1..], cu + 1;
    }

    /** virtio_disk_intr: every request on the used ring is delivered, once, to its own
        buffer, and nothing else happens.  No request has failed, so it does not panic. */
    method Intr() returns (ok: bool)
      requires Valid()
      modifies `disk, `usedIdx, `req, `qu, `cu
      ensures ok && Valid() && qu == [] && AllDelivered(old(S()), S())
    {
      ok := true;
      hide Inv, Count, Active, AllDelivered;
      ghost var s := S();
      DeliveredStart(s);
      CompareIsExact(s);
      while usedIdx % NUM != usedId % NUM
        invariant Valid() && AllDelivered(s, S())
        invariant usedIdx % NUM != usedId % NUM <==> qu != []
        decreases |qu|
      {
        ok := DeliverOne(s);
        if !ok {
          return;
        }
        CompareIsExact(S());
      }
    }

    /** The device takes the next request: the one whose head the ring names. */
    method DeviceTake() returns (h: int)
      requires Valid() && devIdx != availIdx
      modifies `req, `qa, `ca, `devIdx
      ensures Valid() && old(qa) != [] && h == old(qa)[0] && 0 <= h < |old(req)| && old(req)[h].Req?
      ensures S() == DeviceTook(old(S()))
    {
      hide Inv, Count, Active;
      ghost var s := S();
      InvFacts(s);
      SomethingQueued(s);
      DeviceTakeKeeps(s);
      WrapMod(ca);
      NextIndex(ca);
      h := avail[devIdx % NUM];
      devIdx := (devIdx + 1) % UINT16;
      req := req[h := req[h].(stage := Taken)];
      qa, ca := qa[1..], ca + 1;
      assert S() == DeviceTook(s);
    }

    /** The device does what the chain from h says: it moves a block and writes the status byte,
        or reports a chain that it cannot make sense of. */
    method Transfer(h: int) returns (done: int)
      requires |desc| == |status| == NUM && 0 <= h < NUM && forall b | 0 <= b < |data| :: |data[b]| == SECTORS
      modifies `data, `platter, `status
      ensures done == 0 <==> WellMade(desc, h, |old(data)|, |old(platter)|)
      ensures done != 0 ==> data == old(data) && platter == old(platter) && status == old(status)
      ensures done == 0 ==>
        var d := desc[desc[h].next];
        var b, sector := d.addr.b, desc[h].addr.sector;
        && status == old(status)[desc[d.next].addr.d0 := 0]
        && (if d.dev then platter == old(platter) && data == old(data)[b := old(platter)[sector..sector + SECTORS]]
            else data == old(data) && platter == Stored(old(platter), sector, data[b]))
    {
      if !WellMade(desc, h, |data|, |platter|) {
        return 1;
      }
      var d := desc[desc[h].next];
      var b, sector := d.addr.b, desc[h].addr.sector;
      if d.dev {
        data := data[b := platter[sector..sector + SECTORS]];
      } else {
        platter := Stored(platter, sector, data[b]);
      }
      status := status[desc[d.next].addr.d0 := 0];
      done := 0;
    }

    /** The device serves a request it took, in whatever order it likes: the block that the
        request names goes from the buffer to the disk or from the disk to the buffer, no other
        block and no other buffer changes, and the head goes on the used ring. */
    method DeviceDone(h: int)
      requires Valid() && 0 <= h < |req| == NUM && req[h].Req? && req[h].stage.Taken?
      modifies `used, `usedId, `req, `qu, `data, `platter, `status
      ensures Valid() && Sized(old(S())) && S() == DeviceDid(old(S()), h)
      ensures
        var r := old(req)[h];
        && 0 <= r.b < |data| == |old(data)| && 0 <= r.sector && r.sector + SECTORS <= |old(platter)|
        && |old(data)[r.b]| == SECTORS
        && (if r.write then data == old(data) && platter == Stored(old(platter), r.sector, data[r.b])
            else platter == old(platter) && data == old(data)[r.b := platter[r.sector..r.sector + SECTORS]])
    {
      hide Inv, Count, Active, Stocked, WellMade, ChainOk;
      ghost var s := S();
      InvFacts(s);
      StockedFacts(data, |disk|, |platter|, status, req, h);
      ChainOf(s, h);
      ChainMade(s, h, |platter|);
      BufferOf(s, h);
      StockedBlock(data, |disk|, |platter|, status, req, req[h].b, platter[req[h].sector..req[h].sector + SECTORS]);
      var done := Transfer(h);
      assert status == old(status)[h := 0] == old(status);
      StockedWith(data, |disk|, |platter|, status, req, h, req[h].(stage := Done(cu + |qu|)));
      Report(h);
    }

    /** The device puts a request on the used ring. */
    method Report(h: int)
      requires Inv(S()) && 0 <= h < |req| == NUM && req[h].Req? && req[h].stage.Taken?
      modifies `used, `usedId, `req, `qu
      ensures Inv(S()) && Sized(old(S())) && S() == DeviceDid(old(S()), h)
    {
      hide Inv, Count, Active;
      ghost var s := S();
      InvFacts(s);
      DeviceDoneKeeps(s, h);
      req := req[h := req[h].(stage := Done(cu + |qu|))];
      qu := qu + [h];
      used := used[usedId % NUM := h];
      usedId := (usedId + 1) % UINT16;
      assert S() == DeviceDid(s, h);
    }

    /** The device takes requests in order until it has taken h. */
    method DeviceTakes(h: int)
      requires Valid() && 0 <= h < |req| == NUM && req[h].Req? && req[h].stage.Queued?
      modifies `req, `qa, `ca, `devIdx
      ensures Valid() && |req| == NUM && req[h] == old(req)[h].(stage := Taken)
    {
      hide Inv, Count, Active, Stocked;
      Waits(S(), h);
      var g := DeviceTake();
      while g != h
        invariant Valid() && |req| == NUM && req[h] == if g == h then old(req)[h].(stage := Taken) else old(req)[h]
        decreases |qa|
      {
        Waits(S(), h);
        g := DeviceTake();
      }
    }

    /** The device takes request h and serves it, and the interrupt delivers it. */
    method Serve(h: int)
      requires Valid() && 0 <= h < |req| == NUM && req[h].Req? && req[h].stage.Queued?
      modifies `req, `qa, `ca, `devIdx, `used, `usedId, `qu, `data, `platter, `status, `disk, `usedIdx, `cu
      ensures
        var r := old(req)[h];
        && Valid() && |req| == NUM && req[h] == r.(stage := Seen) && 0 <= r.b < |disk| == |data| == |old(data)| && !disk[r.b]
        && 0 <= r.sector && r.sector + SECTORS <= |old(platter)| && |old(data)[r.b]| == SECTORS
        && (if r.write then data == old(data) && platter == Stored(old(platter), r.sector, data[r.b])
            else platter == old(platter) && data == old(data)[r.b := platter[r.sector..r.sector + SECTORS]])
    {
      hide Inv, Count, Active, AllDelivered, Stocked;
      InvFacts(S());
      DeviceTakes(h);
      DeviceDone(h);
      ghost var s := S();
      var fine := Intr();
      NowSeen(s, S(), h);
      StockedFacts(data, |disk|, |platter|, status, req, h);
    }

    /** virtio_disk_rw from beginning to end, with a device that gets to it, whatever other
        requests are in flight: the block is on the disk, or in the buffer, and no other block
        or buffer has changed. */
    method ReadWrite(b: int, write: bool, blockno: int) returns (ok: bool)
      requires Valid() && 0 <= b < |disk| && forall g | 0 <= g < |req| && req[g].Req? :: req[g].b != b
      requires 0 <= blockno && (blockno + 1) * SECTORS <= |platter|
      modifies this
      ensures Valid() && (ok <==> Active(old(req)) < 2) && Active(req) == Active(old(req))
      ensures !ok ==> data == old(data) && platter == old(platter)
      ensures ok && write ==> data == old(data) && platter == Stored(old(platter), blockno * SECTORS, data[b])
      ensures ok && !write ==> platter == old(platter) && data == old(data)[b := BlockOf(platter, blockno)]
    {
      hide Inv, Count, Active, AllDelivered, Submitted, Stocked, CanSubmit, ChainOk;
      InvFacts(S());
      ghost var s0 := S();
      var h;
      ghost var d1, d2;
      ok, h, d1, d2 := Submit(b, write, blockno);
      InvFacts(S());
      if !ok {
        return;
      }
      SubmitFacts(s0, h, d1, d2, b);
      SubmittedIs(s0, h, d1, d2, b, write, blockno * SECTORS);
      Serve(h);
      InvFacts(S());
      Finish(h);
      InvFacts(S());
      FreeAgain(s0.free, h, d1, d2);
    }
  }

  lemma BufferOf(s: State, h: int)
    requires Sized(s) && 0 <= h < NUM && s.req[h].Req? && ChainOk(s, h)
    ensures 0 <= s.req[h].b < |s.disk|
  {}

  lemma TouchedKeeps(s: State, desc: seq<Desc>)
    requires Inv(s) && Touched(s.free, s.desc, desc)
    ensures Inv(s.(desc := desc))
  {
    FreeDescKeeps(s, desc);
  }

  lemma MaySubmit(s: State, idx: seq<int>, b: int)
    requires Inv(s) && Sized(s) && Three(s.free, idx) && 0 <= b < |s.disk|
    requires forall g | 0 <= g < |s.req| && s.req[g].Req? :: s.req[g].b != b
    ensures |idx| == 3 && 0 <= idx[0] < NUM && 0 <= idx[1] < NUM && 0 <= idx[2] < NUM && CanSubmit(s, idx[0], idx[1], idx[2], b)
  {}

  /** The chain of a request in flight is one that the device can serve. */
  lemma ChainMade(s: State, h: int, sectors: int)
    requires Sized(s) && 0 <= h < NUM && s.req[h].Req? && ChainOk(s, h)
    requires 0 <= s.req[h].sector && s.req[h].sector + SECTORS <= sectors
    ensures WellMade(s.desc, h, |s.disk|, sectors)
    ensures
      var d := s.desc[s.desc[h].next];
      d.addr.b == s.req[h].b && d.dev == !s.req[h].write && s.desc[h].addr.sector == s.req[h].sector && s.desc[d.next].addr.d0 == h
  {}

  lemma SubmitFacts(s: State, d0: int, d1: int, d2: int, b: int)
    requires CanSubmit(s, d0, d1, d2, b)
    ensures Sized(s) && 0 <= d0 < NUM && 0 <= d1 < NUM && 0 <= d2 < NUM && s.free[d0] && s.free[d1] && s.free[d2]
  {}

  /** Block n of the disk. */
  function BlockOf(platter: seq<int>, n: int): seq<int>
    requires 0 <= n && (n + 1) * SECTORS <= |platter|
  {
    platter[n * SECTORS..(n + 1) * SECTORS]
  }

  /** Writing one block changes that block and no other. */
  lemma StoredBlock(platter: seq<int>, m: int, block: seq<int>, n: int)
    requires 0 <= m && (m + 1) * SECTORS <= |platter| && 0 <= n && (n + 1) * SECTORS <= |platter| && |block| == SECTORS
    ensures BlockOf(Stored(platter, m * SECTORS, block), n) == if n == m then block else BlockOf(platter, n)
  {}

  /** A request that the device has still to take keeps the two indices apart. */
  lemma Waits(s: State, h: int)
    requires Inv(s) && 0 <= h < |s.req| && s.req[h].Req? && s.req[h].stage.Queued?
    ensures s.ca % UINT16 != s.availIdx
  {
    assert StageOk(s, h);
    SomethingQueued(s);
  }

  lemma NowSeen(s: State, s1: State, h: int)
    requires AllDelivered(s, s1) && s1.qu == [] && 0 <= h < NUM && 0 <= h < |s.req| && s.req[h].Req? && s.req[h].stage.Done?
    ensures |s1.req| == NUM && s1.req[h] == s.req[h].(stage := Seen) && 0 <= s.req[h].b < |s1.disk| && !s1.disk[s.req[h].b]
    ensures s1.free == s.free
  {}

  /** Three descriptors taken and given back. */
  lemma FreeAgain(f: seq<bool>, h: int, d1: int, d2: int)
    requires |f| == NUM && 0 <= h < NUM && 0 <= d1 < NUM && 0 <= d2 < NUM && f[h] && f[d1] && f[d2]
    ensures f[h := false][d1 := false][d2 := false][h := true][d1 := true][d2 := true] == f
  {}

  /** The device sees a different index exactly when a request is waiting. */
  lemma SomethingQueued(s: State)
    requires Inv(s)
    ensures s.ca % UINT16 != s.availIdx <==> s.qa != []
  {
    AtMostTwo(s);
    if |s.qa| == 1 { Near16(s.ca, 1); } else if |s.qa| == 2 { Near16(s.ca, 2); }
  }

  lemma Near16(x: int, k: int)
    requires 0 < k < UINT16
    ensures (x + k) % UINT16 != x % UINT16
  {}

  /** The request that was made, and the descriptors it left free. */
  lemma SubmittedIs(s: State, d0: int, d1: int, d2: int, b: int, write: bool, sector: int)
    requires Sized(s) && 0 <= d0 < NUM && 0 <= d1 < NUM && 0 <= d2 < NUM && 0 <= b < |s.disk|
    ensures Submitted(s, d0, d1, d2, b, write, sector).req[d0] == Req(d1, d2, b, write, sector, Queued(s.ca + |s.qa|))
    ensures Submitted(s, d0, d1, d2, b, write, sector).free == s.free[d0 := false][d1 := false][d2 := false]
    ensures |Submitted(s, d0, d1, d2, b, write, sector).req| == NUM
  {}

  /** The rings and the books after a request in d0, d1, d2. */
  lemma SubmittedBy(s: State, s1: State, d0: int, d1: int, d2: int, b: int, write: bool, sector: int)
    requires Sized(s) && 0 <= d0 < NUM && 0 <= d1 < NUM && 0 <= d2 < NUM && 0 <= b < |s.disk|
    requires s1 == s.(free := s.free[d0 := false][d1 := false][d2 := false], desc := s1.desc, disk := s.disk[b := true],
                      info := s.info[d0 := b], avail := s.avail[s.availIdx % NUM := d0], availIdx := (s.availIdx + 1) % UINT16,
                      own := s1.own, qa := s.qa + [d0], req := s1.req)
    requires s1.desc == s.desc[d0 := Desc(Header(write, sector), true, false, d1)][d1 := Desc(BufData(b), true, !write, d2)]
                              [d2 := Desc(StatusOf(d0), false, true, 0)]
    requires s1.own == s.own[d0 := d0][d1 := d0][d2 := d0]
    requires s1.req == s.req[d0 := Req(d1, d2, b, write, sector, Queued(s.ca + |s.qa|))]
    ensures s1 == Submitted(s, d0, d1, d2, b, write, sector)
  {}

  lemma InvFacts(s: State)
    requires Inv(s)
    ensures Sized(s) && |s.free| == |s.desc| == |s.req| == NUM && Count(s.free) == NUM - 3 * Active(s.req)
    ensures 0 <= s.availIdx && 0 <= s.usedIdx < NUM && 0 <= s.usedId
  {}

  lemma {:induction false} AllFree(f: seq<bool>)
    requires forall j | 0 <= j < |f| :: f[j]
    ensures Count(f) == |f|
  {
    if f != [] { AllFree(f[..|f| - 1]); }
  }

  lemma {:induction false} NoneActive(r: seq<Req>)
    requires forall j | 0 <= j < |r| :: r[j].NoReq?
    ensures Active(r) == 0
  {
    if r != [] { NoneActive(r[..|r| - 1]); }
  }

  /** From s to s1 requests may have gone from Done to Seen, with b->disk cleared for
      their buffers; nothing else changed but the driver's place on the used ring. */
  ghost predicate AllDelivered(s: State, s1: State) {
    && Sized(s) && Sized(s1) && |s1.disk| == |s.disk|
    && s1 == s.(req := s1.req, disk := s1.disk, usedIdx := s1.usedIdx, qu := s1.qu, cu := s1.cu)
    && (forall h | 0 <= h < NUM ::
          || s1.req[h] == s.req[h]
          || (s.req[h].Req? && s.req[h].stage.Done? && s1.req[h] == s.req[h].(stage := Seen)
              && 0 <= s.req[h].b < |s.disk| && !s1.disk[s.req[h].b]))
    && (forall b | 0 <= b < |s.disk| && s1.disk[b] != s.disk[b] ::
          exists h | 0 <= h < NUM :: s.req[h].Req? && s.req[h].b == b && s1.req[h] != s.req[h])
    && (s1.qu == [] ==> forall h | 0 <= h < NUM && s1.req[h].Req? :: !s1.req[h].stage.Done?)
  }

  lemma DeliveredStart(s: State)
    requires Inv(s)
    ensures AllDelivered(s, s)
  {
    forall h | 0 <= h < NUM && s.req[h].Req? ensures s.qu == [] ==> !s.req[h].stage.Done? {
      assert StageOk(s, h);
    }
  }

  lemma DeliveredStep(s: State, s1: State)
    requires Inv(s) && Inv(s1) && AllDelivered(s, s1) && s1.qu != [] && Sized(s1) && UsedOk(s1, 0) && ChainOk(s1, s1.qu[0])
    requires Inv(Delivered(s1))
    ensures AllDelivered(s, Delivered(s1))
  {
    var s2 := Delivered(s1);
    forall h | 0 <= h < NUM && s2.req[h].Req? ensures s2.qu == [] ==> !s2.req[h].stage.Done? {
      assert StageOk(s2, h);
    }
    var g := s1.qu[0];
    assert s1.req[g] == s.req[g];
    forall b | 0 <= b < |s.disk| && s2.disk[b] != s.disk[b]
      ensures exists h | 0 <= h < NUM :: s.req[h].Req? && s.req[h].b == b && s2.req[h] != s.req[h]
    {
      if b == s1.req[g].b {
        assert s.req[g].Req? && s.req[g].b == b && s2.req[g] != s.req[g];
      } else {
        var h :| 0 <= h < NUM && s.req[h].Req? && s.req[h].b == b && s1.req[h] != s.req[h];
        assert h != g;
      }
    }
  }

  lemma {:induction false} NoneFree(f: seq<bool>)
    requires forall j | 0 <= j < |f| :: !f[j]
    ensures Count(f) == 0
  {
    if f != [] { NoneFree(f[..|f| - 1]); }
  }

  /** Only descriptors that are free changed. */
  ghost predicate Touched(free: seq<bool>, desc: seq<Desc>, desc1: seq<Desc>) {
    |desc| == |desc1| == |free| && forall d | 0 <= d < |free| && !free[d] :: desc1[d] == desc[d]
  }

  ghost predicate Three(free: seq<bool>, idx: seq<int>) {
    && |idx| == 3 && |free| == NUM && idx[0] != idx[1] && idx[0] != idx[2] && idx[1] != idx[2]
    && forall j | 0 <= j < 3 :: 0 <= idx[j] < NUM && free[idx[j]]
  }

  ghost function Without3(free: seq<bool>, idx: seq<int>): seq<bool>
    requires Three(free, idx)
  {
    free[idx[0] := false][idx[1] := false][idx[2] := false]
  }
}
