/** Log space reservation by begin_op, log_write and end_op (kernel/log.c), over every
    interleaving of operations that each add at most MAXOPBLOCKS blocks to the log. */
module Reservation {
  import opened Basics
  import opened LogDisk
  import Storage

  /** lh: the logged blocks; ops: for each outstanding operation, how many blocks it added. */
  datatype Log = Log(lh: seq<int>, ops: seq<int>, committing: bool)

  datatype Event =
    | Begin                        // begin_op returns
    | Write(op: int, b: int)       // log_write by an outstanding operation
    | End(op: int)                 // the locked part of end_op
    | Finish                       // the rest of end_op: commit, then release waiters

  const Idle := Log([], [], false)

  /** log_write's first check. */
  predicate TooBig(size: int, s: Log) {
    |s.lh| >= LOGSIZE || |s.lh| >= size - 1
  }

  /** Events that can happen without a panic, for a log of `size` blocks. */
  predicate Enabled(size: int, s: Log, e: Event) {
    match e
    case Begin => !s.committing && |s.lh| + (|s.ops| + 1) * MAXOPBLOCKS <= LOGSIZE
    case Write(op, b) => 0 <= op < |s.ops| && (b in s.lh || s.ops[op] < MAXOPBLOCKS) && !TooBig(size, s)
    case End(op) => 0 <= op < |s.ops| && !s.committing
    case Finish => s.committing
  }

  function After(s: Log, e: Event): (r: Log)
    requires e.Write? || e.End? ==> 0 <= e.op < |s.ops|
  {
    match e
    case Begin => s.(ops := s.ops + [0])
    case Write(op, b) => if b in s.lh then s else s.(lh := s.lh + [b], ops := s.ops[op := s.ops[op] + 1])
    case End(op) =>
      var rest := s.ops[..op] + s.ops[op + 1..];
      s.(ops := rest, committing := rest == [])
    case Finish => s.(lh := [], committing := false)
  }

  ghost predicate Reaches(size: int, s: Log, es: seq<Event>, t: Log)
    decreases |es|
  {
    if es == [] then s == t else Enabled(size, s, es[0]) && Reaches(size, After(s, es[0]), es[1..], t)
  }

  ghost predicate Reachable(size: int, s: Log) {
    exists es :: Reaches(size, Idle, es, s)
  }

  // ---- what every interleaving keeps ----

  /** Blocks that outstanding operations may still add. */
  function Unused(ops: seq<int>): int {
    if ops == [] then 0 else Unused(ops[..|ops| - 1]) + MAXOPBLOCKS - ops[|ops| - 1]
  }

  ghost predicate Inv(s: Log) {
    && |s.lh| + Unused(s.ops) <= LOGSIZE
    && Distinct(s.lh)
    && (forall i | 0 <= i < |s.ops| :: 0 <= s.ops[i] <= MAXOPBLOCKS)
    && (s.committing ==> s.ops == [])
  }

  lemma {:induction false} UnusedBounds(ops: seq<int>, i: nat)
    requires forall j | 0 <= j < |ops| :: 0 <= ops[j] <= MAXOPBLOCKS
    ensures 0 <= Unused(ops) <= |ops| * MAXOPBLOCKS
    ensures i < |ops| ==> MAXOPBLOCKS - ops[i] <= Unused(ops)
  {
    if ops != [] {
      UnusedBounds(ops[..|ops| - 1], if i < |ops| - 1 then i else 0);
    }
  }

  lemma {:induction false} UnusedUpdate(ops: seq<int>, i: nat, v: int)
    requires i < |ops|
    ensures Unused(ops[i := v]) == Unused(ops) + ops[i] - v
  {
    var n := |ops| - 1;
    if i < n {
      UnusedUpdate(ops[..n], i, v);
      assert ops[i := v][..n] == ops[..n][i := v];
    } else {
      assert ops[i := v][..n] == ops[..n];
    }
  }

  lemma UnusedAppend(ops: seq<int>, v: int)
    ensures Unused(ops + [v]) == Unused(ops) + MAXOPBLOCKS - v
  {
    assert (ops + [v])[..|ops|] == ops;
  }

  /** Taking element i out leaves what was before it and what was after it. */
  lemma RemoveLast(ops: seq<int>, i: nat)
    requires i < |ops| - 1
    ensures
      var init := ops[..|ops| - 1];
      ops[..i] + ops[i + 1..] == init[..i] + init[i + 1..] + [ops[|ops| - 1]]
  {}

  lemma {:induction false} UnusedRemove(ops: seq<int>, i: nat)
    requires i < |ops|
    ensures Unused(ops[..i] + ops[i + 1..]) == Unused(ops) + ops[i] - MAXOPBLOCKS
  {
    var n := |ops| - 1;
    if i < n {
      var init := ops[..n];
      UnusedRemove(init, i);
      RemoveLast(ops, i);
      UnusedAppend(init[..i] + init[i + 1..], ops[n]);
    } else {
      assert ops[..i] + ops[i + 1..] == ops[..n];
    }
  }

  lemma StepKeeps(size: int, s: Log, e: Event)
    requires Inv(s) && Enabled(size, s, e)
    ensures Inv(After(s, e))
  {
    match e {
      case Begin =>
        UnusedBounds(s.ops, 0);
        assert (s.ops + [0])[..|s.ops|] == s.ops;
      case Write(op, b) =>
        UnusedUpdate(s.ops, op, s.ops[op] + 1);
      case End(op) =>
        UnusedRemove(s.ops, op);
      case Finish =>
    }
  }

  /** Over every interleaving the logged blocks are distinct and, with all unused
      reservations, fit in the log, and a commit runs only when no operation is outstanding. */
  lemma {:induction false} RunKeeps(size: int, s: Log, es: seq<Event>, t: Log)
    requires Inv(s) && Reaches(size, s, es, t)
    ensures Inv(t)
    decreases |es|
  {
    if es != [] {
      StepKeeps(size, s, es[0]);
      RunKeeps(size, After(s, es[0]), es[1..], t);
    }
  }

  lemma ReachableKeeps(size: int, s: Log)
    requires Reachable(size, s)
    ensures Inv(s)
  {
    var es :| Reaches(size, Idle, es, s);
    RunKeeps(size, Idle, es, s);
  }

  /** end_op never finds a commit already running. */
  lemma EndNeverPanics(size: int, s: Log, op: int)
    requires Reachable(size, s) && 0 <= op < |s.ops|
    ensures Enabled(size, s, End(op))
  {
    ReachableKeeps(size, s);
  }

  // ---- when log_write's check can fire ----

  /** A full log: k blocks written by three operations begun together. */
  function Filled(k: nat): Log
    requires k <= LOGSIZE
  {
    Log(seq(k, i => i),
        [if k < 10 then k else 10, if k < 10 then 0 else if k < 20 then k - 10 else 10, if k < 20 then 0 else k - 20],
        false)
  }

  lemma {:induction false} ReachesThen(size: int, s: Log, es: seq<Event>, t: Log, e: Event)
    requires Reaches(size, s, es, t) && Enabled(size, t, e)
    ensures Reaches(size, s, es + [e], After(t, e))
    decreases |es|
  {
    if es == [] {
      assert [e][1..] == [];
    } else {
      ReachesThen(size, After(s, es[0]), es[1..], t, e);
      assert (es + [e])[1..] == es[1..] + [e];
    }
  }

  lemma {:induction false} FilledReachable(size: int, k: nat)
    requires k <= LOGSIZE && (k == 0 || k < size)
    ensures Reachable(size, Filled(k))
  {
    if k == 0 {
      var s1, s2 := After(Idle, Begin), After(After(Idle, Begin), Begin);
      assert After(s2, Begin) == Filled(0);
      assert Reaches(size, Idle, [], Idle);
      ReachesThen(size, Idle, [], Idle, Begin);
      ReachesThen(size, Idle, [] + [Begin], s1, Begin);
      ReachesThen(size, Idle, [] + [Begin] + [Begin], s2, Begin);
    } else {
      FilledReachable(size, k - 1);
      var s, e := Filled(k - 1), Write((k - 1) / 10, k - 1);
      var es :| Reaches(size, Idle, es, s);
      assert k - 1 !in s.lh;
      assert After(s, e) == Filled(k);
      ReachesThen(size, Idle, es, s, e);
    }
  }

  /** An operation that has not used up its budget never finds the log too big, whether it
      writes a new block or a logged one, in any interleaving, exactly when the log has more
      than LOGSIZE blocks; otherwise some new block does not fit. */
  lemma BudgetedWritesFit(size: int)
    ensures size > LOGSIZE <==>
            forall s, op, b :: Reachable(size, s) && 0 <= op < |s.ops| && s.ops[op] < MAXOPBLOCKS && b !in s.lh ==>
              Enabled(size, s, Write(op, b))
    ensures size > LOGSIZE <==>
            forall s, op, b :: Reachable(size, s) && 0 <= op < |s.ops| && s.ops[op] < MAXOPBLOCKS ==>
              Enabled(size, s, Write(op, b))
  {
    if size > LOGSIZE {
      forall s, op, b | Reachable(size, s) && 0 <= op < |s.ops| && s.ops[op] < MAXOPBLOCKS
        ensures Enabled(size, s, Write(op, b))
      {
        ReachableKeeps(size, s);
        UnusedBounds(s.ops, op);
      }
    } else {
      var k: nat := if size <= 1 then 0 else size - 1;
      FilledReachable(size, k);
      assert !Enabled(size, Filled(k), Write(2, k)) && Filled(k).ops[2] < MAXOPBLOCKS && k !in Filled(k).lh;
    }
  }

  /** The image mkfs writes has exactly LOGSIZE log blocks, so the thirtieth new block of
      three operations that keep to their budgets panics. */
  lemma ShippedSizePanics()
    ensures exists s, op, b :: Reachable(LOGSIZE, s) && 0 <= op < |s.ops| && s.ops[op] < MAXOPBLOCKS && b !in s.lh
                               && !Enabled(LOGSIZE, s, Write(op, b))
  {
    FilledReachable(LOGSIZE, LOGSIZE - 1);
    var s := Filled(LOGSIZE - 1);
    assert !Enabled(LOGSIZE, s, Write(2, 29)) && s.ops[2] < MAXOPBLOCKS && 29 !in s.lh;
  }

  /** In a log of more than LOGSIZE blocks a write that only repeats a logged block panics
      exactly when LOGSIZE blocks are logged, and then every budget is used up: the check
      comes before the search for the block. */
  lemma AbsorbedPanicsIff(size: int, s: Log, op: int, b: int)
    requires size > LOGSIZE && Reachable(size, s) && 0 <= op < |s.ops| && b in s.lh
    ensures !Enabled(size, s, Write(op, b)) <==> |s.lh| == LOGSIZE
    ensures |s.lh| == LOGSIZE ==> Unused(s.ops) == 0 && s.ops[op] == MAXOPBLOCKS
  {
    ReachableKeeps(size, s);
    UnusedBounds(s.ops, op);
  }

  /** No size makes repeated writes safe in every interleaving, save one that admits no write. */
  lemma AbsorbedWritesFit(size: int)
    ensures (forall s, op, b :: Reachable(size, s) && 0 <= op < |s.ops| && b in s.lh ==> Enabled(size, s, Write(op, b)))
            <==> size <= 1
  {
    if size <= 1 {
      forall s | Reachable(size, s) ensures s.lh == [] {
        var es :| Reaches(size, Idle, es, s);
        NothingLogged(size, Idle, es, s);
      }
    } else {
      var k: nat := if size <= LOGSIZE then size - 1 else LOGSIZE;
      FilledReachable(size, k);
      var s := Filled(k);
      assert s.lh[0] == 0;
      assert !Enabled(size, s, Write(0, 0)) && 0 in s.lh;
    }
  }

  lemma {:induction false} NothingLogged(size: int, s: Log, es: seq<Event>, t: Log)
    requires size <= 1 && s.lh == [] && Reaches(size, s, es, t)
    ensures t.lh == []
    decreases |es|
  {
    if es != [] {
      NothingLogged(size, After(s, es[0]), es[1..], t);
    }
  }

  /** A log never holds more blocks than it has slots. */
  lemma {:induction false} LogBounded(size: int, s: Log, es: seq<Event>, t: Log)
    requires Reaches(size, s, es, t) && (s.lh == [] || |s.lh| < size)
    ensures t.lh == [] || |t.lh| < size
    decreases |es|
  {
    if es != [] {
      LogBounded(size, After(s, es[0]), es[1..], t);
    }
  }

  lemma EndReachable(size: int, lh: seq<int>, ops: seq<int>)
    requires ops != [] && Reachable(size, Log(lh, ops, false))
    ensures Reachable(size, Log(lh, ops[1..], ops[1..] == []))
  {
    var s := Log(lh, ops, false);
    var es :| Reaches(size, Idle, es, s);
    ReachesThen(size, Idle, es, s, End(0));
    assert ops[..0] + ops[1..] == ops[1..];
  }

  /** A commit can find its buffers only if fewer than NBUF blocks are logged (LogLimits.CommitAll).
      In every interleaving it has so few exactly when the log has at most LOGSIZE blocks, the
      sizes for which some write panics (BudgetedWritesFit): no size of the log is safe. */
  lemma CommitsFindBuffers(size: int)
    ensures (forall s :: Reachable(size, s) && s.committing ==> |s.lh| < Storage.NBUF) <==> size <= LOGSIZE
  {
    if size <= LOGSIZE {
      forall s | Reachable(size, s) ensures |s.lh| < Storage.NBUF {
        var es :| Reaches(size, Idle, es, s);
        LogBounded(size, Idle, es, s);
      }
    } else {
      var lh := Filled(LOGSIZE).lh;
      FilledReachable(size, LOGSIZE);
      EndReachable(size, lh, [10, 10, 10]);
      EndReachable(size, lh, [10, 10]);
      EndReachable(size, lh, [10]);
      assert Log(lh, [], true).committing;
    }
  }

  // ---- nobody waits in vain ----

  /** With no operation and no commit about, nothing is logged. */
  ghost predicate Settled(s: Log) {
    s.ops == [] && !s.committing ==> s.lh == []
  }

  lemma {:induction false} StaysSettled(size: int, s: Log, es: seq<Event>, t: Log)
    requires Settled(s) && Reaches(size, s, es, t)
    ensures Settled(t)
    decreases |es|
  {
    if es != [] { StaysSettled(size, After(s, es[0]), es[1..], t); }
  }

  lemma ReachesOn(size: int, s: Log, e: Event, es: seq<Event>, t: Log)
    requires Enabled(size, s, e) && Reaches(size, After(s, e), es, t)
    ensures Reaches(size, s, [e] + es, t)
  {
    assert ([e] + es)[1..] == es;
  }

  lemma {:induction false} Empties(size: int, s: Log) returns (es: seq<Event>)
    requires Settled(s) && (s.committing ==> s.ops == [])
    ensures Reaches(size, s, es, Idle)
    decreases |s.ops|, s.committing
  {
    if s.committing {
      assert Reaches(size, Idle, [], Idle);
      ReachesOn(size, s, Finish, [], Idle);
      es := [Finish];
    } else if s.ops == [] {
      es := [];
    } else {
      var rest := Empties(size, After(s, End(0)));
      ReachesOn(size, s, End(0), rest, Idle);
      es := [End(0)] + rest;
    }
  }

  /** Whatever has happened, the log can be emptied without a panic, and then begin_op lets as
      many operations in as LOGSIZE / MAXOPBLOCKS. */
  lemma OperationsGetIn(size: int, s: Log)
    requires Reachable(size, s)
    ensures exists es :: Reaches(size, s, es, Idle)
    ensures Reaches(size, Idle, [Begin, Begin, Begin], Log([], [0, 0, 0], false))
    ensures !Enabled(size, Log([], [0, 0, 0], false), Begin)
  {
    ReachableKeeps(size, s);
    var fs :| Reaches(size, Idle, fs, s);
    StaysSettled(size, Idle, fs, s);
    var es := Empties(size, s);
    var s1, s2, s3 := Log([], [0], false), Log([], [0, 0], false), Log([], [0, 0, 0], false);
    assert Reaches(size, s3, [], s3);
    ReachesOn(size, s2, Begin, [], s3);
    ReachesOn(size, s1, Begin, [Begin], s3);
    ReachesOn(size, Idle, Begin, [Begin, Begin], s3);
    assert [Begin] + [] == [Begin] && [Begin] + [Begin] == [Begin, Begin] && [Begin] + [Begin, Begin] == [Begin, Begin, Begin];
  }
}
