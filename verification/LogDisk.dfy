/** The on-disk redo log: header block format, the disk images that a commit and
    a recovery pass through, and what a crash at any of them leaves behind.

    A disk is a sequence of blocks; writing one block is the only atomic step. */
module LogDisk {
  import opened Basics

  const WORDS := 256            // 32-bit words in a block of BSIZE == 1024 bytes
  const LOGSIZE := MAXOPBLOCKS * 3

  type Words = w: seq<int> | |w| == WORDS witness seq(WORDS, _ => 0)
  datatype Block = Block(words: Words)
  type Disk = seq<Block>

  /** The log occupies blocks start .. start+size-1; block start is the header. */
  datatype Layout = Layout(start: nat, size: nat)

  ghost predicate InLog(l: Layout, b: int) {
    l.start <= b < l.start + l.size
  }

  // ---- header block ----

  function HeaderBlocks(b: Block): (hs: seq<int>)
    requires 0 <= b.words[0] < WORDS
  {
    b.words[1..1 + b.words[0]]
  }

  /** What write_head leaves in the header buffer: words past the listed blocks
      keep their previous contents. */
  function EncodeHeader(prev: Block, hs: seq<int>): (b: Block)
    requires |hs| < WORDS
    ensures b.words[0] == |hs| && HeaderBlocks(b) == hs
    ensures b.words[1 + |hs|..] == prev.words[1 + |hs|..]
  {
    Block([|hs|] + hs + prev.words[1 + |hs|..])
  }

  /** struct logheader, word by word: n, then block[0], block[1], ...; what is past block[n - 1]
      stays and is not looked at. */
  lemma HeaderWords(prev: Block, hs: seq<int>, b: Block)
    requires |hs| < WORDS
    ensures EncodeHeader(prev, hs).words[0] == |hs|
    ensures forall i | 0 <= i < |hs| :: EncodeHeader(prev, hs).words[1 + i] == hs[i]
    ensures forall i | 1 + |hs| <= i < WORDS :: EncodeHeader(prev, hs).words[i] == prev.words[i]
    ensures 0 <= b.words[0] < WORDS ==>
      |HeaderBlocks(b)| == b.words[0] && forall i | 0 <= i < b.words[0] :: HeaderBlocks(b)[i] == b.words[1 + i]
    ensures 0 <= b.words[0] < WORDS && b.words[..1 + |hs|] == [|hs|] + hs ==> HeaderBlocks(b) == hs
  {
    if 0 <= b.words[0] < WORDS && b.words[..1 + |hs|] == [|hs|] + hs {
      assert b.words[0] == b.words[..1 + |hs|][0];
      assert b.words[1..1 + |hs|] == b.words[..1 + |hs|][1..];
    }
  }

  // ---- disks with a log ----

  /** Blocks a transaction may name: distinct home blocks that fit in the log and in
      the in-memory header. */
  ghost predicate GoodTargets(l: Layout, nblocks: nat, hs: seq<int>) {
    && |hs| < l.size && |hs| <= LOGSIZE
    && Distinct(hs)
    && (forall i | 0 <= i < |hs| :: 0 <= hs[i] < nblocks && !InLog(l, hs[i]))
  }

  ghost predicate GoodLayout(l: Layout, nblocks: nat) {
    1 <= l.size && l.start + l.size <= nblocks
  }

  ghost predicate WellFormed(l: Layout, d: Disk) {
    && GoodLayout(l, |d|)
    && 0 <= d[l.start].words[0] < WORDS
    && GoodTargets(l, |d|, HeaderBlocks(d[l.start]))
  }

  /** The two disks agree on every block outside the log. */
  ghost predicate SameHome(l: Layout, d: Disk, e: Disk) {
    && |d| == |e|
    && forall b | 0 <= b < |d| && !InLog(l, b) :: d[b] == e[b]
  }

  function LogWritten(l: Layout, d: Disk, vals: seq<Block>, k: nat): (r: Disk)
    requires k <= |vals| < l.size && l.start + l.size <= |d|
    ensures |r| == |d|
  {
    if k == 0 then d else LogWritten(l, d, vals, k - 1)[l.start + k := vals[k - 1]]
  }

  function Installed(l: Layout, d: Disk, hs: seq<int>, k: nat): (r: Disk)
    requires k <= |hs| < l.size && l.start + l.size <= |d|
    requires forall i | 0 <= i < |hs| :: 0 <= hs[i] < |d|
    ensures |r| == |d|
  {
    if k == 0 then d else Installed(l, d, hs, k - 1)[hs[k - 1] := d[l.start + k]]
  }

  function WithHead(l: Layout, d: Disk, hs: seq<int>): (r: Disk)
    requires l.start < |d| && |hs| < WORDS
  {
    d[l.start := EncodeHeader(d[l.start], hs)]
  }

  /** The disk once recovery has run to its end. */
  function Recovered(l: Layout, d: Disk): (r: Disk)
    requires WellFormed(l, d)
  {
    var hs := HeaderBlocks(d[l.start]);
    WithHead(l, Installed(l, d, hs, |hs|), [])
  }

  /** The disk after each single-block write of recovery. */
  ghost function RecoveryImages(l: Layout, d: Disk): (r: seq<Disk>)
    requires WellFormed(l, d)
  {
    var hs := HeaderBlocks(d[l.start]);
    InstallImages(l, d, hs, |hs|) + [Recovered(l, d)]
  }

  ghost function InstallImages(l: Layout, d: Disk, hs: seq<int>, k: nat): (r: seq<Disk>)
    requires k <= |hs| < l.size && l.start + l.size <= |d|
    requires forall i | 0 <= i < |hs| :: 0 <= hs[i] < |d|
    ensures |r| == k
  {
    seq(k, i requires 0 <= i < k => Installed(l, d, hs, i + 1))
  }

  ghost function WriteLogImages(l: Layout, d: Disk, vals: seq<Block>, k: nat): (r: seq<Disk>)
    requires k <= |vals| < l.size && l.start + l.size <= |d|
    ensures |r| == k
  {
    seq(k, i requires 0 <= i < k => LogWritten(l, d, vals, i + 1))
  }

  /** The disk right after the header write that commits blocks `hs` with contents `vals`. */
  ghost function Committed(l: Layout, d: Disk, hs: seq<int>, vals: seq<Block>): (r: Disk)
    requires GoodLayout(l, |d|) && |hs| == |vals| && GoodTargets(l, |d|, hs)
  {
    WithHead(l, LogWritten(l, d, vals, |vals|), hs)
  }

  /** The disk after each single-block write of a commit. */
  ghost function CommitImages(l: Layout, d: Disk, hs: seq<int>, vals: seq<Block>): (r: seq<Disk>)
    requires GoodLayout(l, |d|) && |hs| == |vals| && GoodTargets(l, |d|, hs)
  {
    if hs == [] then [] else
      var c := Committed(l, d, hs, vals);
      WriteLogImages(l, d, vals, |vals|) + [c] + InstallImages(l, c, hs, |hs|)
      + [WithHead(l, Installed(l, c, hs, |hs|), [])]
  }

  // ---- contents of the images ----

  lemma {:induction false} LogWrittenAt(l: Layout, d: Disk, vals: seq<Block>, k: nat)
    requires k <= |vals| < l.size && l.start + l.size <= |d|
    ensures forall b | 0 <= b < |d| ::
              LogWritten(l, d, vals, k)[b] == if l.start < b <= l.start + k then vals[b - l.start - 1] else d[b]
  {
    if k > 0 { LogWrittenAt(l, d, vals, k - 1); }
  }

  lemma {:induction false} InstalledAt(l: Layout, d: Disk, hs: seq<int>, k: nat)
    requires GoodLayout(l, |d|) && GoodTargets(l, |d|, hs) && k <= |hs|
    ensures forall t | 0 <= t < k :: Installed(l, d, hs, k)[hs[t]] == d[l.start + 1 + t]
    ensures forall b | 0 <= b < |d| && b !in hs[..k] :: Installed(l, d, hs, k)[b] == d[b]
  {
    if k > 0 {
      InstalledAt(l, d, hs, k - 1);
      forall b | 0 <= b < |d| && b !in hs[..k] ensures Installed(l, d, hs, k)[b] == d[b] {
        assert b !in hs[..k - 1] && b != hs[k - 1] by { assert hs[..k] == hs[..k - 1] + [hs[k - 1]]; }
      }
    }
  }

  /** The home blocks a reader is promised once blocks `hs` have become `vals`. */
  ghost predicate HomeAfter(l: Layout, d: Disk, hs: seq<int>, vals: seq<Block>, r: Disk)
    requires |hs| == |vals| && forall i | 0 <= i < |hs| :: 0 <= hs[i] < |d|
  {
    && |r| == |d|
    && (forall t | 0 <= t < |hs| :: r[hs[t]] == vals[t])
    && (forall b | 0 <= b < |d| && !InLog(l, b) && b !in hs :: r[b] == d[b])
  }

  lemma SameHomeAfter(l: Layout, d: Disk, hs: seq<int>, vals: seq<Block>, r: Disk, e: Disk)
    requires |hs| == |vals| && GoodTargets(l, |d|, hs) && SameHome(l, r, e)
    requires HomeAfter(l, d, hs, vals, e)
    ensures HomeAfter(l, d, hs, vals, r)
  {
  }

  // ---- crashes during recovery ----

  /** Every image recovery passes through is a well-formed disk that recovers to
      the same home blocks. */
  lemma RecoveryIdempotent(l: Layout, d: Disk, k: nat)
    requires WellFormed(l, d) && k < |RecoveryImages(l, d)|
    ensures WellFormed(l, RecoveryImages(l, d)[k])
    ensures SameHome(l, Recovered(l, RecoveryImages(l, d)[k]), Recovered(l, d))
  {
    var hs := HeaderBlocks(d[l.start]);
    if k < |hs| {
      ReinstallSame(l, d, hs, k + 1);
    } else {
      InstalledAt(l, d, hs, |hs|);
    }
  }

  /** Installing again over a partly installed disk gives the same disk. */
  lemma ReinstallSame(l: Layout, d: Disk, hs: seq<int>, k: nat)
    requires GoodLayout(l, |d|) && GoodTargets(l, |d|, hs) && k <= |hs|
    ensures Installed(l, d, hs, k)[l.start] == d[l.start]
    ensures Installed(l, Installed(l, d, hs, k), hs, |hs|) == Installed(l, d, hs, |hs|)
  {
    var m := Installed(l, d, hs, k);
    InstalledAt(l, d, hs, k);
    InstalledAt(l, d, hs, |hs|);
    InstalledAt(l, m, hs, |hs|);
    var x, y := Installed(l, m, hs, |hs|), Installed(l, d, hs, |hs|);
    forall b | 0 <= b < |d| ensures x[b] == y[b] {
      if b in hs {
        var t :| 0 <= t < |hs| && hs[t] == b;
        assert x[hs[t]] == m[l.start + 1 + t];
      } else {
        assert b !in hs[..|hs|] && b !in hs[..k];
      }
    }
  }

  /** The disk after recovery is interrupted again and again: `crashes[i]` is how
      many block writes the i-th recovery got done before the power went. */
  ghost function AfterCrashes(l: Layout, d: Disk, crashes: seq<nat>): (r: Disk)
    requires WellFormed(l, d)
    ensures WellFormed(l, r)
    decreases |crashes|
  {
    if crashes == [] then d
    else if crashes[0] == 0 || crashes[0] > |RecoveryImages(l, d)| then AfterCrashes(l, d, crashes[1..])
    else
      RecoveryIdempotent(l, d, crashes[0] - 1);
      AfterCrashes(l, RecoveryImages(l, d)[crashes[0] - 1], crashes[1..])
  }

  lemma {:induction false} RecoveryAfterCrashes(l: Layout, d: Disk, crashes: seq<nat>)
    requires WellFormed(l, d)
    ensures SameHome(l, Recovered(l, AfterCrashes(l, d, crashes)), Recovered(l, d))
    decreases |crashes|
  {
    if crashes != [] {
      if crashes[0] == 0 || crashes[0] > |RecoveryImages(l, d)| {
        RecoveryAfterCrashes(l, d, crashes[1..]);
      } else {
        RecoveryIdempotent(l, d, crashes[0] - 1);
        RecoveryAfterCrashes(l, RecoveryImages(l, d)[crashes[0] - 1], crashes[1..]);
      }
    }
  }

  // ---- crashes during commit ----

  /** Before the header write the log is not looked at. */
  lemma CrashBeforeHeader(l: Layout, d: Disk, hs: seq<int>, vals: seq<Block>, k: nat)
    requires WellFormed(l, d) && HeaderBlocks(d[l.start]) == []
    requires |hs| == |vals| && GoodTargets(l, |d|, hs) && k <= |hs|
    ensures var c := LogWritten(l, d, vals, k);
            WellFormed(l, c) && SameHome(l, Recovered(l, c), d)
  {
    LogWrittenAt(l, d, vals, k);
  }

  lemma CommittedShape(l: Layout, d: Disk, hs: seq<int>, vals: seq<Block>)
    requires WellFormed(l, d) && |hs| == |vals| && GoodTargets(l, |d|, hs)
    ensures var c := Committed(l, d, hs, vals);
            && WellFormed(l, c) && HeaderBlocks(c[l.start]) == hs
            && SameHome(l, c, d)
            && forall t | 0 <= t < |hs| :: c[l.start + 1 + t] == vals[t]
  {
    LogWrittenAt(l, d, vals, |vals|);
  }

  /** Installing a committed log makes the home blocks new, and erasing the header keeps them. */
  lemma InstalledHome(l: Layout, c: Disk, hs: seq<int>, vals: seq<Block>, d: Disk)
    requires GoodLayout(l, |d|) && |hs| == |vals| && GoodTargets(l, |d|, hs) && SameHome(l, c, d)
    requires forall t | 0 <= t < |hs| :: c[l.start + 1 + t] == vals[t]
    ensures HomeAfter(l, d, hs, vals, WithHead(l, Installed(l, c, hs, |hs|), []))
  {
    InstalledAt(l, c, hs, |hs|);
    assert hs[..|hs|] == hs && InLog(l, l.start);
    hide Installed, HeaderBlocks, EncodeHeader;
  }

  /** An erased header leaves nothing to install. */
  lemma RecoveredErased(l: Layout, d: Disk)
    requires GoodLayout(l, |d|)
    ensures var c := WithHead(l, d, []);
            WellFormed(l, c) && HeaderBlocks(c[l.start]) == [] && SameHome(l, Recovered(l, c), c)
  {}

  /** From the header write on, recovery completes the transaction. */
  lemma CrashAfterHeader(l: Layout, d: Disk, hs: seq<int>, vals: seq<Block>, k: nat)
    requires WellFormed(l, d) && |hs| == |vals| && GoodTargets(l, |d|, hs) && k <= |hs|
    ensures var c := Installed(l, Committed(l, d, hs, vals), hs, k);
            WellFormed(l, c) && HomeAfter(l, d, hs, vals, Recovered(l, c))
  {
    CommittedShape(l, d, hs, vals);
    var c := Committed(l, d, hs, vals);
    ReinstallSame(l, c, hs, k);
    InstalledHome(l, c, hs, vals, d);
    hide Committed, Installed, HomeAfter;
  }

  /** After the transaction is erased nothing is left to install. */
  lemma CrashAfterErase(l: Layout, d: Disk, hs: seq<int>, vals: seq<Block>)
    requires WellFormed(l, d) && |hs| == |vals| && GoodTargets(l, |d|, hs)
    ensures var c := WithHead(l, Installed(l, Committed(l, d, hs, vals), hs, |hs|), []);
            && WellFormed(l, c) && HeaderBlocks(c[l.start]) == []
            && HomeAfter(l, d, hs, vals, c) && HomeAfter(l, d, hs, vals, Recovered(l, c))
  {
    CommittedShape(l, d, hs, vals);
    var m := Installed(l, Committed(l, d, hs, vals), hs, |hs|);
    InstalledHome(l, Committed(l, d, hs, vals), hs, vals, d);
    RecoveredErased(l, m);
    SameHomeAfter(l, d, hs, vals, Recovered(l, WithHead(l, m, [])), WithHead(l, m, []));
    hide *;
  }

  /** Which disk the k-th image of a commit is. */
  ghost function CommitImage(l: Layout, d: Disk, hs: seq<int>, vals: seq<Block>, k: nat): (r: Disk)
    requires GoodLayout(l, |d|) && |hs| == |vals| && GoodTargets(l, |d|, hs)
  {
    var n := |hs|;
    if k <= n then LogWritten(l, d, vals, k)
    else if k <= 2 * n + 1 then Installed(l, Committed(l, d, hs, vals), hs, k - n - 1)
    else WithHead(l, Installed(l, Committed(l, d, hs, vals), hs, n), [])
  }

  lemma CommitImageIs(l: Layout, d: Disk, hs: seq<int>, vals: seq<Block>, k: nat)
    requires GoodLayout(l, |d|) && |hs| == |vals| && GoodTargets(l, |d|, hs)
    requires k <= |CommitImages(l, d, hs, vals)|
    ensures ([d] + CommitImages(l, d, hs, vals))[k] == CommitImage(l, d, hs, vals, k)
  {
    if 0 < k {
      var c := Committed(l, d, hs, vals);
      var n := |hs|;
      assert CommitImages(l, d, hs, vals)[k - 1] ==
             if k <= n then WriteLogImages(l, d, vals, n)[k - 1]
             else if k == n + 1 then c
             else if k <= 2 * n + 1 then InstallImages(l, c, hs, n)[k - n - 2]
             else WithHead(l, Installed(l, c, hs, n), []);
    }
  }

  lemma CommitImageAt(l: Layout, d: Disk, hs: seq<int>, vals: seq<Block>, k: nat)
    requires WellFormed(l, d) && HeaderBlocks(d[l.start]) == []
    requires |hs| == |vals| && GoodTargets(l, |d|, hs) && k <= 2 * |hs| + 2
    ensures var image := CommitImage(l, d, hs, vals, k);
            && WellFormed(l, image)
            && (k <= |hs| ==> SameHome(l, Recovered(l, image), d))
            && (k > |hs| ==> HomeAfter(l, d, hs, vals, Recovered(l, image)))
  {
    hide Installed, LogWritten, WithHead, Committed, HomeAfter, SameHome, Recovered;
    if k <= |hs| {
      CrashBeforeHeader(l, d, hs, vals, k);
    } else if k <= 2 * |hs| + 1 {
      CrashAfterHeader(l, d, hs, vals, k - |hs| - 1);
    } else {
      CrashAfterErase(l, d, hs, vals);
    }
  }

  /** Crash atomicity.  A commit of blocks `hs` with contents `vals` stops after k of
      its block writes; recovery is then cut short any number of times before it
      finally completes.  The home blocks are all new when the header write (write
      number |hs|+1) took effect and all old otherwise. */
  lemma CrashAtomicity(l: Layout, d: Disk, hs: seq<int>, vals: seq<Block>, k: nat, crashes: seq<nat>)
    requires WellFormed(l, d) && HeaderBlocks(d[l.start]) == []
    requires |hs| == |vals| && GoodTargets(l, |d|, hs) && k <= |CommitImages(l, d, hs, vals)|
    ensures var image := ([d] + CommitImages(l, d, hs, vals))[k];
            && WellFormed(l, image)
            && var final := Recovered(l, AfterCrashes(l, image, crashes));
               if k <= |hs| then SameHome(l, final, d) else HomeAfter(l, d, hs, vals, final)
  {
    CommitImageIs(l, d, hs, vals, k);
    CommitImageAt(l, d, hs, vals, k);
    var image := CommitImage(l, d, hs, vals, k);
    RecoveryAfterCrashes(l, image, crashes);
    if k > |hs| {
      SameHomeAfter(l, d, hs, vals, Recovered(l, AfterCrashes(l, image, crashes)), Recovered(l, image));
    }
  }
}
