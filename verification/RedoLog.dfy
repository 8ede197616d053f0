/**
 The physical redo log of log.c, at the granularity of single block writes.

 A block is 128 words.  The log occupies blocks [start, start + size): a header
 block, then one slot per logged block.  Every other block is a home block.
 Crash atomicity is stated over the sequence of disk states that the block
 writes of commit and of recovery pass through: a crash exposes one of them.
 */
module RedoLog {

  const BLOCK_WORDS := 128
  const MAXOPBLOCKS := 10
  const LOGSIZE := 3 * MAXOPBLOCKS
  const NBUF := 3 * MAXOPBLOCKS

  type Block = b: seq<nat> | |b| == BLOCK_WORDS witness seq(BLOCK_WORDS, i => 0)
  type Disk = seq<Block>

  datatype Layout = Layout(start: nat, size: nat, nblocks: nat)

  ghost predicate ValidLayout(g: Layout) {
    0 < g.size && g.start + g.size <= g.nblocks
  }

  predicate Home(g: Layout, b: nat) {
    b < g.nblocks && (b < g.start || g.start + g.size <= b)
  }

  ghost predicate Distinct(s: seq<nat>) {
    forall i, j | 0 <= i < j < |s| :: s[i] != s[j]
  }

  // The block list of a transaction: distinct home blocks that fit in the log.
  ghost predicate Loggable(g: Layout, bs: seq<nat>) {
    |bs| <= LOGSIZE && |bs| < g.size && Distinct(bs) && forall i | 0 <= i < |bs| :: Home(g, bs[i])
  }

  // The header block holds the length in its first word, then the block numbers.
  function Head(b: Block): (r: seq<nat>)
    requires b[0] <= LOGSIZE
    ensures |r| == b[0]
  {
    Entries(b, b[0])
  }

  function Entries(b: Block, k: nat): (r: seq<nat>)
    requires k < BLOCK_WORDS
    ensures |r| == k
  {
    if k == 0 then [] else Entries(b, k - 1) + [b[k]]
  }

  // The header block b, overwritten by the list bs; words beyond the list keep their old value.
  function PutHead(b: Block, bs: seq<nat>): (r: Block)
    requires |bs| <= LOGSIZE
    ensures r[0] <= LOGSIZE && Head(r) == bs
  {
    var r := PutEntries(b[0 := |bs|], bs, |bs|);
    EntriesOfPut(b[0 := |bs|], bs, |bs|, |bs|);
    assert bs[..|bs|] == bs;
    r
  }

  function PutEntries(b: Block, bs: seq<nat>, k: nat): (r: Block)
    requires k <= |bs| <= LOGSIZE
    ensures r[0] == b[0]
  {
    if k == 0 then b else PutEntries(b, bs, k - 1)[k := bs[k - 1]]
  }

  lemma {:induction false} EntriesOfPut(b: Block, bs: seq<nat>, k: nat, n: nat)
    requires k <= n <= |bs| <= LOGSIZE
    ensures Entries(PutEntries(b, bs, n), k) == bs[..k]
  {
    if k > 0 {
      EntriesOfPut(b, bs, k - 1, n);
      PutEntryAt(b, bs, k, n);
      assert bs[..k] == bs[..k - 1] + [bs[k - 1]];
    }
  }

  lemma {:induction false} PutEntryAt(b: Block, bs: seq<nat>, k: nat, n: nat)
    requires 0 < k <= n <= |bs| <= LOGSIZE
    ensures PutEntries(b, bs, n)[k] == bs[k - 1]
  {
    if k < n {
      PutEntryAt(b, bs, k, n - 1);
    }
  }

  // A disk whose log header is well formed: every disk the system ever exposes to a crash.
  ghost predicate LogOk(g: Layout, d: Disk) {
    && ValidLayout(g)
    && |d| == g.nblocks
    && d[g.start][0] <= LOGSIZE
    && Loggable(g, Head(d[g.start]))
  }

  ghost predicate SameHome(g: Layout, d: Disk, e: Disk) {
    |d| == |e| == g.nblocks && forall b: nat | Home(g, b) :: d[b] == e[b]
  }

  // Log slot i, which holds the logged copy of the i-th block of the transaction.
  function Slot(g: Layout, d: Disk, i: nat): Block
    requires g.start + 1 + i < |d|
  {
    d[g.start + 1 + i]
  }

  // ---------------------------------------------------------------- recovery

  // The first k log slots copied to their home blocks.
  function Install(g: Layout, d: Disk, bs: seq<nat>, k: nat): (r: Disk)
    requires ValidLayout(g) && |d| == g.nblocks && k <= |bs| < g.size
    requires forall i | 0 <= i < |bs| :: Home(g, bs[i])
    ensures |r| == |d|
  {
    if k == 0 then d
    else
      var r := Install(g, d, bs, k - 1);
      r[bs[k - 1] := r[g.start + k]]
  }

  function Clear(g: Layout, d: Disk): Disk
    requires ValidLayout(g) && |d| == g.nblocks
  {
    d[g.start := PutHead(d[g.start], [])]
  }

  function Recovered(g: Layout, d: Disk): (r: Disk)
    requires LogOk(g, d)
  {
    var bs := Head(d[g.start]);
    Clear(g, Install(g, d, bs, |bs|))
  }

  function InstallSteps(g: Layout, d: Disk, bs: seq<nat>, k: nat): (r: seq<Disk>)
    requires ValidLayout(g) && |d| == g.nblocks && k <= |bs| < g.size
    requires forall i | 0 <= i < |bs| :: Home(g, bs[i])
    ensures |r| == k && forall i | 0 <= i < k :: r[i] == Install(g, d, bs, i + 1)
  {
    if k == 0 then [] else InstallSteps(g, d, bs, k - 1) + [Install(g, d, bs, k)]
  }

  // One more round of install_trans, appended to any trace t.
  lemma InstallNext(g: Layout, d: Disk, bs: seq<nat>, k: nat, t: seq<Disk>, r: Disk, e: Disk)
    requires ValidLayout(g) && |d| == g.nblocks && k < |bs| < g.size
    requires forall i | 0 <= i < |bs| :: Home(g, bs[i])
    requires r == Install(g, d, bs, k) && e == r[bs[k] := r[g.start + k + 1]]
    ensures Install(g, d, bs, k + 1) == e && t + InstallSteps(g, d, bs, k) + [e] == t + InstallSteps(g, d, bs, k + 1)
  {
  }

  // Disk states of one run of recover_from_log, in order; the last one is the finished disk.
  function RecoverySteps(g: Layout, d: Disk): seq<Disk>
    requires LogOk(g, d)
  {
    var bs := Head(d[g.start]);
    [d] + InstallSteps(g, d, bs, |bs|) + [Recovered(g, d)]
  }

  lemma {:induction false} InstallContents(g: Layout, d: Disk, bs: seq<nat>, k: nat)
    requires ValidLayout(g) && |d| == g.nblocks && k <= |bs| && Loggable(g, bs)
    ensures forall i | 0 <= i < k :: Install(g, d, bs, k)[bs[i]] == Slot(g, d, i)
    ensures forall b: nat | b < |d| && b !in bs[..k] :: Install(g, d, bs, k)[b] == d[b]
  {
    if k > 0 {
      InstallContents(g, d, bs, k - 1);
      assert bs[..k] == bs[..k - 1] + [bs[k - 1]];
      assert g.start + k !in bs[..k - 1];
      assert Install(g, d, bs, k - 1)[g.start + k] == d[g.start + k];
    }
  }

  // Where the contents of a home block come from once recovery has finished.
  lemma RecoveredContents(g: Layout, d: Disk)
    requires LogOk(g, d)
    ensures var bs := Head(d[g.start]);
            && LogOk(g, Recovered(g, d)) && Head(Recovered(g, d)[g.start]) == []
            && (forall i | 0 <= i < |bs| :: Recovered(g, d)[bs[i]] == Slot(g, d, i))
            && (forall b: nat | Home(g, b) && b !in bs :: Recovered(g, d)[b] == d[b])
  {
    var bs := Head(d[g.start]);
    InstallContents(g, d, bs, |bs|);
    assert bs[..|bs|] == bs;
  }

  // Two disks with the same header, the same log slots and the same unlogged home blocks
  // recover to the same home blocks.
  lemma SameRecovery(g: Layout, d: Disk, e: Disk)
    requires LogOk(g, d) && |e| == |d| && e[g.start] == d[g.start]
    requires forall i | 0 <= i < |Head(d[g.start])| :: Slot(g, e, i) == Slot(g, d, i)
    requires forall b: nat | Home(g, b) && b !in Head(d[g.start]) :: e[b] == d[b]
    ensures LogOk(g, e) && SameHome(g, Recovered(g, e), Recovered(g, d))
  {
    RecoveredContents(g, d);
    RecoveredContents(g, e);
    var bs := Head(d[g.start]);
    forall b: nat | Home(g, b) ensures Recovered(g, e)[b] == Recovered(g, d)[b] {
      if b in bs {
        var i :| 0 <= i < |bs| && bs[i] == b;
      }
    }
  }

  // A recovery cut after any number of block writes leaves a disk that recovers to the same place.
  lemma CutRecovery(g: Layout, d: Disk, i: nat)
    requires LogOk(g, d) && i < |RecoverySteps(g, d)|
    ensures LogOk(g, RecoverySteps(g, d)[i])
    ensures SameHome(g, Recovered(g, RecoverySteps(g, d)[i]), Recovered(g, d))
  {
    var bs := Head(d[g.start]);
    if i <= |bs| {
      assert RecoverySteps(g, d)[i] == Install(g, d, bs, i);
      InstallContents(g, d, bs, i);
      SameRecovery(g, d, Install(g, d, bs, i));
    } else {
      RecoveredContents(g, d);
      RecoveredContents(g, Recovered(g, d));
    }
  }

  // Any number of recoveries, each cut anywhere, followed by one that finishes.
  lemma {:induction false} RepeatedRecovery(g: Layout, boots: seq<Disk>)
    requires 0 < |boots| && LogOk(g, boots[0])
    requires forall i | 0 <= i < |boots| - 1 :: LogOk(g, boots[i]) ==> boots[i + 1] in RecoverySteps(g, boots[i])
    ensures LogOk(g, boots[|boots| - 1])
    ensures SameHome(g, Recovered(g, boots[|boots| - 1]), Recovered(g, boots[0]))
  {
    if |boots| > 1 {
      RepeatedRecovery(g, boots[..|boots| - 1]);
      var d := boots[|boots| - 2];
      assert boots[|boots| - 1] in RecoverySteps(g, d);
      var i :| 0 <= i < |RecoverySteps(g, d)| && RecoverySteps(g, d)[i] == boots[|boots| - 1];
      CutRecovery(g, d, i);
    }
  }

  // ------------------------------------------------------------------ commit

  // The first k log slots filled with the cached contents of the logged blocks.
  function WroteLog(g: Layout, d: Disk, data: seq<Block>, k: nat): (r: Disk)
    requires ValidLayout(g) && |d| == g.nblocks && k <= |data| < g.size
    ensures |r| == |d|
    ensures forall i | 0 <= i < k :: Slot(g, r, i) == data[i]
    ensures forall b: nat | b < |d| && !(g.start < b <= g.start + k) :: r[b] == d[b]
  {
    if k == 0 then d else WroteLog(g, d, data, k - 1)[g.start + k := data[k - 1]]
  }

  function WroteHead(g: Layout, d: Disk, bs: seq<nat>, data: seq<Block>): (r: Disk)
    requires ValidLayout(g) && |d| == g.nblocks && |data| == |bs| && Loggable(g, bs)
    ensures LogOk(g, r) && Head(r[g.start]) == bs
  {
    var w := WroteLog(g, d, data, |data|);
    w[g.start := PutHead(w[g.start], bs)]
  }

  function WroteLogSteps(g: Layout, d: Disk, data: seq<Block>, k: nat): (r: seq<Disk>)
    requires ValidLayout(g) && |d| == g.nblocks && k <= |data| < g.size
    ensures |r| == k && forall i | 0 <= i < k :: r[i] == WroteLog(g, d, data, i + 1)
  {
    if k == 0 then [] else WroteLogSteps(g, d, data, k - 1) + [WroteLog(g, d, data, k)]
  }

  // One more round of write_log, appended to any trace t.
  lemma WroteNext(g: Layout, d: Disk, data: seq<Block>, k: nat, t: seq<Disk>, cur: Disk, x: Block, e: Disk)
    requires ValidLayout(g) && |d| == g.nblocks && k < |data| < g.size
    requires cur == WroteLog(g, d, data, k) && x == data[k] && e == cur[g.start + k + 1 := x]
    ensures WroteLog(g, d, data, k + 1) == e
    ensures t + WroteLogSteps(g, d, data, k) + [e] == t + WroteLogSteps(g, d, data, k + 1)
  {
  }

  // Disk states of one run of commit, in order, starting with the disk it finds: the log slots
  // are filled, the header is written, and from there on commit does what recovery would do.
  function CommitSteps(g: Layout, d: Disk, bs: seq<nat>, data: seq<Block>): (r: seq<Disk>)
    requires ValidLayout(g) && |d| == g.nblocks && |data| == |bs| && Loggable(g, bs)
    ensures |r| == 2 * |bs| + 3
  {
    [d] + WroteLogSteps(g, d, data, |bs|) + RecoverySteps(g, WroteHead(g, d, bs, data))
  }

  // The home blocks hold exactly the transaction's blocks, written over d.
  ghost predicate Applied(g: Layout, d: Disk, bs: seq<nat>, data: seq<Block>, e: Disk)
    requires |d| == g.nblocks && |data| == |bs|
  {
    && |e| == g.nblocks
    && (forall i | 0 <= i < |bs| && bs[i] < |e| :: e[bs[i]] == data[i])
    && (forall b: nat | Home(g, b) && b !in bs :: e[b] == d[b])
  }

  lemma CommittedRecovers(g: Layout, d: Disk, bs: seq<nat>, data: seq<Block>)
    requires ValidLayout(g) && |d| == g.nblocks && |data| == |bs| && Loggable(g, bs)
    ensures Applied(g, d, bs, data, Recovered(g, WroteHead(g, d, bs, data)))
  {
    RecoveredContents(g, WroteHead(g, d, bs, data));
  }

  // Cut commit before the header is written: recovery yields the old home blocks.
  lemma CutBeforeHead(g: Layout, d: Disk, data: seq<Block>, k: nat)
    requires LogOk(g, d) && Head(d[g.start]) == [] && k <= |data| < g.size
    ensures LogOk(g, WroteLog(g, d, data, k)) && Head(WroteLog(g, d, data, k)[g.start]) == []
    ensures SameHome(g, Recovered(g, WroteLog(g, d, data, k)), d)
  {
    RecoveredContents(g, WroteLog(g, d, data, k));
  }

  // Cut commit after the header is written: recovery yields the whole transaction, and the
  // header stays on disk until the last write.
  lemma CutAfterHead(g: Layout, d: Disk, bs: seq<nat>, data: seq<Block>, k: nat)
    requires LogOk(g, d) && |data| == |bs| && Loggable(g, bs)
    requires k < |RecoverySteps(g, WroteHead(g, d, bs, data))|
    ensures var e := RecoverySteps(g, WroteHead(g, d, bs, data))[k];
            && LogOk(g, e) && Applied(g, d, bs, data, Recovered(g, e))
            && Head(e[g.start]) == if k <= |bs| then bs else []
  {
    var h := WroteHead(g, d, bs, data);
    CommittedRecovers(g, d, bs, data);
    CutRecovery(g, h, k);
    if k <= |bs| {
      assert RecoverySteps(g, h)[k] == Install(g, h, bs, k);
      InstallContents(g, h, bs, k);
    } else {
      RecoveredContents(g, h);
    }
  }

  // The disk after block write i of a commit, on either side of the commit point.
  lemma CommitStepAt(g: Layout, d: Disk, bs: seq<nat>, data: seq<Block>, i: nat)
    requires ValidLayout(g) && |d| == g.nblocks && |data| == |bs| && Loggable(g, bs)
    requires i < |CommitSteps(g, d, bs, data)|
    ensures i <= |bs| ==> CommitSteps(g, d, bs, data)[i] == WroteLog(g, d, data, i)
    ensures i > |bs| ==> CommitSteps(g, d, bs, data)[i] == RecoverySteps(g, WroteHead(g, d, bs, data))[i - |bs| - 1]
  {
  }

  // Cut commit after any block write.  Recovery yields the old home blocks if the header had not
  // reached the disk, and the whole transaction if it had.
  lemma CutCommit(g: Layout, d: Disk, bs: seq<nat>, data: seq<Block>, i: nat)
    requires LogOk(g, d) && Head(d[g.start]) == [] && |data| == |bs| && Loggable(g, bs)
    requires i < |CommitSteps(g, d, bs, data)|
    ensures LogOk(g, CommitSteps(g, d, bs, data)[i])
    ensures i <= |bs| ==> SameHome(g, Recovered(g, CommitSteps(g, d, bs, data)[i]), d)
    ensures i > |bs| ==> Applied(g, d, bs, data, Recovered(g, CommitSteps(g, d, bs, data)[i]))
    ensures bs != [] ==> (|bs| < i < 2 * |bs| + 2 <==> Head(CommitSteps(g, d, bs, data)[i][g.start]) != [])
  {
    CommitStepAt(g, d, bs, data, i);
    if i <= |bs| {
      CutBeforeHead(g, d, data, i);
    } else {
      CutAfterHead(g, d, bs, data, i - |bs| - 1);
    }
  }

  // Crash atomicity: cut commit anywhere, run recovery any number of times, each run cut anywhere.
  lemma CrashAtomicity(g: Layout, d: Disk, bs: seq<nat>, data: seq<Block>, i: nat, boots: seq<Disk>)
    requires LogOk(g, d) && Head(d[g.start]) == [] && |data| == |bs| && Loggable(g, bs)
    requires i < |CommitSteps(g, d, bs, data)|
    requires 0 < |boots| && boots[0] == CommitSteps(g, d, bs, data)[i]
    requires forall k | 0 <= k < |boots| - 1 :: LogOk(g, boots[k]) ==> boots[k + 1] in RecoverySteps(g, boots[k])
    ensures LogOk(g, boots[|boots| - 1])
    ensures var finished := Recovered(g, boots[|boots| - 1]);
            if i <= |bs| then SameHome(g, finished, d) else Applied(g, d, bs, data, finished)
  {
    CutCommit(g, d, bs, data, i);
    RepeatedRecovery(g, boots);
  }
}
