/**
 log.c in its own imperative form, over a buffer cache of NBUF buffers.

 The disk changes only in Bwrite; the ghost field `trace` records the disk after
 each such write, so a crash during a method exposes one of the disks that the
 method appended to the trace.
 */
module Log {
  import opened RedoLog

  type Cache = map<nat, Block>

  // The elements of s from index k on.
  ghost function From(s: seq<nat>, k: nat): set<nat> {
    set i | k <= i < |s| :: s[i]
  }

  // b can be given a buffer: it has one, there is an unused one, or one can be recycled.
  predicate Obtainable(bufs: Cache, pinned: set<nat>, b: nat) {
    b in bufs || |bufs| < NBUF || exists v | v in bufs :: v !in pinned
  }

  lemma {:induction false} DistinctCount(s: seq<nat>, k: nat)
    requires Distinct(s) && k <= |s|
    ensures |From(s, k)| == |s| - k
    decreases |s| - k
  {
    if k < |s| {
      DistinctCount(s, k + 1);
      Unpin(s, k);
    }
  }

  lemma Unpin(s: seq<nat>, k: nat)
    requires Distinct(s) && k < |s|
    ensures s[k] in From(s, k) && From(s, k) - {s[k]} == From(s, k + 1)
  {
  }

  // log_write's list update, with absorption.
  function Absorb(s: seq<nat>, b: nat): seq<nat> {
    if b in s then s else s + [b]
  }

  lemma Pin(s: seq<nat>, b: nat)
    requires Distinct(s)
    ensures Distinct(Absorb(s, b)) && From(Absorb(s, b), 0) == From(s, 0) + {b}
    ensures forall i | 0 <= i < |Absorb(s, b)| :: Absorb(s, b)[i] in s || Absorb(s, b)[i] == b
  {
    if b in s {
      var i :| 0 <= i < |s| && s[i] == b;
    } else {
      var t := s + [b];
      assert t[|s|] == b;
      assert forall i | 0 <= i < |s| :: s[i] == t[i];
    }
  }

  lemma {:induction false} Subset(a: set<nat>, b: set<nat>)
    requires a <= b
    ensures |a| <= |b|
  {
    if a != {} {
      var x :| x in a;
      Subset(a - {x}, b - {x});
    }
  }

  lemma Without(a: set<nat>, x: nat)
    requires x !in a
    ensures a - {x} == a
  {
  }

  lemma Returned(a: set<nat>, x: nat)
    requires x !in a
    ensures a + {x} - {x} == a
  {
  }

  // Fewer than NBUF pinned buffers leave one that can be recycled.
  lemma Recyclable(bufs: Cache, pinned: set<nat>, b: nat)
    requires |pinned| < NBUF
    ensures Obtainable(bufs, pinned, b)
  {
    if NBUF <= |bufs| {
      if bufs.Keys <= pinned {
        Subset(bufs.Keys, pinned);
        assert false;
      }
      var v :| v in bufs.Keys && v !in pinned;
    }
  }

  // With every buffer pinned, a block that has no buffer cannot get one.
  lemma AllPinned(bufs: Cache, pinned: set<nat>, b: nat)
    requires pinned <= bufs.Keys && |bufs| <= NBUF <= |pinned| && b !in pinned
    ensures !Obtainable(bufs, pinned, b)
  {
    if bufs.Keys != pinned {
      var v :| v in bufs.Keys && v !in pinned;
      Subset(pinned, bufs.Keys - {v});
      assert false;
    }
  }

  // Contents of block b as seen through the cache.
  function Through(d: Disk, bufs: Cache, b: nat): Block
    requires b < |d|
  {
    if b in bufs then bufs[b] else d[b]
  }

  // The contents of blocks bs as seen through the cache.
  ghost function DataOf(d: Disk, bufs: Cache, bs: seq<nat>): (r: seq<Block>)
    requires forall i | 0 <= i < |bs| :: bs[i] < |d|
    ensures |r| == |bs| && forall i | 0 <= i < |bs| :: r[i] == Through(d, bufs, bs[i])
  {
    seq(|bs|, i requires 0 <= i < |bs| => Through(d, bufs, bs[i]))
  }

  // The cache holds at most NBUF blocks, the dirty ones among them, and agrees with the disk on
  // the clean ones.
  ghost predicate Coherent(d: Disk, bufs: Cache, dirty: set<nat>) {
    && |bufs| <= NBUF && dirty <= bufs.Keys
    && (forall b | b in bufs :: b < |d|)
    && (forall b | b in bufs && b !in dirty :: bufs[b] == d[b])
  }

  // bread(b) took the cache from before to after.
  ghost predicate Fetched(d: Disk, pinned: set<nat>, before: Cache, after: Cache, b: nat)
    requires b < |d|
  {
    && |after| <= NBUF && b in after && after[b] == Through(d, before, b)
    && (forall x | x in after && x != b :: x in before && after[x] == before[x])
    && (forall x | x in before && x in pinned :: x in after)
  }

  // Writing data to a fetched block keeps the cache coherent with the new disk, and no other
  // block is seen to change.
  lemma Written(d: Disk, bufs: Cache, dirty: set<nat>, dst: nat, data: Block)
    requires dst in bufs && Coherent(d, bufs, dirty)
    ensures Coherent(d[dst := data], bufs[dst := data], dirty - {dst})
    ensures forall z: nat | z < |d| && z != dst ::
              Through(d[dst := data], bufs[dst := data], z) == Through(d, bufs, z)
  {
    assert bufs[dst := data].Keys == bufs.Keys;
  }

  // Fetching a block changes nothing that can be seen.
  lemma FetchInvisible(d: Disk, pinned: set<nat>, before: Cache, after: Cache, dirty: set<nat>, b: nat)
    requires b < |d| && Coherent(d, before, dirty) && dirty <= pinned && Fetched(d, pinned, before, after, b)
    ensures Coherent(d, after, dirty)
    ensures forall z: nat | z < |d| :: Through(d, after, z) == Through(d, before, z)
  {
  }

  // A committed transaction changes nothing that can be seen in a home block.
  lemma CommitInvisible(g: Layout, d: Disk, bufs: Cache, bs: seq<nat>, data: seq<Block>, d': Disk, bufs': Cache)
    requires |d| == g.nblocks && |data| == |bs| && Coherent(d, bufs, From(bs, 0)) && Coherent(d', bufs', {})
    requires forall i | 0 <= i < |bs| :: bs[i] < |d| && data[i] == Through(d, bufs, bs[i])
    requires ValidLayout(g) && Loggable(g, bs) && d' == Recovered(g, WroteHead(g, d, bs, data))
    ensures forall b: nat | Home(g, b) :: d'[b] == Through(d, bufs, b) && Through(d', bufs', b) == d'[b]
  {
    CommittedRecovers(g, d, bs, data);
    forall b: nat | Home(g, b) ensures d'[b] == Through(d, bufs, b) && Through(d', bufs', b) == d'[b] {
      if b in bs {
        var i :| 0 <= i < |bs| && bs[i] == b;
      }
    }
  }

  lemma Splice<T>(t: seq<T>, first: T, mid: seq<T>, last: T)
    ensures t + mid + [last] == t + ([first] + mid + [last])[1..]
  {
    assert ([first] + mid + [last])[1..] == mid + [last];
  }

  lemma SpliceCommit<T>(t: seq<T>, first: T, a: seq<T>, b: seq<T>)
    requires b != []
    ensures t + a + [b[0]] + b[1..] == t + ([first] + a + b)[1..]
  {
    assert ([first] + a + b)[1..] == a + b;
    assert b == [b[0]] + b[1..];
  }

  // A commit that wrote the log and its header to h and then recovered from it took the commit steps.
  lemma CommitTrace(g: Layout, d: Disk, bs: seq<nat>, data: seq<Block>, t: seq<Disk>, h: Disk, trace: seq<Disk>)
    requires ValidLayout(g) && |d| == g.nblocks && Loggable(g, bs) && |data| == |bs| && LogOk(g, h)
    requires h == WroteHead(g, d, bs, data)
    requires trace == t + WroteLogSteps(g, d, data, |bs|) + [h] + RecoverySteps(g, h)[1..]
    ensures trace == t + CommitSteps(g, d, bs, data)[1..]
  {
    SpliceCommit(t, d, WroteLogSteps(g, d, data, |bs|), RecoverySteps(g, h));
  }

  // -------------------------------------------- write_log and install_trans

  // The disk and the cache as one value.
  datatype Io = Io(disk: Disk, bufs: Cache, dirty: set<nat>)

  ghost predicate Sound(io: Io) {
    Coherent(io.disk, io.bufs, io.dirty)
  }

  ghost predicate SameSeen(io: Io, io': Io) {
    |io'.disk| == |io.disk| && forall z: nat | z < |io.disk| ::
      Through(io'.disk, io'.bufs, z) == Through(io.disk, io.bufs, z)
  }

  // bread: fails only where bget panics for want of a buffer.
  method Fetch(io: Io, busy: set<nat>, b: nat) returns (ok: bool, io': Io)
    requires b < |io.disk| && Sound(io)
    ensures ok == Obtainable(io.bufs, io.dirty + busy, b)
    ensures ok ==> io' == io.(bufs := io'.bufs) && Sound(io') && SameSeen(io, io') && b in io'.bufs
    ensures ok ==> forall x | x in io.bufs && (x in io.dirty || x in busy) :: x in io'.bufs
    ensures !ok ==> io' == io
  {
    ok, io' := true, io;
    var pinned := io.dirty + busy;
    if b in io.bufs {
    } else if |io.bufs| < NBUF {
      io' := io.(bufs := io.bufs[b := io.disk[b]]);
    } else if exists v | v in io.bufs :: v !in pinned {
      var v :| v in io.bufs && v !in pinned;
      io' := io.(bufs := (io.bufs - {v})[b := io.disk[b]]);
      assert io'.bufs.Keys == (io.bufs.Keys - {v}) + {b};
    } else {
      ok := false;
    }
    if ok {
      FetchInvisible(io.disk, pinned, io.bufs, io'.bufs, io.dirty, b);
    }
  }

  // Buffers that other processes hold are cached, and hold home blocks: nobody else reads the log.
  ghost predicate Others(g: Layout, bufs: Cache, busy: set<nat>) {
    busy <= bufs.Keys && forall b {:trigger Home(g, b)} | b in busy :: Home(g, b)
  }

  lemma StillPinned(lh: seq<nat>, tail: nat, busy: set<nat>, busy': set<nat>)
    requires busy' <= busy && tail <= |lh|
    ensures |From(lh, tail) + busy'| <= |From(lh, 0) + busy|
  {
    Subset(From(lh, tail) + busy', From(lh, 0) + busy);
  }

  // The two breads that write_log and install_trans start each round with, while others hold the
  // buffers busy.  bget sleeps until whoever holds home has released it.
  method FetchPair(io: Io, busy: set<nat>, slot: nat, home: nat) returns (ok: bool, io': Io)
    requires Sound(io) && slot < |io.disk| && home < |io.disk| && slot != home
    requires slot !in io.dirty + busy && busy <= io.bufs.Keys
    requires home in io.dirty || |io.dirty + busy| + 1 < NBUF
    ensures ok <==> |io.dirty + busy| < NBUF
    ensures ok ==> io' == io.(bufs := io'.bufs) && Sound(io') && SameSeen(io, io')
    ensures ok ==> slot in io'.bufs && home in io'.bufs && busy - {home} <= io'.bufs.Keys
    ensures !ok ==> io' == io
  {
    ghost var pinned := io.dirty + busy;
    if |io.dirty + busy| < NBUF {
      Recyclable(io.bufs, pinned, slot);
    } else {
      AllPinned(io.bufs, pinned, slot);
    }
    ok, io' := Fetch(io, busy, slot);
    if ok {
      var io1, rest := io', busy - {home} + {slot};
      if home !in io.dirty {
        Subset(io.dirty + rest, pinned + {slot});
        Recyclable(io1.bufs, io.dirty + rest, home);
      }
      ok, io' := Fetch(io1, rest, home);
    }
  }

  // bwrite of block dst, filled with data.
  function Write(io: Io, dst: nat, data: Block): Io
    requires dst < |io.disk|
  {
    Io(io.disk[dst := data], io.bufs[dst := data], io.dirty - {dst})
  }

  // write_log, started on disk d and cache c with trace t, has done its first tail rounds.
  ghost predicate WritingAt(g: Layout, lh: seq<nat>, d: Disk, c: Cache, t: seq<Disk>, tail: nat, io: Io,
                            trace: seq<Disk>) {
    && ValidLayout(g) && Loggable(g, lh) && |d| == g.nblocks && tail <= |lh|
    && WroteTo(g, d, DataOf(d, c, lh), t, tail, io.disk, trace)
    && Sound(io) && io.dirty == From(lh, 0)
    && HomeSeen(g, d, c, io)
  }

  // The first tail slots are filled from data, on disk d and after trace t.
  ghost predicate WroteTo(g: Layout, d: Disk, data: seq<Block>, t: seq<Disk>, tail: nat, disk: Disk, trace: seq<Disk>)
    requires ValidLayout(g) && |d| == g.nblocks && tail <= |data| < g.size
  {
    disk == WroteLog(g, d, data, tail) && trace == t + WroteLogSteps(g, d, data, tail)
  }

  lemma WroteToNext(g: Layout, d: Disk, data: seq<Block>, t: seq<Disk>, tail: nat, disk: Disk, trace: seq<Disk>,
                    x: Block)
    requires ValidLayout(g) && |d| == g.nblocks && tail < |data| < g.size && x == data[tail]
    requires WroteTo(g, d, data, t, tail, disk, trace)
    ensures g.start + tail + 1 < |disk|
    ensures WroteTo(g, d, data, t, tail + 1, disk[g.start + tail + 1 := x], trace + [disk[g.start + tail + 1 := x]])
  {
    WroteNext(g, d, data, tail, t, disk, x, disk[g.start + tail + 1 := x]);
  }

  // Every home block is seen on io as it was on disk d through cache c.
  ghost predicate HomeSeen(g: Layout, d: Disk, c: Cache, io: Io)
    requires |d| == |io.disk| == g.nblocks
  {
    forall b: nat {:trigger Home(g, b)} | Home(g, b) :: Through(io.disk, io.bufs, b) == Through(d, c, b)
  }

  lemma HomeSeenKept(g: Layout, d: Disk, c: Cache, io: Io, mid: Io, to: nat, data: Block)
    requires |d| == |io.disk| == g.nblocks && HomeSeen(g, d, c, io)
    requires mid == io.(bufs := mid.bufs) && SameSeen(io, mid) && Sound(mid) && to in mid.bufs && !Home(g, to)
    ensures to < |mid.disk| && Sound(Write(mid, to, data)) && HomeSeen(g, d, c, Write(mid, to, data))
  {
    Written(mid.disk, mid.bufs, mid.dirty, to, data);
  }

  lemma WriteStart(g: Layout, lh: seq<nat>, io: Io, trace: seq<Disk>)
    requires ValidLayout(g) && Loggable(g, lh) && |io.disk| == g.nblocks && Sound(io) && io.dirty == From(lh, 0)
    ensures WritingAt(g, lh, io.disk, io.bufs, trace, 0, io, trace)
  {
  }

  // The buffer of a logged block holds the data that the transaction is to carry.
  lemma SlotData(g: Layout, lh: seq<nat>, d: Disk, c: Cache, io: Io, mid: Io, tail: nat)
    requires Loggable(g, lh) && |d| == |io.disk| == g.nblocks && tail < |lh| && HomeSeen(g, d, c, io)
    requires mid == io.(bufs := mid.bufs) && SameSeen(io, mid) && lh[tail] in mid.bufs
    ensures mid.bufs[lh[tail]] == DataOf(d, c, lh)[tail]
  {
    assert Home(g, lh[tail]);
    assert Through(mid.disk, mid.bufs, lh[tail]) == Through(io.disk, io.bufs, lh[tail]);
  }

  lemma WriteAdvance(g: Layout, lh: seq<nat>, d: Disk, c: Cache, t: seq<Disk>, tail: nat, io: Io, mid: Io, to: nat,
                     x: Block, trace: seq<Disk>)
    requires tail < |lh| && WritingAt(g, lh, d, c, t, tail, io, trace)
    requires mid == io.(bufs := mid.bufs) && SameSeen(io, mid) && Sound(mid)
    requires to == g.start + tail + 1 && to in mid.bufs && lh[tail] in mid.bufs && x == mid.bufs[lh[tail]]
    ensures to < |mid.disk|
    ensures WritingAt(g, lh, d, c, t, tail + 1, Write(mid, to, x), trace + [Write(mid, to, x).disk])
  {
    assert !Home(g, to);
    HomeSeenKept(g, d, c, io, mid, to, x);
    SlotData(g, lh, d, c, io, mid, tail);
    WroteToNext(g, d, DataOf(d, c, lh), t, tail, io.disk, trace, x);
    assert to !in From(lh, 0);
    Without(From(lh, 0), to);
  }

  // One round of write_log.
  method WriteSlot(g: Layout, lh: seq<nat>, tail: nat, io: Io, busy: set<nat>, ghost trace: seq<Disk>, ghost d: Disk,
                   ghost c: Cache, ghost t: seq<Disk>)
    returns (ok: bool, io': Io, ghost trace': seq<Disk>)
    requires tail < |lh| && WritingAt(g, lh, d, c, t, tail, io, trace) && Others(g, io.bufs, busy)
    ensures ok <==> |io.dirty + busy| < NBUF
    ensures if ok then WritingAt(g, lh, d, c, t, tail + 1, io', trace') else io' == io && trace' == trace
    ensures ok ==> Others(g, io'.bufs, busy - {lh[tail]})
  {
    var to, from := g.start + tail + 1, lh[tail];
    assert Home(g, from) && !Home(g, to);
    trace' := trace;
    ok, io' := FetchPair(io, busy, to, from);
    if ok {
      WriteAdvance(g, lh, d, c, t, tail, io, io', to, io'.bufs[from], trace);
      io' := Write(io', to, io'.bufs[from]);
      trace' := trace + [io'.disk];
    }
  }

  // The loop of write_log, while others hold the buffers busy.
  method WriteSlots(g: Layout, lh: seq<nat>, io: Io, busy: set<nat>, ghost trace: seq<Disk>)
    returns (ok: bool, io': Io, busy': set<nat>, ghost trace': seq<Disk>)
    requires ValidLayout(g) && Loggable(g, lh) && |io.disk| == g.nblocks && Sound(io) && io.dirty == From(lh, 0)
    requires Others(g, io.bufs, busy)
    ensures lh != [] ==> (ok <==> |io.dirty + busy| < NBUF)
    ensures !ok || WritingAt(g, lh, io.disk, io.bufs, trace, |lh|, Io(io'.disk, io'.bufs, io'.dirty), trace')
    ensures !ok ==> io'.disk == io.disk && trace' == trace
    ensures ok ==> busy' == busy - io.dirty
    ensures !ok || Others(g, io'.bufs, busy')
  {
    var tail := 0;
    ok, io', busy', trace' := true, io, busy, trace;
    WriteStart(g, lh, io, trace);
    while tail < |lh|
      invariant 0 <= tail <= |lh| && WritingAt(g, lh, io.disk, io.bufs, trace, tail, io', trace')
      invariant busy' == busy - From(lh[..tail], 0) && Others(g, io'.bufs, busy')
      invariant tail > 0 ==> |io.dirty + busy| < NBUF
    {
      Waited(lh, tail, io.dirty, busy);
      var ok1, io1, trace1 := WriteSlot(g, lh, tail, io', busy', trace', io.disk, io.bufs, trace);
      if !ok1 {
        return false, io', busy', trace';
      }
      io', busy', trace', tail := io1, busy' - {lh[tail]}, trace1, tail + 1;
    }
    assert lh[..tail] == lh;
  }

  // Waiting for the holders of logged blocks unpins nothing: those blocks stay dirty.
  lemma Waited(lh: seq<nat>, tail: nat, dirty: set<nat>, busy: set<nat>)
    requires tail < |lh| && dirty == From(lh, 0)
    ensures dirty + (busy - From(lh[..tail], 0)) == dirty + busy
    ensures busy - From(lh[..tail], 0) - {lh[tail]} == busy - From(lh[..tail + 1], 0)
  {
    var a, b := lh[..tail], lh[..tail + 1];
    assert b == a + [lh[tail]];
    assert forall i | 0 <= i < tail :: a[i] == b[i] == lh[i];
    assert b[tail] == lh[tail];
    assert From(b, 0) == From(a, 0) + {lh[tail]};
  }

  // install_trans, started on disk d with trace t, has done its first tail rounds.
  ghost predicate InstallingAt(g: Layout, lh: seq<nat>, d: Disk, t: seq<Disk>, pinned: bool, tail: nat, io: Io,
                               trace: seq<Disk>) {
    && ValidLayout(g) && Loggable(g, lh) && |d| == g.nblocks && tail <= |lh|
    && io.disk == Install(g, d, lh, tail) && trace == t + InstallSteps(g, d, lh, tail)
    && Sound(io) && io.dirty == (if pinned then From(lh, tail) else {})
  }

  // Enough buffers for install_trans: a pinned home block needs none of its own.
  ghost predicate Room(lh: seq<nat>, busy: set<nat>, pinned: bool) {
    if pinned then |From(lh, 0) + busy| < NBUF else |busy| + 1 < NBUF
  }

  lemma RoomKept(lh: seq<nat>, tail: nat, busy: set<nat>, busy': set<nat>, pinned: bool)
    requires Room(lh, busy, pinned) && busy' <= busy && tail <= |lh|
    ensures Room(lh, busy', pinned)
    ensures if pinned then |From(lh, tail) + busy'| < NBUF else |{} + busy'| + 1 < NBUF
  {
    StillPinned(lh, tail, busy, busy');
    StillPinned(lh, 0, busy, busy');
    Subset(busy', busy);
    assert {} + busy' == busy';
  }

  lemma InstallAdvance(g: Layout, lh: seq<nat>, d: Disk, t: seq<Disk>, pinned: bool, tail: nat, io: Io, mid: Io,
                       slot: nat, trace: seq<Disk>)
    requires tail < |lh| && InstallingAt(g, lh, d, t, pinned, tail, io, trace) && mid == io.(bufs := mid.bufs)
    requires SameSeen(io, mid) && Sound(mid)
    requires slot == g.start + tail + 1 && slot in mid.bufs && slot !in mid.dirty && lh[tail] in mid.bufs
    ensures lh[tail] < |mid.disk|
    ensures InstallingAt(g, lh, d, t, pinned, tail + 1, Write(mid, lh[tail], mid.bufs[slot]),
                         trace + [Write(mid, lh[tail], mid.bufs[slot]).disk])
  {
    var home := lh[tail];
    assert Home(g, home);
    Written(mid.disk, mid.bufs, mid.dirty, home, mid.bufs[slot]);
    InstallNext(g, d, lh, tail, t, io.disk, mid.disk[home := mid.bufs[slot]]);
    Unpin(lh, tail);
    assert mid.dirty - {home} == if pinned then From(lh, tail + 1) else {};
  }

  // One round of install_trans.
  method InstallSlot(g: Layout, lh: seq<nat>, tail: nat, io: Io, busy: set<nat>, ghost trace: seq<Disk>,
                     ghost d: Disk, ghost t: seq<Disk>, ghost pinned: bool)
    returns (io': Io, ghost trace': seq<Disk>)
    requires tail < |lh| && InstallingAt(g, lh, d, t, pinned, tail, io, trace)
    requires Others(g, io.bufs, busy) && Room(lh, busy, pinned)
    ensures InstallingAt(g, lh, d, t, pinned, tail + 1, io', trace')
    ensures io'.disk == io.disk[lh[tail] := Slot(g, io.disk, tail)] && Sound(io')
    ensures Others(g, io'.bufs, busy - {lh[tail]})
  {
    var slot, home := g.start + tail + 1, lh[tail];
    assert Home(g, home) && !Home(g, slot);
    Unpin(lh, tail);
    RoomKept(lh, tail, busy, busy, pinned);
    var ok, mid := FetchPair(io, busy, slot, home);
    InstallAdvance(g, lh, d, t, pinned, tail, io, mid, slot, trace);
    io' := Write(mid, home, mid.bufs[slot]);
    trace' := trace + [io'.disk];
  }

  // The loop of install_trans, while others hold the buffers busy.
  method InstallSlots(g: Layout, lh: seq<nat>, io: Io, busy: set<nat>, ghost trace: seq<Disk>, ghost pinned: bool)
    returns (io': Io, busy': set<nat>, ghost trace': seq<Disk>)
    requires InstallingAt(g, lh, io.disk, trace, pinned, 0, io, trace)
    requires Others(g, io.bufs, busy) && Room(lh, busy, pinned)
    ensures InstallingAt(g, lh, io.disk, trace, pinned, |lh|, io', trace')
    ensures io'.disk == Install(g, io.disk, lh, |lh|) && Sound(io')
    ensures busy' == busy - From(lh, 0) && Others(g, io'.bufs, busy')
  {
    var tail := 0;
    io', busy', trace' := io, busy, trace;
    while tail < |lh|
      invariant 0 <= tail <= |lh| && InstallingAt(g, lh, io.disk, trace, pinned, tail, io', trace')
      invariant busy' == busy - From(lh[..tail], 0) && Others(g, io'.bufs, busy')
    {
      Waited(lh, tail, From(lh, 0), busy);
      RoomKept(lh, 0, busy, busy', pinned);
      var io1, trace1 := InstallSlot(g, lh, tail, io', busy', trace', io.disk, trace, pinned);
      io', busy', trace', tail := io1, busy' - {lh[tail]}, trace1, tail + 1;
    }
    assert lh[..tail] == lh;
  }

  class Log {
    const g: Layout
    var disk: Disk
    var bufs: Cache
    var dirty: set<nat>
    var busy: set<nat>
    var lh: seq<nat>
    var outstanding: nat
    var committing: bool
    ghost var trace: seq<Disk>

    // The cache is coherent; the buffers busy are held by others.
    ghost predicate Quiet()
      reads this`disk, this`bufs, this`dirty, this`busy, this`lh
    {
      && ValidLayout(g) && |disk| == g.nblocks
      && Coherent(disk, bufs, dirty) && Others(g, bufs, busy)
      && Loggable(g, lh)
    }

    // Between commits the log on disk is empty and exactly the logged blocks are pinned.
    ghost predicate Valid()
      reads this`disk, this`bufs, this`dirty, this`busy, this`lh
    {
      && Quiet()
      && LogOk(g, disk) && Head(disk[g.start]) == []
      && dirty == From(lh, 0)
    }

    // What the file system sees in block b.
    function Mem(b: nat): Block
      requires b < |disk|
      reads this`disk, this`bufs
    {
      Through(disk, bufs, b)
    }

    // bread: sleeps while another holds b, and fails only where bget panics for want of a buffer.
    method Bread(b: nat) returns (ok: bool)
      requires b < |disk| && Coherent(disk, bufs, dirty)
      modifies this`bufs, this`busy
      ensures ok == Obtainable(old(bufs), dirty + old(busy), b)
      ensures ok ==> b in bufs && busy == old(busy) + {b}
      ensures ok ==> forall x | x in old(bufs) && (x in dirty || x in old(busy)) :: x in bufs
      ensures ok ==> Coherent(disk, bufs, dirty)
      ensures ok ==> forall z: nat | z < |disk| :: Through(disk, bufs, z) == Through(disk, old(bufs), z)
      ensures !ok ==> bufs == old(bufs) && busy == old(busy)
    {
      var ok1, io := Fetch(Io(disk, bufs, dirty), busy, b);
      ok := ok1;
      if ok {
        bufs, busy := io.bufs, busy + {b};
      }
    }

    // Fill buffer b and bwrite it: one atomic block write; the driver clears B_DIRTY.
    method Bwrite(b: nat, data: Block)
      requires b in bufs && b in busy && Coherent(disk, bufs, dirty)
      modifies this`bufs, this`dirty, this`disk, this`trace
      ensures disk == old(disk)[b := data] && trace == old(trace) + [disk]
      ensures dirty == old(dirty) - {b} && bufs.Keys == old(bufs).Keys && Coherent(disk, bufs, dirty)
      ensures forall z: nat | z < |disk| && z != b :: Through(disk, bufs, z) == Through(old(disk), old(bufs), z)
    {
      Written(disk, bufs, dirty, b, data);
      disk := disk[b := data];
      bufs := bufs[b := data];
      dirty := dirty - {b};
      trace := trace + [disk];
    }

    method Brelse(b: nat)
      requires b in busy
      modifies this`busy
      ensures busy == old(busy) - {b}
    {
      busy := busy - {b};
    }

    // write_log: every logged block's cached contents reach its slot.
    method WriteLog() returns (ok: bool)
      requires Quiet() && dirty == From(lh, 0) && lh != []
      modifies this`bufs, this`busy, this`dirty, this`disk, this`trace
      ensures ok <==> |old(dirty) + old(busy)| < NBUF
      ensures !ok ==> disk == old(disk) && trace == old(trace)
      ensures !ok || WritingAt(g, lh, old(disk), old(bufs), old(trace), |lh|, Io(disk, bufs, dirty), trace)
      ensures ok ==> busy == old(busy) - old(dirty)
      ensures !ok || Others(g, bufs, busy)
    {
      var ok1, io, held, t := WriteSlots(g, lh, Io(disk, bufs, dirty), busy, trace);
      ok, disk, bufs, dirty, busy, trace := ok1, io.disk, io.bufs, io.dirty, held, t;
    }

    // The copying loop of write_head.
    method FillHead(b: Block) returns (hb: Block)
      requires |lh| <= LOGSIZE
      ensures hb == PutHead(b, lh)
    {
      hb := b[0 := |lh|];
      for i := 0 to |lh|
        invariant hb == PutEntries(b[0 := |lh|], lh, i)
      {
        hb := hb[i + 1 := lh[i]];
      }
    }

    // write_head: the commit point, when the list is not empty.
    method WriteHead()
      requires ValidLayout(g) && |disk| == g.nblocks && Coherent(disk, bufs, dirty) && Others(g, bufs, busy)
      requires g.start !in dirty && |dirty + busy| < NBUF && |lh| <= LOGSIZE
      modifies this`bufs, this`busy, this`dirty, this`disk, this`trace
      ensures disk == old(disk)[g.start := PutHead(old(disk)[g.start], lh)] && trace == old(trace) + [disk]
      ensures dirty == old(dirty) && Coherent(disk, bufs, dirty)
      ensures busy == old(busy) && Others(g, bufs, busy)
    {
      assert !Home(g, g.start);
      Recyclable(bufs, dirty + busy, g.start);
      var _ := Bread(g.start);
      assert bufs[g.start] == disk[g.start];
      var hb := FillHead(bufs[g.start]);
      Bwrite(g.start, hb);
      Brelse(g.start);
      Without(old(dirty), g.start);
      Returned(old(busy), g.start);
    }

    // install_trans: every slot's contents reach their home block, whose buffer is unpinned.
    method InstallTrans()
      requires Quiet()
      requires dirty == {} || dirty == From(lh, 0)
      requires Room(lh, busy, dirty != {})
      modifies this`bufs, this`busy, this`dirty, this`disk, this`trace
      ensures Quiet() && dirty == {} && busy == old(busy) - From(lh, 0)
      ensures disk == Install(g, old(disk), lh, |lh|)
      ensures trace == old(trace) + InstallSteps(g, old(disk), lh, |lh|)
    {
      var io, held, t := InstallSlots(g, lh, Io(disk, bufs, dirty), busy, trace, dirty != {});
      disk, bufs, dirty, busy, trace := io.disk, io.bufs, io.dirty, held, t;
    }

    // read_head: the block list of the header on disk replaces the one in memory.
    method ReadHead()
      requires LogOk(g, disk) && Coherent(disk, bufs, dirty) && Others(g, bufs, busy)
      requires dirty == {} && |busy| < NBUF
      modifies this`bufs, this`busy, this`lh
      ensures lh == Head(disk[g.start]) && Quiet() && busy == old(busy)
    {
      assert dirty + busy == busy && !Home(g, g.start);
      Recyclable(bufs, dirty + busy, g.start);
      var _ := Bread(g.start);
      var b := bufs[g.start];
      var blocks := [];
      for i := 0 to b[0]
        invariant blocks == Entries(b, i)
      {
        blocks := blocks + [b[1 + i]];
      }
      lh := blocks;
      Brelse(g.start);
    }

    // From a header on disk: install the transaction, then erase it.  The common tail of
    // recover_from_log and commit.
    method InstallAndClear()
      requires Quiet() && LogOk(g, disk) && Head(disk[g.start]) == lh
      requires dirty == {} || dirty == From(lh, 0)
      requires Room(lh, busy, dirty != {})
      modifies this`bufs, this`busy, this`dirty, this`disk, this`trace, this`lh
      ensures trace == old(trace) + RecoverySteps(g, old(disk))[1..]
      ensures disk == Recovered(g, old(disk))
      ensures Valid() && lh == [] && busy == old(busy) - From(old(lh), 0)
    {
      RoomKept(lh, |lh|, busy, busy - From(lh, 0), dirty != {});
      ghost var bs := lh;
      InstallTrans();
      InstallContents(g, old(disk), bs, |bs|);
      lh := [];
      WriteHead();
      assert disk == Recovered(g, old(disk));
      RecoveredContents(g, old(disk));
      Splice(old(trace), old(disk), InstallSteps(g, old(disk), bs, |bs|), disk);
    }

    // recover_from_log passes through exactly the recovery steps of the disk it finds.
    method RecoverFromLog()
      requires LogOk(g, disk) && Coherent(disk, bufs, dirty) && Others(g, bufs, busy)
      requires dirty == {} && |busy| + 1 < NBUF
      modifies this`bufs, this`busy, this`dirty, this`disk, this`trace, this`lh
      ensures trace == old(trace) + RecoverySteps(g, old(disk))[1..]
      ensures disk == Recovered(g, old(disk))
      ensures Valid() && lh == []
    {
      ReadHead();
      InstallAndClear();
    }

    // The first half of commit, up to the header write that is the commit point.
    method WriteTransaction() returns (ok: bool)
      requires Valid() && lh != []
      modifies this`bufs, this`busy, this`dirty, this`disk, this`trace
      ensures ok <==> |old(dirty) + old(busy)| < NBUF
      ensures !ok ==> disk == old(disk) && trace == old(trace)
      ensures ok ==> disk == WroteHead(g, old(disk), lh, DataOf(old(disk), old(bufs), lh))
      ensures ok ==> trace == old(trace) + WroteLogSteps(g, old(disk), DataOf(old(disk), old(bufs), lh), |lh|) + [disk]
      ensures ok ==> Quiet() && dirty == old(dirty) && busy == old(busy) - old(dirty)
      ensures ok ==> Room(lh, busy, dirty != {})
    {
      ok := WriteLog();
      if ok {
        assert dirty + busy == old(dirty) + old(busy);
        assert lh[0] in dirty && !Home(g, g.start);
        WriteHead();
      }
    }

    // commit passes through exactly the commit steps of the disk it finds.  It gets stuck (bget
    // panics, before anything is written) exactly when the transaction and the buffers that others hold
    // take up the whole cache.
    method Commit() returns (ok: bool)
      requires Valid()
      modifies this`bufs, this`busy, this`dirty, this`disk, this`trace, this`lh
      ensures ok <==> old(lh) == [] || |old(dirty) + old(busy)| < NBUF
      ensures ok ==> busy == old(busy) - old(dirty)
      ensures !ok ==> disk == old(disk) && trace == old(trace)
      ensures ok && old(lh) == [] ==> disk == old(disk) && trace == old(trace)
      ensures ok && old(lh) != [] ==>
                trace == old(trace) + CommitSteps(g, old(disk), old(lh), DataOf(old(disk), old(bufs), old(lh)))[1..]
      ensures ok ==> Valid() && lh == []
      ensures ok ==> forall b: nat | Home(g, b) :: Mem(b) == old(Mem(b)) && disk[b] == Mem(b)
    {
      ok := true;
      if |lh| > 0 {
        ghost var bs, data := lh, DataOf(disk, bufs, lh);
        ok := WriteTransaction();
        if ok {
          ghost var h := disk;
          InstallAndClear();
          assert busy == old(busy) - old(dirty);
          CommitTrace(g, old(disk), bs, data, old(trace), h, trace);
          CommitInvisible(g, old(disk), old(bufs), bs, data, disk, bufs);
        }
      }
    }

    // One pass through begin_op's loop: admitted, or the caller sleeps and tries again.
    method BeginOp() returns (admitted: bool)
      modifies this`outstanding
      ensures outstanding == old(outstanding) + if admitted then 1 else 0
      ensures admitted ==> !committing && |lh| + outstanding * MAXOPBLOCKS <= LOGSIZE
      ensures !admitted ==> committing || LOGSIZE - |lh| < outstanding * MAXOPBLOCKS + MAXOPBLOCKS
    {
      admitted := !committing && |lh| + (outstanding + 1) * MAXOPBLOCKS <= LOGSIZE;
      if admitted {
        outstanding := outstanding + 1;
      }
    }

    // log_write of the held buffer b, which the caller has filled with data; fails where it panics.
    method LogWrite(b: nat, data: Block) returns (ok: bool)
      requires ValidLayout(g) && |disk| == g.nblocks && Coherent(disk, bufs, dirty)
      requires Loggable(g, lh) && dirty == From(lh, 0)
      requires b in bufs && b in busy && Home(g, b)
      modifies this`bufs, this`dirty, this`lh
      ensures ok <==> |old(lh)| < LOGSIZE && |old(lh)| < g.size - 1 && 1 <= outstanding
      ensures !ok ==> bufs == old(bufs) && dirty == old(dirty) && lh == old(lh)
      ensures ok ==> bufs == old(bufs)[b := data] && Coherent(disk, bufs, dirty)
      ensures ok ==> lh == Absorb(old(lh), b)
      ensures ok ==> Loggable(g, lh) && dirty == From(lh, 0)
    {
      ok := |lh| < LOGSIZE && |lh| < g.size - 1 && 1 <= outstanding;
      if ok {
        var i := 0;
        while i < |lh| && lh[i] != b
          invariant 0 <= i <= |lh| && b !in lh[..i]
        {
          i := i + 1;
        }
        assert i == |lh| ==> lh[..i] == lh;
        Pin(lh, b);
        if i == |lh| {
          lh := lh + [b];
        }
        bufs := bufs[b := data];
        dirty := dirty + {b};
        assert bufs.Keys == old(bufs).Keys;
      }
    }

    // The typical use of log_write: bread, modify, log_write, brelse.  Fails where any of them panics.
    method Update(b: nat, data: Block) returns (ok: bool)
      requires Valid() && Home(g, b)
      modifies this`bufs, this`busy, this`dirty, this`lh
      ensures ok <==> Obtainable(old(bufs), old(dirty) + old(busy), b) &&
                      |old(lh)| < LOGSIZE && |old(lh)| < g.size - 1 && 1 <= outstanding
      ensures ok ==> Valid() && lh == Absorb(old(lh), b) && busy == old(busy) - {b}
      ensures ok ==> Mem(b) == data
      ensures ok ==> forall x: nat | x < |disk| && x != b :: Mem(x) == old(Mem(x))
    {
      ok := Bread(b);
      if ok {
        ok := LogWrite(b, data);
      }
      if ok {
        Brelse(b);
      }
    }

    // end_op by an operation that had begun: the last one out commits.  Fails where it panics.
    method EndOp() returns (ok: bool)
      requires Valid() && 1 <= outstanding
      modifies this
      ensures outstanding == old(outstanding) - 1
      ensures ok <==> !old(committing) &&
                      (outstanding == 0 && old(lh) != [] ==> |old(dirty) + old(busy)| < NBUF)
      ensures ok ==> Valid() && !committing
      ensures ok ==> forall b: nat | Home(g, b) :: Mem(b) == old(Mem(b))
      ensures ok && outstanding == 0 ==> lh == [] && forall b: nat | Home(g, b) :: disk[b] == Mem(b)
      ensures outstanding > 0 || old(lh) == [] || !ok ==> disk == old(disk) && trace == old(trace)
      ensures ok && outstanding == 0 && old(lh) != [] ==>
                trace == old(trace) + CommitSteps(g, old(disk), old(lh), DataOf(old(disk), old(bufs), old(lh)))[1..]
    {
      outstanding := outstanding - 1;
      ok := !committing;
      if ok && outstanding == 0 {
        committing := true;
        ok := Commit();
        if ok {
          committing := false;
        }
      }
    }
  }
}
