/**
 Group commit as a state machine: any number of processes run file-system
 operations over one buffer cache and one log, a commit proceeds one block write
 at a time, and a crash may fall between any two steps.

 The machine is shown to refine a transactional store with two contents: `mem`,
 which operations read and write, and `durable`, which survives a crash and is
 replaced by `mem` in one step, while no operation is open.
 */
module GroupCommit {
  import opened RedoLog
  import opened Log

  // An open operation has added `used` blocks to the log.
  datatype Op = Idle | Open(used: nat)

  // Where the commit, or the recovery at boot, has got to.
  datatype Phase =
    | Normal
    | Writing(done: nat)
    | Installing(done: nat)
    | Erased
    | Booting(done: nat)

  // A process inside log_write of block b, which has passed some of its three tests.
  datatype Call = Call(b: nat, passed: nat)

  datatype State = State(
    disk: Disk,
    cache: Cache,
    dirty: set<nat>,
    held: map<nat, nat>,     // busy buffers, with the process that holds them
    touched: set<nat>,       // held buffers changed since their last log_write
    lh: seq<nat>,
    outstanding: nat,
    phase: Phase,
    ops: seq<Op>,
    calls: map<nat, Call>)   // the processes inside log_write

  // ------------------------------------------------------------ contents

  function Mem(g: Layout, s: State, b: nat): Block
    requires LogOk(g, s.disk) && Home(g, b)
  {
    if s.phase.Booting? then Recovered(g, s.disk)[b] else Through(s.disk, s.cache, b)
  }

  function Durable(g: Layout, s: State, b: nat): Block
    requires LogOk(g, s.disk) && Home(g, b)
  {
    Recovered(g, s.disk)[b]
  }

  function CountOpen(ops: seq<Op>): nat {
    if ops == [] then 0 else CountOpen(ops[1..]) + if ops[0].Open? then 1 else 0
  }

  // Log space promised to open operations and not yet used.
  function Unspent(ops: seq<Op>): int {
    if ops == [] then 0 else Unspent(ops[1..]) + if ops[0].Open? then MAXOPBLOCKS - ops[0].used else 0
  }

  lemma {:induction false} OpsUpdate(ops: seq<Op>, p: nat, op: Op)
    requires p < |ops|
    ensures CountOpen(ops[p := op]) == CountOpen(ops) + (if op.Open? then 1 else 0) - (if ops[p].Open? then 1 else 0)
    ensures Unspent(ops[p := op]) == Unspent(ops) + (if op.Open? then MAXOPBLOCKS - op.used else 0)
                                                 - (if ops[p].Open? then MAXOPBLOCKS - ops[p].used else 0)
  {
    if p == 0 {
      assert ops[p := op][1..] == ops[1..];
    } else {
      assert ops[p := op][1..] == ops[1..][p - 1 := op];
      OpsUpdate(ops[1..], p - 1, op);
    }
  }

  lemma {:induction false} AnyOpen(ops: seq<Op>, i: nat)
    requires i < |ops| && ops[i].Open?
    ensures 0 < CountOpen(ops)
  {
    if i > 0 { AnyOpen(ops[1..], i - 1); }
  }

  lemma {:induction false} OpsBounds(ops: seq<Op>)
    requires forall i | 0 <= i < |ops| && ops[i].Open? :: ops[i].used <= MAXOPBLOCKS
    ensures 0 <= Unspent(ops) <= CountOpen(ops) * MAXOPBLOCKS
    ensures forall i | 0 <= i < |ops| && ops[i].Open? :: MAXOPBLOCKS - ops[i].used <= Unspent(ops)
  {
    if ops != [] {
      OpsBounds(ops[1..]);
      forall i | 0 <= i < |ops| && ops[i].Open?
        ensures MAXOPBLOCKS - ops[i].used <= Unspent(ops)
      {
        if i > 0 { assert ops[1..][i - 1] == ops[i]; }
      }
    }
  }

  // --------------------------------------------------------------- steps

  predicate Free(s: State, b: nat) {
    b in s.cache && b !in s.held
  }

  predicate Outside(s: State, p: nat) {
    p !in s.calls
  }

  predicate BeginOp(s: State, s': State, p: nat) {
    && s.phase.Normal? && p < |s.ops| && s.ops[p].Idle?
    && |s.lh| + (s.outstanding + 1) * MAXOPBLOCKS <= LOGSIZE
    && s' == s.(outstanding := s.outstanding + 1, ops := s.ops[p := Open(0)])
  }

  // An operation ends holding no buffer; the last one out starts the commit.
  predicate EndOp(s: State, s': State, p: nat) {
    && p < |s.ops| && s.ops[p].Open? && s.outstanding > 0 && Outside(s, p)
    && (forall b | b in s.held :: s.held[b] != p)
    && s' == s.(outstanding := s.outstanding - 1, ops := s.ops[p := Idle],
                phase := if s.outstanding > 1 then s.phase else if s.lh == [] then Erased else Writing(0))
  }

  // bget and bread: a hit takes the buffer; a miss first recycles (Evict) and reads (Load).
  predicate Hold(s: State, s': State, p: nat, b: nat) {
    Free(s, b) && !s.phase.Booting? && Outside(s, p) && s' == s.(held := s.held[b := p])
  }

  predicate Load(g: Layout, s: State, s': State, b: nat) {
    b < |s.disk| && b !in s.cache && |s.cache| < NBUF && s' == s.(cache := s.cache[b := s.disk[b]])
  }

  predicate Evict(s: State, s': State, b: nat) {
    Free(s, b) && b !in s.dirty && s' == s.(cache := s.cache - {b})
  }

  // The holder of a home block, inside an operation, changes the buffer.
  predicate Modify(g: Layout, s: State, s': State, p: nat, b: nat, data: Block) {
    && p < |s.ops| && s.ops[p].Open? && b in s.held && s.held[b] == p && Home(g, b) && b in s.cache && Outside(s, p)
    && s' == s.(cache := s.cache[b := data], touched := s.touched + {b})
  }

  // One of the tests of lh.n would panic.
  predicate TooBig(g: Layout, s: State) {
    |s.lh| >= LOGSIZE || |s.lh| >= g.size - 1
  }

  // log_write is called for a home block, by its holder, inside an operation.
  predicate LogCall(g: Layout, s: State, s': State, p: nat, b: nat) {
    && p < |s.ops| && s.ops[p].Open? && b in s.held && s.held[b] == p && Home(g, b) && Outside(s, p)
    && s' == s.(calls := s.calls[p := Call(b, 0)])
  }

  // Its tests read lh.n twice and outstanding once, without the lock; one that fails panics.
  predicate Passes(g: Layout, s: State, k: nat) {
    if k == 0 then |s.lh| < LOGSIZE else if k == 1 then |s.lh| < g.size - 1 else s.outstanding >= 1
  }

  predicate LogCheck(g: Layout, s: State, s': State, p: nat) {
    && p in s.calls && s.calls[p].passed < 3 && Passes(g, s, s.calls[p].passed)
    && s' == s.(calls := s.calls[p := Call(s.calls[p].b, s.calls[p].passed + 1)])
  }

  // Then it takes the lock, and looks for the block in the log, whatever has been added since.
  predicate LogAppend(s: State, s': State, p: nat) {
    && p in s.calls && s.calls[p].passed == 3 && p < |s.ops| && s.ops[p].Open?
    && var b := s.calls[p].b;
    && s' == s.(lh := Absorb(s.lh, b), dirty := s.dirty + {b}, touched := s.touched - {b},
                ops := s.ops[p := Open(s.ops[p].used + if b in s.lh then 0 else 1)], calls := s.calls - {p})
  }

  // Callers log what they changed before they release it.
  predicate Release(s: State, s': State, p: nat, b: nat) {
    b in s.held && s.held[b] == p && b !in s.touched && Outside(s, p) && s' == s.(held := s.held - {b})
  }

  predicate WriteSlot(g: Layout, s: State, s': State) {
    && s.phase.Writing? && s.phase.done < |s.lh|
    && var from, to := s.lh[s.phase.done], g.start + 1 + s.phase.done;
    && Free(s, from) && Free(s, to) && to < |s.disk|
    && s' == s.(disk := s.disk[to := s.cache[from]], cache := s.cache[to := s.cache[from]],
                phase := Writing(s.phase.done + 1))
  }

  predicate WriteHead(g: Layout, s: State, s': State) {
    && s.phase == Writing(|s.lh|) && |s.lh| <= LOGSIZE && g.start < |s.disk| && Free(s, g.start)
    && var h := PutHead(s.cache[g.start], s.lh);
    && s' == s.(disk := s.disk[g.start := h], cache := s.cache[g.start := h], phase := Installing(0))
  }

  predicate InstallSlot(g: Layout, s: State, s': State) {
    && s.phase.Installing? && s.phase.done < |s.lh|
    && var from, to := g.start + 1 + s.phase.done, s.lh[s.phase.done];
    && Free(s, from) && Free(s, to) && to < |s.disk|
    && s' == s.(disk := s.disk[to := s.cache[from]], cache := s.cache[to := s.cache[from]],
                dirty := s.dirty - {to}, phase := Installing(s.phase.done + 1))
  }

  predicate EraseHead(g: Layout, s: State, s': State) {
    && s.phase == Installing(|s.lh|) && g.start < |s.disk| && Free(s, g.start)
    && var h := PutHead(s.cache[g.start], []);
    && s' == s.(disk := s.disk[g.start := h], cache := s.cache[g.start := h], lh := [], phase := Erased)
  }

  predicate CommitDone(s: State, s': State) {
    s.phase.Erased? && s' == s.(phase := Normal)
  }

  // Everything but the disk is lost; recovery starts by reading the header.
  predicate Crash(g: Layout, s: State, s': State) {
    && g.start < |s.disk| && s.disk[g.start][0] <= LOGSIZE
    && s' == State(s.disk, map[], {}, map[], {}, Head(s.disk[g.start]), 0, Booting(0), seq(|s.ops|, i => Idle),
                  map[])
  }

  predicate BootInstall(g: Layout, s: State, s': State) {
    && s.phase.Booting? && s.phase.done < |s.lh|
    && var from, to := g.start + 1 + s.phase.done, s.lh[s.phase.done];
    && Free(s, from) && Free(s, to) && to < |s.disk|
    && s' == s.(disk := s.disk[to := s.cache[from]], cache := s.cache[to := s.cache[from]],
                phase := Booting(s.phase.done + 1))
  }

  predicate BootErase(g: Layout, s: State, s': State) {
    && s.phase == Booting(|s.lh|) && g.start < |s.disk| && Free(s, g.start)
    && var h := PutHead(s.cache[g.start], []);
    && s' == s.(disk := s.disk[g.start := h], cache := s.cache[g.start := h], lh := [], phase := Normal)
  }

  // ----------------------------------------------------------- invariant

  ghost predicate CacheInv(g: Layout, s: State) {
    && |s.cache| <= NBUF && s.dirty <= s.cache.Keys && s.touched <= s.cache.Keys
    && (forall b | b in s.cache :: b < |s.disk|)
    && (forall b | b in s.cache && b !in s.dirty && b !in s.touched :: s.cache[b] == s.disk[b])
    && (forall b | b in s.held :: b in s.cache)
  }

  // A changed and unlogged buffer is a home block held by a process inside an operation.
  ghost predicate TouchInv(g: Layout, s: State) {
    forall b | b in s.touched :: b in s.held && Home(g, b) && s.held[b] < |s.ops| && s.ops[s.held[b]].Open?
  }

  // A process inside log_write holds the block, inside an operation.
  ghost predicate CallInv(g: Layout, s: State) {
    forall p | p in s.calls ::
      && p < |s.ops| && s.ops[p].Open? && s.calls[p].b in s.held && s.held[s.calls[p].b] == p
      && Home(g, s.calls[p].b) && (s.calls[p].passed >= 2 ==> g.size > 1)
  }

  ghost predicate OpsInv(s: State) {
    && s.outstanding == CountOpen(s.ops)
    && (forall i | 0 <= i < |s.ops| && s.ops[i].Open? :: s.phase.Normal?)
  }

  // A log region in which no transaction runs over the end: the tests let nothing into one block, and
  // the buffer cache is too small for a transaction that does not fit in LOGSIZE blocks.
  predicate LongEnough(g: Layout) {
    g.size == 1 || LOGSIZE <= g.size
  }

  // The block list in memory: distinct home blocks.
  ghost predicate Listed(g: Layout, bs: seq<nat>) {
    |bs| <= LOGSIZE && (g.size == 1 ==> bs == []) && Distinct(bs) && forall i | 0 <= i < |bs| :: Home(g, bs[i])
  }

  // The log on disk, and which buffers are pinned, in each phase.
  ghost predicate QuietInv(g: Layout, s: State) {
    && LogOk(g, s.disk) && Head(s.disk[g.start]) == []
    && Listed(g, s.lh) && s.dirty == From(s.lh, 0)
  }

  // Slot i on disk holds what is seen of its home block.
  ghost predicate Copied(g: Layout, s: State, i: nat) {
    && i < |s.lh| && s.lh[i] < |s.disk| && g.start + 1 + i < |s.disk|
    && Slot(g, s.disk, i) == Through(s.disk, s.cache, s.lh[i])
  }

  ghost predicate WritingInv(g: Layout, s: State, k: nat) {
    && QuietInv(g, s) && k <= |s.lh| && (k > 0 ==> |s.lh| < g.size)
    && forall i: nat {:trigger Copied(g, s, i)} | i < k :: Copied(g, s, i)
  }

  ghost predicate InstallingInv(g: Layout, s: State, k: nat) {
    && LogOk(g, s.disk) && Head(s.disk[g.start]) == s.lh && k <= |s.lh| && s.dirty == From(s.lh, k)
    && forall i: nat {:trigger Copied(g, s, i)} | i < |s.lh| :: Copied(g, s, i)
  }

  ghost predicate BootingInv(g: Layout, s: State, k: nat) {
    && LogOk(g, s.disk) && Head(s.disk[g.start]) == s.lh && k <= |s.lh| && s.dirty == {}
    && forall i | 0 <= i < k :: Slot(g, s.disk, i) == s.disk[s.lh[i]]
  }

  ghost predicate PhaseInv(g: Layout, s: State) {
    match s.phase
    case Normal => QuietInv(g, s)
    case Writing(k) => WritingInv(g, s, k)
    case Installing(k) => InstallingInv(g, s, k)
    case Erased => QuietInv(g, s) && s.lh == []
    case Booting(k) => BootingInv(g, s, k)
  }

  ghost predicate Inv(g: Layout, s: State) {
    && LongEnough(g) && LogOk(g, s.disk) && PhaseInv(g, s)
    && CacheInv(g, s) && TouchInv(g, s) && CallInv(g, s) && OpsInv(s)
  }

  ghost predicate Init(g: Layout, s: State, n: nat) {
    && LogOk(g, s.disk) && Head(s.disk[g.start]) == []
    && s == State(s.disk, map[], {}, map[], {}, [], 0, Normal, seq(n, i => Idle), map[])
  }

  // ------------------------------------------------------- specification

  ghost predicate SameMem(g: Layout, s: State, s': State)
    requires LogOk(g, s.disk) && LogOk(g, s'.disk)
  {
    forall b: nat | Home(g, b) :: Mem(g, s', b) == Mem(g, s, b)
  }

  ghost predicate SameDurable(g: Layout, s: State, s': State)
    requires LogOk(g, s.disk) && LogOk(g, s'.disk)
  {
    forall b: nat | Home(g, b) :: Durable(g, s', b) == Durable(g, s, b)
  }

  // What one step may do, as seen by operations and by a crash.
  datatype Effect = Nothing | Write(p: nat, b: nat, data: Block) | Commit | Lose

  ghost predicate Has(g: Layout, s: State, s': State, e: Effect)
    requires LogOk(g, s.disk) && LogOk(g, s'.disk)
  {
    match e
    case Nothing => SameMem(g, s, s') && SameDurable(g, s, s')
    case Write(p, b, data) =>
      && p < |s.ops| && s.ops[p].Open? && Home(g, b) && SameDurable(g, s, s')
      && forall x: nat | Home(g, x) :: Mem(g, s', x) == if x == b then data else Mem(g, s, x)
    case Commit =>
      && s.outstanding == CountOpen(s.ops) == 0 && s'.ops == s.ops && SameMem(g, s, s')
      && forall b: nat | Home(g, b) :: Durable(g, s', b) == Mem(g, s, b)
    case Lose =>
      && SameDurable(g, s, s') && CountOpen(s'.ops) == 0
      && forall b: nat | Home(g, b) :: Mem(g, s', b) == Durable(g, s, b)
  }

  // ------------------------------------------------- steps keep the invariant

  lemma BeginOpKeeps(g: Layout, s: State, s': State, p: nat)
    requires Inv(g, s) && BeginOp(s, s', p)
    ensures Inv(g, s') && Has(g, s, s', Nothing)
  {
    OpsUpdate(s.ops, p, Open(0));
  }

  lemma EndOpKeeps(g: Layout, s: State, s': State, p: nat)
    requires Inv(g, s) && EndOp(s, s', p)
    ensures Inv(g, s') && Has(g, s, s', Nothing)
  {
    OpsUpdate(s.ops, p, Idle);
    forall i: nat | i < |s'.ops| && s'.ops[i].Open? ensures 0 < CountOpen(s'.ops) {
      AnyOpen(s'.ops, i);
    }
  }

  lemma CopiedKept(g: Layout, s: State, s': State, n: nat)
    requires ValidLayout(g) && |s.disk| == |s'.disk| == g.nblocks && Listed(g, s.lh) && n <= |s.lh| && s'.lh == s.lh
    requires n > 0 ==> |s.lh| < g.size
    requires forall i: nat {:trigger Copied(g, s, i)} | i < n :: Copied(g, s, i)
    requires forall i: nat {:trigger Slot(g, s'.disk, i)} | i < n :: Slot(g, s'.disk, i) == Slot(g, s.disk, i)
    requires forall b: nat {:trigger Home(g, b)} | Home(g, b) ::
      Through(s'.disk, s'.cache, b) == Through(s.disk, s.cache, b)
    ensures forall i: nat {:trigger Copied(g, s', i)} | i < n :: Copied(g, s', i)
  {
    forall i: nat {:trigger Copied(g, s', i)} | i < n ensures Copied(g, s', i) {
      assert Copied(g, s, i) && Home(g, s.lh[i]);
      assert Slot(g, s'.disk, i) == Slot(g, s.disk, i);
    }
  }

  // A step that only moves clean blocks in and out of the cache, or buffers from hand to hand.
  lemma CacheOnly(g: Layout, s: State, s': State)
    requires Inv(g, s) && s' == s.(cache := s'.cache, held := s'.held)
    requires CacheInv(g, s') && TouchInv(g, s') && CallInv(g, s')
    requires forall b: nat | b < |s.disk| :: Through(s.disk, s'.cache, b) == Through(s.disk, s.cache, b)
    ensures Inv(g, s') && Has(g, s, s', Nothing)
  {
    if s.phase.Writing? {
      CopiedKept(g, s, s', s.phase.done);
    } else if s.phase.Installing? {
      CopiedKept(g, s, s', |s.lh|);
    }
  }

  lemma HoldKeeps(g: Layout, s: State, s': State, p: nat, b: nat)
    requires Inv(g, s) && Hold(s, s', p, b)
    ensures Inv(g, s') && Has(g, s, s', Nothing)
  {
    CacheOnly(g, s, s');
  }

  lemma LoadKeeps(g: Layout, s: State, s': State, b: nat)
    requires Inv(g, s) && Load(g, s, s', b)
    ensures Inv(g, s') && Has(g, s, s', Nothing)
  {
    CacheOnly(g, s, s');
  }

  lemma EvictKeeps(g: Layout, s: State, s': State, b: nat)
    requires Inv(g, s) && Evict(s, s', b)
    ensures Inv(g, s') && Has(g, s, s', Nothing)
  {
    EvictCache(g, s, s', b);
    CacheOnly(g, s, s');
  }

  lemma EvictCache(g: Layout, s: State, s': State, b: nat)
    requires CacheInv(g, s) && TouchInv(g, s) && Evict(s, s', b)
    ensures CacheInv(g, s') && TouchInv(g, s')
    ensures forall x: nat | x < |s.disk| :: Through(s.disk, s'.cache, x) == Through(s.disk, s.cache, x)
  {
    assert s'.cache.Keys == s.cache.Keys - {b};
    assert |s'.cache| == |s'.cache.Keys|;
  }

  lemma ReleaseKeeps(g: Layout, s: State, s': State, p: nat, b: nat)
    requires Inv(g, s) && Release(s, s', p, b)
    ensures Inv(g, s') && Has(g, s, s', Nothing)
  {
    CacheOnly(g, s, s');
  }

  lemma ModifyKeeps(g: Layout, s: State, s': State, p: nat, b: nat, data: Block)
    requires Inv(g, s) && Modify(g, s, s', p, b, data)
    ensures Inv(g, s') && Has(g, s, s', Write(p, b, data))
  {
    assert s'.cache.Keys == s.cache.Keys;
  }

  lemma LogCallKeeps(g: Layout, s: State, s': State, p: nat, b: nat)
    requires Inv(g, s) && LogCall(g, s, s', p, b)
    ensures Inv(g, s') && Has(g, s, s', Nothing)
  {
  }

  lemma LogCheckKeeps(g: Layout, s: State, s': State, p: nat)
    requires Inv(g, s) && LogCheck(g, s, s', p)
    ensures Inv(g, s') && Has(g, s, s', Nothing)
  {
  }

  // Whatever the tests saw, a logged block is pinned, so the list is no longer than the cache.
  lemma AppendListed(g: Layout, s: State, s': State, p: nat)
    requires Inv(g, s) && LogAppend(s, s', p)
    ensures Listed(g, s'.lh) && s'.dirty == From(s'.lh, 0) && s'.dirty <= s'.cache.Keys
  {
    var b := s.calls[p].b;
    Pin(s.lh, b);
    DistinctCount(s'.lh, 0);
    Subset(s'.dirty, s'.cache.Keys);
  }

  lemma LogAppendKeeps(g: Layout, s: State, s': State, p: nat)
    requires Inv(g, s) && LogAppend(s, s', p)
    ensures Inv(g, s') && Has(g, s, s', Nothing)
  {
    AppendListed(g, s, s', p);
    AppendRest(g, s, s', p);
  }

  lemma AppendRest(g: Layout, s: State, s': State, p: nat)
    requires Inv(g, s) && LogAppend(s, s', p) && s'.dirty <= s'.cache.Keys
    ensures CacheInv(g, s') && TouchInv(g, s') && CallInv(g, s') && OpsInv(s')
  {
    OpsUpdate(s.ops, p, s'.ops[p]);
  }

  // ----------------------------------------------------- commit steps

  // While a commit runs no operation is open, so every change has been logged.
  lemma NothingTouched(g: Layout, s: State)
    requires Inv(g, s) && !s.phase.Normal?
    ensures s.touched == {} && s.calls == map[] && CountOpen(s.ops) == 0
  {
    NoneOpen(s.ops);
  }

  lemma {:induction false} NoneOpen(ops: seq<Op>)
    requires forall i | 0 <= i < |ops| :: ops[i].Idle?
    ensures CountOpen(ops) == Unspent(ops) == 0
  {
    if ops != [] { NoneOpen(ops[1..]); }
  }

  // One bwrite of the commit or of recovery: the buffer of dst and the block on disk become data.
  ghost predicate Stored(s: State, s': State, dst: nat, data: Block) {
    && dst in s.cache && dst < |s.disk| && !s'.phase.Normal?
    && s'.disk == s.disk[dst := data] && s'.cache == s.cache[dst := data]
    && s'.dirty == s.dirty - {dst} && s'.held == s.held && s'.touched == s.touched
    && s'.ops == s.ops && s'.outstanding == s.outstanding && |s'.lh| <= |s.lh| && s'.calls == s.calls
  }

  lemma StoredCache(g: Layout, s: State, s': State, dst: nat, data: Block)
    requires Inv(g, s) && !s.phase.Normal? && Stored(s, s', dst, data)
    ensures CacheInv(g, s') && TouchInv(g, s') && CallInv(g, s') && OpsInv(s') && s.touched == {}
    ensures Through(s'.disk, s'.cache, dst) == data
    ensures forall b: nat | b < |s.disk| && b != dst ::
              Through(s'.disk, s'.cache, b) == Through(s.disk, s.cache, b)
  {
    NothingTouched(g, s);
    assert s'.cache.Keys == s.cache.Keys;
  }

  // A disk with an empty log recovers to itself.
  lemma EmptyLog(g: Layout, d: Disk)
    requires LogOk(g, d) && Head(d[g.start]) == []
    ensures SameHome(g, Recovered(g, d), d)
  {
    RecoveredContents(g, d);
  }

  // The first slot is got into the cache only by a transaction that fits in the log region.
  lemma SlotFits(g: Layout, s: State, s': State)
    requires Inv(g, s) && WriteSlot(g, s, s')
    ensures Loggable(g, s.lh)
  {
    if |s.lh| >= g.size {
      DistinctCount(s.lh, 0);
      AllOf(s.dirty, s.cache.Keys);
    }
  }

  lemma WriteSlotStored(g: Layout, s: State, s': State)
    requires Inv(g, s) && WriteSlot(g, s, s')
    ensures CacheInv(g, s') && TouchInv(g, s') && CallInv(g, s') && OpsInv(s') && QuietInv(g, s')
    ensures Loggable(g, s.lh)
    ensures forall b: nat {:trigger Home(g, b)} | Home(g, b) ::
      Through(s'.disk, s'.cache, b) == Through(s.disk, s.cache, b)
  {
    var k, to := s.phase.done, g.start + 1 + s.phase.done;
    SlotFits(g, s, s');
    assert !Home(g, to) && s'.dirty == s.dirty - {to};
    StoredCache(g, s, s', to, s.cache[s.lh[k]]);
  }

  lemma WriteSlotCopied(g: Layout, s: State, s': State)
    requires Inv(g, s) && WriteSlot(g, s, s')
    ensures forall i: nat {:trigger Copied(g, s', i)} | i <= s.phase.done :: Copied(g, s', i)
  {
    var k := s.phase.done;
    WriteSlotStored(g, s, s');
    CopiedKept(g, s, s', k);
    assert Home(g, s.lh[k]) && Copied(g, s', k);
  }

  lemma WriteSlotPhase(g: Layout, s: State, s': State)
    requires Inv(g, s) && WriteSlot(g, s, s')
    ensures Inv(g, s') && SameMem(g, s, s')
  {
    WriteSlotStored(g, s, s');
    WriteSlotCopied(g, s, s');
  }

  lemma WriteSlotKeeps(g: Layout, s: State, s': State)
    requires Inv(g, s) && WriteSlot(g, s, s')
    ensures Inv(g, s') && Has(g, s, s', Nothing)
  {
    WriteSlotPhase(g, s, s');
    EmptyLog(g, s.disk);
    EmptyLog(g, s'.disk);
  }

  lemma WriteHeadPhase(g: Layout, s: State, s': State)
    requires Inv(g, s) && WriteHead(g, s, s')
    ensures Inv(g, s') && SameMem(g, s, s')
  {
    assert !Home(g, g.start) && s'.dirty == s.dirty - {g.start};
    StoredCache(g, s, s', g.start, PutHead(s.cache[g.start], s.lh));
    CopiedKept(g, s, s', |s.lh|);
  }

  // Once every slot is written, the header and the slots together recover to what is in memory.
  lemma HeadRecovers(g: Layout, s: State, s': State)
    requires Inv(g, s) && WriteHead(g, s, s') && LogOk(g, s'.disk) && Head(s'.disk[g.start]) == s.lh
    ensures forall b: nat | Home(g, b) :: Durable(g, s', b) == Mem(g, s, b)
  {
    NothingTouched(g, s);
    RecoveredContents(g, s'.disk);
    forall b: nat | Home(g, b) ensures Durable(g, s', b) == Mem(g, s, b) {
      if b in s.lh {
        var i :| 0 <= i < |s.lh| && s.lh[i] == b;
        assert Copied(g, s, i) && Slot(g, s'.disk, i) == Slot(g, s.disk, i);
      }
    }
  }

  // The commit point: the header reaches the disk and every logged block becomes durable at once.
  lemma WriteHeadKeeps(g: Layout, s: State, s': State)
    requires Inv(g, s) && WriteHead(g, s, s')
    ensures Inv(g, s') && Has(g, s, s', Commit)
  {
    WriteHeadPhase(g, s, s');
    HeadRecovers(g, s, s');
    NothingTouched(g, s);
  }

  lemma InstallSlotStored(g: Layout, s: State, s': State)
    requires Inv(g, s) && InstallSlot(g, s, s')
    ensures s.touched == {} && CacheInv(g, s') && TouchInv(g, s') && CallInv(g, s') && OpsInv(s')
    ensures forall b: nat | b < |s.disk| :: Through(s'.disk, s'.cache, b) == Through(s.disk, s.cache, b)
    ensures s'.disk == s.disk[s.lh[s.phase.done] := Slot(g, s.disk, s.phase.done)]
    ensures s'.dirty == From(s.lh, s.phase.done + 1)
  {
    var k, from, to := s.phase.done, g.start + 1 + s.phase.done, s.lh[s.phase.done];
    assert !Home(g, from) && Home(g, to);
    NothingTouched(g, s);
    Unpin(s.lh, k);
    assert Copied(g, s, k);
    assert s.cache[from] == Slot(g, s.disk, k) == s.cache[to];
    StoredCache(g, s, s', to, s.cache[from]);
  }

  // Copying a slot to its home block does not change what the disk recovers to.
  lemma CopySlot(g: Layout, d: Disk, k: nat, e: Disk)
    requires LogOk(g, d) && k < |Head(d[g.start])| && Head(d[g.start])[k] < |d|
    requires e == d[Head(d[g.start])[k] := Slot(g, d, k)]
    ensures LogOk(g, e) && e[g.start] == d[g.start] && SameHome(g, Recovered(g, e), Recovered(g, d))
  {
    assert Home(g, Head(d[g.start])[k]);
    SameRecovery(g, d, e);
  }

  lemma InstallSlotSeen(g: Layout, s: State, s': State)
    requires Inv(g, s) && InstallSlot(g, s, s')
    ensures |s'.disk| == g.nblocks
    ensures forall b: nat {:trigger Home(g, b)} | Home(g, b) ::
      Through(s'.disk, s'.cache, b) == Through(s.disk, s.cache, b)
    ensures forall i: nat {:trigger Slot(g, s'.disk, i)} | i < |s.lh| :: Slot(g, s'.disk, i) == Slot(g, s.disk, i)
  {
    InstallSlotStored(g, s, s');
    assert Home(g, s.lh[s.phase.done]);
  }

  lemma InstallSlotSlots(g: Layout, s: State, s': State)
    requires Inv(g, s) && InstallSlot(g, s, s')
    ensures forall i: nat {:trigger Copied(g, s', i)} | i < |s.lh| :: Copied(g, s', i)
  {
    InstallSlotSeen(g, s, s');
    CopiedKept(g, s, s', |s.lh|);
  }

  lemma InstallSlotPhase(g: Layout, s: State, s': State)
    requires Inv(g, s) && InstallSlot(g, s, s')
    ensures InstallingInv(g, s', s.phase.done + 1)
  {
    InstallSlotStored(g, s, s');
    InstallSlotSlots(g, s, s');
    CopySlot(g, s.disk, s.phase.done, s'.disk);
  }

  lemma InstallSlotCache(g: Layout, s: State, s': State)
    requires Inv(g, s) && InstallSlot(g, s, s')
    ensures CacheInv(g, s') && TouchInv(g, s') && CallInv(g, s') && OpsInv(s')
  {
    InstallSlotStored(g, s, s');
  }

  lemma InstallSlotInv(g: Layout, s: State, s': State)
    requires Inv(g, s) && InstallSlot(g, s, s')
    ensures Inv(g, s')
  {
    InstallSlotCache(g, s, s');
    InstallSlotPhase(g, s, s');
  }

  lemma InstallSlotKeeps(g: Layout, s: State, s': State)
    requires Inv(g, s) && InstallSlot(g, s, s')
    ensures Inv(g, s') && Has(g, s, s', Nothing)
  {
    InstallSlotInv(g, s, s');
    InstallSlotStored(g, s, s');
    CopySlot(g, s.disk, s.phase.done, s'.disk);
    assert SameMem(g, s, s');
    assert SameDurable(g, s, s');
  }

  lemma EraseHeadPhase(g: Layout, s: State, s': State)
    requires Inv(g, s) && EraseHead(g, s, s')
    ensures Inv(g, s') && SameMem(g, s, s')
  {
    assert !Home(g, g.start);
    StoredCache(g, s, s', g.start, PutHead(s.cache[g.start], []));
  }

  // By now every home block holds what its slot says, so the log is no longer needed.
  lemma EraseHeadDurable(g: Layout, s: State, s': State)
    requires Inv(g, s) && EraseHead(g, s, s') && LogOk(g, s'.disk)
    ensures SameDurable(g, s, s')
  {
    NothingTouched(g, s);
    RecoveredContents(g, s.disk);
    RecoveredContents(g, s'.disk);
    forall b: nat | Home(g, b) ensures Durable(g, s', b) == Durable(g, s, b) {
      if b in s.lh {
        var i :| 0 <= i < |s.lh| && s.lh[i] == b;
        assert Copied(g, s, i);
      }
    }
  }

  lemma EraseHeadKeeps(g: Layout, s: State, s': State)
    requires Inv(g, s) && EraseHead(g, s, s')
    ensures Inv(g, s') && Has(g, s, s', Nothing)
  {
    EraseHeadPhase(g, s, s');
    EraseHeadDurable(g, s, s');
  }

  lemma CommitDoneKeeps(g: Layout, s: State, s': State)
    requires Inv(g, s) && CommitDone(s, s')
    ensures Inv(g, s') && Has(g, s, s', Nothing)
  {
  }

  // ------------------------------------------------- crash and recovery

  lemma CrashKeeps(g: Layout, s: State, s': State)
    requires Inv(g, s) && Crash(g, s, s')
    ensures Inv(g, s') && Has(g, s, s', Lose)
  {
    NoneOpen(s'.ops);
  }

  lemma BootInstallKeeps(g: Layout, s: State, s': State)
    requires Inv(g, s) && BootInstall(g, s, s')
    ensures Inv(g, s') && Has(g, s, s', Nothing)
  {
    var k, from, to := s.phase.done, g.start + 1 + s.phase.done, s.lh[s.phase.done];
    assert !Home(g, from) && Home(g, to);
    NothingTouched(g, s);
    StoredCache(g, s, s', to, s.cache[from]);
    CopySlot(g, s.disk, k, s'.disk);
    BootInstallPhase(g, s, s');
  }

  lemma BootInstallPhase(g: Layout, s: State, s': State)
    requires Inv(g, s) && BootInstall(g, s, s')
    ensures LogOk(g, s'.disk) && PhaseInv(g, s')
  {
    var k, from, to := s.phase.done, g.start + 1 + s.phase.done, s.lh[s.phase.done];
    assert !Home(g, from) && Home(g, to);
    NothingTouched(g, s);
    assert s'.disk == s.disk[to := Slot(g, s.disk, k)];
    CopySlot(g, s.disk, k, s'.disk);
    BootCopied(g, s.disk, s.lh, k, s'.disk);
  }

  // The first k entries of the list have been installed, and now one more.
  lemma BootCopied(g: Layout, d: Disk, bs: seq<nat>, k: nat, e: Disk)
    requires ValidLayout(g) && |d| == g.nblocks && Loggable(g, bs) && k < |bs|
    requires forall i | 0 <= i < k :: Slot(g, d, i) == d[bs[i]]
    requires Home(g, bs[k]) && e == d[bs[k] := Slot(g, d, k)]
    ensures forall i | 0 <= i < k + 1 :: Slot(g, e, i) == e[bs[i]]
  {
    forall i | 0 <= i < k + 1 ensures Slot(g, e, i) == e[bs[i]] {
      assert Home(g, bs[i]);
      assert Slot(g, e, i) == Slot(g, d, i);
    }
  }

  lemma BootEraseInv(g: Layout, s: State, s': State)
    requires Inv(g, s) && BootErase(g, s, s')
    ensures Inv(g, s')
  {
    NothingTouched(g, s);
    assert !Home(g, g.start) && s'.cache.Keys == s.cache.Keys;
  }

  // Recovery has installed every logged block.
  lemma BootEraseHome(g: Layout, s: State, s': State, b: nat)
    requires Inv(g, s) && BootErase(g, s, s') && Inv(g, s') && Home(g, b)
    ensures Mem(g, s', b) == s.disk[b] == Mem(g, s, b) && Durable(g, s', b) == s.disk[b]
  {
    NothingTouched(g, s);
    RecoveredContents(g, s.disk);
    RecoveredContents(g, s'.disk);
    if b in s.lh {
      var i :| 0 <= i < |s.lh| && s.lh[i] == b;
    }
  }

  lemma BootEraseKeeps(g: Layout, s: State, s': State)
    requires Inv(g, s) && BootErase(g, s, s')
    ensures Inv(g, s') && Has(g, s, s', Nothing)
  {
    BootEraseInv(g, s, s');
    forall b: nat | Home(g, b)
      ensures Mem(g, s', b) == s.disk[b] == Mem(g, s, b) && Durable(g, s', b) == s.disk[b]
    {
      BootEraseHome(g, s, s', b);
    }
  }

  // ------------------------------------------------------------ theorems

  datatype Step =
    | BeginOpStep(p: nat) | EndOpStep(p: nat)
    | HoldStep(p: nat, b: nat) | ReleaseStep(p: nat, b: nat) | LoadStep(b: nat) | EvictStep(b: nat)
    | ModifyStep(p: nat, b: nat, data: Block)
    | LogCallStep(p: nat, b: nat) | LogCheckStep(p: nat) | LogAppendStep(p: nat)
    | WriteSlotStep | WriteHeadStep | InstallSlotStep | EraseHeadStep | CommitDoneStep
    | CrashStep | BootInstallStep | BootEraseStep

  ghost predicate NextStep(g: Layout, s: State, s': State, step: Step) {
    match step
    case BeginOpStep(p) => BeginOp(s, s', p)
    case EndOpStep(p) => EndOp(s, s', p)
    case HoldStep(p, b) => Hold(s, s', p, b)
    case ReleaseStep(p, b) => Release(s, s', p, b)
    case LoadStep(b) => Load(g, s, s', b)
    case EvictStep(b) => Evict(s, s', b)
    case ModifyStep(p, b, data) => Modify(g, s, s', p, b, data)
    case LogCallStep(p, b) => LogCall(g, s, s', p, b)
    case LogCheckStep(p) => LogCheck(g, s, s', p)
    case LogAppendStep(p) => LogAppend(s, s', p)
    case WriteSlotStep => WriteSlot(g, s, s')
    case WriteHeadStep => WriteHead(g, s, s')
    case InstallSlotStep => InstallSlot(g, s, s')
    case EraseHeadStep => EraseHead(g, s, s')
    case CommitDoneStep => CommitDone(s, s')
    case CrashStep => Crash(g, s, s')
    case BootInstallStep => BootInstall(g, s, s')
    case BootEraseStep => BootErase(g, s, s')
  }

  function EffectOf(step: Step): Effect {
    match step
    case ModifyStep(p, b, data) => Write(p, b, data)
    case WriteHeadStep => Commit
    case CrashStep => Lose
    case _ => Nothing
  }

  lemma CacheStepRefines(g: Layout, s: State, s': State, step: Step)
    requires Inv(g, s) && NextStep(g, s, s', step)
    requires step.HoldStep? || step.ReleaseStep? || step.LoadStep? || step.EvictStep?
    ensures Inv(g, s') && Has(g, s, s', Nothing)
  {
    match step
    case HoldStep(p, b) => HoldKeeps(g, s, s', p, b);
    case ReleaseStep(p, b) => ReleaseKeeps(g, s, s', p, b);
    case LoadStep(b) => LoadKeeps(g, s, s', b);
    case EvictStep(b) => EvictKeeps(g, s, s', b);
  }

  lemma LogStepRefines(g: Layout, s: State, s': State, step: Step)
    requires Inv(g, s) && NextStep(g, s, s', step)
    requires step.LogCallStep? || step.LogCheckStep? || step.LogAppendStep?
    ensures Inv(g, s') && Has(g, s, s', Nothing)
  {
    match step
    case LogCallStep(p, b) => LogCallKeeps(g, s, s', p, b);
    case LogCheckStep(p) => LogCheckKeeps(g, s, s', p);
    case LogAppendStep(p) => LogAppendKeeps(g, s, s', p);
  }

  lemma CommitStepRefines(g: Layout, s: State, s': State, step: Step)
    requires Inv(g, s) && NextStep(g, s, s', step)
    requires step.WriteSlotStep? || step.InstallSlotStep? || step.EraseHeadStep? || step.CommitDoneStep? ||
             step.BootInstallStep? || step.BootEraseStep?
    ensures Inv(g, s') && Has(g, s, s', Nothing)
  {
    match step
    case WriteSlotStep => WriteSlotKeeps(g, s, s');
    case InstallSlotStep => InstallSlotKeeps(g, s, s');
    case EraseHeadStep => EraseHeadKeeps(g, s, s');
    case CommitDoneStep => CommitDoneKeeps(g, s, s');
    case BootInstallStep => BootInstallKeeps(g, s, s');
    case BootEraseStep => BootEraseKeeps(g, s, s');
  }

  // Refinement: each step keeps the invariant and has its effect on the transactional store.
  lemma StepRefines(g: Layout, s: State, s': State, step: Step)
    requires Inv(g, s) && NextStep(g, s, s', step)
    ensures Inv(g, s') && Has(g, s, s', EffectOf(step))
  {
    if step.BeginOpStep? {
      BeginOpKeeps(g, s, s', step.p);
    } else if step.EndOpStep? {
      EndOpKeeps(g, s, s', step.p);
    } else if step.ModifyStep? {
      ModifyKeeps(g, s, s', step.p, step.b, step.data);
    } else if step.WriteHeadStep? {
      WriteHeadKeeps(g, s, s');
    } else if step.CrashStep? {
      CrashKeeps(g, s, s');
    } else if step.HoldStep? || step.ReleaseStep? || step.LoadStep? || step.EvictStep? {
      CacheStepRefines(g, s, s', step);
    } else if step.LogCallStep? || step.LogCheckStep? || step.LogAppendStep? {
      LogStepRefines(g, s, s', step);
    } else {
      CommitStepRefines(g, s, s', step);
    }
  }

  ghost predicate Run(g: Layout, run: seq<State>, steps: seq<Step>, n: nat) {
    && |run| == |steps| + 1 && Init(g, run[0], n)
    && forall i {:trigger steps[i]} | 0 <= i < |steps| :: NextStep(g, run[i], run[i + 1], steps[i])
  }

  lemma {:induction false} RunInv(g: Layout, run: seq<State>, steps: seq<Step>, n: nat, i: nat)
    requires LongEnough(g) && Run(g, run, steps, n) && i < |run|
    ensures Inv(g, run[i])
  {
    if i == 0 {
      NoneOpen(run[0].ops);
    } else {
      RunInv(g, run, steps, n, i - 1);
      StepRefines(g, run[i - 1], run[i], steps[i - 1]);
    }
  }

  // State s holds, for a crash, what memory held in state q, when no operation was open.
  ghost predicate Snapshot(g: Layout, s: State, q: State)
    requires LogOk(g, s.disk) && LogOk(g, q.disk)
  {
    CountOpen(q.ops) == 0 && forall b: nat | Home(g, b) :: Durable(g, s, b) == Mem(g, q, b)
  }

  lemma SnapshotKept(g: Layout, s: State, s': State, q: State, step: Step)
    requires LogOk(g, s.disk) && LogOk(g, s'.disk) && LogOk(g, q.disk) && Has(g, s, s', EffectOf(step))
    requires !step.WriteHeadStep? && Snapshot(g, s, q)
    ensures Snapshot(g, s', q)
  {
  }

  lemma SnapshotTaken(g: Layout, s: State, s': State, step: Step)
    requires LogOk(g, s.disk) && LogOk(g, s'.disk) && Has(g, s, s', EffectOf(step)) && step.WriteHeadStep?
    ensures Snapshot(g, s', s)
  {
  }

  lemma SnapshotStep(g: Layout, s: State, s': State, q: State, step: Step)
    requires Inv(g, s) && NextStep(g, s, s', step) && LogOk(g, q.disk) && Snapshot(g, s, q)
    ensures LogOk(g, s'.disk) && Snapshot(g, s', if step.WriteHeadStep? then s else q)
  {
    StepRefines(g, s, s', step);
    if step.WriteHeadStep? {
      SnapshotTaken(g, s, s', step);
    } else {
      SnapshotKept(g, s, s', q, step);
    }
  }

  // Step i of a run: the snapshot stays, or is taken anew.
  lemma SnapshotAt(g: Layout, run: seq<State>, steps: seq<Step>, n: nat, i: nat, q: State) returns (later: bool)
    requires LongEnough(g) && Run(g, run, steps, n) && 0 < i < |run|
    requires LogOk(g, run[i - 1].disk) && LogOk(g, q.disk)
    requires Snapshot(g, run[i - 1], q)
    ensures LogOk(g, run[i].disk) && Snapshot(g, run[i], if later then run[i - 1] else q)
  {
    RunInv(g, run, steps, n, i - 1);
    later := steps[i - 1].WriteHeadStep?;
    SnapshotStep(g, run[i - 1], run[i], q, steps[i - 1]);
  }

  // Over every run, with any number of crashes: what a crash would leave at any time is what memory
  // held at some earlier time when no operation was open, so it contains only whole operations.
  lemma {:induction false} CrashConsistency(g: Layout, run: seq<State>, steps: seq<Step>, n: nat, i: nat)
    returns (k: nat)
    requires LongEnough(g) && Run(g, run, steps, n) && i < |run|
    ensures k <= i && LogOk(g, run[i].disk) && LogOk(g, run[k].disk) && Snapshot(g, run[i], run[k])
  {
    if i == 0 {
      k := 0;
      NoneOpen(run[0].ops);
      EmptyLog(g, run[0].disk);
    } else {
      k := CrashConsistency(g, run, steps, n, i - 1);
      var later := SnapshotAt(g, run, steps, n, i, run[k]);
      if later { k := i - 1; }
    }
  }

  // When the commit started by the last end_op is over, memory is durable.
  lemma CommittedIsDurable(g: Layout, s: State)
    requires Inv(g, s) && s.phase.Erased?
    ensures forall b: nat | Home(g, b) :: Durable(g, s, b) == Mem(g, s, b)
  {
    NothingTouched(g, s);
    EmptyLog(g, s.disk);
  }

  // Isolation: a commit runs only with no operation open, and while one is open no home block
  // changes on disk.
  lemma CommitIsolation(g: Layout, s: State, s': State, step: Step)
    requires Inv(g, s) && NextStep(g, s, s', step)
    ensures !s.phase.Normal? ==> s.outstanding == 0
    ensures s.outstanding > 0 ==> SameHome(g, s.disk, s'.disk)
  {
    if !s.phase.Normal? {
      NothingTouched(g, s);
    }
  }

  // ------------------------------------------------------- log reservation

  // The blocks logged, and what the open operations may still add within their reservations, fit.
  ghost predicate Budget(s: State) {
    && (forall i | 0 <= i < |s.ops| && s.ops[i].Open? :: s.ops[i].used <= MAXOPBLOCKS)
    && |s.lh| + Unspent(s.ops) <= LOGSIZE
  }

  // No operation has added more than limit blocks.
  predicate Within(s: State, limit: nat) {
    forall i | 0 <= i < |s.ops| && s.ops[i].Open? :: s.ops[i].used <= limit
  }

  // No operation has added more than c blocks, in any state of the run.
  predicate Modest(run: seq<State>, c: nat) {
    forall i | 0 <= i < |run| :: Within(run[i], c)
  }

  // begin_op admits an operation only if its whole reservation fits beside all others ...
  lemma AdmissionFits(g: Layout, s: State, s': State, p: nat)
    requires Inv(g, s) && Budget(s) && BeginOp(s, s', p)
    ensures Budget(s')
  {
    OpsUpdate(s.ops, p, Open(0));
    OpsBounds(s.ops);
  }

  // ... and no other step breaks that, as long as operations keep to their reservations.
  lemma BudgetStep(g: Layout, s: State, s': State, step: Step)
    requires Inv(g, s) && NextStep(g, s, s', step) && Budget(s) && Within(s', MAXOPBLOCKS)
    ensures Budget(s')
  {
    match step
    case BeginOpStep(p) => AdmissionFits(g, s, s', p);
    case EndOpStep(p) => OpsUpdate(s.ops, p, Idle);
    case LogAppendStep(p) => OpsUpdate(s.ops, p, s'.ops[p]);
    case CrashStep => NoneOpen(s'.ops);
    case EraseHeadStep => OpsBounds(s.ops);
    case BootEraseStep => OpsBounds(s.ops);
    case _ =>
  }

  lemma {:induction false} BudgetKept(g: Layout, run: seq<State>, steps: seq<Step>, n: nat, i: nat)
    requires LongEnough(g) && Run(g, run, steps, n) && i < |run| && Modest(run, MAXOPBLOCKS)
    ensures Budget(run[i])
  {
    if i == 0 {
      NoneOpen(run[0].ops);
    } else {
      BudgetKept(g, run, steps, n, i - 1);
      RunInv(g, run, steps, n, i - 1);
      BudgetStep(g, run[i - 1], run[i], steps[i - 1]);
    }
  }

  // Reservation: with room for LOGSIZE blocks beside the header, and as long as no operation adds
  // more than MAXOPBLOCKS blocks, log_write never panics for one that has some of them to spare.
  lemma Reservation(g: Layout, run: seq<State>, steps: seq<Step>, n: nat, i: nat, p: nat)
    requires LongEnough(g) && Run(g, run, steps, n) && i < |run| && Modest(run, MAXOPBLOCKS)
    requires p < |run[i].ops| && run[i].ops[p].Open? && run[i].ops[p].used < MAXOPBLOCKS
    ensures run[i].outstanding >= 1 && run[i].phase.Normal? && |run[i].lh| < LOGSIZE
    ensures LOGSIZE < g.size ==> !TooBig(g, run[i])
  {
    RunInv(g, run, steps, n, i);
    BudgetKept(g, run, steps, n, i);
    OpsBounds(run[i].ops);
    AnyOpen(run[i].ops, p);
  }

  // So operations that add fewer than MAXOPBLOCKS blocks are safe ...
  lemma SmallOperations(g: Layout, run: seq<State>, steps: seq<Step>, n: nat, i: nat, p: nat, limit: nat)
    requires Run(g, run, steps, n) && i < |run| && limit < MAXOPBLOCKS < LOGSIZE < g.size
    requires Modest(run, limit)
    requires p < |run[i].ops| && run[i].ops[p].Open?
    ensures !TooBig(g, run[i])
  {
    forall k | 0 <= k < |run| ensures Within(run[k], MAXOPBLOCKS) {
      assert Within(run[k], limit);
    }
    assert Within(run[i], limit);
    Reservation(g, run, steps, n, i, p);
  }

  // ------------------------------------------- a full log, and a full cache

  ghost function Upto(s: seq<nat>, k: nat): set<nat>
    requires k <= |s|
  {
    set i | 0 <= i < k :: s[i]
  }

  // Where the share of process p starts, when three processes log c blocks each.
  function Start(c: nat, p: nat): nat {
    if p == 0 then 0 else if p == 1 then c else c + c
  }

  // The share of process p when k blocks have been logged, c per process.
  function Share(c: nat, k: nat, p: nat): Op {
    Open(if k <= Start(c, p) then 0 else if k < Start(c, p) + c then k - Start(c, p) else c)
  }

  // Three operations are open and have logged the first k of the given blocks, c each.
  ghost predicate Filled(d: Disk, bs: seq<nat>, c: nat, k: nat, s: State)
    requires k <= |bs|
  {
    && s.disk == d && s.lh == bs[..k] && |s.cache| == k && s.dirty == s.cache.Keys == Upto(bs, k)
    && s.held == map[] && s.touched == {} && s.calls == map[] && s.outstanding == 3 && s.phase == Normal
    && Shared(s.ops, c, k) && Clean(d, s.cache)
  }

  predicate Clean(d: Disk, cache: map<nat, Block>) {
    forall b | b in cache :: b < |d| && cache[b] == d[b]
  }

  // Nobody changes a block.
  predicate Unmodified(steps: seq<Step>) {
    forall i | 0 <= i < |steps| :: !steps[i].ModifyStep?
  }

  // A run of operations that add no more than c blocks, and change none, which ends in state s.
  ghost predicate Reaches(g: Layout, n: nat, c: nat, run: seq<State>, steps: seq<Step>, s: State) {
    Run(g, run, steps, n) && run[|steps|] == s && Modest(run, c) && Unmodified(steps)
  }

  // It goes on with one more step.
  lemma Extend(g: Layout, n: nat, c: nat, run: seq<State>, steps: seq<Step>, s: State, s': State, step: Step)
    requires Reaches(g, n, c, run, steps, s) && NextStep(g, s, s', step) && Within(s', c) && !step.ModifyStep?
    ensures Reaches(g, n, c, run + [s'], steps + [step], s')
  {
  }

  // Block b is read; process p, holding it, has logged it.
  function WithBlock(s: State, b: nat): State
    requires b < |s.disk|
  {
    s.(cache := s.cache[b := s.disk[b]])
  }

  function WithLogged(s: State, p: nat, b: nat): State
    requires p < |s.ops| && s.ops[p].Open?
  {
    s.(lh := s.lh + [b], dirty := s.dirty + {b}, ops := s.ops[p := Open(s.ops[p].used + 1)])
  }

  // The process whose turn it is after k blocks.
  function Turn(c: nat, k: nat): nat {
    if k < c then 0 else if k < c + c then 1 else 2
  }

  lemma NextShare(ops: seq<Op>, c: nat, k: nat, p: nat)
    requires Shared(ops, c, k) && k < c + c + c && p == Turn(c, k)
    ensures p < 3 && ops[p].Open? && ops[p].used < c && Share(c, k + 1, p) == Open(ops[p].used + 1)
    ensures Shared(ops[p := Share(c, k + 1, p)], c, k + 1)
  {
  }

  predicate Shared(ops: seq<Op>, c: nat, k: nat) {
    |ops| == 3 && forall q | 0 <= q < 3 :: ops[q] == Share(c, k, q)
  }

  lemma NextBlock(bs: seq<nat>, k: nat)
    requires Distinct(bs) && k < |bs|
    ensures bs[k] !in Upto(bs, k) && bs[k] !in bs[..k]
    ensures Upto(bs, k + 1) == Upto(bs, k) + {bs[k]} && bs[..k + 1] == bs[..k] + [bs[k]]
  {
  }

  lemma TakeOne(g: Layout, n: nat, c: nat, s: State, p: nat, b: nat, run: seq<State>, steps: seq<Step>)
    returns (run': seq<State>, steps': seq<Step>)
    requires b < |s.disk| && b !in s.cache && |s.cache| < NBUF && b !in s.held && s.phase.Normal? && Outside(s, p)
    requires Reaches(g, n, c, run, steps, s)
    ensures |run'| > 0 && run'[0] == run[0]
    ensures Reaches(g, n, c, run', steps', WithBlock(s, b).(held := s.held[b := p]))
  {
    var s1 := WithBlock(s, b);
    var s2 := s1.(held := s.held[b := p]);
    assert NextStep(g, s, s1, LoadStep(b)) && NextStep(g, s1, s2, HoldStep(p, b));
    Extend(g, n, c, run, steps, s, s1, LoadStep(b));
    Extend(g, n, c, run + [s1], steps + [LoadStep(b)], s1, s2, HoldStep(p, b));
    run', steps' := run + [s1] + [s2], steps + [LoadStep(b)] + [HoldStep(p, b)];
  }

  // Process p, which holds block b, calls log_write for it and passes one test after the other.
  function WithCall(s: State, p: nat, b: nat, k: nat): State {
    s.(calls := s.calls[p := Call(b, k)])
  }

  lemma CallOne(g: Layout, n: nat, c: nat, s: State, p: nat, b: nat, k: nat, run: seq<State>, steps: seq<Step>)
    returns (run': seq<State>, steps': seq<Step>)
    requires p < |s.ops| && s.ops[p].Open? && Home(g, b) && b in s.held && s.held[b] == p && Outside(s, p)
    requires s.outstanding >= 1 && !TooBig(g, s) && k <= 3 && Reaches(g, n, c, run, steps, s)
    ensures |run'| > 0 && run'[0] == run[0]
    ensures Reaches(g, n, c, run', steps', WithCall(s, p, b, k))
    decreases k
  {
    if k == 0 {
      Extend(g, n, c, run, steps, s, WithCall(s, p, b, 0), LogCallStep(p, b));
      run', steps' := run + [WithCall(s, p, b, 0)], steps + [LogCallStep(p, b)];
    } else {
      run', steps' := CallOne(g, n, c, s, p, b, k - 1, run, steps);
      assert NextStep(g, WithCall(s, p, b, k - 1), WithCall(s, p, b, k), LogCheckStep(p));
      Extend(g, n, c, run', steps', WithCall(s, p, b, k - 1), WithCall(s, p, b, k), LogCheckStep(p));
      run', steps' := run' + [WithCall(s, p, b, k)], steps' + [LogCheckStep(p)];
    }
  }

  // It adds the block to the log.
  lemma AppendOne(g: Layout, n: nat, c: nat, s: State, p: nat, b: nat, run: seq<State>, steps: seq<Step>)
    returns (run': seq<State>, steps': seq<Step>)
    requires p < |s.ops| && s.ops[p].Open? && s.ops[p].used < c && b !in s.lh && s.touched == {} && Outside(s, p)
    requires Reaches(g, n, c, run, steps, WithCall(s, p, b, 3))
    ensures |run'| > 0 && run'[0] == run[0]
    ensures Reaches(g, n, c, run', steps', WithLogged(s, p, b))
  {
    var s2, s3 := WithCall(s, p, b, 3), WithLogged(s, p, b);
    assert s.touched - {b} == {} && s2.calls - {p} == s.calls;
    assert NextStep(g, s2, s3, LogAppendStep(p));
    Extend(g, n, c, run, steps, s2, s3, LogAppendStep(p));
    run', steps' := run + [s3], steps + [LogAppendStep(p)];
  }

  lemma LogAndRelease(g: Layout, n: nat, c: nat, s: State, p: nat, b: nat, run: seq<State>, steps: seq<Step>)
    returns (run': seq<State>, steps': seq<Step>)
    requires p < |s.ops| && s.ops[p].Open? && s.ops[p].used < c && Home(g, b) && b !in s.lh && Outside(s, p)
    requires s.touched == {} && s.outstanding >= 1 && !TooBig(g, s) && s.held == map[b := p]
    requires Reaches(g, n, c, run, steps, s)
    ensures |run'| > 0 && run'[0] == run[0]
    ensures Reaches(g, n, c, run', steps', WithLogged(s, p, b).(held := map[]))
  {
    run', steps' := CallOne(g, n, c, s, p, b, 3, run, steps);
    run', steps' := AppendOne(g, n, c, s, p, b, run', steps');
    var s3 := WithLogged(s, p, b);
    var s4 := s3.(held := map[]);
    assert s3.held - {b} == map[];
    assert NextStep(g, s3, s4, ReleaseStep(p, b));
    Extend(g, n, c, run', steps', s3, s4, ReleaseStep(p, b));
    run', steps' := run' + [s4], steps' + [ReleaseStep(p, b)];
  }

  // Process p reads, takes, logs and releases block b, which is neither cached nor logged.
  lemma LogOne(g: Layout, n: nat, c: nat, s: State, p: nat, b: nat, run: seq<State>, steps: seq<Step>)
    returns (run': seq<State>, steps': seq<Step>)
    requires p < |s.ops| && s.ops[p].Open? && s.ops[p].used < c && Home(g, b) && |s.disk| == g.nblocks
    requires b !in s.cache && |s.cache| < NBUF && b !in s.lh && s.held == map[] && s.touched == {} && Outside(s, p)
    requires s.outstanding >= 1 && s.phase.Normal? && !TooBig(g, s) && Reaches(g, n, c, run, steps, s)
    ensures |run'| > 0 && run'[0] == run[0]
    ensures Reaches(g, n, c, run', steps', WithLogged(WithBlock(s, b), p, b))
  {
    run', steps' := TakeOne(g, n, c, s, p, b, run, steps);
    run', steps' := LogAndRelease(g, n, c, WithBlock(s, b).(held := map[b := p]), p, b, run', steps');
  }

  lemma FillCache(d: Disk, bs: seq<nat>, k: nat, cache: map<nat, Block>, b: nat)
    requires Distinct(bs) && k < |bs| && b == bs[k] < |d| && cache.Keys == Upto(bs, k) && |cache| == k
    ensures cache[b := d[b]].Keys == Upto(bs, k) + {b} == Upto(bs, k + 1) && |cache[b := d[b]]| == k + 1
  {
    NextBlock(bs, k);
    assert cache[b := d[b]].Keys == cache.Keys + {b};
  }

  lemma FillState(d: Disk, bs: seq<nat>, c: nat, k: nat, s: State, p: nat)
    requires Distinct(bs) && k < |bs| <= LOGSIZE && k < c + c + c && p == Turn(c, k)
    requires bs[k] < |d| && Filled(d, bs, c, k, s) && s.ops[p].Open?
    ensures Filled(d, bs, c, k + 1, WithLogged(WithBlock(s, bs[k]), p, bs[k]))
  {
    NextShare(s.ops, c, k, p);
    FillCache(d, bs, k, s.cache, bs[k]);
    TakeNext(bs, k);
  }

  lemma TakeNext(bs: seq<nat>, k: nat)
    requires k < |bs|
    ensures bs[..k] + [bs[k]] == bs[..k + 1]
  {
  }

  function Opened(d: Disk, p: nat): State {
    State(d, map[], {}, map[], {}, [], p, Normal, seq(3, i => if i < p then Open(0) else Idle), map[])
  }

  // The first p of three processes begin an operation.
  lemma {:induction false} OpenThree(g: Layout, d: Disk, c: nat, p: nat)
    returns (run: seq<State>, steps: seq<Step>)
    requires LogOk(g, d) && Head(d[g.start]) == [] && p <= 3
    ensures Reaches(g, 3, c, run, steps, Opened(d, p)) && run[0].disk == d
  {
    if p == 0 {
      var s := Opened(d, 0);
      assert s.ops == seq(3, i => Idle);
      run, steps := [s], [];
    } else {
      run, steps := OpenThree(g, d, c, p - 1);
      OpenOne(g, d, p - 1);
      Extend(g, 3, c, run, steps, Opened(d, p - 1), Opened(d, p), BeginOpStep(p - 1));
      run, steps := run + [Opened(d, p)], steps + [BeginOpStep(p - 1)];
    }
  }

  lemma OpenOne(g: Layout, d: Disk, p: nat)
    requires p < 3
    ensures NextStep(g, Opened(d, p), Opened(d, p + 1), BeginOpStep(p))
  {
    assert Opened(d, p).ops[p := Open(0)] == Opened(d, p + 1).ops;
  }

  lemma {:induction false} Fill(g: Layout, d: Disk, bs: seq<nat>, c: nat, k: nat)
    returns (s: State, run: seq<State>, steps: seq<Step>)
    requires LogOk(g, d) && Head(d[g.start]) == [] && k <= c + c + c
    requires Distinct(bs) && k <= |bs| <= LOGSIZE && k <= g.size - 1 && forall i | 0 <= i < |bs| :: Home(g, bs[i])
    ensures Filled(d, bs, c, k, s) && Reaches(g, 3, c, run, steps, s) && run[0].disk == d
    decreases k
  {
    if k == 0 {
      run, steps := OpenThree(g, d, c, 3);
      s := Opened(d, 3);
    } else {
      s, run, steps := Fill(g, d, bs, c, k - 1);
      var b, p := bs[k - 1], Turn(c, k - 1);
      assert Home(g, b);
      NextShare(s.ops, c, k - 1, p);
      NextBlock(bs, k - 1);
      FillState(d, bs, c, k - 1, s, p);
      run, steps := LogOne(g, 3, c, s, p, b, run, steps);
      s := WithLogged(WithBlock(s, b), p, b);
    }
  }

  // The bound LOGSIZE < size is exact: a log of LOGSIZE blocks or fewer has a run in which an
  // operation with blocks to spare meets the "too big a transaction" panic.
  lemma ShortLogPanics(g: Layout, d: Disk, bs: seq<nat>)
    returns (s: State, p: nat, run: seq<State>, steps: seq<Step>)
    requires LogOk(g, d) && Head(d[g.start]) == [] && g.size <= LOGSIZE
    requires Distinct(bs) && |bs| == LOGSIZE && forall i | 0 <= i < |bs| :: Home(g, bs[i])
    ensures Reaches(g, 3, MAXOPBLOCKS, run, steps, s)
    ensures p < |s.ops| && s.ops[p].Open? && s.ops[p].used < MAXOPBLOCKS && TooBig(g, s)
  {
    var k := g.size - 1;
    s, run, steps := Fill(g, d, bs, MAXOPBLOCKS, k);
    p := Turn(MAXOPBLOCKS, k);
    NextShare(s.ops, MAXOPBLOCKS, k, p);
  }

  // ... and operations that may add MAXOPBLOCKS blocks or more are not: three of them fill the log,
  // and then every log_write panics, be it of a block that is logged already.
  lemma LargeOperations(g: Layout, d: Disk, bs: seq<nat>, limit: nat)
    returns (s: State, run: seq<State>, steps: seq<Step>)
    requires LogOk(g, d) && Head(d[g.start]) == [] && LOGSIZE < g.size && MAXOPBLOCKS <= limit
    requires Distinct(bs) && |bs| == LOGSIZE && forall i | 0 <= i < |bs| :: Home(g, bs[i])
    ensures Reaches(g, 3, limit, run, steps, s)
    ensures |s.ops| == 3 && (forall p | 0 <= p < 3 :: s.ops[p].Open?) && TooBig(g, s)
  {
    s, run, steps := Fill(g, d, bs, limit, LOGSIZE);
  }

  // The blocks that filewrite writes in one operation, not counting bitmap, inode and indirect blocks.
  const FILECHUNK := (LOGSIZE - 1 - 1 - 2) / 2

  // These are more than MAXOPBLOCKS: with two full chunks logged, a third panics at its fifth block.
  lemma FilewritePanics(g: Layout, d: Disk, bs: seq<nat>)
    returns (s: State, run: seq<State>, steps: seq<Step>)
    requires LogOk(g, d) && Head(d[g.start]) == [] && LOGSIZE < g.size
    requires Distinct(bs) && |bs| == LOGSIZE && forall i | 0 <= i < |bs| :: Home(g, bs[i])
    ensures Reaches(g, 3, FILECHUNK, run, steps, s)
    ensures s.ops == [Open(FILECHUNK), Open(FILECHUNK), Open(4)] && TooBig(g, s)
  {
    s, run, steps := Fill(g, d, bs, FILECHUNK, LOGSIZE);
    assert s.ops[0] == Share(FILECHUNK, LOGSIZE, 0) && s.ops[1] == Share(FILECHUNK, LOGSIZE, 1);
    assert s.ops[2] == Share(FILECHUNK, LOGSIZE, 2);
  }

  // ------------------------------------------------ a log that is overrun

  // Process p takes block b, calls log_write for it and passes the tests.
  lemma PassOne(g: Layout, s: State, p: nat, b: nat, run: seq<State>, steps: seq<Step>)
    returns (run': seq<State>, steps': seq<Step>)
    requires p < |s.ops| && s.ops[p].Open? && s.outstanding >= 1 && s.phase.Normal? && !TooBig(g, s) && Outside(s, p)
    requires Home(g, b) && b < |s.disk| && b !in s.cache && b !in s.held && |s.cache| < NBUF
    requires Reaches(g, 3, MAXOPBLOCKS, run, steps, s)
    ensures |run'| > 0 && run'[0] == run[0]
    ensures Reaches(g, 3, MAXOPBLOCKS, run', steps', WithCall(WithBlock(s, b).(held := s.held[b := p]), p, b, 3))
  {
    run', steps' := TakeOne(g, 3, MAXOPBLOCKS, s, p, b, run, steps);
    run', steps' := CallOne(g, 3, MAXOPBLOCKS, WithBlock(s, b).(held := s.held[b := p]), p, b, 3, run', steps');
  }

  // Processes 1 and 2 both pass the tests before either adds its block.
  lemma PassBoth(g: Layout, s: State, b1: nat, b2: nat, run: seq<State>, steps: seq<Step>)
    returns (run': seq<State>, steps': seq<Step>)
    requires |s.ops| == 3 && s.ops[1].Open? && s.ops[2].Open? && s.outstanding >= 1 && s.phase.Normal?
    requires !TooBig(g, s) && s.held == map[] && s.calls == map[] && |s.cache| + 1 < NBUF
    requires Home(g, b1) && b1 < |s.disk| && b1 !in s.cache
    requires Home(g, b2) && b2 < |s.disk| && b2 !in s.cache && b1 != b2
    requires Reaches(g, 3, MAXOPBLOCKS, run, steps, s)
    ensures |run'| > 0 && run'[0] == run[0]
    ensures Reaches(g, 3, MAXOPBLOCKS, run', steps',
                    WithCall(Reading(s, b1, b2).(calls := map[1 := Call(b1, 3)]), 2, b2, 3))
  {
    run', steps' := PassOne(g, s, 1, b1, run, steps);
    var s2 := WithCall(WithBlock(s, b1).(held := s.held[b1 := 1]), 1, b1, 3);
    assert s2.cache.Keys == s.cache.Keys + {b1};
    run', steps' := PassOne(g, s2, 2, b2, run', steps');
    assert WithBlock(s2, b2).(held := s2.held[b2 := 2]) == Reading(s, b1, b2).(calls := map[1 := Call(b1, 3)]);
  }

  // Blocks b1 and b2 are in the cache, and processes 1 and 2 hold them.
  function Reading(s: State, b1: nat, b2: nat): State
    requires b1 < |s.disk| && b2 < |s.disk|
  {
    WithBlock(WithBlock(s, b1), b2).(held := map[b1 := 1, b2 := 2])
  }

  // Both add their blocks, and release them.
  lemma AddBoth(g: Layout, s: State, b1: nat, b2: nat, run: seq<State>, steps: seq<Step>)
    returns (s': State, run': seq<State>, steps': seq<Step>)
    requires |s.ops| == 3 && s.ops[1].Open? && s.ops[1].used < MAXOPBLOCKS
    requires s.ops[2].Open? && s.ops[2].used < MAXOPBLOCKS
    requires b1 != b2 && b1 !in s.lh && b2 !in s.lh && s.touched == {} && s.calls == map[]
    requires s.held == map[b1 := 1, b2 := 2]
    requires Reaches(g, 3, MAXOPBLOCKS, run, steps, WithCall(s.(calls := map[1 := Call(b1, 3)]), 2, b2, 3))
    ensures |run'| > 0 && run'[0] == run[0]
    ensures s' == WithLogged(WithLogged(s, 2, b2), 1, b1).(held := map[])
    ensures Reaches(g, 3, MAXOPBLOCKS, run', steps', s')
  {
    run', steps' := AppendOne(g, 3, MAXOPBLOCKS, s.(calls := map[1 := Call(b1, 3)]), 2, b2, run, steps);
    var s5 := WithLogged(s, 2, b2);
    assert WithLogged(s.(calls := map[1 := Call(b1, 3)]), 2, b2) == WithCall(s5, 1, b1, 3);
    run', steps' := AppendOne(g, 3, MAXOPBLOCKS, s5, 1, b1, run', steps');
    s' := WithLogged(s5, 1, b1).(held := map[]);
    run', steps' := ReleaseBoth(g, WithLogged(s5, 1, b1), b1, b2, run', steps');
  }

  lemma ReleaseBoth(g: Layout, s: State, b1: nat, b2: nat, run: seq<State>, steps: seq<Step>)
    returns (run': seq<State>, steps': seq<Step>)
    requires b1 != b2 && s.touched == {} && s.calls == map[] && s.held == map[b1 := 1, b2 := 2]
    requires Reaches(g, 3, MAXOPBLOCKS, run, steps, s)
    ensures |run'| > 0 && run'[0] == run[0]
    ensures Reaches(g, 3, MAXOPBLOCKS, run', steps', s.(held := map[]))
  {
    var s1, s2 := s.(held := map[b2 := 2]), s.(held := map[]);
    assert s.held - {b1} == s1.held && s1.held - {b2} == map[];
    assert NextStep(g, s, s1, ReleaseStep(1, b1)) && NextStep(g, s1, s2, ReleaseStep(2, b2));
    assert Within(run[|steps|], MAXOPBLOCKS);
    Extend(g, 3, MAXOPBLOCKS, run, steps, s, s1, ReleaseStep(1, b1));
    run', steps' := run + [s1], steps + [ReleaseStep(1, b1)];
    Extend(g, 3, MAXOPBLOCKS, run', steps', s1, s2, ReleaseStep(2, b2));
    run', steps' := run' + [s2], steps' + [ReleaseStep(2, b2)];
  }

  // Then all three operations end.
  lemma RaceToCommit(g: Layout, s: State, b1: nat, b2: nat, run: seq<State>, steps: seq<Step>)
    returns (s': State, run': seq<State>, steps': seq<Step>)
    requires |s.ops| == 3 && (forall q | 0 <= q < 3 :: s.ops[q].Open?) && s.outstanding == 3 && s.phase == Normal
    requires s.ops[1].used < MAXOPBLOCKS && s.ops[2].used < MAXOPBLOCKS && !TooBig(g, s)
    requires s.held == map[] && s.calls == map[] && s.touched == {} && |s.cache| + 1 < NBUF
    requires Home(g, b1) && b1 < |s.disk| && b1 !in s.cache && b1 !in s.lh
    requires Home(g, b2) && b2 < |s.disk| && b2 !in s.cache && b2 !in s.lh && b1 != b2
    requires Reaches(g, 3, MAXOPBLOCKS, run, steps, s)
    ensures |run'| > 0 && run'[0] == run[0] && Reaches(g, 3, MAXOPBLOCKS, run', steps', s')
    ensures s' == s.(cache := s.cache[b1 := s.disk[b1]][b2 := s.disk[b2]], lh := s.lh + [b2] + [b1],
                     dirty := s.dirty + {b2} + {b1}, outstanding := 0, ops := s'.ops, phase := Writing(0))
  {
    run', steps' := PassBoth(g, s, b1, b2, run, steps);
    var s1;
    s1, run', steps' := AddBoth(g, Reading(s, b1, b2), b1, b2, run', steps');
    s', run', steps' := EndThree(g, MAXOPBLOCKS, s1, run', steps');
  }

  // The disk after the first t slots of a commit of bs.
  function SlotsWritten(g: Layout, d: Disk, bs: seq<nat>, t: nat): (r: Disk)
    requires t <= |bs| && g.start + t < |d| && forall i | 0 <= i < |bs| :: bs[i] < |d|
    ensures |r| == |d|
  {
    if t == 0 then d else SlotsWritten(g, d, bs, t - 1)[g.start + t := d[bs[t - 1]]]
  }

  lemma {:induction false} SlotsAt(g: Layout, d: Disk, bs: seq<nat>, t: nat, b: nat)
    requires t <= |bs| && g.start + t < |d| && (forall i | 0 <= i < |bs| :: bs[i] < |d|) && b < |d|
    ensures SlotsWritten(g, d, bs, t)[b] == if g.start < b <= g.start + t then d[bs[b - g.start - 1]] else d[b]
  {
    if t > 0 { SlotsAt(g, d, bs, t - 1, b); }
  }

  // Entry i of the list is cached, and the block of its slot is not.
  ghost predicate SlotReady(g: Layout, s: State, i: nat)
    requires i < |s.lh|
  {
    s.lh[i] in s.cache && g.start + 1 + i !in s.cache && g.start + 1 + i !in s.dirty
  }

  // The commit writes its slots, whatever blocks they are, recycling one buffer.
  lemma {:induction false} WriteSlots(g: Layout, d: Disk, s: State, t: nat, run: seq<State>, steps: seq<Step>)
    returns (run': seq<State>, steps': seq<Step>)
    requires s.phase == Writing(0) && s.disk == d && s.held == map[] && s.touched == {} && |s.cache| < NBUF
    requires t <= |s.lh| && g.start + |s.lh| < |d| && Clean(d, s.cache) && Within(s, MAXOPBLOCKS)
    requires (forall i: nat | i < |s.lh| :: SlotReady(g, s, i)) && forall i | 0 <= i < |s.lh| :: s.lh[i] < |d|
    requires Reaches(g, 3, MAXOPBLOCKS, run, steps, s)
    ensures |run'| > 0 && run'[0] == run[0]
    ensures Reaches(g, 3, MAXOPBLOCKS, run', steps', s.(disk := SlotsWritten(g, d, s.lh, t), phase := Writing(t)))
    decreases t
  {
    if t == 0 {
      run', steps' := run, steps;
    } else {
      run', steps' := WriteSlots(g, d, s, t - 1, run, steps);
      run', steps' := WriteOne(g, d, s, t - 1, run', steps');
    }
  }

  lemma WriteOne(g: Layout, d: Disk, s: State, t: nat, run: seq<State>, steps: seq<Step>)
    returns (run': seq<State>, steps': seq<Step>)
    requires s.phase == Writing(0) && s.disk == d && s.held == map[] && s.touched == {} && |s.cache| < NBUF
    requires t < |s.lh| && g.start + |s.lh| < |d| && Clean(d, s.cache) && Within(s, MAXOPBLOCKS)
    requires (forall i: nat | i < |s.lh| :: SlotReady(g, s, i)) && forall i | 0 <= i < |s.lh| :: s.lh[i] < |d|
    requires Reaches(g, 3, MAXOPBLOCKS, run, steps, s.(disk := SlotsWritten(g, d, s.lh, t), phase := Writing(t)))
    ensures |run'| > 0 && run'[0] == run[0]
    ensures Reaches(g, 3, MAXOPBLOCKS, run', steps',
                    s.(disk := SlotsWritten(g, d, s.lh, t + 1), phase := Writing(t + 1)))
  {
    var to := g.start + 1 + t;
    var s1 := s.(disk := SlotsWritten(g, d, s.lh, t), phase := Writing(t));
    var s2 := s1.(cache := s1.cache[to := s1.disk[to]]);
    var s3 := s2.(disk := s2.disk[to := d[s.lh[t]]], cache := s2.cache[to := d[s.lh[t]]], phase := Writing(t + 1));
    var s4 := s.(disk := SlotsWritten(g, d, s.lh, t + 1), phase := Writing(t + 1));
    SlotSteps(g, d, s, t, s1, s2, s3, s4);
    Extend(g, 3, MAXOPBLOCKS, run, steps, s1, s2, LoadStep(to));
    run', steps' := run + [s2], steps + [LoadStep(to)];
    Extend(g, 3, MAXOPBLOCKS, run', steps', s2, s3, WriteSlotStep);
    run', steps' := run' + [s3], steps' + [WriteSlotStep];
    Extend(g, 3, MAXOPBLOCKS, run', steps', s3, s4, EvictStep(to));
    run', steps' := run' + [s4], steps' + [EvictStep(to)];
  }

  lemma SlotSteps(g: Layout, d: Disk, s: State, t: nat, s1: State, s2: State, s3: State, s4: State)
    requires s.phase == Writing(0) && s.disk == d && s.held == map[] && |s.cache| < NBUF
    requires t < |s.lh| && g.start + |s.lh| < |d| && Clean(d, s.cache)
    requires SlotReady(g, s, t) && forall i | 0 <= i < |s.lh| :: s.lh[i] < |d|
    requires s1 == s.(disk := SlotsWritten(g, d, s.lh, t), phase := Writing(t))
    requires s2 == s1.(cache := s1.cache[g.start + 1 + t := s1.disk[g.start + 1 + t]])
    requires s3 == s2.(disk := s2.disk[g.start + 1 + t := d[s.lh[t]]], cache := s2.cache[g.start + 1 + t := d[s.lh[t]]],
                       phase := Writing(t + 1))
    requires s4 == s.(disk := SlotsWritten(g, d, s.lh, t + 1), phase := Writing(t + 1))
    ensures Load(g, s1, s2, g.start + 1 + t) && WriteSlot(g, s2, s3) && Evict(s3, s4, g.start + 1 + t)
  {
    assert s2.cache[s.lh[t]] == d[s.lh[t]];
    DropNew(s.cache, g.start + 1 + t, s1.disk[g.start + 1 + t], d[s.lh[t]]);
    assert s3.disk == s4.disk;
  }

  lemma DropNew(m: map<nat, Block>, b: nat, x: Block, y: Block)
    requires b !in m
    ensures m[b := x][b := y] - {b} == m
  {
  }

  // With fewer than LOGSIZE blocks, but more than one, the log is overrun: though no operation logs more
  // than MAXOPBLOCKS blocks and nobody changes any, the commit writes the last of them over the block
  // behind the log.
  lemma Overrun(g: Layout, d: Disk, bs: seq<nat>) returns (s: State, run: seq<State>, steps: seq<Step>)
    requires LogOk(g, d) && Head(d[g.start]) == [] && 2 <= g.size < LOGSIZE && g.start + g.size < g.nblocks
    requires Distinct(bs) && |bs| == g.size && Apart(g, bs)
    ensures Reaches(g, 3, MAXOPBLOCKS, run, steps, s) && s.phase == Writing(g.size) && LogOk(g, s.disk)
    ensures run[0].disk == d
    ensures Home(g, g.start + g.size) && bs[g.size - 2] < |d|
    ensures Mem(g, s, g.start + g.size) == Durable(g, s, g.start + g.size) == d[bs[g.size - 2]]
  {
    var k, b1, b2 := g.size - 2, bs[g.size - 2], bs[g.size - 1];
    var s0;
    s0, run, steps := Fill(g, d, bs, MAXOPBLOCKS - 1, k);
    Modester(run, MAXOPBLOCKS - 1, MAXOPBLOCKS);
    LastTwo(g, bs);
    s, run, steps := RaceToCommit(g, s0, b1, b2, run, steps);
    OverrunSlots(g, d, bs, b1, b2, s0, s);
    run, steps := WriteSlots(g, d, s, g.size, run, steps);
    var s' := s.(disk := SlotsWritten(g, d, s.lh, g.size), phase := Writing(g.size));
    OverrunShows(g, d, s, s');
    s := s';
  }

  // Home blocks, without the one behind the log.
  ghost predicate Apart(g: Layout, bs: seq<nat>) {
    forall i | 0 <= i < |bs| :: Home(g, bs[i]) && bs[i] != g.start + g.size
  }

  lemma LastTwo(g: Layout, bs: seq<nat>)
    requires Distinct(bs) && 2 <= |bs| == g.size && Apart(g, bs)
    ensures Home(g, bs[g.size - 2]) && Home(g, bs[g.size - 1]) && bs[g.size - 2] != bs[g.size - 1]
    ensures bs[g.size - 2] !in Upto(bs, g.size - 2) && bs[g.size - 1] !in Upto(bs, g.size - 2)
    ensures bs[g.size - 2] !in bs[..g.size - 2] && bs[g.size - 1] !in bs[..g.size - 2]
    ensures Upto(bs, g.size) == Upto(bs, g.size - 2) + {bs[g.size - 1]} + {bs[g.size - 2]}
  {
    NextBlock(bs, g.size - 2);
    NextBlock(bs, g.size - 1);
  }

  lemma OverrunDisk(g: Layout, d: Disk, bs: seq<nat>)
    requires LogOk(g, d) && 2 <= g.size == |bs| && g.start + g.size < g.nblocks
    requires forall i | 0 <= i < |bs| :: bs[i] < |d|
    ensures var e := SlotsWritten(g, d, bs, g.size);
            e[g.start] == d[g.start] && LogOk(g, e) && e[g.start + g.size] == d[bs[g.size - 1]]
  {
    SlotsAt(g, d, bs, g.size, g.start);
    SlotsAt(g, d, bs, g.size, g.start + g.size);
  }

  lemma OverrunShows(g: Layout, d: Disk, s: State, s': State)
    requires LogOk(g, d) && Head(d[g.start]) == [] && 2 <= g.size == |s.lh| && g.start + g.size < g.nblocks
    requires (forall i | 0 <= i < |s.lh| :: s.lh[i] < |d|) && g.start + g.size !in s.cache
    requires s' == s.(disk := SlotsWritten(g, d, s.lh, g.size), phase := Writing(g.size))
    ensures LogOk(g, s'.disk) && Home(g, g.start + g.size)
    ensures Mem(g, s', g.start + g.size) == Durable(g, s', g.start + g.size) == d[s.lh[g.size - 1]]
  {
    OverrunDisk(g, d, s.lh);
    var b := g.start + g.size;
    assert s'.disk[b] == d[s.lh[g.size - 1]] && Mem(g, s', b) == s'.disk[b];
    EmptyLog(g, s'.disk);
    assert Home(g, b);
  }

  lemma Modester(run: seq<State>, c: nat, c': nat)
    requires Modest(run, c) && c <= c'
    ensures Modest(run, c')
  {
    forall i | 0 <= i < |run| ensures Within(run[i], c') {
      assert Within(run[i], c);
    }
  }

  // What the commit finds: the logged blocks in the cache, and no block of the log, nor the one behind it.
  lemma OverrunSlots(g: Layout, d: Disk, bs: seq<nat>, b1: nat, b2: nat, s0: State, s: State)
    requires Distinct(bs) && 2 <= |bs| == g.size < LOGSIZE && |d| == g.nblocks && Apart(g, bs)
    requires b1 == bs[g.size - 2] < |d| && b2 == bs[g.size - 1] < |d|
    requires s0.lh == bs[..g.size - 2] && s0.cache.Keys == s0.dirty == Upto(bs, g.size - 2) && |s0.cache| == g.size - 2
    requires Clean(d, s0.cache) && s.cache == s0.cache[b1 := d[b1]][b2 := d[b2]]
    requires s.dirty == s0.dirty + {b2} + {b1} && s.lh == s0.lh + [b2] + [b1]
    ensures |s.cache| < NBUF && Clean(d, s.cache) && g.start + g.size !in s.cache
    ensures |s.lh| == g.size && s.lh[g.size - 1] == b1 && forall i | 0 <= i < |s.lh| :: s.lh[i] < |d|
    ensures forall i: nat | i < |s.lh| :: SlotReady(g, s, i)
  {
    LastTwo(g, bs);
    AddTwo(d, s0.cache, b1, b2);
    ListedInUpto(g, bs, s.lh);
    SlotsReady(g, bs, s);
    BehindLog(g, bs, g.size - 1);
  }

  lemma AddTwo(d: Disk, m: map<nat, Block>, b1: nat, b2: nat)
    requires b1 !in m && b2 !in m && b1 != b2 && b1 < |d| && b2 < |d| && Clean(d, m)
    ensures m[b1 := d[b1]][b2 := d[b2]].Keys == m.Keys + {b2} + {b1}
    ensures |m[b1 := d[b1]][b2 := d[b2]]| == |m| + 2 && Clean(d, m[b1 := d[b1]][b2 := d[b2]])
  {
    AddClean(d, m, b1);
    AddClean(d, m[b1 := d[b1]], b2);
    assert m.Keys + {b1} + {b2} == m.Keys + {b2} + {b1};
  }

  lemma AddClean(d: Disk, m: map<nat, Block>, b: nat)
    requires b !in m && b < |d| && Clean(d, m)
    ensures m[b := d[b]].Keys == m.Keys + {b} && |m[b := d[b]]| == |m| + 1 && Clean(d, m[b := d[b]])
  {
    assert m[b := d[b]].Keys == m.Keys + {b};
  }

  lemma SlotsReady(g: Layout, bs: seq<nat>, s: State)
    requires |bs| == g.size == |s.lh| && Apart(g, bs) && s.cache.Keys == s.dirty == Upto(bs, g.size)
    requires forall i | 0 <= i < |s.lh| :: s.lh[i] in Upto(bs, g.size)
    ensures forall i: nat | i < |s.lh| :: SlotReady(g, s, i)
  {
    forall i: nat | i < |s.lh| ensures SlotReady(g, s, i) {
      BehindLog(g, bs, i);
    }
  }

  lemma BehindLog(g: Layout, bs: seq<nat>, i: nat)
    requires |bs| == g.size && i < g.size && Apart(g, bs)
    ensures g.start + 1 + i !in Upto(bs, g.size)
  {
  }

  lemma ListedInUpto(g: Layout, bs: seq<nat>, lh: seq<nat>)
    requires 2 <= |bs| && lh == bs[..|bs| - 2] + [bs[|bs| - 1]] + [bs[|bs| - 2]] && Apart(g, bs)
    ensures |lh| == |bs| && lh[|lh| - 1] == bs[|bs| - 2]
    ensures forall i | 0 <= i < |lh| :: lh[i] in Upto(bs, |bs|) && lh[i] < g.nblocks
  {
    forall i | 0 <= i < |lh| ensures lh[i] in Upto(bs, |bs|) && lh[i] < g.nblocks {
      var j := if i < |bs| - 2 then i else if i == |bs| - 2 then |bs| - 1 else |bs| - 2;
      assert lh[i] == bs[j] && Home(g, bs[j]);
    }
  }

  // Every home block, in memory and after a crash, is as in d.
  ghost predicate Shows(g: Layout, s: State, d: Disk)
    requires |d| == g.nblocks
  {
    LogOk(g, s.disk) && forall b: nat | Home(g, b) :: Mem(g, s, b) == Durable(g, s, b) == d[b]
  }

  // While nobody changes a block, no home block changes, whatever is logged, committed, lost and recovered ...
  lemma {:induction false} StillAt(g: Layout, run: seq<State>, steps: seq<Step>, n: nat, i: nat)
    requires LongEnough(g) && Run(g, run, steps, n) && Unmodified(steps) && i < |run|
    ensures Shows(g, run[i], run[0].disk)
  {
    if i == 0 {
      EmptyLog(g, run[0].disk);
    } else {
      StillAt(g, run, steps, n, i - 1);
      RunInv(g, run, steps, n, i - 1);
      StepRefines(g, run[i - 1], run[i], steps[i - 1]);
    }
  }

  ghost predicate Still(g: Layout, run: seq<State>) {
    forall i | 0 <= i < |run| :: |run[0].disk| == g.nblocks && Shows(g, run[i], run[0].disk)
  }

  // ... in every run, ...
  ghost predicate KeepsStill(g: Layout) {
    forall run: seq<State>, steps: seq<Step>, n: nat | Run(g, run, steps, n) && Unmodified(steps) :: Still(g, run)
  }

  // ... exactly if the log is long enough.
  lemma StillIff(g: Layout)
    requires ValidLayout(g) && g.start + 2 * g.size < g.nblocks
    ensures KeepsStill(g) <==> LongEnough(g)
  {
    if LongEnough(g) {
      forall run: seq<State>, steps: seq<Step>, n: nat | Run(g, run, steps, n) && Unmodified(steps)
        ensures Still(g, run)
      {
        forall i: nat | i < |run| ensures Shows(g, run[i], run[0].disk) {
          StillAt(g, run, steps, n, i);
        }
      }
    } else {
      NotStill(g);
    }
  }

  lemma NotStill(g: Layout)
    requires ValidLayout(g) && g.start + 2 * g.size < g.nblocks && !LongEnough(g)
    ensures !KeepsStill(g)
  {
    var d := Marked(g.nblocks, g.start + g.size);
    var bs := seq<nat>(g.size, i requires 0 <= i < g.size => g.start + g.size + 1 + i);
    assert Apart(g, bs) && Distinct(bs) && d[g.start][0] == 0;
    var s, run, steps := Overrun(g, d, bs);
    assert run[|steps|] == s && d[bs[g.size - 2]][0] == 0 && d[g.start + g.size][0] == 1;
    assert !Shows(g, run[|steps|], run[0].disk);
    assert !Still(g, run);
  }

  // A disk on which one block differs from all others.
  function Marked(n: nat, x: nat): (d: Disk)
    ensures |d| == n && forall b: nat | b < n :: d[b][0] == if b == x then 1 else 0
  {
    if n == 0 then [] else Marked(n - 1, x) + [Filler(if n - 1 == x then 1 else 0)]
  }

  function Filler(x: nat): (r: Block)
    ensures r[0] == x
  {
    seq(BLOCK_WORDS, i => x)
  }

  // ------------------------------------------- where a commit runs out of buffers

  // bget of block b finds no buffer for it, none unused and none to recycle, and panics.
  predicate Panics(s: State, b: nat) {
    b !in s.cache && |s.cache| == NBUF && forall v | v in s.cache :: v in s.dirty || v in s.held
  }

  predicate Committing(s: State) {
    s.phase.Writing? || s.phase.Installing?
  }

  // The block that the commit reads next.
  function Wanted(g: Layout, s: State): nat
    requires Committing(s)
  {
    if s.phase.done < |s.lh| then g.start + 1 + s.phase.done else g.start
  }

  // bget panics exactly when the dirty buffers and the clean ones that someone holds fill the cache.
  lemma PanicsIff(g: Layout, s: State, b: nat)
    requires Inv(g, s)
    ensures Panics(s, b) <==> b !in s.cache && |s.dirty| + |s.held.Keys - s.dirty| == NBUF
    ensures s.phase.Normal? || s.phase.Writing? ==> |s.dirty| == |s.lh|
    ensures |s.dirty| <= |s.lh|
  {
    var pinned := s.dirty + (s.held.Keys - s.dirty);
    assert |pinned| == |s.dirty| + |s.held.Keys - s.dirty|;
    AllOf(pinned, s.cache.Keys);
    DirtyCount(g, s);
  }

  lemma AllOf(a: set<nat>, b: set<nat>)
    requires a <= b
    ensures |a| <= |b| && (|a| == |b| <==> forall v | v in b :: v in a)
  {
    Subset(a, b);
    if v :| v in b && v !in a {
      Subset(a, b - {v});
    } else {
      assert a == b;
    }
  }

  lemma DirtyCount(g: Layout, s: State)
    requires Inv(g, s)
    ensures |s.dirty| <= |s.lh|
    ensures s.phase.Normal? || s.phase.Writing? ==> |s.dirty| == |s.lh|
  {
    match s.phase
    case Installing(k) => DistinctCount(s.lh, k);
    case Booting(k) =>
    case _ => DistinctCount(s.lh, 0);
  }

  // What a caller can check: the commit never panics while the logged blocks and the clean buffers
  // in use number fewer than NBUF.
  lemma RoomyNeverPanics(g: Layout, s: State, b: nat)
    requires Inv(g, s) && |s.lh| + |s.held.Keys - s.dirty| < NBUF
    ensures !Panics(s, b)
  {
    PanicsIff(g, s, b);
  }

  // During a commit no operation is open, so the other processes only take and give back buffers.
  lemma CommitAlone(g: Layout, s: State, s': State, step: Step)
    requires Inv(g, s) && Committing(s) && NextStep(g, s, s', step) && !step.CrashStep?
    ensures step.HoldStep? || step.ReleaseStep? || step.LoadStep? || step.EvictStep? ||
            step.WriteSlotStep? || step.WriteHeadStep? || step.InstallSlotStep? || step.EraseHeadStep?
  {
    NothingTouched(g, s);
  }

  // While bget would panic, the commit gets no further: another process can only take a buffer, or
  // give one back.
  lemma PanicStuck(g: Layout, s: State, s': State, step: Step)
    requires Inv(g, s) && Committing(s) && Panics(s, Wanted(g, s))
    requires NextStep(g, s, s', step) && !step.CrashStep?
    ensures s' == s.(held := s'.held)
    ensures Panics(s', Wanted(g, s')) || step.ReleaseStep?
  {
    CommitAlone(g, s, s', step);
  }

  lemma FullPanics(g: Layout, s: State)
    requires Inv(g, s) && s.phase.Writing? && s.phase.done < |s.lh| == NBUF
    ensures Panics(s, Wanted(g, s))
  {
    var to := Wanted(g, s);
    DirtyCount(g, s);
    assert !Home(g, to) && to !in s.dirty;
    AllPinned(s.cache, s.dirty, to);
  }

  // A transaction that fills the cache never writes its first log slot, whoever holds what.
  lemma FullTransactionStuck(g: Layout, s: State, s': State, step: Step)
    requires Inv(g, s) && s.phase.Writing? && s.phase.done < |s.lh| == NBUF
    requires NextStep(g, s, s', step) && !step.CrashStep?
    ensures Panics(s, Wanted(g, s)) && s' == s.(held := s'.held)
  {
    FullPanics(g, s);
    PanicStuck(g, s, s', step);
  }

  // Where bget would not panic, recycling at most one buffer gets the commit the block it wants.
  lemma Proceeds(g: Layout, s: State) returns (mid: State, s': State)
    requires Inv(g, s) && Committing(s) && !Panics(s, Wanted(g, s))
    ensures mid == s || exists v | v in s.cache :: NextStep(g, s, mid, EvictStep(v))
    ensures s' == mid || NextStep(g, mid, s', LoadStep(Wanted(g, s)))
    ensures Wanted(g, s) in s'.cache && s' == s.(cache := s'.cache)
    ensures forall b: nat | b in s.dirty || b in s.held :: b in s.cache ==> b in s'.cache
  {
    mid, s' := s, s;
    var b := Wanted(g, s);
    if b !in s.cache {
      if |s.cache| == NBUF {
        var v :| v in s.cache && v !in s.dirty && v !in s.held;
        mid := s.(cache := s.cache - {v});
        assert NextStep(g, s, mid, EvictStep(v));
        assert mid.cache.Keys == s.cache.Keys - {v};
      }
      s' := mid.(cache := mid.cache[b := mid.disk[b]]);
      assert NextStep(g, mid, s', LoadStep(b));
    }
  }

  // The three open operations end, and the commit starts.
  lemma EndThree(g: Layout, c: nat, s0: State, run0: seq<State>, steps0: seq<Step>)
    returns (s: State, run: seq<State>, steps: seq<Step>)
    requires Reaches(g, 3, c, run0, steps0, s0) && |s0.ops| == 3 && s0.outstanding == 3 && s0.phase == Normal
    requires s0.lh != []
    requires forall q | 0 <= q < 3 :: s0.ops[q].Open?
    requires s0.calls == map[] && forall b | b in s0.held :: s0.held[b] >= 3
    ensures Reaches(g, 3, c, run, steps, s) && run[0] == run0[0]
    ensures s == s0.(outstanding := 0, ops := s.ops, phase := Writing(0))
  {
    s, run, steps := s0, run0, steps0;
    for p := 0 to 3
      invariant s == s0.(outstanding := 3 - p, ops := s.ops, phase := if p < 3 then Normal else Writing(0))
      invariant |s.ops| == 3
      invariant forall q | p <= q < 3 :: s.ops[q].Open?
      invariant Reaches(g, 3, c, run, steps, s) && run[0] == run0[0]
    {
      var s' := s.(outstanding := s.outstanding - 1, ops := s.ops[p := Idle],
                   phase := if s.outstanding > 1 then s.phase else Writing(0));
      assert NextStep(g, s, s', EndOpStep(p));
      Extend(g, 3, c, run, steps, s, s', EndOpStep(p));
      s, run, steps := s', run + [s'], steps + [EndOpStep(p)];
    }
  }

  // NBUF == LOGSIZE, so the reservation admits transactions that pin the whole cache.
  lemma FullTransaction(g: Layout, d: Disk, bs: seq<nat>)
    returns (s: State, run: seq<State>, steps: seq<Step>)
    requires LogOk(g, d) && Head(d[g.start]) == [] && LOGSIZE < g.size
    requires Distinct(bs) && |bs| == LOGSIZE && forall i | 0 <= i < |bs| :: Home(g, bs[i])
    ensures Reaches(g, 3, MAXOPBLOCKS, run, steps, s) && s.phase == Writing(0)
    ensures |s.lh| == NBUF && s.held == map[] && Panics(s, Wanted(g, s))
  {
    s, run, steps := Fill(g, d, bs, MAXOPBLOCKS, LOGSIZE);
    s, run, steps := EndThree(g, MAXOPBLOCKS, s, run, steps);
    NotHome(g, bs, LOGSIZE);
  }

  // With exactly LOGSIZE blocks the list can run over the end in the same way, by one block; that
  // transaction pins the whole cache, so its commit panics before it writes anything.
  lemma OverrunStops(g: Layout, d: Disk, bs: seq<nat>)
    returns (s: State, run: seq<State>, steps: seq<Step>)
    requires LogOk(g, d) && Head(d[g.start]) == [] && g.size == LOGSIZE
    requires Distinct(bs) && |bs| == LOGSIZE && forall i | 0 <= i < |bs| :: Home(g, bs[i])
    ensures Reaches(g, 3, MAXOPBLOCKS, run, steps, s) && s.phase == Writing(0)
    ensures |s.lh| == g.size && s.held == map[] && Panics(s, Wanted(g, s))
  {
    var b1, b2;
    s, b1, b2, run, steps := FillButTwo(g, d, bs);
    s, run, steps := RaceToCommit(g, s, b1, b2, run, steps);
    RunInv(g, run, steps, 3, |steps|);
    FullPanics(g, s);
  }

  // All but two of the blocks are logged, ten by process 0 and nine each by the others.
  lemma FillButTwo(g: Layout, d: Disk, bs: seq<nat>)
    returns (s: State, b1: nat, b2: nat, run: seq<State>, steps: seq<Step>)
    requires LogOk(g, d) && Head(d[g.start]) == [] && g.size == LOGSIZE
    requires Distinct(bs) && |bs| == LOGSIZE && forall i | 0 <= i < |bs| :: Home(g, bs[i])
    ensures Reaches(g, 3, MAXOPBLOCKS, run, steps, s) && s.disk == d
    ensures |s.ops| == 3 && (forall q | 0 <= q < 3 :: s.ops[q].Open?) && s.outstanding == 3 && s.phase == Normal
    ensures s.ops[1].used < MAXOPBLOCKS && s.ops[2].used < MAXOPBLOCKS && |s.lh| == LOGSIZE - 2 == |s.cache|
    ensures s.held == map[] && s.calls == map[] && s.touched == {}
    ensures Home(g, b1) && b1 !in s.cache && b1 !in s.lh && Home(g, b2) && b2 !in s.cache && b2 !in s.lh && b1 != b2
  {
    var k := LOGSIZE - 3;
    var s0;
    s0, run, steps := Fill(g, d, bs, MAXOPBLOCKS - 1, k);
    Modester(run, MAXOPBLOCKS - 1, MAXOPBLOCKS);
    NextThree(g, bs, k);
    AddClean(d, s0.cache, bs[k]);
    run, steps := LogOne(g, 3, MAXOPBLOCKS, s0, 0, bs[k], run, steps);
    s, b1, b2 := WithLogged(WithBlock(s0, bs[k]), 0, bs[k]), bs[k + 1], bs[k + 2];
  }

  lemma NextThree(g: Layout, bs: seq<nat>, k: nat)
    requires Distinct(bs) && k + 3 <= |bs| && forall i | 0 <= i < |bs| :: Home(g, bs[i])
    ensures Home(g, bs[k]) && Home(g, bs[k + 1]) && Home(g, bs[k + 2])
    ensures forall i | k <= i < k + 3 :: bs[i] !in Upto(bs, k) && bs[i] !in bs[..k]
    ensures bs[k] != bs[k + 1] && bs[k + 1] != bs[k + 2] && bs[k + 2] != bs[k]
  {
  }

  // One buffer fewer is enough when another process is reading: process 3 has no operation open
  // and holds one block that is not logged.
  lemma ReaderPanics(g: Layout, d: Disk, bs: seq<nat>)
    returns (s: State, run: seq<State>, steps: seq<Step>)
    requires LogOk(g, d) && Head(d[g.start]) == [] && LOGSIZE <= g.size
    requires Distinct(bs) && |bs| == LOGSIZE && forall i | 0 <= i < |bs| :: Home(g, bs[i])
    ensures Reaches(g, 3, MAXOPBLOCKS, run, steps, s) && s.phase == Writing(0)
    ensures |s.lh| == NBUF - 1 && s.held == map[bs[NBUF - 1] := 3] && Panics(s, Wanted(g, s))
  {
    var b := bs[NBUF - 1];
    s, run, steps := Fill(g, d, bs, MAXOPBLOCKS, NBUF - 1);
    NextBlock(bs, NBUF - 1);
    assert Home(g, b);
    run, steps := TakeOne(g, 3, MAXOPBLOCKS, s, 3, b, run, steps);
    s := WithBlock(s, b).(held := map[b := 3]);
    assert s.cache.Keys == Upto(bs, NBUF);
    s, run, steps := EndThree(g, MAXOPBLOCKS, s, run, steps);
    NotHome(g, bs, NBUF);
  }

  lemma NotHome(g: Layout, bs: seq<nat>, k: nat)
    requires ValidLayout(g) && k <= |bs| && forall i | 0 <= i < |bs| :: Home(g, bs[i])
    ensures g.start + 1 !in Upto(bs, k) || g.size == 1
  {
  }
}
