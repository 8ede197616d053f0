/**
 Any interleaving of users of the buffer cache (bio.c) and the disk driver's request queue
 (ide.c).  `latest` is what the last change to each block wrote, as if there were no cache.
 */
module CacheRun {
  import opened BlockCodec

  datatype Key = None | At(dev: nat, blockno: nat)
  datatype Buf = Buf(key: Key, busy: bool, valid: bool, dirty: bool, data: Block)

  // queue is idequeue; changed holds the buffers changed since their last bwrite or log_write.
  datatype State = State(
    bufs: seq<Buf>, queue: seq<nat>, disk: map<Key, Block>, latest: map<Key, Block>,
    changed: set<nat>)

  predicate IsBuf(s: State, b: nat) { b < |s.bufs| }

  function Set(s: State, b: nat, buf: Buf): State
    requires IsBuf(s, b)
  {
    s.(bufs := s.bufs[b := buf])
  }

  // --------------------------------------------------------------- steps

  // bget: the block is cached and not in use.
  predicate Take(s: State, s': State, b: nat) {
    && IsBuf(s, b) && s.bufs[b].key != None && !s.bufs[b].busy
    && s' == Set(s, b, s.bufs[b].(busy := true))
  }

  // bget: the block k is in no buffer; an idle, clean one is recycled and keeps its old bytes.
  predicate Recycle(s: State, s': State, b: nat, k: Key) {
    && IsBuf(s, b) && k != None && k in s.disk && (forall c | 0 <= c < |s.bufs| :: s.bufs[c].key != k)
    && !s.bufs[b].busy && !s.bufs[b].dirty
    && s' == Set(s, b, Buf(k, true, false, false, s.bufs[b].data))
  }

  // The holder is not waiting for the disk.
  predicate Held(s: State, b: nat) {
    IsBuf(s, b) && s.bufs[b].busy && b !in s.queue
  }

  // bread: an invalid buffer is queued for reading.
  predicate Fetch(s: State, s': State, b: nat) {
    Held(s, b) && !s.bufs[b].valid && s' == s.(queue := s.queue + [b])
  }

  // The holder of a buffer returned by bread changes its bytes.
  predicate Change(s: State, s': State, b: nat, data: Block) {
    && Held(s, b) && s.bufs[b].valid
    && s' == Set(s, b, s.bufs[b].(data := data)).(latest := s.latest[s.bufs[b].key := data], changed := s.changed + {b})
  }

  // bwrite marks the buffer dirty and queues it; log_write only marks it.
  predicate Write(s: State, s': State, b: nat, now: bool) {
    && Held(s, b) && s.bufs[b].valid
    && s' == Set(s, b, s.bufs[b].(dirty := true))
            .(changed := s.changed - {b}, queue := if now then s.queue + [b] else s.queue)
  }

  // brelse: holders write or log what they changed before.
  predicate Release(s: State, s': State, b: nat) {
    && Held(s, b) && s.bufs[b].valid && b !in s.changed
    && s' == Set(s, b, s.bufs[b].(busy := false))
  }

  // ideintr: the disk has served the request at the head of the queue.
  predicate Interrupt(s: State, s': State) {
    && s.queue != [] && IsBuf(s, s.queue[0]) && s.bufs[s.queue[0]].key in s.disk
    && var b := s.queue[0];
       var buf := s.bufs[b];
       s' == Set(s, b, buf.(data := if buf.dirty then buf.data else s.disk[buf.key], valid := true, dirty := false)).(
               queue := s.queue[1..], disk := if buf.dirty then s.disk[buf.key := buf.data] else s.disk)
  }

  datatype Step =
    | TakeStep(b: nat) | RecycleStep(b: nat, k: Key) | FetchStep(b: nat) | ChangeStep(b: nat, data: Block)
    | WriteStep(b: nat, now: bool) | ReleaseStep(b: nat) | InterruptStep

  predicate Next(s: State, s': State, step: Step) {
    match step
    case TakeStep(b) => Take(s, s', b)
    case RecycleStep(b, k) => Recycle(s, s', b, k)
    case FetchStep(b) => Fetch(s, s', b)
    case ChangeStep(b, data) => Change(s, s', b, data)
    case WriteStep(b, now) => Write(s, s', b, now)
    case ReleaseStep(b) => Release(s, s', b)
    case InterruptStep => Interrupt(s, s')
  }

  // ----------------------------------------------------------- invariant

  // At most one buffer caches a block.
  ghost predicate Unique(s: State) {
    forall b, c | 0 <= b < c < |s.bufs| && s.bufs[b].key != None :: s.bufs[b].key != s.bufs[c].key
  }

  // Requests are for distinct busy buffers that have something to read or write.
  ghost predicate QueueInv(s: State) {
    && (forall i | 0 <= i < |s.queue| :: s.queue[i] < |s.bufs| && s.bufs[s.queue[i]].busy && s.queue[i] !in s.changed)
    && (forall i | 0 <= i < |s.queue| :: !s.bufs[s.queue[i]].valid || s.bufs[s.queue[i]].dirty)
    && (forall i, j | 0 <= i < j < |s.queue| :: s.queue[i] != s.queue[j])
  }

  // A valid buffer holds the latest bytes, and the disk too unless the buffer is dirty or changed.
  ghost predicate BufInv(s: State, b: nat)
    requires IsBuf(s, b)
  {
    var buf := s.bufs[b];
    && (b in s.changed ==> buf.busy && buf.valid)
    && (buf.dirty ==> buf.valid)
    && (buf.key == None ==> !buf.busy && !buf.valid)
    && (buf.key != None ==>
          && buf.key in s.disk && buf.key in s.latest
          && (!buf.valid ==> buf.busy)
          && (buf.valid ==> buf.data == s.latest[buf.key])
          && (!buf.dirty && b !in s.changed ==> s.disk[buf.key] == s.latest[buf.key]))
  }

  ghost predicate Cached(s: State, k: Key) {
    exists b | 0 <= b < |s.bufs| :: s.bufs[b].key == k
  }

  ghost predicate Inv(s: State) {
    && s.latest.Keys == s.disk.Keys && None !in s.disk && Unique(s) && QueueInv(s)
    && (forall b: nat | b < |s.bufs| :: BufInv(s, b))
    && (forall k | k in s.disk && !Cached(s, k) :: s.disk[k] == s.latest[k])
  }

  // A step that changes buffer b, keeping its key, leaves the other blocks alone.
  lemma SameKeys(s: State, s': State, b: nat)
    requires IsBuf(s, b) && |s'.bufs| == |s.bufs| && s'.bufs[b].key == s.bufs[b].key
    requires forall c | 0 <= c < |s.bufs| && c != b :: s'.bufs[c] == s.bufs[c]
    ensures forall k :: Cached(s', k) <==> Cached(s, k)
  {
    forall k ensures Cached(s', k) <==> Cached(s, k) {
      if Cached(s, k) {
        var c :| 0 <= c < |s.bufs| && s.bufs[c].key == k;
        assert s'.bufs[c].key == k;
      }
    }
  }

  lemma StepKeeps(s: State, s': State, step: Step)
    requires Inv(s) && Next(s, s', step)
    ensures Inv(s')
  {
    match step
    case TakeStep(b) => Simple(s, s', step, b);
    case FetchStep(b) => Simple(s, s', step, b);
    case WriteStep(b, now) => Simple(s, s', step, b);
    case ReleaseStep(b) => Simple(s, s', step, b);
    case RecycleStep(b, k) => RecycleKeeps(s, s', b, k);
    case ChangeStep(b, data) => ChangeKeeps(s, s', b, data);
    case InterruptStep => InterruptKeeps(s, s');
  }

  lemma Simple(s: State, s': State, step: Step, b: nat)
    requires Inv(s) && Next(s, s', step) && !step.InterruptStep? && step.b == b && !step.RecycleStep?
    requires !step.ChangeStep?
    ensures Inv(s')
  {
    SameKeys(s, s', b);
    assert BufInv(s, b);
    forall c: nat | c < |s'.bufs| ensures BufInv(s', c) { assert BufInv(s, c); }
  }

  lemma RecycleKeeps(s: State, s': State, b: nat, k: Key)
    requires Inv(s) && Recycle(s, s', b, k)
    ensures Inv(s')
  {
    assert BufInv(s, b) && !Cached(s, k);
    forall c: nat | c < |s'.bufs| ensures BufInv(s', c) { assert BufInv(s, c); }
    forall j | j in s'.disk && !Cached(s', j) ensures s'.disk[j] == s'.latest[j] {
      assert s'.bufs[b].key == k;
      if j != s.bufs[b].key {
        assert !Cached(s, j) by {
          forall c | 0 <= c < |s.bufs| ensures s.bufs[c].key != j { assert s'.bufs[c].key != j; }
        }
      }
    }
  }

  lemma ChangeKeeps(s: State, s': State, b: nat, data: Block)
    requires Inv(s) && Change(s, s', b, data)
    ensures Inv(s')
  {
    SameKeys(s, s', b);
    assert BufInv(s, b);
    forall c: nat | c < |s'.bufs| ensures BufInv(s', c) { assert BufInv(s, c); }
    assert s'.bufs[b].key == s.bufs[b].key;
    assert Cached(s', s.bufs[b].key);
  }

  lemma InterruptKeeps(s: State, s': State)
    requires Inv(s) && Interrupt(s, s')
    ensures Inv(s')
  {
    var b := s.queue[0];
    SameKeys(s, s', b);
    assert BufInv(s, b);
    forall c: nat | c < |s'.bufs| ensures BufInv(s', c) { assert BufInv(s, c); }
    assert s'.bufs[b].key == s.bufs[b].key;
    assert Cached(s', s.bufs[b].key);
  }

  // ---------------------------------------------------------------- runs

  // At boot no block is cached.
  ghost predicate Init(s: State) {
    && s.queue == [] && s.changed == {} && s.latest == s.disk && None !in s.disk
    && forall b | 0 <= b < |s.bufs| :: s.bufs[b].key == None && !s.bufs[b].busy && !s.bufs[b].valid && !s.bufs[b].dirty
  }

  ghost predicate IsRun(run: seq<State>, steps: seq<Step>) {
    && |run| == |steps| + 1 && Init(run[0])
    && forall i {:trigger steps[i]} | 0 <= i < |steps| :: Next(run[i], run[i + 1], steps[i])
  }

  lemma {:induction false} RunInv(run: seq<State>, steps: seq<Step>, i: nat)
    requires IsRun(run, steps) && i < |run|
    ensures Inv(run[i])
  {
    if i == 0 {
      forall b: nat | b < |run[0].bufs| ensures BufInv(run[0], b) {}
    } else {
      RunInv(run, steps, i - 1);
      StepKeeps(run[i - 1], run[i], steps[i - 1]);
    }
  }

  // Cache transparency: whatever bread hands its caller is the block's latest contents, and no
  // other buffer caches that block.
  lemma Transparent(run: seq<State>, steps: seq<Step>, i: nat, b: nat)
    requires IsRun(run, steps) && i < |run| && Held(run[i], b) && run[i].bufs[b].valid
    ensures run[i].bufs[b].key in run[i].latest && run[i].bufs[b].data == run[i].latest[run[i].bufs[b].key]
    ensures forall c | 0 <= c < |run[i].bufs| && c != b :: run[i].bufs[c].key != run[i].bufs[b].key
  {
    RunInv(run, steps, i);
    assert BufInv(run[i], b);
  }

  // A block in no buffer, or in a buffer that is clean and not in use, is up to date on disk.
  lemma DiskCurrent(run: seq<State>, steps: seq<Step>, i: nat, k: Key)
    requires IsRun(run, steps) && i < |run| && k in run[i].disk
    requires forall b | 0 <= b < |run[i].bufs| && run[i].bufs[b].key == k ::
      !run[i].bufs[b].dirty && !run[i].bufs[b].busy
    ensures k in run[i].latest && run[i].disk[k] == run[i].latest[k]
  {
    RunInv(run, steps, i);
    var s := run[i];
    if Cached(s, k) {
      var b :| 0 <= b < |s.bufs| && s.bufs[b].key == k;
      assert BufInv(s, b);
    }
  }

  // ------------------------------------------------- what the calls promise

  // What was last written into block k in the first i steps, or what the disk held at boot.
  ghost function LastChange(run: seq<State>, steps: seq<Step>, i: nat, k: Key): Block
    requires i < |run| == |steps| + 1 && k in run[0].disk
  {
    if i == 0 then run[0].disk[k]
    else match steps[i - 1]
      case ChangeStep(b, data) =>
        if b < |run[i - 1].bufs| && run[i - 1].bufs[b].key == k then data else LastChange(run, steps, i - 1, k)
      case _ => LastChange(run, steps, i - 1, k)
  }

  lemma LatestStep(s: State, s': State, step: Step, k: Key)
    requires Inv(s) && Next(s, s', step) && k in s.latest
    ensures k in s'.latest
    ensures s'.latest[k] == if step.ChangeStep? && s.bufs[step.b].key == k then step.data else s.latest[k]
  {
  }

  lemma {:induction false} LatestIs(run: seq<State>, steps: seq<Step>, i: nat, k: Key)
    requires IsRun(run, steps) && i < |run| && k in run[0].disk
    ensures k in run[i].latest && run[i].latest[k] == LastChange(run, steps, i, k)
  {
    if i > 0 {
      LatestIs(run, steps, i - 1, k);
      RunInv(run, steps, i - 1);
      LatestStep(run[i - 1], run[i], steps[i - 1], k);
    }
  }

  lemma {:induction false} SameDisk(run: seq<State>, steps: seq<Step>, i: nat)
    requires IsRun(run, steps) && i < |run|
    ensures run[i].disk.Keys == run[0].disk.Keys
  {
    if i > 0 {
      SameDisk(run, steps, i - 1);
      assert Next(run[i - 1], run[i], steps[i - 1]);
    }
  }

  // Cache transparency without the reference copy: a buffer that bread returned holds the bytes of the
  // last change made to its block, by anybody, or those of the disk at boot.
  lemma ReadsLastChange(run: seq<State>, steps: seq<Step>, i: nat, b: nat)
    requires IsRun(run, steps) && i < |run| && Held(run[i], b) && run[i].bufs[b].valid
    ensures run[i].bufs[b].key in run[0].disk
    ensures run[i].bufs[b].data == LastChange(run, steps, i, run[i].bufs[b].key)
  {
    Transparent(run, steps, i, b);
    RunInv(run, steps, i);
    SameDisk(run, steps, i);
    LatestIs(run, steps, i, run[i].bufs[b].key);
  }

  // A queued buffer is left alone until the disk has served it.
  lemma QueuedStep(s: State, s': State, step: Step, b: nat)
    requires Inv(s) && Next(s, s', step) && b in s.queue && b < |s.bufs|
    ensures b < |s'.bufs| && s'.bufs[b].key == s.bufs[b].key
    ensures b in s'.queue ==> s'.bufs[b] == s.bufs[b]
    ensures b !in s'.queue ==>
              && s'.bufs[b].valid && !s'.bufs[b].dirty && s'.bufs[b].busy && b !in s'.changed
              && (s.bufs[b].dirty ==> s'.bufs[b].data == s.bufs[b].data)
  {
    assert BufInv(s, b);
    var q :| 0 <= q < |s.queue| && s.queue[q] == b;
    assert s.bufs[s.queue[q]].busy && s.queue[q] !in s.changed;
    if step.InterruptStep? && q > 0 { assert s'.queue[q - 1] == b; }
    if !step.InterruptStep? { assert b in s'.queue by { assert s'.queue[q] == b; } }
  }

  // From state i to state j buffer b is in the queue.
  ghost predicate Queued(run: seq<State>, i: nat, j: nat, b: nat) {
    i <= j < |run| && forall m | i <= m <= j :: b in run[m].queue
  }

  lemma {:induction false} QueuedSame(run: seq<State>, steps: seq<Step>, i: nat, j: nat, b: nat)
    requires IsRun(run, steps) && Queued(run, i, j, b) && b < |run[i].bufs|
    ensures b < |run[j].bufs| && run[j].bufs[b] == run[i].bufs[b]
    decreases j
  {
    if i < j {
      QueuedSame(run, steps, i, j - 1, b);
      RunInv(run, steps, j - 1);
      QueuedStep(run[j - 1], run[j], steps[j - 1], b);
    }
  }

  // When the disk has served buffer b, the buffer is valid and clean, and the disk holds its bytes.
  lemma Served(run: seq<State>, steps: seq<Step>, i: nat, j: nat, b: nat)
    requires IsRun(run, steps) && Queued(run, i, j, b) && b < |run[i].bufs| && j < |steps| && b !in run[j + 1].queue
    ensures b < |run[j + 1].bufs|
    ensures var buf, s := run[j + 1].bufs[b], run[j + 1];
            && buf.valid && !buf.dirty && buf.busy && buf.key == run[i].bufs[b].key && buf.key in s.disk
            && buf.key in s.latest && s.disk[buf.key] == s.latest[buf.key] == buf.data
            && (run[i].bufs[b].dirty ==> buf.data == run[i].bufs[b].data)
  {
    QueuedSame(run, steps, i, j, b);
    RunInv(run, steps, j);
    QueuedStep(run[j], run[j + 1], steps[j], b);
    RunInv(run, steps, j + 1);
    assert BufInv(run[j + 1], b);
  }

  // The call in step i queues the buffer, and returns in state j, the first in which it is served.
  ghost predicate Returns(run: seq<State>, steps: seq<Step>, i: nat, j: nat, b: nat) {
    && i < j < |run| == |steps| + 1 && b !in run[j].queue && forall m | i < m < j :: b in run[m].queue
  }

  // bwrite returns only after the disk has served the buffer: it is clean then, and the disk holds the
  // bytes that it had when bwrite was called.
  lemma BwriteReturns(run: seq<State>, steps: seq<Step>, i: nat, j: nat, b: nat)
    requires IsRun(run, steps) && Returns(run, steps, i, j, b) && steps[i] == WriteStep(b, true)
    ensures i + 1 < j && b < |run[i].bufs| && b < |run[j].bufs| && !run[j].bufs[b].dirty
    ensures run[j].bufs[b].key == run[i].bufs[b].key && run[i].bufs[b].key in run[j].disk
    ensures run[j].disk[run[i].bufs[b].key] == run[j].bufs[b].data == run[i].bufs[b].data
  {
    assert Next(run[i], run[i + 1], steps[i]);
    assert run[i + 1].queue[|run[i].queue|] == b;
    assert Queued(run, i + 1, j - 1, b);
    Served(run, steps, i + 1, j - 1, b);
  }

  // bread of a block that is not cached returns it valid, with the bytes on the disk.
  lemma BreadReturns(run: seq<State>, steps: seq<Step>, i: nat, j: nat, b: nat)
    requires IsRun(run, steps) && Returns(run, steps, i, j, b) && steps[i] == FetchStep(b)
    ensures i + 1 < j && b < |run[i].bufs| && b < |run[j].bufs| && run[j].bufs[b].valid
    ensures run[j].bufs[b].key == run[i].bufs[b].key && run[i].bufs[b].key in run[j].disk
    ensures run[j].bufs[b].data == run[j].disk[run[i].bufs[b].key]
  {
    assert Next(run[i], run[i + 1], steps[i]);
    assert run[i + 1].queue[|run[i].queue|] == b;
    assert Queued(run, i + 1, j - 1, b);
    Served(run, steps, i + 1, j - 1, b);
  }

  predicate Gets(step: Step, b: nat) {
    step == TakeStep(b) || (step.RecycleStep? && step.b == b)
  }

  lemma BusyStep(s: State, s': State, step: Step, b: nat)
    requires Inv(s) && Next(s, s', step) && b < |s.bufs|
    ensures b < |s'.bufs|
    ensures Gets(step, b) ==> !s.bufs[b].busy
    ensures s'.bufs[b].busy <==> Gets(step, b) || (s.bufs[b].busy && step != ReleaseStep(b))
    ensures s'.bufs[b].key != s.bufs[b].key ==> step.RecycleStep? && step.b == b && s'.bufs[b].key == step.k
    ensures step == ReleaseStep(b) ==> s'.bufs[b] == s.bufs[b].(busy := false)
  {
  }

  lemma {:induction false} BusyUntilReleased(run: seq<State>, steps: seq<Step>, i: nat, j: nat, b: nat)
    requires IsRun(run, steps) && i <= j < |run| && b < |run[i].bufs| && run[i].bufs[b].busy
    requires forall m | i <= m < j :: steps[m] != ReleaseStep(b)
    ensures b < |run[j].bufs| && run[j].bufs[b].busy && run[j].bufs[b].key == run[i].bufs[b].key
    decreases j
  {
    if i < j {
      BusyUntilReleased(run, steps, i, j - 1, b);
      RunInv(run, steps, j - 1);
      BusyStep(run[j - 1], run[j], steps[j - 1], b);
    }
  }

  // A buffer has one holder at a time: between two calls of bget that hand it out it is released.
  lemma OneHolder(run: seq<State>, steps: seq<Step>, i: nat, k: nat, b: nat) returns (m: nat)
    requires IsRun(run, steps) && i < k < |steps| && Gets(steps[i], b) && Gets(steps[k], b)
    ensures i < m < k && steps[m] == ReleaseStep(b)
  {
    RunInv(run, steps, i);
    RunInv(run, steps, k);
    assert Next(run[i], run[i + 1], steps[i]) && Next(run[k], run[k + 1], steps[k]);
    BusyStep(run[i], run[i + 1], steps[i], b);
    m := i + 1;
    while m < k && steps[m] != ReleaseStep(b)
      invariant i < m <= k && forall n | i < n < m :: steps[n] != ReleaseStep(b)
    {
      m := m + 1;
    }
    if m == k {
      BusyUntilReleased(run, steps, i + 1, k, b);
      BusyStep(run[k], run[k + 1], steps[k], b);
      assert false;
    }
  }
}
