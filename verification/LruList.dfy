/**
 The buffer list of bio.c: NBUF buffers on a circular doubly linked list through prev and
 next, with the list head as node NBUF.  bget looks a block up from the front and recycles
 from the back; brelse moves a buffer to the front.
 */
module LruList {
  import Log
  import RedoLog

  const NBUF := RedoLog.NBUF
  const HEAD := NBUF

  // The state of a buffer that bget looks at.  dev is -1 until the buffer is first used.
  datatype Buf = Buf(dev: int, blockno: nat, busy: bool, valid: bool, dirty: bool)

  // Node i of the list: the head at -1 and at |order|.
  function Node(order: seq<nat>, i: int): nat {
    if 0 <= i < |order| then order[i] else HEAD
  }

  // prev and next link head and order into one circle.
  ghost predicate Linked(next: seq<nat>, prev: seq<nat>, order: seq<nat>) {
    && |next| == |prev| == NBUF + 1
    && (forall i | 0 <= i < |order| :: order[i] < NBUF)
    && (forall i, j | 0 <= i < j < |order| :: order[i] != order[j])
    && (forall i {:trigger Link(next, prev, order, i)} | 0 <= i <= |order| :: Link(next, prev, order, i))
  }

  // Node i follows node i - 1.
  ghost predicate Link(next: seq<nat>, prev: seq<nat>, order: seq<nat>, i: int)
    requires |next| == |prev| == NBUF + 1
  {
    Neighbours(next, prev, Node(order, i - 1), Node(order, i))
  }

  ghost predicate Neighbours(next: seq<nat>, prev: seq<nat>, a: nat, b: nat)
    requires |next| == |prev| == NBUF + 1
  {
    a <= NBUF && b <= NBUF && next[a] == b && prev[b] == a
  }

  // b->next = head.next; b->prev = head; head.next->prev = b; head.next = b
  method PushFront(next: seq<nat>, prev: seq<nat>, ghost order: seq<nat>, b: nat)
    returns (next': seq<nat>, prev': seq<nat>)
    requires Linked(next, prev, order) && b < NBUF && b !in order
    ensures Linked(next', prev', [b] + order)
  {
    assert Link(next, prev, order, 0);
    var first := next[HEAD];
    next' := next[b := first];
    prev' := prev[b := HEAD];
    prev' := prev'[first := b];
    next' := next'[HEAD := b];
    PushLinks(next, prev, order, b, next', prev');
  }

  lemma PushLinks(next: seq<nat>, prev: seq<nat>, order: seq<nat>, b: nat, next': seq<nat>, prev': seq<nat>)
    requires Linked(next, prev, order) && b < NBUF && b !in order
    requires next' == next[b := Node(order, 0)][HEAD := b] && prev' == prev[b := HEAD][Node(order, 0) := b]
    ensures Linked(next', prev', [b] + order)
  {
    var order' := [b] + order;
    forall i {:trigger Link(next', prev', order', i)} | 0 <= i <= |order'| ensures Link(next', prev', order', i) {
      if i >= 2 {
        assert Link(next, prev, order, i - 1);
        assert Node(order', i - 1) == Node(order, i - 2) && Node(order', i) == Node(order, i - 1);
      } else {
        assert Node(order', 1) == Node(order, 0);
      }
    }
  }

  // order without its element n
  function Without(order: seq<nat>, n: nat): (r: seq<nat>)
    requires n < |order|
    ensures |r| == |order| - 1 && forall i | 0 <= i < |r| :: r[i] == if i < n then order[i] else order[i + 1]
  {
    order[..n] + order[n + 1..]
  }

  // order with its element n moved to the front
  function ToFront(order: seq<nat>, n: nat): (r: seq<nat>)
    requires n < |order|
    ensures |r| == |order|
    ensures forall k | 0 <= k < |r| :: r[k] == if k == 0 then order[n] else if k <= n then order[k - 1] else order[k]
  {
    [order[n]] + Without(order, n)
  }

  // b->next->prev = b->prev; b->prev->next = b->next
  method Unlink(next: seq<nat>, prev: seq<nat>, ghost order: seq<nat>, b: nat, ghost n: nat)
    returns (next': seq<nat>, prev': seq<nat>)
    requires Linked(next, prev, order) && n < |order| && order[n] == b
    ensures Linked(next', prev', Without(order, n)) && b !in Without(order, n)
  {
    assert Link(next, prev, order, n);
    assert Link(next, prev, order, n + 1);
    prev' := prev[next[b] := prev[b]];
    next' := next[prev'[b] := next[b]];
    UnlinkLinks(next, prev, order, n, next', prev');
  }

  lemma Apart(order: seq<nat>, i: int, j: int)
    requires (forall k | 0 <= k < |order| :: order[k] < NBUF)
    requires (forall k, m | 0 <= k < m < |order| :: order[k] != order[m])
    requires -1 <= i < j <= |order| && !(i == -1 && j == |order|)
    ensures Node(order, i) != Node(order, j)
  {
  }

  lemma UnlinkLinks(next: seq<nat>, prev: seq<nat>, order: seq<nat>, n: nat, next': seq<nat>, prev': seq<nat>)
    requires Linked(next, prev, order) && n < |order| && Node(order, n - 1) <= NBUF && Node(order, n + 1) <= NBUF
    requires next' == next[Node(order, n - 1) := Node(order, n + 1)]
    requires prev' == prev[Node(order, n + 1) := Node(order, n - 1)]
    ensures Linked(next', prev', Without(order, n))
  {
    var order' := Without(order, n);
    forall i {:trigger Link(next', prev', order', i)} | 0 <= i <= |order'| ensures Link(next', prev', order', i) {
      if i < n {
        assert Link(next, prev, order, i);
        Apart(order, i - 1, n - 1);
        Apart(order, i, n + 1);
      } else if i > n {
        assert Link(next, prev, order, i + 1);
        Apart(order, n - 1, i);
        Apart(order, n + 1, i + 1);
      }
    }
  }

  // ------------------------------------------------------------ the searches

  predicate Match(b: Buf, dev: nat, blockno: nat) {
    b.dev == dev && b.blockno == blockno
  }

  predicate Idle(b: Buf) {
    !b.busy && !b.dirty
  }

  // The first buffer from the front that caches the block, or HEAD.
  method Find(bufs: seq<Buf>, next: seq<nat>, ghost prev: seq<nat>, ghost order: seq<nat>, dev: nat, blockno: nat)
    returns (b: nat, ghost i: nat)
    requires Linked(next, prev, order) && |bufs| == NBUF
    ensures i <= |order| && b == Node(order, i) && (forall j | 0 <= j < i :: !Match(bufs[order[j]], dev, blockno))
    ensures b != HEAD ==> i < |order| && Match(bufs[b], dev, blockno)
  {
    assert Link(next, prev, order, 0);
    b, i := next[HEAD], 0;
    while b != HEAD
      invariant i <= |order| && b == Node(order, i) && b <= NBUF
      invariant forall j | 0 <= j < i :: !Match(bufs[order[j]], dev, blockno)
      decreases |order| - i
    {
      if Match(bufs[b], dev, blockno) {
        return;
      }
      assert Link(next, prev, order, i + 1);
      b, i := next[b], i + 1;
    }
  }

  // The first buffer from the back that is neither busy nor dirty, or HEAD.
  method FindIdle(bufs: seq<Buf>, ghost next: seq<nat>, prev: seq<nat>, ghost order: seq<nat>)
    returns (b: nat, ghost i: int)
    requires Linked(next, prev, order) && |bufs| == NBUF
    ensures -1 <= i < |order| && b == Node(order, i) && (forall j | i < j < |order| :: !Idle(bufs[order[j]]))
    ensures b != HEAD ==> 0 <= i && Idle(bufs[b])
  {
    assert Link(next, prev, order, |order|);
    b, i := prev[HEAD], |order| - 1;
    while b != HEAD
      invariant -1 <= i < |order| && b == Node(order, i) && b <= NBUF
      invariant forall j | i < j < |order| :: !Idle(bufs[order[j]])
      decreases i
    {
      if Idle(bufs[b]) {
        return;
      }
      assert Link(next, prev, order, i);
      b, i := prev[b], i - 1;
    }
  }

  // ---------------------------------------------------------------- the cache

  // What bget does: hand out the buffer, wait for it, or give up.
  datatype Got = Hit(b: nat) | Wait(b: nat) | Recycled(b: nat) | NoBuffers

  class BufferCache {
    var bufs: seq<Buf>
    var next: seq<nat>
    var prev: seq<nat>
    ghost var order: seq<nat>       // the list, most recently released first
    ghost var stamp: seq<nat>       // when each buffer was last released
    ghost var clock: nat

    // All NBUF buffers are on the list, in order of release, and no block is cached twice.
    ghost predicate Valid()
      reads this
    {
      |bufs| == NBUF && InOrder(next, prev, order, stamp, clock) && Unique(bufs)
    }

    // binit
    constructor ()
      ensures Valid() && forall b | 0 <= b < NBUF :: bufs[b] == Buf(-1, 0, false, false, false)
    {
      var nx, pr := Zeros()[HEAD := HEAD], Zeros()[HEAD := HEAD];
      ghost var ord: seq<nat> := [];
      var b := 0;
      while b < NBUF
        invariant 0 <= b <= NBUF && Linked(nx, pr, ord)
        invariant |ord| == b && forall i | 0 <= i < b :: ord[i] == b - 1 - i
      {
        nx, pr := PushFront(nx, pr, ord, b);
        ord, b := [b] + ord, b + 1;
      }
      next, prev, order := nx, pr, ord;
      bufs, stamp, clock := Fresh(), Count(), NBUF;
      new;
      forall c: nat | c < NBUF ensures OnList(order, c) {
        assert order[NBUF - 1 - c] == c;
      }
    }

    // bget hands out the one buffer of the block if it is cached, and otherwise recycles the
    // least recently released buffer that is neither busy nor dirty.
    method Bget(dev: nat, blockno: nat) returns (got: Got)
      requires Valid()
      modifies this`bufs
      ensures Valid()
      ensures forall c | 0 <= c < NBUF && !(got.Hit? && c == got.b) && !(got.Recycled? && c == got.b) ::
        bufs[c] == old(bufs)[c]
      ensures got.Hit? ==> got.b < NBUF && Match(old(bufs)[got.b], dev, blockno) && !old(bufs)[got.b].busy
      ensures got.Hit? ==> bufs[got.b] == old(bufs)[got.b].(busy := true)
      ensures got.Wait? ==> got.b < NBUF && Match(old(bufs)[got.b], dev, blockno) && old(bufs)[got.b].busy
      ensures got.Wait? ==> bufs == old(bufs)
      ensures got.Recycled? || got.NoBuffers? <==> forall c | 0 <= c < NBUF :: !Match(old(bufs)[c], dev, blockno)
      ensures got.Recycled? ==> got.b < NBUF && !old(bufs)[got.b].busy && !old(bufs)[got.b].dirty
      ensures got.Recycled? ==> bufs[got.b] == Buf(dev, blockno, true, false, false)
      ensures got.Recycled? ==> forall c | 0 <= c < NBUF && Idle(old(bufs)[c]) :: stamp[got.b] <= stamp[c]
      ensures got.NoBuffers? ==> bufs == old(bufs) && forall c | 0 <= c < NBUF :: bufs[c].busy || bufs[c].dirty
    {
      ghost var was := bufs;
      var b, i := Find(bufs, next, prev, order, dev, blockno);
      if b != HEAD {
        if bufs[b].busy {
          return Wait(b);
        }
        bufs := bufs[b := bufs[b].(busy := true)];
        return Hit(b);
      }
      NoneAt(order, bufs, i, dev, blockno);
      var v, k := FindIdle(bufs, next, prev, order);
      IdleAt(order, stamp, bufs, k);
      if v == HEAD {
        return NoBuffers;
      }
      bufs := bufs[v := Buf(dev, blockno, true, false, false)];
      got := Recycled(v);
    }

    // brelse: the buffer becomes the most recently released one; the others keep their order.
    method Brelse(b: nat)
      requires Valid() && b < NBUF && bufs[b].busy
      modifies this
      ensures Valid() && bufs == old(bufs)[b := old(bufs)[b].(busy := false)]
      ensures stamp == old(stamp)[b := clock] && clock == old(clock) + 1
      ensures exists n: nat :: n < |old(order)| && old(order)[n] == b && order == ToFront(old(order), n)
    {
      ReleaseUnique(bufs, b);
      bufs := bufs[b := bufs[b].(busy := false)];
      next, prev, order, stamp := Released(next, prev, order, stamp, clock, b);
      clock := clock + 1;
    }
  }

  // Buffer b comes to the front, as the one released last.
  method Released(next: seq<nat>, prev: seq<nat>, ghost order: seq<nat>, ghost stamp: seq<nat>, ghost clock: nat,
                  b: nat)
    returns (next': seq<nat>, prev': seq<nat>, ghost order': seq<nat>, ghost stamp': seq<nat>)
    requires InOrder(next, prev, order, stamp, clock) && b < NBUF
    ensures InOrder(next', prev', order', stamp', clock + 1) && stamp' == stamp[b := clock + 1]
    ensures exists n: nat :: n < |order| && order[n] == b && order' == ToFront(order, n)
  {
    assert OnList(order, b);
    ghost var n: nat :| n < |order| && order[n] == b;
    next', prev' := MoveToFront(next, prev, order, b, n);
    StillInOrder(next, prev, order, stamp, clock, n, next', prev');
    order', stamp' := ToFront(order, n), stamp[order[n] := clock + 1];
  }

  // The list surgery of brelse.
  method MoveToFront(next: seq<nat>, prev: seq<nat>, ghost order: seq<nat>, b: nat, ghost n: nat)
    returns (next': seq<nat>, prev': seq<nat>)
    requires Linked(next, prev, order) && n < |order| && order[n] == b
    ensures Linked(next', prev', ToFront(order, n))
  {
    next', prev' := Unlink(next, prev, order, b, n);
    next', prev' := PushFront(next', prev', Without(order, n), b);
  }

  function Zeros(): (r: seq<nat>)
    ensures |r| == NBUF + 1
  {
    seq(NBUF + 1, i => 0)
  }

  function Fresh(): (r: seq<Buf>)
    ensures |r| == NBUF && forall b | 0 <= b < NBUF :: r[b] == Buf(-1, 0, false, false, false)
  {
    seq(NBUF, b => Buf(-1, 0, false, false, false))
  }

  function Count(): (r: seq<nat>)
    ensures |r| == NBUF && forall b | 0 <= b < NBUF :: r[b] == b
  {
    seq(NBUF, b requires 0 <= b => b)
  }

  ghost predicate OnList(order: seq<nat>, b: nat) {
    exists k | 0 <= k < |order| :: order[k] == b
  }

  // At most one buffer caches a block.
  ghost predicate Unique(bufs: seq<Buf>) {
    forall b, c | 0 <= b < c < |bufs| && bufs[b].dev >= 0 ::
      bufs[b].dev != bufs[c].dev || bufs[b].blockno != bufs[c].blockno
  }

  ghost predicate ByRelease(order: seq<nat>, stamp: seq<nat>)
    requires forall i | 0 <= i < |order| :: order[i] < |stamp|
  {
    forall i, j | 0 <= i < j < |order| :: stamp[order[i]] > stamp[order[j]]
  }

  // All NBUF buffers are on the list, most recently released first.
  ghost predicate InOrder(next: seq<nat>, prev: seq<nat>, order: seq<nat>, stamp: seq<nat>, clock: nat) {
    && Linked(next, prev, order) && |stamp| == NBUF
    && (forall b: nat {:trigger OnList(order, b)} | b < NBUF :: OnList(order, b))
    && (forall b | 0 <= b < NBUF :: stamp[b] <= clock)
    && ByRelease(order, stamp)
  }

  lemma NoneAt(order: seq<nat>, bufs: seq<Buf>, i: nat, dev: nat, blockno: nat)
    requires |bufs| == NBUF && (forall k | 0 <= k < |order| :: order[k] < NBUF)
    requires (forall b: nat | b < NBUF :: OnList(order, b))
    requires i <= |order| && Node(order, i) == HEAD && forall j | 0 <= j < i :: !Match(bufs[order[j]], dev, blockno)
    ensures forall c | 0 <= c < NBUF :: !Match(bufs[c], dev, blockno)
  {
    forall c | 0 <= c < NBUF ensures !Match(bufs[c], dev, blockno) {
      assert OnList(order, c);
      var k :| 0 <= k < |order| && order[k] == c;
    }
  }

  lemma IdleAt(order: seq<nat>, stamp: seq<nat>, bufs: seq<Buf>, i: int)
    requires |bufs| == |stamp| == NBUF && (forall k | 0 <= k < |order| :: order[k] < NBUF)
    requires (forall b: nat | b < NBUF :: OnList(order, b))
    requires -1 <= i < |order| && ByRelease(order, stamp) && forall j | i < j < |order| :: !Idle(bufs[order[j]])
    ensures forall c | 0 <= c < NBUF && Idle(bufs[c]) :: 0 <= i && stamp[order[i]] <= stamp[c]
  {
    forall c | 0 <= c < NBUF && Idle(bufs[c]) ensures 0 <= i && stamp[order[i]] <= stamp[c] {
      assert OnList(order, c);
      var k :| 0 <= k < |order| && order[k] == c;
    }
  }

  lemma StillOn(order: seq<nat>, n: nat, c: nat)
    requires n < |order| && OnList(order, c)
    ensures OnList(ToFront(order, n), c)
  {
    var k :| 0 <= k < |order| && order[k] == c;
    assert c == ToFront(order, n)[if k < n then k + 1 else if k == n then 0 else k];
  }

  lemma ReleasedOrder(order: seq<nat>, stamp: seq<nat>, n: nat, now: nat)
    requires |stamp| == NBUF && n < |order|
    requires (forall k | 0 <= k < |order| :: order[k] < NBUF)
    requires (forall i, j | 0 <= i < j < |order| :: order[i] != order[j])
    requires (forall c | 0 <= c < NBUF :: stamp[c] < now) && ByRelease(order, stamp)
    ensures (forall k | 0 <= k < |order| :: ToFront(order, n)[k] < NBUF)
    ensures ByRelease(ToFront(order, n), stamp[order[n] := now])
  {
  }

  lemma StillInOrder(next: seq<nat>, prev: seq<nat>, order: seq<nat>, stamp: seq<nat>, clock: nat, n: nat,
                     next': seq<nat>, prev': seq<nat>)
    requires InOrder(next, prev, order, stamp, clock) && n < |order| && Linked(next', prev', ToFront(order, n))
    ensures InOrder(next', prev', ToFront(order, n), stamp[order[n] := clock + 1], clock + 1)
  {
    ReleasedOrder(order, stamp, n, clock + 1);
    forall c: nat {:trigger OnList(ToFront(order, n), c)} | c < NBUF ensures OnList(ToFront(order, n), c) {
      StillOn(order, n, c);
    }
  }

  lemma ReleaseUnique(bufs: seq<Buf>, b: nat)
    requires Unique(bufs) && b < |bufs|
    ensures Unique(bufs[b := bufs[b].(busy := false)])
  {
  }

  // ------------------------------------------------------- the log's view of the cache

  // The blocks of disk dev that the buffers hold, and those among them that are busy or dirty.
  ghost function Blocks(bufs: seq<Buf>, dev: nat): set<nat> {
    set c | 0 <= c < |bufs| && bufs[c].dev == dev :: bufs[c].blockno
  }

  ghost function Pinned(bufs: seq<Buf>, dev: nat): set<nat> {
    set c | 0 <= c < |bufs| && bufs[c].dev == dev && (bufs[c].busy || bufs[c].dirty) :: bufs[c].blockno
  }

  // A cache that serves the one disk dev; a buffer not used yet is idle.
  ghost predicate OneDisk(bufs: seq<Buf>, dev: nat) {
    |bufs| == NBUF && Unique(bufs) && forall c | 0 <= c < NBUF ::
      bufs[c].dev == dev || (bufs[c].dev == -1 && Idle(bufs[c]))
  }

  lemma {:induction false} AtMost(s: seq<nat>, k: nat)
    requires k <= |s|
    ensures |Log.From(s, k)| <= |s| - k
    decreases |s| - k
  {
    if k < |s| {
      AtMost(s, k + 1);
      assert Log.From(s, k) == Log.From(s, k + 1) + {s[k]};
    }
  }

  function Numbers(bufs: seq<Buf>): (r: seq<nat>)
    ensures |r| == |bufs| && forall c | 0 <= c < |r| :: r[c] == bufs[c].blockno
  {
    seq(|bufs|, c requires 0 <= c < |bufs| => bufs[c].blockno)
  }

  // The cache holds NBUF blocks exactly when every buffer is in use.
  lemma AllInUse(bufs: seq<Buf>, dev: nat)
    requires OneDisk(bufs, dev)
    ensures |Blocks(bufs, dev)| <= NBUF
    ensures |Blocks(bufs, dev)| == NBUF <==> forall c | 0 <= c < NBUF :: bufs[c].dev == dev
  {
    var all := Numbers(bufs);
    if u :| 0 <= u < NBUF && bufs[u].dev != dev {
      var rest := all[..u] + all[u + 1..];
      forall x | x in Blocks(bufs, dev) ensures x in Log.From(rest, 0) {
        var c :| 0 <= c < NBUF && bufs[c].dev == dev && bufs[c].blockno == x;
        assert rest[if c < u then c else c - 1] == x;
      }
      AtMost(rest, 0);
      Log.Subset(Blocks(bufs, dev), Log.From(rest, 0));
    } else {
      Log.DistinctCount(all, 0);
      assert Blocks(bufs, dev) == Log.From(all, 0);
    }
  }

  // bget's "no buffers" is what the log's model of the cache calls unobtainable.
  lemma SamePanic(bufs: seq<Buf>, dev: nat, cache: Log.Cache, b: nat)
    requires OneDisk(bufs, dev) && cache.Keys == Blocks(bufs, dev)
    ensures (forall c | 0 <= c < NBUF ::
      !Match(bufs[c], dev, b) && !Idle(bufs[c])) <==> !Log.Obtainable(cache, Pinned(bufs, dev), b)
  {
    AllInUse(bufs, dev);
    if forall c | 0 <= c < NBUF :: !Match(bufs[c], dev, b) && !Idle(bufs[c]) {
      forall v | v in cache ensures v in Pinned(bufs, dev) {
        var c :| 0 <= c < NBUF && bufs[c].dev == dev && bufs[c].blockno == v;
      }
    } else if !Log.Obtainable(cache, Pinned(bufs, dev), b) {
      forall c | 0 <= c < NBUF ensures !Match(bufs[c], dev, b) && !Idle(bufs[c]) {
        assert bufs[c].blockno in cache;
      }
    }
  }
}
