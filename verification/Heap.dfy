/**
 malloc and cfree of umalloc.c, and their twins kmalloc and kmfree of kalloc.c:
 the Kernighan and Ritchie allocator, with the memory words it updates in place.

 `chunk` is the least number of units asked of the system at a time: 4096 for
 umalloc.c, one page (512) for kalloc.c, which must not be asked for more.
 */
module Heap {
  import opened FreeList

  const HEADER := 8            // bytes in a header unit
  const UINT := 0x1_0000_0000
  const INT_MAX1 := 0x8000_0000

  // Units for a request of nbytes, in the unsigned 32-bit arithmetic of malloc.
  function Nunits(nbytes: nat): nat {
    ((nbytes + HEADER - 1) % UINT) / HEADER + 1
  }

  function Max(a: nat, b: nat): nat {
    if a < b then b else a
  }

  // A block of Nunits(nbytes) units has room for nbytes behind its header exactly when the
  // rounding does not wrap around.
  lemma RoomIff(nbytes: nat)
    requires nbytes < UINT
    ensures nbytes <= (Nunits(nbytes) - 1) * HEADER <==> nbytes + HEADER - 1 < UINT
  {
    if nbytes + HEADER - 1 < UINT {
      assert (nbytes + HEADER - 1) % UINT == nbytes + HEADER - 1;
    } else {
      assert (nbytes + HEADER - 1) % UINT == nbytes + HEADER - 1 - UINT;
    }
  }

  // The byte count handed to sbrk, which takes a signed int.
  function SbrkArgument(nunits: nat, chunk: nat): int {
    var bytes := (Max(nunits, chunk) * HEADER) % UINT;
    if bytes < INT_MAX1 then bytes else bytes - UINT
  }

  // morecore asks for the memory it records exactly when the request is below 2 GB; from there on
  // the argument turns negative, or zero, and sbrk grows nothing.
  lemma SbrkArgumentIff(nbytes: nat)
    requires nbytes < UINT
    ensures SbrkArgument(Nunits(nbytes), 4096) == Max(Nunits(nbytes), 4096) * HEADER
            <==> nbytes < INT_MAX1 - 15 || UINT <= nbytes + HEADER - 1
    ensures SbrkArgument(Nunits(nbytes), 4096) < 0 <==> INT_MAX1 - 15 <= nbytes < UINT - 15
    ensures SbrkArgument(Nunits(nbytes), 4096) == 0 <==> UINT - 15 <= nbytes < UINT - 7
  {
    if nbytes + HEADER - 1 < UINT {
      assert (nbytes + HEADER - 1) % UINT == nbytes + HEADER - 1;
      assert Nunits(nbytes) <= UINT / HEADER;
    } else {
      assert (nbytes + HEADER - 1) % UINT == nbytes + HEADER - 1 - UINT;
      assert Nunits(nbytes) == 1;
    }
  }

  // The elements met by following the list from p (exclusive) to q (inclusive), all the way round if p == q.
  ghost function Arc(f: set<int>, p: int, q: int): set<int> {
    if p < q then set z | z in f && p < z <= q else set z | z in f && (p < z || z <= q)
  }

  ghost function Left(f: set<int>, p: int, q: int): set<int> {
    if p == q then {} else Arc(f, p, q)
  }

  lemma ArcStep(f: set<int>, base: int, p: int, n: int, q: int)
    requires base in f && p in f && q in f && IsNext(f, base, p, n) && forall z | z in f :: base <= z
    ensures n in Arc(f, p, q)
    ensures n != q ==> Arc(f, n, q) == Arc(f, p, q) - {n}
    ensures n == q ==> Arc(f, p, q) == {q}
  {
  }

  // Some element of the list is the last one below bp.
  lemma {:induction false} LastBelow(f: set<int>, base: int, bp: int) returns (q: int)
    requires base in f && base < bp && bp !in f
    ensures Fits(f, bp, q)
    decreases |f|
  {
    if x :| x in f && x != base && x > bp {
      q := LastBelow(f - {x}, base, bp);
      assert forall z | z in f :: z == x || z in f - {x};
    } else if x :| x in f && x != base && x < bp {
      var r := LastBelow(f - {x}, base, bp);
      q := if x < r then r else x;
      assert forall z | z in f :: z == x || z in f - {x};
    } else {
      q := base;
    }
  }

  // The words of every unit owned by a block of `live` are the same before and after.
  ghost predicate Untouched(live: set<int>, owner: map<int, int>, ptr: Words, size: Words, ptr': Words, size': Words) {
    forall u | u in owner && owner[u] in live ::
      && (u in ptr <==> u in ptr') && (u in ptr && u in ptr' ==> ptr[u] == ptr'[u])
      && (u in size <==> u in size') && (u in size && u in size' ==> size[u] == size'[u])
  }

  // Only the words at addresses x and y differ.
  ghost predicate SameElsewhere(w: Words, w': Words, x: int, y: int) {
    forall u | u != x && u != y :: (u in w <==> u in w') && (u in w && u in w' ==> w[u] == w'[u])
  }

  // cfree writes only the header of the block it frees and the header of a free block.
  lemma HeadersOnly(ptr: Words, size: Words, base: int, free: set<int>, live: set<int>, owner: map<int, int>, p: int,
                    bp: int, ptr': Words, size': Words)
    requires Found(ptr, size, base, free, live, owner, p, bp)
    requires SameElsewhere(ptr, ptr', p, bp) && SameElsewhere(size, size', p, bp)
    ensures Untouched(live - {bp}, owner, ptr, size, ptr', size')
  {
    assert Within(size, bp, bp) && (p != base ==> Within(size, p, p));
  }

  // What cfree has done once bp is linked in behind p: live block bp has joined the free blocks.
  ghost predicate Joined(ptr: Words, size: Words, base: int, free: set<int>, live: set<int>, owner: map<int, int>,
                         p: int, bp: int,
                         ptr': Words, size': Words, free': set<int>, owner': map<int, int>) {
    && Shape(ptr', size', base, free', live - {bp}, owner')
    && p in free' && owner'.Keys == owner.Keys
    && SameElsewhere(ptr, ptr', p, bp) && SameElsewhere(size, size', p, bp)
    && bp in size && exists a :: a in free' && a in size' && size'[a] >= size[bp]
  }

  // The two tests of cfree, on the header words: join to the block above, join to the block below.
  method Join(ptr: Words, size: Words, p: int, bp: int,
              ghost base: int, ghost free: set<int>, ghost live: set<int>, ghost owner: map<int, int>)
    returns (ptr': Words, size': Words, ghost free': set<int>, ghost owner': map<int, int>)
    requires Found(ptr, size, base, free, live, owner, p, bp)
    ensures Joined(ptr, size, base, free, live, owner, p, bp, ptr', size', free', owner')
  {
    FoundFacts(ptr, size, base, free, live, owner, p, bp);
    var n := ptr[p];
    if bp + size[bp] == n {
      size' := size[bp := size[bp] + size[n]];
      ptr' := ptr[bp := ptr[n]];
      if p + size'[p] == bp {
        FreeBoth(ptr, size, base, free, live, owner, p, bp, n, size');
        size' := size'[p := size'[p] + size'[bp]];
        ptr' := ptr'[p := ptr'[bp]];
        free', owner' := free - {n}, Reowned(owner, bp, n + size[n], p);
        assert size'[p] >= size[bp];
      } else {
        FreeUp(ptr, size, base, free, live, owner, p, bp, n);
        ptr' := ptr'[p := bp];
        free', owner' := (free - {n}) + {bp}, Reowned(owner, n, n + size[n], bp);
        assert size'[bp] >= size[bp];
      }
    } else {
      ptr' := ptr[bp := n];
      if p + size[p] == bp {
        FreeDown(ptr, size, base, free, live, owner, p, bp);
        size' := size[p := size[p] + size[bp]];
        ptr' := ptr'[p := ptr'[bp]];
        free', owner' := free, Reowned(owner, bp, bp + size[bp], p);
        assert size'[p] >= size[bp];
      } else {
        FreeAlone(ptr, size, base, free, live, owner, p, bp);
        size', ptr' := size, ptr'[p := bp];
        free', owner' := free + {bp}, owner;
        assert size'[bp] >= size[bp];
      }
    }
  }

  // The allocator's variables, and the ghost description of what they mean.
  datatype Vars = Vars(ptr: Words, size: Words, freep: int)
  datatype View = View(free: set<int>, live: set<int>, owner: map<int, int>)

  ghost predicate Ok(base: int, m: Vars, v: View) {
    m.freep in v.free && Shape(m.ptr, m.size, base, v.free, v.live, v.owner)
  }

  // The search loop of cfree.
  method Search(m: Vars, bp: int, ghost base: int, ghost v: View) returns (p: int)
    requires Ok(base, m, v) && bp in v.live
    ensures Found(m.ptr, m.size, base, v.free, v.live, v.owner, p, bp)
  {
    assert base < bp by { assert Within(m.size, bp, bp); }
    ghost var q := LastBelow(v.free, base, bp);
    p := m.freep;
    assert Linked(m.ptr, v.free, base, p);
    while !(bp > p && bp < m.ptr[p])
      invariant p in v.free && Linked(m.ptr, v.free, base, p)
      decreases Left(v.free, p, q)
    {
      if p >= m.ptr[p] && (bp > p || bp < m.ptr[p]) {
        break;
      }
      ArcStep(v.free, base, p, m.ptr[p], q);
      p := m.ptr[p];
      assert Linked(m.ptr, v.free, base, p);
    }
    FoundFacts(m.ptr, m.size, base, v.free, v.live, v.owner, p, bp);
  }

  // Some free block has at least n units.
  ghost predicate SomeFit(m: Vars, v: View, n: int) {
    exists a :: a in v.free && a in m.size && m.size[a] >= n
  }

  // cfree of a live block: its units, and those of its free neighbours, end up in one free block;
  // nothing of another live block is touched.
  method FreeBlock(m: Vars, bp: int, ghost base: int, ghost v: View) returns (m': Vars, ghost v': View)
    requires Ok(base, m, v) && bp in v.live
    ensures Ok(base, m', v') && v'.live == v.live - {bp} && v'.owner.Keys == v.owner.Keys
    ensures Untouched(v'.live, v.owner, m.ptr, m.size, m'.ptr, m'.size)
    ensures bp in m.size && SomeFit(m', v', m.size[bp])
    ensures m'.freep in v.free && m'.freep < bp && forall z | z in v.free && z < bp :: z <= m'.freep
  {
    var p := Search(m, bp, base, v);
    var ptr', size', free', owner' := Join(m.ptr, m.size, p, bp, base, v.free, v.live, v.owner);
    HeadersOnly(m.ptr, m.size, base, v.free, v.live, v.owner, p, bp, ptr', size');
    m' := Vars(ptr', size', p);
    v' := View(free', v.live - {bp}, owner');
  }

  // morecore: the system's answer is a region of nu units that the heap does not own yet.
  method MoreCore(m: Vars, nu: nat, region: int, ghost base: int, ghost v: View) returns (m': Vars, ghost v': View)
    requires Ok(base, m, v) && 0 < nu && base < region && forall u | region <= u < region + nu :: u !in v.owner
    ensures Ok(base, m', v') && v'.live == v.live
    ensures v'.owner.Keys == v.owner.Keys + Fresh(region, nu).Keys
    ensures Untouched(v.live, v.owner, m.ptr, m.size, m'.ptr, m'.size)
    ensures SomeFit(m', v', nu)
  {
    GrowLive(m.ptr, m.size, base, v.free, v.live, v.owner, region, nu);
    var m1 := m.(size := m.size[region := nu]);
    ghost var v1 := v.(live := v.live + {region}, owner := v.owner + Fresh(region, nu));
    m', v' := FreeBlock(m1, region, base, v1);
    assert v'.live == v.live;
  }

  // A header word at x, in the free list, may change without touching a live block.
  lemma FreeWordOnly(base: int, m: Vars, v: View, x: int, w: int)
    requires Ok(base, m, v) && x in v.free
    ensures Untouched(v.live, v.owner, m.ptr, m.size, m.ptr[x := w], m.size)
  {
    assert x != base ==> x in m.size && Within(m.size, x, x);
  }

  // So may the size words at the start and inside a free block.
  lemma FreeSizesOnly(base: int, m: Vars, v: View, p: int, q: int, a: int, b: int)
    requires Ok(base, m, v) && p in v.free && p != base && p in m.size && p <= q < p + m.size[p]
    ensures Untouched(v.live, v.owner, m.ptr, m.size, m.ptr, m.size[p := a][q := b])
  {
    assert Within(m.size, p, p) && Within(m.size, p, q);
  }

  // malloc's success branch, exact fit: unlink the free block p, which follows prev.
  method TakeAll(m: Vars, prev: int, p: int, ghost base: int, ghost v: View) returns (m': Vars, ghost v': View)
    requires Ok(base, m, v) && prev in v.free && prev in m.ptr && p == m.ptr[prev] && p in v.free && p != base
    requires p in m.ptr
    ensures Ok(base, m', v') && m'.size == m.size && v'.live == v.live + {p} && v'.owner == v.owner
    ensures Untouched(v.live, v.owner, m.ptr, m.size, m'.ptr, m'.size) && m'.freep == prev
  {
    assert Linked(m.ptr, v.free, base, prev);
    TakeWhole(m.ptr, m.size, base, v.free, v.live, v.owner, prev, p);
    FreeWordOnly(base, m, v, prev, m.ptr[p]);
    m' := Vars(m.ptr[prev := m.ptr[p]], m.size, prev);
    v' := v.(free := v.free - {p}, live := v.live + {p});
  }

  // malloc's success branch, larger block: the last n units of free block p.
  method TakeLast(m: Vars, prev: int, p: int, n: nat, ghost base: int, ghost v: View)
    returns (m': Vars, ghost v': View, q: int)
    requires Ok(base, m, v) && prev in v.free && p in v.free && p != base && p in m.size && 0 < n < m.size[p]
    ensures q == p + m.size[p] - n && q !in v.live && q in m'.size && m'.size[q] == n
    ensures Ok(base, m', v') && v'.live == v.live + {q} && v'.owner.Keys == v.owner.Keys
    ensures Untouched(v.live, v.owner, m.ptr, m.size, m'.ptr, m'.size) && m'.freep == prev
  {
    q := p + (m.size[p] - n);
    TakeTail(m.ptr, m.size, base, v.free, v.live, v.owner, p, n, q);
    FreeSizesOnly(base, m, v, p, q, m.size[p] - n, n);
    m' := Vars(m.ptr, m.size[p := m.size[p] - n][q := n], prev);
    v' := v.(live := v.live + {q}, owner := Reowned(v.owner, q, q + n, q));
  }

  // Every free block outside the arc still to be scanned is too small.
  ghost predicate Scanned(m: Vars, v: View, prev: int, n: int) {
    forall z | z in v.free && z !in Arc(v.free, prev, m.freep) && z in m.size :: m.size[z] < n
  }

  // r is the payload of the last n units of the block behind prev, the first of that size on the way round
  // from freep.
  ghost predicate FirstFit(m: Vars, v: View, prev: int, n: int, r: int) {
    && prev in v.free && prev in m.ptr && m.ptr[prev] in m.size && m.size[m.ptr[prev]] >= n && Scanned(m, v, prev, n)
    && r - 1 == m.ptr[prev] + m.size[m.ptr[prev]] - n
  }

  // malloc's success branch: the last units of the block behind prev.
  method Take(m: Vars, prev: int, p: int, nunits: nat, ghost base: int, ghost v: View)
    returns (m': Vars, ghost v': View, r: int)
    requires Ok(base, m, v) && 0 < base && 0 < nunits && prev in v.free && prev in m.ptr && p == m.ptr[prev]
    requires p in v.free && p in m.ptr && p in m.size && m.size[p] >= nunits
    ensures Ok(base, m', v') && 1 < r && r - 1 !in v.live && v'.live == v.live + {r - 1}
    ensures r - 1 in m'.size && m'.size[r - 1] == nunits && v'.owner.Keys == v.owner.Keys
    ensures Untouched(v.live, v.owner, m.ptr, m.size, m'.ptr, m'.size)
    ensures Scanned(m, v, prev, nunits) ==> FirstFit(m, v, m'.freep, nunits, r)
  {
    assert p > base;
    if m.size[p] == nunits {
      m', v' := TakeAll(m, prev, p, base, v);
      r := p + 1;
    } else {
      var q;
      m', v', q := TakeLast(m, prev, p, nunits, base, v);
      r := q + 1;
    }
  }

  // Live blocks that are not touched keep their units.
  lemma UntouchedTrans(base: int, m: Vars, v: View, m1: Vars, v1: View, m2: Vars)
    requires Ok(base, m, v) && Ok(base, m1, v1) && v.live <= v1.live
    requires Untouched(v.live, v.owner, m.ptr, m.size, m1.ptr, m1.size)
    requires Untouched(v1.live, v1.owner, m1.ptr, m1.size, m2.ptr, m2.size)
    ensures Untouched(v.live, v.owner, m.ptr, m.size, m2.ptr, m2.size)
  {
    forall u | u in v.owner && v.owner[u] in v.live ensures u in v1.owner && v1.owner[u] == v.owner[u] {
      var a := v.owner[u];
      assert Within(m.size, a, a) && Within(m.size, a, u);
      assert Within(m1.size, a, u);
    }
  }

  // malloc's loop, started on m, has reached m'; `grew` tells whether it has called morecore.
  ghost predicate Looking(base: int, m: Vars, v: View, m': Vars, v': View, n: nat, region: int, nu: nat, grew: bool) {
    && Ok(base, m', v') && v'.live == v.live
    && (!grew ==> m' == m && v' == v)
    && (grew ==> SomeFit(m', v', n) && !SomeFit(m, v, n) && region != 0)
    && v'.owner.Keys == v.owner.Keys + (if grew then Fresh(region, nu).Keys else {})
    && Untouched(v.live, v.owner, m.ptr, m.size, m'.ptr, m'.size)
  }

  lemma NextBlock(base: int, m: Vars, v: View, prev: int)
    requires Ok(base, m, v) && prev in v.free && prev in m.ptr
    ensures m.ptr[prev] in v.free && m.ptr[prev] in m.ptr && m.ptr[prev] in m.size
  {
    assert Linked(m.ptr, v.free, base, prev);
    assert Linked(m.ptr, v.free, base, m.ptr[prev]);
  }

  // A block that is too small leaves a shorter arc to scan, or none.
  lemma TooSmall(base: int, m: Vars, v: View, prev: int, p: int, n: nat)
    requires Ok(base, m, v) && prev in v.free && prev in m.ptr && p == m.ptr[prev] && p in m.size && m.size[p] < n
    requires Scanned(m, v, prev, n)
    ensures p != m.freep ==> Scanned(m, v, p, n) && Arc(v.free, p, m.freep) < Arc(v.free, prev, m.freep)
    ensures p == m.freep ==> !SomeFit(m, v, n)
  {
    assert Linked(m.ptr, v.free, base, prev);
    ArcStep(v.free, base, prev, p, m.freep);
  }

  // malloc's loop: first fit from freep on; a full round without a fit asks the system for memory,
  // at most once, and then succeeds.
  method Allocate(m: Vars, nunits: nat, chunk: nat, region: int, ghost base: int, ghost v: View)
    returns (m': Vars, ghost v': View, r: int, ghost grew: bool)
    requires Ok(base, m, v) && 0 < base && 0 < nunits
    requires region != 0 ==> base < region
    requires region != 0 ==> forall u | region <= u < region + Max(nunits, chunk) :: u !in v.owner
    ensures Ok(base, m', v')
    ensures grew <==> !SomeFit(m, v, nunits) && region != 0
    ensures r == 0 <==> !SomeFit(m, v, nunits) && region == 0
    ensures r == 0 ==> m' == m && v' == v
    ensures r != 0 ==> r - 1 !in v.live && v'.live == v.live + {r - 1} && r - 1 in m'.size && m'.size[r - 1] == nunits
    ensures v'.owner.Keys == v.owner.Keys + (if grew then Fresh(region, Max(nunits, chunk)).Keys else {})
    ensures Untouched(v.live, v.owner, m.ptr, m.size, m'.ptr, m'.size)
    ensures r != 0 && !grew ==> FirstFit(m, v, m'.freep, nunits, r)
  {
    m', v', grew := m, v, false;
    var prev := m'.freep;
    assert Linked(m'.ptr, v'.free, base, prev);
    var p := m'.ptr[prev];
    while true
      invariant Looking(base, m, v, m', v', nunits, region, Max(nunits, chunk), grew)
      invariant prev in v'.free && prev in m'.ptr && p == m'.ptr[prev]
      invariant Scanned(m', v', prev, nunits)
      decreases !grew, Arc(v'.free, prev, m'.freep)
    {
      NextBlock(base, m', v', prev);
      if m'.size[p] >= nunits {
        ghost var m1, v1 := m', v';
        m', v', r := Take(m', prev, p, nunits, base, v');
        UntouchedTrans(base, m, v, m1, v1, m');
        return;
      }
      TooSmall(base, m', v', prev, p, nunits);
      if p == m'.freep {
        if region == 0 {
          r := 0;
          return;
        }
        m', v' := MoreCore(m', Max(nunits, chunk), region, base, v');
        grew := true;
        p := m'.freep;
        assert Linked(m'.ptr, v'.free, base, p);
      }
      prev := p;
      p := m'.ptr[p];
    }
  }

  class Heap {
    const base: int
    const chunk: nat
    var vars: Vars
    ghost var view: View

    // freep is 0 until the first malloc.
    ghost predicate Valid()
      reads this
    {
      && 0 < base && 0 < chunk
      && if vars.freep == 0 then view.live == {} && view.owner == map[] else Ok(base, vars, view)
    }

    constructor (base: int, chunk: nat)
      requires 0 < base && 0 < chunk
      ensures Valid() && view.live == {} && view.owner == map[] && this.base == base && this.chunk == chunk
    {
      this.base, this.chunk := base, chunk;
      vars := Vars(map[], map[], 0);
      view := View({}, {}, map[]);
    }

    // Some free block can serve a request for n units.
    ghost predicate CanServe(n: int)
      reads this
    {
      vars.freep != 0 && SomeFit(vars, view, n)
    }

    // The heap after a first call has set up the one-element list.
    method Start()
      requires Valid() && vars.freep == 0
      modifies this
      ensures Ok(base, vars, view) && view.live == {} && view.owner == map[]
      ensures forall n | 0 < n :: !SomeFit(vars, view, n)
    {
      vars := Vars(map[base := base], map[base := 0], base);
      view := View({base}, {}, map[]);
      assert Linked(vars.ptr, view.free, base, base);
    }

    // malloc.  `region` is sbrk's answer, 0 for failure: otherwise memory the heap does not own yet.
    method Malloc(nbytes: nat, region: int) returns (r: int)
      requires Valid() && nbytes < UINT
      requires region != 0 ==> base < region
      requires region != 0 ==> forall u | region <= u < region + Max(Nunits(nbytes), chunk) :: u !in view.owner
      modifies this
      ensures Valid()
      ensures r == 0 <==> !old(CanServe(Nunits(nbytes))) && region == 0
      ensures r == 0 ==> view.live == old(view.live) && view.owner == old(view.owner)
      ensures r != 0 ==> r - 1 !in old(view.live) && view.live == old(view.live) + {r - 1}
      ensures r != 0 ==> r - 1 in vars.size && vars.size[r - 1] == Nunits(nbytes)
      ensures r != 0 && nbytes + HEADER - 1 < UINT ==> nbytes <= (vars.size[r - 1] - 1) * HEADER
      ensures view.owner.Keys == old(view.owner).Keys +
                (if old(CanServe(Nunits(nbytes))) || region == 0 then {}
                  else Fresh(region, Max(Nunits(nbytes), chunk)).Keys)
      ensures Untouched(old(view.live), old(view.owner), old(vars.ptr), old(vars.size), vars.ptr, vars.size)
      ensures old(CanServe(Nunits(nbytes))) ==> FirstFit(old(vars), old(view), vars.freep, Nunits(nbytes), r)
    {
      if vars.freep == 0 {
        Start();
      }
      RoomIff(nbytes);
      var m', v', r', grew := Allocate(vars, Nunits(nbytes), chunk, region, base, view);
      vars, view, r := m', v', r';
    }

    // cfree of null or of a live block.
    method Cfree(ap: int) returns (r: int)
      requires Valid() && (ap != 0 ==> ap - 1 in view.live)
      modifies this
      ensures Valid()
      ensures ap == 0 ==> r == -1 && vars == old(vars) && view == old(view)
      ensures ap != 0 ==> r == 0 && view.live == old(view.live) - {ap - 1} && view.owner.Keys == old(view.owner).Keys
      ensures ap != 0 ==> ap - 1 in old(vars.size) && CanServe(old(vars.size)[ap - 1])
      ensures Untouched(view.live, old(view.owner), old(vars.ptr), old(vars.size), vars.ptr, vars.size)
    {
      if ap == 0 {
        return -1;
      }
      var m', v' := FreeBlock(vars, ap - 1, base, view);
      vars, view, r := m', v', 0;
    }

    // The program may store anything in the payload of a live block.
    method Store(a: int, u: int, p: int, n: int)
      requires Valid() && a in view.live && a in vars.size && a < u < a + vars.size[a]
      modifies this`vars
      ensures Valid() && vars == old(vars).(ptr := old(vars.ptr)[u := p], size := old(vars.size)[u := n])
    {
      PayloadFree(base, vars, view, a, u, p, n);
      vars := Vars(vars.ptr[u := p], vars.size[u := n], vars.freep);
    }
  }

  // Payload words are not header words, so the heap's shape does not depend on them.
  lemma PayloadTiled(size: Words, blocks: set<int>, owner: map<int, int>, a: int, u: int, n: int)
    requires Tiled(size, blocks, owner) && a in blocks && a < u < a + size[a]
    ensures u !in blocks && Tiled(size[u := n], blocks, owner)
  {
    assert Within(size, a, u);
    assert u in blocks ==> Within(size, u, u);
    var size' := size[u := n];
    forall x, z | x in blocks && Within(size', x, z) ensures z in owner && owner[z] == x {
      assert Within(size, x, z);
    }
  }

  lemma PayloadFree(base: int, m: Vars, v: View, a: int, u: int, p: int, n: int)
    requires Ok(base, m, v) && a in v.live && a in m.size && a < u < a + m.size[a]
    ensures Ok(base, m.(ptr := m.ptr[u := p], size := m.size[u := n]), v)
  {
    PayloadTiled(m.size, (v.free - {base}) + v.live, v.owner, a, u, n);
    assert u != base by { assert Within(m.size, a, u); }
    var ptr' := m.ptr[u := p];
    forall x {:trigger Linked(ptr', v.free, base, x)} | x in v.free ensures Linked(ptr', v.free, base, x) {
      assert Linked(m.ptr, v.free, base, x);
    }
  }

  // The free list as a list: in address order from base, each element points to the next and the
  // last one back to base.
  lemma CircularInOrder(ptr: Words, f: set<int>, base: int, s: seq<int>)
    requires Ring(ptr, f, base) && (forall x :: x in f <==> x in s)
    requires forall i, j | 0 <= i < j < |s| :: s[i] < s[j]
    ensures 0 < |s| && s[0] == base
    ensures forall i | 0 <= i < |s| :: s[i] in ptr && ptr[s[i]] == s[if i + 1 < |s| then i + 1 else 0]
  {
    assert base in s && s[0] in f;
    var k :| 0 <= k < |s| && s[k] == base;
    forall i | 0 <= i < |s| ensures s[i] in ptr && ptr[s[i]] == s[if i + 1 < |s| then i + 1 else 0] {
      assert Linked(ptr, f, base, s[i]);
      var j :| 0 <= j < |s| && s[j] == ptr[s[i]];
      if i + 1 < |s| {
        assert s[i + 1] in f;
        assert s[i] < s[j] <= s[i + 1];
      }
    }
  }
}
