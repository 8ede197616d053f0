/**
 The data structure behind malloc and cfree: a circular, address-ordered free
 list threaded through memory, and blocks that tile the memory obtained so far.

 Addresses count header-sized units.  `ptr` and `size` are the two words of the
 header at an address.  The free list always contains the static header `base`,
 which has size 0 and lies below all heap memory.
 */
module FreeList {

  type Words = map<int, int>

  // ------------------------------------------------------------ the ring

  // y follows x in address order; the highest element is followed by base.
  ghost predicate IsNext(f: set<int>, base: int, x: int, y: int) {
    y in f && if x < y then forall z | z in f :: z <= x || y <= z else y == base && forall z | z in f :: z <= x
  }

  ghost predicate Linked(ptr: Words, f: set<int>, base: int, x: int) {
    x in ptr && IsNext(f, base, x, ptr[x])
  }

  // The ptr words link the elements of f into one circle, in address order with one wrap.
  ghost predicate Ring(ptr: Words, f: set<int>, base: int) {
    && base in f
    && (forall z | z in f :: base <= z)
    && (forall x {:trigger Linked(ptr, f, base, x)} | x in f :: Linked(ptr, f, base, x))
  }

  // p is the last element below bp.
  ghost predicate Fits(f: set<int>, bp: int, p: int) {
    p in f && p < bp && forall z | z in f :: z <= p || bp < z
  }

  lemma LinkedInsert(ptr: Words, f: set<int>, base: int, p: int, bp: int, x: int)
    requires base in f && base <= p && Fits(f, bp, p) && Linked(ptr, f, base, p) && x in f + {bp}
    requires x == bp || Linked(ptr, f, base, x)
    ensures Linked(ptr[bp := ptr[p]][p := bp], f + {bp}, base, x)
  {
  }

  lemma RingInsert(ptr: Words, f: set<int>, base: int, p: int, bp: int)
    requires Ring(ptr, f, base) && Fits(f, bp, p) && Linked(ptr, f, base, p)
    ensures Ring(ptr[bp := ptr[p]][p := bp], f + {bp}, base)
  {
    var ptr', f' := ptr[bp := ptr[p]][p := bp], f + {bp};
    forall x {:trigger Linked(ptr', f', base, x)} | x in f' ensures Linked(ptr', f', base, x) {
      assert x in f ==> Linked(ptr, f, base, x);
      LinkedInsert(ptr, f, base, p, bp, x);
    }
  }

  // bp takes the place of the element after p.
  lemma RingReplace(ptr: Words, f: set<int>, base: int, p: int, bp: int)
    requires Ring(ptr, f, base) && Fits(f, bp, p) && Linked(ptr, f, base, p) && ptr[p] != base
    ensures Linked(ptr, f, base, ptr[p])
    ensures Ring(ptr[bp := ptr[ptr[p]]][p := bp], (f - {ptr[p]}) + {bp}, base)
  {
    var n := ptr[p];
    assert Linked(ptr, f, base, n);
    var ptr', f' := ptr[bp := ptr[n]][p := bp], (f - {n}) + {bp};
    forall x {:trigger Linked(ptr', f', base, x)} | x in f' ensures Linked(ptr', f', base, x) {
      assert x in f ==> Linked(ptr, f, base, x);
    }
  }

  // Unlink the element after p; words outside the ring may have changed too.
  lemma RingRemove(ptr: Words, ptr': Words, f: set<int>, base: int, p: int)
    requires Ring(ptr, f, base) && p in f && Linked(ptr, f, base, p) && ptr[p] != base
    requires Linked(ptr, f, base, ptr[p])
    requires p in ptr' && ptr'[p] == ptr[ptr[p]]
    requires forall x | x in f && x != p :: x in ptr && x in ptr' && ptr'[x] == ptr[x]
    ensures Ring(ptr', f - {ptr[p]}, base)
  {
    var n := ptr[p];
    var f' := f - {n};
    forall x {:trigger Linked(ptr', f', base, x)} | x in f' ensures Linked(ptr', f', base, x) {
      assert Linked(ptr, f, base, x);
    }
  }

  // ---------------------------------------------------------- the tiling

  // `owner` sends each unit of heap memory to the block that contains it: the blocks are non-empty,
  // pairwise disjoint, and cover exactly the domain of `owner`.
  ghost predicate Tiled(size: Words, blocks: set<int>, owner: map<int, int>) {
    && (forall a | a in blocks :: a in size && 0 < size[a])
    && (forall u | u in owner :: owner[u] in blocks && owner[u] <= u < owner[u] + size[owner[u]])
    && (forall a, u | a in blocks && Within(size, a, u) :: u in owner && owner[u] == a)
  }

  ghost predicate Within(size: Words, a: int, u: int) {
    a in size && a <= u < a + size[a]
  }

  ghost function Reowned(owner: map<int, int>, lo: int, hi: int, a: int): (r: map<int, int>)
    ensures r.Keys == owner.Keys
  {
    map u | u in owner :: if lo <= u < hi then a else owner[u]
  }

  // Two adjacent blocks become one.
  lemma Merge(size: Words, blocks: set<int>, owner: map<int, int>, a: int, b: int, blocks': set<int>)
    requires Tiled(size, blocks, owner) && a in blocks && b in blocks && a != b && a + size[a] == b
    requires blocks' == blocks - {b}
    ensures Tiled(size[a := size[a] + size[b]], blocks', Reowned(owner, b, b + size[b], a))
  {
    var size', owner' := size[a := size[a] + size[b]], Reowned(owner, b, b + size[b], a);
    forall u | u in owner' ensures owner'[u] in blocks' && owner'[u] <= u < owner'[u] + size'[owner'[u]] {
      if owner[u] == b { assert Within(size, b, u); }
    }
    forall x, u | x in blocks' && Within(size', x, u) ensures u in owner' && owner'[u] == x {
      assert Within(size, x, u) || (x == a && Within(size, b, u));
      if b <= u < b + size[b] { assert Within(size, b, u); }
    }
  }

  // The last n units of a block become a block of their own.
  lemma Split(size: Words, blocks: set<int>, owner: map<int, int>, a: int, n: int)
    requires Tiled(size, blocks, owner) && a in blocks && 0 < n < size[a]
    ensures var b := a + size[a] - n;
            && b !in blocks
            && Tiled(size[a := size[a] - n][b := n], blocks + {b}, Reowned(owner, b, b + n, b))
  {
    var b := a + size[a] - n;
    var size', blocks', owner' := size[a := size[a] - n][b := n], blocks + {b}, Reowned(owner, b, b + n, b);
    assert Within(size, a, b) && !(b in blocks && !Within(size, b, b));
    forall u | u in owner' ensures owner'[u] in blocks' && owner'[u] <= u < owner'[u] + size'[owner'[u]] {
      if owner[u] == a { assert Within(size, a, u); }
    }
    forall x, u | x in blocks' && Within(size', x, u) ensures u in owner' && owner'[u] == x {
      if x == b { assert Within(size, a, u); } else { assert Within(size, x, u); }
      if b <= u < b + n { assert Within(size, a, u); }
    }
  }

  ghost function Fresh(a: int, n: nat): (r: map<int, int>)
    ensures forall u :: (u in r <==> a <= u < a + n) && (u in r ==> r[u] == a)
  {
    if n == 0 then map[] else Fresh(a, n - 1)[a + n - 1 := a]
  }

  // Fresh memory joins as one block.
  lemma Grow(size: Words, blocks: set<int>, owner: map<int, int>, a: int, n: int)
    requires Tiled(size, blocks, owner) && 0 < n && forall u | a <= u < a + n :: u !in owner
    ensures a !in blocks
    ensures Tiled(size[a := n], blocks + {a}, owner + Fresh(a, n))
  {
    var size', blocks', owner' := size[a := n], blocks + {a}, owner + Fresh(a, n);
    assert a in blocks ==> Within(size, a, a);
    forall x, u | x in blocks' && Within(size', x, u) ensures u in owner' && owner'[u] == x {
      if x != a { assert Within(size, x, u); }
    }
  }

  // ------------------------------------------------------ the whole heap

  // Free list, live blocks and tiling together; no two free blocks are adjacent.
  ghost predicate Shape(ptr: Words, size: Words, base: int, free: set<int>, live: set<int>, owner: map<int, int>) {
    && Ring(ptr, free, base)
    && free !! live
    && Tiled(size, (free - {base}) + live, owner)
    && base in size && size[base] == 0
    && (forall u | u in owner :: base < u)
    && Apart(size, free)
  }

  ghost predicate Apart(size: Words, free: set<int>) {
    forall a, b | a in free && b in free && a in size :: a + size[a] != b || a == b
  }

  // A block contains no other block's header.
  lemma NoOverlap(size: Words, blocks: set<int>, owner: map<int, int>, a: int, b: int)
    requires Tiled(size, blocks, owner) && a in blocks && b in blocks && a != b
    ensures !(a <= b < a + size[a])
  {
    assert Within(size, b, b);
    assert Within(size, a, b) <==> a <= b < a + size[a];
  }

  // What cfree may rely on once its search has stopped at p.
  ghost predicate Found(ptr: Words, size: Words, base: int, free: set<int>, live: set<int>, owner: map<int, int>,
                        p: int, bp: int) {
    && Shape(ptr, size, base, free, live, owner)
    && bp in live && Fits(free, bp, p)
    && p in size && bp in size && Linked(ptr, free, base, p)
    && (ptr[p] != base ==> Linked(ptr, free, base, ptr[p]) && ptr[p] in size)
  }

  lemma FoundFacts(ptr: Words, size: Words, base: int, free: set<int>, live: set<int>, owner: map<int, int>, p: int,
                   bp: int)
    requires Shape(ptr, size, base, free, live, owner) && bp in live && Fits(free, bp, p)
    ensures Found(ptr, size, base, free, live, owner, p, bp)
    ensures base < bp && bp + size[bp] != base && base + size[base] != bp
  {
    assert Within(size, bp, bp);
    assert Linked(ptr, free, base, p);
    assert Linked(ptr, free, base, ptr[p]);
  }

  // No free block other than p ends where bp starts, and none other than its successor starts
  // where bp ends.
  lemma Neighbours(ptr: Words, size: Words, base: int, free: set<int>, live: set<int>, owner: map<int, int>, p: int,
                   bp: int, a: int)
    requires Found(ptr, size, base, free, live, owner, p, bp) && a in free && a in size
    ensures a + size[a] == bp ==> a == p
    ensures bp + size[bp] == a ==> a == ptr[p]
  {
    var blocks := (free - {base}) + live;
    if a != base && a != p && p != base { NoOverlap(size, blocks, owner, a, p); }
    if a != base && a != ptr[p] && ptr[p] != base { NoOverlap(size, blocks, owner, bp, ptr[p]); }
  }

  // Neither neighbour is adjacent: bp becomes a free block.
  lemma FreeAlone(ptr: Words, size: Words, base: int, free: set<int>, live: set<int>, owner: map<int, int>, p: int,
                  bp: int)
    requires Found(ptr, size, base, free, live, owner, p, bp)
    requires bp + size[bp] != ptr[p] && p + size[p] != bp
    ensures Shape(ptr[bp := ptr[p]][p := bp], size, base, free + {bp}, live - {bp}, owner)
  {
    RingInsert(ptr, free, base, p, bp);
    assert ((free + {bp}) - {base}) + (live - {bp}) == (free - {base}) + live;
    forall a | a in free && a in size ensures a + size[a] != bp && bp + size[bp] != a {
      Neighbours(ptr, size, base, free, live, owner, p, bp, a);
    }
  }

  lemma ApartUp(ptr: Words, size: Words, base: int, free: set<int>, live: set<int>, owner: map<int, int>, p: int,
                bp: int)
    requires Found(ptr, size, base, free, live, owner, p, bp) && ptr[p] != base && bp + size[bp] == ptr[p]
    requires p + size[p] != bp
    ensures Apart(size[bp := size[bp] + size[ptr[p]]], (free - {ptr[p]}) + {bp})
  {
    var n := ptr[p];
    var free', size' := (free - {n}) + {bp}, size[bp := size[bp] + size[n]];
    forall a, b | a in free' && b in free' && a in size' ensures a + size'[a] != b || a == b {
      if a != b && b == bp {
        Neighbours(ptr, size, base, free, live, owner, p, bp, a);
      } else if a == bp {
        assert n + size[n] != b || n == b;
      }
    }
  }

  lemma ApartDown(ptr: Words, size: Words, base: int, free: set<int>, live: set<int>, owner: map<int, int>, p: int,
                  bp: int)
    requires Found(ptr, size, base, free, live, owner, p, bp) && bp + size[bp] != ptr[p] && p + size[p] == bp
    ensures Apart(size[p := size[p] + size[bp]], free)
  {
    var size' := size[p := size[p] + size[bp]];
    forall a, b | a in free && b in free && a in size' ensures a + size'[a] != b || a == b {
      if a == p && b in size {
        Neighbours(ptr, size, base, free, live, owner, p, bp, b);
      }
    }
  }

  lemma ApartBoth(ptr: Words, size: Words, base: int, free: set<int>, live: set<int>, owner: map<int, int>, p: int,
                  bp: int)
    requires Found(ptr, size, base, free, live, owner, p, bp) && ptr[p] != base
    requires bp + size[bp] == ptr[p] && p + size[p] == bp
    ensures var size1 := size[bp := size[bp] + size[ptr[p]]];
            Apart(size1[p := size1[p] + size1[bp]], free - {ptr[p]})
  {
    var n := ptr[p];
    assert bp !in free;
    assert forall b | b in free :: n + size[n] != b || n == b;
  }

  // bp absorbs the free block above it.
  lemma FreeUp(ptr: Words, size: Words, base: int, free: set<int>, live: set<int>, owner: map<int, int>, p: int,
               bp: int, n: int)
    requires Found(ptr, size, base, free, live, owner, p, bp) && n == ptr[p] != base
    requires bp + size[bp] == n && p + size[p] != bp
    ensures Shape(ptr[bp := ptr[n]][p := bp], size[bp := size[bp] + size[n]], base, (free - {n}) + {bp}, live - {bp},
                  Reowned(owner, n, n + size[n], bp))
  {
    RingReplace(ptr, free, base, p, bp);
    Merge(size, (free - {base}) + live, owner, bp, n, ((free - {n}) + {bp} - {base}) + (live - {bp}));
    ApartUp(ptr, size, base, free, live, owner, p, bp);
  }

  // The free block below absorbs bp.
  lemma FreeDown(ptr: Words, size: Words, base: int, free: set<int>, live: set<int>, owner: map<int, int>, p: int,
                 bp: int)
    requires Found(ptr, size, base, free, live, owner, p, bp) && p != base
    requires bp + size[bp] != ptr[p] && p + size[p] == bp
    ensures Shape(ptr[bp := ptr[p]][p := ptr[p]], size[p := size[p] + size[bp]], base, free, live - {bp},
                  Reowned(owner, bp, bp + size[bp], p))
  {
    var ptr' := ptr[bp := ptr[p]][p := ptr[p]];
    forall x {:trigger Linked(ptr', free, base, x)} | x in free ensures Linked(ptr', free, base, x) {
      assert Linked(ptr, free, base, x);
    }
    Merge(size, (free - {base}) + live, owner, p, bp, (free - {base}) + (live - {bp}));
    ApartDown(ptr, size, base, free, live, owner, p, bp);
  }

  lemma RingBoth(ptr: Words, size: Words, base: int, free: set<int>, live: set<int>, owner: map<int, int>, p: int,
                 bp: int)
    requires Found(ptr, size, base, free, live, owner, p, bp) && ptr[p] != base
    ensures Ring(ptr[bp := ptr[ptr[p]]][p := ptr[ptr[p]]], free - {ptr[p]}, base)
  {
    var ptr' := ptr[bp := ptr[ptr[p]]][p := ptr[ptr[p]]];
    assert bp !in free;
    forall x | x in free && x != p ensures x in ptr && x in ptr' && ptr'[x] == ptr[x] {
      assert Linked(ptr, free, base, x);
    }
    RingRemove(ptr, ptr', free, base, p);
  }

  // Three adjacent blocks become one.
  lemma MergeThree(size: Words, blocks: set<int>, owner: map<int, int>, p: int, bp: int, n: int, size': Words,
                   blocks': set<int>)
    requires Tiled(size, blocks, owner) && p in blocks && bp in blocks && n in blocks && p < bp < n
    requires bp + size[bp] == n && p + size[p] == bp && blocks' == blocks - {n} - {bp}
    requires p in size' && size'[p] == size[p] + size[bp] + size[n]
    requires forall x | x in blocks' && x != p :: x in size' && size'[x] == size[x]
    ensures Tiled(size', blocks', Reowned(owner, bp, n + size[n], p))
  {
    var owner' := Reowned(owner, bp, n + size[n], p);
    forall u | u in owner' ensures owner'[u] in blocks' && owner'[u] <= u < owner'[u] + size'[owner'[u]] {
      if owner[u] == bp { assert Within(size, bp, u); }
      if owner[u] == n { assert Within(size, n, u); }
    }
    forall x, u | x in blocks' && Within(size', x, u) ensures u in owner' && owner'[u] == x {
      assert Within(size, x, u) || (x == p && (Within(size, bp, u) || Within(size, n, u)));
      if bp <= u < n + size[n] { assert Within(size, bp, u) || Within(size, n, u); }
    }
  }

  // The free block below absorbs bp and the free block above it.
  lemma FreeBoth(ptr: Words, size: Words, base: int, free: set<int>, live: set<int>, owner: map<int, int>, p: int,
                 bp: int, n: int, size1: Words)
    requires Found(ptr, size, base, free, live, owner, p, bp) && n == ptr[p] != base && p != base
    requires bp + size[bp] == n && p + size[p] == bp && size1 == size[bp := size[bp] + size[n]]
    ensures Shape(ptr[bp := ptr[n]][p := ptr[n]], size1[p := size1[p] + size1[bp]], base, free - {n}, live - {bp},
                  Reowned(owner, bp, n + size[n], p))
  {
    RingBoth(ptr, size, base, free, live, owner, p, bp);
    ApartBoth(ptr, size, base, free, live, owner, p, bp);
    MergeThree(size, (free - {base}) + live, owner, p, bp, n, size1[p := size1[p] + size1[bp]],
               ((free - {n}) - {base}) + (live - {bp}));
  }

  // malloc takes the whole free block p, the one after prev.
  lemma TakeWhole(ptr: Words, size: Words, base: int, free: set<int>, live: set<int>, owner: map<int, int>, prev: int,
                  p: int)
    requires Shape(ptr, size, base, free, live, owner) && prev in free && prev in ptr && p == ptr[prev] != base
    requires p in ptr
    ensures Shape(ptr[prev := ptr[p]], size, base, free - {p}, live + {p}, owner)
  {
    assert Linked(ptr, free, base, prev) && Linked(ptr, free, base, p);
    var ptr' := ptr[prev := ptr[p]];
    forall x | x in free && x != prev ensures x in ptr && x in ptr' && ptr'[x] == ptr[x] {
      assert Linked(ptr, free, base, x);
    }
    RingRemove(ptr, ptr', free, base, prev);
    assert ((free - {p}) - {base}) + (live + {p}) == (free - {base}) + live;
  }

  // malloc takes the last n units of free block p, as a block at q.
  lemma TakeTail(ptr: Words, size: Words, base: int, free: set<int>, live: set<int>, owner: map<int, int>, p: int,
                 n: int, q: int)
    requires Shape(ptr, size, base, free, live, owner) && p in free && p != base && p in size
    requires 0 < n < size[p] && q == p + size[p] - n
    ensures q !in free && q !in live
    ensures Shape(ptr, size[p := size[p] - n][q := n], base, free, live + {q}, Reowned(owner, q, q + n, q))
  {
    Split(size, (free - {base}) + live, owner, p, n);
    assert ((free - {base}) + live) + {q} == (free - {base}) + (live + {q});
    assert q != base by { assert Within(size, p, p); }
  }

  // Fresh memory arrives as a live block, which morecore then frees.
  lemma GrowLive(ptr: Words, size: Words, base: int, free: set<int>, live: set<int>, owner: map<int, int>, a: int,
                 n: nat)
    requires Shape(ptr, size, base, free, live, owner) && 0 < n && base < a
    requires forall u | a <= u < a + n :: u !in owner
    ensures a !in free && a !in live
    ensures Shape(ptr, size[a := n], base, free, live + {a}, owner + Fresh(a, n))
  {
    Grow(size, (free - {base}) + live, owner, a, n);
    assert ((free - {base}) + live) + {a} == (free - {base}) + (live + {a});
  }
}
