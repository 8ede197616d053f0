/**
 Two-level page tables in physical memory: a page directory of 1024 words names page
 tables of 1024 words, which name frames.  Virtual pages below KERNPAGES are user memory.
 */
module PageTable {

  const ENTRIES := 1024           // words per page, entries per directory and per table
  const KERNPAGES := 0x8_0000     // KERNBASE / PGSIZE
  const VPAGES := 0x10_0000       // virtual pages in all

  type Page = seq<nat>
  type Mem = seq<Page>            // physical memory, by frame number

  predicate IsPage(p: Page) {
    |p| == ENTRIES
  }

  function Fill(w: nat): (r: Page)
    ensures IsPage(r) && forall k | 0 <= k < ENTRIES :: r[k] == w
  {
    seq(ENTRIES, k => w)
  }

  // An entry is a frame number and twelve flag bits; bit 0 is PTE_P.
  const PTE_P := 1
  const PTE_W := 2
  const PTE_U := 4

  predicate Present(w: nat) { w % 2 == 1 }

  function Addr(w: nat): nat { w / 0x1000 }

  function Flags(w: nat): nat { w % 0x1000 }

  // pa | perm | PTE_P for frame f
  function Make(f: nat, perm: nat): (w: nat)
    requires perm < 0x1000
    ensures Present(w) && Addr(w) == f && Flags(w) == if Present(perm) then perm else perm + 1
  {
    var q := if perm % 2 == 1 then perm else perm + 1;
    EntryParts(f, q);
    0x1000 * f + q
  }

  lemma EntryParts(f: nat, q: nat)
    requires q < 0x1000
    ensures (0x1000 * f + q) / 0x1000 == f && (0x1000 * f + q) % 0x1000 == q && (0x1000 * f + q) % 2 == q % 2
  {
    assert 0x1000 * f + q == 2 * (0x800 * f) + q;
  }

  ghost predicate Formed(mem: Mem, dirs: set<nat>) {
    && (forall f | 0 <= f < |mem| :: |mem[f]| == ENTRIES)
    && (forall d | d in dirs :: d < |mem|)
  }

  // Memory with word k of frame f set to w.
  function Store(mem: Mem, f: nat, k: nat, w: nat): (r: Mem)
    requires f < |mem| && k < |mem[f]|
    ensures |r| == |mem| && |r[f]| == |mem[f]|
  {
    var page: Page := mem[f][k := w];
    mem[f := page]
  }

  // The entry for virtual page n in the address space of directory d; 0 without a page table.
  function Pte(mem: Mem, d: nat, n: nat): nat
    requires d < |mem| && n < VPAGES && forall f | 0 <= f < |mem| :: |mem[f]| == ENTRIES
  {
    var w := mem[d][n / ENTRIES];
    if Present(w) && Addr(w) < |mem| then mem[Addr(w)][n % ENTRIES] else 0
  }

  // -------------------------------------------------------- who owns a frame

  // A place that names a frame: an address space, a directory entry, a user page's entry.
  datatype Slot = Dir(d: nat) | Tab(d: nat, i: nat) | Pg(d: nat, n: nat)

  ghost predicate Here(mem: Mem, dirs: set<nat>, s: Slot)
    requires Formed(mem, dirs)
  {
    && s.d in dirs
    && match s
       case Dir(d) => true
       case Tab(d, i) => i < ENTRIES && Present(mem[d][i])
       case Pg(d, n) => n < KERNPAGES && Present(Pte(mem, d, n))
  }

  ghost function Frame(mem: Mem, dirs: set<nat>, s: Slot): nat
    requires Formed(mem, dirs) && Here(mem, dirs, s)
  {
    match s
    case Dir(d) => d
    case Tab(d, i) => Addr(mem[d][i])
    case Pg(d, n) => Addr(Pte(mem, d, n))
  }

  // Every frame in use is named by exactly one slot.
  ghost predicate Owned(mem: Mem, dirs: set<nat>, own: map<nat, Slot>)
    requires Formed(mem, dirs)
  {
    && (forall s | Here(mem, dirs, s) :: Frame(mem, dirs, s) in own && own[Frame(mem, dirs, s)] == s)
    && (forall f | f in own :: 0 < f < |mem| && Here(mem, dirs, own[f]) && Frame(mem, dirs, own[f]) == f)
  }

  ghost predicate Inv(mem: Mem, dirs: set<nat>, own: map<nat, Slot>) {
    Formed(mem, dirs) && Owned(mem, dirs, own)
  }

  lemma DirsOwned(mem: Mem, dirs: set<nat>, own: map<nat, Slot>)
    requires Inv(mem, dirs, own)
    ensures forall d | d in dirs :: d in own && own[d] == Dir(d)
  {
    forall d | d in dirs ensures d in own && own[d] == Dir(d) {
      assert Here(mem, dirs, Dir(d)) && Frame(mem, dirs, Dir(d)) == d;
    }
  }

  // ----------------------------------------------------------- what is kept

  // Page n of address space x has the same entry and, for a user page, the same contents.
  ghost predicate SameView(mem: Mem, mem': Mem, dirs: set<nat>, x: nat, n: nat)
    requires Formed(mem, dirs) && Formed(mem', dirs) && x in dirs && n < VPAGES
  {
    && Pte(mem', x, n) == Pte(mem, x, n)
    && (n < KERNPAGES && Present(Pte(mem, x, n)) && Addr(Pte(mem, x, n)) < |mem| ==>
          Addr(Pte(mem, x, n)) < |mem'| && mem'[Addr(Pte(mem, x, n))] == mem[Addr(Pte(mem, x, n))])
  }

  ghost predicate SameSpace(mem: Mem, mem': Mem, dirs: set<nat>, x: nat)
    requires Formed(mem, dirs) && Formed(mem', dirs) && x in dirs
  {
    forall n: nat | n < VPAGES :: SameView(mem, mem', dirs, x, n)
  }

  ghost predicate AllSame(mem: Mem, mem': Mem, dirs: set<nat>)
    requires Formed(mem, dirs) && Formed(mem', dirs)
  {
    forall x | x in dirs :: SameSpace(mem, mem', dirs, x)
  }

  // Only page n of address space d may differ.
  ghost predicate SameBut(mem: Mem, mem': Mem, dirs: set<nat>, d: nat, n: nat)
    requires Formed(mem, dirs) && Formed(mem', dirs)
  {
    forall x, m: nat | x in dirs && m < VPAGES && !(x == d && m == n) :: SameView(mem, mem', dirs, x, m)
  }

  // ------------------------------------------------------- writing a frame

  // f holds no directory and no page table.
  ghost predicate Plain(mem: Mem, dirs: set<nat>, f: nat)
    requires Formed(mem, dirs)
  {
    && f !in dirs
    && forall d, i | d in dirs && 0 <= i < ENTRIES && Present(mem[d][i]) :: Addr(mem[d][i]) != f
  }

  lemma PlainIf(mem: Mem, dirs: set<nat>, own: map<nat, Slot>, f: nat)
    requires Inv(mem, dirs, own) && (f in own ==> own[f].Pg?)
    ensures Plain(mem, dirs, f)
  {
    DirsOwned(mem, dirs, own);
    forall d, i | d in dirs && 0 <= i < ENTRIES && Present(mem[d][i]) ensures Addr(mem[d][i]) != f {
      assert Here(mem, dirs, Tab(d, i));
    }
  }

  lemma PlainPtes(mem: Mem, dirs: set<nat>, f: nat, page: Page)
    requires Formed(mem, dirs) && f < |mem| && IsPage(page) && Plain(mem, dirs, f)
    ensures Formed(mem[f := page], dirs)
    ensures forall x, n: nat | x in dirs && n < VPAGES :: Pte(mem[f := page], x, n) == Pte(mem, x, n)
  {
  }

  // The same slots name the same frames: ownership is the same.
  ghost predicate SameSlot(mem: Mem, mem': Mem, dirs: set<nat>, s: Slot)
    requires Formed(mem, dirs) && Formed(mem', dirs)
  {
    && (Here(mem', dirs, s) <==> Here(mem, dirs, s))
    && (Here(mem, dirs, s) ==> Frame(mem', dirs, s) == Frame(mem, dirs, s))
  }

  lemma SameOwner(mem: Mem, mem': Mem, dirs: set<nat>, own: map<nat, Slot>)
    requires Inv(mem, dirs, own) && Formed(mem', dirs) && |mem'| == |mem|
    requires forall s :: SameSlot(mem, mem', dirs, s)
    ensures Inv(mem', dirs, own)
  {
    forall s | Here(mem', dirs, s) ensures Frame(mem', dirs, s) in own && own[Frame(mem', dirs, s)] == s {
      assert SameSlot(mem, mem', dirs, s);
    }
    forall f | f in own ensures Here(mem', dirs, own[f]) && Frame(mem', dirs, own[f]) == f {
      assert SameSlot(mem, mem', dirs, own[f]);
    }
  }

  // A frame nobody owns may be overwritten.
  lemma WriteUnowned(mem: Mem, dirs: set<nat>, own: map<nat, Slot>, f: nat, page: Page)
    requires Inv(mem, dirs, own) && f !in own && f < |mem| && IsPage(page)
    ensures Inv(mem[f := page], dirs, own) && AllSame(mem, mem[f := page], dirs)
  {
    var mem' := mem[f := page];
    PlainIf(mem, dirs, own, f);
    PlainPtes(mem, dirs, f, page);
    forall s ensures SameSlot(mem, mem', dirs, s) {}
    SameOwner(mem, mem', dirs, own);
    forall x, n: nat | x in dirs && n < VPAGES ensures SameView(mem, mem', dirs, x, n) {
      if n < KERNPAGES && Present(Pte(mem, x, n)) {
        assert Here(mem, dirs, Pg(x, n)) && Frame(mem, dirs, Pg(x, n)) in own;
      }
    }
  }

  // ------------------------------------------------------ adding and removing

  // Slot s appears, naming f; every other slot is as before.
  lemma AddOwner(mem: Mem, mem': Mem, dirs: set<nat>, own: map<nat, Slot>, s: Slot, f: nat)
    requires Inv(mem, dirs, own) && Formed(mem', dirs) && |mem'| == |mem|
    requires !Here(mem, dirs, s) && Here(mem', dirs, s) && Frame(mem', dirs, s) == f && f !in own && 0 < f < |mem|
    requires forall t | t != s :: SameSlot(mem, mem', dirs, t)
    ensures Inv(mem', dirs, own[f := s])
  {
    var own' := own[f := s];
    forall t | Here(mem', dirs, t) ensures Frame(mem', dirs, t) in own' && own'[Frame(mem', dirs, t)] == t {
      if t != s { assert SameSlot(mem, mem', dirs, t); }
    }
    forall g | g in own' ensures Here(mem', dirs, own'[g]) && Frame(mem', dirs, own'[g]) == g {
      if g != f { assert SameSlot(mem, mem', dirs, own[g]); }
    }
  }

  lemma DropOwner(mem: Mem, mem': Mem, dirs: set<nat>, own: map<nat, Slot>, s: Slot, f: nat)
    requires Inv(mem, dirs, own) && Formed(mem', dirs) && |mem'| == |mem|
    requires Here(mem, dirs, s) && !Here(mem', dirs, s) && Frame(mem, dirs, s) == f
    requires forall t | t != s :: SameSlot(mem, mem', dirs, t)
    ensures f in own && Inv(mem', dirs, own - {f})
  {
    var own' := own - {f};
    forall t | Here(mem', dirs, t) ensures Frame(mem', dirs, t) in own' && own'[Frame(mem', dirs, t)] == t {
      assert SameSlot(mem, mem', dirs, t);
    }
    forall g | g in own' ensures Here(mem', dirs, own'[g]) && Frame(mem', dirs, own'[g]) == g {
      assert SameSlot(mem, mem', dirs, own[g]);
    }
  }

  // A zeroed frame becomes page table i of d: no entry changes.
  lemma LinkTable(mem: Mem, dirs: set<nat>, own: map<nat, Slot>, d: nat, i: nat, f: nat, perm: nat)
    requires Inv(mem, dirs, own) && d in dirs && i < ENTRIES && !Present(mem[d][i]) && perm < 0x1000
    requires f !in own && 0 < f < |mem| && mem[f] == Fill(0)
    ensures Inv(Store(mem, d, i, Make(f, perm)), dirs, own[f := Tab(d, i)])
    ensures AllSame(mem, Store(mem, d, i, Make(f, perm)), dirs)
  {
    var mem' := Store(mem, d, i, Make(f, perm));
    assert Here(mem, dirs, Dir(d)) && Frame(mem, dirs, Dir(d)) == d && f != d;
    PtesLinked(mem, dirs, own, d, i, f, perm);
    forall t | t != Tab(d, i) ensures SameSlot(mem, mem', dirs, t) {}
    AddOwner(mem, mem', dirs, own, Tab(d, i), f);
    forall x, n: nat | x in dirs && n < VPAGES ensures SameView(mem, mem', dirs, x, n) {
      if n < KERNPAGES && Present(Pte(mem, x, n)) {
        assert Here(mem, dirs, Pg(x, n)) && Frame(mem, dirs, Pg(x, n)) in own;
      }
    }
  }

  lemma PtesLinked(mem: Mem, dirs: set<nat>, own: map<nat, Slot>, d: nat, i: nat, f: nat, perm: nat)
    requires Inv(mem, dirs, own) && d in dirs && i < ENTRIES && !Present(mem[d][i]) && perm < 0x1000
    requires f !in own && 0 < f < |mem| && mem[f] == Fill(0) && f != d
    ensures Formed(Store(mem, d, i, Make(f, perm)), dirs)
    ensures forall x, n: nat | x in dirs && n < VPAGES :: Pte(Store(mem, d, i, Make(f, perm)), x, n) == Pte(mem, x, n)
  {
    var mem' := Store(mem, d, i, Make(f, perm));
    forall x, n: nat | x in dirs && n < VPAGES ensures Pte(mem', x, n) == Pte(mem, x, n) {
      if Present(mem[x][n / ENTRIES]) {
        assert Here(mem, dirs, Tab(x, n / ENTRIES)) && own[Addr(mem[x][n / ENTRIES])] == Tab(x, n / ENTRIES);
        assert Here(mem, dirs, Dir(d));
      }
    }
  }

  // Storing w as entry k of page table t, which is table i of d, changes only page 1024 i + k of d.
  lemma PtesStored(mem: Mem, dirs: set<nat>, own: map<nat, Slot>, d: nat, n: nat, t: nat, w: nat)
    requires Inv(mem, dirs, own) && d in dirs && n < VPAGES && Present(mem[d][n / ENTRIES])
    requires t == Addr(mem[d][n / ENTRIES])
    ensures t < |mem| && t !in dirs && t in own && own[t] == Tab(d, n / ENTRIES)
    ensures Formed(Store(mem, t, n % ENTRIES, w), dirs) && Pte(Store(mem, t, n % ENTRIES, w), d, n) == w
    ensures forall x, m: nat | x in dirs && m < VPAGES && !(x == d && m == n) ::
      Pte(Store(mem, t, n % ENTRIES, w), x, m) == Pte(mem, x, m)
  {
    assert Here(mem, dirs, Tab(d, n / ENTRIES)) && Frame(mem, dirs, Tab(d, n / ENTRIES)) == t;
    DirsOwned(mem, dirs, own);
    var mem' := Store(mem, t, n % ENTRIES, w);
    forall x, m: nat | x in dirs && m < VPAGES && !(x == d && m == n) ensures Pte(mem', x, m) == Pte(mem, x, m) {
      if Present(mem[x][m / ENTRIES]) && Addr(mem[x][m / ENTRIES]) == t {
        assert Here(mem, dirs, Tab(x, m / ENTRIES)) && Frame(mem, dirs, Tab(x, m / ENTRIES)) == t;
        assert m % ENTRIES != n % ENTRIES;
      }
    }
  }

  lemma StoredSame(mem: Mem, dirs: set<nat>, own: map<nat, Slot>, d: nat, n: nat, t: nat, w: nat)
    requires Inv(mem, dirs, own) && d in dirs && n < VPAGES && Present(mem[d][n / ENTRIES])
    requires t == Addr(mem[d][n / ENTRIES])
    ensures t < |mem| && Formed(Store(mem, t, n % ENTRIES, w), dirs)
    ensures SameBut(mem, Store(mem, t, n % ENTRIES, w), dirs, d, n)
    ensures forall s | s != Pg(d, n) :: SameSlot(mem, Store(mem, t, n % ENTRIES, w), dirs, s)
  {
    PtesStored(mem, dirs, own, d, n, t, w);
    var mem' := Store(mem, t, n % ENTRIES, w);
    forall x, m: nat | x in dirs && m < VPAGES && !(x == d && m == n) ensures SameView(mem, mem', dirs, x, m) {
      if m < KERNPAGES && Present(Pte(mem, x, m)) {
        assert Here(mem, dirs, Pg(x, m)) && Frame(mem, dirs, Pg(x, m)) != t;
      }
    }
    forall s | s != Pg(d, n) ensures SameSlot(mem, mem', dirs, s) {}
  }

  // A user page mapped to a frame nobody owned.
  lemma MapUser(mem: Mem, dirs: set<nat>, own: map<nat, Slot>, d: nat, n: nat, t: nat, f: nat, perm: nat)
    requires Inv(mem, dirs, own) && d in dirs && n < KERNPAGES && Present(mem[d][n / ENTRIES])
    requires t == Addr(mem[d][n / ENTRIES])
    requires !Present(Pte(mem, d, n)) && f !in own && 0 < f < |mem| && perm < 0x1000
    ensures t < |mem| && Inv(Store(mem, t, n % ENTRIES, Make(f, perm)), dirs, own[f := Pg(d, n)])
    ensures SameBut(mem, Store(mem, t, n % ENTRIES, Make(f, perm)), dirs, d, n)
    ensures Pte(Store(mem, t, n % ENTRIES, Make(f, perm)), d, n) == Make(f, perm) && t != f
  {
    PtesStored(mem, dirs, own, d, n, t, Make(f, perm));
    StoredSame(mem, dirs, own, d, n, t, Make(f, perm));
    AddOwner(mem, Store(mem, t, n % ENTRIES, Make(f, perm)), dirs, own, Pg(d, n), f);
  }

  // A user page unmapped: its frame is nobody's.
  lemma UnmapUser(mem: Mem, dirs: set<nat>, own: map<nat, Slot>, d: nat, n: nat, t: nat, f: nat)
    requires Inv(mem, dirs, own) && d in dirs && n < KERNPAGES && Present(mem[d][n / ENTRIES])
    requires t == Addr(mem[d][n / ENTRIES])
    requires Present(Pte(mem, d, n)) && f == Addr(Pte(mem, d, n))
    ensures t < |mem| && f in own && own[f] == Pg(d, n) && Inv(Store(mem, t, n % ENTRIES, 0), dirs, own - {f})
    ensures SameBut(mem, Store(mem, t, n % ENTRIES, 0), dirs, d, n)
    ensures Pte(Store(mem, t, n % ENTRIES, 0), d, n) == 0
  {
    PtesStored(mem, dirs, own, d, n, t, 0);
    StoredSame(mem, dirs, own, d, n, t, 0);
    assert Here(mem, dirs, Pg(d, n)) && Frame(mem, dirs, Pg(d, n)) == f;
    DropOwner(mem, Store(mem, t, n % ENTRIES, 0), dirs, own, Pg(d, n), f);
  }

  // A kernel page's entry belongs to no user page.
  lemma MapKernel(mem: Mem, dirs: set<nat>, own: map<nat, Slot>, d: nat, n: nat, t: nat, w: nat)
    requires Inv(mem, dirs, own) && d in dirs && KERNPAGES <= n < VPAGES && Present(mem[d][n / ENTRIES])
    requires t == Addr(mem[d][n / ENTRIES])
    ensures t < |mem| && Inv(Store(mem, t, n % ENTRIES, w), dirs, own)
    ensures SameBut(mem, Store(mem, t, n % ENTRIES, w), dirs, d, n)
    ensures Pte(Store(mem, t, n % ENTRIES, w), d, n) == w
  {
    PtesStored(mem, dirs, own, d, n, t, w);
    StoredSame(mem, dirs, own, d, n, t, w);
    var mem' := Store(mem, t, n % ENTRIES, w);
    forall s ensures SameSlot(mem, mem', dirs, s) {
      if s != Pg(d, n) { assert SameSlot(mem, mem', dirs, s); }
    }
    SameOwner(mem, mem', dirs, own);
  }

  // --------------------------------------------------------- address spaces

  // A zeroed frame becomes an empty address space.
  lemma NewSpace(mem: Mem, dirs: set<nat>, own: map<nat, Slot>, d: nat)
    requires Inv(mem, dirs, own) && d !in own && 0 < d < |mem| && mem[d] == Fill(0)
    ensures d !in dirs && Inv(mem, dirs + {d}, own[d := Dir(d)])
    ensures forall n: nat | n < VPAGES :: Pte(mem, d, n) == 0
  {
    DirsOwned(mem, dirs, own);
    var dirs', own' := dirs + {d}, own[d := Dir(d)];
    forall n: nat | n < VPAGES ensures Pte(mem, d, n) == 0 {
      assert mem[d][n / ENTRIES] == 0;
    }
    forall s | Here(mem, dirs', s) ensures Frame(mem, dirs', s) in own' && own'[Frame(mem, dirs', s)] == s {
      if s.d != d {
        assert Here(mem, dirs, s) && Frame(mem, dirs, s) == Frame(mem, dirs', s);
      }
    }
    forall f | f in own' ensures Here(mem, dirs', own'[f]) && Frame(mem, dirs', own'[f]) == f {
      if f != d {
        assert Here(mem, dirs, own[f]) && Frame(mem, dirs, own[f]) == Frame(mem, dirs', own[f]);
      }
    }
  }

  // The frames of address space d.
  ghost function Frames(own: map<nat, Slot>, d: nat): (r: set<nat>)
    ensures forall f :: f in r <==> f in own && own[f].d == d
  {
    set f | f in own && own[f].d == d
  }

  // An address space given up: its frames are nobody's.
  lemma DropSpace(mem: Mem, dirs: set<nat>, own: map<nat, Slot>, d: nat)
    requires Inv(mem, dirs, own) && d in dirs
    ensures Inv(mem, dirs - {d}, own - Frames(own, d))
  {
    var dirs', own' := dirs - {d}, own - Frames(own, d);
    forall s | Here(mem, dirs', s) ensures Frame(mem, dirs', s) in own' && own'[Frame(mem, dirs', s)] == s {
      assert Here(mem, dirs, s) && Frame(mem, dirs, s) == Frame(mem, dirs', s);
    }
    forall f | f in own' ensures Here(mem, dirs', own'[f]) && Frame(mem, dirs', own'[f]) == f {
      assert Here(mem, dirs, own[f]) && Frame(mem, dirs, own[f]) == f;
    }
  }
}
