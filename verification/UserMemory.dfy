/**
 User memory of vm.c: allocuvm, deallocuvm, freevm and copyuvm refine a partial map from
 virtual pages to zeroed, copied or given-up pages, and account for every frame.
 */
module UserMemory {
  import opened PageTable
  import opened Vm

  function Min(a: int, b: int): int {
    if a < b then a else b
  }

  // The user pages of d are exactly those below k.
  ghost predicate Sized(mem: Mem, d: nat, k: nat)
    requires d < |mem| && forall f | 0 <= f < |mem| :: |mem[f]| == ENTRIES
  {
    forall n: nat | n < KERNPAGES :: Present(Pte(mem, d, n)) <==> n < k
  }

  // ------------------------------------------------------------- deallocuvm

  // One round on a present page: its frame is freed and its entry cleared.
  method UnmapPage(vm: Vm, d: nat, n: nat, t: nat, ghost dirs: set<nat>, ghost own: map<nat, Slot>)
    returns (vm': Vm, ghost own': map<nat, Slot>)
    requires Ok(vm, dirs, own) && d in dirs && n < KERNPAGES && Present(vm.mem[d][n / ENTRIES])
    requires t == Addr(vm.mem[d][n / ENTRIES]) && Present(Pte(vm.mem, d, n))
    ensures Ok(vm', dirs, own') && |vm'.mem| == |vm.mem| && Uses(vm', own') == Uses(vm, own) && Extends(own', own)
    ensures vm'.mem[d] == vm.mem[d] && !Present(Pte(vm'.mem, d, n)) && SameBut(vm.mem, vm'.mem, dirs, d, n)
    ensures PagesGone(own, own', d)
  {
    PtesStored(vm.mem, dirs, own, d, n, t, 0);
    var f := Addr(vm.mem[t][n % ENTRIES]);
    UnmapUser(vm.mem, dirs, own, d, n, t, f);
    DirsOwned(vm.mem, dirs, own);
    ghost var vm1 := vm.(mem := Store(vm.mem, t, n % ENTRIES, 0));
    own' := own - {f};
    KfreeOk(vm1, dirs, own', f);
    vm' := Kfree(vm, f);
    vm' := vm'.(mem := Store(vm'.mem, t, n % ENTRIES, 0));
    assert vm' == Kfree(vm1, f);
    forall x, m: nat | x in dirs && m < VPAGES && !(x == d && m == n) ensures SameView(vm.mem, vm'.mem, dirs, x, m) {
      assert SameView(vm.mem, vm1.mem, dirs, x, m) && SameSpace(vm1.mem, vm'.mem, dirs, x);
      ViewTrans(vm.mem, vm1.mem, vm'.mem, dirs, x, m);
    }
    assert SameSpace(vm1.mem, vm'.mem, dirs, d) && SameView(vm1.mem, vm'.mem, dirs, d, n);
  }

  // Only user pages of d lost their frames.
  ghost predicate PagesGone(own: map<nat, Slot>, own': map<nat, Slot>, d: nat) {
    forall f | f in own && f !in own' :: own[f].Pg? && own[f].d == d
  }

  // Pages lo..a of d are gone; all else is as in vm.
  ghost predicate Cleared(vm: Vm, vm': Vm, dirs: set<nat>, own: map<nat, Slot>, own': map<nat, Slot>, d: nat, lo: nat,
                          a: nat)
    requires Ok(vm, dirs, own) && d in dirs && a <= KERNPAGES
  {
    && Ok(vm', dirs, own') && |vm'.mem| == |vm.mem| && Uses(vm', own') == Uses(vm, own) && Extends(own', own)
    && PagesGone(own, own', d) && vm'.mem[d] == vm.mem[d] && Elsewhere(vm.mem, vm'.mem, dirs, d, lo, a)
    && Unmapped(vm'.mem, d, lo, a)
  }

  lemma ClearedNext(vm: Vm, vm1: Vm, vm2: Vm, dirs: set<nat>, own: map<nat, Slot>, own1: map<nat, Slot>,
                    own2: map<nat, Slot>, d: nat, lo: nat, a: nat)
    requires Ok(vm, dirs, own) && d in dirs && lo <= a < KERNPAGES && Cleared(vm, vm1, dirs, own, own1, d, lo, a)
    requires Ok(vm2, dirs, own2) && |vm2.mem| == |vm1.mem| && Uses(vm2, own2) == Uses(vm1, own1) && Extends(own2, own1)
    requires PagesGone(own1, own2, d) && vm2.mem[d] == vm1.mem[d] && !Present(Pte(vm2.mem, d, a))
    requires SameBut(vm1.mem, vm2.mem, dirs, d, a)
    ensures Cleared(vm, vm2, dirs, own, own2, d, lo, a + 1)
  {
    ElsewhereNext(vm.mem, vm1.mem, vm2.mem, dirs, d, lo, a);
    ExtendsTrans(own2, own1, own);
    forall m: nat | lo <= m < a + 1 ensures !Present(Pte(vm2.mem, d, m)) {
      if m < a { assert SameView(vm1.mem, vm2.mem, dirs, d, m); }
    }
  }

  // Pages that were not present anyway.
  lemma ClearedSkip(vm: Vm, vm1: Vm, dirs: set<nat>, own: map<nat, Slot>, own1: map<nat, Slot>, d: nat, lo: nat, a: nat,
                    a': nat)
    requires Ok(vm, dirs, own) && d in dirs && lo <= a <= a' <= KERNPAGES && Cleared(vm, vm1, dirs, own, own1, d, lo, a)
    requires Unmapped(vm1.mem, d, a, a')
    ensures Cleared(vm, vm1, dirs, own, own1, d, lo, a')
  {
    ElsewhereWider(vm.mem, vm1.mem, dirs, d, lo, a, a');
    forall m: nat | lo <= m < a' ensures !Present(Pte(vm1.mem, d, m)) {}
  }

  // With no page table at page a, which starts a table, nothing up to page a + 1024 is mapped.
  lemma AlignedJump(mem: Mem, dirs: set<nat>, d: nat, a: nat, hi: nat)
    requires Formed(mem, dirs) && d in dirs && a < hi <= KERNPAGES && a % ENTRIES == 0 && !Present(mem[d][a / ENTRIES])
    ensures Unmapped(mem, d, a, Min(a + ENTRIES, hi))
  {
    forall m: nat | a <= m < Min(a + ENTRIES, hi) ensures !Present(Pte(mem, d, m)) {
      assert m / ENTRIES == a / ENTRIES;
    }
  }

  // The first directory entry from i to j with a page table; j if there is none.
  function FirstTable(dir: Page, i: nat, j: nat): (r: nat)
    requires i <= j <= |dir|
    ensures i <= r <= j && (r < j ==> Present(dir[r])) && forall k | i <= k < r :: !Present(dir[k])
    decreases j - i
  {
    if i == j || Present(dir[i]) then i else FirstTable(dir, i + 1, j)
  }

  // The first page table among those of pages lo..hi.
  function TableFrom(dir: Page, lo: nat, hi: nat): (t: nat)
    requires IsPage(dir) && lo <= hi <= KERNPAGES && 0 < hi
    ensures lo / ENTRIES <= t
  {
    FirstTable(dir, lo / ENTRIES, (hi - 1) / ENTRIES + 1)
  }

  // Where deallocuvm starts to free: the jumps over missing page tables keep the offset of lo.
  function Reached(dir: Page, lo: nat, hi: nat): (r: nat)
    requires IsPage(dir) && lo <= hi <= KERNPAGES && 0 < hi
    ensures lo <= r <= hi
  {
    var t := TableFrom(dir, lo, hi);
    if t == lo / ENTRIES then lo else Min(ENTRIES * t + lo % ENTRIES, hi)
  }

  // The start of the first page table; from there to Reached pages are passed over.
  function Passed(dir: Page, lo: nat, hi: nat): (r: nat)
    requires IsPage(dir) && lo <= hi <= KERNPAGES && 0 < hi
    ensures lo <= r <= Reached(dir, lo, hi)
  {
    var t := TableFrom(dir, lo, hi);
    if t == lo / ENTRIES then lo else Min(ENTRIES * t, hi)
  }

  // Jumps over missing page tables lead from page lo to page a.
  ghost predicate Jumps(dir: Page, lo: nat, a: nat) {
    && IsPage(dir) && lo <= a && a % ENTRIES == lo % ENTRIES
    && forall i | lo / ENTRIES <= i < a / ENTRIES && i < ENTRIES :: !Present(dir[i])
  }

  lemma JumpOn(dir: Page, lo: nat, a: nat)
    requires Jumps(dir, lo, a) && a / ENTRIES < ENTRIES && !Present(dir[a / ENTRIES])
    ensures Jumps(dir, lo, a + ENTRIES)
  {
    assert (a + ENTRIES) / ENTRIES == a / ENTRIES + 1;
  }

  lemma ReachedIs(dir: Page, lo: nat, hi: nat, b: nat)
    requires Jumps(dir, lo, b) && lo <= hi <= KERNPAGES && 0 < hi && (b < hi ==> Present(dir[b / ENTRIES]))
    ensures Reached(dir, lo, hi) == Min(b, hi)
  {
    var t := TableFrom(dir, lo, hi);
    assert b == ENTRIES * (b / ENTRIES) + lo % ENTRIES;
    if b < hi {
      assert t == b / ENTRIES;
    } else if t < b / ENTRIES {
      assert t == (hi - 1) / ENTRIES + 1;
    }
  }

  // deallocuvm's loop at page a: it jumped from lo to b, and has cleared the pages from there.
  ghost predicate Clearing(vm: Vm, vm': Vm, dirs: set<nat>, own: map<nat, Slot>, own': map<nat, Slot>, d: nat, lo: nat,
                           hi: nat, b: nat, a: nat)
    requires Ok(vm, dirs, own) && d in dirs && hi <= KERNPAGES
  {
    && Jumps(vm.mem[d], lo, b) && b <= a && Cleared(vm, vm', dirs, own, own', d, Min(b, hi), Min(a, hi))
    && (b == a ==> vm' == vm && own' == own)
    && (b < a ==> b < hi && Present(vm.mem[d][b / ENTRIES]))
    && (b < a < hi ==> a % ENTRIES == 0 || Present(vm.mem[d][a / ENTRIES]))
  }

  lemma ClearingStart(vm: Vm, dirs: set<nat>, own: map<nat, Slot>, d: nat, lo: nat, hi: nat)
    requires Ok(vm, dirs, own) && d in dirs && hi <= KERNPAGES
    ensures Clearing(vm, vm, dirs, own, own, d, lo, hi, lo, lo)
  {
    ElsewhereSelf(vm.mem, dirs, d, Min(lo, hi), Min(lo, hi));
  }

  lemma ClearingJump(vm: Vm, dirs: set<nat>, own: map<nat, Slot>, d: nat, lo: nat, hi: nat, a: nat)
    requires Ok(vm, dirs, own) && d in dirs && a < hi <= KERNPAGES && Jumps(vm.mem[d], lo, a)
    requires !Present(vm.mem[d][a / ENTRIES])
    ensures Clearing(vm, vm, dirs, own, own, d, lo, hi, a + ENTRIES, a + ENTRIES)
  {
    JumpOn(vm.mem[d], lo, a);
    ElsewhereSelf(vm.mem, dirs, d, Min(a + ENTRIES, hi), Min(a + ENTRIES, hi));
  }

  // One round of deallocuvm at page a.
  method ClearPage(vm1: Vm, d: nat, a: nat, ghost vm: Vm, ghost lo: nat, ghost hi: nat, ghost b: nat,
                   ghost dirs: set<nat>, ghost own: map<nat, Slot>, ghost own1: map<nat, Slot>)
    returns (vm': Vm, a': nat, ghost own': map<nat, Slot>, ghost b': nat)
    requires Ok(vm, dirs, own) && d in dirs && a < hi <= KERNPAGES
    requires Clearing(vm, vm1, dirs, own, own1, d, lo, hi, b, a)
    ensures a < a' && Clearing(vm, vm', dirs, own, own', d, lo, hi, b', a')
  {
    var vm0, t, ok, own0 := Walk(vm1, d, a, false, dirs, own1);
    a', vm', own', b' := a, vm1, own1, b;
    if !ok {
      a' := a + (ENTRIES - 1);
      if b == a {
        ClearingJump(vm, dirs, own, d, lo, hi, a);
        b' := a + ENTRIES;
      } else {
        AlignedJump(vm1.mem, dirs, d, a, hi);
        ClearedSkip(vm, vm1, dirs, own, own1, d, b, a, Min(a + ENTRIES, hi));
      }
    } else if Present(vm1.mem[t][a % ENTRIES]) {
      vm', own' := UnmapPage(vm1, d, a, t, dirs, own1);
      ClearedNext(vm, vm1, vm', dirs, own, own1, own', d, b, a);
    } else {
      ClearedSkip(vm, vm1, dirs, own, own1, d, b, a, a + 1);
    }
    a' := a' + 1;
  }

  // The pages passed over are all that deallocuvm leaves.
  lemma PassedOver(vm: Vm, vm': Vm, dirs: set<nat>, own: map<nat, Slot>, own': map<nat, Slot>, d: nat, lo: nat, hi: nat)
    requires Ok(vm, dirs, own) && d in dirs && lo <= hi <= KERNPAGES && 0 < hi
    requires Cleared(vm, vm', dirs, own, own', d, Reached(vm.mem[d], lo, hi), hi)
    ensures Unmapped(vm.mem, d, lo, Passed(vm.mem[d], lo, hi))
    ensures Unmapped(vm'.mem, d, lo, hi) <==> Unmapped(vm.mem, d, Passed(vm.mem[d], lo, hi), Reached(vm.mem[d], lo, hi))
    ensures Elsewhere(vm.mem, vm'.mem, dirs, d, lo, hi)
  {
    var p, r := Passed(vm.mem[d], lo, hi), Reached(vm.mem[d], lo, hi);
    forall n: nat | lo <= n < r
      ensures Present(Pte(vm'.mem, d, n)) == Present(Pte(vm.mem, d, n)) && (n < p ==> !Present(Pte(vm.mem, d, n)))
    {
      assert SameView(vm.mem, vm'.mem, dirs, d, n);
    }
  }

  // deallocuvm gives up the pages from PGROUNDUP(newsz) to oldsz, save for those it jumps over:
  // when the first page has no page table, the jumps enter the next one at the same offset.
  method Deallocuvm(vm: Vm, d: nat, oldsz: nat, newsz: nat, ghost dirs: set<nat>, ghost own: map<nat, Slot>)
    returns (vm': Vm, r: nat, ghost own': map<nat, Slot>)
    requires Ok(vm, dirs, own) && d in dirs && oldsz <= KERNBASE
    ensures newsz >= oldsz ==> r == oldsz && vm' == vm && own' == own
    ensures newsz < oldsz ==> r == newsz && Up(newsz) <= Up(oldsz) <= KERNPAGES && 0 < Up(oldsz)
    ensures newsz < oldsz ==>
      Cleared(vm, vm', dirs, own, own', d, Reached(vm.mem[d], Up(newsz), Up(oldsz)), Up(oldsz))
    ensures newsz < oldsz ==> Formed(vm'.mem, dirs) && Elsewhere(vm.mem, vm'.mem, dirs, d, Up(newsz), Up(oldsz))
    ensures newsz < oldsz ==>
      (Unmapped(vm'.mem, d, Up(newsz), Up(oldsz)) <==>
       Unmapped(vm.mem, d, Passed(vm.mem[d], Up(newsz), Up(oldsz)), Reached(vm.mem[d], Up(newsz), Up(oldsz))))
  {
    vm', own' := vm, own;
    if newsz >= oldsz {
      return vm, oldsz, own;
    }
    ghost var lo, hi := Up(newsz), Up(oldsz);
    var a: nat := Up(newsz);
    ghost var b: nat := a;
    ClearingStart(vm, dirs, own, d, lo, hi);
    while a * PGSIZE < oldsz
      invariant Clearing(vm, vm', dirs, own, own', d, lo, hi, b, a)
      decreases oldsz - a * PGSIZE
    {
      vm', a, own', b := ClearPage(vm', d, a, vm, lo, hi, b, dirs, own, own');
    }
    ReachedIs(vm.mem[d], lo, hi, b);
    PassedOver(vm, vm', dirs, own, own', d, lo, hi);
    r := newsz;
  }

  // User memory that is contiguous from 0 has nothing that the jumps could pass over.
  lemma SizedNotPassed(mem: Mem, dirs: set<nat>, d: nat, k: nat, lo: nat, hi: nat)
    requires Formed(mem, dirs) && d in dirs && lo <= hi <= KERNPAGES && 0 < hi && Sized(mem, d, k)
    ensures Unmapped(mem, d, Passed(mem[d], lo, hi), Reached(mem[d], lo, hi))
  {
    var p, r := Passed(mem[d], lo, hi), Reached(mem[d], lo, hi);
    if p < r {
      assert Pte(mem, d, lo) == 0;
    }
  }

  // Memory in which the one user page is the first of page table 1, and page table 0 is missing.
  function Gapped(): Vm {
    Vm([Fill(0), Fill(0)[1 := Make(2, PTE_W + PTE_U)], Fill(0)[0 := Make(3, PTE_W + PTE_U)], Fill(0)], [])
  }

  lemma GappedOk()
    ensures Ok(Gapped(), {1}, map[1 := Dir(1), 2 := Tab(1, 1), 3 := Pg(1, ENTRIES)])
    ensures Present(Pte(Gapped().mem, 1, ENTRIES))
  {
    var mem, own := Gapped().mem, map[1 := Dir(1), 2 := Tab(1, 1), 3 := Pg(1, ENTRIES)];
    assert mem[1][1] == Make(2, PTE_W + PTE_U) && mem[2][0] == Make(3, PTE_W + PTE_U);
    assert Pte(mem, 1, ENTRIES) == Make(3, PTE_W + PTE_U);
    forall s | Here(mem, {1}, s) ensures Frame(mem, {1}, s) in own && own[Frame(mem, {1}, s)] == s {
      if s.Pg? {
        assert s.n / ENTRIES == 1 && s.n % ENTRIES == 0;
      }
    }
  }

  // Shrinking it to one page claims success and leaves that page mapped.
  method JumpOver() returns (vm': Vm, r: nat)
    ensures r == PGSIZE && |vm'.mem| == 4 && (forall f | 0 <= f < 4 :: |vm'.mem[f]| == ENTRIES)
    ensures Present(Pte(vm'.mem, 1, ENTRIES))
  {
    GappedOk();
    ghost var own := map[1 := Dir(1), 2 := Tab(1, 1), 3 := Pg(1, ENTRIES)];
    ghost var own';
    ghost var dir := Gapped().mem[1];
    assert FirstTable(dir, 0, 2) == 1;
    assert Passed(dir, 1, ENTRIES + 1) == ENTRIES && Reached(dir, 1, ENTRIES + 1) == ENTRIES + 1;
    assert Up(PGSIZE) == 1 && Up((ENTRIES + 1) * PGSIZE) == ENTRIES + 1;
    vm', r, own' := Deallocuvm(Gapped(), 1, (ENTRIES + 1) * PGSIZE, PGSIZE, {1}, own);
    assert SameView(Gapped().mem, vm'.mem, {1}, 1, ENTRIES);
  }

  // ----------------------------------------------------------------- freevm

  // Frames of d that freevm has still to free when it is at directory entry i.
  ghost function Left(own: map<nat, Slot>, d: nat, i: nat): (r: set<nat>)
    ensures forall f :: f in r <==> f in own && own[f].d == d && !(own[f].Tab? && own[f].i < i)
  {
    set f | f in own && own[f].d == d && !(own[f].Tab? && own[f].i < i)
  }

  ghost predicate Freeing(vm: Vm, vm': Vm, dirs: set<nat>, own: map<nat, Slot>, d: nat, i: nat)
    requires Ok(vm, dirs, own) && d in dirs
  {
    && Ok(vm', dirs - {d}, own - Frames(own, d)) && |vm'.mem| == |vm.mem| && vm'.mem[d] == vm.mem[d]
    && AllSame(vm.mem, vm'.mem, dirs - {d})
    && Uses(vm', own - Frames(own, d)) == Uses(vm, own) - Left(own, d, i)
    && (forall f | f in Left(own, d, i) :: f !in vm'.free)
  }

  lemma FreeingStart(vm: Vm, dirs: set<nat>, own: map<nat, Slot>, d: nat)
    requires Ok(vm, dirs, own) && d in dirs
    ensures Freeing(vm, vm, dirs, own, d, 0)
  {
    DropSpace(vm.mem, dirs, own, d);
    AllSameSelf(vm.mem, dirs - {d});
    assert Left(own, d, 0) == Frames(own, d);
  }

  lemma FreeFrame(vm: Vm, vm1: Vm, dirs: set<nat>, own: map<nat, Slot>, d: nat, i: nat, f: nat)
    requires Ok(vm, dirs, own) && d in dirs && Freeing(vm, vm1, dirs, own, d, i) && f in Left(own, d, i)
    ensures 0 < f < |vm1.mem| && Ok(Kfree(vm1, f), dirs - {d}, own - Frames(own, d))
    ensures AllSame(vm.mem, Kfree(vm1, f).mem, dirs - {d})
    ensures Uses(Kfree(vm1, f), own - Frames(own, d)) == Uses(vm, own) - (Left(own, d, i) - {f})
  {
    KfreeOk(vm1, dirs - {d}, own - Frames(own, d), f);
    AllSameTrans(vm.mem, vm1.mem, Kfree(vm1, f).mem, dirs - {d});
    assert f in Uses(vm, own);
  }

  // The page table at entry i, if there is one, is freed.
  method FreeTable(vm: Vm, vm1: Vm, d: nat, i: nat, ghost dirs: set<nat>, ghost own: map<nat, Slot>) returns (vm': Vm)
    requires Ok(vm, dirs, own) && d in dirs && i < ENTRIES && Freeing(vm, vm1, dirs, own, d, i)
    ensures Freeing(vm, vm', dirs, own, d, i + 1)
  {
    DirsOwned(vm.mem, dirs, own);
    var w := vm1.mem[d][i];
    if Present(w) {
      ghost var s := Tab(d, i);
      assert Here(vm.mem, dirs, s) && Frame(vm.mem, dirs, s) == Addr(w);
      FreeFrame(vm, vm1, dirs, own, d, i, Addr(w));
      vm' := Kfree(vm1, Addr(w));
      forall f | f in Left(own, d, i) && f != Addr(w) ensures f in Left(own, d, i + 1) {
        assert Frame(vm.mem, dirs, own[f]) == f;
      }
      assert Left(own, d, i + 1) == Left(own, d, i) - {Addr(w)};
    } else {
      vm' := vm1;
      assert Left(own, d, i + 1) == Left(own, d, i);
    }
  }

  // When the user pages and the page tables are gone, only the directory is left.
  lemma OnlyDir(mem: Mem, dirs: set<nat>, own: map<nat, Slot>, d: nat)
    requires Inv(mem, dirs, own) && d in dirs && Unmapped(mem, d, 0, KERNPAGES)
    ensures Left(own, d, ENTRIES) == {d}
  {
    DirsOwned(mem, dirs, own);
    forall f | f in Left(own, d, ENTRIES) ensures f == d {
      assert Here(mem, dirs, own[f]) && Frame(mem, dirs, own[f]) == f;
    }
  }

  lemma SpacesKept(m0: Mem, m1: Mem, m2: Mem, dirs: set<nat>, d: nat)
    requires Formed(m0, dirs) && Formed(m1, dirs) && Formed(m2, dirs - {d}) && |m1| == |m0|
    requires Elsewhere(m0, m1, dirs, d, 0, KERNPAGES) && AllSame(m1, m2, dirs - {d})
    ensures AllSame(m0, m2, dirs - {d})
  {
    forall x, n: nat | x in dirs - {d} && n < VPAGES ensures SameView(m0, m2, dirs - {d}, x, n) {
      assert SameView(m0, m1, dirs, x, n) && SameSpace(m1, m2, dirs - {d}, x);
      assert SameView(m0, m1, dirs - {d}, x, n);
      ViewTrans(m0, m1, m2, dirs - {d}, x, n);
    }
  }

  lemma SameRest(own: map<nat, Slot>, own1: map<nat, Slot>, d: nat)
    requires Extends(own1, own) && PagesGone(own, own1, d)
    ensures own1 - Frames(own1, d) == own - Frames(own, d)
  {
  }

  // The page tables, then the directory.
  method FreeTables(vm: Vm, d: nat, ghost dirs: set<nat>, ghost own: map<nat, Slot>) returns (vm': Vm)
    requires Ok(vm, dirs, own) && d in dirs && Unmapped(vm.mem, d, 0, KERNPAGES)
    ensures Ok(vm', dirs - {d}, own - Frames(own, d)) && |vm'.mem| == |vm.mem| && AllSame(vm.mem, vm'.mem, dirs - {d})
    ensures Uses(vm', own - Frames(own, d)) == Uses(vm, own)
  {
    vm' := vm;
    FreeingStart(vm, dirs, own, d);
    var i := 0;
    while i < ENTRIES
      invariant 0 <= i <= ENTRIES && Freeing(vm, vm', dirs, own, d, i)
    {
      vm' := FreeTable(vm, vm', d, i, dirs, own);
      i := i + 1;
    }
    OnlyDir(vm.mem, dirs, own, d);
    FreeFrame(vm, vm', dirs, own, d, ENTRIES, d);
    vm' := Kfree(vm', d);
  }

  // freevm returns every frame of the address space to the allocator, each exactly once, and
  // leaves every other address space as it was.
  method Freevm(vm: Vm, d: nat, ghost dirs: set<nat>, ghost own: map<nat, Slot>)
    returns (vm': Vm, ghost own': map<nat, Slot>)
    requires Ok(vm, dirs, own) && d in dirs
    ensures Ok(vm', dirs - {d}, own') && |vm'.mem| == |vm.mem| && AllSame(vm.mem, vm'.mem, dirs - {d})
    ensures Uses(vm', own') == Uses(vm, own) && own' == own - Frames(own, d)
  {
    var vm1, r, own1 := Deallocuvm(vm, d, KERNBASE, 0, dirs, own);
    vm' := FreeTables(vm1, d, dirs, own1);
    own' := own1 - Frames(own1, d);
    SpacesKept(vm.mem, vm1.mem, vm'.mem, dirs, d);
    SameRest(own, own1, d);
  }

  // --------------------------------------------------------------- allocuvm

  // Frames needed to map pages a..hi: one each, and one for each missing page table.
  function Cost(dir: Page, a: nat, hi: nat): int
    requires hi <= KERNPAGES && IsPage(dir)
  {
    hi - a + Tables(dir, a, hi)
  }

  lemma CostLast(dir: Page, lo: nat, a: nat)
    requires IsPage(dir) && lo <= a < KERNPAGES
    ensures Cost(dir, lo, a + 1) == Cost(dir, lo, a) + if NewTable(dir, lo, a) then 2 else 1
  {
    TablesLast(dir, lo, a);
  }

  lemma CostMore(dir: Page, lo: nat, a: nat, b: nat)
    requires IsPage(dir) && lo <= a <= b <= KERNPAGES
    ensures Cost(dir, lo, a) + (b - a) <= Cost(dir, lo, b)
  {
    TablesMore(dir, lo, a, b);
  }

  // Mapping pages lo..a + 1 with `free` frames loses the last of them: it went to page a, whose page
  // table cannot be had any more.
  predicate LeakAt(dir: Page, lo: nat, a: nat, free: nat)
    requires IsPage(dir) && a < KERNPAGES
  {
    Cost(dir, lo, a + 1) == free + 1 && NewTable(dir, lo, a)
  }

  // No frame is lost where the frames suffice for the whole range, or run out between two pages.
  lemma NoLeak(dir: Page, lo: nat, a: nat, hi: nat, free: nat)
    requires IsPage(dir) && lo <= a <= hi <= KERNPAGES
    requires Cost(dir, lo, a) == free || (a == hi && Cost(dir, lo, a) <= free)
    ensures !exists x: nat | lo <= x < hi :: LeakAt(dir, lo, x, free)
  {
    forall x: nat | lo <= x < hi ensures !LeakAt(dir, lo, x, free) {
      if x < a {
        CostMore(dir, lo, x + 1, a);
      } else {
        CostMore(dir, lo, a, x);
        CostLast(dir, lo, x);
      }
    }
  }

  // A zeroed page the user may write.
  ghost predicate Zeroed(mem: Mem, d: nat, n: nat)
    requires d < |mem| && n < VPAGES && forall f | 0 <= f < |mem| :: |mem[f]| == ENTRIES
  {
    var w := Pte(mem, d, n);
    Present(w) && Flags(w) == PTE_P + PTE_W + PTE_U && Addr(w) < |mem| && mem[Addr(w)] == Fill(0)
  }

  // Pages lo..a of d are new and zero, all else is as in vm, and the frames in `lost` leaked.
  ghost predicate Grown(vm: Vm, vm': Vm, dirs: set<nat>, own: map<nat, Slot>, own': map<nat, Slot>, d: nat, lo: nat,
                        a: nat, lost: set<nat>)
    requires Ok(vm, dirs, own) && d in dirs && a <= KERNPAGES
  {
    && Ok(vm', dirs, own') && |vm'.mem| == |vm.mem| && Uses(vm', own') == Uses(vm, own) - lost
    && Elsewhere(vm.mem, vm'.mem, dirs, d, lo, a)
    && forall n: nat | lo <= n < a :: Zeroed(vm'.mem, d, n)
  }

  datatype Grant = Mapped | NoFrame | Leaked

  // kalloc, fill the frame, and mappages it at user page n.  When mappages fails, the frame is lost.
  method NewPage(vm: Vm, d: nat, n: nat, page: Page, perm: nat, ghost dirs: set<nat>, ghost own: map<nat, Slot>)
    returns (vm': Vm, ok: bool, ghost f: nat, ghost own': map<nat, Slot>)
    requires Ok(vm, dirs, own) && d in dirs && n < KERNPAGES && !Present(Pte(vm.mem, d, n)) && vm.free != []
    requires IsPage(page) && perm < PGSIZE
    ensures Ok(vm', dirs, own') && |vm'.mem| == |vm.mem| && SameBut(vm.mem, vm'.mem, dirs, d, n)
    ensures forall i | 0 <= i < ENTRIES && i != n / ENTRIES :: vm'.mem[d][i] == vm.mem[d][i]
    ensures ok <==> |vm.free| > 1 || Present(vm.mem[d][n / ENTRIES])
    ensures !ok ==> vm'.mem[d] == vm.mem[d] && vm'.free == [] && own' == own
    ensures !ok ==> Uses(vm', own') == Uses(vm, own) - {f} && AllSame(vm.mem, vm'.mem, dirs)
    ensures ok ==> Pte(vm'.mem, d, n) == Make(f, perm) && f < |vm'.mem| && vm'.mem[f] == page
    ensures ok ==> Uses(vm', own') == Uses(vm, own) && Present(vm'.mem[d][n / ENTRIES])
    ensures ok ==> |vm'.free| == |vm.free| - 1 - (if Present(vm.mem[d][n / ENTRIES]) then 0 else 1)
  {
    var vm1, g := KallocFilled(vm, page, dirs, own);
    assert SameSpace(vm.mem, vm1.mem, dirs, d) && SameView(vm.mem, vm1.mem, dirs, d, n);
    vm', ok, own' := MapUserPage(vm1, d, n, g, perm, dirs, own);
    f := g;
    if ok {
      ButTrans(vm.mem, vm1.mem, vm'.mem, dirs, d, n);
    }
  }

  // One round of allocuvm: a zeroed frame at page n.  The result of mappages is ignored, so a
  // frame for which no page table can be had is lost.
  method AllocPage(vm: Vm, d: nat, n: nat, ghost dirs: set<nat>, ghost own: map<nat, Slot>)
    returns (vm': Vm, grant: Grant, ghost f: nat, ghost own': map<nat, Slot>)
    requires Ok(vm, dirs, own) && d in dirs && n < KERNPAGES && !Present(Pte(vm.mem, d, n))
    ensures Ok(vm', dirs, own') && |vm'.mem| == |vm.mem| && SameBut(vm.mem, vm'.mem, dirs, d, n)
    ensures forall i | 0 <= i < ENTRIES && i != n / ENTRIES :: vm'.mem[d][i] == vm.mem[d][i]
    ensures grant.NoFrame? <==> vm.free == []
    ensures grant.NoFrame? ==> vm' == vm && own' == own
    ensures grant.Leaked? <==> |vm.free| == 1 && !Present(vm.mem[d][n / ENTRIES])
    ensures grant.Leaked? ==> vm'.mem[d] == vm.mem[d] && vm'.free == [] && own' == own
    ensures grant.Leaked? ==> Uses(vm', own') == Uses(vm, own) - {f} && AllSame(vm.mem, vm'.mem, dirs)
    ensures grant.Mapped? ==> Zeroed(vm'.mem, d, n) && Uses(vm', own') == Uses(vm, own)
    ensures grant.Mapped? ==> Present(vm'.mem[d][n / ENTRIES])
    ensures grant.Mapped? ==> |vm'.free| == |vm.free| - 1 - (if Present(vm.mem[d][n / ENTRIES]) then 0 else 1)
  {
    if vm.free == [] {
      AllSameSelf(vm.mem, dirs);
      return vm, NoFrame, 0, own;
    }
    var ok;
    vm', ok, f, own' := NewPage(vm, d, n, Fill(0), PTE_W + PTE_U, dirs, own);
    grant := if ok then Mapped else Leaked;
  }

  lemma GrownNext(vm: Vm, vm1: Vm, vm2: Vm, dirs: set<nat>, own: map<nat, Slot>, own1: map<nat, Slot>,
                  own2: map<nat, Slot>, d: nat, lo: nat, a: nat)
    requires Ok(vm, dirs, own) && d in dirs && lo <= a < KERNPAGES && Grown(vm, vm1, dirs, own, own1, d, lo, a, {})
    requires Ok(vm2, dirs, own2) && |vm2.mem| == |vm1.mem| && SameBut(vm1.mem, vm2.mem, dirs, d, a)
    requires Zeroed(vm2.mem, d, a) && Uses(vm2, own2) == Uses(vm1, own1)
    ensures Grown(vm, vm2, dirs, own, own2, d, lo, a + 1, {})
  {
    ElsewhereNext(vm.mem, vm1.mem, vm2.mem, dirs, d, lo, a);
    forall n: nat | lo <= n < a ensures Zeroed(vm2.mem, d, n) {
      assert Zeroed(vm1.mem, d, n) && SameView(vm1.mem, vm2.mem, dirs, d, n);
    }
  }

  lemma GrownLeak(vm: Vm, vm1: Vm, vm2: Vm, dirs: set<nat>, own: map<nat, Slot>, own1: map<nat, Slot>, d: nat, lo: nat,
                  a: nat, f: nat)
    requires Ok(vm, dirs, own) && d in dirs && lo <= a < KERNPAGES && Grown(vm, vm1, dirs, own, own1, d, lo, a, {})
    requires Ok(vm2, dirs, own1) && |vm2.mem| == |vm1.mem| && AllSame(vm1.mem, vm2.mem, dirs)
    requires Uses(vm2, own1) == Uses(vm1, own1) - {f}
    ensures Grown(vm, vm2, dirs, own, own1, d, lo, a, {f})
  {
    ElsewhereAll(vm.mem, vm1.mem, vm2.mem, dirs, d, lo, a);
    forall n: nat | lo <= n < a ensures Zeroed(vm2.mem, d, n) {
      assert Zeroed(vm1.mem, d, n) && SameSpace(vm1.mem, vm2.mem, dirs, d) && SameView(vm1.mem, vm2.mem, dirs, d, n);
    }
  }

  lemma GrownSized(vm: Vm, vm': Vm, dirs: set<nat>, own: map<nat, Slot>, own': map<nat, Slot>, d: nat, lo: nat, a: nat,
                   lost: set<nat>)
    requires Ok(vm, dirs, own) && d in dirs && lo <= a <= KERNPAGES && Grown(vm, vm', dirs, own, own', d, lo, a, lost)
    requires Sized(vm.mem, d, lo)
    ensures Sized(vm'.mem, d, a)
  {
    forall n: nat | n < KERNPAGES ensures Present(Pte(vm'.mem, d, n)) <==> n < a {
      if lo <= n < a {
        assert Zeroed(vm'.mem, d, n);
      } else {
        assert SameView(vm.mem, vm'.mem, dirs, d, n);
      }
    }
  }

  // The loop of allocuvm at page a: pages lo..b are there; b is a, or a - 1 after a leak.
  ghost predicate Growing(vm: Vm, vm': Vm, dirs: set<nat>, own: map<nat, Slot>, own': map<nat, Slot>,
                          d: nat, lo: nat, a: nat, b: nat, hi: nat, lost: set<nat>)
    requires Ok(vm, dirs, own) && d in dirs && hi <= KERNPAGES
  {
    && lo <= b <= a <= hi && Grown(vm, vm', dirs, own, own', d, lo, b, lost) && DirGrown(vm.mem[d], vm'.mem[d], lo, b)
    && (lost == {} ==> b == a && |vm.free| == |vm'.free| + Cost(vm.mem[d], lo, a))
    && (lost != {} ==> b == a - 1 && vm'.free == [] && |lost| == 1 && LeakAt(vm.mem[d], lo, b, |vm.free|))
  }

  method GrowRound(vm1: Vm, d: nat, a: nat, ghost vm: Vm, ghost lo: nat, ghost b: nat, ghost hi: nat,
                   ghost dirs: set<nat>, ghost own: map<nat, Slot>, ghost own1: map<nat, Slot>, ghost lost: set<nat>)
    returns (vm': Vm, ok: bool, ghost own': map<nat, Slot>, ghost b': nat, ghost lost': set<nat>)
    requires Ok(vm, dirs, own) && d in dirs && a < hi <= KERNPAGES && Unmapped(vm.mem, d, lo, hi)
    requires Growing(vm, vm1, dirs, own, own1, d, lo, a, b, hi, lost)
    ensures !ok || Growing(vm, vm', dirs, own, own', d, lo, a + 1, b', hi, lost')
    ensures ok || Growing(vm, vm', dirs, own, own', d, lo, a, b', hi, lost')
    ensures !ok ==> vm'.free == []
  {
    assert SameView(vm.mem, vm1.mem, dirs, d, a);
    var vm2, grant, f, own2 := AllocPage(vm1, d, a, dirs, own1);
    vm', own' := vm2, own2;
    ok, b', lost' := grant != NoFrame, b, lost;
    HasTable(vm.mem[d], vm1.mem[d], lo, b);
    if ok {
      CostLast(vm.mem[d], lo, a);
    }
    if grant == Mapped {
      GrownNext(vm, vm1, vm', dirs, own, own1, own', d, lo, a);
      DirStep(vm.mem[d], vm1.mem[d], vm'.mem[d], lo, a);
      b' := a + 1;
    } else if grant == Leaked {
      GrownLeak(vm, vm1, vm', dirs, own, own1, d, lo, a, f);
      lost' := {f};
    }
  }

  // Growing undone: none of the new pages is left.
  lemma Undone(vm: Vm, vm1: Vm, vm2: Vm, dirs: set<nat>, own: map<nat, Slot>, own1: map<nat, Slot>,
               own2: map<nat, Slot>,
               d: nat, lo: nat, b: nat, hi: nat, lost: set<nat>)
    requires Ok(vm, dirs, own) && d in dirs && lo <= b <= hi <= KERNPAGES && 0 < hi && Unmapped(vm.mem, d, lo, hi)
    requires Grown(vm, vm1, dirs, own, own1, d, lo, b, lost) && DirGrown(vm.mem[d], vm1.mem[d], lo, b)
    requires Formed(vm2.mem, dirs) && Elsewhere(vm1.mem, vm2.mem, dirs, d, lo, hi)
    requires Unmapped(vm2.mem, d, lo, hi) <==>
      Unmapped(vm1.mem, d, Passed(vm1.mem[d], lo, hi), Reached(vm1.mem[d], lo, hi))
    ensures Elsewhere(vm.mem, vm2.mem, dirs, d, lo, hi) && Unmapped(vm2.mem, d, lo, hi)
  {
    forall x, n: nat | x in dirs && n < VPAGES && !(x == d && lo <= n < hi)
      ensures SameView(vm.mem, vm2.mem, dirs, x, n)
    {
      assert SameView(vm.mem, vm1.mem, dirs, x, n) && SameView(vm1.mem, vm2.mem, dirs, x, n);
      ViewTrans(vm.mem, vm1.mem, vm2.mem, dirs, x, n);
    }
    if b > lo {
      assert EntryAfter(vm.mem[d], vm1.mem[d], lo, b, lo / ENTRIES);
    } else {
      forall n: nat | lo <= n < hi ensures !Present(Pte(vm1.mem, d, n)) {
        assert SameView(vm.mem, vm1.mem, dirs, d, n);
      }
    }
  }

  // What allocuvm from page lo to page hi has come to: r is newsz exactly when the frames suffice
  // for the pages and their page tables, or when only the very last page goes missing.
  ghost predicate Outcome(vm: Vm, vm': Vm, dirs: set<nat>, own: map<nat, Slot>, own': map<nat, Slot>,
                          d: nat, lo: nat, hi: nat, newsz: nat, r: nat, lost: set<nat>)
    requires Ok(vm, dirs, own) && d in dirs && lo <= hi <= KERNPAGES
  {
    && Ok(vm', dirs, own') && |vm'.mem| == |vm.mem| && Uses(vm', own') == Uses(vm, own) - lost && |lost| <= 1
    && Elsewhere(vm.mem, vm'.mem, dirs, d, lo, hi)
    && (lost != {} <==> exists a: nat | lo <= a < hi :: LeakAt(vm.mem[d], lo, a, |vm.free|))
    && (r == newsz <==> Cost(vm.mem[d], lo, hi) <= |vm.free| || (lo < hi && LeakAt(vm.mem[d], lo, hi - 1, |vm.free|)))
    && (r == newsz && lost != {} <==> lo < hi && LeakAt(vm.mem[d], lo, hi - 1, |vm.free|))
    && (r == newsz && lost == {} ==> Grown(vm, vm', dirs, own, own', d, lo, hi, {}))
    && (r == newsz && lost != {} ==> lo < hi && Grown(vm, vm', dirs, own, own', d, lo, hi - 1, lost))
    && (r != newsz ==> r == 0 && Unmapped(vm'.mem, d, lo, hi))
  }

  lemma GrowEnds(vm: Vm, vm': Vm, dirs: set<nat>, own: map<nat, Slot>, own': map<nat, Slot>, d: nat, lo: nat, b: nat,
                 hi: nat, newsz: nat, lost: set<nat>)
    requires Ok(vm, dirs, own) && d in dirs && lo <= hi <= KERNPAGES
    requires Growing(vm, vm', dirs, own, own', d, lo, hi, b, hi, lost)
    ensures Outcome(vm, vm', dirs, own, own', d, lo, hi, newsz, newsz, lost)
  {
    ElsewhereWider(vm.mem, vm'.mem, dirs, d, lo, b, hi);
    if lost == {} {
      NoLeak(vm.mem[d], lo, hi, hi, |vm.free|);
    }
  }

  // Out of frames at page a.
  lemma GrowFails(vm: Vm, vm1: Vm, dirs: set<nat>, own: map<nat, Slot>, own1: map<nat, Slot>, d: nat, lo: nat, a: nat,
                  b: nat, hi: nat, lost: set<nat>)
    requires Ok(vm, dirs, own) && d in dirs && a < hi <= KERNPAGES
    requires Growing(vm, vm1, dirs, own, own1, d, lo, a, b, hi, lost) && vm1.free == []
    ensures lost != {} <==> exists x: nat | lo <= x < hi :: LeakAt(vm.mem[d], lo, x, |vm.free|)
    ensures Cost(vm.mem[d], lo, hi) > |vm.free| && !LeakAt(vm.mem[d], lo, hi - 1, |vm.free|)
  {
    if lost == {} {
      NoLeak(vm.mem[d], lo, a, hi, |vm.free|);
      CostMore(vm.mem[d], lo, a, hi);
    } else {
      CostMore(vm.mem[d], lo, a, hi);
    }
  }

  // Out of frames at page a, allocuvm undoes its work.
  method UndoGrowth(vm1: Vm, d: nat, oldsz: nat, newsz: nat, ghost vm: Vm, ghost a: nat, ghost b: nat,
                    ghost dirs: set<nat>, ghost own: map<nat, Slot>, ghost own1: map<nat, Slot>, ghost lost: set<nat>)
    returns (vm': Vm, ghost own': map<nat, Slot>)
    requires Ok(vm, dirs, own) && d in dirs && oldsz < newsz < KERNBASE && a < Up(newsz) <= KERNPAGES
    requires Up(oldsz) <= Up(newsz)
    requires Unmapped(vm.mem, d, Up(oldsz), Up(newsz)) && vm1.free == []
    requires Growing(vm, vm1, dirs, own, own1, d, Up(oldsz), a, b, Up(newsz), lost)
    ensures Outcome(vm, vm', dirs, own, own', d, Up(oldsz), Up(newsz), newsz, 0, lost)
  {
    ghost var lo, hi := Up(oldsz), Up(newsz);
    GrowFails(vm, vm1, dirs, own, own1, d, lo, a, b, hi, lost);
    var r;
    vm', r, own' := Deallocuvm(vm1, d, newsz, oldsz, dirs, own1);
    Undone(vm, vm1, vm', dirs, own, own1, own', d, lo, b, hi, lost);
  }

  // allocuvm grows user memory from oldsz to newsz with zeroed pages, or undoes its work when it runs
  // out of frames.  As it ignores the result of mappages, it loses the frame for which it could not
  // get a page table; if that was for the last page, it even reports success.
  method Allocuvm(vm: Vm, d: nat, oldsz: nat, newsz: nat, ghost dirs: set<nat>, ghost own: map<nat, Slot>)
    returns (vm': Vm, r: nat, ghost own': map<nat, Slot>, ghost lost: set<nat>)
    requires Ok(vm, dirs, own) && d in dirs && oldsz <= KERNBASE
    requires newsz < KERNBASE ==> Unmapped(vm.mem, d, Up(oldsz), Up(newsz))
    ensures newsz >= KERNBASE ==> r == 0 && vm' == vm
    ensures newsz < oldsz && newsz < KERNBASE ==> r == oldsz && vm' == vm
    ensures newsz >= KERNBASE || newsz < oldsz ==> own' == own && lost == {}
    ensures oldsz <= newsz < KERNBASE ==> Up(oldsz) <= Up(newsz) <= KERNPAGES
    ensures oldsz <= newsz < KERNBASE ==> Outcome(vm, vm', dirs, own, own', d, Up(oldsz), Up(newsz), newsz, r, lost)
  {
    vm', own', lost := vm, own, {};
    if newsz >= KERNBASE {
      return vm, 0, own, {};
    }
    if newsz < oldsz {
      return vm, oldsz, own, {};
    }
    ghost var lo, hi := Up(oldsz), Up(newsz);
    ElsewhereSelf(vm.mem, dirs, d, lo, lo);
    DirStart(vm.mem[d], lo);
    var a: nat := Up(oldsz);
    ghost var b: nat := a;
    while a * PGSIZE < newsz
      invariant Growing(vm, vm', dirs, own, own', d, lo, a, b, hi, lost)
    {
      var ok;
      vm', ok, own', b, lost := GrowRound(vm', d, a, vm, lo, b, hi, dirs, own, own', lost);
      if !ok {
        r := 0;
        vm', own' := UndoGrowth(vm', d, oldsz, newsz, vm, a, b, dirs, own, own', lost);
        return;
      }
      a := a + 1;
    }
    GrowEnds(vm, vm', dirs, own, own', d, lo, b, hi, newsz, lost);
    r := newsz;
  }

  // Contiguous user memory stays so, at the size that the pages in fact have.
  lemma OutcomeSized(vm: Vm, vm': Vm, dirs: set<nat>, own: map<nat, Slot>, own': map<nat, Slot>,
                     d: nat, lo: nat, hi: nat, newsz: nat, r: nat, lost: set<nat>)
    requires Ok(vm, dirs, own) && d in dirs && lo <= hi <= KERNPAGES && Sized(vm.mem, d, lo)
    requires Outcome(vm, vm', dirs, own, own', d, lo, hi, newsz, r, lost)
    ensures Sized(vm'.mem, d, if r != newsz then lo else if lost == {} then hi else hi - 1)
  {
    if r != newsz {
      forall n: nat | n < KERNPAGES ensures Present(Pte(vm'.mem, d, n)) <==> n < lo {
        if !(lo <= n < hi) { assert SameView(vm.mem, vm'.mem, dirs, d, n); }
      }
    } else {
      GrownSized(vm, vm', dirs, own, own', d, lo, if lost == {} then hi else hi - 1, lost);
    }
  }

  // One free frame, and an address space without page tables.
  function OneFrame(): Vm {
    Vm([Fill(0), Fill(0), Fill(0)], [2])
  }

  // Growing it by one page reports success, maps nothing and loses the frame.
  method FalseSuccess() returns (vm': Vm, r: nat, ghost lost: set<nat>)
    ensures r == PGSIZE && |lost| == 1 && |vm'.mem| == 3 && (forall f | 0 <= f < 3 :: |vm'.mem[f]| == ENTRIES)
    ensures !Present(Pte(vm'.mem, 1, 0))
  {
    ghost var own := map[1 := Dir(1)];
    ghost var own';
    var vm := OneFrame();
    assert Ok(vm, {1}, own) && Unmapped(vm.mem, 1, 0, 1);
    TablesLast(vm.mem[1], 0, 0);
    assert LeakAt(vm.mem[1], 0, 0, 1);
    assert Up(0) == 0 && Up(PGSIZE) == 1;
    vm', r, own', lost := Allocuvm(vm, 1, 0, PGSIZE, {1}, own);
    assert SameView(vm.mem, vm'.mem, {1}, 1, 0);
  }

  // ---------------------------------------------------------------- copyuvm

  // No two user pages, of the same or of different address spaces, share a frame.
  lemma NoSharing(mem: Mem, dirs: set<nat>, own: map<nat, Slot>, x: nat, n: nat, y: nat, m: nat)
    requires Inv(mem, dirs, own) && x in dirs && y in dirs && n < KERNPAGES && m < KERNPAGES && (x != y || n != m)
    requires Present(Pte(mem, x, n)) && Present(Pte(mem, y, m))
    ensures Addr(Pte(mem, x, n)) != Addr(Pte(mem, y, m))
  {
    assert Here(mem, dirs, Pg(x, n)) && Here(mem, dirs, Pg(y, m));
    assert own[Addr(Pte(mem, x, n))] == Pg(x, n) && own[Addr(Pte(mem, y, m))] == Pg(y, m);
  }

  // Page n of c in mem' has the flags and contents of page n of d in mem.
  ghost predicate Copy(mem: Mem, d: nat, mem': Mem, c: nat, n: nat)
    requires d < |mem| && c < |mem'| && n < VPAGES
    requires (forall f | 0 <= f < |mem| :: |mem[f]| == ENTRIES) && (forall f | 0 <= f < |mem'| :: |mem'[f]| == ENTRIES)
  {
    var w, w' := Pte(mem, d, n), Pte(mem', c, n);
    && Present(w) && Present(w') && Flags(w') == Flags(w)
    && Addr(w) < |mem| && Addr(w') < |mem'| && mem'[Addr(w')] == mem[Addr(w)]
  }

  // Nothing is mapped in c beyond its first n pages and the kernel's regions.
  ghost predicate NothingElse(mem: Mem, c: nat, n: nat, kmap: seq<Region>)
    requires c < |mem| && forall f | 0 <= f < |mem| :: |mem[f]| == ENTRIES
  {
    forall m: nat | n <= m < VPAGES && Outside(kmap, |kmap|, m) :: !Present(Pte(mem, c, m))
  }

  lemma UserOutside(kmap: seq<Region>, m: nat)
    requires KmapOk(kmap) && m < KERNPAGES
    ensures Outside(kmap, |kmap|, m)
  {
    forall j | 0 <= j < |kmap| ensures m < First(kmap[j]) {
      RegionPages(kmap[j]);
    }
  }

  // c is a new address space holding copies of pages 0..n of d; all others are as in vm.
  ghost predicate Copied(vm: Vm, vm': Vm, dirs: set<nat>, own: map<nat, Slot>, own': map<nat, Slot>, d: nat, c: nat,
                         n: nat, kmap: seq<Region>)
    requires Ok(vm, dirs, own) && d in dirs && n <= KERNPAGES && KmapOk(kmap)
  {
    && c !in dirs && Ok(vm', dirs + {c}, own') && |vm'.mem| == |vm.mem| && Uses(vm', own') == Uses(vm, own)
    && AllSame(vm.mem, vm'.mem, dirs) && KernelMapped(vm'.mem, c, kmap, |kmap|) && NothingElse(vm'.mem, c, n, kmap)
    && forall m: nat | m < n :: Copy(vm.mem, d, vm'.mem, c, m)
  }

  // A step that changes page n of c only.
  lemma CopiedNext(vm: Vm, vm1: Vm, vm2: Vm, dirs: set<nat>, own: map<nat, Slot>, own1: map<nat, Slot>,
                   own2: map<nat, Slot>,
                   d: nat, c: nat, n: nat, kmap: seq<Region>)
    requires Ok(vm, dirs, own) && d in dirs && n < KERNPAGES && KmapOk(kmap)
    requires Copied(vm, vm1, dirs, own, own1, d, c, n, kmap)
    requires Ok(vm2, dirs + {c}, own2) && |vm2.mem| == |vm1.mem| && Uses(vm2, own2) == Uses(vm1, own1)
    requires SameBut(vm1.mem, vm2.mem, dirs + {c}, c, n) && Copy(vm.mem, d, vm2.mem, c, n)
    ensures Copied(vm, vm2, dirs, own, own2, d, c, n + 1, kmap)
  {
    var all := dirs + {c};
    GaveUp(vm, vm1, vm2, dirs, c, n);
    forall m: nat | m < n ensures Copy(vm.mem, d, vm2.mem, c, m) {
      assert Copy(vm.mem, d, vm1.mem, c, m) && SameView(vm1.mem, vm2.mem, all, c, m);
    }
    forall m: nat | n + 1 <= m < VPAGES && Outside(kmap, |kmap|, m) ensures !Present(Pte(vm2.mem, c, m)) {
      assert SameView(vm1.mem, vm2.mem, all, c, m);
    }
    KernelKept(vm1.mem, vm2.mem, all, c, n, kmap);
  }

  lemma KernelKept(m1: Mem, m2: Mem, dirs: set<nat>, c: nat, n: nat, kmap: seq<Region>)
    requires Formed(m1, dirs) && Formed(m2, dirs) && c in dirs && n < KERNPAGES && KmapOk(kmap)
    requires SameBut(m1, m2, dirs, c, n) && KernelMapped(m1, c, kmap, |kmap|)
    ensures KernelMapped(m2, c, kmap, |kmap|)
  {
    forall j | 0 <= j < |kmap| ensures MappedTo(m2, c, kmap[j], Last(kmap[j]) + 1) {
      assert MappedTo(m1, c, kmap[j], Last(kmap[j]) + 1);
      RegionPages(kmap[j]);
      forall m: nat | First(kmap[j]) <= m < Last(kmap[j]) + 1
        ensures Pte(m2, c, m) == Make(FrameOf(kmap[j], m), kmap[j].perm)
      {
        assert SameView(m1, m2, dirs, c, m);
      }
    }
  }

  // Frames that a copy of n pages takes: directory, kernel page tables, pages, user page tables.
  function CopyNeeds(kmap: seq<Region>, n: nat): int {
    1 + KTables(kmap, |kmap|) + n + (n + ENTRIES - 1) / ENTRIES
  }

  // A copy with `free` frames loses the last of them: it went to page n, whose page table cannot be
  // had any more.
  predicate CopyLeak(kmap: seq<Region>, n: nat, free: nat) {
    n % ENTRIES == 0 && CopyNeeds(kmap, n) + 1 == free
  }

  lemma NoCopyLeak(kmap: seq<Region>, n: nat, hi: nat, free: nat)
    requires n <= hi
    requires CopyNeeds(kmap, n) == free || (n == hi && CopyNeeds(kmap, n) <= free) ||
             (n == 0 && free < CopyNeeds(kmap, 0))
    ensures !exists x: nat | x < hi :: CopyLeak(kmap, x, free)
  {
    forall x: nat | x < hi ensures !CopyLeak(kmap, x, free) {
      assert x % ENTRIES == 0 ==> CopyNeeds(kmap, x + 1) == CopyNeeds(kmap, x) + 2;
      assert x < n ==> CopyNeeds(kmap, x + 1) <= CopyNeeds(kmap, n);
    }
  }

  // n pages of c are mapped: as many frames are gone, and the user page tables are there for them.
  ghost predicate Counted(vm: Vm, vm': Vm, c: nat, n: nat, kmap: seq<Region>) {
    && c < |vm'.mem| && IsPage(vm'.mem[c]) && |vm.free| == |vm'.free| + CopyNeeds(kmap, n)
    && forall i: nat | i < KERNPAGES / ENTRIES :: Present(vm'.mem[c][i]) <==> i * ENTRIES < n
  }

  lemma CountedStart(vm: Vm, vm1: Vm, dirs: set<nat>, own: map<nat, Slot>, own1: map<nat, Slot>, c: nat,
                     kmap: seq<Region>)
    requires Ok(vm, dirs, own) && KmapOk(kmap) && Setup(vm, vm1, dirs, own, own1, c, kmap, |kmap|)
    ensures Counted(vm, vm1, c, 0, kmap)
  {
    forall i: nat | i < KERNPAGES / ENTRIES ensures !Present(vm1.mem[c][i]) {
      assert !Reaches(kmap, |kmap|, i);
    }
  }

  lemma CountedNext(vm: Vm, vm1: Vm, vm2: Vm, c: nat, n: nat, kmap: seq<Region>)
    requires n < KERNPAGES && Counted(vm, vm1, c, n, kmap) && c < |vm2.mem| && IsPage(vm2.mem[c])
    requires |vm2.free| == |vm1.free| - 1 - (if Present(vm1.mem[c][n / ENTRIES]) then 0 else 1)
    requires Present(vm2.mem[c][n / ENTRIES])
    requires forall i | 0 <= i < ENTRIES && i != n / ENTRIES :: vm2.mem[c][i] == vm1.mem[c][i]
    ensures Counted(vm, vm2, c, n + 1, kmap)
  {
    TableOf(vm1, c, n);
    forall i: nat | i < KERNPAGES / ENTRIES ensures Present(vm2.mem[c][i]) <==> i * ENTRIES < n + 1 {
      if i != n / ENTRIES { assert Present(vm1.mem[c][i]) <==> i * ENTRIES < n; }
    }
  }

  lemma TableOf(vm: Vm, c: nat, n: nat)
    requires n < KERNPAGES && c < |vm.mem| && IsPage(vm.mem[c])
    requires forall i: nat | i < KERNPAGES / ENTRIES :: Present(vm.mem[c][i]) <==> i * ENTRIES < n
    ensures Present(vm.mem[c][n / ENTRIES]) <==> n % ENTRIES != 0
    ensures (n + ENTRIES) / ENTRIES - (n + ENTRIES - 1) / ENTRIES == if n % ENTRIES == 0 then 1 else 0
  {
    assert n / ENTRIES * ENTRIES == n - n % ENTRIES;
  }

  // The entry of the present page n of d, found by walkpgdir.
  method PageEntry(vm: Vm, d: nat, n: nat, ghost dirs: set<nat>, ghost own: map<nat, Slot>) returns (w: nat)
    requires Ok(vm, dirs, own) && d in dirs && n < KERNPAGES && Present(Pte(vm.mem, d, n))
    ensures w == Pte(vm.mem, d, n) && Addr(w) < |vm.mem| && IsPage(vm.mem[Addr(w)]) && Addr(w) in own
  {
    var vm0, t, found, own0 := Walk(vm, d, n, false, dirs, own);
    assert found;
    w := vm.mem[t][n % ENTRIES];
    assert Here(vm.mem, dirs, Pg(d, n)) && Frame(vm.mem, dirs, Pg(d, n)) == Addr(w);
  }

  // The work of one round of copyuvm: the frame of page n of d copied to a new frame at page n of c.
  method CopyPage(vm: Vm, d: nat, c: nat, n: nat, ghost dirs: set<nat>, ghost own: map<nat, Slot>)
    returns (vm': Vm, grant: Grant, ghost f: nat, ghost own': map<nat, Slot>)
    requires Ok(vm, dirs, own) && d in dirs && c in dirs && c != d && n < KERNPAGES
    requires Present(Pte(vm.mem, d, n)) && !Present(Pte(vm.mem, c, n))
    ensures Ok(vm', dirs, own') && |vm'.mem| == |vm.mem| && SameBut(vm.mem, vm'.mem, dirs, c, n)
    ensures grant.NoFrame? <==> vm.free == []
    ensures grant.NoFrame? ==> vm' == vm && own' == own
    ensures grant.Leaked? <==> |vm.free| == 1 && !Present(vm.mem[c][n / ENTRIES])
    ensures grant.Leaked? ==> own' == own && Uses(vm', own') == Uses(vm, own) - {f}
    ensures grant.Mapped? ==> Copy(vm.mem, d, vm'.mem, c, n) && Uses(vm', own') == Uses(vm, own)
    ensures grant.Mapped? ==> |vm'.free| == |vm.free| - 1 - (if Present(vm.mem[c][n / ENTRIES]) then 0 else 1)
    ensures grant.Mapped? ==> Present(vm'.mem[c][n / ENTRIES])
    ensures forall i | 0 <= i < ENTRIES && i != n / ENTRIES :: vm'.mem[c][i] == vm.mem[c][i]
  {
    var w := PageEntry(vm, d, n, dirs, own);
    if vm.free == [] {
      AllSameSelf(vm.mem, dirs);
      return vm, NoFrame, 0, own;
    }
    var ok;
    vm', ok, f, own' := NewPage(vm, c, n, vm.mem[Addr(w)], Flags(w), dirs, own);
    grant := if ok then Mapped else Leaked;
    FlagsPresent(w);
  }

  lemma FlagsPresent(w: nat)
    ensures Present(Flags(w)) == Present(w)
  {
    EntryParts(w / 0x1000, w % 0x1000);
  }

  // One round of copyuvm, at page n.
  method CopyRound(vm1: Vm, d: nat, c: nat, n: nat, ghost vm: Vm, ghost kmap: seq<Region>,
                   ghost dirs: set<nat>, ghost own: map<nat, Slot>, ghost own1: map<nat, Slot>)
    returns (vm': Vm, grant: Grant, ghost f: nat, ghost own': map<nat, Slot>)
    requires Ok(vm, dirs, own) && d in dirs && n < KERNPAGES && KmapOk(kmap) && Present(Pte(vm.mem, d, n))
    requires Copied(vm, vm1, dirs, own, own1, d, c, n, kmap) && Counted(vm, vm1, c, n, kmap)
    ensures grant.Mapped? ==> Copied(vm, vm', dirs, own, own', d, c, n + 1, kmap) && Counted(vm, vm', c, n + 1, kmap)
    ensures grant.NoFrame? ==> CopyNeeds(kmap, n) == |vm.free|
    ensures grant.Leaked? ==> CopyLeak(kmap, n, |vm.free|)
    ensures !grant.Mapped? ==> Ok(vm', dirs + {c}, own') && |vm'.mem| == |vm.mem| && AllSame(vm.mem, vm'.mem, dirs)
    ensures !grant.Mapped? ==> Uses(vm', own') == Uses(vm, own) - if grant.Leaked? then {f} else {}
  {
    assert SameSpace(vm.mem, vm1.mem, dirs, d) && SameView(vm.mem, vm1.mem, dirs, d, n);
    UserOutside(kmap, n);
    TableOf(vm1, c, n);
    vm', grant, f, own' := CopyPage(vm1, d, c, n, dirs + {c}, own1);
    if grant == Mapped {
      CopyOfCopy(vm, vm1, vm', dirs, own, d, c, n);
      CopiedNext(vm, vm1, vm', dirs, own, own1, own', d, c, n, kmap);
      CountedNext(vm, vm1, vm', c, n, kmap);
    } else {
      GaveUp(vm, vm1, vm', dirs, c, n);
    }
  }

  // copyuvm yields a new address space with equal contents and flags on frames of its own, and
  // changes no other, exactly if there are frames enough.  Otherwise it frees what it built, save
  // for a frame that had no page table, or what setupkvm left behind.
  method Copyuvm(vm: Vm, d: nat, sz: nat, kmap: seq<Region>, ghost dirs: set<nat>, ghost own: map<nat, Slot>)
    returns (vm': Vm, c: nat, ghost dirs': set<nat>, ghost own': map<nat, Slot>, ghost lost: set<nat>)
    requires Ok(vm, dirs, own) && d in dirs && KmapOk(kmap) && sz <= KERNBASE
    requires forall n: nat | n < Up(sz) && n < KERNPAGES :: Present(Pte(vm.mem, d, n))
    ensures Ok(vm', dirs', own') && |vm'.mem| == |vm.mem| && dirs <= dirs' && AllSame(vm.mem, vm'.mem, dirs)
    ensures Uses(vm', own') == Uses(vm, own) - lost && |lost| <= 1
    ensures lost != {} <==> exists n: nat | n < Up(sz) :: CopyLeak(kmap, n, |vm.free|)
    ensures c != 0 <==> CopyNeeds(kmap, Up(sz)) <= |vm.free|
    ensures c != 0 ==> dirs' == dirs + {c} && Up(sz) <= KERNPAGES
    ensures c != 0 ==> Copied(vm, vm', dirs, own, own', d, c, Up(sz), kmap)
    ensures c == 0 && CopyNeeds(kmap, 0) <= |vm.free| ==> dirs' == dirs
  {
    lost := {};
    var vm1, e, dirs1, own1 := Setupkvm(vm, kmap, dirs, own);
    vm', c, dirs', own' := vm1, e, dirs1, own1;
    if c == 0 {
      NoCopyLeak(kmap, 0, Up(sz), |vm.free|);
      return;
    }
    CountedStart(vm, vm', dirs, own, own', c, kmap);
    var n: nat := 0;
    while n * PGSIZE < sz
      invariant 0 <= n <= Up(sz) && dirs' == dirs + {c} && c != 0 && lost == {}
      invariant Copied(vm, vm', dirs, own, own', d, c, n, kmap) && Counted(vm, vm', c, n, kmap)
    {
      var vm2, grant, f, own2 := CopyRound(vm', d, c, n, vm, kmap, dirs, own, own');
      if grant != Mapped {
        vm', own' := DropCopy(vm2, c, vm, dirs, own, own2);
        lost := if grant == Leaked then {f} else {};
        CopyFails(kmap, n, Up(sz), |vm.free|, grant == Leaked);
        return vm', 0, dirs, own', lost;
      }
      vm', own', n := vm2, own2, n + 1;
    }
    NoCopyLeak(kmap, n, Up(sz), |vm.free|);
  }

  // One user page in address space 1, and the frames that a copy needs before its first page, plus one.
  function OnePage(kmap: seq<Region>): Vm
    requires KmapOk(kmap)
  {
    var n := KTables(kmap, |kmap|) + 2;
    KTablesMore(kmap, 0, |kmap|);
    Vm([Fill(0), Fill(0)[0 := Make(2, PTE_W + PTE_U)], Fill(0)[0 := Make(3, PTE_W + PTE_U)], Fill(0)] +
       seq(n, i => Fill(0)), seq(n, i requires 0 <= i => 4 + i))
  }

  lemma OnePageInv(mem: Mem)
    requires 4 <= |mem| && forall f | 0 <= f < |mem| :: |mem[f]| == ENTRIES
    requires mem[1] == Fill(0)[0 := Make(2, PTE_W + PTE_U)] && mem[2] == Fill(0)[0 := Make(3, PTE_W + PTE_U)]
    ensures Inv(mem, {1}, map[1 := Dir(1), 2 := Tab(1, 0), 3 := Pg(1, 0)]) && Present(Pte(mem, 1, 0))
  {
    var own := map[1 := Dir(1), 2 := Tab(1, 0), 3 := Pg(1, 0)];
    assert mem[1][0] == Make(2, PTE_W + PTE_U) && mem[2][0] == Make(3, PTE_W + PTE_U);
    assert Pte(mem, 1, 0) == Make(3, PTE_W + PTE_U);
    forall s | Here(mem, {1}, s) ensures Frame(mem, {1}, s) in own && own[Frame(mem, {1}, s)] == s {
      if s.Pg? {
        assert s.n / ENTRIES == 0 && s.n % ENTRIES == 0;
      }
    }
  }

  lemma OnePageOk(kmap: seq<Region>)
    requires KmapOk(kmap)
    ensures Ok(OnePage(kmap), {1}, map[1 := Dir(1), 2 := Tab(1, 0), 3 := Pg(1, 0)])
    ensures Present(Pte(OnePage(kmap).mem, 1, 0)) && |OnePage(kmap).free| == CopyNeeds(kmap, 0) + 1
  {
    KTablesMore(kmap, 0, |kmap|);
    OnePageInv(OnePage(kmap).mem);
  }

  // fork of that process fails and loses a frame.
  method CopyLeaks(kmap: seq<Region>) returns (vm': Vm, c: nat, ghost lost: set<nat>)
    requires KmapOk(kmap)
    ensures c == 0 && |lost| == 1
  {
    OnePageOk(kmap);
    assert Up(PGSIZE) == 1 && CopyLeak(kmap, 0, |OnePage(kmap).free|);
    ghost var own := map[1 := Dir(1), 2 := Tab(1, 0), 3 := Pg(1, 0)];
    ghost var dirs', own';
    vm', c, dirs', own', lost := Copyuvm(OnePage(kmap), 1, PGSIZE, kmap, {1}, own);
  }

  // With one free frame setupkvm fails, and the frame is neither free nor part of an address space
  // that anybody knows.
  method AbandonedSetup(data: nat) returns (vm': Vm, d: nat, ghost dirs': set<nat>)
    requires KERNBASE + EXTMEM < data < KERNBASE + PHYSTOP && data % PGSIZE == 0
    ensures d == 0 && vm'.free == [] && dirs' == {1, 2}
  {
    KmapFits(data);
    var kmap := Kmap(data);
    KTablesMore(kmap, 1, 4);
    assert KTables(kmap, 1) == KTables(kmap, 0) + RegionTables(kmap, 0);
    ghost var own := map[1 := Dir(1)];
    ghost var own';
    assert Ok(OneFrame(), {1}, own);
    vm', d, dirs', own' := Setupkvm(OneFrame(), kmap, {1}, own);
    assert 2 in Uses(vm', own');
    assert 2 in own';
  }

  lemma CopyFails(kmap: seq<Region>, n: nat, hi: nat, free: nat, leaked: bool)
    requires n < hi && if leaked then CopyLeak(kmap, n, free) else CopyNeeds(kmap, n) == free
    ensures free < CopyNeeds(kmap, hi) && (leaked <==> exists x: nat | x < hi :: CopyLeak(kmap, x, free))
  {
    if !leaked {
      NoCopyLeak(kmap, n, hi, free);
    } else {
      assert CopyNeeds(kmap, n + 1) == CopyNeeds(kmap, n) + 2;
    }
  }

  // copyuvm gives up its half-made copy c.
  method DropCopy(vm2: Vm, c: nat, ghost vm: Vm, ghost dirs: set<nat>, ghost own: map<nat, Slot>,
                  ghost own2: map<nat, Slot>)
    returns (vm': Vm, ghost own': map<nat, Slot>)
    requires Ok(vm, dirs, own) && c !in dirs && Ok(vm2, dirs + {c}, own2) && |vm2.mem| == |vm.mem|
    requires AllSame(vm.mem, vm2.mem, dirs)
    ensures Ok(vm', dirs, own') && |vm'.mem| == |vm.mem| && AllSame(vm.mem, vm'.mem, dirs)
    ensures Uses(vm', own') == Uses(vm2, own2)
  {
    vm', own' := Freevm(vm2, c, dirs + {c}, own2);
    assert dirs + {c} - {c} == dirs;
    AllSameTrans(vm.mem, vm2.mem, vm'.mem, dirs);
  }

  lemma GaveUp(vm: Vm, vm1: Vm, vm2: Vm, dirs: set<nat>, c: nat, n: nat)
    requires Formed(vm.mem, dirs) && Formed(vm1.mem, dirs + {c}) && Formed(vm2.mem, dirs + {c}) && c !in dirs
    requires |vm1.mem| == |vm.mem| && AllSame(vm.mem, vm1.mem, dirs) && SameBut(vm1.mem, vm2.mem, dirs + {c}, c, n)
    ensures AllSame(vm.mem, vm2.mem, dirs)
  {
    forall x, m: nat | x in dirs && m < VPAGES ensures SameView(vm.mem, vm2.mem, dirs, x, m) {
      assert SameSpace(vm.mem, vm1.mem, dirs, x) && SameView(vm1.mem, vm2.mem, dirs + {c}, x, m);
      ViewTrans(vm.mem, vm1.mem, vm2.mem, dirs, x, m);
    }
  }

  lemma CopyOfCopy(vm: Vm, vm1: Vm, vm2: Vm, dirs: set<nat>, own: map<nat, Slot>, d: nat, c: nat, n: nat)
    requires Ok(vm, dirs, own) && d in dirs && n < KERNPAGES && Present(Pte(vm.mem, d, n))
    requires Formed(vm1.mem, dirs) && |vm1.mem| == |vm.mem| && AllSame(vm.mem, vm1.mem, dirs)
    requires Formed(vm2.mem, dirs) && c < |vm2.mem| && Copy(vm1.mem, d, vm2.mem, c, n)
    ensures Copy(vm.mem, d, vm2.mem, c, n)
  {
    assert SameSpace(vm.mem, vm1.mem, dirs, d) && SameView(vm.mem, vm1.mem, dirs, d, n);
  }

  lemma ShrunkSized(mem: Mem, mem': Mem, dirs: set<nat>, d: nat, lo: nat, hi: nat)
    requires Formed(mem, dirs) && Formed(mem', dirs) && d in dirs && lo <= hi <= KERNPAGES && Sized(mem, d, hi)
    requires Elsewhere(mem, mem', dirs, d, lo, hi) && Unmapped(mem', d, lo, hi)
    ensures Sized(mem', d, lo)
  {
    forall n: nat | n < KERNPAGES ensures Present(Pte(mem', d, n)) <==> n < lo {
      if !(lo <= n < hi) { assert SameView(mem, mem', dirs, d, n); }
    }
  }

  /** Physical memory with its free list and the address spaces in it, updated in place. */
  class Machine {
    var vm: Vm
    ghost var dirs: set<nat>
    ghost var own: map<nat, Slot>

    ghost predicate Valid()
      reads this
    {
      Ok(vm, dirs, own)
    }

    constructor (mem: Mem, free: seq<nat>)
      requires (forall f | 0 <= f < |mem| :: |mem[f]| == ENTRIES) && (forall i | 0 <= i < |free| :: 0 < free[i] < |mem|)
      requires forall i, j | 0 <= i < j < |free| :: free[i] != free[j]
      ensures Valid() && vm == Vm(mem, free) && dirs == {} && own == map[]
    {
      vm, dirs, own := Vm(mem, free), {}, map[];
    }

    method AllocUser(d: nat, oldsz: nat, newsz: nat) returns (r: nat, ghost lost: set<nat>)
      requires Valid() && d in dirs && oldsz <= KERNBASE
      requires newsz < KERNBASE ==> Unmapped(vm.mem, d, Up(oldsz), Up(newsz))
      modifies this
      ensures Valid() && dirs == old(dirs)
      ensures newsz >= KERNBASE ==> r == 0 && vm == old(vm) && own == old(own) && lost == {}
      ensures newsz < oldsz && newsz < KERNBASE ==> r == oldsz && vm == old(vm) && own == old(own) && lost == {}
      ensures oldsz <= newsz < KERNBASE ==> Up(oldsz) <= Up(newsz) <= KERNPAGES
      ensures oldsz <= newsz < KERNBASE ==>
        Outcome(old(vm), vm, dirs, old(own), own, d, Up(oldsz), Up(newsz), newsz, r, lost)
      ensures oldsz <= newsz < KERNBASE && Sized(old(vm).mem, d, Up(oldsz)) ==>
        Sized(vm.mem, d, if r != newsz then Up(oldsz) else if lost == {} then Up(newsz) else Up(newsz) - 1)
    {
      var vm1, r1, own1, lost1 := Allocuvm(vm, d, oldsz, newsz, dirs, own);
      if oldsz <= newsz < KERNBASE && Sized(vm.mem, d, Up(oldsz)) {
        OutcomeSized(vm, vm1, dirs, own, own1, d, Up(oldsz), Up(newsz), newsz, r1, lost1);
      }
      vm, own, r, lost := vm1, own1, r1, lost1;
    }

    method DeallocUser(d: nat, oldsz: nat, newsz: nat) returns (r: nat)
      requires Valid() && d in dirs && oldsz <= KERNBASE
      modifies this
      ensures Valid() && dirs == old(dirs)
      ensures newsz >= oldsz ==> r == oldsz && vm == old(vm) && own == old(own)
      ensures newsz < oldsz ==> r == newsz && Up(newsz) <= Up(oldsz) <= KERNPAGES && 0 < Up(oldsz)
      ensures newsz < oldsz ==>
        Cleared(old(vm), vm, dirs, old(own), own, d, Reached(old(vm).mem[d], Up(newsz), Up(oldsz)), Up(oldsz))
      ensures newsz < oldsz && Sized(old(vm).mem, d, Up(oldsz)) ==> Sized(vm.mem, d, Up(newsz))
    {
      var vm1, r1, own1 := Deallocuvm(vm, d, oldsz, newsz, dirs, own);
      if newsz < oldsz && Sized(vm.mem, d, Up(oldsz)) {
        SizedNotPassed(vm.mem, dirs, d, Up(oldsz), Up(newsz), Up(oldsz));
        ShrunkSized(vm.mem, vm1.mem, dirs, d, Up(newsz), Up(oldsz));
      }
      vm, own, r := vm1, own1, r1;
    }

    method CopyUser(d: nat, sz: nat, kmap: seq<Region>) returns (c: nat, ghost lost: set<nat>)
      requires Valid() && d in dirs && KmapOk(kmap) && sz <= KERNBASE
      requires forall n: nat | n < Up(sz) && n < KERNPAGES :: Present(Pte(vm.mem, d, n))
      modifies this
      ensures Valid() && old(dirs) <= dirs && AllSame(old(vm).mem, vm.mem, old(dirs))
      ensures Uses(vm, own) == Uses(old(vm), old(own)) - lost && |lost| <= 1
      ensures c != 0 <==> CopyNeeds(kmap, Up(sz)) <= |old(vm).free|
      ensures lost != {} <==> exists n: nat | n < Up(sz) :: CopyLeak(kmap, n, |old(vm).free|)
      ensures c != 0 ==> c !in old(dirs) && dirs == old(dirs) + {c} && Sized(vm.mem, c, Up(sz))
      ensures c != 0 ==> forall n: nat | n < Up(sz) && n < KERNPAGES :: Copy(old(vm).mem, d, vm.mem, c, n)
      ensures c == 0 && CopyNeeds(kmap, 0) <= |old(vm).free| ==> dirs == old(dirs)
    {
      ghost var mem0 := vm.mem;
      var vm1, c1, dirs1, own1, lost1 := Copyuvm(vm, d, sz, kmap, dirs, own);
      vm, c, dirs, own, lost := vm1, c1, dirs1, own1, lost1;
      if c != 0 {
        forall n: nat | n < KERNPAGES ensures Present(Pte(vm.mem, c, n)) <==> n < Up(sz) {
          UserOutside(kmap, n);
          if n < Up(sz) { assert Copy(mem0, d, vm.mem, c, n); }
        }
      }
    }

    method FreeUser(d: nat)
      requires Valid() && d in dirs
      modifies this
      ensures Valid() && dirs == old(dirs) - {d} && AllSame(old(vm).mem, vm.mem, dirs)
      ensures Uses(vm, own) == Uses(old(vm), old(own)) && own == old(own) - Frames(old(own), d)
    {
      var vm1, own1 := Freevm(vm, d, dirs, own);
      vm, own, dirs := vm1, own1, dirs - {d};
    }
  }
}
