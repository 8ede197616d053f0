/**
 walkpgdir, mappages, setupkvm, allocuvm, deallocuvm, copyuvm and freevm of vm.c over the
 frame allocator of kalloc.c.  `dirs` are the live address spaces and `own` names the one
 place each frame in use is referred to from.
 */
module Vm {
  import opened PageTable

  const PGSIZE := 0x1000
  const KERNBASE := 0x8000_0000

  datatype Vm = Vm(mem: Mem, free: seq<nat>)

  // PGROUNDUP(sz) / PGSIZE
  function Up(sz: nat): nat { (sz + PGSIZE - 1) / PGSIZE }

  // Free frames are distinct and nobody's.
  ghost predicate FreeOk(vm: Vm, own: map<nat, Slot>) {
    && (forall i | 0 <= i < |vm.free| :: 0 < vm.free[i] < |vm.mem| && vm.free[i] !in own)
    && (forall i, j | 0 <= i < j < |vm.free| :: vm.free[i] != vm.free[j])
  }

  ghost predicate Ok(vm: Vm, dirs: set<nat>, own: map<nat, Slot>) {
    Inv(vm.mem, dirs, own) && FreeOk(vm, own)
  }

  // All frames the allocator hands around: free or in use.
  ghost function Uses(vm: Vm, own: map<nat, Slot>): set<nat> {
    (set f | f in vm.free) + own.Keys
  }

  // ---------------------------------------------------------- kalloc, kfree

  function Kalloc(vm: Vm): (Vm, nat) {
    if vm.free == [] then (vm, 0) else (vm.(free := vm.free[1..]), vm.free[0])
  }

  function Kfree(vm: Vm, f: nat): Vm
    requires f < |vm.mem|
  {
    Vm(vm.mem[f := Fill(0x0101_0101)], [f] + vm.free)
  }

  lemma KallocOk(vm: Vm, dirs: set<nat>, own: map<nat, Slot>)
    requires Ok(vm, dirs, own) && vm.free != []
    ensures Ok(Kalloc(vm).0, dirs, own) && 0 < Kalloc(vm).1 < |vm.mem|
    ensures Kalloc(vm).1 !in own && Kalloc(vm).1 !in Kalloc(vm).0.free
    ensures Uses(Kalloc(vm).0, own) == Uses(vm, own) - {Kalloc(vm).1}
  {
    var free := vm.free[1..];
    assert vm.free == [vm.free[0]] + free;
    assert forall f :: f in vm.free <==> f == vm.free[0] || f in free;
  }

  lemma KfreeOk(vm: Vm, dirs: set<nat>, own: map<nat, Slot>, f: nat)
    requires Ok(vm, dirs, own) && 0 < f < |vm.mem| && f !in own && f !in vm.free
    ensures Ok(Kfree(vm, f), dirs, own) && AllSame(vm.mem, Kfree(vm, f).mem, dirs)
    ensures Uses(Kfree(vm, f), own) == Uses(vm, own) + {f}
    ensures forall k | 0 <= k < ENTRIES :: Kfree(vm, f).mem[f][k] == 0x0101_0101
  {
    WriteUnowned(vm.mem, dirs, own, f, Fill(0x0101_0101));
    assert forall g :: g in [f] + vm.free <==> g == f || g in vm.free;
  }

  // kalloc and fill the frame.
  method KallocFilled(vm: Vm, page: Page, ghost dirs: set<nat>, ghost own: map<nat, Slot>) returns (vm': Vm, f: nat)
    requires Ok(vm, dirs, own) && vm.free != [] && IsPage(page)
    ensures Ok(vm', dirs, own) && 0 < f < |vm.mem| && f !in own && f !in vm'.free && f in Uses(vm, own)
    ensures f == vm.free[0] && vm'.free == vm.free[1..] && vm'.mem == vm.mem[f := page]
    ensures AllSame(vm.mem, vm'.mem, dirs)
    ensures Uses(vm', own) == Uses(vm, own) - {f} && (forall d | d in dirs :: vm'.mem[d] == vm.mem[d])
  {
    KallocOk(vm, dirs, own);
    DirsOwned(vm.mem, dirs, own);
    f := Kalloc(vm).1;
    WriteUnowned(vm.mem, dirs, own, f, page);
    vm' := Kalloc(vm).0.(mem := vm.mem[f := page]);
  }

  // -------------------------------------------------------------- walkpgdir

  method Walk(vm: Vm, d: nat, n: nat, alloc: bool, ghost dirs: set<nat>, ghost own: map<nat, Slot>)
    returns (vm': Vm, t: nat, ok: bool, ghost own': map<nat, Slot>)
    requires Ok(vm, dirs, own) && d in dirs && n < VPAGES
    ensures Ok(vm', dirs, own') && |vm'.mem| == |vm.mem| && AllSame(vm.mem, vm'.mem, dirs)
    ensures Uses(vm', own') == Uses(vm, own)
    ensures ok <==> Present(vm.mem[d][n / ENTRIES]) || (alloc && vm.free != [])
    ensures ok ==> Present(vm'.mem[d][n / ENTRIES]) && t == Addr(vm'.mem[d][n / ENTRIES]) < |vm.mem|
    ensures !ok || Present(vm.mem[d][n / ENTRIES]) ==> vm' == vm && own' == own
    ensures ok && !Present(vm.mem[d][n / ENTRIES]) ==>
      vm'.free == vm.free[1..] && vm'.mem[d] == vm.mem[d][n / ENTRIES := Make(t, PTE_W + PTE_U)]
    ensures ok && !Present(vm.mem[d][n / ENTRIES]) ==> own' == own[t := Tab(d, n / ENTRIES)] && t !in own
    ensures forall f: nat | f !in own && f !in vm.free && f < |vm.mem| :: vm'.mem[f] == vm.mem[f]
  {
    DirsOwned(vm.mem, dirs, own);
    var w := vm.mem[d][n / ENTRIES];
    own' := own;
    if Present(w) {
      ghost var s := Tab(d, n / ENTRIES);
      assert Here(vm.mem, dirs, s) && Frame(vm.mem, dirs, s) == Addr(w);
      AllSameSelf(vm.mem, dirs);
      return vm, Addr(w), true, own;
    }
    if !alloc || vm.free == [] {
      AllSameSelf(vm.mem, dirs);
      return vm, 0, false, own;
    }
    var vm1, f := KallocFilled(vm, Fill(0), dirs, own);
    LinkTable(vm1.mem, dirs, own, d, n / ENTRIES, f, PTE_W + PTE_U);
    vm' := vm1.(mem := Store(vm1.mem, d, n / ENTRIES, Make(f, PTE_W + PTE_U)));
    AllSameTrans(vm.mem, vm1.mem, vm'.mem, dirs);
    t, ok, own' := f, true, own[f := Tab(d, n / ENTRIES)];
  }

  lemma AllSameSelf(mem: Mem, dirs: set<nat>)
    requires Formed(mem, dirs)
    ensures AllSame(mem, mem, dirs)
  {
    forall x, n: nat | x in dirs && n < VPAGES ensures SameView(mem, mem, dirs, x, n) {}
  }

  lemma ViewTrans(m1: Mem, m2: Mem, m3: Mem, dirs: set<nat>, x: nat, n: nat)
    requires Formed(m1, dirs) && Formed(m2, dirs) && Formed(m3, dirs) && x in dirs && n < VPAGES && |m2| == |m1|
    requires SameView(m1, m2, dirs, x, n) && SameView(m2, m3, dirs, x, n)
    ensures SameView(m1, m3, dirs, x, n)
  {
  }

  lemma AllSameTrans(m1: Mem, m2: Mem, m3: Mem, dirs: set<nat>)
    requires Formed(m1, dirs) && Formed(m2, dirs) && Formed(m3, dirs) && |m2| == |m1|
    requires AllSame(m1, m2, dirs) && AllSame(m2, m3, dirs)
    ensures AllSame(m1, m3, dirs)
  {
    forall x, n: nat | x in dirs && n < VPAGES ensures SameView(m1, m3, dirs, x, n) {
      assert SameSpace(m1, m2, dirs, x) && SameSpace(m2, m3, dirs, x);
      ViewTrans(m1, m2, m3, dirs, x, n);
    }
  }

  // Everything but pages lo..hi of address space d is as it was.
  ghost predicate Elsewhere(mem: Mem, mem': Mem, dirs: set<nat>, d: nat, lo: nat, hi: nat)
    requires Formed(mem, dirs) && Formed(mem', dirs)
  {
    forall x, n: nat | x in dirs && n < VPAGES && !(x == d && lo <= n < hi) :: SameView(mem, mem', dirs, x, n)
  }

  lemma ElsewhereSelf(mem: Mem, dirs: set<nat>, d: nat, lo: nat, hi: nat)
    requires Formed(mem, dirs)
    ensures Elsewhere(mem, mem, dirs, d, lo, hi)
  {
    forall x, n: nat | x in dirs && n < VPAGES ensures SameView(mem, mem, dirs, x, n) {}
  }

  lemma ElsewhereAll(m1: Mem, m2: Mem, m3: Mem, dirs: set<nat>, d: nat, lo: nat, hi: nat)
    requires Formed(m1, dirs) && Formed(m2, dirs) && Formed(m3, dirs) && |m2| == |m1|
    requires Elsewhere(m1, m2, dirs, d, lo, hi) && AllSame(m2, m3, dirs)
    ensures Elsewhere(m1, m3, dirs, d, lo, hi)
  {
    forall x, n: nat | x in dirs && n < VPAGES && !(x == d && lo <= n < hi) ensures SameView(m1, m3, dirs, x, n) {
      assert SameView(m1, m2, dirs, x, n) && SameSpace(m2, m3, dirs, x);
      ViewTrans(m1, m2, m3, dirs, x, n);
    }
  }

  lemma ButTrans(m1: Mem, m2: Mem, m3: Mem, dirs: set<nat>, d: nat, n: nat)
    requires Formed(m1, dirs) && Formed(m2, dirs) && Formed(m3, dirs) && |m2| == |m1|
    requires AllSame(m1, m2, dirs) && SameBut(m2, m3, dirs, d, n)
    ensures SameBut(m1, m3, dirs, d, n)
  {
    forall x, m: nat | x in dirs && m < VPAGES && !(x == d && m == n) ensures SameView(m1, m3, dirs, x, m) {
      assert SameSpace(m1, m2, dirs, x) && SameView(m1, m2, dirs, x, m);
      ViewTrans(m1, m2, m3, dirs, x, m);
    }
  }

  lemma ElsewhereNext(m1: Mem, m2: Mem, m3: Mem, dirs: set<nat>, d: nat, lo: nat, hi: nat)
    requires Formed(m1, dirs) && Formed(m2, dirs) && Formed(m3, dirs) && |m2| == |m1| && lo <= hi
    requires Elsewhere(m1, m2, dirs, d, lo, hi) && SameBut(m2, m3, dirs, d, hi)
    ensures Elsewhere(m1, m3, dirs, d, lo, hi + 1)
  {
    forall x, n: nat | x in dirs && n < VPAGES && !(x == d && lo <= n < hi + 1) ensures SameView(m1, m3, dirs, x, n) {
      assert SameView(m1, m2, dirs, x, n) && SameView(m2, m3, dirs, x, n);
      ViewTrans(m1, m2, m3, dirs, x, n);
    }
  }

  // ------------------------------------------------------ counting page tables

  // Directory entries i..j without a page table.
  function Absent(dir: Page, i: nat, j: nat): nat
    requires j <= |dir|
  {
    if j <= i then 0 else Absent(dir, i, j - 1) + if Present(dir[j - 1]) then 0 else 1
  }

  // Page tables missing for pages lo..a.
  function Tables(dir: Page, lo: nat, a: nat): nat
    requires IsPage(dir) && a <= VPAGES
  {
    if a <= lo then 0 else Absent(dir, lo / ENTRIES, (a - 1) / ENTRIES + 1)
  }

  // Page a, mapped after pages lo..a, is the first to need its missing page table.
  predicate NewTable(dir: Page, lo: nat, a: nat)
    requires IsPage(dir) && a < VPAGES
  {
    !Present(dir[a / ENTRIES]) && (a == lo || a % ENTRIES == 0)
  }

  lemma TablesLast(dir: Page, lo: nat, a: nat)
    requires IsPage(dir) && lo <= a < VPAGES
    ensures Tables(dir, lo, a + 1) == Tables(dir, lo, a) + if NewTable(dir, lo, a) then 1 else 0
  {
    var i := a / ENTRIES;
    if a == lo {
      assert Absent(dir, i, i) == 0;
    } else if a % ENTRIES == 0 {
      assert (a - 1) / ENTRIES + 1 == i;
    } else {
      assert (a - 1) / ENTRIES == i;
    }
  }

  lemma {:induction false} TablesMore(dir: Page, lo: nat, a: nat, b: nat)
    requires IsPage(dir) && lo <= a <= b <= VPAGES
    ensures Tables(dir, lo, a) <= Tables(dir, lo, b)
    decreases b
  {
    if a < b {
      TablesMore(dir, lo, a, b - 1);
      TablesLast(dir, lo, b - 1);
    }
  }

  // Directory entry i once pages lo..a of dir are mapped.
  ghost predicate EntryAfter(dir: Page, dir': Page, lo: nat, a: nat, i: nat)
    requires IsPage(dir) && IsPage(dir') && i < ENTRIES
  {
    if lo < a && lo / ENTRIES <= i <= (a - 1) / ENTRIES then Present(dir'[i]) else dir'[i] == dir[i]
  }

  ghost predicate DirGrown(dir: Page, dir': Page, lo: nat, a: nat) {
    && IsPage(dir) && IsPage(dir')
    && forall i: nat {:trigger EntryAfter(dir, dir', lo, a, i)} | i < ENTRIES :: EntryAfter(dir, dir', lo, a, i)
  }

  lemma DirStart(dir: Page, lo: nat)
    requires IsPage(dir)
    ensures DirGrown(dir, dir, lo, lo)
  {
  }

  lemma DirStep(dir: Page, dir1: Page, dir2: Page, lo: nat, a: nat)
    requires DirGrown(dir, dir1, lo, a) && lo <= a < VPAGES && IsPage(dir2) && Present(dir2[a / ENTRIES])
    requires forall i | 0 <= i < ENTRIES && i != a / ENTRIES :: dir2[i] == dir1[i]
    ensures DirGrown(dir, dir2, lo, a + 1)
  {
    forall i: nat {:trigger EntryAfter(dir, dir2, lo, a + 1, i)} | i < ENTRIES
      ensures EntryAfter(dir, dir2, lo, a + 1, i)
    {
      assert EntryAfter(dir, dir1, lo, a, i);
    }
  }

  lemma HasTable(dir: Page, dir': Page, lo: nat, a: nat)
    requires DirGrown(dir, dir', lo, a) && lo <= a < VPAGES
    ensures Present(dir'[a / ENTRIES]) <==> !NewTable(dir, lo, a)
  {
    assert EntryAfter(dir, dir', lo, a, a / ENTRIES);
  }

  // --------------------------------------------------------------- mappages

  // mappages over the one user page n: frame f, which nobody owns, is mapped there; fails only
  // for want of a frame for the page table.  Mapping a present page panics.
  method MapUserPage(vm: Vm, d: nat, n: nat, f: nat, perm: nat, ghost dirs: set<nat>, ghost own: map<nat, Slot>)
    returns (vm': Vm, ok: bool, ghost own': map<nat, Slot>)
    requires Ok(vm, dirs, own) && d in dirs && n < KERNPAGES && perm < PGSIZE
    requires !Present(Pte(vm.mem, d, n)) && f !in own && f !in vm.free && 0 < f < |vm.mem|
    ensures Ok(vm', dirs, own') && |vm'.mem| == |vm.mem| && Extends(own, own')
    ensures ok <==> Present(vm.mem[d][n / ENTRIES]) || vm.free != []
    ensures !ok ==> vm' == vm && own' == own
    ensures ok ==> Pte(vm'.mem, d, n) == Make(f, perm) && vm'.mem[f] == vm.mem[f]
    ensures ok ==> SameBut(vm.mem, vm'.mem, dirs, d, n)
    ensures ok ==> Uses(vm', own') == Uses(vm, own) + {f}
    ensures ok ==> vm'.free == (if Present(vm.mem[d][n / ENTRIES]) then vm.free else vm.free[1..])
    ensures ok ==> Present(vm'.mem[d][n / ENTRIES]) && |vm'.mem[d]| == ENTRIES
    ensures forall i | 0 <= i < ENTRIES && i != n / ENTRIES :: vm'.mem[d][i] == vm.mem[d][i]
  {
    var vm1, t, ok1, own1 := Walk(vm, d, n, true, dirs, own);
    ok := ok1;
    if !ok {
      return vm, false, own;
    }
    assert SameSpace(vm.mem, vm1.mem, dirs, d) && SameView(vm.mem, vm1.mem, dirs, d, n);
    assert f !in own1 by { assert own1.Keys <= Uses(vm, own); }
    MapUser(vm1.mem, dirs, own1, d, n, t, f, perm);
    DirsOwned(vm1.mem, dirs, own1);
    vm' := vm1.(mem := Store(vm1.mem, t, n % ENTRIES, Make(f, perm)));
    own' := own1[f := Pg(d, n)];
    assert t in own1 && own1[t] == Tab(d, n / ENTRIES) by {
      PtesStored(vm1.mem, dirs, own1, d, n, t, 0);
    }
    ButTrans(vm.mem, vm1.mem, vm'.mem, dirs, d, n);
  }

  ghost predicate Extends(own: map<nat, Slot>, own': map<nat, Slot>) {
    forall f | f in own :: f in own' && own'[f] == own[f]
  }

  lemma ExtendsTrans(own1: map<nat, Slot>, own2: map<nat, Slot>, own3: map<nat, Slot>)
    requires Extends(own1, own2) && Extends(own2, own3)
    ensures Extends(own1, own3)
  {
  }

  // One round of mappages above KERNBASE: page n is mapped to frame f.
  method MapKernelPage(vm: Vm, d: nat, n: nat, f: nat, perm: nat, ghost dirs: set<nat>, ghost own: map<nat, Slot>)
    returns (vm': Vm, ok: bool, ghost own': map<nat, Slot>)
    requires Ok(vm, dirs, own) && d in dirs && KERNPAGES <= n < VPAGES && perm < PGSIZE && !Present(Pte(vm.mem, d, n))
    ensures Ok(vm', dirs, own') && |vm'.mem| == |vm.mem| && Uses(vm', own') == Uses(vm, own) && Extends(own, own')
    ensures ok <==> Present(vm.mem[d][n / ENTRIES]) || vm.free != []
    ensures !ok ==> vm' == vm && own' == own
    ensures ok ==> Pte(vm'.mem, d, n) == Make(f, perm) && SameBut(vm.mem, vm'.mem, dirs, d, n)
    ensures ok ==> vm'.free == (if Present(vm.mem[d][n / ENTRIES]) then vm.free else vm.free[1..])
    ensures ok ==> Present(vm'.mem[d][n / ENTRIES]) && |vm'.mem[d]| == ENTRIES
    ensures forall i | 0 <= i < ENTRIES && i != n / ENTRIES :: vm'.mem[d][i] == vm.mem[d][i]
  {
    var vm1, t, ok1, own1 := Walk(vm, d, n, true, dirs, own);
    ok := ok1;
    if !ok {
      return vm, false, own;
    }
    MapKernel(vm1.mem, dirs, own1, d, n, t, Make(f, perm));
    PtesStored(vm1.mem, dirs, own1, d, n, t, 0);
    vm', own' := vm1.(mem := Store(vm1.mem, t, n % ENTRIES, Make(f, perm))), own1;
    ButTrans(vm.mem, vm1.mem, vm'.mem, dirs, d, n);
  }

  // One round of mappages at any page.
  method MapPage(vm: Vm, d: nat, n: nat, f: nat, perm: nat, ghost dirs: set<nat>, ghost own: map<nat, Slot>)
    returns (vm': Vm, ok: bool, ghost own': map<nat, Slot>)
    requires Ok(vm, dirs, own) && d in dirs && n < VPAGES && perm < PGSIZE && !Present(Pte(vm.mem, d, n))
    requires n < KERNPAGES ==> Takable(vm, own, f)
    ensures Ok(vm', dirs, own') && |vm'.mem| == |vm.mem| && Extends(own, own')
    ensures ok <==> Present(vm.mem[d][n / ENTRIES]) || vm.free != []
    ensures !ok ==> vm' == vm && own' == own
    ensures ok ==> Pte(vm'.mem, d, n) == Make(f, perm) && SameBut(vm.mem, vm'.mem, dirs, d, n)
    ensures ok ==> Uses(vm', own') == Uses(vm, own) + if n < KERNPAGES then {f} else {}
    ensures ok ==> |vm'.free| == |vm.free| - if Present(vm.mem[d][n / ENTRIES]) then 0 else 1
    ensures ok ==> Present(vm'.mem[d][n / ENTRIES]) && |vm'.mem[d]| == ENTRIES
    ensures forall i | 0 <= i < ENTRIES && i != n / ENTRIES :: vm'.mem[d][i] == vm.mem[d][i]
  {
    if n < KERNPAGES {
      vm', ok, own' := MapUserPage(vm, d, n, f, perm, dirs, own);
    } else {
      vm', ok, own' := MapKernelPage(vm, d, n, f, perm, dirs, own);
    }
  }

  // A frame that is neither in use nor free, such as one that kalloc has just handed out.
  ghost predicate Takable(vm: Vm, own: map<nat, Slot>, f: nat) {
    0 < f < |vm.mem| && f !in own && f !in vm.free
  }

  datatype Region = Region(va: nat, pa: nat, size: nat, perm: nat)

  function First(r: Region): nat { r.va / PGSIZE }

  function Last(r: Region): int { (r.va + r.size - 1) / PGSIZE }

  // The frame that page m of r is mapped to.
  function FrameOf(r: Region, m: int): int { r.pa / PGSIZE + (m - First(r)) }

  // At least one byte of virtual memory, and whole frames of physical memory.
  predicate ValidRegion(r: Region) {
    0 < r.size && r.va + r.size <= 0x1_0000_0000 && r.pa % PGSIZE == 0 && r.perm < PGSIZE
  }

  lemma RegionPages(r: Region)
    requires ValidRegion(r)
    ensures First(r) <= Last(r) < VPAGES
    ensures KERNBASE <= r.va ==> KERNPAGES <= First(r)
  {
  }

  // Pages of r up to but excluding page n are mapped to consecutive frames.
  ghost predicate MappedTo(mem: Mem, d: nat, r: Region, n: int)
    requires d < |mem| && ValidRegion(r) && n <= Last(r) + 1 && forall f | 0 <= f < |mem| :: |mem[f]| == ENTRIES
  {
    forall m: nat | First(r) <= m < n :: Pte(mem, d, m) == Make(FrameOf(r, m), r.perm)
  }

  ghost predicate Unmapped(mem: Mem, d: nat, lo: nat, hi: nat)
    requires d < |mem| && hi <= VPAGES && forall f | 0 <= f < |mem| :: |mem[f]| == ENTRIES
  {
    forall m: nat | lo <= m < hi :: !Present(Pte(mem, d, m))
  }

  // The frames of the user pages among the pages of r up to n.
  ghost function UserFrames(r: Region, n: nat): set<int> {
    set m | First(r) <= m < n && m < KERNPAGES :: FrameOf(r, m)
  }

  // Pages of r up to but excluding page a are mapped; all else is as in vm.
  ghost predicate Mapping(vm: Vm, vm': Vm, dirs: set<nat>, own: map<nat, Slot>, own': map<nat, Slot>, d: nat, r: Region,
                          a: nat)
    requires Ok(vm, dirs, own) && d in dirs && ValidRegion(r)
  {
    && First(r) <= a <= Last(r) + 1 <= VPAGES && Ok(vm', dirs, own') && |vm'.mem| == |vm.mem| && Extends(own, own')
    && Uses(vm', own') == Uses(vm, own) + UserFrames(r, a)
    && Elsewhere(vm.mem, vm'.mem, dirs, d, First(r), a) && MappedTo(vm'.mem, d, r, a)
    && DirGrown(vm.mem[d], vm'.mem[d], First(r), a) && |vm.free| == |vm'.free| + Tables(vm.mem[d], First(r), a)
  }

  lemma MappingStart(vm: Vm, dirs: set<nat>, own: map<nat, Slot>, d: nat, r: Region)
    requires Ok(vm, dirs, own) && d in dirs && ValidRegion(r)
    ensures Mapping(vm, vm, dirs, own, own, d, r, First(r))
  {
    RegionPages(r);
    ElsewhereSelf(vm.mem, dirs, d, First(r), First(r));
    DirStart(vm.mem[d], First(r));
    assert UserFrames(r, First(r)) == {};
  }

  // The frame of page a is still to be had, whichever pages of r have been mapped.
  lemma StillTakable(vm: Vm, vm1: Vm, own: map<nat, Slot>, own1: map<nat, Slot>, r: Region, a: nat)
    requires First(r) <= a && |vm1.mem| == |vm.mem| && Uses(vm1, own1) == Uses(vm, own) + UserFrames(r, a)
    requires Takable(vm, own, FrameOf(r, a))
    ensures Takable(vm1, own1, FrameOf(r, a))
  {
    var f := FrameOf(r, a);
    assert f !in UserFrames(r, a);
    assert f !in Uses(vm, own);
    assert f !in Uses(vm1, own1);
  }

  // The rest of a round: page a was mapped to the next frame of r.
  lemma MappingNext(vm: Vm, vm1: Vm, vm2: Vm, dirs: set<nat>, own: map<nat, Slot>, own1: map<nat, Slot>,
                    own2: map<nat, Slot>, d: nat, r: Region, a: nat)
    requires Ok(vm, dirs, own) && d in dirs && ValidRegion(r) && a <= Last(r)
    requires Mapping(vm, vm1, dirs, own, own1, d, r, a)
    requires Ok(vm2, dirs, own2) && |vm2.mem| == |vm1.mem| && Extends(own1, own2)
    requires SameBut(vm1.mem, vm2.mem, dirs, d, a)
    requires Pte(vm2.mem, d, a) == Make(FrameOf(r, a), r.perm)
    requires Uses(vm2, own2) == Uses(vm1, own1) + if a < KERNPAGES then {FrameOf(r, a)} else {}
    requires |vm2.free| == |vm1.free| - if Present(vm1.mem[d][a / ENTRIES]) then 0 else 1
    requires |vm2.mem[d]| == ENTRIES && Present(vm2.mem[d][a / ENTRIES])
    requires forall i | 0 <= i < ENTRIES && i != a / ENTRIES :: vm2.mem[d][i] == vm1.mem[d][i]
    ensures Mapping(vm, vm2, dirs, own, own2, d, r, a + 1)
  {
    ElsewhereNext(vm.mem, vm1.mem, vm2.mem, dirs, d, First(r), a);
    ExtendsTrans(own, own1, own2);
    MappedNext(vm1.mem, vm2.mem, dirs, d, r, a);
    MoreFrames(r, a);
    DirStep(vm.mem[d], vm1.mem[d], vm2.mem[d], First(r), a);
    HasTable(vm.mem[d], vm1.mem[d], First(r), a);
    TablesLast(vm.mem[d], First(r), a);
  }

  lemma MappedNext(m1: Mem, m2: Mem, dirs: set<nat>, d: nat, r: Region, a: nat)
    requires Formed(m1, dirs) && Formed(m2, dirs) && d in dirs && ValidRegion(r) && First(r) <= a <= Last(r) < VPAGES
    requires MappedTo(m1, d, r, a) && SameBut(m1, m2, dirs, d, a) && Pte(m2, d, a) == Make(FrameOf(r, a), r.perm)
    ensures MappedTo(m2, d, r, a + 1)
  {
    forall m: nat | First(r) <= m < a ensures Pte(m2, d, m) == Make(FrameOf(r, m), r.perm) {
      assert SameView(m1, m2, dirs, d, m);
    }
  }

  lemma MoreFrames(r: Region, a: nat)
    requires First(r) <= a
    ensures UserFrames(r, a + 1) == UserFrames(r, a) + if a < KERNPAGES then {FrameOf(r, a)} else {}
  {
  }

  // The user pages of r can have their frames.
  ghost predicate FramesReady(vm: Vm, own: map<nat, Slot>, r: Region) {
    forall m: nat | First(r) <= m <= Last(r) && m < KERNPAGES :: Takable(vm, own, FrameOf(r, m))
  }

  // No page table can be had for page a, so the frames are too few.
  lemma ShortOfTables(vm: Vm, vm1: Vm, dirs: set<nat>, own: map<nat, Slot>, own1: map<nat, Slot>, d: nat, r: Region,
                      a: nat)
    requires Ok(vm, dirs, own) && d in dirs && ValidRegion(r) && a <= Last(r)
    requires Mapping(vm, vm1, dirs, own, own1, d, r, a)
    requires !Present(vm1.mem[d][a / ENTRIES]) && vm1.free == []
    ensures Tables(vm.mem[d], First(r), Last(r) + 1) > |vm.free|
  {
    HasTable(vm.mem[d], vm1.mem[d], First(r), a);
    TablesLast(vm.mem[d], First(r), a);
    TablesMore(vm.mem[d], First(r), a + 1, Last(r) + 1);
  }

  // One round of mappages, at page a of r.
  method MapRound(vm: Vm, d: nat, r: Region, a: nat, f: nat, ghost vm0: Vm, ghost dirs: set<nat>,
                  ghost own0: map<nat, Slot>, ghost own: map<nat, Slot>)
    returns (vm': Vm, ok: bool, ghost own': map<nat, Slot>)
    requires Ok(vm0, dirs, own0) && d in dirs && ValidRegion(r) && a <= Last(r) && f == FrameOf(r, a)
    requires Mapping(vm0, vm, dirs, own0, own, d, r, a) && Unmapped(vm0.mem, d, First(r), Last(r) + 1)
    requires FramesReady(vm0, own0, r)
    ensures !ok || Mapping(vm0, vm', dirs, own0, own', d, r, a + 1)
    ensures !ok ==> vm' == vm && own' == own && vm.free == [] && Tables(vm0.mem[d], First(r), Last(r) + 1) > |vm0.free|
  {
    assert SameView(vm0.mem, vm.mem, dirs, d, a);
    if a < KERNPAGES {
      StillTakable(vm0, vm, own0, own, r, a);
    }
    vm', ok, own' := MapPage(vm, d, a, f, r.perm, dirs, own);
    if ok {
      MappingNext(vm0, vm, vm', dirs, own0, own, own', d, r, a);
    } else {
      ShortOfTables(vm0, vm, dirs, own0, own, d, r, a);
    }
  }

  // mappages: the pages of r are mapped to consecutive frames, exactly if there are frames enough
  // for the page tables they need.  User pages take frames that nobody owns; mapping a page that is
  // present already panics.  On failure the pages below `upto` stay mapped.
  method Mappages(vm: Vm, d: nat, r: Region, ghost dirs: set<nat>, ghost own: map<nat, Slot>)
    returns (vm': Vm, ok: bool, ghost own': map<nat, Slot>, ghost upto: nat)
    requires Ok(vm, dirs, own) && d in dirs && ValidRegion(r) && Last(r) < VPAGES
    requires Unmapped(vm.mem, d, First(r), Last(r) + 1) && FramesReady(vm, own, r)
    ensures Mapping(vm, vm', dirs, own, own', d, r, upto)
    ensures ok <==> upto == Last(r) + 1
    ensures ok <==> Tables(vm.mem[d], First(r), Last(r) + 1) <= |vm.free|
    ensures !ok ==> vm'.free == []
  {
    RegionPages(r);
    var a: nat, last, f := First(r), Last(r), r.pa / PGSIZE;
    vm', own', upto := vm, own, a;
    MappingStart(vm, dirs, own, d, r);
    while true
      invariant a <= last && f == FrameOf(r, a) && upto == a
      invariant Mapping(vm, vm', dirs, own, own', d, r, upto)
      decreases last - a
    {
      vm', ok, own' := MapRound(vm', d, r, a, f, vm, dirs, own, own');
      if !ok {
        return;
      }
      upto := a + 1;
      if a == last {
        return;
      }
      a, f := a + 1, f + 1;
    }
  }

  lemma ElsewhereWider(mem: Mem, mem': Mem, dirs: set<nat>, d: nat, lo: nat, hi: nat, hi': nat)
    requires Formed(mem, dirs) && Formed(mem', dirs) && hi <= hi' && Elsewhere(mem, mem', dirs, d, lo, hi)
    ensures Elsewhere(mem, mem', dirs, d, lo, hi')
  {
  }

  // ---------------------------------------------------------------- setupkvm

  // The kernel's regions lie above KERNBASE, in ascending order, on disjoint pages.
  predicate KmapOk(kmap: seq<Region>) {
    && (forall k | 0 <= k < |kmap| :: ValidRegion(kmap[k]) && KERNBASE <= kmap[k].va)
    && (forall j, k | 0 <= j < k < |kmap| :: Last(kmap[j]) < First(kmap[k]))
  }

  const EXTMEM := 0x10_0000
  const PHYSTOP := 0xE00_0000
  const DEVSPACE := 0xFE00_0000

  // The kernel's table of regions; `data` is where its writable data starts.
  function Kmap(data: nat): seq<Region>
    requires KERNBASE + EXTMEM < data < KERNBASE + PHYSTOP
  {
    [Region(KERNBASE, 0, EXTMEM, PTE_W),
     Region(KERNBASE + EXTMEM, EXTMEM, data - KERNBASE - EXTMEM, 0),
     Region(data, data - KERNBASE, PHYSTOP - (data - KERNBASE), PTE_W),
     Region(DEVSPACE, DEVSPACE, 0x1_0000_0000 - DEVSPACE, PTE_W)]
  }

  // With the data on a page boundary behind the text, these regions lie on disjoint pages.
  lemma KmapFits(data: nat)
    requires KERNBASE + EXTMEM < data < KERNBASE + PHYSTOP && data % PGSIZE == 0
    ensures KmapOk(Kmap(data))
  {
    var k := Kmap(data);
    assert First(k[0]) == 0x8_0000 && Last(k[0]) == 0x8_00FF && First(k[1]) == 0x8_0100;
    assert Last(k[1]) < First(k[2]) && Last(k[2]) < First(k[3]);
  }

  ghost predicate KernelMapped(mem: Mem, d: nat, kmap: seq<Region>, k: nat)
    requires d < |mem| && k <= |kmap| && KmapOk(kmap) && forall f | 0 <= f < |mem| :: |mem[f]| == ENTRIES
  {
    forall j | 0 <= j < k :: MappedTo(mem, d, kmap[j], Last(kmap[j]) + 1)
  }

  // Page n belongs to none of the first k regions.
  predicate Outside(kmap: seq<Region>, k: nat, n: nat)
    requires k <= |kmap|
  {
    forall j | 0 <= j < k :: n < First(kmap[j]) || Last(kmap[j]) < n
  }

  // Nothing else is mapped, be it below KERNBASE or in a gap between the regions.
  ghost predicate OnlyKernel(mem: Mem, d: nat, kmap: seq<Region>, k: nat)
    requires d < |mem| && k <= |kmap| && forall f | 0 <= f < |mem| :: |mem[f]| == ENTRIES
  {
    forall n: nat | n < VPAGES && Outside(kmap, k, n) :: !Present(Pte(mem, d, n))
  }

  // In an address space set up from this table neither user memory nor the gap between the end of
  // physical memory and the devices is mapped.
  lemma GapUnmapped(mem: Mem, d: nat, data: nat)
    requires d < |mem| && forall f | 0 <= f < |mem| :: |mem[f]| == ENTRIES
    requires KERNBASE + EXTMEM < data < KERNBASE + PHYSTOP && data % PGSIZE == 0 && OnlyKernel(mem, d, Kmap(data), 4)
    ensures Unmapped(mem, d, 0, KERNPAGES) && Unmapped(mem, d, (KERNBASE + PHYSTOP) / PGSIZE, DEVSPACE / PGSIZE)
  {
    var k := Kmap(data);
    assert Last(k[2]) == (KERNBASE + PHYSTOP) / PGSIZE - 1 && First(k[3]) == DEVSPACE / PGSIZE;
    KmapFits(data);
    forall n: nat | n < KERNPAGES || (KERNBASE + PHYSTOP) / PGSIZE <= n < DEVSPACE / PGSIZE
      ensures !Present(Pte(mem, d, n))
    {
      assert Outside(k, 4, n);
    }
  }

  // The pages from KERNBASE up to the end of physical memory, and those of the devices.
  predicate KernelPage(n: nat) {
    KERNPAGES <= n < (KERNBASE + PHYSTOP) / PGSIZE || DEVSPACE / PGSIZE <= n < VPAGES
  }

  // What page n of the kernel is mapped to: physical memory is found KERNBASE higher, devices where they
  // are; the text is read-only, all else writable, and nothing is open to users.
  function KernelEntry(data: nat, n: nat): nat
    requires KernelPage(n)
  {
    var f := if n < DEVSPACE / PGSIZE then n - KERNPAGES else n;
    var text := (KERNBASE + EXTMEM) / PGSIZE <= n < data / PGSIZE;
    f * PGSIZE + if text then PTE_P else PTE_P + PTE_W
  }

  // An address space set up from this table maps exactly these pages, and each to its own frame.
  lemma KernelView(mem: Mem, d: nat, data: nat, n: nat)
    requires d < |mem| && forall f | 0 <= f < |mem| :: |mem[f]| == ENTRIES
    requires KERNBASE + EXTMEM < data < KERNBASE + PHYSTOP && data % PGSIZE == 0 && KmapOk(Kmap(data))
    requires KernelMapped(mem, d, Kmap(data), 4) && OnlyKernel(mem, d, Kmap(data), 4) && n < VPAGES
    ensures Present(Pte(mem, d, n)) <==> KernelPage(n)
    ensures KernelPage(n) ==> Pte(mem, d, n) == KernelEntry(data, n)
  {
    var k := Kmap(data);
    if KernelPage(n) {
      var j := RegionOf(data, n);
      assert MappedTo(mem, d, k[j], Last(k[j]) + 1);
      assert Pte(mem, d, n) == Make(FrameOf(k[j], n), k[j].perm);
    } else {
      NoRegion(data, n);
    }
  }

  // The region of the table that page n lies in, and what it says of it.
  lemma RegionOf(data: nat, n: nat) returns (j: nat)
    requires KERNBASE + EXTMEM < data < KERNBASE + PHYSTOP && data % PGSIZE == 0 && KernelPage(n)
    ensures j < 4 && First(Kmap(data)[j]) <= n <= Last(Kmap(data)[j])
    ensures FrameOf(Kmap(data)[j], n) >= 0 && Kmap(data)[j].perm < 0x1000
    ensures Make(FrameOf(Kmap(data)[j], n), Kmap(data)[j].perm) == KernelEntry(data, n)
  {
    j := if n < (KERNBASE + EXTMEM) / PGSIZE then 0 else if n < data / PGSIZE then 1
         else if n < DEVSPACE / PGSIZE then 2 else 3;
    var r := Kmap(data)[j];
    assert FrameOf(r, n) == if n < DEVSPACE / PGSIZE then n - KERNPAGES else n;
  }

  lemma NoRegion(data: nat, n: nat)
    requires KERNBASE + EXTMEM < data < KERNBASE + PHYSTOP && data % PGSIZE == 0 && n < VPAGES && !KernelPage(n)
    ensures Outside(Kmap(data), 4, n)
  {
    var k := Kmap(data);
    assert First(k[0]) == KERNPAGES && Last(k[2]) == (KERNBASE + PHYSTOP) / PGSIZE - 1;
    assert Last(k[0]) < First(k[1]) && Last(k[1]) < First(k[2]);
    assert First(k[3]) == DEVSPACE / PGSIZE && Last(k[3]) == VPAGES - 1;
  }

  // One of the first k regions has a page in page table i.
  predicate Reaches(kmap: seq<Region>, k: nat, i: nat)
    requires k <= |kmap|
  {
    exists j | 0 <= j < k :: First(kmap[j]) / ENTRIES <= i <= Last(kmap[j]) / ENTRIES
  }

  ghost predicate KernelTables(dir: Page, kmap: seq<Region>, k: nat) {
    && IsPage(dir) && k <= |kmap|
    && forall i: nat {:trigger Reaches(kmap, k, i)} | i < ENTRIES :: Present(dir[i]) <==> Reaches(kmap, k, i)
  }

  // Page tables that region k needs, beyond the one it may share with region k - 1.
  function RegionTables(kmap: seq<Region>, k: nat): int
    requires k < |kmap|
  {
    var own := Last(kmap[k]) / ENTRIES - First(kmap[k]) / ENTRIES + 1;
    if k > 0 && Last(kmap[k - 1]) / ENTRIES == First(kmap[k]) / ENTRIES then own - 1 else own
  }

  function KTables(kmap: seq<Region>, k: nat): int
    requires k <= |kmap|
  {
    if k == 0 then 0 else KTables(kmap, k - 1) + RegionTables(kmap, k - 1)
  }

  lemma {:induction false} KTablesMore(kmap: seq<Region>, j: nat, k: nat)
    requires KmapOk(kmap) && j <= k <= |kmap|
    ensures KTables(kmap, j) <= KTables(kmap, k)
    decreases k
  {
    if j < k {
      KTablesMore(kmap, j, k - 1);
      RegionPages(kmap[k - 1]);
    }
  }

  lemma {:induction false} AbsentAfter(dir: Page, i: nat, j: nat)
    requires IsPage(dir) && i < j <= ENTRIES && forall x | i < x < j :: !Present(dir[x])
    ensures Absent(dir, i, j) == j - i - if Present(dir[i]) then 1 else 0
    decreases j
  {
    if i + 1 < j {
      AbsentAfter(dir, i, j - 1);
    } else {
      assert Absent(dir, i, i) == 0;
    }
  }

  // Of the tables of region k, only the first can be there already, for the region before it.
  lemma RegionNeeds(dir: Page, kmap: seq<Region>, k: nat)
    requires KmapOk(kmap) && k < |kmap| && KernelTables(dir, kmap, k) && Last(kmap[k]) < VPAGES
    ensures Tables(dir, First(kmap[k]), Last(kmap[k]) + 1) == RegionTables(kmap, k)
  {
    var i, e := First(kmap[k]) / ENTRIES, Last(kmap[k]) / ENTRIES;
    RegionPages(kmap[k]);
    forall x: nat | i < x < e + 1 ensures !Present(dir[x]) {
      FirstShared(kmap, k, x);
    }
    FirstShared(kmap, k, i);
    AbsentAfter(dir, i, e + 1);
  }

  lemma FirstShared(kmap: seq<Region>, k: nat, x: nat)
    requires KmapOk(kmap) && k < |kmap| && First(kmap[k]) / ENTRIES <= x
    ensures Reaches(kmap, k, x) <==> x == First(kmap[k]) / ENTRIES && k > 0 && Last(kmap[k - 1]) / ENTRIES == x
  {
    if Reaches(kmap, k, x) {
      var j :| 0 <= j < k && First(kmap[j]) / ENTRIES <= x <= Last(kmap[j]) / ENTRIES;
      RegionPages(kmap[k - 1]);
      assert Last(kmap[j]) <= Last(kmap[k - 1]) < First(kmap[k]);
    } else if k > 0 {
      RegionPages(kmap[k - 1]);
      assert Last(kmap[k - 1]) < First(kmap[k]);
    }
  }

  lemma TablesReached(dir: Page, dir': Page, kmap: seq<Region>, k: nat)
    requires KmapOk(kmap) && k < |kmap| && KernelTables(dir, kmap, k)
    requires DirGrown(dir, dir', First(kmap[k]), Last(kmap[k]) + 1)
    ensures KernelTables(dir', kmap, k + 1)
  {
    RegionPages(kmap[k]);
    forall i: nat {:trigger Reaches(kmap, k + 1, i)} | i < ENTRIES
      ensures Present(dir'[i]) <==> Reaches(kmap, k + 1, i)
    {
      assert EntryAfter(dir, dir', First(kmap[k]), Last(kmap[k]) + 1, i);
      assert Reaches(kmap, k + 1, i) <==>
             Reaches(kmap, k, i) || First(kmap[k]) / ENTRIES <= i <= Last(kmap[k]) / ENTRIES;
    }
  }

  // d is a new address space in which k regions of kmap, and nothing else, are mapped.
  ghost predicate Setup(vm: Vm, vm': Vm, dirs: set<nat>, own: map<nat, Slot>, own': map<nat, Slot>, d: nat,
                        kmap: seq<Region>, k: nat)
    requires Ok(vm, dirs, own) && KmapOk(kmap) && k <= |kmap|
  {
    && d !in dirs && d != 0 && |vm'.mem| == |vm.mem| && Ok(vm', dirs + {d}, own')
    && Uses(vm', own') == Uses(vm, own) && Extends(own, own') && AllSame(vm.mem, vm'.mem, dirs)
    && KernelMapped(vm'.mem, d, kmap, k) && OnlyKernel(vm'.mem, d, kmap, k)
    && KernelTables(vm'.mem[d], kmap, k) && |vm.free| == |vm'.free| + 1 + KTables(kmap, k)
  }

  method NewDir(vm: Vm, kmap: seq<Region>, ghost dirs: set<nat>, ghost own: map<nat, Slot>)
    returns (vm': Vm, d: nat, ghost own': map<nat, Slot>)
    requires Ok(vm, dirs, own) && KmapOk(kmap) && vm.free != []
    ensures Setup(vm, vm', dirs, own, own', d, kmap, 0) && d == vm.free[0]
  {
    vm', d := KallocFilled(vm, Fill(0), dirs, own);
    NewSpace(vm'.mem, dirs, own, d);
    own' := own[d := Dir(d)];
  }

  lemma RegionOnly(m1: Mem, m2: Mem, dirs: set<nat>, d: nat, kmap: seq<Region>, k: nat)
    requires Formed(m1, dirs) && Formed(m2, dirs) && d in dirs && KmapOk(kmap) && k < |kmap| && Last(kmap[k]) < VPAGES
    requires Elsewhere(m1, m2, dirs, d, First(kmap[k]), Last(kmap[k]) + 1) && OnlyKernel(m1, d, kmap, k)
    ensures OnlyKernel(m2, d, kmap, k + 1)
  {
    forall n: nat | n < VPAGES && Outside(kmap, k + 1, n) ensures !Present(Pte(m2, d, n)) {
      assert Outside(kmap, k, n);
      assert n < First(kmap[k]) || Last(kmap[k]) < n;
      assert SameView(m1, m2, dirs, d, n);
    }
  }

  lemma RegionFree(mem: Mem, d: nat, kmap: seq<Region>, k: nat)
    requires d < |mem| && forall f | 0 <= f < |mem| :: |mem[f]| == ENTRIES
    requires KmapOk(kmap) && k < |kmap| && Last(kmap[k]) < VPAGES && OnlyKernel(mem, d, kmap, k)
    ensures Unmapped(mem, d, First(kmap[k]), Last(kmap[k]) + 1)
  {
    forall n: nat | First(kmap[k]) <= n < Last(kmap[k]) + 1 ensures !Present(Pte(mem, d, n)) {
      assert Outside(kmap, k, n);
    }
  }

  lemma RegionDone(vm: Vm, vm1: Vm, vm2: Vm, dirs: set<nat>, own: map<nat, Slot>, own1: map<nat, Slot>,
                   own2: map<nat, Slot>, d: nat, kmap: seq<Region>, k: nat)
    requires Ok(vm, dirs, own) && KmapOk(kmap) && k < |kmap| && Setup(vm, vm1, dirs, own, own1, d, kmap, k)
    requires Mapping(vm1, vm2, dirs + {d}, own1, own2, d, kmap[k], Last(kmap[k]) + 1)
    ensures Setup(vm, vm2, dirs, own, own2, d, kmap, k + 1)
  {
    RegionPages(kmap[k]);
    SpaceKept(vm.mem, vm1.mem, vm2.mem, dirs, d, First(kmap[k]), Last(kmap[k]) + 1);
    RegionKept(vm1.mem, vm2.mem, dirs + {d}, d, kmap, k);
    RegionOnly(vm1.mem, vm2.mem, dirs + {d}, d, kmap, k);
    RegionNeeds(vm1.mem[d], kmap, k);
    TablesReached(vm1.mem[d], vm2.mem[d], kmap, k);
    ExtendsTrans(own, own1, own2);
  }

  // What setupkvm leaves behind when it fails.
  ghost predicate Abandoned(vm: Vm, vm': Vm, dirs: set<nat>, dirs': set<nat>, own: map<nat, Slot>, own': map<nat, Slot>)
    requires Ok(vm, dirs, own)
  {
    && dirs <= dirs' && Ok(vm', dirs', own') && |vm'.mem| == |vm.mem| && Uses(vm', own') == Uses(vm, own)
    && Extends(own, own') && AllSame(vm.mem, vm'.mem, dirs) && vm'.free == []
  }

  method SetupRegion(vm: Vm, kmap: seq<Region>, k: nat, d: nat, ghost vm0: Vm, ghost dirs: set<nat>,
                     ghost own0: map<nat, Slot>, ghost own: map<nat, Slot>)
    returns (vm': Vm, ok: bool, ghost own': map<nat, Slot>)
    requires Ok(vm0, dirs, own0) && KmapOk(kmap) && k < |kmap| && Setup(vm0, vm, dirs, own0, own, d, kmap, k)
    ensures !ok || Setup(vm0, vm', dirs, own0, own', d, kmap, k + 1)
    ensures ok || Abandoned(vm0, vm', dirs, dirs + {d}, own0, own')
    ensures ok <==> 1 + KTables(kmap, k + 1) <= |vm0.free|
  {
    RegionPages(kmap[k]);
    RegionFree(vm.mem, d, kmap, k);
    RegionNeeds(vm.mem[d], kmap, k);
    ghost var upto;
    vm', ok, own', upto := Mappages(vm, d, kmap[k], dirs + {d}, own);
    if ok {
      RegionDone(vm0, vm, vm', dirs, own0, own, own', d, kmap, k);
    } else {
      SpaceKept(vm0.mem, vm.mem, vm'.mem, dirs, d, First(kmap[k]), upto);
      ExtendsTrans(own0, own, own');
    }
  }

  // A new address space with the kernel's mappings and nothing else, exactly if there are frames
  // for its directory and its page tables.  Otherwise the call fails and what was built so far
  // stays allocated.
  method Setupkvm(vm: Vm, kmap: seq<Region>, ghost dirs: set<nat>, ghost own: map<nat, Slot>)
    returns (vm': Vm, d: nat, ghost dirs': set<nat>, ghost own': map<nat, Slot>)
    requires Ok(vm, dirs, own) && KmapOk(kmap)
    ensures d != 0 <==> 1 + KTables(kmap, |kmap|) <= |vm.free|
    ensures d != 0 ==> dirs' == dirs + {d} && Setup(vm, vm', dirs, own, own', d, kmap, |kmap|)
    ensures d == 0 ==> Abandoned(vm, vm', dirs, dirs', own, own')
    ensures d == 0 && vm.free != [] ==> dirs' == dirs + {vm.free[0]}
  {
    KTablesMore(kmap, 0, |kmap|);
    if vm.free == [] {
      AllSameSelf(vm.mem, dirs);
      return vm, 0, dirs, own;
    }
    vm', d, own' := NewDir(vm, kmap, dirs, own);
    dirs' := dirs + {d};
    var k := 0;
    while k < |kmap|
      invariant 0 <= k <= |kmap| && Setup(vm, vm', dirs, own, own', d, kmap, k)
    {
      var ok;
      vm', ok, own' := SetupRegion(vm', kmap, k, d, vm, dirs, own, own');
      if !ok {
        KTablesMore(kmap, k + 1, |kmap|);
        return vm', 0, dirs', own';
      }
      k := k + 1;
    }
  }

  lemma SpaceKept(m0: Mem, m1: Mem, m2: Mem, dirs: set<nat>, d: nat, lo: nat, hi: nat)
    requires Formed(m0, dirs) && Formed(m1, dirs + {d}) && Formed(m2, dirs + {d}) && |m1| == |m0| && d !in dirs
    requires AllSame(m0, m1, dirs) && Elsewhere(m1, m2, dirs + {d}, d, lo, hi)
    ensures AllSame(m0, m2, dirs)
  {
    forall x, n: nat | x in dirs && n < VPAGES ensures SameView(m0, m2, dirs, x, n) {
      assert SameSpace(m0, m1, dirs, x) && SameView(m1, m2, dirs + {d}, x, n);
      ViewTrans(m0, m1, m2, dirs, x, n);
    }
  }

  lemma RegionKept(m1: Mem, m2: Mem, dirs: set<nat>, d: nat, kmap: seq<Region>, k: nat)
    requires Formed(m1, dirs) && Formed(m2, dirs) && d in dirs && KmapOk(kmap) && k < |kmap| && Last(kmap[k]) < VPAGES
    requires Elsewhere(m1, m2, dirs, d, First(kmap[k]), Last(kmap[k]) + 1)
    requires KernelMapped(m1, d, kmap, k) && MappedTo(m2, d, kmap[k], Last(kmap[k]) + 1)
    ensures KernelMapped(m2, d, kmap, k + 1)
  {
    forall j | 0 <= j < k ensures MappedTo(m2, d, kmap[j], Last(kmap[j]) + 1) {
      assert MappedTo(m1, d, kmap[j], Last(kmap[j]) + 1);
      RegionPages(kmap[j]);
      forall m: nat | First(kmap[j]) <= m < Last(kmap[j]) + 1
        ensures Pte(m2, d, m) == Make(FrameOf(kmap[j], m), kmap[j].perm)
      {
        assert SameView(m1, m2, dirs, d, m);
      }
    }
  }

  // setupkvm with the kernel's own table.
  method KernelSpace(vm: Vm, data: nat, ghost dirs: set<nat>, ghost own: map<nat, Slot>)
    returns (vm': Vm, d: nat, ghost dirs': set<nat>, ghost own': map<nat, Slot>)
    requires Ok(vm, dirs, own) && KERNBASE + EXTMEM < data < KERNBASE + PHYSTOP && data % PGSIZE == 0
    ensures d != 0 ==> dirs' == dirs + {d} && Ok(vm', dirs', own') && AllSame(vm.mem, vm'.mem, dirs)
    ensures d != 0 ==> forall n: nat | n < VPAGES :: Present(Pte(vm'.mem, d, n)) <==> KernelPage(n)
    ensures d != 0 ==> forall n: nat | n < VPAGES && KernelPage(n) :: Pte(vm'.mem, d, n) == KernelEntry(data, n)
  {
    KmapFits(data);
    vm', d, dirs', own' := Setupkvm(vm, Kmap(data), dirs, own);
    if d != 0 {
      forall n: nat | n < VPAGES
        ensures Present(Pte(vm'.mem, d, n)) <==> KernelPage(n)
        ensures KernelPage(n) ==> Pte(vm'.mem, d, n) == KernelEntry(data, n)
      {
        KernelView(vm'.mem, d, data, n);
      }
    }
  }
}
