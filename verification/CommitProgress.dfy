/**
 The group commit and the recovery at boot come to an end: from every state in which the
 transaction does not fill the buffer cache, the machine of GroupCommit has steps that finish
 what is under way and admit the next operation.
 */
module CommitProgress {
  import opened RedoLog
  import opened Log
  import opened GroupCommit

  predicate Quiet(step: Step) {
    !step.ModifyStep? && !step.CrashStep?
  }

  // A step that changes no block and is no crash.
  ghost predicate Hop(g: Layout, s: State, t: State) {
    exists step :: Quiet(step) && NextStep(g, s, t, step)
  }

  // At most n such steps lead from s to t.
  ghost predicate Chain(g: Layout, s: State, t: State, n: nat)
    decreases n
  {
    s == t || (n > 0 && exists m :: Hop(g, s, m) && Chain(g, m, t, n - 1))
  }

  // Such steps lead from s to t.
  ghost predicate Goes(g: Layout, s: State, t: State) {
    exists n: nat :: Chain(g, s, t, n)
  }

  lemma GoesStep(g: Layout, s: State, t: State, step: Step)
    requires Quiet(step) && NextStep(g, s, t, step)
    ensures Goes(g, s, t)
  {
    assert Hop(g, s, t) && Chain(g, t, t, 0);
    assert Chain(g, s, t, 1);
  }

  lemma {:induction false} ChainTrans(g: Layout, s: State, m: State, t: State, k: nat, n: nat)
    requires Chain(g, s, m, k) && Chain(g, m, t, n)
    ensures Chain(g, s, t, k + n)
    decreases k
  {
    if s == m {
      ChainMore(g, m, t, n, k + n);
    } else {
      var x :| Hop(g, s, x) && Chain(g, x, m, k - 1);
      ChainTrans(g, x, m, t, k - 1, n);
    }
  }

  lemma {:induction false} ChainMore(g: Layout, s: State, t: State, n: nat, k: nat)
    requires Chain(g, s, t, n) && n <= k
    ensures Chain(g, s, t, k)
    decreases n
  {
    if s != t {
      var x :| Hop(g, s, x) && Chain(g, x, t, n - 1);
      ChainMore(g, x, t, n - 1, k - 1);
    }
  }

  lemma GoesTrans(g: Layout, s: State, m: State, t: State)
    requires Goes(g, s, m) && Goes(g, m, t)
    ensures Goes(g, s, t)
  {
    var k: nat :| Chain(g, s, m, k);
    var n: nat :| Chain(g, m, t, n);
    ChainTrans(g, s, m, t, k, n);
  }

  lemma GoesSelf(g: Layout, s: State)
    ensures Goes(g, s, s)
  {
    assert Chain(g, s, s, 0);
  }

  // Such steps keep the invariant and what operations see.
  lemma HopKeeps(g: Layout, s: State, t: State)
    requires Inv(g, s) && Hop(g, s, t)
    ensures Inv(g, t) && SameMem(g, s, t)
  {
    var step :| Quiet(step) && NextStep(g, s, t, step);
    StepRefines(g, s, t, step);
  }

  lemma {:induction false} ChainKeeps(g: Layout, s: State, t: State, n: nat)
    requires Inv(g, s) && Chain(g, s, t, n)
    ensures Inv(g, t) && SameMem(g, s, t)
    decreases n
  {
    if s != t {
      var x :| Hop(g, s, x) && Chain(g, x, t, n - 1);
      HopKeeps(g, s, x);
      ChainKeeps(g, x, t, n - 1);
    }
  }

  lemma GoesKeeps(g: Layout, s: State, t: State)
    requires Inv(g, s) && Goes(g, s, t)
    ensures Inv(g, t) && SameMem(g, s, t)
  {
    var n: nat :| Chain(g, s, t, n);
    ChainKeeps(g, s, t, n);
  }

  // ------------------------------------------------------ getting a block

  // A full cache has a buffer outside `keep`.
  lemma Spare(cache: map<nat, Block>, keep: set<nat>) returns (v: nat)
    requires |keep| < |cache|
    ensures v in cache && v !in keep
  {
    if forall x | x in cache :: x in keep {
      Subset(cache.Keys, keep);
      assert false;
    }
    v :| v in cache && v !in keep;
  }

  lemma OneLess(m: map<nat, Block>, v: nat)
    requires v in m
    ensures |m - {v}| == |m| - 1
  {
    assert (m - {v}).Keys == m.Keys - {v};
  }

  lemma Recycle(g: Layout, s: State, v: nat) returns (t: State)
    requires Inv(g, s) && s.held == map[] && v in s.cache && v !in s.dirty
    ensures Goes(g, s, t) && Inv(g, t) && t == s.(cache := s.cache - {v})
  {
    t := s.(cache := s.cache - {v});
    EvictKeeps(g, s, t, v);
    GoesStep(g, s, t, EvictStep(v));
  }

  lemma Bring(g: Layout, s: State, b: nat) returns (t: State)
    requires Inv(g, s) && b < |s.disk| && b !in s.cache && |s.cache| < NBUF
    ensures Goes(g, s, t) && Inv(g, t) && t == s.(cache := s.cache[b := s.disk[b]])
  {
    t := s.(cache := s.cache[b := s.disk[b]]);
    LoadKeeps(g, s, t, b);
    GoesStep(g, s, t, LoadStep(b));
  }

  // If the cache is full, a buffer that is neither pinned nor in `keep` is recycled.
  lemma Room(g: Layout, s: State, keep: set<nat>) returns (t: State)
    requires Inv(g, s) && s.held == map[] && |s.dirty + keep| < NBUF
    ensures Goes(g, s, t) && Inv(g, t) && |t.cache| < NBUF && t == s.(cache := t.cache)
    ensures forall b | b in s.cache && b in keep :: b in t.cache
    ensures forall b | b in t.cache :: b in s.cache
  {
    GoesSelf(g, s);
    t := s;
    if |s.cache| == NBUF {
      var v := Spare(s.cache, s.dirty + keep);
      OneLess(s.cache, v);
      t := Recycle(g, s, v);
    }
  }

  // Block b is brought into the cache, which keeps the blocks of `keep`.
  lemma Get(g: Layout, s: State, b: nat, keep: set<nat>) returns (t: State)
    requires Inv(g, s) && b < |s.disk| && s.held == map[] && |s.dirty + keep| < NBUF
    ensures Goes(g, s, t) && Inv(g, t) && t == s.(cache := t.cache) && b in t.cache
    ensures forall x | x in s.cache && x in keep :: x in t.cache
  {
    GoesSelf(g, s);
    t := s;
    if b !in s.cache {
      var mid := Room(g, s, keep);
      t := Bring(g, mid, b);
      GoesTrans(g, s, mid, t);
    }
  }

  // --------------------------------------------------------------- commit

  // How many steps of the commit are left.
  function Left(s: State): nat {
    match s.phase
    case Writing(k) => if k <= |s.lh| then 2 * |s.lh| + 3 - k else 0
    case Installing(k) => if k <= |s.lh| then |s.lh| + 2 - k else 0
    case Erased => 1
    case _ => 0
  }

  // Nobody uses a buffer, and the logged blocks do not fill the cache.
  ghost predicate Calm(s: State) {
    s.held == map[] && |s.lh| < NBUF
  }

  // What a step of the commit brings about.
  ghost predicate Nearer(s: State, s': State) {
    && Calm(s') && Left(s') < Left(s) && (Committing(s') || s'.phase.Erased?)
    && s'.ops == s.ops && s'.outstanding == s.outstanding
  }

  // With the block that it wants in the cache, the commit takes its next step.
  lemma WritingAct(g: Layout, s: State) returns (s': State, step: Step)
    requires Inv(g, s) && Calm(s) && s.phase.Writing? && Wanted(g, s) in s.cache
    ensures NextStep(g, s, s', step) && Quiet(step) && Nearer(s, s')
  {
    var k := s.phase.done;
    if k < |s.lh| {
      var from, to := s.lh[k], g.start + 1 + k;
      assert from in From(s.lh, 0);
      step := WriteSlotStep;
      s' := s.(disk := s.disk[to := s.cache[from]], cache := s.cache[to := s.cache[from]], phase := Writing(k + 1));
    } else {
      var h := PutHead(s.cache[g.start], s.lh);
      step := WriteHeadStep;
      s' := s.(disk := s.disk[g.start := h], cache := s.cache[g.start := h], phase := Installing(0));
    }
  }

  lemma InstallingAct(g: Layout, s: State) returns (s': State, step: Step)
    requires Inv(g, s) && Calm(s) && s.phase.Installing? && Wanted(g, s) in s.cache
    ensures NextStep(g, s, s', step) && Quiet(step) && Nearer(s, s')
  {
    var k := s.phase.done;
    if k < |s.lh| {
      var from, to := g.start + 1 + k, s.lh[k];
      assert to in From(s.lh, k);
      step := InstallSlotStep;
      s' := s.(disk := s.disk[to := s.cache[from]], cache := s.cache[to := s.cache[from]],
               dirty := s.dirty - {to}, phase := Installing(k + 1));
    } else {
      var h := PutHead(s.cache[g.start], []);
      step := EraseHeadStep;
      s' := s.(disk := s.disk[g.start := h], cache := s.cache[g.start := h], lh := [], phase := Erased);
    }
  }

  lemma Act(g: Layout, s: State) returns (t: State)
    requires Inv(g, s) && Calm(s) && Committing(s) && Wanted(g, s) in s.cache
    ensures Goes(g, s, t) && Nearer(s, t)
  {
    var step;
    if s.phase.Writing? {
      t, step := WritingAct(g, s);
    } else {
      t, step := InstallingAct(g, s);
    }
    GoesStep(g, s, t, step);
  }

  lemma WantedThere(g: Layout, s: State)
    requires Inv(g, s) && Committing(s) && Calm(s)
    ensures Wanted(g, s) < |s.disk| && |s.dirty + {}| < NBUF
  {
    DirtyCount(g, s);
    assert s.dirty + {} == s.dirty;
  }

  lemma CommitStep(g: Layout, s: State) returns (t: State)
    requires Inv(g, s) && Calm(s) && Committing(s)
    ensures Goes(g, s, t) && Nearer(s, t)
  {
    WantedThere(g, s);
    var there := Get(g, s, Wanted(g, s), {});
    SameWanted(g, s, there);
    t := Act(g, there);
    GoesTrans(g, s, there, t);
  }

  lemma SameWanted(g: Layout, s: State, t: State)
    requires Committing(s) && Calm(s) && t == s.(cache := t.cache)
    ensures Committing(t) && Calm(t) && Wanted(g, t) == Wanted(g, s)
  {
  }

  lemma {:induction false} CommitSteps(g: Layout, s: State) returns (t: State)
    requires Inv(g, s) && Calm(s) && (Committing(s) || s.phase.Erased?)
    ensures Goes(g, s, t) && t.phase.Normal? && t.lh == [] && t.ops == s.ops && t.outstanding == s.outstanding
    decreases Left(s)
  {
    if s.phase.Erased? {
      t := s.(phase := Normal);
      GoesStep(g, s, t, CommitDoneStep);
    } else {
      var mid := CommitStep(g, s);
      GoesKeeps(g, s, mid);
      t := CommitSteps(g, mid);
      GoesTrans(g, s, mid, t);
    }
  }

  // begin_op admits process p.
  ghost predicate Admits(s: State, p: nat) {
    exists s' :: BeginOp(s, s', p)
  }

  lemma AllAdmitted(g: Layout, s: State, t: State, p: nat)
    requires Inv(g, s) && !s.phase.Normal? && t.phase.Normal? && t.lh == []
    requires t.ops == s.ops && t.outstanding == s.outstanding && p < |t.ops|
    ensures Admits(t, p)
  {
    NothingTouched(g, s);
    assert BeginOp(t, t.(outstanding := t.outstanding + 1, ops := t.ops[p := Open(0)]), p);
  }

  // Once log_write has put the block in the log its holder may release it, and anybody take it.
  lemma LoggedReleases(g: Layout, s: State, s': State, p: nat) returns (t: State)
    requires Inv(g, s) && NextStep(g, s, s', LogAppendStep(p))
    ensures p in s.calls && NextStep(g, s', t, ReleaseStep(p, s.calls[p].b))
    ensures s.calls[p].b in t.lh && s.calls[p].b in t.dirty && Free(t, s.calls[p].b)
  {
    t := s'.(held := s'.held - {s.calls[p].b});
  }

  // Whoever holds buffers may release them.
  lemma {:induction false} ReleaseAll(g: Layout, s: State) returns (t: State)
    requires Inv(g, s) && !s.phase.Normal?
    ensures Goes(g, s, t) && t == s.(held := map[])
    decreases |s.held|
  {
    if s.held == map[] {
      t := s;
      GoesSelf(g, s);
    } else {
      var b :| b in s.held;
      var mid := s.(held := s.held - {b});
      NothingTouched(g, s);
      GoesStep(g, s, mid, ReleaseStep(s.held[b], b));
      GoesKeeps(g, s, mid);
      t := ReleaseAll(g, mid);
      GoesTrans(g, s, mid, t);
    }
  }

  // A commit comes to an end: what operations see is the same, a crash would leave it too, and every
  // process may begin an operation.
  lemma CommitEnds(g: Layout, s: State) returns (t: State)
    requires Inv(g, s) && |s.lh| < NBUF && (Committing(s) || s.phase.Erased?)
    ensures Goes(g, s, t) && Inv(g, t) && t.phase.Normal? && t.lh == []
    ensures forall b: nat | Home(g, b) :: Mem(g, t, b) == Mem(g, s, b) == Durable(g, t, b)
    ensures forall p: nat | p < |t.ops| :: Admits(t, p)
  {
    var mid := ReleaseAll(g, s);
    GoesKeeps(g, s, mid);
    t := CommitSteps(g, mid);
    GoesTrans(g, s, mid, t);
    GoesKeeps(g, s, t);
    forall p: nat | p < |t.ops| ensures Admits(t, p) { AllAdmitted(g, s, t, p); }
    NothingPending(g, s, t);
  }

  // Once the log is erased, a single step lets every process begin an operation, whoever holds what.
  lemma ErasedAdmits(g: Layout, s: State) returns (t: State)
    requires Inv(g, s) && s.phase.Erased?
    ensures NextStep(g, s, t, CommitDoneStep) && forall p: nat | p < |t.ops| :: Admits(t, p)
  {
    t := s.(phase := Normal);
    forall p: nat | p < |t.ops| ensures Admits(t, p) { AllAdmitted(g, s, t, p); }
  }

  lemma {:induction false} FullStays(g: Layout, s: State, t: State, n: nat)
    requires Inv(g, s) && s.phase.Writing? && s.phase.done < |s.lh| == NBUF && Chain(g, s, t, n)
    ensures t.phase == s.phase
    decreases n
  {
    if s != t {
      var m :| Hop(g, s, m) && Chain(g, m, t, n - 1);
      var step :| Quiet(step) && NextStep(g, s, m, step);
      FullTransactionStuck(g, s, m, step);
      HopKeeps(g, s, m);
      FullStays(g, m, t, n - 1);
    }
  }

  // A commit that starts can end exactly if its blocks do not fill the buffer cache.
  lemma CommitEndsIff(g: Layout, s: State)
    requires Inv(g, s) && s.phase == Writing(0)
    ensures (exists t :: Goes(g, s, t) && t.phase.Normal?) <==> |s.lh| < NBUF
  {
    DirtyCount(g, s);
    if |s.lh| < NBUF {
      var t := CommitEnds(g, s);
    } else {
      forall t | Goes(g, s, t) ensures !t.phase.Normal? {
        var n: nat :| Chain(g, s, t, n);
        FullStays(g, s, t, n);
      }
    }
  }

  lemma NothingPending(g: Layout, s: State, t: State)
    requires Inv(g, s) && !s.phase.Normal? && Inv(g, t) && t.phase.Normal? && t.lh == [] && t.ops == s.ops
    ensures forall b: nat | Home(g, b) :: Durable(g, t, b) == Mem(g, t, b)
  {
    assert t.touched == {};
    EmptyLog(g, t.disk);
  }

  // -------------------------------------------------------------- recovery

  // The blocks that the next step of recovery reads are cached.
  predicate Ready(g: Layout, s: State)
    requires s.phase.Booting?
  {
    if s.phase.done < |s.lh| then g.start + 1 + s.phase.done in s.cache && s.lh[s.phase.done] in s.cache
    else g.start in s.cache
  }

  lemma BootAct(g: Layout, s: State) returns (t: State)
    requires Inv(g, s) && s.phase.Booting? && s.held == map[] && Ready(g, s)
    ensures Goes(g, s, t) && t.held == map[]
    ensures if s.phase.done < |s.lh| then t.phase == Booting(s.phase.done + 1) && t.lh == s.lh
            else t.phase.Normal? && t.lh == []
  {
    var k := s.phase.done;
    if k < |s.lh| {
      var from, to := g.start + 1 + k, s.lh[k];
      assert Home(g, to);
      t := s.(disk := s.disk[to := s.cache[from]], cache := s.cache[to := s.cache[from]], phase := Booting(k + 1));
      GoesStep(g, s, t, BootInstallStep);
    } else {
      var h := PutHead(s.cache[g.start], []);
      t := s.(disk := s.disk[g.start := h], cache := s.cache[g.start := h], lh := [], phase := Normal);
      GoesStep(g, s, t, BootEraseStep);
    }
  }

  lemma BootWants(g: Layout, s: State)
    requires Inv(g, s) && s.phase.Booting?
    ensures s.dirty == {} && s.phase.done <= |s.lh| && g.start < |s.disk|
    ensures s.phase.done < |s.lh| ==> g.start + 1 + s.phase.done < |s.disk| && s.lh[s.phase.done] < |s.disk|
  {
    if s.phase.done < |s.lh| { assert Home(g, s.lh[s.phase.done]); }
  }

  lemma GetTwo(g: Layout, s: State, a: nat, b: nat) returns (t: State)
    requires Inv(g, s) && s.held == map[] && s.dirty == {} && a < |s.disk| && b < |s.disk|
    ensures Goes(g, s, t) && Inv(g, t) && t == s.(cache := t.cache) && a in t.cache && b in t.cache
  {
    var none: set<nat> := {};
    assert s.dirty + none == {} && s.dirty + {a} == {a};
    var mid := Get(g, s, a, none);
    t := Get(g, mid, b, {a});
    GoesTrans(g, s, mid, t);
  }

  lemma BootGet(g: Layout, s: State) returns (t: State)
    requires Inv(g, s) && s.phase.Booting? && s.held == map[]
    ensures Goes(g, s, t) && Inv(g, t) && t == s.(cache := t.cache) && Ready(g, t)
  {
    BootWants(g, s);
    if s.phase.done < |s.lh| {
      t := GetSlot(g, s);
    } else {
      t := GetHead(g, s);
    }
  }

  lemma GetSlot(g: Layout, s: State) returns (t: State)
    requires Inv(g, s) && s.phase.Booting? && s.held == map[] && s.dirty == {} && s.phase.done < |s.lh|
    requires g.start + 1 + s.phase.done < |s.disk| && s.lh[s.phase.done] < |s.disk|
    ensures Goes(g, s, t) && Inv(g, t) && t == s.(cache := t.cache) && Ready(g, t)
  {
    var a, b := g.start + 1 + s.phase.done, s.lh[s.phase.done];
    t := GetTwo(g, s, a, b);
    GotSlot(g, s, t, a, b);
  }

  lemma GetHead(g: Layout, s: State) returns (t: State)
    requires Inv(g, s) && s.phase.Booting? && s.held == map[] && s.dirty == {} && s.phase.done == |s.lh|
    requires g.start < |s.disk|
    ensures Goes(g, s, t) && Inv(g, t) && t == s.(cache := t.cache) && Ready(g, t)
  {
    var none: set<nat> := {};
    assert s.dirty + none == {};
    t := Get(g, s, g.start, none);
    GotHead(g, s, t);
  }

  lemma GotSlot(g: Layout, s: State, t: State, a: nat, b: nat)
    requires s.phase.Booting? && s.phase.done < |s.lh| && t == s.(cache := t.cache)
    requires a == g.start + 1 + s.phase.done && b == s.lh[s.phase.done] && a in t.cache && b in t.cache
    ensures t.phase.Booting? && Ready(g, t)
  {
  }

  lemma GotHead(g: Layout, s: State, t: State)
    requires s.phase.Booting? && s.phase.done == |s.lh| && t == s.(cache := t.cache) && g.start in t.cache
    ensures t.phase.Booting? && Ready(g, t)
  {
  }

  lemma {:induction false} BootSteps(g: Layout, s: State) returns (t: State)
    requires Inv(g, s) && s.phase.Booting? && s.held == map[] && s.phase.done <= |s.lh|
    ensures Goes(g, s, t) && t.phase.Normal? && t.lh == []
    decreases |s.lh| - s.phase.done
  {
    var there := BootGet(g, s);
    var mid := BootAct(g, there);
    GoesTrans(g, s, there, mid);
    t := mid;
    if s.phase.done < |s.lh| {
      GoesKeeps(g, s, mid);
      t := BootSteps(g, mid);
      GoesTrans(g, s, mid, t);
    }
  }

  // After a crash recovery comes to an end, with what the crash left.
  lemma BootEnds(g: Layout, s: State, s1: State) returns (t: State)
    requires Inv(g, s) && NextStep(g, s, s1, CrashStep)
    ensures Inv(g, s1) && Goes(g, s1, t) && Inv(g, t) && t.phase.Normal? && t.lh == []
    ensures forall b: nat | Home(g, b) :: Mem(g, t, b) == Durable(g, s, b)
  {
    StepRefines(g, s, s1, CrashStep);
    t := BootSteps(g, s1);
    GoesKeeps(g, s1, t);
  }
}
