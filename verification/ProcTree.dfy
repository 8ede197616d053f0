/**
 The process table of proc.c under every interleaving of fork, clone, exit, wait and the
 scheduler's culling of threads.  Steps are what runs under ptable.lock or touches a slot
 that only its maker uses; RUNNABLE, RUNNING, SLEEPING, WAIT and MSGWAIT are one state LIVE.
 */
module ProcTree {

  datatype PState = UNUSED | EMBRYO | LIVE | ZOMBIE | CRASHED
  datatype Kind = PROCESS | THREAD
  datatype Proc = Proc(st: PState, pid: nat, parent: int, kind: Kind, crashed: bool)    // parent -1: none

  // Where a process is in fork or clone: it has slot np from allocproc, has read the parent
  // to give it, or has set its parent.
  datatype Job = NoJob | Made(np: nat) | Loaded(np: nat, par: int) | Linked(np: nat)

  datatype State = State(procs: seq<Proc>, jobs: seq<Job>, nextpid: nat)

  predicate Live(s: State, a: int) {
    0 <= a < |s.procs| && s.procs[a].st == LIVE
  }

  predicate Doing(s: State, a: nat, job: Job) {
    Live(s, a) && a < |s.jobs| && s.jobs[a] == job
  }

  function Put(s: State, p: nat, proc: Proc): State
    requires p < |s.procs|
  {
    s.(procs := s.procs[p := proc])
  }

  function Do(s: State, a: nat, job: Job): State
    requires a < |s.jobs|
  {
    s.(jobs := s.jobs[a := job])
  }

  // --------------------------------------------------------------- steps

  predicate Alloc(s: State, s': State, a: nat, np: nat) {
    && Doing(s, a, NoJob) && np < |s.procs| && s.procs[np].st == UNUSED
    && s' == Do(Put(s, np, s.procs[np].(st := EMBRYO, pid := s.nextpid)), a, Made(np)).(nextpid := s.nextpid + 1)
  }

  // No kernel stack, or no memory for the copy.
  predicate Fail(s: State, s': State, a: nat, np: nat) {
    && Doing(s, a, Made(np)) && np < |s.procs|
    && s' == Do(Put(s, np, s.procs[np].(st := UNUSED)), a, NoJob)
  }

  // fork, and clone by a process: the maker is the parent.
  predicate Link(s: State, s': State, a: nat, np: nat, kind: Kind) {
    && Doing(s, a, Made(np)) && np < |s.procs| && (kind == THREAD ==> s.procs[a].kind == PROCESS)
    && s' == Do(Put(s, np, s.procs[np].(kind := kind, parent := a)), a, Linked(np))
  }

  // clone by a thread: np->parent = proc->parent, a load and a store with no lock held.
  predicate Load(s: State, s': State, a: nat, np: nat) {
    && Doing(s, a, Made(np)) && np < |s.procs| && s.procs[a].kind == THREAD
    && s' == Do(Put(s, np, s.procs[np].(kind := THREAD)), a, Loaded(np, s.procs[a].parent))
  }

  predicate Store(s: State, s': State, a: nat, np: nat, par: int) {
    && Doing(s, a, Loaded(np, par)) && np < |s.procs|
    && s' == Do(Put(s, np, s.procs[np].(parent := par)), a, Linked(np))
  }

  predicate Start(s: State, s': State, a: nat, np: nat) {
    && Doing(s, a, Linked(np)) && np < |s.procs| && np < |s.jobs|
    && s' == Do(Do(Put(s, np, s.procs[np].(st := LIVE, crashed := false)), np, NoJob), a, NoJob)
  }

  function Orphan(proc: Proc, a: nat, init: nat): Proc {
    if proc.parent == a then proc.(parent := init) else proc
  }

  function Orphaned(procs: seq<Proc>, a: nat, init: nat): (r: seq<Proc>)
    ensures |r| == |procs| && forall p | 0 <= p < |procs| :: r[p] == Orphan(procs[p], a, init)
  {
    seq(|procs|, p requires 0 <= p < |procs| => Orphan(procs[p], a, init))
  }

  // exit passes the children to init; init itself panics instead.
  predicate Exit(s: State, s': State, a: nat, init: nat, crashed: bool) {
    && Doing(s, a, NoJob) && a != init
    && var procs := Orphaned(s.procs, a, init);
       s' == s.(procs := procs[a := procs[a].(st := ZOMBIE, crashed := crashed)])
  }

  function Empty(proc: Proc): Proc {
    proc.(st := UNUSED, pid := 0, parent := -1)
  }

  predicate Wait(s: State, s': State, a: nat, p: nat) {
    && Doing(s, a, NoJob) && p < |s.procs| && s.procs[p].parent == a && s.procs[p].st == ZOMBIE
    && s.procs[p].kind == PROCESS
    && s' == Put(s, p, if s.procs[p].crashed then s.procs[p].(st := CRASHED) else Empty(s.procs[p]))
  }

  // The scheduler culls a dead thread.
  predicate Cull(s: State, s': State, p: nat) {
    && p < |s.procs| && s.procs[p].kind == THREAD && s.procs[p].st == ZOMBIE
    && s' == Put(s, p, Empty(s.procs[p]))
  }

  datatype Step =
    | AllocStep(a: nat, np: nat) | FailStep(a: nat, np: nat) | LinkStep(a: nat, np: nat, kind: Kind)
    | LoadStep(a: nat, np: nat) | StoreStep(a: nat, np: nat, par: int) | StartStep(a: nat, np: nat)
    | ExitStep(a: nat, crashed: bool) | WaitStep(a: nat, p: nat) | CullStep(p: nat)

  predicate Next(init: nat, s: State, s': State, step: Step) {
    match step
    case AllocStep(a, np) => Alloc(s, s', a, np)
    case FailStep(a, np) => Fail(s, s', a, np)
    case LinkStep(a, np, kind) => Link(s, s', a, np, kind)
    case LoadStep(a, np) => Load(s, s', a, np)
    case StoreStep(a, np, par) => Store(s, s', a, np, par)
    case StartStep(a, np) => Start(s, s', a, np)
    case ExitStep(a, crashed) => Exit(s, s', a, init, crashed)
    case WaitStep(a, p) => Wait(s, s', a, p)
    case CullStep(p) => Cull(s, s', p)
  }

  // ----------------------------------------------------------- invariant

  // q may be the parent of p: alive, older, and not a thread over a thread.
  predicate GoodParent(s: State, p: nat, q: int)
    requires p < |s.procs|
  {
    Live(s, q) && s.procs[q].pid < s.procs[p].pid && !(s.procs[p].kind == THREAD && s.procs[q].kind == THREAD)
  }

  // In the process tree every process has a good parent or none.
  predicate Tree(s: State) {
    forall p: nat | p < |s.procs| && s.procs[p].parent != -1 ::
      s.procs[p].st != UNUSED && GoodParent(s, p, s.procs[p].parent)
  }

  // Everybody else is younger than init.
  predicate InitInv(init: nat, s: State) {
    && |s.jobs| == |s.procs| && Live(s, init) && s.procs[init].kind == PROCESS && s.procs[init].parent == -1
    && s.procs[init].pid < s.nextpid
    && forall p: nat | p < |s.procs| && s.procs[p].st != UNUSED :: s.procs[p].pid < s.nextpid
  }

  // The slot a process is filling in is an EMBRYO younger than init, and only its own.
  ghost predicate JobInv(init: nat, s: State, a: nat)
    requires a < |s.jobs| && init < |s.procs|
  {
    var job := s.jobs[a];
    && (job != NoJob ==> Live(s, a) && job.np < |s.procs| && s.procs[job.np].st == EMBRYO)
    && (job != NoJob ==> s.procs[a].pid < s.procs[job.np].pid && s.procs[init].pid < s.procs[job.np].pid)
    && (job.Made? || job.Loaded? ==> s.procs[job.np].parent == -1)
    && (job.Loaded? ==> s.procs[job.np].kind == THREAD && s.procs[a].kind == THREAD)
  }

  ghost predicate Inv(init: nat, s: State) {
    && InitInv(init, s) && Tree(s)
    && (forall a: nat | a < |s.jobs| :: JobInv(init, s, a))
    && (forall a: nat, b: nat | a < b < |s.jobs| && s.jobs[a] != NoJob && s.jobs[b] != NoJob ::
        s.jobs[a].np != s.jobs[b].np)
    && (forall p: nat | p < |s.procs| && s.procs[p].parent != -1 :: s.procs[init].pid < s.procs[p].pid)
  }

  lemma AllocKeeps(init: nat, s: State, s': State, a: nat, np: nat)
    requires Inv(init, s) && Alloc(s, s', a, np)
    ensures Inv(init, s')
  {
    assert JobInv(init, s, a);
    forall b: nat | b < |s.jobs| && s.jobs[b] != NoJob ensures s.jobs[b].np != np { assert JobInv(init, s, b); }
    forall x: nat | x < |s'.jobs| ensures JobInv(init, s', x) { assert JobInv(init, s, x); }
  }

  lemma FailKeeps(init: nat, s: State, s': State, a: nat, np: nat)
    requires Inv(init, s) && Fail(s, s', a, np)
    ensures Inv(init, s')
  {
    assert JobInv(init, s, a);
    forall x: nat | x < |s'.jobs| ensures JobInv(init, s', x) { assert JobInv(init, s, x); }
  }

  lemma LinkKeeps(init: nat, s: State, s': State, a: nat, np: nat, kind: Kind)
    requires Inv(init, s) && Link(s, s', a, np, kind)
    ensures Inv(init, s')
  {
    assert JobInv(init, s, a);
    forall x: nat | x < |s'.jobs| ensures JobInv(init, s', x) { assert JobInv(init, s, x); }
  }

  lemma LoadKeeps(init: nat, s: State, s': State, a: nat, np: nat)
    requires Inv(init, s) && Load(s, s', a, np)
    ensures Inv(init, s')
  {
    assert JobInv(init, s, a);
    forall x: nat | x < |s'.jobs| ensures JobInv(init, s', x) { assert JobInv(init, s, x); }
  }

  lemma StartKeeps(init: nat, s: State, s': State, a: nat, np: nat)
    requires Inv(init, s) && Start(s, s', a, np)
    ensures Inv(init, s')
  {
    assert JobInv(init, s, a);
    assert JobInv(init, s, np);
    forall x: nat | x < |s'.jobs| ensures JobInv(init, s', x) { assert JobInv(init, s, x); }
  }

  lemma ExitKeeps(init: nat, s: State, s': State, a: nat, crashed: bool)
    requires Inv(init, s) && Exit(s, s', a, init, crashed)
    ensures Inv(init, s')
  {
    assert JobInv(init, s, a);
    forall x: nat | x < |s'.jobs| ensures JobInv(init, s', x) { assert JobInv(init, s, x); }
  }

  lemma WaitKeeps(init: nat, s: State, s': State, a: nat, p: nat)
    requires Inv(init, s) && Wait(s, s', a, p)
    ensures Inv(init, s')
  {
    assert JobInv(init, s, p);
    forall x: nat | x < |s'.jobs| ensures JobInv(init, s', x) { assert JobInv(init, s, x); }
  }

  lemma CullKeeps(init: nat, s: State, s': State, p: nat)
    requires Inv(init, s) && Cull(s, s', p)
    ensures Inv(init, s')
  {
    assert JobInv(init, s, p);
    forall x: nat | x < |s'.jobs| ensures JobInv(init, s', x) { assert JobInv(init, s, x); }
  }

  // The store of clone keeps the tree exactly if the process it loaded may still be the parent.
  lemma StoreIff(init: nat, s: State, s': State, a: nat, np: nat, par: int)
    requires Inv(init, s) && Store(s, s', a, np, par)
    ensures Tree(s') <==> par == -1 || GoodParent(s, np, par)
    ensures Tree(s') ==> Inv(init, s')
  {
    assert JobInv(init, s, a);
    forall x: nat | x < |s'.jobs| ensures JobInv(init, s', x) { assert JobInv(init, s, x); }
    assert np != par ==> (GoodParent(s', np, par) <==> GoodParent(s, np, par));
    assert s'.procs[np].parent == par;
  }

  lemma StepInv(init: nat, s: State, s': State, step: Step)
    requires Inv(init, s) && Next(init, s, s', step) && (step.StoreStep? ==> Tree(s'))
    ensures Inv(init, s')
  {
    match step
    case AllocStep(a, np) => AllocKeeps(init, s, s', a, np);
    case FailStep(a, np) => FailKeeps(init, s, s', a, np);
    case LinkStep(a, np, kind) => LinkKeeps(init, s, s', a, np, kind);
    case LoadStep(a, np) => LoadKeeps(init, s, s', a, np);
    case StoreStep(a, np, par) => StoreIff(init, s, s', a, np, par);
    case StartStep(a, np) => StartKeeps(init, s, s', a, np);
    case ExitStep(a, crashed) => ExitKeeps(init, s, s', a, crashed);
    case WaitStep(a, p) => WaitKeeps(init, s, s', a, p);
    case CullStep(p) => CullKeeps(init, s, s', p);
  }

  // ------------------------------------------- what becomes of a loaded parent

  predicate HasLoaded(s: State, a: nat) {
    a < |s.jobs| && s.jobs[a].Loaded? && s.jobs[a].np < |s.procs|
  }

  // The parent that a's clone has loaded may be stored.
  ghost predicate Fit(s: State, a: nat)
    requires HasLoaded(s, a)
  {
    s.jobs[a].par == -1 || GoodParent(s, s.jobs[a].np, s.jobs[a].par)
  }

  // It has exited; its slot can be live again only for a process younger than the new thread.
  ghost predicate Gone(s: State, a: nat)
    requires HasLoaded(s, a)
  {
    && 0 <= s.jobs[a].par < |s.procs|
    && (s.procs[s.jobs[a].par].st in {ZOMBIE, CRASHED, UNUSED} ||
        s.procs[s.jobs[a].np].pid < s.procs[s.jobs[a].par].pid)
  }

  lemma LoadFits(init: nat, s: State, s': State, a: nat, np: nat)
    requires Inv(init, s) && Load(s, s', a, np)
    ensures HasLoaded(s', a) && Fit(s', a)
  {
    assert JobInv(init, s, a);
    assert s.procs[a].parent != -1 ==> GoodParent(s, a, s.procs[a].parent);
  }

  // Only the exit of the loaded parent makes it unfit.
  lemma FitKept(init: nat, s: State, s': State, step: Step, a: nat)
    requires Inv(init, s) && Next(init, s, s', step) && HasLoaded(s, a) && Fit(s, a)
    requires a < |s'.jobs| && s'.jobs[a] == s.jobs[a] && !(step.ExitStep? && step.a == s.jobs[a].par)
    ensures HasLoaded(s', a) && Fit(s', a)
  {
    assert JobInv(init, s, a);
    if !step.CullStep? { assert JobInv(init, s, step.a); }
  }

  lemma ExitGone(init: nat, s: State, s': State, a: nat, crashed: bool, b: nat)
    requires Inv(init, s) && Exit(s, s', a, init, crashed) && HasLoaded(s, b) && s.jobs[b].par == a
    ensures HasLoaded(s', b) && s'.jobs[b] == s.jobs[b] && Gone(s', b)
  {
  }

  // A parent that is gone stays gone: its slot comes back with a larger pid.
  lemma GoneKept(init: nat, s: State, s': State, step: Step, a: nat)
    requires Inv(init, s) && Next(init, s, s', step) && HasLoaded(s, a) && Gone(s, a)
    requires a < |s'.jobs| && s'.jobs[a] == s.jobs[a]
    ensures HasLoaded(s', a) && Gone(s', a)
  {
    assert JobInv(init, s, a);
    if !step.CullStep? { assert JobInv(init, s, step.a); }
  }

  // ---------------------------------------------------------------- runs

  // After boot: the kernel process with pid 0, init with pid 1, the other slots unused.
  ghost predicate Init(init: nat, s: State) {
    && |s.jobs| == |s.procs| && 1 <= init < |s.procs| && s.nextpid == 2
    && (forall a | 0 <= a < |s.jobs| :: s.jobs[a] == NoJob)
    && s.procs[0] == Proc(LIVE, 0, -1, PROCESS, false) && s.procs[init] == Proc(LIVE, 1, -1, PROCESS, false)
    && forall p | 0 < p < |s.procs| && p != init :: s.procs[p].st == UNUSED && s.procs[p].parent == -1
  }

  ghost predicate Segment(init: nat, run: seq<State>, steps: seq<Step>) {
    |run| == |steps| + 1 && forall i {:trigger steps[i]} | 0 <= i < |steps| :: Next(init, run[i], run[i + 1], steps[i])
  }

  ghost predicate IsRun(init: nat, run: seq<State>, steps: seq<Step>) {
    Segment(init, run, steps) && Init(init, run[0])
  }

  lemma Join(init: nat, r1: seq<State>, t1: seq<Step>, r2: seq<State>, t2: seq<Step>)
    requires Segment(init, r1, t1) && Segment(init, r2, t2) && r1[|r1| - 1] == r2[0]
    ensures Segment(init, r1 + r2[1..], t1 + t2)
  {
    var run, steps := r1 + r2[1..], t1 + t2;
    forall i | 0 <= i < |steps| ensures Next(init, run[i], run[i + 1], steps[i]) {
      if i < |t1| {
        assert Next(init, r1[i], r1[i + 1], t1[i]);
      } else {
        assert Next(init, r2[i - |t1|], r2[i - |t1| + 1], t2[i - |t1|]);
        assert run[i] == r2[i - |t1|] && run[i + 1] == r2[i - |t1| + 1];
      }
    }
  }

  ghost predicate TreeUpTo(run: seq<State>, n: nat)
    requires n < |run|
  {
    forall m | 0 <= m <= n :: Tree(run[m])
  }

  lemma {:induction false} RunInv(init: nat, run: seq<State>, steps: seq<Step>, i: nat)
    requires IsRun(init, run, steps) && i < |run| && TreeUpTo(run, i)
    ensures Inv(init, run[i])
  {
    if i == 0 {
      forall a: nat | a < |run[0].jobs| ensures JobInv(init, run[0], a) {}
    } else {
      RunInv(init, run, steps, i - 1);
      StepInv(init, run[i - 1], run[i], steps[i - 1]);
    }
  }

  // From step k to state j process a holds one loaded parent, which exits in step k.
  ghost predicate CutAt(run: seq<State>, steps: seq<Step>, a: nat, k: nat, j: nat)
    requires k < j < |run| && |run| == |steps| + 1
  {
    && HasLoaded(run[j], a) && steps[k].ExitStep? && steps[k].a == run[j].jobs[a].par
    && forall m | k <= m <= j :: a < |run[m].jobs| && run[m].jobs[a] == run[j].jobs[a]
  }

  // The parent that process a holds loaded in state j has exited since the load.
  ghost predicate Undercut(run: seq<State>, steps: seq<Step>, a: nat, j: nat)
    requires j < |run| == |steps| + 1
  {
    exists k: nat | k < j :: CutAt(run, steps, a, k, j)
  }

  lemma CutMoves(run: seq<State>, steps: seq<Step>, a: nat, j: nat)
    requires 0 < j < |run| == |steps| + 1 && HasLoaded(run[j], a) && HasLoaded(run[j - 1], a)
    requires run[j].jobs[a] == run[j - 1].jobs[a]
    ensures Undercut(run, steps, a, j) <==>
      Undercut(run, steps, a, j - 1) || (steps[j - 1].ExitStep? && steps[j - 1].a == run[j].jobs[a].par)
  {
    if Undercut(run, steps, a, j) {
      var k: nat :| k < j && CutAt(run, steps, a, k, j);
      if k < j - 1 { assert CutAt(run, steps, a, k, j - 1); }
    }
    if Undercut(run, steps, a, j - 1) {
      var k: nat :| k < j - 1 && CutAt(run, steps, a, k, j - 1);
      assert CutAt(run, steps, a, k, j);
    }
    if steps[j - 1].ExitStep? && steps[j - 1].a == run[j].jobs[a].par {
      assert CutAt(run, steps, a, j - 1, j);
    }
  }

  // A loaded parent is gone if it has exited since the load, and fit if not.
  lemma {:induction false} FitOrGone(init: nat, run: seq<State>, steps: seq<Step>, a: nat, j: nat)
    requires IsRun(init, run, steps) && j < |run| && TreeUpTo(run, j) && HasLoaded(run[j], a)
    ensures if Undercut(run, steps, a, j) then Gone(run[j], a) else Fit(run[j], a)
    decreases j, 1
  {
    if j > 0 {
      RunInv(init, run, steps, j - 1);
      FitOrGoneStep(init, run, steps, a, j);
    }
  }

  lemma {:induction false} FitOrGoneStep(init: nat, run: seq<State>, steps: seq<Step>, a: nat, j: nat)
    requires IsRun(init, run, steps) && 0 < j < |run| && TreeUpTo(run, j) && HasLoaded(run[j], a)
    requires Inv(init, run[j - 1])
    ensures if Undercut(run, steps, a, j) then Gone(run[j], a) else Fit(run[j], a)
    decreases j, 0
  {
    var s, s', step := run[j - 1], run[j], steps[j - 1];
    assert Next(init, s, s', step);
    if HasLoaded(s, a) && s.jobs[a] == s'.jobs[a] {
      FitOrGone(init, run, steps, a, j - 1);
      CutMoves(run, steps, a, j);
      if step.ExitStep? && step.a == s.jobs[a].par {
        ExitGone(init, s, s', step.a, step.crashed, a);
      } else if Undercut(run, steps, a, j - 1) {
        GoneKept(init, s, s', step, a);
      } else {
        FitKept(init, s, s', step, a);
      }
    } else {
      NewLoad(init, s, s', step, a);
      assert forall k: nat | k < j :: CutAt(run, steps, a, k, j) ==> run[j - 1].jobs[a] == run[j].jobs[a];
    }
  }

  lemma NewLoad(init: nat, s: State, s': State, step: Step, a: nat)
    requires Inv(init, s) && Next(init, s, s', step) && HasLoaded(s', a)
    requires !(HasLoaded(s, a) && s.jobs[a] == s'.jobs[a])
    ensures Fit(s', a) && a < |s.jobs| && s.jobs[a] != s'.jobs[a]
  {
    assert JobInv(init, s, a);
    assert step.LoadStep? && step.a == a;
    LoadFits(init, s, s', a, step.np);
  }

  // The store of a clone by a thread keeps the tree exactly if the parent it loaded has not
  // exited since.
  lemma StoreKeepsIff(init: nat, run: seq<State>, steps: seq<Step>, j: nat)
    requires IsRun(init, run, steps) && j < |steps| && TreeUpTo(run, j) && steps[j].StoreStep?
    ensures Tree(run[j + 1]) <==> !Undercut(run, steps, steps[j].a, j)
  {
    RunInv(init, run, steps, j);
    var s, step := run[j], steps[j];
    assert Next(init, s, run[j + 1], step);
    assert JobInv(init, s, step.a);
    FitOrGone(init, run, steps, step.a, j);
    StoreIff(init, s, run[j + 1], step.a, step.np, step.par);
  }

  lemma TreeStep(init: nat, run: seq<State>, steps: seq<Step>, n: nat)
    requires IsRun(init, run, steps) && 0 < n < |run| && TreeUpTo(run, n - 1)
    ensures Tree(run[n]) <==> (steps[n - 1].StoreStep? ==> !Undercut(run, steps, steps[n - 1].a, n - 1))
  {
    RunInv(init, run, steps, n - 1);
    assert Next(init, run[n - 1], run[n], steps[n - 1]);
    if steps[n - 1].StoreStep? {
      StoreKeepsIff(init, run, steps, n - 1);
    } else {
      StepInv(init, run[n - 1], run[n], steps[n - 1]);
    }
  }

  // Over every run: each process has a live, older parent or none, and no thread is over a
  // thread, exactly as long as no clone stores a parent that has exited since it was loaded.
  lemma {:induction false} TreeIff(init: nat, run: seq<State>, steps: seq<Step>, n: nat)
    requires IsRun(init, run, steps) && n < |run|
    ensures TreeUpTo(run, n) <==> forall j | 0 <= j < n && steps[j].StoreStep? :: !Undercut(run, steps, steps[j].a, j)
  {
    if n == 0 {
    } else {
      TreeIff(init, run, steps, n - 1);
      if TreeUpTo(run, n - 1) {
        TreeStep(init, run, steps, n);
        assert TreeUpTo(run, n) <==> Tree(run[n]);
      }
    }
  }

  // ------------------------------------------------------- who changes what

  predicate Reaps(s: State, step: Step, p: nat)
    requires p < |s.procs|
  {
    step == CullStep(p) || (step.WaitStep? && step.p == p && !s.procs[p].crashed)
  }

  // A process loses its parent to the exit of exactly that parent, and to its own reaping; one without
  // a parent gets one from its maker.
  lemma ParentChanges(init: nat, s: State, s': State, step: Step, p: nat)
    requires Inv(init, s) && Next(init, s, s', step) && p < |s.procs|
    ensures p < |s'.procs|
    ensures s.procs[p].parent != -1 ==>
              s'.procs[p].parent == if step.ExitStep? && step.a == s.procs[p].parent then init
                                    else if Reaps(s, step, p) then -1 else s.procs[p].parent
    ensures s.procs[p].parent == -1 && s'.procs[p].parent != -1 ==>
              (step.LinkStep? && step.np == p && s'.procs[p].parent == step.a) ||
              (step.StoreStep? && step.np == p && s'.procs[p].parent == step.par)
  {
    if step.LinkStep? || step.StoreStep? { assert JobInv(init, s, step.a); }
  }

  predicate NotReapedAt(run: seq<State>, steps: seq<Step>, m: nat, p: nat)
    requires m < |steps| <= |run|
  {
    p < |run[m].procs| && !Reaps(run[m], steps[m], p)
  }

  predicate NotReaped(run: seq<State>, steps: seq<Step>, i: nat, j: nat, p: nat)
    requires j <= |steps| <= |run|
  {
    forall m: nat {:trigger NotReapedAt(run, steps, m, p)} | i <= m < j :: NotReapedAt(run, steps, m, p)
  }

  // One of the steps i to j is the exit of a.
  predicate ExitedIn(steps: seq<Step>, i: nat, j: nat, a: int)
    requires j <= |steps|
  {
    i < j && (ExitedIn(steps, i, j - 1, a) || (steps[j - 1].ExitStep? && steps[j - 1].a == a))
  }

  // A parent that changes only by the exit of that parent.
  ghost predicate HandedOn(init: nat, steps: seq<Step>, ps: seq<int>, m: nat) {
    && m + 1 < |ps| && m < |steps| && !(steps[m].ExitStep? && steps[m].a == init)
    && ps[m + 1] == if steps[m].ExitStep? && steps[m].a == ps[m] then init else ps[m]
  }

  lemma {:induction false} HandedOver(init: nat, steps: seq<Step>, ps: seq<int>, i: nat, j: nat)
    requires i <= j < |ps| && j <= |steps|
    requires forall m: nat | i <= m < j :: HandedOn(init, steps, ps, m)
    ensures ps[j] == if ExitedIn(steps, i, j, ps[i]) then init else ps[i]
    decreases j
  {
    if i < j {
      HandedOver(init, steps, ps, i, j - 1);
      assert HandedOn(init, steps, ps, j - 1);
    }
  }

  // The parent of p in each state.
  ghost function Parents(run: seq<State>, p: nat): (ps: seq<int>)
    ensures |ps| == |run|
  {
    seq(|run|, m requires 0 <= m < |run| => if p < |run[m].procs| then run[m].procs[p].parent else -1)
  }

  // Over every run: until it is reaped, a process keeps its parent up to that parent's exit, and belongs
  // to init from then on.
  lemma ParentUntilExit(init: nat, run: seq<State>, steps: seq<Step>, i: nat, j: nat, p: nat)
    requires IsRun(init, run, steps) && i <= j < |run| && TreeUpTo(run, j)
    requires HasParent(run, i, p) && NotReaped(run, steps, i, j, p)
    ensures HasParent(run, j, p)
    ensures Parents(run, p)[j] ==
            if ExitedIn(steps, i, j, run[i].procs[p].parent) then init else run[i].procs[p].parent
  {
    HandedAll(init, run, steps, i, j, p);
    HandedOver(init, steps, Parents(run, p), i, j);
  }

  // In state m process p is there, and has a parent.
  ghost predicate HasParent(run: seq<State>, m: nat, p: nat) {
    m < |run| && p < |run[m].procs| && run[m].procs[p].parent != -1
  }

  lemma {:induction false} HandedAll(init: nat, run: seq<State>, steps: seq<Step>, i: nat, j: nat, p: nat)
    requires IsRun(init, run, steps) && i <= j < |run| && TreeUpTo(run, j) && NotReaped(run, steps, i, j, p)
    requires HasParent(run, i, p)
    ensures HasParent(run, j, p) && forall m: nat | i <= m < j :: HandedOn(init, steps, Parents(run, p), m)
    decreases j
  {
    if i < j {
      HandedAll(init, run, steps, i, j - 1, p);
      ParentAt(init, run, steps, j - 1, p);
    }
  }

  lemma ParentAt(init: nat, run: seq<State>, steps: seq<Step>, i: nat, p: nat)
    requires IsRun(init, run, steps) && i < |steps| && TreeUpTo(run, i) && HasParent(run, i, p)
    requires NotReapedAt(run, steps, i, p)
    ensures HasParent(run, i + 1, p) && HandedOn(init, steps, Parents(run, p), i)
  {
    RunInv(init, run, steps, i);
    ParentChanges(init, run[i], run[i + 1], steps[i], p);
  }

  // The steps that take slot p from one state to another.
  predicate Moves(s: State, step: Step, p: nat, from: PState, to: PState)
    requires p < |s.procs|
  {
    match step
    case AllocStep(a, np) => np == p && from == UNUSED && to == EMBRYO
    case FailStep(a, np) => np == p && from == EMBRYO && to == UNUSED
    case StartStep(a, np) => np == p && from == EMBRYO && to == LIVE
    case ExitStep(a, crashed) => a == p && from == LIVE && to == ZOMBIE
    case WaitStep(a, q) => q == p && from == ZOMBIE && to == if s.procs[p].crashed then CRASHED else UNUSED
    case CullStep(q) => q == p && from == ZOMBIE && to == UNUSED
    case _ => false
  }

  // A slot changes state in these steps and in no others; its pid changes when it is taken, to the next
  // one, and when it is reaped.
  lemma StateChanges(init: nat, s: State, s': State, step: Step, p: nat)
    requires Inv(init, s) && Next(init, s, s', step) && p < |s.procs|
    ensures p < |s'.procs|
    ensures s'.procs[p].st != s.procs[p].st <==> Moves(s, step, p, s.procs[p].st, s'.procs[p].st)
    ensures forall t :: Moves(s, step, p, s.procs[p].st, t) ==> s'.procs[p].st == t
    ensures s'.procs[p].pid == if step.AllocStep? && step.np == p then s.nextpid
                               else if Reaps(s, step, p) then 0 else s.procs[p].pid
    ensures s'.nextpid == if step.AllocStep? then s.nextpid + 1 else s.nextpid
  {
    if !step.CullStep? { assert JobInv(init, s, step.a); }
  }

  // Slots in use have different pids.
  predicate DistinctPids(s: State) {
    forall p, q | 0 <= p < q < |s.procs| && s.procs[p].st != UNUSED && s.procs[q].st != UNUSED ::
      s.procs[p].pid != s.procs[q].pid
  }

  lemma DistinctStep(init: nat, s: State, s': State, step: Step)
    requires Inv(init, s) && Next(init, s, s', step) && DistinctPids(s)
    ensures DistinctPids(s')
  {
    forall p, q | 0 <= p < q < |s'.procs| && s'.procs[p].st != UNUSED && s'.procs[q].st != UNUSED
      ensures s'.procs[p].pid != s'.procs[q].pid
    {
      StateChanges(init, s, s', step, p);
      StateChanges(init, s, s', step, q);
    }
  }

  lemma {:induction false} PidsDistinct(init: nat, run: seq<State>, steps: seq<Step>, i: nat)
    requires IsRun(init, run, steps) && i < |run| && TreeUpTo(run, i)
    ensures DistinctPids(run[i])
  {
    if i > 0 {
      PidsDistinct(init, run, steps, i - 1);
      RunInv(init, run, steps, i - 1);
      DistinctStep(init, run[i - 1], run[i], steps[i - 1]);
    }
  }

  // A zombie is as it was left until it is waited for or culled, but for its parent.
  lemma ZombieStep(init: nat, s: State, s': State, step: Step, p: nat)
    requires Inv(init, s) && Next(init, s, s', step) && p < |s.procs| && s.procs[p].st == ZOMBIE
    requires step != CullStep(p) && !(step.WaitStep? && step.p == p)
    ensures p < |s'.procs| && s'.procs[p] == s.procs[p].(parent := s'.procs[p].parent)
  {
    if !step.CullStep? { assert JobInv(init, s, step.a); }
  }

  lemma {:induction false} ZombieUntil(init: nat, run: seq<State>, steps: seq<Step>, i: nat, j: nat, p: nat)
    requires IsRun(init, run, steps) && i <= j < |run| && TreeUpTo(run, j)
    requires p < |run[i].procs| && run[i].procs[p].st == ZOMBIE
    requires forall m | i <= m < j :: steps[m] != CullStep(p) && !(steps[m].WaitStep? && steps[m].p == p)
    ensures p < |run[j].procs| && run[j].procs[p] == run[i].procs[p].(parent := run[j].procs[p].parent)
    decreases j
  {
    if i < j {
      ZombieUntil(init, run, steps, i, j - 1, p);
      RunInv(init, run, steps, j - 1);
      ZombieStep(init, run[j - 1], run[j], steps[j - 1], p);
    }
  }

  // wait keeps the slot of a child exactly if the child exited crashed.
  lemma CrashKept(init: nat, run: seq<State>, steps: seq<Step>, i: nat, j: nat, p: nat, crashed: bool, a: nat)
    requires IsRun(init, run, steps) && i < j < |steps| && TreeUpTo(run, j)
    requires steps[i] == ExitStep(p, crashed) && steps[j] == WaitStep(a, p)
    requires forall m | i < m < j :: steps[m] != CullStep(p) && !(steps[m].WaitStep? && steps[m].p == p)
    ensures p < |run[j + 1].procs| && run[j + 1].procs[p].st == if crashed then CRASHED else UNUSED
  {
    assert Next(init, run[i], run[i + 1], steps[i]) && Next(init, run[j], run[j + 1], steps[j]);
    ZombieUntil(init, run, steps, i + 1, j, p);
  }

  // --------------------------------------------------------- fork and clone

  // Nobody else touches the slot that a process is filling in, but for an exiting parent.
  lemma SlotKept(init: nat, s: State, s': State, step: Step, a: nat)
    requires Inv(init, s) && Next(init, s, s', step) && a < |s.jobs| && s.jobs[a] != NoJob
    requires a < |s'.jobs| && s'.jobs[a] == s.jobs[a]
    ensures Live(s', a) && s.jobs[a].np < |s.procs| && s.jobs[a].np < |s'.procs|
    ensures var np := s.jobs[a].np;
            && s'.procs[np] == s.procs[np].(parent := s'.procs[np].parent)
            && (s.procs[np].parent == a || s.procs[np].parent == -1 ==> s'.procs[np].parent == s.procs[np].parent)
  {
    assert JobInv(init, s, a);
    if !step.CullStep? { assert JobInv(init, s, step.a); }
  }

  // From state i to state j process a is at the same point of fork or clone.
  ghost predicate AtJob(run: seq<State>, i: nat, j: nat, a: nat, job: Job) {
    i <= j < |run| && forall m | i <= m <= j :: a < |run[m].jobs| && run[m].jobs[a] == job
  }

  lemma {:induction false} SlotUntil(init: nat, run: seq<State>, steps: seq<Step>, i: nat, j: nat, a: nat, job: Job)
    requires IsRun(init, run, steps) && AtJob(run, i, j, a, job) && job != NoJob && TreeUpTo(run, j)
    requires job.np < |run[i].procs| && (run[i].procs[job.np].parent == a || run[i].procs[job.np].parent == -1)
    ensures job.np < |run[j].procs| && run[j].procs[job.np] == run[i].procs[job.np]
    decreases j
  {
    if i < j {
      SlotUntil(init, run, steps, i, j - 1, a, job);
      RunInv(init, run, steps, j - 1);
      SlotKept(init, run[j - 1], run[j], steps[j - 1], a);
    }
  }

  // fork and clone by a process: the child that is started is of the kind asked for, has the pid that
  // was next when its slot was taken, and its maker for a parent.
  lemma ForkMakes(init: nat, run: seq<State>, steps: seq<Step>, i: nat, k: nat, j: nat, a: nat, np: nat, kind: Kind)
    requires IsRun(init, run, steps) && i < k < j < |steps| && TreeUpTo(run, j)
    requires steps[i] == AllocStep(a, np) && steps[k] == LinkStep(a, np, kind) && steps[j] == StartStep(a, np)
    requires AtJob(run, i + 1, k, a, Made(np)) && AtJob(run, k + 1, j, a, Linked(np))
    ensures np < |run[j + 1].procs| && run[j + 1].procs[np] == Proc(LIVE, run[i].nextpid, a, kind, false)
  {
    RunInv(init, run, steps, i);
    assert Next(init, run[i], run[i + 1], steps[i]);
    TakenSlot(init, run[i], run[i + 1], a, np);
    SlotUntil(init, run, steps, i + 1, k, a, Made(np));
    assert Next(init, run[k], run[k + 1], steps[k]);
    SlotUntil(init, run, steps, k + 1, j, a, Linked(np));
    assert Next(init, run[j], run[j + 1], steps[j]);
  }

  lemma TakenSlot(init: nat, s: State, s': State, a: nat, np: nat)
    requires Inv(init, s) && Alloc(s, s', a, np)
    ensures s'.procs[np].parent == -1 && s'.procs[np].pid == s.nextpid
  {
  }

  // The k-th ancestor of p, or -1.
  function Ancestor(s: State, p: int, k: nat): int
    decreases k
  {
    if k == 0 || !(0 <= p < |s.procs|) then p else Ancestor(s, s.procs[p].parent, k - 1)
  }

  // Parent chains lead to ever older processes, so they never come back.
  lemma {:induction false} Acyclic(s: State, p: nat, k: nat)
    requires Tree(s) && p < |s.procs| && 0 < k
    ensures Ancestor(s, p, k) != p
    ensures 0 <= Ancestor(s, p, k) < |s.procs| ==> s.procs[Ancestor(s, p, k)].pid < s.procs[p].pid
    decreases k
  {
    var q := s.procs[p].parent;
    if q != -1 {
      assert GoodParent(s, p, q);
      if k > 1 { Acyclic(s, q, k - 1); }
    }
  }

  // The race does happen: process 2 exits while its thread 3 clones.
  lemma CloneRace() returns (run: seq<State>, steps: seq<Step>)
    ensures IsRun(1, run, steps) && !Tree(run[|run| - 1])
  {
    var k, i, none := Proc(LIVE, 0, -1, PROCESS,
                           false), Proc(LIVE, 1, -1, PROCESS, false), Proc(UNUSED, 0, -1, PROCESS, false);
    var s0 := State([k, i, none, none, none], [NoJob, NoJob, NoJob, NoJob, NoJob], 2);
    var s3 := Forked(s0, 1, 2, PROCESS);
    var s6 := Forked(s3, 2, 3, THREAD);
    var r1, t1 := ForkRun(s0, 1, 2, PROCESS);
    var r2, t2 := ForkRun(s3, 2, 3, THREAD);
    var r3, t3 := Race(s6);
    Join(1, r1, t1, r2, t2);
    Join(1, r1 + r2[1..], t1 + t2, r3, t3);
    run, steps := r1 + r2[1..] + r3[1..], t1 + t2 + t3;
  }

  lemma Race(s: State) returns (run: seq<State>, steps: seq<Step>)
    requires |s.procs| == |s.jobs| == 5 && Doing(s, 2, NoJob) && Doing(s, 3, NoJob)
    requires s.procs[3].kind == THREAD && s.procs[3].parent == 2 && s.procs[4].st == UNUSED && s.procs[4].parent == -1
    ensures |run| == 5 && Segment(1, run, steps) && run[0] == s && !Tree(run[4])
  {
    var s7 := Do(Put(s, 4, s.procs[4].(st := EMBRYO, pid := s.nextpid)), 3, Made(4)).(nextpid := s.nextpid + 1);
    var s8 := Do(Put(s7, 4, s7.procs[4].(kind := THREAD)), 3, Loaded(4, s7.procs[3].parent));
    var procs := Orphaned(s8.procs, 2, 1);
    var s9 := s8.(procs := procs[2 := procs[2].(st := ZOMBIE, crashed := false)]);
    var s10 := Do(Put(s9, 4, s9.procs[4].(parent := 2)), 3, Linked(4));
    assert Alloc(s, s7, 3, 4) && Load(s7, s8, 3, 4) && Exit(s8, s9, 2, 1, false) && Store(s9, s10, 3, 4, 2);
    run, steps := [s, s7, s8, s9, s10], [AllocStep(3, 4), LoadStep(3, 4), ExitStep(2, false), StoreStep(3, 4, 2)];
    assert s10.procs[4].parent == 2 && s10.procs[2].st == ZOMBIE;
  }

  // The table after a has made np its child.
  function Forked(s: State, a: nat, np: nat, kind: Kind): State
    requires a < |s.jobs| && np < |s.procs| && np < |s.jobs|
  {
    var child := s.procs[np].(st := LIVE, pid := s.nextpid, kind := kind, parent := a, crashed := false);
    Do(Do(Put(s, np, child), np, NoJob), a, NoJob).(
      nextpid := s.nextpid + 1)
  }

  lemma ForkRun(s: State, a: nat, np: nat, kind: Kind) returns (run: seq<State>, steps: seq<Step>)
    requires Doing(s, a, NoJob) && np < |s.procs| == |s.jobs| && s.procs[np].st == UNUSED && s.procs[a].kind == PROCESS
    ensures |run| == 4 && Segment(1, run, steps) && run[0] == s && run[3] == Forked(s, a, np, kind)
  {
    var s1 := Do(Put(s, np, s.procs[np].(st := EMBRYO, pid := s.nextpid)), a, Made(np)).(nextpid := s.nextpid + 1);
    var s2 := Do(Put(s1, np, s1.procs[np].(kind := kind, parent := a)), a, Linked(np));
    var s3 := Do(Do(Put(s2, np, s2.procs[np].(st := LIVE, crashed := false)), np, NoJob), a, NoJob);
    assert s3 == Forked(s, a, np, kind);
    run, steps := [s, s1, s2, s3], [AllocStep(a, np), LinkStep(a, np, kind), StartStep(a, np)];
  }
}
