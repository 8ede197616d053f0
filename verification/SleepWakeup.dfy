/**
 sleep, wakeup, sched and the scheduler of proc.c over the spinlocks of spinlock.c,
 as a state machine whose steps are the single accesses to shared state.  Any number
 of processes, CPUs, locks and sleep channels; lock 0 is ptable.lock.  Every channel c
 waits for a condition guarded by lock guard[c].
 */
module SleepWakeup {

  const PTABLE := 0

  datatype Holder = Free | By(a: nat) | Cpu(k: nat)     // a process or interrupt handler, or a scheduler
  datatype PState = UNUSED | RUNNABLE | RUNNING | SLEEPING | ZOMBIE
  datatype Proc = Proc(st: PState, chan: nat)           // channel 0: none

  // Why a process gave up its CPU.
  datatype Why = Slept(c: nat) | Yielded | Exited | Born

  // What an actor does next.  Actors below |procs| are processes; the others are interrupt
  // handlers running on idle CPUs, which never sleep.
  datatype Pc =
    | Run                                 // code outside sleep, wakeup and sched
    | SleepLock(c: nat)                   // sleep: acquire ptable.lock
    | SleepUnlock(c: nat)                 //        release lk
    | SetChan(c: nat) | SetState(c: nat)  //        proc->chan = chan; proc->state = SLEEPING
    | Switch(why: Why)                    // sched: about to swtch
    | Off(why: Why)                       // not on any CPU
    | Tidy(c: nat)                        // sleep: proc->chan = 0
    | TidyUnlock(c: nat)                  //        release ptable.lock
    | Relock(c: nat)                      //        acquire lk
    | WakeLock(c: nat)                    // wakeup: acquire ptable.lock
    | Scan(c: nat, k: nat, unlock: bool)  // wakeup1: about to look at table entry k

  // cpus[k] is the process on CPU k, or -1.  owed holds the channels whose condition was made
  // true and whose wakeup is still outstanding.
  datatype State = State(
    locks: seq<Holder>, procs: seq<Proc>, pcs: seq<Pc>, cpus: seq<int>, cond: seq<bool>,
    owed: set<nat>)

  predicate Runs(s: State, a: nat) {
    a < |s.pcs| && s.pcs[a] == Run
  }

  predicate Holds(s: State, a: nat, l: nat) {
    l < |s.locks| && s.locks[l] == By(a)
  }

  predicate IsFree(s: State, l: nat) {
    l < |s.locks| && s.locks[l] == Free
  }

  // No wakeup is owed for a condition guarded by lock l.
  predicate Clean(guard: seq<nat>, s: State, l: nat) {
    forall c | c in s.owed && c < |guard| :: guard[c] != l
  }

  predicate IsChan(guard: seq<nat>, c: nat) {
    0 < c < |guard|
  }

  function Lock(s: State, l: nat, h: Holder): State
    requires l < |s.locks|
  {
    s.(locks := s.locks[l := h])
  }

  function Goto(s: State, a: nat, pc: Pc): State
    requires a < |s.pcs|
  {
    s.(pcs := s.pcs[a := pc])
  }

  function Become(s: State, p: nat, st: PState): State
    requires p < |s.procs|
  {
    s.(procs := s.procs[p := s.procs[p].(st := st)])
  }

  function Chan(s: State, p: nat, c: nat): State
    requires p < |s.procs|
  {
    s.(procs := s.procs[p := s.procs[p].(chan := c)])
  }

  // --------------------------------------------------------------- steps

  predicate Acquire(s: State, s': State, a: nat, l: nat) {
    Runs(s, a) && IsFree(s, l) && s' == Lock(s, l, By(a))
  }

  // Whoever made a condition true wakes its channel before releasing the lock.
  predicate Release(guard: seq<nat>, s: State, s': State, a: nat, l: nat) {
    Runs(s, a) && Holds(s, a, l) && Clean(guard, s, l) && s' == Lock(s, l, Free)
  }

  predicate SetCond(guard: seq<nat>, s: State, s': State, a: nat, c: nat, v: bool) {
    && Runs(s, a) && IsChan(guard, c) && c < |s.cond| && Holds(s, a, guard[c])
    && s' == s.(cond := s.cond[c := v], owed := if v then s.owed + {c} else s.owed - {c})
  }

  // sleep(c, lk), called in a loop that found the condition false under lk.
  predicate Sleep(guard: seq<nat>, s: State, s': State, a: nat, c: nat) {
    && Runs(s, a) && a < |s.procs| && IsChan(guard, c) && c < |s.cond| && Holds(s, a, guard[c])
    && !s.cond[c] && Clean(guard, s, guard[c])
    && s' == Goto(s, a, if guard[c] == PTABLE then SetChan(c) else SleepLock(c))
  }

  predicate SleepLocks(s: State, s': State, a: nat) {
    && a < |s.pcs| && s.pcs[a].SleepLock? && IsFree(s, PTABLE)
    && s' == Goto(Lock(s, PTABLE, By(a)), a, SleepUnlock(s.pcs[a].c))
  }

  predicate SleepUnlocks(guard: seq<nat>, s: State, s': State, a: nat) {
    && a < |s.pcs| && s.pcs[a].SleepUnlock? && s.pcs[a].c < |guard| && guard[s.pcs[a].c] < |s.locks|
    && s' == Goto(Lock(s, guard[s.pcs[a].c], Free), a, SetChan(s.pcs[a].c))
  }

  predicate SetsChan(s: State, s': State, a: nat) {
    && a < |s.pcs| && a < |s.procs| && s.pcs[a].SetChan?
    && s' == Goto(Chan(s, a, s.pcs[a].c), a, SetState(s.pcs[a].c))
  }

  predicate SetsState(s: State, s': State, a: nat) {
    && a < |s.pcs| && a < |s.procs| && s.pcs[a].SetState?
    && s' == Goto(Become(s, a, SLEEPING), a, Switch(Slept(s.pcs[a].c)))
  }

  // yield and exit, with ptable.lock held.
  predicate GiveUp(guard: seq<nat>, s: State, s': State, a: nat, dies: bool) {
    && Runs(s, a) && a < |s.procs| && Holds(s, a, PTABLE) && Clean(guard, s, PTABLE)
    && s' == Goto(Become(s, a, if dies then ZOMBIE else RUNNABLE), a, Switch(if dies then Exited else Yielded))
  }

  // swtch to the scheduler of CPU k, which inherits ptable.lock.
  predicate Swtch(s: State, s': State, a: nat, k: nat) {
    && a < |s.pcs| && s.pcs[a].Switch? && k < |s.cpus| && s.cpus[k] == a && |s.locks| > 0
    && s' == Goto(Lock(s, PTABLE, Cpu(k)), a, Off(s.pcs[a].why)).(cpus := s.cpus[k := -1])
  }

  predicate SchedAcquire(s: State, s': State, k: nat) {
    k < |s.cpus| && s.cpus[k] == -1 && IsFree(s, PTABLE) && s' == Lock(s, PTABLE, Cpu(k))
  }

  predicate SchedRelease(s: State, s': State, k: nat) {
    |s.locks| > 0 && s.locks[PTABLE] == Cpu(k) && s' == Lock(s, PTABLE, Free)
  }

  // Where a process continues when swtch returns to it.
  function Resume(pc: Pc): Pc {
    if pc.Off? && pc.why.Slept? then Tidy(pc.why.c) else Run
  }

  // The scheduler looks at the state only; ptable.lock passes to the process.
  predicate Dispatch(s: State, s': State, k: nat, p: nat) {
    && |s.locks| > 0 && s.locks[PTABLE] == Cpu(k) && k < |s.cpus| && s.cpus[k] == -1
    && p < |s.procs| && p < |s.pcs| && s.procs[p].st == RUNNABLE
    && s' == Goto(Lock(Become(s, p, RUNNING), PTABLE, By(p)), p, Resume(s.pcs[p])).(cpus := s.cpus[k := p])
  }

  predicate Tidies(guard: seq<nat>, s: State, s': State, a: nat) {
    && a < |s.pcs| && a < |s.procs| && s.pcs[a].Tidy? && s.pcs[a].c < |guard|
    && s' == Goto(Chan(s, a, 0), a, if guard[s.pcs[a].c] == PTABLE then Run else TidyUnlock(s.pcs[a].c))
  }

  predicate TidyUnlocks(s: State, s': State, a: nat) {
    && a < |s.pcs| && s.pcs[a].TidyUnlock? && |s.locks| > 0
    && s' == Goto(Lock(s, PTABLE, Free), a, Relock(s.pcs[a].c))
  }

  predicate Relocks(guard: seq<nat>, s: State, s': State, a: nat) {
    && a < |s.pcs| && s.pcs[a].Relock? && s.pcs[a].c < |guard| && IsFree(s, guard[s.pcs[a].c])
    && s' == Goto(Lock(s, guard[s.pcs[a].c], By(a)), a, Run)
  }

  predicate Wakeup(s: State, s': State, a: nat, c: nat) {
    Runs(s, a) && s' == Goto(s, a, WakeLock(c))
  }

  predicate WakeLocks(s: State, s': State, a: nat) {
    && a < |s.pcs| && s.pcs[a].WakeLock? && IsFree(s, PTABLE)
    && s' == Goto(Lock(s, PTABLE, By(a)), a, Scan(s.pcs[a].c, 0, true))
  }

  // wakeup1, called with ptable.lock held.
  predicate Wakeup1(s: State, s': State, a: nat, c: nat) {
    Runs(s, a) && Holds(s, a, PTABLE) && s' == Goto(s, a, Scan(c, 0, false))
  }

  predicate Waiting(p: Proc, c: nat) {
    p.st == SLEEPING && p.chan == c
  }

  // None of the first k processes sleeps on c.
  predicate Awake(procs: seq<Proc>, k: nat, c: nat) {
    forall p | 0 <= p < k && p < |procs| :: !Waiting(procs[p], c)
  }

  predicate Scans(s: State, s': State, a: nat) {
    && a < |s.pcs| && s.pcs[a].Scan? && s.pcs[a].k < |s.procs|
    && var Scan(c, k, unlock) := s.pcs[a];
       s' == Goto(if Waiting(s.procs[k], c) then Become(s, k, RUNNABLE) else s, a, Scan(c, k + 1, unlock))
  }

  predicate ScanEnds(guard: seq<nat>, s: State, s': State, a: nat) {
    && a < |s.pcs| && s.pcs[a].Scan? && s.pcs[a].k == |s.procs| && |s.locks| > 0
    && var Scan(c, k, unlock) := s.pcs[a];
       s' == Goto(if unlock then Lock(s, PTABLE, Free) else s, a, Run).(
               owed := if c < |guard| && Holds(s, a, guard[c]) then s.owed - {c} else s.owed)
  }

  // kill, fork and wait, with ptable.lock held.
  predicate Kill(s: State, s': State, a: nat, p: nat) {
    && Runs(s, a) && Holds(s, a, PTABLE) && p < |s.procs|
    && s' == if s.procs[p].st == SLEEPING then Become(s, p, RUNNABLE) else s
  }

  predicate Spawn(s: State, s': State, a: nat, p: nat) {
    && Runs(s, a) && Holds(s, a, PTABLE) && p < |s.procs| && p < |s.pcs| && s.procs[p].st == UNUSED
    && s' == Goto(Become(s, p, RUNNABLE), p, Off(Born))
  }

  predicate Reap(s: State, s': State, a: nat, p: nat) {
    Runs(s, a) && Holds(s, a, PTABLE) && p < |s.procs| && s.procs[p].st == ZOMBIE && s' == Become(s, p, UNUSED)
  }

  datatype Step =
    | AcquireStep(a: nat, l: nat) | ReleaseStep(a: nat, l: nat) | SetCondStep(a: nat, c: nat, v: bool)
    | SleepStep(a: nat, c: nat) | SleepLockStep(a: nat) | SleepUnlockStep(a: nat)
    | SetChanStep(a: nat) | SetStateStep(a: nat)
    | GiveUpStep(a: nat, dies: bool) | SwtchStep(a: nat, k: nat)
    | SchedAcquireStep(k: nat) | SchedReleaseStep(k: nat) | DispatchStep(k: nat, p: nat)
    | TidyStep(a: nat) | TidyUnlockStep(a: nat) | RelockStep(a: nat)
    | WakeupStep(a: nat, c: nat) | WakeLockStep(a: nat) | Wakeup1Step(a: nat, c: nat)
    | ScanStep(a: nat) | ScanEndStep(a: nat)
    | KillStep(a: nat, p: nat) | SpawnStep(a: nat, p: nat) | ReapStep(a: nat, p: nat)

  predicate Next(guard: seq<nat>, s: State, s': State, step: Step) {
    match step
    case AcquireStep(a, l) => Acquire(s, s', a, l)
    case ReleaseStep(a, l) => Release(guard, s, s', a, l)
    case SetCondStep(a, c, v) => SetCond(guard, s, s', a, c, v)
    case SleepStep(a, c) => Sleep(guard, s, s', a, c)
    case SleepLockStep(a) => SleepLocks(s, s', a)
    case SleepUnlockStep(a) => SleepUnlocks(guard, s, s', a)
    case SetChanStep(a) => SetsChan(s, s', a)
    case SetStateStep(a) => SetsState(s, s', a)
    case GiveUpStep(a, dies) => GiveUp(guard, s, s', a, dies)
    case SwtchStep(a, k) => Swtch(s, s', a, k)
    case SchedAcquireStep(k) => SchedAcquire(s, s', k)
    case SchedReleaseStep(k) => SchedRelease(s, s', k)
    case DispatchStep(k, p) => Dispatch(s, s', k, p)
    case TidyStep(a) => Tidies(guard, s, s', a)
    case TidyUnlockStep(a) => TidyUnlocks(s, s', a)
    case RelockStep(a) => Relocks(guard, s, s', a)
    case WakeupStep(a, c) => Wakeup(s, s', a, c)
    case WakeLockStep(a) => WakeLocks(s, s', a)
    case Wakeup1Step(a, c) => Wakeup1(s, s', a, c)
    case ScanStep(a) => Scans(s, s', a)
    case ScanEndStep(a) => ScanEnds(guard, s, s', a)
    case KillStep(a, p) => Kill(s, s', a, p)
    case SpawnStep(a, p) => Spawn(s, s', a, p)
    case ReapStep(a, p) => Reap(s, s', a, p)
  }

  // ----------------------------------------------------------- invariant

  ghost predicate Shape(guard: seq<nat>, s: State) {
    && |s.locks| > 0 && |s.pcs| >= |s.procs| && |s.cond| == |guard|
    && (forall c | 0 <= c < |guard| :: guard[c] < |s.locks|)
    && (forall l | 0 <= l < |s.locks| && s.locks[l].By? :: s.locks[l].a < |s.pcs|)
    && (forall l | 0 <= l < |s.locks| && s.locks[l].Cpu? ::
        l == PTABLE && s.locks[l].k < |s.cpus| && s.cpus[s.locks[l].k] == -1)
  }

  // A wakeup is owed by the holder of the lock that guards the condition.
  ghost predicate OwedInv(guard: seq<nat>, s: State)
    requires Shape(guard, s)
  {
    forall c | c in s.owed :: IsChan(guard, c) && s.locks[guard[c]].By?
  }

  // A condition that is true is known to be announced.
  predicate Announced(s: State, c: nat) {
    c < |s.cond| && (s.cond[c] ==> c in s.owed)
  }

  ghost predicate WhyInv(guard: seq<nat>, s: State, p: nat, why: Why)
    requires p < |s.procs|
  {
    match why
    case Slept(c) => IsChan(guard, c) && s.procs[p].chan == c && s.procs[p].st in {SLEEPING, RUNNABLE}
    case Yielded => s.procs[p].st == RUNNABLE
    case Born => s.procs[p].st == RUNNABLE
    case Exited => s.procs[p].st in {ZOMBIE, UNUSED}
  }

  ghost predicate PcInv(guard: seq<nat>, s: State, a: nat)
    requires Shape(guard, s) && a < |s.pcs|
  {
    var pc := s.pcs[a];
    && (a < |s.procs| ==> (s.procs[a].st == RUNNING <==> !pc.Switch? && !pc.Off?))
    && (a >= |s.procs| ==> pc.Run? || pc.WakeLock? || pc.Scan?)
    && (pc.SleepUnlock? || pc.SetChan? || pc.SetState? || pc.Switch? || pc.Tidy? || pc.TidyUnlock? || pc.Scan? ==>
        Holds(s, a, PTABLE))
    && (pc.SleepUnlock? || pc.SetChan? || pc.SetState? || pc.Switch? || pc.Tidy? ||
        pc.TidyUnlock? || (pc.Scan? && pc.unlock) ==>
          Clean(guard, s, PTABLE))
    && match pc
       case SleepLock(c) =>
      && IsChan(guard, c) && guard[c] != PTABLE && Holds(s, a, guard[c]) && !s.cond[c]
      && Clean(guard, s, guard[c])
       case SleepUnlock(c) =>
      && IsChan(guard, c) && guard[c] != PTABLE && Holds(s, a, guard[c]) && !s.cond[c]
      && Clean(guard, s, guard[c])
       case SetChan(c) => IsChan(guard, c) && Announced(s, c)
       case SetState(c) => IsChan(guard, c) && Announced(s, c) && s.procs[a].chan == c
       case Switch(why) => WhyInv(guard, s, a, why)
       case Off(why) => WhyInv(guard, s, a, why)
       case Tidy(c) => IsChan(guard, c)
       case TidyUnlock(c) => IsChan(guard, c) && guard[c] != PTABLE
       case Relock(c) => IsChan(guard, c) && guard[c] != PTABLE
       case Scan(c, k, unlock) => k <= |s.procs| && Awake(s.procs, k, c)
       case _ => true
  }

  ghost predicate CpuInv(s: State) {
    && (forall k | 0 <= k < |s.cpus| && s.cpus[k] != -1 ::
        0 <= s.cpus[k] < |s.procs| && s.cpus[k] < |s.pcs| && !s.pcs[s.cpus[k]].Off?)
    && (forall k, j | 0 <= k < |s.cpus| && 0 <= j < |s.cpus| && s.cpus[k] == s.cpus[j] != -1 :: k == j)
  }

  ghost predicate SleepInv(guard: seq<nat>, s: State) {
    forall p: nat | p < |s.procs| && s.procs[p].st == SLEEPING ::
      IsChan(guard, s.procs[p].chan) && Announced(s, s.procs[p].chan)
  }

  ghost predicate Inv(guard: seq<nat>, s: State) {
    && Shape(guard, s) && OwedInv(guard, s) && CpuInv(s) && SleepInv(guard, s)
    && forall a: nat | a < |s.pcs| :: PcInv(guard, s, a)
  }

  lemma AcquireKeeps(guard: seq<nat>, s: State, s': State, a: nat, l: nat)
    requires Inv(guard, s) && Acquire(s, s', a, l)
    ensures Inv(guard, s')
  {
    assert PcInv(guard, s, a);
    forall x: nat | x < |s'.pcs| ensures PcInv(guard, s', x) { assert PcInv(guard, s, x); }
  }

  lemma ReleaseKeeps(guard: seq<nat>, s: State, s': State, a: nat, l: nat)
    requires Inv(guard, s) && Release(guard, s, s', a, l)
    ensures Inv(guard, s')
  {
    assert PcInv(guard, s, a);
    forall x: nat | x < |s'.pcs| ensures PcInv(guard, s', x) { assert PcInv(guard, s, x); }
  }

  lemma SetCondKeeps(guard: seq<nat>, s: State, s': State, a: nat, c: nat, v: bool)
    requires Inv(guard, s) && SetCond(guard, s, s', a, c, v)
    ensures Inv(guard, s')
  {
    assert PcInv(guard, s, a);
    forall x: nat | x < |s'.pcs| ensures PcInv(guard, s', x) { assert PcInv(guard, s, x); }
  }

  lemma SleepKeeps(guard: seq<nat>, s: State, s': State, a: nat, c: nat)
    requires Inv(guard, s) && Sleep(guard, s, s', a, c)
    ensures Inv(guard, s')
  {
    assert PcInv(guard, s, a);
    forall x: nat | x < |s'.pcs| ensures PcInv(guard, s', x) { assert PcInv(guard, s, x); }
  }

  lemma SleepLocksKeeps(guard: seq<nat>, s: State, s': State, a: nat)
    requires Inv(guard, s) && SleepLocks(s, s', a)
    ensures Inv(guard, s')
  {
    assert PcInv(guard, s, a);
    forall x: nat | x < |s'.pcs| ensures PcInv(guard, s', x) { assert PcInv(guard, s, x); }
  }

  lemma SleepUnlocksKeeps(guard: seq<nat>, s: State, s': State, a: nat)
    requires Inv(guard, s) && SleepUnlocks(guard, s, s', a)
    ensures Inv(guard, s')
  {
    assert PcInv(guard, s, a);
    forall x: nat | x < |s'.pcs| ensures PcInv(guard, s', x) { assert PcInv(guard, s, x); }
  }

  lemma SetsChanKeeps(guard: seq<nat>, s: State, s': State, a: nat)
    requires Inv(guard, s) && SetsChan(s, s', a)
    ensures Inv(guard, s')
  {
    assert PcInv(guard, s, a);
    forall x: nat | x < |s'.pcs| ensures PcInv(guard, s', x) { assert PcInv(guard, s, x); }
  }

  lemma SetsStateKeeps(guard: seq<nat>, s: State, s': State, a: nat)
    requires Inv(guard, s) && SetsState(s, s', a)
    ensures Inv(guard, s')
  {
    assert PcInv(guard, s, a);
    forall x: nat | x < |s'.pcs| ensures PcInv(guard, s', x) { assert PcInv(guard, s, x); }
  }

  lemma GiveUpKeeps(guard: seq<nat>, s: State, s': State, a: nat, dies: bool)
    requires Inv(guard, s) && GiveUp(guard, s, s', a, dies)
    ensures Inv(guard, s')
  {
    assert PcInv(guard, s, a);
    forall x: nat | x < |s'.pcs| ensures PcInv(guard, s', x) { assert PcInv(guard, s, x); }
  }

  lemma SwtchKeeps(guard: seq<nat>, s: State, s': State, a: nat, k: nat)
    requires Inv(guard, s) && Swtch(s, s', a, k)
    ensures Inv(guard, s')
  {
    assert PcInv(guard, s, a);
    forall x: nat | x < |s'.pcs| ensures PcInv(guard, s', x) { assert PcInv(guard, s, x); }
  }

  lemma SchedAcquireKeeps(guard: seq<nat>, s: State, s': State, k: nat)
    requires Inv(guard, s) && SchedAcquire(s, s', k)
    ensures Inv(guard, s')
  {
    forall x: nat | x < |s'.pcs| ensures PcInv(guard, s', x) { assert PcInv(guard, s, x); }
  }

  lemma SchedReleaseKeeps(guard: seq<nat>, s: State, s': State, k: nat)
    requires Inv(guard, s) && SchedRelease(s, s', k)
    ensures Inv(guard, s')
  {
    forall x: nat | x < |s'.pcs| ensures PcInv(guard, s', x) { assert PcInv(guard, s, x); }
  }

  lemma DispatchKeeps(guard: seq<nat>, s: State, s': State, k: nat, p: nat)
    requires Inv(guard, s) && Dispatch(s, s', k, p)
    ensures Inv(guard, s')
  {
    assert PcInv(guard, s, p);
    forall x: nat | x < |s'.pcs| ensures PcInv(guard, s', x) { assert PcInv(guard, s, x); }
  }

  lemma TidiesKeeps(guard: seq<nat>, s: State, s': State, a: nat)
    requires Inv(guard, s) && Tidies(guard, s, s', a)
    ensures Inv(guard, s')
  {
    assert PcInv(guard, s, a);
    forall x: nat | x < |s'.pcs| ensures PcInv(guard, s', x) { assert PcInv(guard, s, x); }
  }

  lemma TidyUnlocksKeeps(guard: seq<nat>, s: State, s': State, a: nat)
    requires Inv(guard, s) && TidyUnlocks(s, s', a)
    ensures Inv(guard, s')
  {
    assert PcInv(guard, s, a);
    forall x: nat | x < |s'.pcs| ensures PcInv(guard, s', x) { assert PcInv(guard, s, x); }
  }

  lemma RelocksKeeps(guard: seq<nat>, s: State, s': State, a: nat)
    requires Inv(guard, s) && Relocks(guard, s, s', a)
    ensures Inv(guard, s')
  {
    assert PcInv(guard, s, a);
    forall x: nat | x < |s'.pcs| ensures PcInv(guard, s', x) { assert PcInv(guard, s, x); }
  }

  lemma WakeupKeeps(guard: seq<nat>, s: State, s': State, a: nat, c: nat)
    requires Inv(guard, s) && Wakeup(s, s', a, c)
    ensures Inv(guard, s')
  {
    assert PcInv(guard, s, a);
    forall x: nat | x < |s'.pcs| ensures PcInv(guard, s', x) { assert PcInv(guard, s, x); }
  }

  lemma WakeLocksKeeps(guard: seq<nat>, s: State, s': State, a: nat)
    requires Inv(guard, s) && WakeLocks(s, s', a)
    ensures Inv(guard, s')
  {
    assert PcInv(guard, s, a);
    forall x: nat | x < |s'.pcs| ensures PcInv(guard, s', x) { assert PcInv(guard, s, x); }
  }

  lemma Wakeup1Keeps(guard: seq<nat>, s: State, s': State, a: nat, c: nat)
    requires Inv(guard, s) && Wakeup1(s, s', a, c)
    ensures Inv(guard, s')
  {
    assert PcInv(guard, s, a);
    forall x: nat | x < |s'.pcs| ensures PcInv(guard, s', x) { assert PcInv(guard, s, x); }
  }

  lemma ScansKeeps(guard: seq<nat>, s: State, s': State, a: nat)
    requires Inv(guard, s) && Scans(s, s', a)
    ensures Inv(guard, s')
  {
    assert PcInv(guard, s, a);
    forall x: nat | x < |s'.pcs| ensures PcInv(guard, s', x) { assert PcInv(guard, s, x); }
  }

  lemma ScanEndsKeeps(guard: seq<nat>, s: State, s': State, a: nat)
    requires Inv(guard, s) && ScanEnds(guard, s, s', a)
    ensures Inv(guard, s')
  {
    assert PcInv(guard, s, a);
    forall x: nat | x < |s'.pcs| ensures PcInv(guard, s', x) { assert PcInv(guard, s, x); }
  }

  lemma KillKeeps(guard: seq<nat>, s: State, s': State, a: nat, p: nat)
    requires Inv(guard, s) && Kill(s, s', a, p)
    ensures Inv(guard, s')
  {
    assert PcInv(guard, s, a);
    assert PcInv(guard, s, p);
    forall x: nat | x < |s'.pcs| ensures PcInv(guard, s', x) { assert PcInv(guard, s, x); }
  }

  lemma SpawnKeeps(guard: seq<nat>, s: State, s': State, a: nat, p: nat)
    requires Inv(guard, s) && Spawn(s, s', a, p)
    ensures Inv(guard, s')
  {
    assert PcInv(guard, s, a);
    assert PcInv(guard, s, p);
    forall x: nat | x < |s'.pcs| ensures PcInv(guard, s', x) { assert PcInv(guard, s, x); }
  }

  lemma ReapKeeps(guard: seq<nat>, s: State, s': State, a: nat, p: nat)
    requires Inv(guard, s) && Reap(s, s', a, p)
    ensures Inv(guard, s')
  {
    assert PcInv(guard, s, a);
    assert PcInv(guard, s, p);
    forall x: nat | x < |s'.pcs| ensures PcInv(guard, s', x) { assert PcInv(guard, s, x); }
  }

  lemma StepKeeps(guard: seq<nat>, s: State, s': State, step: Step)
    requires Inv(guard, s) && Next(guard, s, s', step)
    ensures Inv(guard, s')
  {
    match step
    case AcquireStep(a, l) => AcquireKeeps(guard, s, s', a, l);
    case ReleaseStep(a, l) => ReleaseKeeps(guard, s, s', a, l);
    case SetCondStep(a, c, v) => SetCondKeeps(guard, s, s', a, c, v);
    case SleepStep(a, c) => SleepKeeps(guard, s, s', a, c);
    case SleepLockStep(a) => SleepLocksKeeps(guard, s, s', a);
    case SleepUnlockStep(a) => SleepUnlocksKeeps(guard, s, s', a);
    case SetChanStep(a) => SetsChanKeeps(guard, s, s', a);
    case SetStateStep(a) => SetsStateKeeps(guard, s, s', a);
    case GiveUpStep(a, dies) => GiveUpKeeps(guard, s, s', a, dies);
    case SwtchStep(a, k) => SwtchKeeps(guard, s, s', a, k);
    case SchedAcquireStep(k) => SchedAcquireKeeps(guard, s, s', k);
    case SchedReleaseStep(k) => SchedReleaseKeeps(guard, s, s', k);
    case DispatchStep(k, p) => DispatchKeeps(guard, s, s', k, p);
    case TidyStep(a) => TidiesKeeps(guard, s, s', a);
    case TidyUnlockStep(a) => TidyUnlocksKeeps(guard, s, s', a);
    case RelockStep(a) => RelocksKeeps(guard, s, s', a);
    case WakeupStep(a, c) => WakeupKeeps(guard, s, s', a, c);
    case WakeLockStep(a) => WakeLocksKeeps(guard, s, s', a);
    case Wakeup1Step(a, c) => Wakeup1Keeps(guard, s, s', a, c);
    case ScanStep(a) => ScansKeeps(guard, s, s', a);
    case ScanEndStep(a) => ScanEndsKeeps(guard, s, s', a);
    case KillStep(a, p) => KillKeeps(guard, s, s', a, p);
    case SpawnStep(a, p) => SpawnKeeps(guard, s, s', a, p);
    case ReapStep(a, p) => ReapKeeps(guard, s, s', a, p);
  }

  // ---------------------------------------------------------------- runs

  // At boot nobody sleeps, no lock is held and no process is on a CPU.
  ghost predicate Init(guard: seq<nat>, s: State) {
    && Shape(guard, s) && s.owed == {}
    && (forall l | 0 <= l < |s.locks| :: s.locks[l] == Free)
    && (forall k | 0 <= k < |s.cpus| :: s.cpus[k] == -1)
    && (forall p | 0 <= p < |s.procs| ::
          || (s.procs[p].st == UNUSED && s.pcs[p] == Off(Exited))
          || (s.procs[p].st == RUNNABLE && s.pcs[p] == Off(Born)))
    && (forall a | |s.procs| <= a < |s.pcs| :: s.pcs[a] == Run)
  }

  ghost predicate IsRun(guard: seq<nat>, run: seq<State>, steps: seq<Step>) {
    && |run| == |steps| + 1 && Init(guard, run[0])
    && forall i {:trigger steps[i]} | 0 <= i < |steps| :: Next(guard, run[i], run[i + 1], steps[i])
  }

  lemma {:induction false} RunInv(guard: seq<nat>, run: seq<State>, steps: seq<Step>, i: nat)
    requires IsRun(guard, run, steps) && i < |run|
    ensures Inv(guard, run[i])
  {
    if i == 0 {
      forall a: nat | a < |run[0].pcs| ensures PcInv(guard, run[0], a) {}
    } else {
      RunInv(guard, run, steps, i - 1);
      StepKeeps(guard, run[i - 1], run[i], steps[i - 1]);
    }
  }

  // No lost wakeup: whenever the lock guarding a condition is free, nobody sleeps although the
  // condition is true.
  lemma NoLostWakeup(guard: seq<nat>, run: seq<State>, steps: seq<Step>, i: nat, p: nat, c: nat)
    requires IsRun(guard, run, steps) && i < |run| && p < |run[i].procs|
    requires IsChan(guard, c) && Waiting(run[i].procs[p], c)
    ensures IsFree(run[i], guard[c]) ==> c < |run[i].cond| && !run[i].cond[c]
  {
    RunInv(guard, run, steps, i);
  }

  // Who owes a wakeup keeps the lock.
  lemma OwerKeepsLock(guard: seq<nat>, s: State, s': State, step: Step, c: nat)
    requires Inv(guard, s) && Next(guard, s, s', step) && c in s.owed
    ensures IsChan(guard, c) && s.locks[guard[c]].By? && guard[c] < |s'.locks|
    ensures s'.locks[guard[c]] == s.locks[guard[c]]
  {
    match step
    case SleepUnlockStep(a) => assert PcInv(guard, s, a);
    case SwtchStep(a, k) => assert PcInv(guard, s, a);
    case TidyUnlockStep(a) => assert PcInv(guard, s, a);
    case ScanEndStep(a) => assert PcInv(guard, s, a);
    case _ =>
  }

  // A debt is paid by a scan that leaves no sleeper behind, or by making the condition false.
  lemma DebtPaid(guard: seq<nat>, s: State, s': State, step: Step, c: nat)
    requires Inv(guard, s) && Next(guard, s, s', step) && c in s.owed && c !in s'.owed
    ensures Awake(s'.procs, |s'.procs|, c) || (c < |s'.cond| && !s'.cond[c])
  {
    match step
    case ScanEndStep(a) => assert PcInv(guard, s, a);
    case _ =>
  }

  // As long as p sleeps on c with the condition true, one and the same actor holds the lock.
  lemma {:induction false} SleeperIsOwed(guard: seq<nat>, run: seq<State>, steps: seq<Step>, i: nat, j: nat, p: nat,
                                         c: nat)
    requires IsRun(guard, run, steps) && i <= j < |run| && IsChan(guard, c)
    requires forall n | i <= n <= j ::
      p < |run[n].procs| && Waiting(run[n].procs[p], c) && c < |run[n].cond| && run[n].cond[c]
    ensures guard[c] < |run[i].locks| && run[i].locks[guard[c]].By? && guard[c] < |run[j].locks|
    ensures run[j].locks[guard[c]] == run[i].locks[guard[c]] && c in run[j].owed
  {
    OwedAt(guard, run, steps, j, p, c);
    if i < j {
      SleeperIsOwed(guard, run, steps, i, j - 1, p, c);
      OwerKeepsAt(guard, run, steps, j - 1, c);
    }
  }

  lemma OwedAt(guard: seq<nat>, run: seq<State>, steps: seq<Step>, j: nat, p: nat, c: nat)
    requires IsRun(guard, run, steps) && j < |run| && IsChan(guard, c)
    requires p < |run[j].procs| && Waiting(run[j].procs[p], c) && c < |run[j].cond| && run[j].cond[c]
    ensures c in run[j].owed && guard[c] < |run[j].locks| && run[j].locks[guard[c]].By?
  {
    RunInv(guard, run, steps, j);
    assert Announced(run[j], c);
  }

  lemma OwerKeepsAt(guard: seq<nat>, run: seq<State>, steps: seq<Step>, j: nat, c: nat)
    requires IsRun(guard, run, steps) && j < |steps| && c in run[j].owed && IsChan(guard, c)
    ensures guard[c] < |run[j].locks| && guard[c] < |run[j + 1].locks|
    ensures run[j + 1].locks[guard[c]] == run[j].locks[guard[c]]
  {
    RunInv(guard, run, steps, j);
    OwerKeepsLock(guard, run[j], run[j + 1], steps[j], c);
  }

  // A process the scheduler may pick is on no CPU and has saved its context in swtch, so no
  // process ever runs on two CPUs.
  lemma DispatchSafe(guard: seq<nat>, run: seq<State>, steps: seq<Step>, i: nat, k: nat, p: nat)
    requires IsRun(guard, run, steps) && i < |run| && |run[i].locks| > 0 && run[i].locks[PTABLE] == Cpu(k)
    requires p < |run[i].procs| && p < |run[i].pcs| && run[i].procs[p].st == RUNNABLE
    ensures run[i].pcs[p].Off? && p !in run[i].cpus
    ensures forall j, q | 0 <= j < |run[i].cpus| && 0 <= q < |run[i].cpus| && run[i].cpus[j] == run[i].cpus[q] != -1 ::
      j == q
  {
    RunInv(guard, run, steps, i);
    assert PcInv(guard, run[i], p);
  }

  // Two of the four panics of sched are unreachable: its caller holds ptable.lock and is no longer
  // RUNNING.  The other two, on interrupt state, are not modelled.
  lemma SchedChecks(guard: seq<nat>, run: seq<State>, steps: seq<Step>, i: nat, a: nat)
    requires IsRun(guard, run, steps) && i < |run| && a < |run[i].pcs| && run[i].pcs[a].Switch?
    ensures Holds(run[i], a, PTABLE) && a < |run[i].procs| && run[i].procs[a].st != RUNNING
  {
    RunInv(guard, run, steps, i);
    assert PcInv(guard, run[i], a);
  }
}
