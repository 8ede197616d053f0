/**
 What sleep, wakeup and the scheduler do to their callers, over the runs of SleepWakeup:
 which locks a call returns with, which changes of state a process goes through, and that
 nobody keeps ptable.lock for good inside this code.
 */
module SleepCalls {
  import opened SleepWakeup

  // The step is taken by actor a, or sets process a going.
  predicate Involves(step: Step, a: nat) {
    match step
    case SchedAcquireStep(k) => false
    case SchedReleaseStep(k) => false
    case DispatchStep(k, p) => p == a
    case SpawnStep(b, p) => a == b || a == p
    case _ => step.a == a
  }

  ghost predicate SameLocks(s: State, s': State, a: nat) {
    |s'.locks| == |s.locks| && forall l: nat | l < |s.locks| :: Holds(s', a, l) <==> Holds(s, a, l)
  }

  // The locks exclude: only its holder gives up a lock, and one gets it only when it is free, or
  // ptable.lock from a scheduler that switches to one.
  lemma LockChanges(guard: seq<nat>, s: State, s': State, step: Step, l: nat)
    requires Inv(guard, s) && Next(guard, s, s', step) && l < |s.locks|
    ensures |s'.locks| == |s.locks|
    ensures s.locks[l].By? && s'.locks[l] != s.locks[l] ==> Involves(step, s.locks[l].a) && !step.DispatchStep?
    ensures s'.locks[l].By? && s'.locks[l] != s.locks[l] ==>
              Involves(step, s'.locks[l].a) && (s.locks[l] == Free || (step.DispatchStep? && s.locks[l] == Cpu(step.k)))
    ensures step.AcquireStep? && step.l == l ==> s.locks[l] == Free && s'.locks[l] == By(step.a)
    ensures step.ReleaseStep? && step.l == l ==> s.locks[l] == By(step.a) && s'.locks[l] == Free
  {
    if step.SwtchStep? || step.SleepUnlockStep? || step.TidyUnlockStep? || step.ScanEndStep? {
      assert PcInv(guard, s, step.a);
    }
  }

  lemma OthersPc(guard: seq<nat>, s: State, s': State, step: Step, a: nat)
    requires Inv(guard, s) && Next(guard, s, s', step) && a < |s.pcs| && !Involves(step, a)
    ensures |s'.pcs| == |s.pcs| && s'.pcs[a] == s.pcs[a]
    ensures |s'.procs| == |s.procs| && (a < |s.procs| ==> s'.procs[a].chan == s.procs[a].chan)
  {
  }

  // Nobody else takes an actor's locks, gives it one, or moves it on.
  lemma OthersLeave(guard: seq<nat>, s: State, s': State, step: Step, a: nat)
    requires Inv(guard, s) && Next(guard, s, s', step) && a < |s.pcs| && !Involves(step, a)
    ensures |s'.pcs| == |s.pcs| && s'.pcs[a] == s.pcs[a] && SameLocks(s, s', a)
    ensures |s'.procs| == |s.procs| && (a < |s.procs| ==> s'.procs[a].chan == s.procs[a].chan)
  {
    OthersPc(guard, s, s', step, a);
    LockChanges(guard, s, s', step, PTABLE);
    forall l: nat | l < |s.locks| ensures Holds(s', a, l) <==> Holds(s, a, l) {
      LockChanges(guard, s, s', step, l);
    }
  }

  // --------------------------------------------------------------- conditions

  // The lock's holder is in wakeup(c).
  predicate Announces(guard: seq<nat>, s: State, a: nat, c: nat) {
    a < |s.pcs| && s.pcs[a].Scan? && s.pcs[a].c == c && c < |guard| && Holds(s, a, guard[c])
  }

  // Only the holder of its lock changes a condition.  A wakeup comes to be owed when a condition is
  // made true, and is owed no longer when the condition is made false or the holder's scan ends.
  lemma CondChanges(guard: seq<nat>, s: State, s': State, step: Step, c: nat)
    requires Inv(guard, s) && Next(guard, s, s', step) && IsChan(guard, c) && c < |s.cond|
    ensures |s'.cond| == |s.cond|
    ensures s'.cond[c] != s.cond[c] ==>
              step.SetCondStep? && step.c == c && step.v == s'.cond[c] && Holds(s, step.a, guard[c])
    ensures c in s'.owed && c !in s.owed ==> step.SetCondStep? && step.c == c && s'.cond[c]
    ensures c in s.owed && c !in s'.owed ==>
              (step.SetCondStep? && step.c == c && !s'.cond[c]) || (step.ScanEndStep? && Announces(guard, s, step.a, c))
    ensures step.ScanEndStep? && Announces(guard, s, step.a, c) ==> c !in s'.owed
  {
  }

  // In every run a wakeup is owed only for a condition that is true.
  lemma {:induction false} OwedIsTrue(guard: seq<nat>, run: seq<State>, steps: seq<Step>, i: nat, c: nat)
    requires IsRun(guard, run, steps) && i < |run| && c in run[i].owed
    ensures IsChan(guard, c) && c < |run[i].cond| && run[i].cond[c]
  {
    RunInv(guard, run, steps, i);
    if i > 0 {
      RunInv(guard, run, steps, i - 1);
      assert Next(guard, run[i - 1], run[i], steps[i - 1]);
      CondChanges(guard, run[i - 1], run[i], steps[i - 1], c);
      if c in run[i - 1].owed {
        OwedIsTrue(guard, run, steps, i - 1, c);
      }
    }
  }

  // --------------------------------------------------------------- sleep

  // Actor a is inside sleep(c), called in state s0; which locks it holds, beside those of before.
  ghost predicate Sleeping(guard: seq<nat>, s0: State, s: State, a: nat, c: nat) {
    && a < |s.pcs| && c < |guard| && |s.locks| == |s0.locks|
    && match s.pcs[a]
       case SleepLock(x) => x == c && SameLocks(s0, s, a)
       case SleepUnlock(x) => x == c && Except(guard, s0, s, a, c, true, true)
       case SetChan(x) => x == c && Except(guard, s0, s, a, c, true, false)
       case SetState(x) => x == c && Except(guard, s0, s, a, c, true, false)
       case Switch(why) => why == Slept(c) && Except(guard, s0, s, a, c, true, false)
       case Off(why) => why == Slept(c) && Except(guard, s0, s, a, c, false, false)
       case Tidy(x) => x == c && Except(guard, s0, s, a, c, true, false)
       case TidyUnlock(x) => x == c && Except(guard, s0, s, a, c, true, false) && Tidied(s, a)
       case Relock(x) => x == c && Except(guard, s0, s, a, c, false, false) && Tidied(s, a)
       case _ => false
  }

  predicate Tidied(s: State, a: nat) {
    a < |s.procs| && s.procs[a].chan == 0
  }

  // The locks of a are those it had in s0, except that it holds ptable.lock or not, and lk or not.
  ghost predicate Except(guard: seq<nat>, s0: State, s: State, a: nat, c: nat, ptable: bool, lk: bool)
    requires c < |guard|
  {
    && Holds(s0, a, guard[c]) && (guard[c] != PTABLE ==> !Holds(s0, a, PTABLE))
    && forall l: nat | l < |s.locks| ::
         Holds(s, a, l) <==> if l == PTABLE then ptable else if l == guard[c] then lk else Holds(s0, a, l)
  }

  lemma SleepBegins(guard: seq<nat>, s: State, s': State, a: nat, c: nat)
    requires Inv(guard, s) && Sleep(guard, s, s', a, c)
    ensures Sleeping(guard, s, s', a, c)
  {
  }

  lemma SleepGoesOn(guard: seq<nat>, s0: State, s: State, s': State, step: Step, a: nat, c: nat)
    requires Inv(guard, s) && Next(guard, s, s', step) && Sleeping(guard, s0, s, a, c) && a < |s.procs|
    ensures Sleeping(guard, s0, s', a, c) || (Runs(s', a) && SameLocks(s0, s', a) && Tidied(s', a))
  {
    if !Involves(step, a) {
      OthersLeave(guard, s, s', step, a);
    } else {
      assert PcInv(guard, s, a);
      SleepStepOwn(guard, s0, s, s', step, a, c);
    }
  }

  lemma SleepStepOwn(guard: seq<nat>, s0: State, s: State, s': State, step: Step, a: nat, c: nat)
    requires Shape(guard, s) && a < |s.pcs| && PcInv(guard, s, a) && Involves(step, a)
    requires Next(guard, s, s', step) && Sleeping(guard, s0, s, a, c) && a < |s.procs|
    ensures Sleeping(guard, s0, s', a, c) || (Runs(s', a) && SameLocks(s0, s', a) && Tidied(s', a))
  {
    if s.pcs[a].Tidy? || s.pcs[a].TidyUnlock? || s.pcs[a].Relock? {
      SleepEnds(guard, s0, s, s', step, a, c);
    } else {
      SleepStarts(guard, s0, s, s', step, a, c);
    }
  }

  lemma SleepStarts(guard: seq<nat>, s0: State, s: State, s': State, step: Step, a: nat, c: nat)
    requires Shape(guard, s) && a < |s.pcs| && PcInv(guard, s, a) && Involves(step, a)
    requires Next(guard, s, s', step) && Sleeping(guard, s0, s, a, c) && a < |s.procs|
    requires !s.pcs[a].Tidy? && !s.pcs[a].TidyUnlock? && !s.pcs[a].Relock?
    ensures Sleeping(guard, s0, s', a, c)
  {
  }

  lemma SleepEnds(guard: seq<nat>, s0: State, s: State, s': State, step: Step, a: nat, c: nat)
    requires Shape(guard, s) && a < |s.pcs| && PcInv(guard, s, a) && Involves(step, a)
    requires Next(guard, s, s', step) && Sleeping(guard, s0, s, a, c) && a < |s.procs|
    requires s.pcs[a].Tidy? || s.pcs[a].TidyUnlock? || s.pcs[a].Relock?
    ensures Sleeping(guard, s0, s', a, c) || (Runs(s', a) && SameLocks(s0, s', a) && Tidied(s', a))
  {
  }

  // The process has got past setting its state.
  predicate Slumbers(pc: Pc) {
    pc.Switch? || pc.Off? || pc.Tidy? || pc.TidyUnlock? || pc.Relock?
  }

  // In state m process a sleeps on c, and does not hold the lock it will return with.
  ghost predicate Asleep(guard: seq<nat>, s: State, a: nat, c: nat) {
    && a < |s.procs| && Waiting(s.procs[a], c) && IsChan(guard, c)
    && (guard[c] != PTABLE ==> !Holds(s, a, guard[c]))
  }

  // Actor a called sleep(c) in step i, and has not returned by state j.
  ghost predicate InSleep(run: seq<State>, steps: seq<Step>, i: nat, j: nat, a: nat, c: nat) {
    && i < j < |run| == |steps| + 1 && steps[i] == SleepStep(a, c)
    && forall m | i < m <= j :: !Runs(run[m], a)
  }

  lemma {:induction false} Inside(guard: seq<nat>, run: seq<State>, steps: seq<Step>, i: nat, j: nat, a: nat, c: nat)
    returns (m: nat)
    requires IsRun(guard, run, steps) && InSleep(run, steps, i, j, a, c)
    ensures Sleeping(guard, run[i], run[j], a, c) && a < |run[j].procs|
    ensures Slumbers(run[j].pcs[a]) ==> i < m <= j && Asleep(guard, run[m], a, c)
    decreases j
  {
    if i == j - 1 {
      BeginsAt(guard, run, steps, i, a, c);
      m := j;
    } else {
      m := Inside(guard, run, steps, i, j - 1, a, c);
      var falls := GoesOnAt(guard, run, steps, i, j - 1, a, c);
      assert !Runs(run[j], a);
      if falls { m := j; }
    }
  }

  lemma BeginsAt(guard: seq<nat>, run: seq<State>, steps: seq<Step>, i: nat, a: nat, c: nat)
    requires IsRun(guard, run, steps) && i < |steps| && steps[i] == SleepStep(a, c)
    ensures Sleeping(guard, run[i], run[i + 1], a, c) && a < |run[i + 1].procs|
    ensures !Slumbers(run[i + 1].pcs[a]) && Holds(run[i], a, guard[c])
  {
    RunInv(guard, run, steps, i);
    SleepBegins(guard, run[i], run[i + 1], a, c);
  }

  lemma GoesOnAt(guard: seq<nat>, run: seq<State>, steps: seq<Step>, i: nat, j: nat, a: nat, c: nat)
    returns (falls: bool)
    requires IsRun(guard, run, steps) && i < |run| && j < |steps| && Sleeping(guard, run[i], run[j], a, c)
    requires a < |run[j].procs|
    ensures a < |run[j + 1].procs| && a < |run[j + 1].pcs|
    ensures Runs(run[j + 1], a) || Sleeping(guard, run[i], run[j + 1], a, c)
    ensures Runs(run[j + 1], a) ==> SameLocks(run[i], run[j + 1], a) && Tidied(run[j + 1], a) && Slumbers(run[j].pcs[a])
    ensures Slumbers(run[j + 1].pcs[a]) ==> Slumbers(run[j].pcs[a]) || falls
    ensures falls ==> Asleep(guard, run[j + 1], a, c)
  {
    RunInv(guard, run, steps, j);
    falls := StepOn(guard, run[i], run[j], run[j + 1], steps[j], a, c);
  }

  lemma StepOn(guard: seq<nat>, s0: State, s: State, s': State, step: Step, a: nat, c: nat) returns (falls: bool)
    requires Inv(guard, s) && Next(guard, s, s', step) && Sleeping(guard, s0, s, a, c) && a < |s.procs|
    ensures a < |s'.procs| && a < |s'.pcs|
    ensures Runs(s', a) || Sleeping(guard, s0, s', a, c)
    ensures Runs(s', a) ==> SameLocks(s0, s', a) && Tidied(s', a) && Slumbers(s.pcs[a])
    ensures Slumbers(s'.pcs[a]) ==> Slumbers(s.pcs[a]) || falls
    ensures falls ==> Asleep(guard, s', a, c)
  {
    SleepGoesOn(guard, s0, s, s', step, a, c);
    falls := Slumbers(s'.pcs[a]) && !Slumbers(s.pcs[a]);
    if falls { FallsAsleep(guard, s0, s, s', step, a, c); }
    if Runs(s', a) { OnlyTidied(guard, s, s', step, a); }
  }

  lemma FallsAsleep(guard: seq<nat>, s0: State, s: State, s': State, step: Step, a: nat, c: nat)
    requires Inv(guard, s) && Next(guard, s, s', step) && a < |s.procs| && |s'.procs| == |s.procs|
    requires Sleeping(guard, s0, s, a, c) && Sleeping(guard, s0, s', a, c)
    requires Slumbers(s'.pcs[a]) && !Slumbers(s.pcs[a])
    ensures Asleep(guard, s', a, c)
  {
    assert PcInv(guard, s, a);
    if !Involves(step, a) { OthersLeave(guard, s, s', step, a); }
  }

  // sleep(c, lk) returns with the locks its caller had, lk among them, with no channel, and only after
  // the process has slept on c without lk.
  lemma SleepReturns(guard: seq<nat>, run: seq<State>, steps: seq<Step>, i: nat, j: nat, a: nat, c: nat)
    returns (m: nat)
    requires IsRun(guard, run, steps) && i + 1 < j < |run| && InSleep(run, steps, i, j - 1, a, c) && Runs(run[j], a)
    ensures SameLocks(run[i], run[j], a) && c < |guard| && Holds(run[j], a, guard[c])
    ensures a < |run[j].procs| && run[j].procs[a] == Proc(RUNNING, 0)
    ensures i < m < j && Asleep(guard, run[m], a, c)
  {
    m := Inside(guard, run, steps, i, j - 1, a, c);
    var falls := GoesOnAt(guard, run, steps, i, j - 1, a, c);
    BeginsAt(guard, run, steps, i, a, c);
    RunningAt(guard, run, steps, j, a);
  }

  lemma RunningAt(guard: seq<nat>, run: seq<State>, steps: seq<Step>, j: nat, a: nat)
    requires IsRun(guard, run, steps) && j < |run| && Runs(run[j], a)
    ensures a < |run[j].procs| ==> run[j].procs[a].st == RUNNING
  {
    RunInv(guard, run, steps, j);
    assert PcInv(guard, run[j], a);
  }

  lemma OnlyTidied(guard: seq<nat>, s: State, s': State, step: Step, a: nat)
    requires Inv(guard, s) && Next(guard, s, s', step) && a < |s.pcs| && !Runs(s, a) && Runs(s', a)
    requires !s.pcs[a].WakeLock? && !s.pcs[a].Scan? && !(s.pcs[a].Off? && !s.pcs[a].why.Slept?)
    ensures Slumbers(s.pcs[a])
  {
    assert PcInv(guard, s, a);
    if !Involves(step, a) { OthersLeave(guard, s, s', step, a); }
  }

  // -------------------------------------------------------------- wakeup

  // Actor a is inside wakeup(c), or wakeup1(c), called in state s0.
  ghost predicate Waking(s0: State, s: State, a: nat, c: nat) {
    && a < |s.pcs| && |s.locks| == |s0.locks|
    && match s.pcs[a]
       case WakeLock(x) => x == c && SameLocks(s0, s, a)
       case Scan(x, k, unlock) =>
      && x == c && unlock == !Holds(s0, a, PTABLE)
      && forall l: nat | l < |s.locks| && l != PTABLE :: Holds(s, a, l) <==> Holds(s0, a, l)
       case _ => false
  }

  lemma WakeupGoesOn(guard: seq<nat>, s0: State, s: State, s': State, step: Step, a: nat, c: nat)
    requires Inv(guard, s) && Next(guard, s, s', step) && Waking(s0, s, a, c)
    ensures Waking(s0, s', a, c) ||
            (Runs(s', a) && SameLocks(s0, s', a) && Awake(s'.procs, |s'.procs|, c))
  {
    if !Involves(step, a) {
      OthersLeave(guard, s, s', step, a);
    } else {
      assert PcInv(guard, s, a);
    }
  }

  // Actor a called wakeup(c) or wakeup1(c) in step i, and has not returned by state j.
  ghost predicate InWakeup(run: seq<State>, steps: seq<Step>, i: nat, j: nat, a: nat, c: nat) {
    && i < j < |run| == |steps| + 1 && (steps[i] == WakeupStep(a, c) || steps[i] == Wakeup1Step(a, c))
    && forall m | i < m <= j :: !Runs(run[m], a)
  }

  lemma {:induction false} InsideWakeup(guard: seq<nat>, run: seq<State>, steps: seq<Step>, i: nat, j: nat, a: nat,
                                        c: nat)
    requires IsRun(guard, run, steps) && InWakeup(run, steps, i, j, a, c)
    ensures Waking(run[i], run[j], a, c)
    decreases j
  {
    if i < j - 1 {
      InsideWakeup(guard, run, steps, i, j - 1, a, c);
      WakesOnAt(guard, run, steps, i, j - 1, a, c);
      assert !Runs(run[j], a);
    } else {
      WakeBeginsAt(guard, run, steps, i, a, c);
    }
  }

  lemma WakeBeginsAt(guard: seq<nat>, run: seq<State>, steps: seq<Step>, i: nat, a: nat, c: nat)
    requires IsRun(guard, run, steps) && i < |steps| && (steps[i] == WakeupStep(a, c) || steps[i] == Wakeup1Step(a, c))
    ensures Waking(run[i], run[i + 1], a, c)
  {
    assert Next(guard, run[i], run[i + 1], steps[i]);
  }

  lemma WakesOnAt(guard: seq<nat>, run: seq<State>, steps: seq<Step>, i: nat, j: nat, a: nat, c: nat)
    requires IsRun(guard, run, steps) && i < |run| && j < |steps| && Waking(run[i], run[j], a, c)
    ensures Waking(run[i], run[j + 1], a, c) ||
            (Runs(run[j + 1], a) && SameLocks(run[i], run[j + 1], a) && Awake(run[j + 1].procs, |run[j + 1].procs|, c))
  {
    RunInv(guard, run, steps, j);
    WakeupGoesOn(guard, run[i], run[j], run[j + 1], steps[j], a, c);
  }

  // wakeup(c) returns with the locks its caller had, and with nobody asleep on c.
  lemma WakeupReturns(guard: seq<nat>, run: seq<State>, steps: seq<Step>, i: nat, j: nat, a: nat, c: nat)
    requires IsRun(guard, run, steps) && i + 1 < j < |run| && InWakeup(run, steps, i, j - 1, a, c) && Runs(run[j], a)
    ensures SameLocks(run[i], run[j], a) && Awake(run[j].procs, |run[j].procs|, c)
  {
    InsideWakeup(guard, run, steps, i, j - 1, a, c);
    WakesOnAt(guard, run, steps, i, j - 1, a, c);
  }

  // ------------------------------------------------------- changes of state

  // The steps that take process p from one state to another.
  predicate Moves(s: State, step: Step, p: nat, from: PState, to: PState)
    requires p < |s.procs|
  {
    match step
    case SetStateStep(a) => a == p && from == RUNNING && to == SLEEPING
    case GiveUpStep(a, dies) => a == p && from == RUNNING && to == if dies then ZOMBIE else RUNNABLE
    case DispatchStep(k, q) => q == p && from == RUNNABLE && to == RUNNING
    case ScanStep(a) =>
      && a < |s.pcs| && s.pcs[a].Scan? && s.pcs[a].k == p && s.pcs[a].c == s.procs[p].chan
      && from == SLEEPING && to == RUNNABLE
    case KillStep(a, q) => q == p && from == SLEEPING && to == RUNNABLE
    case SpawnStep(a, q) => q == p && from == UNUSED && to == RUNNABLE
    case ReapStep(a, q) => q == p && from == ZOMBIE && to == UNUSED
    case _ => false
  }

  // A process changes state in these steps and in no others.
  lemma StateChanges(guard: seq<nat>, s: State, s': State, step: Step, p: nat)
    requires Inv(guard, s) && Next(guard, s, s', step) && p < |s.procs|
    ensures p < |s'.procs|
    ensures s'.procs[p].st != s.procs[p].st <==> Moves(s, step, p, s.procs[p].st, s'.procs[p].st)
    ensures step.KillStep? && step.p == p ==> s'.procs[p].st != SLEEPING
    ensures forall t :: Moves(s, step, p, s.procs[p].st, t) ==> s'.procs[p].st == t
  {
    if Involves(step, p) { assert PcInv(guard, s, p); }
  }

  // ------------------------------------------------- ptable.lock is given back

  // Every process that is not switched out is on some CPU, and one that is, or that waits for the lock
  // it slept with, does not hold ptable.lock.
  ghost predicate Placed(s: State) {
    && (forall p: nat | p < |s.procs| && p < |s.pcs| && !s.pcs[p].Off? :: OnCpu(s.cpus, p))
    && (forall a: nat | a < |s.pcs| && (s.pcs[a].Off? || s.pcs[a].Relock?) :: !Holds(s, a, PTABLE))
  }

  ghost predicate OnCpu(cpus: seq<int>, p: nat) {
    exists k | 0 <= k < |cpus| :: cpus[k] == p
  }

  lemma PlacedStep(guard: seq<nat>, s: State, s': State, step: Step)
    requires Inv(guard, s) && Placed(s) && Next(guard, s, s', step)
    ensures Placed(s')
  {
    forall p: nat | p < |s'.procs| && p < |s'.pcs| && !s'.pcs[p].Off? ensures OnCpu(s'.cpus, p) {
      if step.DispatchStep? && step.p == p {
        assert s'.cpus[step.k] == p;
      } else {
        StaysPlaced(guard, s, s', step, p);
      }
    }
    forall a: nat | a < |s'.pcs| && (s'.pcs[a].Off? || s'.pcs[a].Relock?) ensures !Holds(s', a, PTABLE) {
      StaysOff(guard, s, s', step, a);
    }
  }

  lemma StaysOff(guard: seq<nat>, s: State, s': State, step: Step, a: nat)
    requires Inv(guard, s) && Placed(s) && Next(guard, s, s', step)
    requires a < |s'.pcs| && (s'.pcs[a].Off? || s'.pcs[a].Relock?)
    ensures !Holds(s', a, PTABLE)
  {
    assert PcInv(guard, s, a);
    if !Involves(step, a) { OthersLeave(guard, s, s', step, a); }
  }

  lemma StaysPlaced(guard: seq<nat>, s: State, s': State, step: Step, p: nat)
    requires Inv(guard, s) && Placed(s) && Next(guard, s, s', step) && !(step.DispatchStep? && step.p == p)
    requires p < |s'.procs| && p < |s'.pcs| && !s'.pcs[p].Off?
    ensures OnCpu(s'.cpus, p)
  {
    if !Involves(step, p) {
      OthersLeave(guard, s, s', step, p);
    } else {
      assert PcInv(guard, s, p);
    }
    var k :| 0 <= k < |s.cpus| && s.cpus[k] == p;
    assert s'.cpus[k] == p;
  }

  lemma {:induction false} RunPlaced(guard: seq<nat>, run: seq<State>, steps: seq<Step>, i: nat)
    requires IsRun(guard, run, steps) && i < |run|
    ensures Placed(run[i])
  {
    if i > 0 {
      RunPlaced(guard, run, steps, i - 1);
      RunInv(guard, run, steps, i - 1);
      PlacedStep(guard, run[i - 1], run[i], steps[i - 1]);
    }
  }

  // ptable.lock is free, or its holder is outside this code, or has called into it as it may not:
  // acquire panics on a lock that is held already.
  predicate PtableOut(s: State) {
    |s.locks| > 0 &&
    match s.locks[PTABLE]
    case Free => true
    case Cpu(k) => false
    case By(a) => a < |s.pcs| && (s.pcs[a].Run? || s.pcs[a].SleepLock? || s.pcs[a].WakeLock?)
  }

  // The steps that its holder still has to take.
  function Distance(s: State): nat
    requires |s.locks| > 0
  {
    match s.locks[PTABLE]
    case Free => 0
    case Cpu(k) => 1
    case By(a) => if a < |s.pcs| then PcDistance(s.pcs[a], |s.procs|) else 0
  }

  function PcDistance(pc: Pc, n: nat): nat {
    match pc
    case SleepUnlock(c) => 5
    case SetChan(c) => 4
    case SetState(c) => 3
    case Switch(why) => 2
    case Tidy(c) => 2
    case TidyUnlock(c) => 1
    case Scan(c, k, unlock) => if k < n then n - k + 1 else 1
    case _ => 0
  }

  // In every such state the holder can take a step, and gets nearer.
  lemma HolderGoesOn(guard: seq<nat>, s: State) returns (s': State, step: Step)
    requires Inv(guard, s) && Placed(s) && !PtableOut(s)
    ensures Next(guard, s, s', step) && |s'.locks| > 0 && Distance(s') < Distance(s)
  {
    var h := s.locks[PTABLE];
    if h.Cpu? {
      step := SchedReleaseStep(h.k);
      s' := Lock(s, PTABLE, Free);
    } else {
      s', step := ActorGoesOn(guard, s, h.a);
    }
  }

  lemma ActorGoesOn(guard: seq<nat>, s: State, a: nat) returns (s': State, step: Step)
    requires Inv(guard, s) && Placed(s) && Holds(s, a, PTABLE) && !PtableOut(s)
    ensures Next(guard, s, s', step) && |s'.locks| > 0 && Distance(s') < Distance(s)
  {
    assert PcInv(guard, s, a);
    var pc := s.pcs[a];
    if pc.SleepUnlock? {
      s', step := Goto(Lock(s, guard[pc.c], Free), a, SetChan(pc.c)), SleepUnlockStep(a);
    } else if pc.SetChan? {
      s', step := Goto(Chan(s, a, pc.c), a, SetState(pc.c)), SetChanStep(a);
    } else if pc.SetState? {
      s', step := Goto(Become(s, a, SLEEPING), a, Switch(Slept(pc.c))), SetStateStep(a);
    } else if pc.Switch? {
      var k :| 0 <= k < |s.cpus| && s.cpus[k] == a;
      s', step := Goto(Lock(s, PTABLE, Cpu(k)), a, Off(pc.why)).(cpus := s.cpus[k := -1]), SwtchStep(a, k);
    } else {
      s', step := LastSteps(guard, s, a);
    }
  }

  lemma LastSteps(guard: seq<nat>, s: State, a: nat) returns (s': State, step: Step)
    requires Inv(guard, s) && Holds(s, a, PTABLE) && a < |s.pcs|
    requires s.pcs[a].Tidy? || s.pcs[a].TidyUnlock? || s.pcs[a].Scan?
    ensures Next(guard, s, s', step) && |s'.locks| > 0 && Distance(s') < Distance(s)
  {
    assert PcInv(guard, s, a);
    var pc := s.pcs[a];
    if pc.Tidy? {
      s', step := Goto(Chan(s, a, 0), a, if guard[pc.c] == PTABLE then Run else TidyUnlock(pc.c)), TidyStep(a);
    } else if pc.TidyUnlock? {
      s', step := Goto(Lock(s, PTABLE, Free), a, Relock(pc.c)), TidyUnlockStep(a);
    } else if pc.k < |s.procs| {
      step := ScanStep(a);
      s' := Goto(if Waiting(s.procs[pc.k], pc.c) then Become(s, pc.k, RUNNABLE) else s, a,
                 Scan(pc.c, pc.k + 1, pc.unlock));
    } else {
      step := ScanEndStep(a);
      s' := Goto(if pc.unlock then Lock(s, PTABLE, Free) else s, a, Run).(
              owed := if pc.c < |guard| && Holds(s, a, guard[pc.c]) then s.owed - {pc.c} else s.owed);
    }
  }

  // Steps that lead from s to t.
  ghost predicate Leads(guard: seq<nat>, s: State, states: seq<State>, steps: seq<Step>, t: State) {
    && |states| == |steps| + 1 && states[0] == s && states[|steps|] == t
    && forall i {:trigger steps[i]} | 0 <= i < |steps| :: Next(guard, states[i], states[i + 1], steps[i])
  }

  lemma LeadsFirst(guard: seq<nat>, s: State, s1: State, step: Step, states: seq<State>, steps: seq<Step>, t: State)
    requires Next(guard, s, s1, step) && Leads(guard, s1, states, steps, t)
    ensures Leads(guard, s, [s] + states, [step] + steps, t)
  {
    var all, st := [s] + states, [step] + steps;
    forall i {:trigger st[i]} | 0 <= i < |st| ensures Next(guard, all[i], all[i + 1], st[i]) {
      if i > 0 { assert steps[i - 1] == st[i]; }
    }
  }

  // From every state, whoever holds ptable.lock inside this code can go on until it has given it back,
  // or has returned to its caller, without waiting for anybody.
  lemma {:induction false} PtableReturned(guard: seq<nat>, s: State)
    returns (states: seq<State>, steps: seq<Step>, t: State)
    requires Inv(guard, s) && Placed(s)
    ensures Leads(guard, s, states, steps, t) && PtableOut(t)
    decreases Distance(s)
  {
    if PtableOut(s) {
      states, steps, t := [s], [], s;
    } else {
      var s1, step := HolderGoesOn(guard, s);
      StepKeeps(guard, s, s1, step);
      PlacedStep(guard, s, s1, step);
      states, steps, t := PtableReturned(guard, s1);
      LeadsFirst(guard, s, s1, step, states, steps, t);
      states, steps := [s] + states, [step] + steps;
    }
  }
}
