/**
 What the steps of FileRefs do to descriptor tables, files and processes, each told by what it
 changes and what it leaves, and what the two descriptors of a pipe call refer to.
 */
module FileCalls {
  import opened FileRefs

  // Descriptor fd of p after a step.
  function EntryAfter(s: State, step: Step, p: nat, fd: nat): int
    requires HasSlot(s, p, fd)
  {
    var old_ := s.procs[p].ofile[fd];
    match step
    case FdallocStep(q, d, f) => if q == p && d == fd then f else old_
    case DupStoreStep(q, d0, d) => if q == p && d == fd && HasSlot(s, p, d0) then s.procs[p].ofile[d0] else old_
    case ForkStoreStep(q, np, d, f) => if np == p && d == fd then f else old_
    case ClearStep(q, d, f) => if q == p && d == fd then -1 else old_
    case ExitClearStep(q) => if q == p && s.procs[p].op.Exiting? && s.procs[p].op.fd == fd then -1 else old_
    case _ => old_
  }

  // A descriptor changes by open, pipe, dup and close of its own process, by its exit, and by the fork
  // that makes it.
  lemma TableChanges(s: State, s': State, step: Step, p: nat, fd: nat)
    requires Inv(s) && Next(s, s', step) && HasSlot(s, p, fd)
    ensures HasSlot(s', p, fd) && s'.procs[p].ofile[fd] == EntryAfter(s, step, p, fd)
  {
    if TableNext(s, s', step) {
      TableEntry(s, s', step, p, fd);
    } else if ForkNext(s, s', step) {
      ForkEntry(s, s', step, p, fd);
    } else if ExitNext(s, s', step) {
      ExitEntry(s, s', step, p, fd);
    } else {
      PipeEntry(s, s', step, p, fd);
    }
  }

  lemma TableEntry(s: State, s': State, step: Step, p: nat, fd: nat)
    requires Inv(s) && TableNext(s, s', step) && HasSlot(s, p, fd)
    ensures HasSlot(s', p, fd) && s'.procs[p].ofile[fd] == EntryAfter(s, step, p, fd)
  {
  }

  lemma ForkEntry(s: State, s': State, step: Step, p: nat, fd: nat)
    requires Inv(s) && ForkNext(s, s', step) && HasSlot(s, p, fd)
    ensures HasSlot(s', p, fd) && s'.procs[p].ofile[fd] == EntryAfter(s, step, p, fd)
  {
    if step.ForkStoreStep? { assert OpInv(s, step.p); }
  }

  lemma ExitEntry(s: State, s': State, step: Step, p: nat, fd: nat)
    requires Inv(s) && ExitNext(s, s', step) && HasSlot(s, p, fd)
    ensures HasSlot(s', p, fd) && s'.procs[p].ofile[fd] == EntryAfter(s, step, p, fd)
  {
  }

  lemma PipeEntry(s: State, s': State, step: Step, p: nat, fd: nat)
    requires Inv(s) && PipeNext(s, s', step) && HasSlot(s, p, fd)
    ensures HasSlot(s', p, fd) && s'.procs[p].ofile[fd] == EntryAfter(s, step, p, fd)
  {
  }

  // What a file is after a step: a pipe makes it an end, open an inode, and the last fileclose nothing.
  function KindAfter(s: State, step: Step, f: nat): Kind
    requires f < |s.files|
  {
    match step
    case MakePipeStep(p, f0, f1) =>
      if f == f1 then PipeEnd(|s.pipes|, true) else if f == f0 then PipeEnd(|s.pipes|, false) else s.files[f].kind
    case MakeInodeStep(p, fd, g) => if f == g then Inode else s.files[f].kind
    case FilecloseStep(p, g) => if f == g && s.files[f].ref == 1 then Unset else s.files[f].kind
    case _ => s.files[f].kind
  }

  // How many references a step adds to a file.
  function RefsAdded(step: Step, f: nat): int {
    match step
    case FileallocStep(p, g) => if f == g then 1 else 0
    case DupCountStep(p, g) => if f == g then 1 else 0
    case ForkCountStep(p, np, fd, g) => if f == g then 1 else 0
    case FilecloseStep(p, g) => if f == g then -1 else 0
    case _ => 0
  }

  lemma FileChanges(s: State, s': State, step: Step, f: nat)
    requires Inv(s) && Next(s, s', step) && f < |s.files|
    ensures f < |s'.files| && s'.files[f].kind == KindAfter(s, step, f)
    ensures s'.files[f].ref == s.files[f].ref + RefsAdded(step, f)
  {
    if TableNext(s, s', step) {
      TableFile(s, s', step, f);
    } else if ForkNext(s, s', step) {
      ForkFile(s, s', step, f);
    } else if ExitNext(s, s', step) {
      ExitFile(s, s', step, f);
    } else {
      PipeFile(s, s', step, f);
    }
  }

  lemma TableFile(s: State, s': State, step: Step, f: nat)
    requires Inv(s) && TableNext(s, s', step) && f < |s.files|
    ensures f < |s'.files| && s'.files[f].kind == KindAfter(s, step, f)
    ensures s'.files[f].ref == s.files[f].ref + RefsAdded(step, f)
  {
  }

  lemma ForkFile(s: State, s': State, step: Step, f: nat)
    requires Inv(s) && ForkNext(s, s', step) && f < |s.files|
    ensures f < |s'.files| && s'.files[f].kind == KindAfter(s, step, f)
    ensures s'.files[f].ref == s.files[f].ref + RefsAdded(step, f)
  {
  }

  lemma ExitFile(s: State, s': State, step: Step, f: nat)
    requires Inv(s) && ExitNext(s, s', step) && f < |s.files|
    ensures f < |s'.files| && s'.files[f].kind == KindAfter(s, step, f)
    ensures s'.files[f].ref == s.files[f].ref + RefsAdded(step, f)
  {
  }

  lemma PipeFile(s: State, s': State, step: Step, f: nat)
    requires Inv(s) && PipeNext(s, s', step) && f < |s.files|
    ensures f < |s'.files| && s'.files[f].kind == KindAfter(s, step, f)
    ensures s'.files[f].ref == s.files[f].ref + RefsAdded(step, f)
  {
    if step.FilecloseStep? { CreditCounts(s, step.p, step.f); }
  }

  // The steps that take process p from one stage of its life to the next.
  function LifeAfter(s: State, step: Step, p: nat): Life
    requires p < |s.procs|
  {
    match step
    case ForkBeginStep(q, np) => if np == p then Embryo(q) else s.procs[p].life
    case ForkFailStep(q, np) => if np == p then Unused else s.procs[p].life
    case ForkEndStep(q, np) => if np == p then Live else s.procs[p].life
    case ExitEndStep(q) => if q == p then Dead else s.procs[p].life
    case ReapStep(q) => if q == p then Unused else s.procs[p].life
    case _ => s.procs[p].life
  }

  lemma LifeChanges(s: State, s': State, step: Step, p: nat)
    requires Inv(s) && Next(s, s', step) && p < |s.procs|
    ensures p < |s'.procs| && s'.procs[p].life == LifeAfter(s, step, p)
  {
    if TableNext(s, s', step) {
      TableLife(s, s', step, p);
    } else if ForkNext(s, s', step) {
      ForkLife(s, s', step, p);
    } else if ExitNext(s, s', step) {
      ExitLife(s, s', step, p);
    } else {
      PipeLife(s, s', step, p);
    }
  }

  lemma TableLife(s: State, s': State, step: Step, p: nat)
    requires Inv(s) && TableNext(s, s', step) && p < |s.procs|
    ensures p < |s'.procs| && s'.procs[p].life == LifeAfter(s, step, p)
  {
  }

  lemma ForkLife(s: State, s': State, step: Step, p: nat)
    requires Inv(s) && ForkNext(s, s', step) && p < |s.procs|
    ensures p < |s'.procs| && s'.procs[p].life == LifeAfter(s, step, p)
  {
    assert OpInv(s, step.p);
  }

  lemma ExitLife(s: State, s': State, step: Step, p: nat)
    requires Inv(s) && ExitNext(s, s', step) && p < |s.procs|
    ensures p < |s'.procs| && s'.procs[p].life == LifeAfter(s, step, p)
  {
  }

  lemma PipeLife(s: State, s': State, step: Step, p: nat)
    requires Inv(s) && PipeNext(s, s', step) && p < |s.procs|
    ensures p < |s'.procs| && s'.procs[p].life == LifeAfter(s, step, p)
  {
  }

  // An end of a pipe is open until pipeclose is called for it.
  lemma EndChanges(s: State, s': State, step: Step, q: nat, writable: bool)
    requires Inv(s) && Next(s, s', step) && q < |s.pipes|
    ensures q < |s'.pipes|
    ensures EndOpen(s'.pipes[q], writable) <==>
            EndOpen(s.pipes[q], writable) && !(step.PipecloseStep? && step.q == q && step.writable == writable)
  {
  }

  // ---------------------------------------------------------------- pipe

  lemma {:induction false} TotalTwo(procs: seq<Proc>, p: nat, q: nat, f: nat)
    requires p < q < |procs|
    ensures Own(procs[p], f) + Own(procs[q], f) <= Total(procs, f)
  {
    if p == 0 {
      TotalAtLeast(procs[1..], q - 1, f);
    } else {
      TotalTwo(procs[1..], p - 1, q - 1, f);
    }
  }

  // What a process has a reference to stays what it is while others run.
  lemma OwnedStep(s: State, s': State, step: Step, p: nat, f: nat)
    requires Inv(s) && Next(s, s', step) && Idle(s, p) && step.p != p && f < |s.files| && Own(s.procs[p], f) >= 1
    requires s.files[f].kind != Unset
    ensures Idle(s', p) && s'.procs[p] == s.procs[p] && f < |s'.files| && s'.files[f].kind == s.files[f].kind
  {
    FileChanges(s, s', step, f);
    OthersStep(s, s', step, p);
    if step.FilecloseStep? && step.f == f {
      assert Own(s.procs[step.p], f) >= 1;
      if step.p < p { TotalTwo(s.procs, step.p, p, f); } else { TotalTwo(s.procs, p, step.p, f); }
    }
  }

  lemma OthersStep(s: State, s': State, step: Step, p: nat)
    requires Inv(s) && Next(s, s', step) && Idle(s, p) && step.p != p
    ensures p < |s'.procs| && s'.procs[p] == s.procs[p]
  {
    StepHere(s, s', step);
    assert OpInv(s, step.p);
  }

  // From state i to state j process p does nothing.
  ghost predicate Rests(steps: seq<Step>, i: nat, j: nat, p: nat)
    requires j <= |steps|
  {
    forall m: nat {:trigger RestsAt(steps, m, p)} | i <= m < j :: RestsAt(steps, m, p)
  }

  predicate RestsAt(steps: seq<Step>, m: nat, p: nat)
    requires m < |steps|
  {
    steps[m].p != p
  }

  lemma {:induction false} OwnedUntil(run: seq<State>, steps: seq<Step>, i: nat, j: nat, p: nat, f: nat)
    requires IsRun(run, steps) && i <= j < |run| && Rests(steps, i, j, p)
    requires Idle(run[i], p) && f < |run[i].files| && Own(run[i].procs[p], f) >= 1 && run[i].files[f].kind != Unset
    ensures Idle(run[j], p) && run[j].procs[p] == run[i].procs[p]
    ensures f < |run[j].files| && run[j].files[f].kind == run[i].files[f].kind
    decreases j
  {
    if i < j {
      OwnedUntil(run, steps, i, j - 1, p, f);
      assert RestsAt(steps, j - 1, p);
      OwnedAt(run, steps, j - 1, p, f);
    }
  }

  lemma OwnedAt(run: seq<State>, steps: seq<Step>, i: nat, p: nat, f: nat)
    requires IsRun(run, steps) && i < |steps| && RestsAt(steps, i, p)
    requires Idle(run[i], p) && f < |run[i].files| && Own(run[i].procs[p], f) >= 1 && run[i].files[f].kind != Unset
    ensures Idle(run[i + 1], p) && run[i + 1].procs[p] == run[i].procs[p]
    ensures f < |run[i + 1].files| && run[i + 1].files[f].kind == run[i].files[f].kind
  {
    RunInv(run, steps, i);
    OwnedStep(run[i], run[i + 1], steps[i], p, f);
  }

  // Process p is idle and has a reference to file f, which is of the given kind.
  ghost predicate Has(s: State, p: nat, f: nat, kind: Kind) {
    Idle(s, p) && f < |s.files| && Own(s.procs[p], f) >= 1 && s.files[f].kind == kind
  }

  lemma {:induction false} HasUntil(run: seq<State>, steps: seq<Step>, i: nat, j: nat, p: nat, f: nat, kind: Kind)
    requires IsRun(run, steps) && i <= j < |run| && Rests(steps, i, j, p) && Has(run[i], p, f, kind) && kind != Unset
    ensures Has(run[j], p, f, kind) && run[j].procs[p] == run[i].procs[p]
  {
    OwnedUntil(run, steps, i, j, p, f);
  }

  // fdalloc gives the process its descriptor, and takes no file from it.
  lemma FdallocHas(s: State, s': State, p: nat, fd: nat, f: nat, g: nat, kind: Kind)
    requires Inv(s) && Fdalloc(s, s', p, fd, f) && Has(s, p, g, kind)
    ensures Has(s', p, g, kind) && HasSlot(s', p, fd) && s'.procs[p].ofile[fd] == f
    ensures forall d: nat | HasSlot(s, p, d) && d != fd :: s'.procs[p].ofile[d] == s.procs[p].ofile[d]
  {
    OwnSlot(s.procs[p], s'.procs[p], fd, g);
  }

  // After pipe(fd) the first descriptor names the end that reads and the second the end that writes, of
  // one new pipe, both open.
  lemma PipeCall(run: seq<State>, steps: seq<Step>, i: nat, j: nat, k: nat, p: nat, f0: nat, f1: nat, fd0: nat,
                 fd1: nat)
    requires IsRun(run, steps) && i < j < k < |steps| && steps[i] == MakePipeStep(p, f0, f1)
    requires steps[j] == FdallocStep(p, fd0, f0) && steps[k] == FdallocStep(p, fd1, f1)
    requires Rests(steps, i + 1, j, p) && Rests(steps, j + 1, k, p)
    ensures Names(run[k + 1], p, fd0, f0) && Names(run[k + 1], p, fd1, f1)
    ensures var s, q := run[k + 1], |run[i].pipes|;
            && s.files[f0].kind == PipeEnd(q, false) && s.files[f1].kind == PipeEnd(q, true)
            && q < |s.pipes| && s.pipes[q] == Pipe(true, true, 0)
  {
    var q := |run[i].pipes|;
    MadeAt(run, steps, i, p, f0, f1);
    HasUntil(run, steps, i + 1, j, p, f0, PipeEnd(q, false));
    HasUntil(run, steps, i + 1, j, p, f1, PipeEnd(q, true));
    FdallocAt(run, steps, j, p, fd0, f0, f0, PipeEnd(q, false));
    FdallocAt(run, steps, j, p, fd0, f0, f1, PipeEnd(q, true));
    HasUntil(run, steps, j + 1, k, p, f0, PipeEnd(q, false));
    HasUntil(run, steps, j + 1, k, p, f1, PipeEnd(q, true));
    FdallocAt(run, steps, k, p, fd1, f1, f0, PipeEnd(q, false));
    FdallocAt(run, steps, k, p, fd1, f1, f1, PipeEnd(q, true));
    SecondSlot(run, steps, k, p, fd0, fd1, f0, f1);
    OpenWhileNamed(run, steps, k + 1, p, fd0, f0, q, false);
    OpenWhileNamed(run, steps, k + 1, p, fd1, f1, q, true);
  }

  lemma MadeAt(run: seq<State>, steps: seq<Step>, i: nat, p: nat, f0: nat, f1: nat)
    requires IsRun(run, steps) && i < |steps| && steps[i] == MakePipeStep(p, f0, f1)
    ensures Has(run[i + 1], p, f0, PipeEnd(|run[i].pipes|, false))
    ensures Has(run[i + 1], p, f1, PipeEnd(|run[i].pipes|, true))
  {
    assert Next(run[i], run[i + 1], steps[i]);
  }

  lemma FdallocAt(run: seq<State>, steps: seq<Step>, j: nat, p: nat, fd: nat, f: nat, g: nat, kind: Kind)
    requires IsRun(run, steps) && j < |steps| && steps[j] == FdallocStep(p, fd, f) && Has(run[j], p, g, kind)
    ensures Has(run[j + 1], p, g, kind) && HasSlot(run[j + 1], p, fd) && run[j + 1].procs[p].ofile[fd] == f
  {
    RunInv(run, steps, j);
    assert Next(run[j], run[j + 1], steps[j]);
    FdallocHas(run[j], run[j + 1], p, fd, f, g, kind);
  }

  lemma SecondSlot(run: seq<State>, steps: seq<Step>, k: nat, p: nat, fd0: nat, fd1: nat, f0: nat, f1: nat)
    requires IsRun(run, steps) && k < |steps| && steps[k] == FdallocStep(p, fd1, f1)
    requires HasSlot(run[k], p, fd0) && run[k].procs[p].ofile[fd0] == f0
    ensures HasSlot(run[k + 1], p, fd0) && run[k + 1].procs[p].ofile[fd0] == f0
  {
    assert Next(run[k], run[k + 1], steps[k]);
  }

  // ------------------------------------------------- calls come to an end

  ghost predicate Hop(s: State, t: State, p: nat) {
    exists step: Step :: step.p == p && Next(s, t, step)
  }

  // At most n steps of process p lead from s to t.
  ghost predicate Chain(s: State, t: State, p: nat, n: nat)
    decreases n
  {
    s == t || (n > 0 && exists m :: Hop(s, m, p) && Chain(m, t, p, n - 1))
  }

  // Process p alone can lead from s to t.
  ghost predicate Goes(s: State, t: State, p: nat) {
    exists n: nat :: Chain(s, t, p, n)
  }

  lemma GoesFirst(s: State, m: State, t: State, p: nat, step: Step)
    requires step.p == p && Next(s, m, step) && Goes(m, t, p)
    ensures Goes(s, t, p)
  {
    var n: nat :| Chain(m, t, p, n);
    assert Hop(s, m, p);
    assert Chain(s, t, p, n + 1);
  }

  lemma GoesNowhere(s: State, p: nat)
    ensures Goes(s, s, p)
  {
    assert Chain(s, s, p, 0);
  }

  // One step of the descriptor loop of fork.
  lemma ForkGoesOn(s: State, p: nat) returns (m: State, step: Step)
    requires Inv(s) && p < |s.procs| && s.procs[p].op.Forking? && s.procs[p].op.fd < NOFILE
    ensures step.p == p && Next(s, m, step) && |m.procs| == |s.procs| && m.procs[p].ofile == s.procs[p].ofile
    ensures m.procs[p].op.Forking? && m.procs[p].op.np == s.procs[p].op.np
    ensures m.procs[p].op.fd == s.procs[p].op.fd + 1 ||
            (m.procs[p].op.fd == s.procs[p].op.fd && m.procs[p].op.holds && !s.procs[p].op.holds)
  {
    assert OpInv(s, p);
    var proc, np, fd := s.procs[p], s.procs[p].op.np, s.procs[p].op.fd;
    if proc.ofile[fd] == -1 {
      m := SetProc(s, p, proc.(op := Forking(np, fd + 1, false)));
      step := ForkSkipStep(p, np, fd);
    } else if !proc.op.holds {
      var f: nat := proc.ofile[fd];
      m := SetProc(Ref(s, f, 1), p, proc.(op := Forking(np, fd, true), credit := proc.credit + multiset{f}));
      step := ForkCountStep(p, np, fd, f);
    } else {
      var f: nat := proc.ofile[fd];
      m := SetProc(SetProc(s, p, proc.(op := Forking(np, fd + 1, false), credit := proc.credit - multiset{f})),
                   np, s.procs[np].(ofile := s.procs[np].ofile[fd := f]));
      step := ForkStoreStep(p, np, fd, f);
    }
  }

  // A fork that is under way can go on to its end, waiting for nobody: the child then lives and has the
  // descriptors of its parent.
  lemma {:induction false} ForkFinishes(s: State, p: nat) returns (t: State)
    requires Inv(s) && p < |s.procs| && s.procs[p].op.Forking?
    ensures Goes(s, t, p) && |t.procs| == |s.procs| && t.procs[p].op == NoOp
    ensures var np := s.procs[p].op.np;
            && np < |s.procs| && t.procs[np].life == Live
            && t.procs[np].ofile == t.procs[p].ofile == s.procs[p].ofile
    decreases NOFILE - s.procs[p].op.fd, !s.procs[p].op.holds
  {
    assert OpInv(s, p);
    if s.procs[p].op.fd == NOFILE {
      t := ForkLast(s, p);
      GoesNowhere(t, p);
      GoesFirst(s, t, t, p, ForkEndStep(p, s.procs[p].op.np));
    } else {
      var m, step := ForkGoesOn(s, p);
      StepKeeps(s, m, step);
      t := ForkFinishes(m, p);
      GoesFirst(s, m, t, p, step);
    }
  }

  lemma ForkLast(s: State, p: nat) returns (t: State)
    requires Inv(s) && p < |s.procs| && s.procs[p].op.Forking? && s.procs[p].op.fd == NOFILE
    ensures Next(s, t, ForkEndStep(p, s.procs[p].op.np)) && |t.procs| == |s.procs| && t.procs[p].op == NoOp
    ensures var np := s.procs[p].op.np;
            && np < |s.procs| && t.procs[np].life == Live
            && t.procs[np].ofile == t.procs[p].ofile == s.procs[p].ofile
  {
    assert OpInv(s, p);
    var np := s.procs[p].op.np;
    t := SetProc(SetProc(s, p, s.procs[p].(op := NoOp)), np, s.procs[np].(life := Live));
  }

  // What exit has still to give back, apart from descriptors.
  function Owing(proc: Proc): nat {
    2 * |proc.credit| + |proc.closing|
  }

  // A process in exit comes nearer to the end.
  ghost predicate Nearer(proc: Proc, proc': Proc) {
    && proc.op.Exiting? && proc'.op.Exiting?
    && if proc'.op.fd == proc.op.fd then proc'.op.gone && (!proc.op.gone || Owing(proc') < Owing(proc))
       else proc'.op.fd == proc.op.fd + 1
  }

  lemma CloseGoesOn(s: State, p: nat) returns (m: State, step: Step)
    requires Inv(s) && p < |s.procs| && s.procs[p].op.Exiting? && s.procs[p].op.gone && !Settled(s.procs[p])
    ensures step.p == p && Next(s, m, step) && |m.procs| == |s.procs| && Nearer(s.procs[p], m.procs[p])
  {
    var proc := s.procs[p];
    if proc.credit != multiset{} {
      var f :| f in proc.credit;
      CreditCounts(s, p, f);
      var kind, rest := s.files[f].kind, proc.(credit := proc.credit - multiset{f});
      if s.files[f].ref > 1 {
        m := SetProc(Ref(s, f, -1), p, rest);
      } else if kind.PipeEnd? {
        m := SetProc(s, p, rest.(closing := rest.closing + {(kind.q, kind.writable)})).(
               files := s.files[f := File(0, Unset)], carrier := s.carrier[(kind.q, kind.writable) := ByProc(p)]);
      } else {
        m := SetProc(s, p, rest).(files := s.files[f := File(0, Unset)]);
      }
      step := FilecloseStep(p, f);
    } else {
      var e :| e in proc.closing;
      assert ProcCarries(s, p, e) && Carried(s, e);
      m := SetProc(s, p, proc.(closing := proc.closing - {e})).(
             pipes := s.pipes[e.0 := Closed(s.pipes[e.0], e.1)], carrier := s.carrier - {e});
      step := PipecloseStep(p, e.0, e.1);
    }
  }

  lemma ExitGoesOn(s: State, p: nat) returns (m: State, step: Step)
    requires Inv(s) && p < |s.procs| && s.procs[p].op.Exiting? && s.procs[p].op.fd < NOFILE
    ensures step.p == p && Next(s, m, step) && |m.procs| == |s.procs| && Nearer(s.procs[p], m.procs[p])
  {
    assert OpInv(s, p);
    var proc, fd := s.procs[p], s.procs[p].op.fd;
    if proc.op.gone && !Settled(proc) {
      m, step := CloseGoesOn(s, p);
    } else if proc.op.gone {
      m := SetProc(s, p, proc.(op := Exiting(fd + 1, false), ofile := proc.ofile[fd := -1]));
      step := ExitClearStep(p);
    } else if proc.ofile[fd] == -1 {
      m := SetProc(s, p, proc.(op := Exiting(fd + 1, false)));
      step := ExitSkipStep(p);
    } else {
      var f: nat := proc.ofile[fd];
      m := SetProc(s, p, proc.(op := Exiting(fd, true), credit := proc.credit + multiset{f}));
      step := ExitCloseStep(p, fd, f);
    }
  }

  // An exit that is under way can go on to its end, waiting for nobody: the process is then dead, names
  // no file and holds no reference.
  lemma {:induction false} ExitFinishes(s: State, p: nat) returns (t: State)
    requires Inv(s) && p < |s.procs| && s.procs[p].op.Exiting?
    ensures Goes(s, t, p) && |t.procs| == |s.procs| && t.procs[p].life == Dead
    ensures Empty(t.procs[p]) && Settled(t.procs[p])
    decreases NOFILE - s.procs[p].op.fd, !s.procs[p].op.gone, Owing(s.procs[p])
  {
    assert OpInv(s, p);
    if s.procs[p].op.fd == NOFILE {
      t := SetProc(s, p, s.procs[p].(op := NoOp, life := Dead));
      GoesNowhere(t, p);
      GoesFirst(s, t, t, p, ExitEndStep(p));
    } else {
      var m, step := ExitGoesOn(s, p);
      StepKeeps(s, m, step);
      assert OpInv(m, p);
      t := ExitFinishes(m, p);
      GoesFirst(s, m, t, p, step);
    }
  }
}
