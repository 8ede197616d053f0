/**
 Open files: the reference counts of file.c under every interleaving of open, dup, close,
 pipe, fork, clone and exit (sysfile.c, proc.c), and the pipe ends behind them (pipe.c).
 Each step is one access to a descriptor table or one critical section of file.c or pipe.c.
 */
module FileRefs {

  datatype Kind = Unset | Inode | PipeEnd(q: nat, writable: bool)
  datatype File = File(ref: int, kind: Kind)
  datatype Pipe = Pipe(readopen: bool, writeopen: bool, freed: nat)

  const NOFILE := 16

  // What a process is in the middle of.  sys_dup has stored descriptor fd, copied from fd0, and not
  // yet counted it; fork or clone has come to descriptor fd for its child np, and holds the reference
  // to be stored there; exit has come to descriptor fd, and has given up its file but not cleared it.
  datatype Op =
    | NoOp
    | Duping(fd0: nat, fd: nat)
    | Forking(np: nat, fd: nat, holds: bool)
    | Exiting(fd: nat, gone: bool)

  // A table entry: unused, allocated by a fork that is under way, in use, or exited and not yet reaped.
  datatype Life = Unused | Embryo(maker: nat) | Live | Dead

  // ofile[fd] is a file or -1.  credit: references held outside the table, one per call of
  // filealloc or filedup still to be stored or of fileclose still to come.  closing: pipe ends
  // whose pipeclose is still to come.
  datatype Proc = Proc(life: Life, ofile: seq<int>, op: Op, credit: multiset<nat>, closing: set<(nat, bool)>)

  // Who answers for an open pipe end: its file entry, or the process about to close it.
  datatype Carrier = ByFile(f: nat) | ByProc(p: nat)

  datatype State = State(procs: seq<Proc>, files: seq<File>, pipes: seq<Pipe>, carrier: map<(nat, bool), Carrier>)

  // The descriptor that op leaves uncounted.
  predicate Uncounted(op: Op, fd: int) {
    (op.Duping? || (op.Exiting? && op.gone)) && op.fd == fd
  }

  // ------------------------------------------------------------- counting

  // Counted descriptors among the first n that name f.
  function Slots(ofile: seq<int>, op: Op, f: nat, n: nat): nat
    requires n <= |ofile|
  {
    if n == 0 then 0
    else Slots(ofile, op, f, n - 1) + if ofile[n - 1] == f && !Uncounted(op, n - 1) then 1 else 0
  }

  function Own(proc: Proc, f: nat): nat {
    Slots(proc.ofile, proc.op, f, |proc.ofile|) + proc.credit[f]
  }

  // All references to f: descriptors of all processes and references in flight.
  function Total(procs: seq<Proc>, f: nat): nat {
    if procs == [] then 0 else Own(procs[0], f) + Total(procs[1..], f)
  }

  lemma {:induction false} TotalUpdate(procs: seq<Proc>, p: nat, proc: Proc, f: nat)
    requires p < |procs|
    ensures Total(procs[p := proc], f) == Total(procs, f) - Own(procs[p], f) + Own(proc, f)
  {
    if p == 0 {
      assert procs[p := proc][1..] == procs[1..];
    } else {
      assert procs[p := proc][1..] == procs[1..][p - 1 := proc];
      TotalUpdate(procs[1..], p - 1, proc, f);
    }
  }

  lemma {:induction false} TotalAtLeast(procs: seq<Proc>, p: nat, f: nat)
    requires p < |procs|
    ensures Own(procs[p], f) <= Total(procs, f)
  {
    if p > 0 {
      TotalAtLeast(procs[1..], p - 1, f);
    }
  }

  // Counting changes only with the one slot that differs.
  lemma {:induction false} SlotsUpdate(ofile: seq<int>, op: Op, ofile': seq<int>, op': Op, f: nat, fd: nat, n: nat)
    requires n <= |ofile| == |ofile'| && fd < |ofile|
    requires forall i | 0 <= i < n && i != fd :: ofile'[i] == ofile[i] && Uncounted(op', i) == Uncounted(op, i)
    ensures Slots(ofile', op', f, n) == Slots(ofile, op, f, n) +
            if fd < n then (if ofile'[fd] == f && !Uncounted(op', fd) then 1 else 0)
        - (if ofile[fd] == f && !Uncounted(op, fd) then 1 else 0)
            else 0
  {
    if n > 0 {
      SlotsUpdate(ofile, op, ofile', op', f, fd, n - 1);
    }
  }

  lemma {:induction false} SlotsAtLeast(ofile: seq<int>, op: Op, f: nat, fd: nat, n: nat)
    requires fd < n <= |ofile| && ofile[fd] == f && !Uncounted(op, fd)
    ensures 1 <= Slots(ofile, op, f, n)
  {
    if fd < n - 1 {
      SlotsAtLeast(ofile, op, f, fd, n - 1);
    }
  }

  // --------------------------------------------------------------- steps

  predicate Idle(s: State, p: nat) {
    p < |s.procs| && s.procs[p].life == Live && s.procs[p].op == NoOp
  }

  // p has returned from every call of fileclose.
  predicate Settled(proc: Proc) {
    proc.credit == multiset{} && proc.closing == {}
  }

  predicate HasSlot(s: State, p: nat, fd: nat) {
    p < |s.procs| && fd < |s.procs[p].ofile|
  }

  // Descriptor fd of p names file f.
  predicate Names(s: State, p: nat, fd: nat, f: nat) {
    HasSlot(s, p, fd) && s.procs[p].ofile[fd] == f && f < |s.files|
  }

  function SetProc(s: State, p: nat, proc: Proc): State
    requires p < |s.procs|
  {
    s.(procs := s.procs[p := proc])
  }

  function Ref(s: State, f: nat, n: int): State
    requires f < |s.files|
  {
    s.(files := s.files[f := s.files[f].(ref := s.files[f].ref + n)])
  }

  predicate Filealloc(s: State, s': State, p: nat, f: nat) {
    && Idle(s, p) && f < |s.files| && s.files[f].ref == 0
    && s' == SetProc(Ref(s, f, 1), p, s.procs[p].(credit := s.procs[p].credit + multiset{f}))
  }

  // fdalloc in open and pipe: the first free descriptor takes over a reference.
  predicate Fdalloc(s: State, s': State, p: nat, fd: nat, f: nat) {
    && Idle(s, p) && HasSlot(s, p, fd) && s.procs[p].ofile[fd] == -1 && s.procs[p].credit[f] > 0
    && (forall i | 0 <= i < fd :: s.procs[p].ofile[i] != -1)
    && s' == SetProc(s, p, s.procs[p].(ofile := s.procs[p].ofile[fd := f], credit := s.procs[p].credit - multiset{f}))
  }

  // sys_dup: first the descriptor ...
  predicate DupStore(s: State, s': State, p: nat, fd0: nat, fd: nat) {
    && Idle(s, p) && HasSlot(s, p, fd) && HasSlot(s, p, fd0) && s.procs[p].ofile[fd0] != -1
    && s.procs[p].ofile[fd] == -1
    && (forall i | 0 <= i < fd :: s.procs[p].ofile[i] != -1)
    && s' == SetProc(s, p, s.procs[p].(ofile := s.procs[p].ofile[fd := s.procs[p].ofile[fd0]], op := Duping(fd0, fd)))
  }

  // ... then filedup.
  predicate DupCount(s: State, s': State, p: nat, f: nat) {
    && p < |s.procs| && s.procs[p].op.Duping? && Names(s, p, s.procs[p].op.fd, f)
    && s' == SetProc(Ref(s, f, 1), p, s.procs[p].(op := NoOp))
  }

  // allocproc in fork and clone takes an unused table entry np.
  predicate ForkBegin(s: State, s': State, p: nat, np: nat) {
    && Idle(s, p) && np < |s.procs| && s.procs[np].life == Unused
    && s' == SetProc(SetProc(s, p, s.procs[p].(op := Forking(np, 0, false))), np, s.procs[np].(life := Embryo(p)))
  }

  // p is in fork or clone, at descriptor fd, with the child np.
  predicate AtFork(s: State, p: nat, np: nat, fd: nat, holds: bool) {
    p < |s.procs| && s.procs[p].op == Forking(np, fd, holds) && np < |s.procs|
  }

  // When it cannot copy the memory of p, fork gives the entry back.
  predicate ForkFail(s: State, s': State, p: nat, np: nat) {
    && AtFork(s, p, np, 0, false)
    && s' == SetProc(SetProc(s, p, s.procs[p].(op := NoOp)), np, s.procs[np].(life := Unused))
  }

  predicate ForkSkip(s: State, s': State, p: nat, np: nat, fd: nat) {
    && AtFork(s, p, np, fd, false) && HasSlot(s, p, fd) && s.procs[p].ofile[fd] == -1
    && s' == SetProc(s, p, s.procs[p].(op := Forking(np, fd + 1, false)))
  }

  // First filedup ...
  predicate ForkCount(s: State, s': State, p: nat, np: nat, fd: nat, f: nat) {
    && AtFork(s, p, np, fd, false) && Names(s, p, fd, f)
    && s' == SetProc(Ref(s, f, 1), p, s.procs[p].(op := Forking(np, fd, true),
                                                  credit := s.procs[p].credit + multiset{f}))
  }

  // ... then the child's descriptor, whatever was there.
  predicate ForkStore(s: State, s': State, p: nat, np: nat, fd: nat, f: nat) {
    && AtFork(s, p, np, fd, true) && HasSlot(s, np, fd) && Names(s, p, fd, f)
    && s' == SetProc(SetProc(s, p, s.procs[p].(op := Forking(np, fd + 1, false),
                                               credit := s.procs[p].credit - multiset{f})),
                     np, s.procs[np].(ofile := s.procs[np].ofile[fd := f]))
  }

  predicate ForkEnd(s: State, s': State, p: nat, np: nat) {
    && AtFork(s, p, np, NOFILE, false)
    && s' == SetProc(SetProc(s, p, s.procs[p].(op := NoOp)), np, s.procs[np].(life := Live))
  }

  // sys_close and the failure path of sys_pipe: first the descriptor is cleared.
  predicate Clear(s: State, s': State, p: nat, fd: nat, f: nat) {
    && Idle(s, p) && Names(s, p, fd, f)
    && s' == SetProc(s, p, s.procs[p].(ofile := s.procs[p].ofile[fd := -1], credit := s.procs[p].credit + multiset{f}))
  }

  // exit walks the table from descriptor 0, between two system calls.
  predicate ExitBegin(s: State, s': State, p: nat) {
    Idle(s, p) && Settled(s.procs[p]) && s' == SetProc(s, p, s.procs[p].(op := Exiting(0, false)))
  }

  predicate AtExit(s: State, p: nat, gone: bool) {
    p < |s.procs| && s.procs[p].op.Exiting? && s.procs[p].op.gone == gone
  }

  predicate ExitSkip(s: State, s': State, p: nat) {
    && AtExit(s, p, false) && HasSlot(s, p, s.procs[p].op.fd) && s.procs[p].ofile[s.procs[p].op.fd] == -1
    && s' == SetProc(s, p, s.procs[p].(op := Exiting(s.procs[p].op.fd + 1, false)))
  }

  // It closes the file of a descriptor first ...
  predicate ExitClose(s: State, s': State, p: nat, fd: nat, f: nat) {
    && AtExit(s, p, false) && s.procs[p].op.fd == fd && Names(s, p, fd, f)
    && s' == SetProc(s, p, s.procs[p].(op := Exiting(fd, true), credit := s.procs[p].credit + multiset{f}))
  }

  // ... and clears the descriptor when fileclose has returned.
  predicate ExitClear(s: State, s': State, p: nat) {
    && AtExit(s, p, true) && HasSlot(s, p, s.procs[p].op.fd) && Settled(s.procs[p])
    && s' == SetProc(s, p, s.procs[p].(op := Exiting(s.procs[p].op.fd + 1, false),
                                       ofile := s.procs[p].ofile[s.procs[p].op.fd := -1]))
  }

  predicate ExitEnd(s: State, s': State, p: nat) {
    && AtExit(s, p, false) && s.procs[p].op.fd == NOFILE
    && s' == SetProc(s, p, s.procs[p].(op := NoOp, life := Dead))
  }

  // wait, or the scheduler for a thread, gives the entry of an exited process back.
  predicate Reap(s: State, s': State, p: nat) {
    p < |s.procs| && s.procs[p].life == Dead && s' == SetProc(s, p, s.procs[p].(life := Unused))
  }

  // fileclose up to the release of ftable.lock; a last reference leaves the pipe end to close.
  predicate Fileclose(s: State, s': State, p: nat, f: nat) {
    && p < |s.procs| && (s.procs[p].op.NoOp? || s.procs[p].op.Exiting?) && s.procs[p].credit[f] > 0 && f < |s.files|
    && var proc := s.procs[p].(credit := s.procs[p].credit - multiset{f});
       var kind := s.files[f].kind;
       if s.files[f].ref > 1 then
         s' == SetProc(Ref(s, f, -1), p, proc)
       else if kind.PipeEnd? then
         s' == SetProc(s, p, proc.(closing := proc.closing + {(kind.q, kind.writable)})).(
                 files := s.files[f := File(0, Unset)], carrier := s.carrier[(kind.q, kind.writable) := ByProc(p)])
       else
         s' == SetProc(s, p, proc).(files := s.files[f := File(0, Unset)])
  }

  function Closed(pipe: Pipe, writable: bool): Pipe {
    var r := if writable then pipe.(writeopen := false) else pipe.(readopen := false);
    if !r.readopen && !r.writeopen then r.(freed := r.freed + 1) else r
  }

  predicate Pipeclose(s: State, s': State, p: nat, q: nat, writable: bool) {
    && p < |s.procs| && (s.procs[p].op.NoOp? || s.procs[p].op.Exiting?)
    && (q, writable) in s.procs[p].closing && q < |s.pipes|
    && s' == SetProc(s, p, s.procs[p].(closing := s.procs[p].closing - {(q, writable)})).(
               pipes := s.pipes[q := Closed(s.pipes[q], writable)], carrier := s.carrier - {(q, writable)})
  }

  // pipealloc, once it has two file entries and the pipe.
  predicate MakePipe(s: State, s': State, p: nat, f0: nat, f1: nat) {
    && Idle(s, p) && f0 != f1 && s.procs[p].credit[f0] > 0 && s.procs[p].credit[f1] > 0 && f0 < |s.files|
    && f1 < |s.files|
    && s.files[f0].kind == Unset && s.files[f1].kind == Unset
    && var q := |s.pipes|;
       s' == s.(pipes := s.pipes + [Pipe(true, true, 0)],
                files := s.files[f0 := s.files[f0].(kind := PipeEnd(q, false))]
                       [f1 := s.files[f1].(kind := PipeEnd(q, true))],
                carrier := s.carrier[(q, false) := ByFile(f0)][(q, true) := ByFile(f1)])
  }

  // The end of sys_open.
  predicate MakeInode(s: State, s': State, p: nat, fd: nat, f: nat) {
    && Idle(s, p) && Names(s, p, fd, f) && s.files[f].kind == Unset
    && s' == s.(files := s.files[f := s.files[f].(kind := Inode)])
  }

  datatype Step =
    | FileallocStep(p: nat, f: nat) | FdallocStep(p: nat, fd: nat, f: nat) | DupStoreStep(p: nat, fd0: nat, fd: nat)
    | DupCountStep(p: nat, f: nat)
    | ForkBeginStep(p: nat, np: nat) | ForkFailStep(p: nat, np: nat) | ForkSkipStep(p: nat, np: nat, fd: nat)
    | ForkCountStep(p: nat, np: nat, fd: nat, f: nat) | ForkStoreStep(p: nat, np: nat, fd: nat, f: nat)
    | ForkEndStep(p: nat, np: nat)
    | ClearStep(p: nat, fd: nat, f: nat)
    | ExitBeginStep(p: nat) | ExitSkipStep(p: nat) | ExitCloseStep(p: nat, fd: nat, f: nat) | ExitClearStep(p: nat)
    | ExitEndStep(p: nat) | ReapStep(p: nat)
    | FilecloseStep(p: nat, f: nat) | PipecloseStep(p: nat, q: nat, writable: bool)
    | MakePipeStep(p: nat, f0: nat, f1: nat) | MakeInodeStep(p: nat, fd: nat, f: nat)

  // open, dup, close and pipe.
  predicate TableNext(s: State, s': State, step: Step) {
    match step
    case FileallocStep(p, f) => Filealloc(s, s', p, f)
    case FdallocStep(p, fd, f) => Fdalloc(s, s', p, fd, f)
    case DupStoreStep(p, fd0, fd) => DupStore(s, s', p, fd0, fd)
    case DupCountStep(p, f) => DupCount(s, s', p, f)
    case ClearStep(p, fd, f) => Clear(s, s', p, fd, f)
    case MakeInodeStep(p, fd, f) => MakeInode(s, s', p, fd, f)
    case _ => false
  }

  predicate ForkNext(s: State, s': State, step: Step) {
    match step
    case ForkBeginStep(p, np) => ForkBegin(s, s', p, np)
    case ForkFailStep(p, np) => ForkFail(s, s', p, np)
    case ForkSkipStep(p, np, fd) => ForkSkip(s, s', p, np, fd)
    case ForkCountStep(p, np, fd, f) => ForkCount(s, s', p, np, fd, f)
    case ForkStoreStep(p, np, fd, f) => ForkStore(s, s', p, np, fd, f)
    case ForkEndStep(p, np) => ForkEnd(s, s', p, np)
    case _ => false
  }

  predicate ExitNext(s: State, s': State, step: Step) {
    match step
    case ExitBeginStep(p) => ExitBegin(s, s', p)
    case ExitSkipStep(p) => ExitSkip(s, s', p)
    case ExitCloseStep(p, fd, f) => ExitClose(s, s', p, fd, f)
    case ExitClearStep(p) => ExitClear(s, s', p)
    case ExitEndStep(p) => ExitEnd(s, s', p)
    case ReapStep(p) => Reap(s, s', p)
    case _ => false
  }

  predicate PipeNext(s: State, s': State, step: Step) {
    match step
    case FilecloseStep(p, f) => Fileclose(s, s', p, f)
    case PipecloseStep(p, q, writable) => Pipeclose(s, s', p, q, writable)
    case MakePipeStep(p, f0, f1) => MakePipe(s, s', p, f0, f1)
    case _ => false
  }

  predicate Next(s: State, s': State, step: Step) {
    TableNext(s, s', step) || ForkNext(s, s', step) || ExitNext(s, s', step) || PipeNext(s, s', step)
  }

  // ------------------------------------------------- reference conservation

  // Each file's count is the number of references to it.
  ghost predicate Conserved(s: State) {
    forall f: nat :: Total(s.procs, f) == if f < |s.files| then s.files[f].ref else 0
  }

  // What p owns of f changes by the same amount as the count of f.
  lemma Moved(s: State, s': State, p: nat, f: nat, n: int)
    requires Conserved(s) && p < |s.procs| == |s'.procs| && s'.procs == s.procs[p := s'.procs[p]]
    requires f < |s.files| == |s'.files| && s'.files[f].ref == s.files[f].ref + n
    requires forall g | 0 <= g < |s.files| && g != f :: s'.files[g].ref == s.files[g].ref
    requires forall g: nat :: Own(s'.procs[p], g) == Own(s.procs[p], g) + if g == f then n else 0
    ensures Conserved(s')
  {
    forall g: nat ensures Total(s'.procs, g) == if g < |s'.files| then s'.files[g].ref else 0 {
      TotalUpdate(s.procs, p, s'.procs[p], g);
    }
  }

  function Counted(proc: Proc, fd: nat, g: nat): int
    requires fd < |proc.ofile|
  {
    if proc.ofile[fd] == g && !Uncounted(proc.op, fd) then 1 else 0
  }

  // Own after descriptor fd and the credit changed.
  lemma OwnSlot(proc: Proc, proc': Proc, fd: nat, g: nat)
    requires |proc.ofile| == |proc'.ofile| && fd < |proc.ofile|
    requires forall i | 0 <= i < |proc.ofile| && i != fd ::
      proc'.ofile[i] == proc.ofile[i] && Uncounted(proc'.op, i) == Uncounted(proc.op, i)
    ensures Own(proc', g) + proc.credit[g] + Counted(proc, fd, g) ==
            Own(proc, g) + proc'.credit[g] + Counted(proc', fd, g)
  {
    SlotsUpdate(proc.ofile, proc.op, proc'.ofile, proc'.op, g, fd, |proc.ofile|);
  }

  predicate Empty(proc: Proc) {
    forall fd | 0 <= fd < |proc.ofile| :: proc.ofile[fd] == -1
  }

  // A reference to f is in flight.
  predicate Holds(proc: Proc, f: int) {
    0 <= f && proc.credit[f as nat] > 0
  }

  // The child's table is a copy of the parent's as far as fork has come, and empty from there on.
  ghost predicate ForkInv(s: State, p: nat)
    requires p < |s.procs| && s.procs[p].op.Forking?
  {
    var proc, np := s.procs[p], s.procs[p].op.np;
    && np < |s.procs| && np != p && s.procs[np].life == Embryo(p) && proc.op.fd <= NOFILE
    && |proc.ofile| == |s.procs[np].ofile| == NOFILE
    && (proc.op.holds ==> proc.op.fd < NOFILE && Holds(proc, proc.ofile[proc.op.fd]))
    && (forall i | 0 <= i < NOFILE :: s.procs[np].ofile[i] == if i < proc.op.fd then proc.ofile[i] else -1)
  }

  // A table entry that is not in use does nothing, and names no file.
  ghost predicate LifeInv(s: State, p: nat)
    requires p < |s.procs|
  {
    var proc := s.procs[p];
    && (proc.life != Live ==> proc.op == NoOp && Settled(proc))
    && (proc.life == Unused || proc.life == Dead ==> Empty(proc))
    && (proc.life.Embryo? ==>
          && proc.life.maker < |s.procs| && s.procs[proc.life.maker].op.Forking?
          && s.procs[proc.life.maker].op.np == p)
  }

  // A process whose pending descriptor and tables are as they should be.
  ghost predicate OpInv(s: State, p: nat)
    requires p < |s.procs|
  {
    var proc := s.procs[p];
    && |proc.ofile| == NOFILE
    && (forall fd | 0 <= fd < |proc.ofile| :: proc.ofile[fd] == -1 || 0 <= proc.ofile[fd] < |s.files|)
    && (proc.op.Duping? ==>
          && proc.op.fd0 < |proc.ofile| && proc.op.fd < |proc.ofile| && proc.op.fd0 != proc.op.fd
          && proc.ofile[proc.op.fd] == proc.ofile[proc.op.fd0] != -1)
    && (proc.op.Exiting? ==>
          && proc.op.fd <= NOFILE && (proc.op.gone ==> proc.op.fd < NOFILE)
          && (proc.op.gone || Settled(proc)) && forall i | 0 <= i < proc.op.fd :: proc.ofile[i] == -1)
    && (proc.op.Forking? ==> ForkInv(s, p))
    && LifeInv(s, p)
  }

  ghost predicate RefInv(s: State) {
    Conserved(s) && forall p: nat | p < |s.procs| :: OpInv(s, p)
  }

  // A reference in flight is counted.
  lemma CreditCounts(s: State, p: nat, f: nat)
    requires Conserved(s) && p < |s.procs| && s.procs[p].credit[f] > 0
    ensures f < |s.files| && s.files[f].ref >= 1
  {
    TotalAtLeast(s.procs, p, f);
  }

  lemma SlotCounts(s: State, p: nat, fd: nat, f: nat)
    requires Conserved(s) && Names(s, p, fd, f) && !Uncounted(s.procs[p].op, fd)
    ensures s.files[f].ref >= 1
  {
    TotalAtLeast(s.procs, p, f);
    SlotsAtLeast(s.procs[p].ofile, s.procs[p].op, f, fd, |s.procs[p].ofile|);
  }

  lemma ForkStoreConserves(s: State, s': State, p: nat, np: nat, fd: nat, f: nat)
    requires RefInv(s) && ForkStore(s, s', p, np, fd, f)
    ensures Conserved(s')
  {
    var s1 := SetProc(s, p, s'.procs[p]);
    forall g: nat ensures Total(s'.procs, g) == Total(s.procs, g) {
      ForkStoreOwn(s, s', p, np, fd, f, g);
      TotalUpdate(s.procs, p, s'.procs[p], g);
      TotalUpdate(s1.procs, np, s'.procs[np], g);
    }
  }

  // The reference passes from the parent's hands to the child's table, where nothing was.
  lemma ForkStoreOwn(s: State, s': State, p: nat, np: nat, fd: nat, f: nat, g: nat)
    requires RefInv(s) && ForkStore(s, s', p, np, fd, f)
    ensures p != np && Own(s'.procs[p], g) + Own(s'.procs[np], g) == Own(s.procs[p], g) + Own(s.procs[np], g)
  {
    assert OpInv(s, p) && OpInv(s, np);
    OwnSlot(s.procs[p], s'.procs[p], fd, g);
    OwnSlot(s.procs[np], s'.procs[np], fd, g);
  }

  // A step that takes an entry np through its life.
  lemma LifeConserves(s: State, s': State, p: nat, np: nat)
    requires RefInv(s) && p < |s.procs| == |s'.procs| && np < |s.procs| && np != p
    requires s'.files == s.files && s'.procs == s.procs[p := s'.procs[p]][np := s'.procs[np]]
    requires SameOwn(s.procs[p], s'.procs[p]) && SameOwn(s.procs[np], s'.procs[np])
    ensures Conserved(s')
  {
    var s1 := SetProc(s, p, s'.procs[p]);
    forall g: nat ensures Total(s'.procs, g) == Total(s.procs, g) {
      TotalUpdate(s.procs, p, s'.procs[p], g);
      TotalUpdate(s1.procs, np, s'.procs[np], g);
      OwnSame(s.procs[p], s'.procs[p], g);
      OwnSame(s.procs[np], s'.procs[np], g);
    }
  }

  // The same references, whatever else has changed.
  predicate SameOwn(proc: Proc, proc': Proc) {
    && proc'.ofile == proc.ofile && proc'.credit == proc.credit
    && forall i | 0 <= i < |proc.ofile| :: Uncounted(proc'.op, i) == Uncounted(proc.op, i)
  }

  lemma OwnSame(proc: Proc, proc': Proc, g: nat)
    requires SameOwn(proc, proc')
    ensures Own(proc', g) == Own(proc, g)
  {
    if proc.ofile != [] {
      OwnSlot(proc, proc', 0, g);
    }
  }

  // A step by p on its descriptor fd that changes the count of f by n.
  lemma SlotStep(s: State, s': State, p: nat, fd: nat, f: nat, n: int)
    requires Conserved(s) && p < |s.procs| == |s'.procs| && s'.procs == s.procs[p := s'.procs[p]]
    requires f < |s.files| == |s'.files| && s'.files[f].ref == s.files[f].ref + n
    requires forall g | 0 <= g < |s.files| && g != f :: s'.files[g].ref == s.files[g].ref
    requires |s'.procs[p].ofile| == |s.procs[p].ofile| && fd < |s.procs[p].ofile|
    requires forall i | 0 <= i < |s.procs[p].ofile| && i != fd ::
      s'.procs[p].ofile[i] == s.procs[p].ofile[i] && Uncounted(s'.procs[p].op, i) == Uncounted(s.procs[p].op, i)
    requires forall g: nat ::
      s'.procs[p].credit[g] + Counted(s'.procs[p], fd, g) ==
      s.procs[p].credit[g] + Counted(s.procs[p], fd, g) + if g == f then n else 0
    ensures Conserved(s')
  {
    forall g: nat ensures Own(s'.procs[p], g) == Own(s.procs[p], g) + if g == f then n else 0 {
      OwnSlot(s.procs[p], s'.procs[p], fd, g);
    }
    Moved(s, s', p, f, n);
  }

  lemma FdallocConserves(s: State, s': State, p: nat, fd: nat, f: nat)
    requires RefInv(s) && Fdalloc(s, s', p, fd, f)
    ensures Conserved(s')
  {
    CreditCounts(s, p, f);
    SlotStep(s, s', p, fd, f, 0);
  }

  lemma DupConserves(s: State, s': State, p: nat, fd0: nat, fd: nat)
    requires RefInv(s) && DupStore(s, s', p, fd0, fd)
    ensures Conserved(s')
  {
    assert OpInv(s, p);
    SlotStep(s, s', p, fd, s.procs[p].ofile[fd0], 0);
  }

  lemma DupCountConserves(s: State, s': State, p: nat, f: nat)
    requires RefInv(s) && DupCount(s, s', p, f)
    ensures Conserved(s')
  {
    assert OpInv(s, p);
    SlotStep(s, s', p, s.procs[p].op.fd, f, 1);
  }

  lemma TableConserves(s: State, s': State, step: Step)
    requires RefInv(s) && TableNext(s, s', step)
    ensures Conserved(s')
  {
    match step
    case FileallocStep(p, f) => Moved(s, s', p, f, 1);
    case FdallocStep(p, fd, f) => FdallocConserves(s, s', p, fd, f);
    case DupStoreStep(p, fd0, fd) => DupConserves(s, s', p, fd0, fd);
    case DupCountStep(p, f) => DupCountConserves(s, s', p, f);
    case ClearStep(p, fd, f) => SlotStep(s, s', p, fd, f, 0);
    case MakeInodeStep(p, fd, f) => SameCounts(s, s', p);
  }

  lemma FilecloseConserves(s: State, s': State, p: nat, f: nat)
    requires Conserved(s) && Fileclose(s, s', p, f)
    ensures Conserved(s')
  {
    CreditCounts(s, p, f);
    assert forall g: nat :: Own(s'.procs[p], g) == Own(s.procs[p], g) + if g == f then -1 else 0;
    Moved(s, s', p, f, -1);
  }

  lemma ForkConserves(s: State, s': State, step: Step)
    requires RefInv(s) && ForkNext(s, s', step)
    ensures Conserved(s')
  {
    assert OpInv(s, step.p);
    match step
    case ForkBeginStep(p, np) => LifeConserves(s, s', p, np);
    case ForkFailStep(p, np) => LifeConserves(s, s', p, np);
    case ForkSkipStep(p, np, fd) => SameCounts(s, s', p);
    case ForkCountStep(p, np, fd, f) => SlotStep(s, s', p, fd, f, 1);
    case ForkStoreStep(p, np, fd, f) => ForkStoreConserves(s, s', p, np, fd, f);
    case ForkEndStep(p, np) => LifeConserves(s, s', p, np);
  }

  lemma ExitConserves(s: State, s': State, step: Step)
    requires RefInv(s) && ExitNext(s, s', step)
    ensures Conserved(s')
  {
    assert OpInv(s, step.p);
    match step
    case ExitCloseStep(p, fd, f) => SlotStep(s, s', p, fd, f, 0);
    case ExitClearStep(p) => ExitClearConserves(s, s', p);
    case _ => SameCounts(s, s', step.p);
  }

  lemma PipeConserves(s: State, s': State, step: Step)
    requires RefInv(s) && PipeNext(s, s', step)
    ensures Conserved(s')
  {
    match step
    case FilecloseStep(p, f) => FilecloseConserves(s, s', p, f);
    case PipecloseStep(p, q, writable) => SameCounts(s, s', p);
    case MakePipeStep(p, f0, f1) => SameCounts(s, s', p);
  }

  lemma StepConserves(s: State, s': State, step: Step)
    requires RefInv(s) && Next(s, s', step)
    ensures Conserved(s')
  {
    if TableNext(s, s', step) {
      TableConserves(s, s', step);
    } else if ForkNext(s, s', step) {
      ForkConserves(s, s', step);
    } else if ExitNext(s, s', step) {
      ExitConserves(s, s', step);
    } else {
      PipeConserves(s, s', step);
    }
  }

  lemma SameCounts(s: State, s': State, p: nat)
    requires Conserved(s) && p < |s.procs| == |s'.procs| && s'.procs == s.procs[p := s'.procs[p]]
    requires |s'.files| == |s.files|
    requires forall g | 0 <= g < |s.files| :: s'.files[g].ref == s.files[g].ref
    requires SameOwn(s.procs[p], s'.procs[p])
    ensures Conserved(s')
  {
    forall g: nat ensures Total(s'.procs, g) == Total(s.procs, g) {
      TotalUpdate(s.procs, p, s'.procs[p], g);
      OwnSame(s.procs[p], s'.procs[p], g);
    }
  }

  lemma ExitClearConserves(s: State, s': State, p: nat)
    requires Conserved(s) && ExitClear(s, s', p)
    ensures Conserved(s')
  {
    forall g: nat ensures Total(s'.procs, g) == Total(s.procs, g) {
      TotalUpdate(s.procs, p, s'.procs[p], g);
      OwnSlot(s.procs[p], s'.procs[p], s.procs[p].op.fd, g);
    }
  }

  // The child that a step of fork works on.
  predicate Child(step: Step, np: nat) {
    (step.ForkBeginStep? || step.ForkFailStep? || step.ForkStoreStep? || step.ForkEndStep?) && step.np == np
  }

  // Nothing but p, and the child if it is a step of fork, takes part in a step.
  ghost predicate Frame(s: State, s': State, step: Step) {
    && step.p < |s.procs| && |s'.procs| == |s.procs| && |s'.files| == |s.files|
    && forall p: nat {:trigger s'.procs[p]} | p < |s.procs| && p != step.p && !Child(step, p) ::
         s'.procs[p] == s.procs[p]
  }

  lemma TableHere(s: State, s': State, step: Step)
    requires RefInv(s) && TableNext(s, s', step)
    ensures Frame(s, s', step) && OpInv(s', step.p) && !s.procs[step.p].op.Forking? && s.procs[step.p].life == Live
  {
    assert OpInv(s, step.p);
    if step.FdallocStep? { CreditCounts(s, step.p, step.f); }
  }

  lemma PipeHere(s: State, s': State, step: Step)
    requires RefInv(s) && PipeNext(s, s', step)
    ensures Frame(s, s', step) && OpInv(s', step.p) && !s.procs[step.p].op.Forking? && s.procs[step.p].life == Live
  {
    assert OpInv(s, step.p);
  }

  lemma ExitHere(s: State, s': State, step: Step)
    requires RefInv(s) && ExitNext(s, s', step)
    ensures Frame(s, s', step) && OpInv(s', step.p) && !s.procs[step.p].op.Forking? && !s.procs[step.p].life.Embryo?
  {
    assert OpInv(s, step.p);
  }

  lemma ForkFrame(s: State, s': State, step: Step)
    requires RefInv(s) && ForkNext(s, s', step)
    ensures Frame(s, s', step) && s.procs[step.p].life == Live
  {
    assert OpInv(s, step.p);
  }

  lemma ForkBeginOp(s: State, s': State, p: nat, np: nat)
    requires RefInv(s) && ForkBegin(s, s', p, np)
    ensures p < |s'.procs| && OpInv(s', p)
  {
    assert OpInv(s, p) && OpInv(s, np);
  }

  lemma ForkStoreOp(s: State, s': State, p: nat, np: nat, fd: nat, f: nat)
    requires RefInv(s) && ForkStore(s, s', p, np, fd, f)
    ensures p < |s'.procs| && OpInv(s', p)
  {
    assert OpInv(s, p);
  }

  lemma ForkHere(s: State, s': State, step: Step)
    requires RefInv(s) && ForkNext(s, s', step)
    ensures Frame(s, s', step) && OpInv(s', step.p) && s.procs[step.p].life == Live
  {
    ForkFrame(s, s', step);
    if step.ForkBeginStep? {
      ForkBeginOp(s, s', step.p, step.np);
    } else if step.ForkStoreStep? {
      ForkStoreOp(s, s', step.p, step.np, step.fd, step.f);
    } else {
      assert OpInv(s, step.p);
    }
  }

  lemma ForkChild(s: State, s': State, step: Step, np: nat)
    requires RefInv(s) && ForkNext(s, s', step) && Child(step, np)
    ensures np < |s'.procs| && OpInv(s', np)
  {
    assert OpInv(s, step.p) && OpInv(s, np);
  }

  // A process in the middle of a fork takes only the steps of that fork ...
  lemma ForkStays(s: State, s': State, step: Step, np: nat)
    requires RefInv(s) && ForkNext(s, s', step) && s.procs[step.p].op.Forking?
    requires s.procs[step.p].op.np == np && !Child(step, np)
    ensures step.p < |s'.procs| && s'.procs[step.p].op.Forking? && s'.procs[step.p].op.np == np
  {
  }

  // ... and works on no child but its own.
  lemma ForkAlone(s: State, s': State, step: Step, p: nat)
    requires RefInv(s) && ForkNext(s, s', step) && p < |s.procs| && p != step.p && s.procs[p].op.Forking?
    ensures !Child(step, s.procs[p].op.np)
  {
    assert OpInv(s, p) && OpInv(s, step.p);
  }

  // Whoever takes no part in a step is as before, and so are its child and its maker.
  lemma OpThere(s: State, s': State, step: Step, p: nat)
    requires RefInv(s) && Next(s, s', step) && Frame(s, s', step) && p < |s.procs| && p != step.p && !Child(step, p)
    requires !s.procs[step.p].life.Embryo?
    requires ForkNext(s, s', step) || !s.procs[step.p].op.Forking?
    ensures p < |s'.procs| && OpInv(s', p)
  {
    assert OpInv(s, p);
    var proc := s.procs[p];
    assert s'.procs[p] == proc;
    if proc.op.Forking? {
      assert OpInv(s, proc.op.np);
      if ForkNext(s, s', step) { ForkAlone(s, s', step, p); }
      assert s'.procs[proc.op.np] == s.procs[proc.op.np];
    }
    if proc.life.Embryo? {
      MakerStays(s, s', step, p, proc.life.maker);
    }
  }

  lemma MakerStays(s: State, s': State, step: Step, p: nat, m: nat)
    requires RefInv(s) && Frame(s, s', step) && p < |s.procs| && s.procs[p].life == Embryo(m) && !Child(step, p)
    requires ForkNext(s, s', step) || (Next(s, s', step) && step.p < |s.procs| && !s.procs[step.p].op.Forking?)
    ensures m < |s'.procs| && s'.procs[m].op.Forking? && s'.procs[m].op.np == p
  {
    assert OpInv(s, p);
    assert OpInv(s, m);
    if m == step.p {
      ForkStays(s, s', step, p);
    } else if Child(step, m) {
      assert ForkNext(s, s', step) && OpInv(s, step.p);
    } else {
      assert s'.procs[m] == s.procs[m];
    }
  }

  lemma StepHere(s: State, s': State, step: Step)
    requires RefInv(s) && Next(s, s', step)
    ensures Frame(s, s', step) && OpInv(s', step.p) && !s.procs[step.p].life.Embryo?
    ensures ForkNext(s, s', step) || !s.procs[step.p].op.Forking?
  {
    if TableNext(s, s', step) {
      TableHere(s, s', step);
    } else if ForkNext(s, s', step) {
      ForkHere(s, s', step);
    } else if ExitNext(s, s', step) {
      ExitHere(s, s', step);
    } else {
      PipeHere(s, s', step);
    }
  }

  lemma StepOps(s: State, s': State, step: Step)
    requires RefInv(s) && Next(s, s', step)
    ensures forall p: nat | p < |s'.procs| :: OpInv(s', p)
  {
    StepHere(s, s', step);
    forall p: nat | p < |s'.procs| ensures OpInv(s', p) {
      if p == step.p {
      } else if Child(step, p) {
        ForkChild(s, s', step, p);
      } else {
        OpThere(s, s', step, p);
      }
    }
  }

  // ---------------------------------------------------------------- pipe ends

  // An end is open exactly while one file entry or one pending pipeclose answers for it, and
  // the pipe has been freed, once, exactly if both ends are closed.
  ghost predicate PipeInv(s: State) {
    && (forall f: nat | f < |s.files| && s.files[f].kind.PipeEnd? :: FileCarries(s, f))
    && (forall f: nat | f < |s.files| && s.files[f].ref == 0 :: s.files[f].kind == Unset)
    && (forall e | e in s.carrier :: Carried(s, e))
    && (forall p: nat, e | p < |s.procs| && e in s.procs[p].closing :: ProcCarries(s, p, e))
    && (forall q: nat | q < |s.pipes| :: Ends(s, q))
  }

  ghost predicate FileCarries(s: State, f: nat)
    requires f < |s.files| && s.files[f].kind.PipeEnd?
  {
    var e := (s.files[f].kind.q, s.files[f].kind.writable);
    e in s.carrier && s.carrier[e] == ByFile(f)
  }

  ghost predicate ProcCarries(s: State, p: nat, e: (nat, bool)) {
    e in s.carrier && s.carrier[e] == ByProc(p)
  }

  ghost predicate Carried(s: State, e: (nat, bool))
    requires e in s.carrier
  {
    && e.0 < |s.pipes|
    && match s.carrier[e]
       case ByFile(f) => f < |s.files| && s.files[f].kind == PipeEnd(e.0, e.1)
       case ByProc(p) => p < |s.procs| && e in s.procs[p].closing
  }

  ghost predicate Ends(s: State, q: nat)
    requires q < |s.pipes|
  {
    && (s.pipes[q].readopen <==> (q, false) in s.carrier)
    && (s.pipes[q].writeopen <==> (q, true) in s.carrier)
    && s.pipes[q].freed == if !s.pipes[q].readopen && !s.pipes[q].writeopen then 1 else 0
  }

  lemma FilecloseKeeps(s: State, s': State, p: nat, f: nat)
    requires RefInv(s) && PipeInv(s) && Fileclose(s, s', p, f)
    ensures PipeInv(s')
  {
    CreditCounts(s, p, f);
    if s.files[f].kind.PipeEnd? { assert FileCarries(s, f); }
    forall g: nat | g < |s'.files| && s'.files[g].kind.PipeEnd? ensures FileCarries(s', g) { assert FileCarries(s, g); }
    forall e | e in s'.carrier ensures Carried(s', e) { assert Carried(s, e); }
    forall x: nat, e | x < |s'.procs| && e in s'.procs[x].closing ensures ProcCarries(s', x, e) {
      assert e in s.procs[x].closing ==> ProcCarries(s, x, e);
    }
    forall q: nat | q < |s'.pipes| ensures Ends(s', q) { assert Ends(s, q); }
  }

  lemma PipecloseKeeps(s: State, s': State, p: nat, q: nat, writable: bool)
    requires PipeInv(s) && Pipeclose(s, s', p, q, writable)
    ensures PipeInv(s')
  {
    assert ProcCarries(s, p, (q, writable)) && Ends(s, q);
    forall g: nat | g < |s'.files| && s'.files[g].kind.PipeEnd? ensures FileCarries(s', g) { assert FileCarries(s, g); }
    forall e | e in s'.carrier ensures Carried(s', e) { assert Carried(s, e); }
    forall x: nat, e | x < |s'.procs| && e in s'.procs[x].closing
      ensures ProcCarries(s', x, e)
    {
      assert ProcCarries(s, x, e);
    }
    forall r: nat | r < |s'.pipes| ensures Ends(s', r) { assert Ends(s, r); }
  }

  lemma MakePipeKeeps(s: State, s': State, p: nat, f0: nat, f1: nat)
    requires RefInv(s) && PipeInv(s) && MakePipe(s, s', p, f0, f1)
    ensures PipeInv(s')
  {
    CreditCounts(s, p, f0);
    CreditCounts(s, p, f1);
    forall e | e in s.carrier ensures e.0 < |s.pipes| { assert Carried(s, e); }
    forall g: nat | g < |s'.files| && s'.files[g].kind.PipeEnd? ensures FileCarries(s', g) {
      assert g != f0 && g != f1 ==> FileCarries(s, g);
    }
    forall e | e in s'.carrier ensures Carried(s', e) { assert e in s.carrier ==> Carried(s, e); }
    forall x: nat, e | x < |s'.procs| && e in s'.procs[x].closing
      ensures ProcCarries(s', x, e)
    {
      assert ProcCarries(s, x, e);
    }
    forall q: nat | q < |s'.pipes| ensures Ends(s', q) { assert q < |s.pipes| ==> Ends(s, q); }
  }

  // No pipe end is touched.
  ghost predicate SameEnds(s: State, s': State) {
    && s'.pipes == s.pipes && s'.carrier == s.carrier && |s'.procs| == |s.procs| && |s'.files| == |s.files|
    && (forall p | 0 <= p < |s.procs| :: s'.procs[p].closing == s.procs[p].closing)
    && (forall f | 0 <= f < |s.files| && (s.files[f].kind.PipeEnd? || s'.files[f].kind.PipeEnd?) ::
        s'.files[f].kind == s.files[f].kind)
    && (forall f | 0 <= f < |s.files| && s'.files[f].ref == 0 :: s'.files[f].kind == Unset)
  }

  lemma SameEndsKeeps(s: State, s': State)
    requires PipeInv(s) && SameEnds(s, s')
    ensures PipeInv(s')
  {
    forall g: nat | g < |s'.files| && s'.files[g].kind.PipeEnd? ensures FileCarries(s', g) { assert FileCarries(s, g); }
    forall e | e in s'.carrier ensures Carried(s', e) { assert Carried(s, e); }
    forall x: nat, e | x < |s'.procs| && e in s'.procs[x].closing
      ensures ProcCarries(s', x, e)
    {
      assert ProcCarries(s, x, e);
    }
    forall q: nat | q < |s'.pipes| ensures Ends(s', q) { assert Ends(s, q); }
  }

  lemma OneProc(s: State, p: nat, proc: Proc)
    requires PipeInv(s) && p < |s.procs| && proc.closing == s.procs[p].closing
    ensures PipeInv(SetProc(s, p, proc))
  {
    SameEndsKeeps(s, SetProc(s, p, proc));
  }

  lemma TwoProcs(s: State, s': State, p: nat, np: nat)
    requires PipeInv(s) && p < |s.procs| == |s'.procs| && np < |s.procs|
    requires s' == s.(procs := s.procs[p := s'.procs[p]][np := s'.procs[np]])
    requires s'.procs[p].closing == s.procs[p].closing && s'.procs[np].closing == s.procs[np].closing
    ensures PipeInv(s')
  {
    SameEndsKeeps(s, s');
  }

  lemma DupEnds(s: State, s': State, p: nat, f: nat)
    requires RefInv(s) && PipeInv(s) && DupCount(s, s', p, f)
    ensures SameEnds(s, s')
  {
    assert OpInv(s, p);
    SlotCounts(s, p, s.procs[p].op.fd0, f);
  }

  lemma FileallocEnds(s: State, s': State, p: nat, f: nat)
    requires PipeInv(s) && Filealloc(s, s', p, f)
    ensures SameEnds(s, s')
  {
  }

  lemma MakeInodeEnds(s: State, s': State, p: nat, fd: nat, f: nat)
    requires RefInv(s) && PipeInv(s) && MakeInode(s, s', p, fd, f)
    ensures SameEnds(s, s')
  {
    SlotCounts(s, p, fd, f);
  }

  lemma TableEnds(s: State, s': State, step: Step)
    requires RefInv(s) && PipeInv(s) && TableNext(s, s', step)
    ensures PipeInv(s')
  {
    match step
    case FileallocStep(p, f) => FileallocEnds(s, s', p, f); SameEndsKeeps(s, s');
    case MakeInodeStep(p, fd, f) => MakeInodeEnds(s, s', p, fd, f); SameEndsKeeps(s, s');
    case DupCountStep(p, f) => DupEnds(s, s', p, f); SameEndsKeeps(s, s');
    case FdallocStep(p, fd, f) => OneProc(s, p, s'.procs[p]);
    case DupStoreStep(p, fd0, fd) => OneProc(s, p, s'.procs[p]);
    case ClearStep(p, fd, f) => OneProc(s, p, s'.procs[p]);
  }

  lemma ForkEnds(s: State, s': State, step: Step)
    requires RefInv(s) && PipeInv(s) && ForkNext(s, s', step)
    ensures PipeInv(s')
  {
    assert OpInv(s, step.p);
    match step
    case ForkBeginStep(p, np) => TwoProcs(s, s', p, np);
    case ForkFailStep(p, np) => TwoProcs(s, s', p, np);
    case ForkSkipStep(p, np, fd) => OneProc(s, p, s'.procs[p]);
    case ForkCountStep(p, np, fd, f) => SlotCounts(s, p, fd, f); SameEndsKeeps(s, s');
    case ForkStoreStep(p, np, fd, f) => TwoProcs(s, s', p, np);
    case ForkEndStep(p, np) => TwoProcs(s, s', p, np);
  }

  lemma ExitEnds(s: State, s': State, step: Step)
    requires PipeInv(s) && ExitNext(s, s', step)
    ensures PipeInv(s')
  {
    OneProc(s, step.p, s'.procs[step.p]);
  }

  lemma PipeEnds(s: State, s': State, step: Step)
    requires RefInv(s) && PipeInv(s) && PipeNext(s, s', step)
    ensures PipeInv(s')
  {
    match step
    case FilecloseStep(p, f) => FilecloseKeeps(s, s', p, f);
    case PipecloseStep(p, q, writable) => PipecloseKeeps(s, s', p, q, writable);
    case MakePipeStep(p, f0, f1) => MakePipeKeeps(s, s', p, f0, f1);
  }

  ghost predicate Inv(s: State) {
    RefInv(s) && PipeInv(s)
  }

  lemma StepKeeps(s: State, s': State, step: Step)
    requires Inv(s) && Next(s, s', step)
    ensures Inv(s')
  {
    StepConserves(s, s', step);
    StepOps(s, s', step);
    if TableNext(s, s', step) {
      TableEnds(s, s', step);
    } else if ForkNext(s, s', step) {
      ForkEnds(s, s', step);
    } else if ExitNext(s, s', step) {
      ExitEnds(s, s', step);
    } else {
      PipeEnds(s, s', step);
    }
  }

  // ---------------------------------------------------------------- runs

  // At boot no file is open; the first processes are there, all other entries are unused.
  ghost predicate Init(s: State) {
    && s.pipes == [] && s.carrier == map[]
    && (forall f | 0 <= f < |s.files| :: s.files[f] == File(0, Unset))
    && forall p | 0 <= p < |s.procs| ::
         && (s.procs[p].life == Live || s.procs[p].life == Unused) && s.procs[p].op == NoOp
         && Settled(s.procs[p]) && |s.procs[p].ofile| == NOFILE && Empty(s.procs[p])
  }

  lemma {:induction false} NoSlots(ofile: seq<int>, op: Op, f: nat, n: nat)
    requires n <= |ofile| && forall fd | 0 <= fd < |ofile| :: ofile[fd] == -1
    ensures Slots(ofile, op, f, n) == 0
  {
    if n > 0 { NoSlots(ofile, op, f, n - 1); }
  }

  lemma {:induction false} NoRefs(procs: seq<Proc>, f: nat)
    requires forall p | 0 <= p < |procs| :: Settled(procs[p]) && Empty(procs[p])
    ensures Total(procs, f) == 0
  {
    if procs != [] {
      NoSlots(procs[0].ofile, procs[0].op, f, |procs[0].ofile|);
      NoRefs(procs[1..], f);
    }
  }

  ghost predicate IsRun(run: seq<State>, steps: seq<Step>) {
    && |run| == |steps| + 1 && Init(run[0])
    && forall i {:trigger steps[i]} | 0 <= i < |steps| :: Next(run[i], run[i + 1], steps[i])
  }

  lemma {:induction false} RunInv(run: seq<State>, steps: seq<Step>, i: nat)
    requires IsRun(run, steps) && i < |run|
    ensures Inv(run[i])
  {
    if i == 0 {
      forall f: nat ensures Total(run[0].procs, f) == 0 { NoRefs(run[0].procs, f); }
      forall p: nat | p < |run[0].procs| ensures OpInv(run[0], p) {}
    } else {
      RunInv(run, steps, i - 1);
      StepKeeps(run[i - 1], run[i], steps[i - 1]);
    }
  }

  // Reference conservation: a file's count is the number of descriptors naming it, over all
  // processes, plus the references in flight.
  lemma RefsConserved(run: seq<State>, steps: seq<Step>, i: nat, f: nat)
    requires IsRun(run, steps) && i < |run| && f < |run[i].files|
    ensures run[i].files[f].ref == Total(run[i].procs, f)
  {
    RunInv(run, steps, i);
  }

  // exit leaves nothing behind: the table of an entry that is not in use is empty, so fork, which
  // tests nothing, stores over no reference.
  lemma UnusedIsEmpty(run: seq<State>, steps: seq<Step>, i: nat, p: nat)
    requires IsRun(run, steps) && i < |run| && p < |run[i].procs|
    requires run[i].procs[p].life == Unused || run[i].procs[p].life == Dead
    ensures Empty(run[i].procs[p]) && Settled(run[i].procs[p])
  {
    RunInv(run, steps, i);
    assert OpInv(run[i], p);
  }

  // fork and clone give the child exactly the parent's descriptors.
  lemma ForkCopies(run: seq<State>, steps: seq<Step>, i: nat)
    requires IsRun(run, steps) && i < |steps| && steps[i].ForkEndStep?
    ensures steps[i].p < |run[i + 1].procs| && steps[i].np < |run[i + 1].procs|
    ensures run[i + 1].procs[steps[i].np].life == Live
    ensures run[i + 1].procs[steps[i].np].ofile == run[i + 1].procs[steps[i].p].ofile
  {
    RunInv(run, steps, i);
    assert Next(run[i], run[i + 1], steps[i]) && OpInv(run[i], steps[i].p);
  }

  // The panics of filedup and fileclose are unreachable.
  lemma NoPanic(run: seq<State>, steps: seq<Step>, i: nat)
    requires IsRun(run, steps) && i < |steps|
    requires steps[i].DupCountStep? || steps[i].ForkCountStep? || steps[i].FilecloseStep?
    ensures steps[i].f < |run[i].files| && run[i].files[steps[i].f].ref >= 1
  {
    RunInv(run, steps, i);
    var s, step := run[i], steps[i];
    assert Next(s, run[i + 1], step);
    assert OpInv(s, step.p);
    match step
    case DupCountStep(p, f) => SlotCounts(s, p, s.procs[p].op.fd0, f);
    case ForkCountStep(p, np, fd, f) => SlotCounts(s, p, fd, f);
    case FilecloseStep(p, f) => CreditCounts(s, p, f);
  }

  predicate EndOpen(pipe: Pipe, writable: bool) {
    if writable then pipe.writeopen else pipe.readopen
  }

  // While a counted descriptor refers to an end of a pipe, that end is open.
  lemma OpenWhileNamed(run: seq<State>, steps: seq<Step>, i: nat, p: nat, fd: nat, f: nat, q: nat, writable: bool)
    requires IsRun(run, steps) && i < |run| && Names(run[i], p, fd, f) && !Uncounted(run[i].procs[p].op, fd)
    requires run[i].files[f].kind == PipeEnd(q, writable)
    ensures q < |run[i].pipes| && EndOpen(run[i].pipes[q], writable) && run[i].pipes[q].freed == 0
  {
    RunInv(run, steps, i);
    assert FileCarries(run[i], f);
    assert Carried(run[i], (q, writable)) && Ends(run[i], q);
  }

  // fileclose hands an end over to pipeclose exactly when it drops the last reference to it.
  lemma ClosedByLast(run: seq<State>, steps: seq<Step>, i: nat, q: nat, writable: bool)
    requires IsRun(run, steps) && i < |steps| && steps[i].FilecloseStep? && steps[i].f < |run[i].files|
    requires run[i].files[steps[i].f].kind == PipeEnd(q, writable)
    ensures steps[i].p < |run[i + 1].procs|
    ensures (q, writable) in run[i + 1].procs[steps[i].p].closing <==> Total(run[i].procs, steps[i].f) == 1
  {
    RunInv(run, steps, i);
    var s, f := run[i], steps[i].f;
    assert Next(s, run[i + 1], steps[i]);
    assert FileCarries(s, f);
    assert (q, writable) in s.procs[steps[i].p].closing ==> ProcCarries(s, steps[i].p, (q, writable));
    CreditCounts(s, steps[i].p, f);
  }

  // The pipe is freed once, when both ends are closed, and never again.
  lemma FreedOnce(run: seq<State>, steps: seq<Step>, i: nat, q: nat)
    requires IsRun(run, steps) && i < |run| && q < |run[i].pipes|
    ensures run[i].pipes[q].freed == if !run[i].pipes[q].readopen && !run[i].pipes[q].writeopen then 1 else 0
  {
    RunInv(run, steps, i);
    assert Ends(run[i], q);
  }
}
