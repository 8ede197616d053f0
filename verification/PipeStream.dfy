/**
 Any interleaving of pipe.c's readers and writers.  Each step is one critical section of
 pipewrite, piperead or pipeclose: from taking the pipe's lock to releasing it or going to
 sleep.  wakeup makes every sleeper on the channel runnable.
 */
module PipeStream {
  import opened Pipe

  // What a process is doing: a call in progress, asleep or not.
  datatype Job =
    | Idle
    | Writing(src: seq<nat>, i: nat) | AsleepFull(src: seq<nat>, i: nat)
    | Reading(n: int) | AsleepEmpty(n: int)

  // accepted[k] was put by process who[k]; sent[p] is what p's finished calls put.
  datatype State = State(buf: seq<nat>, readopen: bool, writeopen: bool, jobs: seq<Job>,
                         accepted: seq<nat>, who: seq<nat>, delivered: seq<nat>, sent: seq<seq<nat>>)

  function Rouse(job: Job, readers: bool): Job {
    if readers && job.AsleepEmpty? then Reading(job.n)
    else if !readers && job.AsleepFull? then Writing(job.src, job.i)
    else job
  }

  // wakeup(&p->nread) or wakeup(&p->nwrite)
  function Wake(jobs: seq<Job>, readers: bool): (r: seq<Job>)
    ensures |r| == |jobs| && forall q | 0 <= q < |jobs| :: r[q] == Rouse(jobs[q], readers)
  {
    seq(|jobs|, q requires 0 <= q < |jobs| => Rouse(jobs[q], readers))
  }

  function Repeat(p: nat, n: nat): (r: seq<nat>)
    ensures |r| == n
  {
    if n == 0 then [] else Repeat(p, n - 1) + [p]
  }

  // --------------------------------------------------------------- steps

  predicate Call(s: State, s': State, p: nat, job: Job) {
    && p < |s.jobs| && s.jobs[p] == Idle && (job.Reading? || (job.Writing? && job.i == 0))
    && s' == s.(jobs := s.jobs[p := job])
  }

  // pipewrite, from byte i to byte i'.
  predicate Write(s: State, s': State, p: nat, i': nat, killed: bool) {
    && p < |s.jobs| && p < |s.sent| && s.jobs[p].Writing? && s.jobs[p].i <= i' <= |s.jobs[p].src|
    && var src, i := s.jobs[p].src, s.jobs[p].i;
       && PutSection(s.buf, s.buf + src[i..i'], src, i, i')
       && var s1 := s.(buf := s.buf + src[i..i'], accepted := s.accepted + src[i..i'],
                      who := s.who + Repeat(p, i' - i));
          if i' == |src| then
            s' == s1.(jobs := Wake(s.jobs, true)[p := Idle], sent := s.sent[p := s.sent[p] + src])
          else if !s.readopen || killed then
            s' == s1.(jobs := s.jobs[p := Idle], sent := s.sent[p := s.sent[p] + src[..i']])
          else
            s' == s1.(jobs := Wake(s.jobs, true)[p := AsleepFull(src, i')])
  }

  predicate Read(s: State, s': State, p: nat, got: seq<nat>, buf': seq<nat>, killed: bool) {
    && p < |s.jobs| && s.jobs[p].Reading?
    && if s.buf == [] && s.writeopen then
         s' == s.(jobs := s.jobs[p := if killed then Idle else AsleepEmpty(s.jobs[p].n)])
       else
         && GetSection(s.buf, buf', s.jobs[p].n, got)
         && s' == s.(buf := buf', delivered := s.delivered + got, jobs := Wake(s.jobs, false)[p := Idle])
  }

  predicate Close(s: State, s': State, writable: bool) {
    s' == if writable then s.(writeopen := false, jobs := Wake(s.jobs, true))
          else s.(readopen := false, jobs := Wake(s.jobs, false))
  }

  // kill makes a sleeping process runnable.
  predicate Kill(s: State, s': State, p: nat) {
    p < |s.jobs| && s' == s.(jobs := s.jobs[p := Rouse(Rouse(s.jobs[p], true), false)])
  }

  datatype Step =
    | CallStep(p: nat, job: Job) | WriteStep(p: nat, i': nat, killed: bool)
    | ReadStep(p: nat, got: seq<nat>, buf': seq<nat>, killed: bool) | CloseStep(writable: bool) | KillStep(p: nat)

  predicate Next(s: State, s': State, step: Step) {
    match step
    case CallStep(p, job) => Call(s, s', p, job)
    case WriteStep(p, i', killed) => Write(s, s', p, i', killed)
    case ReadStep(p, got, buf', killed) => Read(s, s', p, got, buf', killed)
    case CloseStep(writable) => Close(s, s', writable)
    case KillStep(p) => Kill(s, s', p)
  }

  // ----------------------------------------------------------- invariant

  // The bytes that process p put, in order.
  ghost function Project(bytes: seq<nat>, who: seq<nat>, p: nat): seq<nat>
    requires |who| == |bytes|
  {
    if bytes == [] then []
    else
      var rest := Project(bytes[..|bytes| - 1], who[..|who| - 1], p);
      if who[|who| - 1] == p then rest + [bytes[|bytes| - 1]] else rest
  }

  lemma {:induction false} ProjectPut(bytes: seq<nat>, who: seq<nat>, x: seq<nat>, p: nat, q: nat)
    requires |who| == |bytes|
    ensures Project(bytes + x, who + Repeat(p, |x|), q) ==
            if p == q then Project(bytes, who, q) + x else Project(bytes, who, q)
  {
    var n := |x|;
    if n == 0 {
      assert bytes + x == bytes && who + Repeat(p, n) == who;
      assert Project(bytes, who, q) + x == Project(bytes, who, q);
    } else {
      ProjectPut(bytes, who, x[..n - 1], p, q);
      var b, w := bytes + x, who + Repeat(p, n);
      assert b[..|b| - 1] == bytes + x[..n - 1] && w[..|w| - 1] == who + Repeat(p, n - 1);
      assert b[|b| - 1] == x[n - 1] && w[|w| - 1] == p;
      assert Project(bytes, who, q) + x == Project(bytes, who, q) + x[..n - 1] + [x[n - 1]];
    }
  }

  // What a write call in progress has put.
  function Progress(job: Job): seq<nat> {
    if (job.Writing? || job.AsleepFull?) && job.i <= |job.src| then job.src[..job.i] else []
  }

  // Process q's bytes are among the accepted ones, in order, exactly once.
  ghost predicate InOrder(accepted: seq<nat>, who: seq<nat>, sent: seq<nat>, job: Job, q: nat)
    requires |who| == |accepted|
  {
    && Project(accepted, who, q) == sent + Progress(job)
    && (job.Writing? || job.AsleepFull? ==> job.i <= |job.src|)
  }

  // Bytes delivered, then bytes buffered, are the bytes accepted.
  ghost predicate Stream(s: State) {
    && s.accepted == s.delivered + s.buf && |s.buf| <= PIPESIZE
    && |s.who| == |s.accepted| && |s.sent| == |s.jobs|
    && forall q: nat {:trigger Keeps(s, q)} | q < |s.jobs| :: Keeps(s, q)
  }

  ghost predicate Keeps(s: State, q: nat)
    requires |s.who| == |s.accepted| && q < |s.jobs| == |s.sent|
  {
    InOrder(s.accepted, s.who, s.sent[q], s.jobs[q], q)
  }

  // A writer sleeps only while the pipe is full and has a reader.
  predicate WritersRight(s: State) {
    forall q | 0 <= q < |s.jobs| && s.jobs[q].AsleepFull? :: |s.buf| == PIPESIZE && s.readopen
  }

  predicate Asleep(jobs: seq<Job>) {
    exists q | 0 <= q < |jobs| :: jobs[q].AsleepEmpty?
  }

  // A reader sleeps although there are bytes to read or no writer is left.
  predicate Stranded(s: State) {
    Asleep(s.jobs) && (s.buf != [] || !s.writeopen)
  }

  ghost predicate Inv(s: State) {
    Stream(s) && WritersRight(s)
  }

  lemma WriterInOrder(acc: seq<nat>, who: seq<nat>, sent: seq<nat>, src: seq<nat>, i: nat, i': nat, p: nat)
    requires |who| == |acc| && i <= i' <= |src| && Project(acc, who, p) == sent + src[..i]
    ensures Project(acc + src[i..i'], who + Repeat(p, i' - i), p) == sent + src[..i']
  {
    ProjectPut(acc, who, src[i..i'], p, p);
    assert src[..i'] == src[..i] + src[i..i'];
    assert sent + src[..i] + src[i..i'] == sent + (src[..i] + src[i..i']);
  }

  lemma OtherInOrder(acc: seq<nat>, who: seq<nat>, sent: seq<nat>, job: Job, x: seq<nat>, p: nat, q: nat)
    requires |who| == |acc| && InOrder(acc, who, sent, job, q) && p != q
    ensures |acc + x| == |who + Repeat(p, |x|)|
    ensures InOrder(acc + x, who + Repeat(p, |x|), sent, job, q)
    ensures InOrder(acc + x, who + Repeat(p, |x|), sent, Rouse(job, true), q)
  {
    ProjectPut(acc, who, x, p, q);
  }

  lemma Append(s: State, x: seq<nat>)
    requires s.accepted == s.delivered + s.buf
    ensures s.accepted + x == s.delivered + (s.buf + x)
  {
  }

  lemma WriteStream(s: State, s': State, p: nat, i': nat, killed: bool)
    requires Stream(s) && Write(s, s', p, i', killed)
    ensures Stream(s')
  {
    var src, i := s.jobs[p].src, s.jobs[p].i;
    assert Keeps(s, p);
    WriterInOrder(s.accepted, s.who, s.sent[p], src, i, i', p);
    assert src[..|src|] == src;
    assert s'.sent[p] + Progress(s'.jobs[p]) == s.sent[p] + src[..i'];
    forall q: nat {:trigger Keeps(s', q)} | q < |s'.jobs| ensures Keeps(s', q) {
      if q != p {
        assert Keeps(s, q);
        OtherInOrder(s.accepted, s.who, s.sent[q], s.jobs[q], src[i..i'], p, q);
      }
    }
    Append(s, src[i..i']);
  }

  // Steps that put nothing.
  lemma OtherStream(s: State, s': State, step: Step)
    requires Stream(s) && Next(s, s', step) && !step.WriteStep?
    ensures Stream(s')
  {
    assert s'.accepted == s.accepted && s'.who == s.who && s'.sent == s.sent;
    forall q: nat {:trigger Keeps(s', q)} | q < |s'.jobs| ensures Keeps(s', q) {
      assert Keeps(s, q);
      assert Progress(s'.jobs[q]) == Progress(s.jobs[q]);
    }
  }

  lemma StepKeeps(s: State, s': State, step: Step)
    requires Inv(s) && Next(s, s', step)
    ensures Inv(s')
  {
    if step.WriteStep? {
      WriteStream(s, s', step.p, step.i', step.killed);
    } else {
      OtherStream(s, s', step);
    }
  }

  // A writer that will give up on a full pipe after putting bytes in the same section: the pipe is
  // not full yet, what the writer has left does not fit, and it is killed or nobody can read.
  predicate LeavesQuietly(s: State, step: Step) {
    && step.WriteStep? && step.p < |s.jobs| && s.jobs[step.p].Writing? && s.jobs[step.p].i <= |s.jobs[step.p].src|
    && |s.buf| < PIPESIZE < |s.buf| + |s.jobs[step.p].src| - s.jobs[step.p].i && (!s.readopen || step.killed)
  }

  lemma WriteStrands(s: State, s': State, p: nat, i': nat, killed: bool)
    requires Inv(s) && Write(s, s', p, i', killed) && !Stranded(s)
    ensures Stranded(s') <==> LeavesQuietly(s, WriteStep(p, i', killed)) && Asleep(s.jobs)
  {
    assert forall q | 0 <= q < |s.jobs| :: s'.jobs[q].AsleepEmpty? ==> s.jobs[q].AsleepEmpty?;
    if LeavesQuietly(s, WriteStep(p, i', killed)) && Asleep(s.jobs) {
      var q :| 0 <= q < |s.jobs| && s.jobs[q].AsleepEmpty?;
      assert s'.jobs[q].AsleepEmpty?;
    }
  }

  // Exactly that strands a reader.
  lemma StrandedIff(s: State, s': State, step: Step)
    requires Inv(s) && Next(s, s', step) && !Stranded(s)
    ensures Stranded(s') <==> LeavesQuietly(s, step) && Asleep(s.jobs)
  {
    match step
    case CallStep(p, job) =>
      assert forall q | 0 <= q < |s.jobs| :: s'.jobs[q].AsleepEmpty? == s.jobs[q].AsleepEmpty?;
    case WriteStep(p, i', killed) => WriteStrands(s, s', p, i', killed);
    case ReadStep(p, got, buf', killed) =>
      assert forall q | 0 <= q < |s.jobs| && q != p :: s'.jobs[q].AsleepEmpty? == s.jobs[q].AsleepEmpty?;
    case CloseStep(writable) =>
      assert forall q | 0 <= q < |s.jobs| :: s'.jobs[q].AsleepEmpty? ==> s.jobs[q].AsleepEmpty?;
    case KillStep(p) =>
      assert forall q | 0 <= q < |s.jobs| :: s'.jobs[q].AsleepEmpty? ==> s.jobs[q].AsleepEmpty?;
  }

  // ---------------------------------------------------------------- runs

  predicate Init(s: State, n: nat) {
    s == State([], true, true, Jobs(n), [], [], [], Nothing(n))
  }

  function Jobs(n: nat): (r: seq<Job>)
    ensures |r| == n && forall q | 0 <= q < n :: r[q] == Idle
  {
    seq(n, q => Idle)
  }

  function Nothing(n: nat): (r: seq<seq<nat>>)
    ensures |r| == n && forall q | 0 <= q < n :: r[q] == []
  {
    seq(n, q => [])
  }

  predicate IsRun(run: seq<State>, steps: seq<Step>, n: nat) {
    && |run| == |steps| + 1 && Init(run[0], n)
    && forall i {:trigger steps[i]} | 0 <= i < |steps| :: Next(run[i], run[i + 1], steps[i])
  }

  lemma {:induction false} RunInv(run: seq<State>, steps: seq<Step>, n: nat, i: nat)
    requires IsRun(run, steps, n) && i < |run|
    ensures Stream(run[i]) && WritersRight(run[i])
  {
    if i > 0 {
      RunInv(run, steps, n, i - 1);
      StepKeeps(run[i - 1], run[i], steps[i - 1]);
    }
  }

  // Unless a writer leaves quietly while a reader sleeps, no reader is ever stranded.
  lemma {:induction false} NoneStranded(run: seq<State>, steps: seq<Step>, n: nat, i: nat)
    requires IsRun(run, steps, n) && i < |run|
    requires forall k | 0 <= k < i :: !(LeavesQuietly(run[k], steps[k]) && Asleep(run[k].jobs))
    ensures !Stranded(run[i])
  {
    if i > 0 {
      NoneStranded(run, steps, n, i - 1);
      RunInv(run, steps, n, i - 1);
      StrandedIff(run[i - 1], run[i], steps[i - 1]);
    }
  }

  // A write call that returns its whole count put exactly its bytes, in order, after all
  // that the process wrote before.
  lemma WholeWrite(run: seq<State>, steps: seq<Step>, n: nat, i: nat, p: nat)
    requires IsRun(run, steps, n) && i < |steps| && steps[i].WriteStep? && steps[i].p == p < |run[i].jobs|
    requires run[i].jobs[p].Writing? && steps[i].i' == |run[i].jobs[p].src|
    ensures p < |run[i].sent| && |run[i + 1].who| == |run[i + 1].accepted|
    ensures Project(run[i + 1].accepted, run[i + 1].who, p) == run[i].sent[p] + run[i].jobs[p].src
  {
    RunInv(run, steps, n, i);
    RunInv(run, steps, n, i + 1);
    assert Keeps(run[i + 1], p);
    assert run[i].sent[p] + run[i].jobs[p].src + [] == run[i].sent[p] + run[i].jobs[p].src;
  }

  // ------------------------------------------------------- when calls return

  // A call in progress, asleep or not.
  predicate SameCall(job: Job, job': Job) {
    match job
    case Idle => job' == Idle
    case Writing(src, i) => job' == Writing(src, i)
    case AsleepFull(src, i) => job' == AsleepFull(src, i) || job' == Writing(src, i)
    case Reading(n) => job' == Reading(n)
    case AsleepEmpty(n) => job' == AsleepEmpty(n) || job' == Reading(n)
  }

  predicate StepOf(step: Step, q: nat) {
    (step.CallStep? || step.WriteStep? || step.ReadStep?) && step.p == q
  }

  // Others wake a process at most; its call and what it has put stay.
  lemma OthersKeep(s: State, s': State, step: Step, q: nat)
    requires Inv(s) && Next(s, s', step) && q < |s.jobs| && !StepOf(step, q)
    ensures q < |s'.jobs| && SameCall(s.jobs[q], s'.jobs[q]) && q < |s'.sent| && s'.sent[q] == s.sent[q]
  {
  }

  // A writer puts what fits.  It returns exactly if that is all, nobody can read, or it is killed, and
  // sleeps otherwise.
  lemma WriterReturns(s: State, s': State, p: nat, i': nat, killed: bool)
    requires Inv(s) && Write(s, s', p, i', killed)
    ensures s.jobs[p].i <= |s.jobs[p].src|
    ensures var n, room := |s.jobs[p].src| - s.jobs[p].i, PIPESIZE - |s.buf|;
            && i' == s.jobs[p].i + (if n <= room then n else room)
            && (s'.jobs[p] == Idle <==> n <= room || !s.readopen || killed)
            && (s'.jobs[p] != Idle ==> s'.jobs[p] == AsleepFull(s.jobs[p].src, i'))
  {
    assert Keeps(s, p);
  }

  // A reader returns exactly if there are bytes, nobody can write, or it is killed, and sleeps otherwise.
  lemma ReaderReturns(s: State, s': State, p: nat, got: seq<nat>, buf': seq<nat>, killed: bool)
    requires Inv(s) && Read(s, s', p, got, buf', killed)
    ensures s'.jobs[p] == Idle <==> s.buf != [] || !s.writeopen || killed
    ensures s'.jobs[p] != Idle ==> s'.jobs[p] == AsleepEmpty(s.jobs[p].n)
  {
  }

  // read(n) is handed the next bytes of the stream, n of them or as many as there are.
  lemma ReadGets(s: State, s': State, step: Step)
    requires Inv(s) && Next(s, s', step) && step.ReadStep? && s.buf != []
    ensures step.p < |s.jobs| && s.jobs[step.p].Reading?
    ensures var n := s.jobs[step.p].n;
            |step.got| == if n < 0 then 0 else if n < |s.buf| then n else |s.buf|
    ensures s'.delivered == s.delivered + step.got
    ensures |step.got| <= |s.buf| && step.got == s.accepted[|s.delivered|..|s.delivered| + |step.got|]
  {
    assert s.accepted[|s.delivered|..] == s.buf;
  }

  // An end is open until it is closed, and closed from then on; a killed process is awake.
  lemma EndsAndKills(s: State, s': State, step: Step)
    requires Inv(s) && Next(s, s', step)
    ensures s'.writeopen <==> s.writeopen && step != CloseStep(true)
    ensures s'.readopen <==> s.readopen && step != CloseStep(false)
    ensures step.KillStep? ==> step.p < |s'.jobs| && !s'.jobs[step.p].AsleepEmpty? && !s'.jobs[step.p].AsleepFull?
    ensures step.CallStep? ==> step.p < |s.jobs| && s.jobs[step.p] == Idle && s'.jobs[step.p] == step.job
  {
  }

  function Zeros(n: nat): (r: seq<nat>)
    ensures |r| == n
  {
    seq(n, k => 0)
  }

  // A killed writer of one byte more than the pipe holds strands the reader that waits for it.
  lemma KilledWriterStrands() returns (run: seq<State>, steps: seq<Step>)
    ensures IsRun(run, steps, 2) && Stranded(run[|run| - 1])
  {
    var src := Zeros(PIPESIZE + 1);
    var s0 := State([], true, true, Jobs(2), [], [], [], Nothing(2));
    var s1 := s0.(jobs := s0.jobs[0 := Reading(1)]);
    var s2 := s1.(jobs := s1.jobs[0 := AsleepEmpty(1)]);
    var s3 := s2.(jobs := s2.jobs[1 := Writing(src, 0)]);
    var s4 := s3.(buf := s3.buf + src[0..PIPESIZE], accepted := s3.accepted + src[0..PIPESIZE],
                  who := s3.who + Repeat(1, PIPESIZE), jobs := s3.jobs[1 := Idle],
                  sent := s3.sent[1 := s3.sent[1] + src[..PIPESIZE]]);
    run := [s0, s1, s2, s3, s4];
    steps := [CallStep(0, Reading(1)), ReadStep(0, [], [], false), CallStep(1, Writing(src, 0)),
              WriteStep(1, PIPESIZE, true)];
    assert Write(s3, s4, 1, PIPESIZE, true);
    assert s4.jobs[0].AsleepEmpty?;
  }
}
