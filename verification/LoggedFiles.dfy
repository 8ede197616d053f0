/**
 Files over the log: what a crash leaves of a file whose blocks are read and
 written through the group commit of log.c.

 The blocks that the log keeps in memory, and those that a recovery would bring
 back, are looked at as one file system each.  A write that runs inside one
 operation survives a crash whole or not at all, whatever other operations do to
 other files, and however often the system crashes.
 */
module LoggedFiles {
  import opened BlockCodec
  import opened FileMap
  import opened Files
  import Redo = RedoLog
  import Log
  import Group = GroupCommit

  // A volume: where the log is, where the files are, and how many inodes there are.
  datatype Volume = Volume(g: Redo.Layout, sb: Sb, ninodes: nat)

  ghost predicate ValidVolume(v: Volume) {
    && Redo.ValidLayout(v.g) && ValidSb(v.sb, v.ninodes)
    && v.sb.size == v.g.nblocks && v.g.start + v.g.size <= v.sb.inodestart
  }

  // --------------------------------------------------- blocks as bytes

  // Byte k of a word, the least significant first.
  function Octet(w: nat, k: nat): nat {
    if k == 0 then w % 0x100 else Octet(w / 0x100, k - 1)
  }

  function View(b: Redo.Block): (r: Block)
    ensures IsBlock(r)
  {
    seq<nat>(BSIZE, j requires 0 <= j < BSIZE => Octet(b[j / 4], j % 4))
  }

  ghost function SeenBlock(g: Redo.Layout, s: Group.State, b: nat): (r: Block)
    ensures IsBlock(r)
  {
    if Redo.LogOk(g, s.disk) && Redo.Home(g, b) then View(Group.Mem(g, s, b)) else Zeros()
  }

  ghost function SavedBlock(g: Redo.Layout, s: Group.State, b: nat): (r: Block)
    ensures IsBlock(r)
  {
    if Redo.LogOk(g, s.disk) && Redo.Home(g, b) then View(Group.Durable(g, s, b)) else Zeros()
  }

  // The disk as the file system sees it; the blocks of the log itself, which no file uses, show as zeros.
  ghost function Seen(g: Redo.Layout, s: Group.State): (d: seq<Block>)
    ensures |d| == g.nblocks && forall b | 0 <= b < |d| :: IsBlock(d[b])
  {
    seq<Block>(g.nblocks, b requires 0 <= b < g.nblocks => SeenBlock(g, s, b))
  }

  // The disk that a crash would leave, once recovery has run.
  ghost function Saved(g: Redo.Layout, s: Group.State): (d: seq<Block>)
    ensures |d| == g.nblocks && forall b | 0 <= b < |d| :: IsBlock(d[b])
  {
    seq<Block>(g.nblocks, b requires 0 <= b < g.nblocks => SavedBlock(g, s, b))
  }

  // --------------------------------------- the file system found at boot

  ghost predicate Fits(v: Volume, d: seq<Block>) {
    ValidVolume(v) && |d| == v.sb.size && forall b | 0 <= b < |d| :: IsBlock(d[b])
  }

  // Inodes are read from their disk copies.
  ghost function Mount(v: Volume, d: seq<Block>): (fs: Fs)
    requires Fits(v, d)
    ensures Formed(fs) && fs.disk == d && |fs.ino| == v.ninodes
  {
    Fs(d, seq(v.ninodes, x requires 0 <= x < v.ninodes => Copy(v, d, x)))
  }

  ghost function Copy(v: Volume, d: seq<Block>, x: nat): (ip: Inode)
    requires Fits(v, d) && x < v.ninodes
    ensures |ip.addrs| == NDIRECT
  {
    DiskInode(v.sb, d, x)
  }

  // The owners of the blocks that the mounted inodes still point to.
  ghost function Reached(fs: Fs, own: map<nat, Slot>): map<nat, Slot>
    requires Formed(fs)
  {
    map b | b in own && Ptr(fs, own[b]) == b :: own[b]
  }

  // Mounting reads an address that the inode had, or none.
  lemma MountedPtr(v: Volume, fs: Fs, own: map<nat, Slot>, s: Slot)
    requires Inv(v.sb, fs, own) && Fits(v, fs.disk) && |fs.ino| == v.ninodes && Behind(v.sb, fs)
    ensures Ptr(Mount(v, fs.disk), s) == Ptr(fs, s) || Ptr(Mount(v, fs.disk), s) == 0
  {
    if s.i < |fs.ino| {
      assert Trails(DiskInode(v.sb, fs.disk, s.i), fs.ino[s.i]);
    }
  }

  // Below the end of a file, it reads all of them.
  lemma MountedEntry(v: Volume, fs: Fs, own: map<nat, Slot>, x: nat, n: nat)
    requires Inv(v.sb, fs, own) && Fits(v, fs.disk) && x < |fs.ino| == v.ninodes && Behind(v.sb, fs)
    requires n * BSIZE < fs.ino[x].size
    ensures Ptr(Mount(v, fs.disk), Dat(x, n)) == Ptr(fs, Dat(x, n)) != 0 && n < MAXFILE
  {
    assert Trails(DiskInode(v.sb, fs.disk, x), fs.ino[x]);
    assert Covered(fs, x, n);
    assert n / NINDIRECT * NINDIRECT * BSIZE <= n * BSIZE;
  }

  // A file system whose disk copies lack, at most, addresses past the end of a file is found at
  // boot as a well-formed one, with the same files.
  lemma MountInv(v: Volume, fs: Fs, own: map<nat, Slot>)
    requires Inv(v.sb, fs, own) && Fits(v, fs.disk) && |fs.ino| == v.ninodes && Behind(v.sb, fs)
    ensures Inv(v.sb, Mount(v, fs.disk), Reached(Mount(v, fs.disk), own))
  {
    var m := Mount(v, fs.disk);
    forall s ensures Ptr(m, s) != 0 ==> Ptr(m, s) in Reached(m, own) && Reached(m, own)[Ptr(m, s)] == s {
      MountedPtr(v, fs, own, s);
    }
    forall x: nat, n: nat | x < |m.ino| ensures Covered(m, x, n) {
      assert Trails(DiskInode(v.sb, fs.disk, x), fs.ino[x]);
      if n * BSIZE < m.ino[x].size { MountedEntry(v, fs, own, x, n); }
    }
  }

  lemma MountBytes(v: Volume, fs: Fs, own: map<nat, Slot>, x: nat)
    requires Inv(v.sb, fs, own) && Fits(v, fs.disk) && x < |fs.ino| == v.ninodes && Behind(v.sb, fs)
    ensures Bytes(Mount(v, fs.disk), x) == Bytes(fs, x)
  {
    var m := Mount(v, fs.disk);
    assert Trails(DiskInode(v.sb, fs.disk, x), fs.ino[x]);
    forall o: nat | o < fs.ino[x].size ensures Bytes(m, x)[o] == Bytes(fs, x)[o] {
      MountedEntry(v, fs, own, x, o / BSIZE);
    }
  }

  // ------------------------------------------------------------- steps

  lemma SameSeen(g: Redo.Layout, s: Group.State, s': Group.State)
    requires Redo.LogOk(g, s.disk) && Redo.LogOk(g, s'.disk) && Group.SameMem(g, s, s')
    ensures Seen(g, s') == Seen(g, s)
  {
    assert forall b: nat | b < g.nblocks :: Seen(g, s')[b] == Seen(g, s)[b];
  }

  lemma SameSaved(g: Redo.Layout, s: Group.State, s': Group.State)
    requires Redo.LogOk(g, s.disk) && Redo.LogOk(g, s'.disk) && Group.SameDurable(g, s, s')
    ensures Saved(g, s') == Saved(g, s)
  {
    assert forall b: nat | b < g.nblocks :: Saved(g, s')[b] == Saved(g, s)[b];
  }

  // A process changes a block in memory ...
  lemma ModifyShows(g: Redo.Layout, s: Group.State, s': Group.State, p: nat, b: nat, data: Redo.Block)
    requires Group.Inv(g, s) && Group.Modify(g, s, s', p, b, data)
    ensures Saved(g, s') == Saved(g, s)
    ensures Redo.Home(g, b) && Seen(g, s') == Seen(g, s)[b := View(data)]
  {
    Group.ModifyKeeps(g, s, s', p, b, data);
    SameSaved(g, s, s');
    SeenAfter(g, s, s', b, data);
  }

  lemma SeenAfter(g: Redo.Layout, s: Group.State, s': Group.State, b: nat, data: Redo.Block)
    requires Redo.LogOk(g, s.disk) && Redo.LogOk(g, s'.disk) && Redo.Home(g, b)
    requires forall x: nat | Redo.Home(g, x) :: Group.Mem(g, s', x) == if x == b then data else Group.Mem(g, s, x)
    ensures Seen(g, s') == Seen(g, s)[b := View(data)]
  {
    forall x: nat | x < g.nblocks ensures Seen(g, s')[x] == Seen(g, s)[b := View(data)][x] {}
  }

  // ... a commit, while no operation is open, saves what is seen ...
  lemma CommitShows(g: Redo.Layout, s: Group.State, s': Group.State)
    requires Group.Inv(g, s) && Group.WriteHead(g, s, s')
    ensures Saved(g, s') == Seen(g, s') == Seen(g, s)
    ensures Group.CountOpen(s'.ops) == 0
  {
    Group.WriteHeadKeeps(g, s, s');
    SameSeen(g, s, s');
    SavedIsSeen(g, s, s');
  }

  lemma SavedIsSeen(g: Redo.Layout, s: Group.State, s': Group.State)
    requires Redo.LogOk(g, s.disk) && Redo.LogOk(g, s'.disk)
    requires forall b: nat | Redo.Home(g, b) :: Group.Durable(g, s', b) == Group.Mem(g, s, b)
    ensures Saved(g, s') == Seen(g, s)
  {
    forall b: nat | b < g.nblocks ensures Saved(g, s')[b] == Seen(g, s)[b] {}
  }

  // ... a crash brings back what is saved ...
  lemma CrashShows(g: Redo.Layout, s: Group.State, s': Group.State)
    requires Group.Inv(g, s) && Group.Crash(g, s, s')
    ensures Saved(g, s') == Seen(g, s') == Saved(g, s)
    ensures Group.CountOpen(s'.ops) == 0
  {
    Group.CrashKeeps(g, s, s');
    SameSaved(g, s, s');
    SeenIsSaved(g, s, s');
  }

  lemma SeenIsSaved(g: Redo.Layout, s: Group.State, s': Group.State)
    requires Redo.LogOk(g, s.disk) && Redo.LogOk(g, s'.disk)
    requires forall b: nat | Redo.Home(g, b) :: Group.Mem(g, s', b) == Group.Durable(g, s, b)
    ensures Seen(g, s') == Saved(g, s)
  {
    forall b: nat | b < g.nblocks ensures Seen(g, s')[b] == Saved(g, s)[b] {}
  }

  // ... and nothing else matters to either.
  lemma QuietShows(g: Redo.Layout, s: Group.State, s': Group.State, step: Group.Step)
    requires Group.Inv(g, s) && Group.NextStep(g, s, s', step)
    requires !step.ModifyStep? && !step.WriteHeadStep? && !step.CrashStep?
    ensures Seen(g, s') == Seen(g, s) && Saved(g, s') == Saved(g, s)
  {
    Group.StepRefines(g, s, s', step);
    SameSeen(g, s, s');
    SameSaved(g, s, s');
  }

  // ------------------------------------------------------ whole or not at all

  // Process p has an operation open in every state after a, up to e.
  ghost predicate OpenThrough(run: seq<Group.State>, p: nat, a: nat, e: nat) {
    e < |run| && forall k | a < k <= e :: p < |run[k].ops| && run[k].ops[p].Open?
  }

  // From state a to state e nobody changes what is shown.
  ghost predicate Spared<T>(g: Redo.Layout, show: seq<Block> -> T, run: seq<Group.State>, steps: seq<Group.Step>,
                            a: nat, e: nat) {
    && e < |run| == |steps| + 1
    && forall k {:trigger steps[k]} | a <= k < e && steps[k].ModifyStep? ::
         show(Seen(g, run[k + 1])) == show(Seen(g, run[k]))
  }

  // What is saved stays, unless a commit replaces it by what is seen; what is seen stays, unless a
  // crash replaces it by what is saved.
  lemma SparedStep<T>(g: Redo.Layout, show: seq<Block> -> T, run: seq<Group.State>, steps: seq<Group.Step>, n: nat,
                      a: nat, k: nat, e: nat)
    requires Group.LongEnough(g) && Group.Run(g, run, steps, n) && Spared(g, show, run, steps, a, e) && a <= k < e
    ensures show(Saved(g, run[k + 1])) == show(Saved(g, run[k])) ||
            show(Saved(g, run[k + 1])) == show(Seen(g, run[k])) == show(Seen(g, run[k + 1]))
    ensures show(Seen(g, run[k + 1])) == show(Seen(g, run[k])) ||
            show(Seen(g, run[k + 1])) == show(Saved(g, run[k])) == show(Saved(g, run[k + 1]))
    ensures !steps[k].CrashStep? ==> show(Seen(g, run[k + 1])) == show(Seen(g, run[k]))
  {
    Group.RunInv(g, run, steps, n, k);
    var step := steps[k];
    if step.ModifyStep? {
      ModifyShows(g, run[k], run[k + 1], step.p, step.b, step.data);
    } else if step.WriteHeadStep? {
      CommitShows(g, run[k], run[k + 1]);
    } else if step.CrashStep? {
      CrashShows(g, run[k], run[k + 1]);
    } else {
      QuietShows(g, run[k], run[k + 1], step);
    }
  }

  // What is saved stays while an operation is open.
  lemma OpenStep(g: Redo.Layout, run: seq<Group.State>, steps: seq<Group.Step>, n: nat, p: nat, k: nat)
    requires Group.LongEnough(g) && Group.Run(g, run, steps, n) && k + 1 < |run|
    requires p < |run[k + 1].ops| && run[k + 1].ops[p].Open?
    ensures Saved(g, run[k + 1]) == Saved(g, run[k])
  {
    Group.RunInv(g, run, steps, n, k);
    Group.AnyOpen(run[k + 1].ops, p);
    var step := steps[k];
    if step.ModifyStep? {
      ModifyShows(g, run[k], run[k + 1], step.p, step.b, step.data);
    } else if step.WriteHeadStep? {
      CommitShows(g, run[k], run[k + 1]);
    } else if step.CrashStep? {
      CrashShows(g, run[k], run[k + 1]);
    } else {
      QuietShows(g, run[k], run[k + 1], step);
    }
  }

  // Before the operation: what was saved and seen in state q still is.
  lemma {:induction false} Before<T>(g: Redo.Layout, show: seq<Block> -> T, run: seq<Group.State>,
                                     steps: seq<Group.Step>, n: nat, q: nat, i: nat)
    requires Group.LongEnough(g) && Group.Run(g, run, steps, n) && q <= i && Spared(g, show, run, steps, q, i)
    requires show(Saved(g, run[q])) == show(Seen(g, run[q]))
    ensures show(Saved(g, run[i])) == show(Seen(g, run[i])) == show(Seen(g, run[q]))
    decreases i
  {
    if q < i {
      Before(g, show, run, steps, n, q, i - 1);
      SparedStep(g, show, run, steps, n, q, i - 1, i);
    }
  }

  // While the operation is open, whatever it changes: what was saved stays.
  lemma {:induction false} Within(g: Redo.Layout, run: seq<Group.State>, steps: seq<Group.Step>, n: nat, p: nat,
                                  a: nat, i: nat)
    requires Group.LongEnough(g) && Group.Run(g, run, steps, n) && a <= i && OpenThrough(run, p, a, i)
    ensures Saved(g, run[i]) == Saved(g, run[a])
    decreases i
  {
    if a < i {
      Within(g, run, steps, n, p, a, i - 1);
      OpenStep(g, run, steps, n, p, i - 1);
    }
  }

  // After it: the old is saved, or the new; and before the first crash the new is seen.
  lemma {:induction false} After<T>(g: Redo.Layout, show: seq<Block> -> T, run: seq<Group.State>,
                                    steps: seq<Group.Step>, n: nat, e: nat, i: nat)
    requires Group.LongEnough(g) && Group.Run(g, run, steps, n) && e <= i && Spared(g, show, run, steps, e, i)
    ensures show(Saved(g, run[i])) == show(Saved(g, run[e])) || show(Saved(g, run[i])) == show(Seen(g, run[e]))
    ensures show(Seen(g, run[i])) == show(Seen(g, run[e])) ||
            show(Seen(g, run[i])) == show(Saved(g, run[i])) == show(Saved(g, run[e]))
    ensures (forall k | e <= k < i :: !steps[k].CrashStep?) ==> show(Seen(g, run[i])) == show(Seen(g, run[e]))
    decreases i
  {
    if e < i {
      After(g, show, run, steps, n, e, i - 1);
      SparedStep(g, show, run, steps, n, e, i - 1, i);
    }
  }

  // A stretch of a run of n processes: process p has an operation open after state a, up to state e;
  // q is a state before it.
  datatype Span = Span(run: seq<Group.State>, steps: seq<Group.Step>, n: nat, p: nat, q: nat, a: nat, e: nat)

  // In state q what is seen is saved, and up to state i only process p, inside its operation, changes it.
  ghost predicate Logged<T>(g: Redo.Layout, show: seq<Block> -> T, t: Span, i: nat) {
    && Group.Run(g, t.run, t.steps, t.n) && t.q <= t.a < t.e && t.q <= i < |t.run|
    && show(Saved(g, t.run[t.q])) == show(Seen(g, t.run[t.q]))
    && Spared(g, show, t.run, t.steps, t.q, t.a) && OpenThrough(t.run, t.p, t.a, t.e)
    && (t.e < i ==> Spared(g, show, t.run, t.steps, t.e, i))
  }

  // A crash in state i leaves the old until the operation has ended, and the old or the new then; once
  // the commit is over, and there was no crash before, it leaves the new.
  ghost predicate Atomic<T>(g: Redo.Layout, show: seq<Block> -> T, t: Span, i: nat, old_: T, new_: T)
    requires |t.run| == |t.steps| + 1 && i < |t.run|
  {
    var left := show(Saved(g, t.run[i]));
    && (i <= t.e ==> left == old_)
    && (left == old_ || left == new_)
    && (t.e < i && t.run[i].phase.Erased? && (forall k | t.e <= k < i :: !t.steps[k].CrashStep?) ==> left == new_)
  }

  // Whole or not at all, for anything that can be read off the disk.
  lemma WholeOrNot<T>(g: Redo.Layout, show: seq<Block> -> T, t: Span, i: nat)
    requires Group.LongEnough(g) && Logged(g, show, t, i)
    ensures Atomic(g, show, t, i, show(Seen(g, t.run[t.a])), show(Seen(g, t.run[t.e])))
  {
    if i <= t.a {
      BeforeIt(g, show, t, i);
    } else if i <= t.e {
      Before(g, show, t.run, t.steps, t.n, t.q, t.a);
      Within(g, t.run, t.steps, t.n, t.p, t.a, i);
    } else {
      Before(g, show, t.run, t.steps, t.n, t.q, t.a);
      Within(g, t.run, t.steps, t.n, t.p, t.a, t.e);
      After(g, show, t.run, t.steps, t.n, t.e, i);
      if t.run[i].phase.Erased? { ErasedSaved(g, t.run, t.steps, t.n, i); }
    }
  }

  lemma BeforeIt<T>(g: Redo.Layout, show: seq<Block> -> T, t: Span, i: nat)
    requires Group.LongEnough(g) && Logged(g, show, t, i) && i <= t.a
    ensures show(Saved(g, t.run[i])) == show(Seen(g, t.run[t.a]))
  {
    Before(g, show, t.run, t.steps, t.n, t.q, i);
    Before(g, show, t.run, t.steps, t.n, i, t.a);
  }

  lemma ErasedSaved(g: Redo.Layout, run: seq<Group.State>, steps: seq<Group.Step>, n: nat, i: nat)
    requires Group.LongEnough(g) && Group.Run(g, run, steps, n) && i < |run| && run[i].phase.Erased?
    ensures Saved(g, run[i]) == Seen(g, run[i])
  {
    Group.RunInv(g, run, steps, n, i);
    Group.CommittedIsDurable(g, run[i]);
    SavedIsSeen(g, run[i], run[i]);
  }

  // ------------------------------------------------------------- writei

  // What is found in file x.
  ghost function FileOf(v: Volume, x: nat): seq<Block> -> seq<nat> {
    d => if Fits(v, d) && x < v.ninodes then Bytes(Mount(v, d), x) else []
  }

  // A disk that agrees with fs on the inode of file x, as it is on disk, and on the blocks that hold or
  // map its bytes.
  ghost predicate Agrees(v: Volume, fs: Fs, x: nat, d: seq<Block>)
    requires Formed(fs) && Fits(v, fs.disk) && Fits(v, d) && x < |fs.ino| == v.ninodes
  {
    && Copy(v, d, x) == Copy(v, fs.disk, x)
    && forall n: nat, b: nat | n * BSIZE < fs.ino[x].size && b < |d| && PointsTo(fs, x, n, b) :: d[b] == fs.disk[b]
  }

  // Nothing else on the disk matters to the file.
  lemma FileAgrees(v: Volume, fs: Fs, own: map<nat, Slot>, x: nat, d: seq<Block>)
    requires ValidVolume(v) && Inv(v.sb, fs, own) && x < |fs.ino| == v.ninodes && Behind(v.sb, fs)
    requires Fits(v, d) && Agrees(v, fs, x, d)
    ensures FileOf(v, x)(d) == Bytes(fs, x)
  {
    var m := Mount(v, d);
    assert Trails(DiskInode(v.sb, fs.disk, x), fs.ino[x]);
    forall o: nat | o < fs.ino[x].size ensures Bytes(m, x)[o] == Bytes(fs, x)[o] {
      AgreesAt(v, fs, own, x, d, o / BSIZE);
    }
  }

  lemma AgreesAt(v: Volume, fs: Fs, own: map<nat, Slot>, x: nat, d: seq<Block>, n: nat)
    requires ValidVolume(v) && Inv(v.sb, fs, own) && x < |fs.ino| == v.ninodes && Behind(v.sb, fs)
    requires Fits(v, d) && Agrees(v, fs, x, d) && n * BSIZE < fs.ino[x].size
    ensures n < MAXFILE && Ptr(Mount(v, d), Dat(x, n)) == Ptr(fs, Dat(x, n)) < |d|
    ensures d[Ptr(fs, Dat(x, n))] == fs.disk[Ptr(fs, Dat(x, n))]
  {
    MountedEntry(v, fs, own, x, n);
    var a, b := Ptr(fs, Ind(x, n / NINDIRECT)), Ptr(fs, Dat(x, n));
    assert a != 0 && a in own && b in own;
    assert PointsTo(fs, x, n, a) && PointsTo(fs, x, n, b);
    assert n / NINDIRECT * NINDIRECT * BSIZE <= n * BSIZE;
    assert Trails(DiskInode(v.sb, fs.disk, x), fs.ino[x]);
  }

  // writei inside one operation, whatever others do to other files before, meanwhile and after: after a
  // crash in state i the file is what it was, or what it was with src, or the prefix of it that found
  // room, laid over it at off.
  method LoggedWrite(v: Volume, fs: Fs, x: nat, off: nat, src: seq<nat>, ghost own: map<nat, Slot>, ghost t: Span,
                     ghost i: nat)
    returns (fs': Fs, r: int, ghost tot: nat, ghost own': map<nat, Slot>)
    requires ValidVolume(v) && Inv(v.sb, fs, own) && x < |fs.ino| == v.ninodes && off < UINT && |src| < UINT
    requires Behind(v.sb, fs) && Group.LongEnough(v.g) && Logged(v.g, FileOf(v, x), t, i)
    requires Agrees(v, fs, x, Seen(v.g, t.run[t.a]))
    ensures Inv(v.sb, fs', own') && |fs'.ino| == |fs.ino| && Behind(v.sb, fs')
    ensures Touches(v.sb, fs, fs', x, off, |src|)
    ensures r == -1 ==> fs' == fs
    ensures r != -1 ==> off <= fs.ino[x].size && tot <= |src| && (r == |src| <==> tot == |src|)
    ensures r != -1 ==> Bytes(fs', x) == Overlay(Bytes(fs, x), off, src[..tot])
    ensures Agrees(v, fs', x, Seen(v.g, t.run[t.e])) ==>
              Atomic(v.g, FileOf(v, x), t, i, Bytes(fs, x), Bytes(fs', x))
  {
    fs', r, tot, own' := Writei(v.sb, fs, x, off, src, own);
    WholeOrNot(v.g, FileOf(v, x), t, i);
    FileAgrees(v, fs, own, x, Seen(v.g, t.run[t.a]));
    if Agrees(v, fs', x, Seen(v.g, t.run[t.e])) {
      FileAgrees(v, fs', own', x, Seen(v.g, t.run[t.e]));
    }
  }

  // If no one else changes anything, the whole file system comes back, well-formed, as it was before
  // the operation or as it was after it.
  lemma VolumeSurvives(v: Volume, t: Span, i: nat, fs: Fs, own: map<nat, Slot>, fs': Fs, own': map<nat, Slot>)
    returns (back: Fs, left: map<nat, Slot>)
    requires ValidVolume(v) && Group.LongEnough(v.g) && Logged(v.g, (d: seq<Block>) => d, t, i)
    requires Inv(v.sb, fs, own) && |fs.ino| == v.ninodes && Behind(v.sb, fs) && Seen(v.g, t.run[t.a]) == fs.disk
    requires Inv(v.sb, fs', own') && |fs'.ino| == v.ninodes && Behind(v.sb, fs') && Seen(v.g, t.run[t.e]) == fs'.disk
    ensures back == Mount(v, Saved(v.g, t.run[i])) && Inv(v.sb, back, left) && Synced(v.sb, back)
    ensures (forall x | 0 <= x < v.ninodes :: Bytes(back, x) == Bytes(fs, x)) ||
            (t.e < i && forall x | 0 <= x < v.ninodes :: Bytes(back, x) == Bytes(fs', x))
  {
    WholeOrNot(v.g, (d: seq<Block>) => d, t, i);
    var d := Saved(v.g, t.run[i]);
    back := Mount(v, d);
    if d == fs.disk {
      left := Reached(back, own);
      MountInv(v, fs, own);
      forall x: nat | x < v.ninodes ensures Bytes(back, x) == Bytes(fs, x) { MountBytes(v, fs, own, x); }
    } else {
      left := Reached(back, own');
      MountInv(v, fs', own');
      forall x: nat | x < v.ninodes ensures Bytes(back, x) == Bytes(fs', x) { MountBytes(v, fs', own', x); }
    }
  }

  // ---------------------------------------------------- every write has a run

  // The disk d as the file system sees it.
  ghost function Shown(g: Redo.Layout, d: Redo.Disk): (r: seq<Block>)
    requires |d| == g.nblocks
  {
    seq<Block>(g.nblocks, b requires 0 <= b < g.nblocks => if Redo.Home(g, b) then View(d[b]) else Zeros())
  }

  // d' differs from d in the distinct home blocks bs, at most, and the log is empty and has room for them.
  ghost predicate Loggable(g: Redo.Layout, d: Redo.Disk, d': Redo.Disk, bs: seq<nat>) {
    && Redo.LogOk(g, d) && Redo.Head(d[g.start]) == [] && |d'| == |d|
    && Redo.Loggable(g, bs) && forall b: nat | b < |d| && b !in bs :: d'[b] == d[b]
  }

  // One process has an operation open, and has written the first k of the blocks bs as in d'.
  ghost function Carried(d: Redo.Disk, d': Redo.Disk, bs: seq<nat>, k: nat): Group.State
    requires k <= |bs|
  {
    Group.State(d, CacheOf(d', bs, k), Group.Upto(bs, k), map[], {}, bs[..k], 1, Group.Normal, [Group.Open(k)],
                map[])
  }

  ghost function CacheOf(d': Redo.Disk, bs: seq<nat>, k: nat): map<nat, Redo.Block>
    requires k <= |bs|
  {
    map b | b in Group.Upto(bs, k) && b < |d'| :: d'[b]
  }

  lemma {:induction false} CacheSize(d': Redo.Disk, bs: seq<nat>, k: nat)
    requires Redo.Distinct(bs) && k <= |bs| && forall i | 0 <= i < |bs| :: bs[i] < |d'|
    ensures |CacheOf(d', bs, k)| == k
  {
    if k > 0 {
      CacheSize(d', bs, k - 1);
      NextCache(d', bs, k - 1);
      OneMore(CacheOf(d', bs, k - 1), bs[k - 1], d'[bs[k - 1]]);
    }
  }

  lemma OneMore(m: map<nat, Redo.Block>, b: nat, data: Redo.Block)
    requires b !in m
    ensures |m[b := data]| == |m| + 1
  {
    assert m[b := data].Keys == m.Keys + {b};
  }

  lemma NextCache(d': Redo.Disk, bs: seq<nat>, k: nat)
    requires Redo.Distinct(bs) && k < |bs| && bs[k] < |d'|
    ensures CacheOf(d', bs, k + 1) == CacheOf(d', bs, k)[bs[k] := d'[bs[k]]]
    ensures bs[k] !in CacheOf(d', bs, k)
  {
    Group.NextBlock(bs, k);
  }

  // A run that ends in state s, with the operation of process 0 open in all states but the first.
  ghost predicate Carries(g: Redo.Layout, run: seq<Group.State>, steps: seq<Group.Step>, s: Group.State) {
    && Group.Run(g, run, steps, 1) && run[|steps|] == s && |run| > 1 && OpenThrough(run, 0, 0, |run| - 1)
    && run[0].disk == s.disk
  }

  lemma Carry(g: Redo.Layout, run: seq<Group.State>, steps: seq<Group.Step>, s: Group.State, s': Group.State,
              step: Group.Step)
    requires Carries(g, run, steps, s) && Group.NextStep(g, s, s', step) && s'.disk == s.disk
    requires |s'.ops| > 0 && s'.ops[0].Open?
    ensures Carries(g, run + [s'], steps + [step], s')
  {
  }

  // The next block is read and taken ...
  lemma CarryTake(g: Redo.Layout, d: Redo.Disk, d': Redo.Disk, bs: seq<nat>, k: nat,
                  run: seq<Group.State>, steps: seq<Group.Step>)
    returns (s2: Group.State, run': seq<Group.State>, steps': seq<Group.Step>)
    requires Loggable(g, d, d', bs) && k < |bs| && Carries(g, run, steps, Carried(d, d', bs, k))
    ensures s2 == Carried(d, d', bs, k).(cache := CacheOf(d', bs, k)[bs[k] := d[bs[k]]], held := map[bs[k] := 0])
    ensures Carries(g, run', steps', s2)
  {
    var s, b := Carried(d, d', bs, k), bs[k];
    CacheSize(d', bs, k);
    NextCache(d', bs, k);
    var s1 := s.(cache := s.cache[b := d[b]]);
    s2 := s1.(held := map[b := 0]);
    assert Group.NextStep(g, s, s1, Group.LoadStep(b)) && Group.NextStep(g, s1, s2, Group.HoldStep(0, b));
    Carry(g, run, steps, s, s1, Group.LoadStep(b));
    Carry(g, run + [s1], steps + [Group.LoadStep(b)], s1, s2, Group.HoldStep(0, b));
    run', steps' := run + [s1] + [s2], steps + [Group.LoadStep(b)] + [Group.HoldStep(0, b)];
  }

  // ... changed ...
  lemma CarryModify(g: Redo.Layout, d: Redo.Disk, d': Redo.Disk, bs: seq<nat>, k: nat, s2: Group.State,
                    run: seq<Group.State>, steps: seq<Group.Step>)
    returns (s3: Group.State, run': seq<Group.State>, steps': seq<Group.Step>)
    requires Loggable(g, d, d', bs) && k < |bs| && Carries(g, run, steps, s2)
    requires s2 == Carried(d, d', bs, k).(cache := CacheOf(d', bs, k)[bs[k] := d[bs[k]]], held := map[bs[k] := 0])
    ensures s3 == s2.(cache := CacheOf(d', bs, k + 1), touched := {bs[k]}) && Carries(g, run', steps', s3)
  {
    var b := bs[k];
    NextCache(d', bs, k);
    s3 := s2.(cache := s2.cache[b := d'[b]], touched := s2.touched + {b});
    var step := Group.ModifyStep(0, b, d'[b]);
    assert Group.NextStep(g, s2, s3, step);
    Carry(g, run, steps, s2, s3, step);
    run', steps' := run + [s3], steps + [step];
  }

  // ... log_write is called for it, and its tests pass ...
  lemma CarryCall(g: Redo.Layout, s: Group.State, b: nat, k: nat, run: seq<Group.State>, steps: seq<Group.Step>)
    returns (run': seq<Group.State>, steps': seq<Group.Step>)
    requires |s.ops| > 0 && s.ops[0].Open? && Redo.Home(g, b) && b in s.held && s.held[b] == 0 && Group.Outside(s, 0)
    requires s.outstanding >= 1 && !Group.TooBig(g, s) && k <= 3 && Carries(g, run, steps, s)
    ensures Carries(g, run', steps', Group.WithCall(s, 0, b, k))
    decreases k
  {
    if k == 0 {
      Carry(g, run, steps, s, Group.WithCall(s, 0, b, 0), Group.LogCallStep(0, b));
      run', steps' := run + [Group.WithCall(s, 0, b, 0)], steps + [Group.LogCallStep(0, b)];
    } else {
      run', steps' := CarryCall(g, s, b, k - 1, run, steps);
      var s1, s2 := Group.WithCall(s, 0, b, k - 1), Group.WithCall(s, 0, b, k);
      assert Group.NextStep(g, s1, s2, Group.LogCheckStep(0));
      Carry(g, run', steps', s1, s2, Group.LogCheckStep(0));
      run', steps' := run' + [s2], steps' + [Group.LogCheckStep(0)];
    }
  }

  // ... it is logged ...
  lemma CarryLog(g: Redo.Layout, d: Redo.Disk, d': Redo.Disk, bs: seq<nat>, k: nat, s3: Group.State, s4: Group.State)
    requires Loggable(g, d, d', bs) && k < |bs|
    requires s3 == Carried(d, d', bs, k).(cache := CacheOf(d', bs, k + 1), held := map[bs[k] := 0], touched := {bs[k]})
    requires s4 == Carried(d, d', bs, k + 1).(held := map[bs[k] := 0])
    ensures Group.NextStep(g, Group.WithCall(s3, 0, bs[k], 3), s4, Group.LogAppendStep(0))
  {
    NextCache(d', bs, k);
    Group.NextBlock(bs, k);
    assert s3.touched - {bs[k]} == {} && s3.ops[0 := Group.Open(k + 1)] == s4.ops;
    assert Group.WithCall(s3, 0, bs[k], 3).calls - {0} == map[];
  }

  // ... and given back.
  lemma CarryRelease(g: Redo.Layout, d: Redo.Disk, d': Redo.Disk, bs: seq<nat>, k: nat, s3: Group.State,
                     run: seq<Group.State>, steps: seq<Group.Step>)
    returns (run': seq<Group.State>, steps': seq<Group.Step>)
    requires Loggable(g, d, d', bs) && k < |bs| && Carries(g, run, steps, s3)
    requires s3 == Carried(d, d', bs, k).(cache := CacheOf(d', bs, k + 1), held := map[bs[k] := 0], touched := {bs[k]})
    ensures Carries(g, run', steps', Carried(d, d', bs, k + 1))
  {
    var b := bs[k];
    var s5 := Carried(d, d', bs, k + 1);
    var s4 := s5.(held := map[b := 0]);
    run', steps' := CarryCall(g, s3, b, 3, run, steps);
    CarryLog(g, d, d', bs, k, s3, s4);
    Carry(g, run', steps', Group.WithCall(s3, 0, b, 3), s4, Group.LogAppendStep(0));
    run', steps' := run' + [s4], steps' + [Group.LogAppendStep(0)];
    assert s4.held - {b} == map[];
    assert Group.NextStep(g, s4, s5, Group.ReleaseStep(0, b));
    Carry(g, run', steps', s4, s5, Group.ReleaseStep(0, b));
    run', steps' := run' + [s5], steps' + [Group.ReleaseStep(0, b)];
  }

  lemma {:induction false} CarryAll(g: Redo.Layout, d: Redo.Disk, d': Redo.Disk, bs: seq<nat>, k: nat)
    returns (run: seq<Group.State>, steps: seq<Group.Step>)
    requires Loggable(g, d, d', bs) && k <= |bs|
    ensures Carries(g, run, steps, Carried(d, d', bs, k))
    decreases k
  {
    if k == 0 {
      var s0 := Group.State(d, map[], {}, map[], {}, [], 0, Group.Normal, [Group.Idle], map[]);
      assert s0.ops == seq(1, i => Group.Idle);
      assert Group.NextStep(g, s0, Carried(d, d', bs, 0), Group.BeginOpStep(0));
      run, steps := [s0, Carried(d, d', bs, 0)], [Group.BeginOpStep(0)];
    } else {
      run, steps := CarryAll(g, d, d', bs, k - 1);
      var s2, s3;
      s2, run, steps := CarryTake(g, d, d', bs, k - 1, run, steps);
      s3, run, steps := CarryModify(g, d, d', bs, k - 1, s2, run, steps);
      run, steps := CarryRelease(g, d, d', bs, k - 1, s3, run, steps);
    }
  }

  lemma StartShows(g: Redo.Layout, s: Group.State)
    requires Group.Init(g, s, 1)
    ensures Seen(g, s) == Saved(g, s) == Shown(g, s.disk)
  {
    Group.EmptyLog(g, s.disk);
    forall b: nat | b < g.nblocks ensures Seen(g, s)[b] == Shown(g, s.disk)[b] == Saved(g, s)[b] {}
  }

  lemma EndShows(g: Redo.Layout, d: Redo.Disk, d': Redo.Disk, bs: seq<nat>)
    requires Loggable(g, d, d', bs)
    ensures Seen(g, Carried(d, d', bs, |bs|)) == Shown(g, d')
  {
    var s := Carried(d, d', bs, |bs|);
    forall b: nat | b < g.nblocks ensures Seen(g, s)[b] == Shown(g, d')[b] {
      assert b in Group.Upto(bs, |bs|) <==> b in bs;
    }
  }

  // Any change that fits in the log is carried from one disk to the other by one operation.
  lemma EveryWriteRuns(g: Redo.Layout, d: Redo.Disk, d': Redo.Disk, bs: seq<nat>) returns (t: Span)
    requires Loggable(g, d, d', bs)
    ensures Logged(g, (x: seq<Block>) => x, t, t.e)
    ensures Seen(g, t.run[t.a]) == Shown(g, d) && Seen(g, t.run[t.e]) == Shown(g, d')
  {
    var run, steps := CarryAll(g, d, d', bs, |bs|);
    t := Span(run, steps, 1, 0, 0, 0, |run| - 1);
    StartShows(g, run[0]);
    EndShows(g, d, d', bs);
  }

  // ------------------------------------------------ how many blocks writei logs

  // Bitmap blocks, the inode block, and the data and indirect blocks of the range.
  function BlockBound(sb: Sb, off: nat, n: nat): nat
    requires 0 < sb.size
  {
    (sb.size - 1) / BITS + 2 + (EndBlock(off, n) - off / BSIZE) + Groups(off / BSIZE, EndBlock(off, n))
  }

  // The indirect blocks that map entries n0 to n1.
  function Groups(n0: nat, n1: nat): nat {
    if n0 < n1 then (n1 - 1) / NINDIRECT - n0 / NINDIRECT + 1 else 0
  }

  function Blocks(lo: nat, k: nat): (r: set<nat>)
    ensures |r| <= k && forall b: nat :: b in r <==> lo <= b < lo + k
  {
    if k == 0 then {} else Blocks(lo, k - 1) + {lo + k - 1}
  }

  ghost function DataBlocks(fs: Fs, i: nat, n0: nat, k: nat): (r: set<nat>)
    requires Formed(fs)
    ensures |r| <= k && forall n: nat | n0 <= n < n0 + k :: Ptr(fs, Dat(i, n)) in r
  {
    if k == 0 then {} else DataBlocks(fs, i, n0, k - 1) + {Ptr(fs, Dat(i, n0 + k - 1))}
  }

  ghost function IndirectBlocks(fs: Fs, i: nat, j0: nat, k: nat): (r: set<nat>)
    requires Formed(fs)
    ensures |r| <= k && forall j: nat | j0 <= j < j0 + k :: Ptr(fs, Ind(i, j)) in r
  {
    if k == 0 then {} else IndirectBlocks(fs, i, j0, k - 1) + {Ptr(fs, Ind(i, j0 + k - 1))}
  }

  ghost function Changed(d: seq<Block>, d': seq<Block>): set<nat>
    requires |d'| == |d|
  {
    set b: nat | b < |d| && d'[b] != d[b]
  }

  // All the blocks that a write may change.
  ghost function MayChange(sb: Sb, fs: Fs, i: nat, off: nat, n: nat): set<nat>
    requires Formed(fs) && 0 < sb.size
  {
    Blocks(sb.bmapstart, (sb.size - 1) / BITS + 1) + {sb.inodestart + i / IPB} +
    DataBlocks(fs, i, off / BSIZE, EndBlock(off, n) - off / BSIZE) +
    IndirectBlocks(fs, i, off / BSIZE / NINDIRECT, Groups(off / BSIZE, EndBlock(off, n)))
  }

  lemma RangeInMay(sb: Sb, fs: Fs, i: nat, off: nat, n: nat, b: nat)
    requires Formed(fs) && 0 < sb.size && InRange(fs, i, off / BSIZE, EndBlock(off, n), b)
    ensures b in MayChange(sb, fs, i, off, n)
  {
    var n0, n1 := off / BSIZE, EndBlock(off, n);
    var e: nat :| n0 <= e < n1 && PointsTo(fs, i, e, b);
    assert n0 / NINDIRECT <= e / NINDIRECT <= (n1 - 1) / NINDIRECT;
    assert Ptr(fs, Dat(i, e)) in DataBlocks(fs, i, n0, n1 - n0);
    assert Ptr(fs, Ind(i, e / NINDIRECT)) in IndirectBlocks(fs, i, n0 / NINDIRECT, Groups(n0, n1));
  }

  // A write changes no more blocks than its range needs.
  lemma WriteBound(sb: Sb, fs: Fs, fs': Fs, i: nat, off: nat, n: nat)
    requires Formed(fs) && Formed(fs') && ValidSb(sb, |fs.ino|) && |fs.disk| == |fs'.disk| == sb.size && i < |fs.ino|
    requires Touches(sb, fs, fs', i, off, n)
    ensures |Changed(fs.disk, fs'.disk)| <= BlockBound(sb, off, n)
  {
    var may := MayChange(sb, fs', i, off, n);
    forall b | b in Changed(fs.disk, fs'.disk) ensures b in may {
      if InRange(fs', i, off / BSIZE, EndBlock(off, n), b) { RangeInMay(sb, fs', i, off, n, b); }
    }
    Log.Subset(Changed(fs.disk, fs'.disk), may);
    MayCount(sb, fs', i, off, n);
  }

  lemma MayCount(sb: Sb, fs: Fs, i: nat, off: nat, n: nat)
    requires Formed(fs) && 0 < sb.size
    ensures |MayChange(sb, fs, i, off, n)| <= BlockBound(sb, off, n)
  {
    var k, g := EndBlock(off, n) - off / BSIZE, Groups(off / BSIZE, EndBlock(off, n));
    var bits := Blocks(sb.bmapstart, (sb.size - 1) / BITS + 1);
    var data, ind := DataBlocks(fs, i, off / BSIZE, k), IndirectBlocks(fs, i, off / BSIZE / NINDIRECT, g);
    UnionCount(bits, {sb.inodestart + i / IPB});
    UnionCount(bits + {sb.inodestart + i / IPB}, data);
    UnionCount(bits + {sb.inodestart + i / IPB} + data, ind);
  }

  lemma UnionCount(a: set<nat>, b: set<nat>)
    ensures |a + b| <= |a| + |b|
  {
    assert a + b == a + (b - a);
    assert |a + (b - a)| == |a| + |b - a|;
    Log.Subset(b - a, b);
  }

  // One chunk of filewrite logs at most 17 blocks besides those of the bitmap.
  lemma ChunkBound(sb: Sb, off: nat, n: nat)
    requires 0 < sb.size && n <= Group.FILECHUNK * BSIZE
    ensures BlockBound(sb, off, n) <= 17 + (sb.size - 1) / BITS + 1
  {
    var n0, n1 := off / BSIZE, EndBlock(off, n);
    assert n1 <= n0 + 14;
    if n0 < n1 { assert (n1 - 1) / NINDIRECT <= n0 / NINDIRECT + 1; }
  }

  // ------------------------------------------------- a run for every writei

  predicate Octets(blk: Block) {
    IsBlock(blk) && forall j | 0 <= j < BSIZE :: blk[j] < 0x100
  }

  // The words of a block of bytes.
  function Pack(blk: Block): (r: Redo.Block)
    requires Octets(blk)
  {
    seq<nat>(Redo.BLOCK_WORDS, i requires 0 <= i < Redo.BLOCK_WORDS => Word(blk, i))
  }

  lemma PackView(blk: Block)
    requires Octets(blk)
    ensures View(Pack(blk)) == blk
  {
    forall j: nat | j < BSIZE ensures View(Pack(blk))[j] == blk[j] {
      var i := j / 4;
      WordOctets(blk[4 * i], blk[4 * i + 1], blk[4 * i + 2], blk[4 * i + 3]);
    }
  }

  lemma WordOctets(b0: nat, b1: nat, b2: nat, b3: nat)
    requires b0 < 0x100 && b1 < 0x100 && b2 < 0x100 && b3 < 0x100
    ensures var w := b0 + 0x100 * b1 + 0x1_0000 * b2 + 0x100_0000 * b3;
            Octet(w, 0) == b0 && Octet(w, 1) == b1 && Octet(w, 2) == b2 && Octet(w, 3) == b3
  {
    var w := b0 + 0x100 * b1 + 0x1_0000 * b2 + 0x100_0000 * b3;
    assert w / 0x100 == b1 + 0x100 * b2 + 0x1_0000 * b3;
    assert w / 0x100 / 0x100 == b2 + 0x100 * b3;
    assert Octet(w, 2) == Octet(w / 0x100, 1) == Octet(w / 0x100 / 0x100, 0);
    assert Octet(w, 3) == Octet(w / 0x100, 2) == Octet(w / 0x100 / 0x100, 1) == Octet(b3, 0);
  }

  lemma {:induction false} ListOf(s: set<nat>) returns (bs: seq<nat>)
    ensures Redo.Distinct(bs) && |bs| == |s| && forall b :: b in bs <==> b in s
  {
    if s == {} {
      bs := [];
    } else {
      var x :| x in s;
      bs := ListOf(s - {x});
      bs := bs + [x];
    }
  }

  // The disk with the given blocks as in fs'.
  ghost function Rewritten(d: Redo.Disk, e: seq<Block>, s: set<nat>): (r: Redo.Disk)
    requires |e| == |d| && forall b: nat | b in s && b < |d| :: Octets(e[b])
    ensures |r| == |d|
  {
    seq<Redo.Block>(|d|, b requires 0 <= b < |d| => if b in s then Pack(e[b]) else d[b])
  }

  // The blocks that writei changes are home blocks.
  lemma ChangedHome(v: Volume, fs: Fs, fs': Fs, own': map<nat, Slot>, x: nat, off: nat, n: nat, b: nat)
    requires ValidVolume(v) && Formed(fs) && Inv(v.sb, fs', own') && x < |fs.ino| == |fs'.ino| == v.ninodes
    requires |fs.disk| == |fs'.disk| && Touches(v.sb, fs, fs', x, off, n) && b in Changed(fs.disk, fs'.disk)
    ensures Redo.Home(v.g, b)
  {
    if InRange(fs', x, off / BSIZE, EndBlock(off, n), b) {
      var e: nat :| PointsTo(fs', x, e, b);
      assert b in own';
    }
  }

  lemma AllHome(v: Volume, fs: Fs, fs': Fs, own': map<nat, Slot>, x: nat, off: nat, n: nat)
    requires ValidVolume(v) && Formed(fs) && Inv(v.sb, fs', own') && x < |fs.ino| == |fs'.ino| == v.ninodes
    requires |fs.disk| == |fs'.disk| && Touches(v.sb, fs, fs', x, off, n)
    ensures forall b | b in Changed(fs.disk, fs'.disk) :: Redo.Home(v.g, b)
  {
    forall b | b in Changed(fs.disk, fs'.disk) ensures Redo.Home(v.g, b) {
      ChangedHome(v, fs, fs', own', x, off, n, b);
    }
  }

  lemma RewrittenShown(g: Redo.Layout, d: Redo.Disk, e: seq<Block>, e': seq<Block>, s: set<nat>, d': Redo.Disk)
    requires |d| == g.nblocks == |e'| && e == Shown(g, d) && s == Changed(e, e')
    requires (forall b | b in s :: Redo.Home(g, b)) && forall b: nat | b < |e'| :: Octets(e'[b])
    requires d' == Rewritten(d, e', s)
    ensures Shown(g, d') == e' && forall b: nat | b < |d| && b !in s :: d'[b] == d[b]
  {
    forall b: nat | b < |d| ensures Shown(g, d')[b] == e'[b] {
      if b in s {
        PackView(e'[b]);
      } else {
        assert e'[b] == e[b];
      }
    }
  }

  // Blocks e, of which at most so many as fit in the log are new, become the blocks e'.
  lemma ChangeRuns(g: Redo.Layout, d: Redo.Disk, e: seq<Block>, e': seq<Block>) returns (t: Span)
    requires Redo.LogOk(g, d) && Redo.Head(d[g.start]) == [] && e == Shown(g, d) && |e'| == |e|
    requires forall b: nat | b < |e'| :: Octets(e'[b])
    requires forall b | b in Changed(e, e') :: Redo.Home(g, b)
    requires |Changed(e, e')| <= Redo.LOGSIZE && |Changed(e, e')| < g.size
    ensures Logged(g, (d: seq<Block>) => d, t, t.e)
    ensures Seen(g, t.run[t.a]) == e && Seen(g, t.run[t.e]) == e'
  {
    var s := Changed(e, e');
    var bs := ListOf(s);
    var d' := Rewritten(d, e', s);
    RewrittenShown(g, d, e, e', s, d');
    t := EveryWriteRuns(g, d, d', bs);
  }

  // Whatever writei does to a disk with an empty log, if it fits in the log one operation carries it out.
  lemma WriteRuns(v: Volume, d: Redo.Disk, fs: Fs, fs': Fs, own': map<nat, Slot>, x: nat, off: nat, n: nat)
    returns (t: Span)
    requires ValidVolume(v) && Redo.LogOk(v.g, d) && Redo.Head(d[v.g.start]) == [] && fs.disk == Shown(v.g, d)
    requires Formed(fs) && Inv(v.sb, fs', own') && x < |fs.ino| == |fs'.ino| == v.ninodes
    requires Touches(v.sb, fs, fs', x, off, n) && forall b: nat | b < |fs'.disk| :: Octets(fs'.disk[b])
    requires BlockBound(v.sb, off, n) <= Redo.LOGSIZE && BlockBound(v.sb, off, n) < v.g.size
    ensures Logged(v.g, (d: seq<Block>) => d, t, t.e)
    ensures Seen(v.g, t.run[t.a]) == fs.disk && Seen(v.g, t.run[t.e]) == fs'.disk
  {
    WriteBound(v.sb, fs, fs', x, off, n);
    AllHome(v, fs, fs', own', x, off, n);
    t := ChangeRuns(v.g, d, fs.disk, fs'.disk);
  }
}
