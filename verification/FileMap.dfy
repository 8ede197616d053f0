/**
 The on-disk structure of fs.c: a bitmap of used blocks and, per inode, twelve
 indirect blocks of 128 data-block pointers each.  `disk` is the contents of the
 blocks as the file system sees them through the log and the buffer cache.
 */
module FileMap {
  import opened BlockCodec

  const NDIRECT := 12
  const NINDIRECT := WORDS
  const MAXFILE := NINDIRECT * NDIRECT
  const IPB := 8               // inodes per block
  const DINODE_WORDS := 16     // words per on-disk inode; word 3 is the size, words 4..15 the addresses

  // Blocks below dstart hold the boot block, super block, log, inodes and bitmap.
  datatype Sb = Sb(size: nat, inodestart: nat, bmapstart: nat, dstart: nat)
  datatype Inode = Inode(size: nat, addrs: seq<nat>)
  datatype Fs = Fs(disk: seq<Block>, ino: seq<Inode>)

  ghost predicate ValidSb(sb: Sb, ninodes: nat) {
    && 0 < sb.size < 0x8000_0000
    && sb.inodestart + ninodes / IPB < sb.bmapstart
    && sb.bmapstart + (sb.size - 1) / BITS < sb.dstart <= sb.size
  }

  predicate Used(sb: Sb, d: seq<Block>, b: nat)
    requires b < sb.size && sb.bmapstart + (sb.size - 1) / BITS < |d| && IsBlock(d[sb.bmapstart + b / BITS])
  {
    Bit(d[sb.bmapstart + b / BITS], b % BITS)
  }

  // A place where a block number is stored: an inode's address j, or entry n of its block map.
  datatype Slot = Ind(i: nat, j: nat) | Dat(i: nat, n: nat)

  function Ptr(fs: Fs, s: Slot): nat
    requires Formed(fs)
  {
    match s
    case Ind(i, j) => if i < |fs.ino| && j < NDIRECT then fs.ino[i].addrs[j] else 0
    case Dat(i, n) =>
      if i < |fs.ino| && n < MAXFILE then Entry(fs.disk, fs.ino[i].addrs[n / NINDIRECT], n % NINDIRECT) else 0
  }

  // Entry k of the indirect block a; nothing is mapped through a missing indirect block.
  function Entry(d: seq<Block>, a: nat, k: nat): nat
    requires k < NINDIRECT && forall b | 0 <= b < |d| :: IsBlock(d[b])
  {
    if a == 0 || a >= |d| then 0 else Word(d[a], k)
  }

  ghost predicate Formed(fs: Fs) {
    && (forall b | 0 <= b < |fs.disk| :: IsBlock(fs.disk[b]))
    && (forall i | 0 <= i < |fs.ino| :: |fs.ino[i].addrs| == NDIRECT)
  }

  // `own` names, for each block in use by a file, the one slot that points to it.
  ghost predicate Owned(sb: Sb, fs: Fs, own: map<nat, Slot>)
    requires Formed(fs) && ValidSb(sb, |fs.ino|) && |fs.disk| == sb.size
  {
    && (forall s :: Ptr(fs, s) != 0 ==> Ptr(fs, s) in own && own[Ptr(fs, s)] == s)
    && (forall b | b in own :: sb.dstart <= b < sb.size && Ptr(fs, own[b]) == b && Used(sb, fs.disk, b))
    && (forall b: nat | b < sb.dstart :: Used(sb, fs.disk, b))
  }

  // Every block below a file's size is mapped.
  ghost predicate Mapped(fs: Fs)
    requires Formed(fs)
  {
    forall i: nat, n: nat | i < |fs.ino| :: Covered(fs, i, n)
  }

  ghost predicate Covered(fs: Fs, i: nat, n: nat)
    requires Formed(fs) && i < |fs.ino|
  {
    n * BSIZE < fs.ino[i].size ==> n < MAXFILE && Ptr(fs, Dat(i, n)) != 0
  }

  ghost predicate Inv(sb: Sb, fs: Fs, own: map<nat, Slot>) {
    && Formed(fs) && ValidSb(sb, |fs.ino|) && |fs.disk| == sb.size
    && Owned(sb, fs, own) && Mapped(fs)
  }

  // A new file system, with empty inodes and only the blocks below dstart in use.
  lemma EmptyInv(sb: Sb, fs: Fs)
    requires Formed(fs) && ValidSb(sb, |fs.ino|) && |fs.disk| == sb.size
    requires forall i | 0 <= i < |fs.ino| ::
      fs.ino[i].size == 0 && forall j | 0 <= j < NDIRECT :: fs.ino[i].addrs[j] == 0
    requires forall b: nat | b < sb.size :: Used(sb, fs.disk, b) <==> b < sb.dstart
    ensures Inv(sb, fs, map[])
  {
    forall s ensures Ptr(fs, s) == 0 {}
  }

  // ------------------------------------------------------------ contents

  // Byte o of file i.
  function Byte(fs: Fs, i: nat, o: nat): nat
    requires Formed(fs)
  {
    var b := Ptr(fs, Dat(i, o / BSIZE));
    if b < |fs.disk| then fs.disk[b][o % BSIZE] else 0
  }

  function Bytes(fs: Fs, i: nat): (r: seq<nat>)
    requires Formed(fs) && i < |fs.ino|
    ensures |r| == fs.ino[i].size
  {
    seq(fs.ino[i].size, o requires 0 <= o => Byte(fs, i, o))
  }

  // ------------------------------------------------------- pointer updates

  // fs2 has the same pointers as fs1, plus pointer b in slot s.
  ghost predicate Adds(fs1: Fs, fs2: Fs, s: Slot, b: nat)
    requires Formed(fs1) && Formed(fs2)
  {
    Ptr(fs2, s) == b && forall t | t != s :: Ptr(fs2, t) == Ptr(fs1, t)
  }

  ghost predicate SameUsed(sb: Sb, fs1: Fs, fs2: Fs)
    requires Formed(fs1) && Formed(fs2) && ValidSb(sb, |fs1.ino|) && |fs1.disk| == |fs2.disk| == sb.size
  {
    forall b: nat | b < sb.size :: Used(sb, fs2.disk, b) == Used(sb, fs1.disk, b)
  }

  // A new pointer to a used block that nobody owned.
  lemma AddOwner(sb: Sb, fs1: Fs, fs2: Fs, own: map<nat, Slot>, s: Slot, b: nat)
    requires Formed(fs1) && Formed(fs2) && ValidSb(sb, |fs1.ino|) && |fs2.ino| == |fs1.ino|
    requires |fs1.disk| == |fs2.disk| == sb.size
    requires Owned(sb, fs1, own) && SameUsed(sb, fs1, fs2)
    requires Adds(fs1, fs2, s, b) && Ptr(fs1, s) == 0 && b !in own && sb.dstart <= b < sb.size && Used(sb, fs1.disk, b)
    ensures Owned(sb, fs2, own[b := s])
  {
    forall t ensures Ptr(fs2, t) != 0 ==> Ptr(fs2, t) in own[b := s] && own[b := s][Ptr(fs2, t)] == t {
      if t != s { assert Ptr(fs2, t) == Ptr(fs1, t); }
    }
    var own' := own[b := s];
    forall c | c in own' ensures Ptr(fs2, own'[c]) == c {
      if c != b { assert Ptr(fs1, own[c]) == c; }
    }
  }

  // Pointers and bitmap unchanged: ownership unchanged.
  lemma SameOwner(sb: Sb, fs1: Fs, fs2: Fs, own: map<nat, Slot>)
    requires Formed(fs1) && Formed(fs2) && ValidSb(sb, |fs1.ino|) && |fs2.ino| == |fs1.ino|
    requires |fs1.disk| == |fs2.disk| == sb.size
    requires Owned(sb, fs1, own) && SameUsed(sb, fs1, fs2) && forall t :: Ptr(fs2, t) == Ptr(fs1, t)
    ensures Owned(sb, fs2, own)
  {
  }

  // ------------------------------------------------------- block updates

  // Block x is not an indirect block of any file.
  ghost predicate NotIndirect(fs: Fs, x: nat)
    requires Formed(fs)
  {
    forall i, j | 0 <= i < |fs.ino| && 0 <= j < NDIRECT && fs.ino[i].addrs[j] == x :: x == 0
  }

  lemma NotIndirectIf(sb: Sb, fs: Fs, own: map<nat, Slot>, x: nat)
    requires Inv(sb, fs, own) && (x !in own || own[x].Dat?)
    ensures NotIndirect(fs, x)
  {
    forall i, j | 0 <= i < |fs.ino| && 0 <= j < NDIRECT && fs.ino[i].addrs[j] == x ensures x == 0 {
      assert Ptr(fs, Ind(i, j)) == x;
    }
  }

  function Written(fs: Fs, x: nat, data: Block): Fs
    requires x < |fs.disk|
  {
    fs.(disk := fs.disk[x := data])
  }

  lemma WrittenPtrs(fs: Fs, x: nat, data: Block)
    requires Formed(fs) && x < |fs.disk| && IsBlock(data) && NotIndirect(fs, x)
    ensures Formed(Written(fs, x, data)) && forall s :: Ptr(Written(fs, x, data), s) == Ptr(fs, s)
  {
  }

  // A file-system state with every mapped block still mapped, and still holding the same bytes.
  ghost predicate Kept(fs1: Fs, fs2: Fs)
    requires Formed(fs1) && Formed(fs2)
  {
    && |fs2.ino| == |fs1.ino| && |fs2.disk| == |fs1.disk|
    && (forall i | 0 <= i < |fs1.ino| :: fs2.ino[i].size == fs1.ino[i].size)
    && (forall s :: Ptr(fs1, s) != 0 ==> Ptr(fs2, s) == Ptr(fs1, s))
    && (forall i, n :: KeptBlock(fs1, fs2, i, n))
  }

  ghost predicate KeptBlock(fs1: Fs, fs2: Fs, i: nat, n: nat)
    requires Formed(fs1) && Formed(fs2)
  {
    var b := Ptr(fs1, Dat(i, n));
    0 < b < |fs1.disk| && b < |fs2.disk| ==> fs2.disk[b] == fs1.disk[b]
  }

  lemma KeptBytes(sb: Sb, fs1: Fs, fs2: Fs, own: map<nat, Slot>, i: nat)
    requires Inv(sb, fs1, own) && Formed(fs2) && Kept(fs1, fs2) && i < |fs1.ino|
    ensures Bytes(fs2, i) == Bytes(fs1, i)
  {
    forall o: nat | o < fs1.ino[i].size ensures Byte(fs2, i, o) == Byte(fs1, i, o) {
      assert Covered(fs1, i, o / BSIZE);
      assert KeptBlock(fs1, fs2, i, o / BSIZE);
    }
  }

  lemma KeptMapped(fs1: Fs, fs2: Fs)
    requires Formed(fs1) && Formed(fs2) && Mapped(fs1) && Kept(fs1, fs2)
    ensures Mapped(fs2)
  {
    forall i: nat, n: nat | i < |fs2.ino| ensures Covered(fs2, i, n) {
      assert Covered(fs1, i, n);
    }
  }

  lemma KeptTrans(fs1: Fs, fs2: Fs, fs3: Fs)
    requires Formed(fs1) && Formed(fs2) && Formed(fs3) && Kept(fs1, fs2) && Kept(fs2, fs3)
    ensures Kept(fs1, fs3)
  {
    forall i, n ensures KeptBlock(fs1, fs3, i, n) {
      assert KeptBlock(fs1, fs2, i, n) && KeptBlock(fs2, fs3, i, n);
    }
  }

  // ---------------------------------------------------------- allocation

  // Block b marked used and cleared.
  function Allocated(sb: Sb, fs: Fs, b: nat): Fs
    requires b < sb.size == |fs.disk| && sb.bmapstart + (sb.size - 1) / BITS < |fs.disk|
    requires IsBlock(fs.disk[sb.bmapstart + b / BITS])
  {
    var m := sb.bmapstart + b / BITS;
    Written(Written(fs, m, SetBit(fs.disk[m], b % BITS)), b, Zeros())
  }

  lemma MarkUsed(sb: Sb, fs: Fs, b: nat, c: nat)
    requires Formed(fs) && ValidSb(sb, |fs.ino|) && |fs.disk| == sb.size && b < sb.size && c < sb.size
    requires sb.dstart <= b
    ensures Formed(Allocated(sb, fs, b))
    ensures Used(sb, Allocated(sb, fs, b).disk, c) == (c == b || Used(sb, fs.disk, c))
  {
    SetBitBits(fs.disk[sb.bmapstart + b / BITS], b % BITS, c % BITS);
    assert b == c <==> b / BITS == c / BITS && b % BITS == c % BITS;
  }

  lemma AllocPtrs(sb: Sb, fs: Fs, own: map<nat, Slot>, b: nat)
    requires Inv(sb, fs, own) && b < sb.size && !Used(sb, fs.disk, b)
    ensures sb.dstart <= b && b !in own
    ensures Formed(Allocated(sb, fs, b)) && forall s :: Ptr(Allocated(sb, fs, b), s) == Ptr(fs, s)
  {
    var m := sb.bmapstart + b / BITS;
    var fs1 := Written(fs, m, SetBit(fs.disk[m], b % BITS));
    NotIndirectIf(sb, fs, own, m);
    WrittenPtrs(fs, m, SetBit(fs.disk[m], b % BITS));
    NotIndirectIf(sb, fs, own, b);
    WrittenPtrs(fs1, b, Zeros());
  }

  lemma AllocKept(sb: Sb, fs: Fs, own: map<nat, Slot>, b: nat)
    requires Inv(sb, fs, own) && b < sb.size && !Used(sb, fs.disk, b)
    ensures Formed(Allocated(sb, fs, b)) && Kept(fs, Allocated(sb, fs, b))
  {
    var fs2 := Allocated(sb, fs, b);
    AllocPtrs(sb, fs, own, b);
    forall i, n ensures KeptBlock(fs, fs2, i, n) {
      var p := Ptr(fs, Dat(i, n));
      if p != 0 { assert p in own; }
    }
  }

  // Allocation keeps every file, and leaves the new block used, clear and unowned.
  lemma AllocKeeps(sb: Sb, fs: Fs, own: map<nat, Slot>, b: nat)
    requires Inv(sb, fs, own) && b < sb.size && !Used(sb, fs.disk, b)
    ensures sb.dstart <= b && b !in own && Inv(sb, Allocated(sb, fs, b), own) && Kept(fs, Allocated(sb, fs, b))
    ensures Used(sb, Allocated(sb, fs, b).disk, b) && Allocated(sb, fs, b).disk[b] == Zeros()
  {
    var fs2 := Allocated(sb, fs, b);
    AllocPtrs(sb, fs, own, b);
    AllocKept(sb, fs, own, b);
    KeptMapped(fs, fs2);
    forall c: nat | c < sb.size ensures Used(sb, fs2.disk, c) == (c == b || Used(sb, fs.disk, c)) {
      MarkUsed(sb, fs, b, c);
    }
  }

  // The number of clear bits among the first n of the bitmap.
  ghost function Clear(sb: Sb, fs: Fs, n: nat): (r: nat)
    requires Formed(fs) && ValidSb(sb, |fs.ino|) && |fs.disk| == sb.size && n <= sb.size
  {
    if n == 0 then 0 else Clear(sb, fs, n - 1) + if Used(sb, fs.disk, n - 1) then 0 else 1
  }

  ghost function FreeBlocks(sb: Sb, fs: Fs): nat
    requires Formed(fs) && ValidSb(sb, |fs.ino|) && |fs.disk| == sb.size
  {
    Clear(sb, fs, sb.size)
  }

  lemma {:induction false} ClearNone(sb: Sb, fs: Fs, n: nat)
    requires Formed(fs) && ValidSb(sb, |fs.ino|) && |fs.disk| == sb.size && n <= sb.size
    ensures Clear(sb, fs, n) == 0 <==> forall b: nat | b < n :: Used(sb, fs.disk, b)
  {
    if n > 0 {
      ClearNone(sb, fs, n - 1);
    }
  }

  lemma {:induction false} ClearSame(sb: Sb, fs1: Fs, fs2: Fs, n: nat)
    requires Formed(fs1) && Formed(fs2) && ValidSb(sb, |fs1.ino|) && |fs2.ino| == |fs1.ino|
    requires |fs1.disk| == |fs2.disk| == sb.size && n <= sb.size
    requires forall b: nat | b < n :: Used(sb, fs2.disk, b) == Used(sb, fs1.disk, b)
    ensures Clear(sb, fs2, n) == Clear(sb, fs1, n)
  {
    if n > 0 {
      ClearSame(sb, fs1, fs2, n - 1);
      assert Used(sb, fs2.disk, n - 1) == Used(sb, fs1.disk, n - 1);
    }
  }

  lemma SameFree(sb: Sb, fs1: Fs, fs2: Fs)
    requires Formed(fs1) && Formed(fs2) && ValidSb(sb, |fs1.ino|) && |fs2.ino| == |fs1.ino|
    requires |fs1.disk| == |fs2.disk| == sb.size && SameUsed(sb, fs1, fs2)
    ensures FreeBlocks(sb, fs2) == FreeBlocks(sb, fs1)
  {
    ClearSame(sb, fs1, fs2, sb.size);
  }

  lemma {:induction false} ClearLess(sb: Sb, fs1: Fs, fs2: Fs, b: nat, n: nat)
    requires Formed(fs1) && Formed(fs2) && ValidSb(sb, |fs1.ino|) && |fs2.ino| == |fs1.ino|
    requires |fs1.disk| == |fs2.disk| == sb.size && b < sb.size && n <= sb.size && !Used(sb, fs1.disk, b)
    requires forall c: nat | c < sb.size :: Used(sb, fs2.disk, c) == (c == b || Used(sb, fs1.disk, c))
    ensures Clear(sb, fs2, n) == Clear(sb, fs1, n) - if b < n then 1 else 0
  {
    if n > 0 {
      ClearLess(sb, fs1, fs2, b, n - 1);
      assert Used(sb, fs2.disk, n - 1) == (n - 1 == b || Used(sb, fs1.disk, n - 1));
    }
  }

  lemma AllocFree(sb: Sb, fs: Fs, b: nat)
    requires Formed(fs) && ValidSb(sb, |fs.ino|) && |fs.disk| == sb.size
    requires sb.dstart <= b < sb.size && !Used(sb, fs.disk, b)
    ensures Formed(Allocated(sb, fs, b)) && FreeBlocks(sb, Allocated(sb, fs, b)) == FreeBlocks(sb, fs) - 1
  {
    var fs2 := Allocated(sb, fs, b);
    MarkUsed(sb, fs, b, b);
    forall c: nat | c < sb.size ensures Used(sb, fs2.disk, c) == (c == b || Used(sb, fs.disk, c)) {
      MarkUsed(sb, fs, b, c);
    }
    ClearLess(sb, fs, fs2, b, sb.size);
  }

  // ------------------------------------------------------ what a write needs

  function Hole(fs: Fs, s: Slot): nat
    requires Formed(fs)
  {
    if Ptr(fs, s) == 0 then 1 else 0
  }

  // The number of blocks that bmap has to allocate for entry n of file i: its own, and its
  // indirect block.
  function Need(fs: Fs, i: nat, n: nat): nat
    requires Formed(fs)
  {
    Hole(fs, Ind(i, n / NINDIRECT)) + Hole(fs, Dat(i, n))
  }

  // The same for entries n to m, each indirect block counted once.
  function NeedAll(fs: Fs, i: nat, n: nat, m: nat): nat
    requires Formed(fs)
    decreases m
  {
    if m <= n then 0 else NeedAll(fs, i, n, m - 1) + NeedMore(fs, i, n, m - 1)
  }

  // What entry x adds to the entries n to x.
  function NeedMore(fs: Fs, i: nat, n: nat, x: nat): nat
    requires Formed(fs)
  {
    if x == n || x % NINDIRECT == 0 then Need(fs, i, x) else Hole(fs, Dat(i, x))
  }

  // Only the pointers on the way to entry n of file i may differ.
  ghost predicate Fills(fs: Fs, fs': Fs, i: nat, n: nat)
    requires Formed(fs) && Formed(fs')
  {
    forall s {:trigger Ptr(fs', s)} | s != Ind(i, n / NINDIRECT) && s != Dat(i, n) :: Ptr(fs', s) == Ptr(fs, s)
  }

  // Mapping entry n fills exactly the holes that it needed.
  lemma NeedStep(fs: Fs, fs': Fs, i: nat, n: nat, m: nat)
    requires Formed(fs) && Formed(fs') && n < m && Fills(fs, fs', i, n) && Ptr(fs', Ind(i, n / NINDIRECT)) != 0
    ensures NeedAll(fs', i, n + 1, m) == NeedAll(fs, i, n, m) - Need(fs, i, n)
  {
    forall x: nat | n < x < m ensures NeedMore(fs', i, n + 1, x) == NeedMore(fs, i, n, x) {
      MoreSame(fs, fs', i, n, x);
    }
    NeedShift(fs, fs', i, n, m);
  }

  lemma {:induction false} NeedShift(fs: Fs, fs': Fs, i: nat, n: nat, m: nat)
    requires Formed(fs) && Formed(fs') && n < m
    requires forall x: nat | n < x < m :: NeedMore(fs', i, n + 1, x) == NeedMore(fs, i, n, x)
    ensures NeedAll(fs', i, n + 1, m) == NeedAll(fs, i, n, m) - NeedMore(fs, i, n, n)
    decreases m
  {
    if m == n + 1 {
      assert NeedAll(fs, i, n, n) == 0;
    } else {
      NeedShift(fs, fs', i, n, m - 1);
    }
  }

  lemma MoreSame(fs: Fs, fs': Fs, i: nat, n: nat, x: nat)
    requires Formed(fs) && Formed(fs') && n < x && Fills(fs, fs', i, n) && Ptr(fs', Ind(i, n / NINDIRECT)) != 0
    ensures NeedMore(fs', i, n + 1, x) == NeedMore(fs, i, n, x)
  {
    assert Ptr(fs', Dat(i, x)) == Ptr(fs, Dat(i, x));
    if x % NINDIRECT == 0 {
      assert x / NINDIRECT != n / NINDIRECT;
    } else if x == n + 1 {
      assert x / NINDIRECT == n / NINDIRECT;
    }
  }

  lemma {:induction false} NeedFirst(fs: Fs, i: nat, n: nat, m: nat)
    requires Formed(fs) && n < m
    ensures Need(fs, i, n) <= NeedAll(fs, i, n, m)
    decreases m
  {
    if n + 1 < m {
      NeedFirst(fs, i, n, m - 1);
    } else {
      assert NeedAll(fs, i, n, n) == 0;
    }
  }

  // balloc's inner loop: the first clear bit of the bitmap block that starts with block b0.
  method FirstClear(sb: Sb, fs: Fs, b0: nat) returns (b: nat)
    requires Formed(fs) && ValidSb(sb, |fs.ino|) && |fs.disk| == sb.size && b0 % BITS == 0 && b0 < sb.size
    ensures b0 <= b <= b0 + BITS && (b < b0 + BITS && b < sb.size ==> !Used(sb, fs.disk, b))
    ensures b < b0 + BITS ==> b <= sb.size
    ensures forall c: nat | b0 <= c < b && c < sb.size :: Used(sb, fs.disk, c)
  {
    var m := sb.bmapstart + b0 / BITS;
    var bi := 0;
    while bi < BITS && b0 + bi < sb.size
      invariant 0 <= bi <= BITS && (b0 + bi <= sb.size)
      invariant forall c: nat | b0 <= c < b0 + bi && c < sb.size :: Used(sb, fs.disk, c)
    {
      assert (b0 + bi) / BITS == b0 / BITS && (b0 + bi) % BITS == bi;
      if !Bit(fs.disk[m], bi) {
        return b0 + bi;
      }
      bi := bi + 1;
    }
    return b0 + bi;
  }

  // balloc marks block b and then clears it.
  method Claim(sb: Sb, fs: Fs, b: nat) returns (fs': Fs)
    requires Formed(fs) && ValidSb(sb, |fs.ino|) && |fs.disk| == sb.size && b < sb.size
    ensures fs' == Allocated(sb, fs, b)
  {
    var m := sb.bmapstart + b / BITS;
    fs' := Written(fs, m, SetBit(fs.disk[m], b % BITS));
    fs' := Written(fs', b, Zeros());
  }

  // The first n blocks are in use.
  ghost predicate UsedUpTo(sb: Sb, fs: Fs, n: nat)
    requires Formed(fs) && ValidSb(sb, |fs.ino|) && |fs.disk| == sb.size
  {
    forall c: nat | c < n && c < sb.size :: Used(sb, fs.disk, c)
  }

  // balloc's outer loop: the first clear bit of the bitmap, or the number of blocks.
  method FindClear(sb: Sb, fs: Fs) returns (b: nat)
    requires Formed(fs) && ValidSb(sb, |fs.ino|) && |fs.disk| == sb.size
    ensures b <= sb.size && UsedUpTo(sb, fs, b) && (b < sb.size ==> !Used(sb, fs.disk, b))
  {
    var b0 := 0;
    while b0 < sb.size
      invariant b0 % BITS == 0 && UsedUpTo(sb, fs, b0)
    {
      b := FirstClear(sb, fs, b0);
      if b < b0 + BITS && b < sb.size {
        return;
      }
      b0 := b0 + BITS;
    }
    return sb.size;
  }

  // balloc: the first free block, marked and cleared, or 0 if the disk is full.
  method Balloc(sb: Sb, fs: Fs) returns (fs': Fs, b: nat)
    requires Formed(fs) && ValidSb(sb, |fs.ino|) && |fs.disk| == sb.size && Used(sb, fs.disk, 0)
    ensures b == 0 ==> fs' == fs && forall c: nat | c < sb.size :: Used(sb, fs.disk, c)
    ensures b != 0 ==> b < sb.size && !Used(sb, fs.disk, b) && fs' == Allocated(sb, fs, b)
    ensures b != 0 ==> forall c: nat | c < b :: Used(sb, fs.disk, c)
  {
    b := FindClear(sb, fs);
    if b < sb.size {
      fs' := Claim(sb, fs, b);
    } else {
      fs', b := fs, 0;
    }
  }

  // ----------------------------------------------------------------- bmap

  function WithIndirect(fs: Fs, i: nat, j: nat, b: nat): Fs
    requires i < |fs.ino| && j < |fs.ino[i].addrs|
  {
    fs.(ino := fs.ino[i := fs.ino[i].(addrs := fs.ino[i].addrs[j := b])])
  }

  lemma IndirectPtrs(fs: Fs, i: nat, j: nat, b: nat)
    requires Formed(fs) && i < |fs.ino| && j < NDIRECT && fs.ino[i].addrs[j] == 0
    requires b < |fs.disk| && fs.disk[b] == Zeros()
    ensures Formed(WithIndirect(fs, i, j, b)) && Adds(fs, WithIndirect(fs, i, j, b), Ind(i, j), b)
  {
    var fs2 := WithIndirect(fs, i, j, b);
    forall t | t != Ind(i, j) ensures Ptr(fs2, t) == Ptr(fs, t) {
      if t.Dat? && t.i == i && t.n < MAXFILE && t.n / NINDIRECT == j {
        ZeroWords(t.n % NINDIRECT);
      }
    }
  }

  // A fresh block becomes indirect block j of file i.
  lemma LinkIndirect(sb: Sb, fs: Fs, own: map<nat, Slot>, i: nat, j: nat, b: nat)
    requires Inv(sb, fs, own) && i < |fs.ino| && j < NDIRECT && fs.ino[i].addrs[j] == 0
    requires b !in own && sb.dstart <= b < sb.size && Used(sb, fs.disk, b) && fs.disk[b] == Zeros()
    ensures Inv(sb, WithIndirect(fs, i, j, b), own[b := Ind(i, j)]) && Kept(fs, WithIndirect(fs, i, j, b))
  {
    var fs2 := WithIndirect(fs, i, j, b);
    IndirectPtrs(fs, i, j, b);
    AddOwner(sb, fs, fs2, own, Ind(i, j), b);
    forall x, n ensures KeptBlock(fs, fs2, x, n) {}
    KeptMapped(fs, fs2);
  }

  function WithEntry(fs: Fs, a: nat, k: nat, b: nat): Fs
    requires a < |fs.disk| && IsBlock(fs.disk[a]) && k < NINDIRECT && b < 0x1_0000_0000
  {
    Written(fs, a, PutWord(fs.disk[a], k, b))
  }

  lemma EntryPtrs(sb: Sb, fs: Fs, own: map<nat, Slot>, i: nat, n: nat, a: nat, b: nat)
    requires Inv(sb, fs, own) && i < |fs.ino| && n < MAXFILE && a == fs.ino[i].addrs[n / NINDIRECT] != 0
    requires b < sb.size
    ensures a in own && a < |fs.disk| && Formed(WithEntry(fs, a, n % NINDIRECT, b))
    ensures Adds(fs, WithEntry(fs, a, n % NINDIRECT, b), Dat(i, n), b)
  {
    assert Ptr(fs, Ind(i, n / NINDIRECT)) == a;
    var fs2 := WithEntry(fs, a, n % NINDIRECT, b);
    forall t | t != Dat(i, n) ensures Ptr(fs2, t) == Ptr(fs, t) {
      if t.Dat? && t.i < |fs.ino| && t.n < MAXFILE && fs.ino[t.i].addrs[t.n / NINDIRECT] == a {
        assert Ptr(fs, Ind(t.i, t.n / NINDIRECT)) == a;
        assert t.n % NINDIRECT != n % NINDIRECT;
      }
    }
  }

  // A fresh block becomes data block n of file i.
  lemma LinkEntry(sb: Sb, fs: Fs, own: map<nat, Slot>, i: nat, n: nat, a: nat, b: nat)
    requires Inv(sb, fs, own) && i < |fs.ino| && n < MAXFILE && a == fs.ino[i].addrs[n / NINDIRECT] != 0
    requires Ptr(fs, Dat(i, n)) == 0
    requires b !in own && sb.dstart <= b < sb.size && Used(sb, fs.disk, b)
    ensures a in own && a < |fs.disk| && sb.dstart <= a
    ensures Inv(sb, WithEntry(fs, a, n % NINDIRECT, b), own[b := Dat(i, n)])
    ensures Kept(fs, WithEntry(fs, a, n % NINDIRECT, b))
  {
    EntryPtrs(sb, fs, own, i, n, a, b);
    var fs2 := WithEntry(fs, a, n % NINDIRECT, b);
    assert SameUsed(sb, fs, fs2);
    AddOwner(sb, fs, fs2, own, Dat(i, n), b);
    EntryKept(sb, fs, own, i, n, a, b);
    KeptMapped(fs, fs2);
  }

  lemma EntryKept(sb: Sb, fs: Fs, own: map<nat, Slot>, i: nat, n: nat, a: nat, b: nat)
    requires Inv(sb, fs, own) && i < |fs.ino| && n < MAXFILE && a == fs.ino[i].addrs[n / NINDIRECT] != 0
    requires Ptr(fs, Dat(i, n)) == 0 && b < sb.size && a < |fs.disk|
    ensures Formed(WithEntry(fs, a, n % NINDIRECT, b)) && Kept(fs, WithEntry(fs, a, n % NINDIRECT, b))
  {
    EntryPtrs(sb, fs, own, i, n, a, b);
    var fs2 := WithEntry(fs, a, n % NINDIRECT, b);
    assert Ptr(fs, Ind(i, n / NINDIRECT)) == a;
    forall x, m ensures KeptBlock(fs, fs2, x, m) {
      assert Ptr(fs, Dat(x, m)) != a;
    }
  }
}
