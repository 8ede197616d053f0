/**
 bmap, readi, writei and iupdate of fs.c over the block map: each file is a flat
 sequence of bytes, and writing one file never changes another.
 */
module Files {
  import opened BlockCodec
  import opened FileMap

  const UINT := 0x1_0000_0000

  function Min(a: int, b: int): int {
    if a < b then a else b
  }

  // The blocks below the bitmap: boot block, super block, log and inodes.
  ghost predicate SameHead(sb: Sb, d: seq<Block>, d': seq<Block>) {
    |d'| == |d| && forall b: nat | b < sb.bmapstart && b < |d| :: d'[b] == d[b]
  }

  // What bmap may change: it maps more blocks of file i and disturbs no mapped block.
  ghost predicate Grows(sb: Sb, fs: Fs, fs': Fs, i: nat)
    requires Formed(fs) && Formed(fs') && i < |fs.ino|
  {
    && Kept(fs, fs') && SameHead(sb, fs.disk, fs'.disk)
    && (forall x | 0 <= x < |fs.ino| && x != i :: fs'.ino[x] == fs.ino[x])
    && (forall x, n | x != i :: Ptr(fs', Dat(x, n)) == Ptr(fs, Dat(x, n)))
  }

  lemma GrowsTrans(sb: Sb, fs1: Fs, fs2: Fs, fs3: Fs, i: nat)
    requires Formed(fs1) && Formed(fs2) && Formed(fs3) && i < |fs1.ino| && Grows(sb, fs1, fs2, i)
    requires Grows(sb, fs2, fs3, i)
    ensures Grows(sb, fs1, fs3, i)
  {
    KeptTrans(fs1, fs2, fs3);
  }

  // -------------------------------------------------- which blocks change

  predicate InBitmap(sb: Sb, b: nat) {
    sb.bmapstart <= b <= sb.bmapstart + (sb.size - 1) / BITS
  }

  // Block b holds entry n of file i, or is the indirect block of that entry.
  ghost predicate PointsTo(fs: Fs, i: nat, n: nat, b: nat)
    requires Formed(fs)
  {
    b != 0 && (b == Ptr(fs, Dat(i, n)) || b == Ptr(fs, Ind(i, n / NINDIRECT)))
  }

  ghost predicate InRange(fs: Fs, i: nat, n0: nat, n1: nat, b: nat)
    requires Formed(fs)
  {
    exists n: nat | n0 <= n < n1 :: PointsTo(fs, i, n, b)
  }

  // File i keeps the pointers it has, and only blocks of the bitmap and of its entries n0 to n1 change.
  ghost predicate Confined(sb: Sb, fs: Fs, fs': Fs, i: nat, n0: nat, n1: nat)
    requires Formed(fs) && Formed(fs')
  {
    && |fs'.disk| == |fs.disk|
    && (forall s: Slot | s.i == i && Ptr(fs, s) != 0 :: Ptr(fs', s) == Ptr(fs, s))
    && forall b: nat | b < |fs.disk| :: fs'.disk[b] == fs.disk[b] || InBitmap(sb, b) || InRange(fs', i, n0, n1, b)
  }

  lemma RangeKept(fs: Fs, fs': Fs, i: nat, n0: nat, n1: nat, m0: nat, m1: nat, b: nat)
    requires Formed(fs) && Formed(fs') && InRange(fs, i, n0, n1, b) && m0 <= n0 && n1 <= m1
    requires forall s: Slot | s.i == i && Ptr(fs, s) != 0 :: Ptr(fs', s) == Ptr(fs, s)
    ensures InRange(fs', i, m0, m1, b)
  {
    var n: nat :| n0 <= n < n1 && PointsTo(fs, i, n, b);
    assert Ptr(fs, Dat(i, n)) != 0 ==> Ptr(fs', Dat(i, n)) == Ptr(fs, Dat(i, n));
    assert Ptr(fs, Ind(i, n / NINDIRECT)) != 0 ==>
             Ptr(fs', Ind(i, n / NINDIRECT)) == Ptr(fs, Ind(i, n / NINDIRECT));
    assert PointsTo(fs', i, n, b);
  }

  lemma ConfinedTrans(sb: Sb, fs1: Fs, fs2: Fs, fs3: Fs, i: nat, n0: nat, n1: nat, m0: nat, m1: nat, k0: nat, k1: nat)
    requires Formed(fs1) && Formed(fs2) && Formed(fs3) && k0 <= n0 && n1 <= k1 && k0 <= m0 && m1 <= k1
    requires Confined(sb, fs1, fs2, i, n0, n1) && Confined(sb, fs2, fs3, i, m0, m1)
    ensures Confined(sb, fs1, fs3, i, k0, k1)
  {
    forall b: nat | b < |fs1.disk|
      ensures fs3.disk[b] == fs1.disk[b] || InBitmap(sb, b) || InRange(fs3, i, k0, k1, b)
    {
      if InRange(fs2, i, n0, n1, b) { RangeKept(fs2, fs3, i, n0, n1, k0, k1, b); }
      if InRange(fs3, i, m0, m1, b) { RangeKept(fs3, fs3, i, m0, m1, k0, k1, b); }
    }
  }

  lemma ConfinedSame(sb: Sb, fs: Fs, i: nat, n0: nat, n1: nat)
    requires Formed(fs)
    ensures Confined(sb, fs, fs, i, n0, n1)
  {
  }

  lemma AllocOnly(sb: Sb, fs: Fs, b: nat)
    requires Formed(fs) && ValidSb(sb, |fs.ino|) && |fs.disk| == sb.size && 0 < b < sb.size
    ensures forall x: nat | x < |fs.disk| ::
              Allocated(sb, fs, b).disk[x] == fs.disk[x] || InBitmap(sb, x) || x == b
  {
    assert b / BITS <= (sb.size - 1) / BITS;
    assert InBitmap(sb, sb.bmapstart + b / BITS);
  }

  // A new block, found by balloc and not yet pointed to; 0 exactly when none is free.
  method NewBlock(sb: Sb, fs: Fs, i: nat, ghost own: map<nat, Slot>) returns (fs': Fs, b: nat)
    requires Inv(sb, fs, own) && i < |fs.ino|
    ensures Inv(sb, fs', own) && Grows(sb, fs, fs', i) && fs'.ino == fs.ino
    ensures forall s :: Ptr(fs', s) == Ptr(fs, s)
    ensures b == 0 <==> FreeBlocks(sb, fs) == 0
    ensures b == 0 ==> fs' == fs
    ensures b != 0 ==> sb.dstart <= b < sb.size && b !in own && Used(sb, fs'.disk, b) && fs'.disk[b] == Zeros()
    ensures b != 0 ==> FreeBlocks(sb, fs') == FreeBlocks(sb, fs) - 1
    ensures forall x: nat | x < |fs.disk| :: fs'.disk[x] == fs.disk[x] || InBitmap(sb, x) || x == b != 0
  {
    fs', b := Balloc(sb, fs);
    if b != 0 {
      AllocKeeps(sb, fs, own, b);
      AllocPtrs(sb, fs, own, b);
      AllocFree(sb, fs, b);
      ClearNone(sb, fs, sb.size);
      AllocOnly(sb, fs, b);
    } else {
      ClearNone(sb, fs, sb.size);
      forall x, n ensures KeptBlock(fs, fs, x, n) {}
    }
  }

  // A fresh block b, in fs1, becomes the indirect block of entry bn.
  lemma IndirectGrows(sb: Sb, fs: Fs, fs1: Fs, own: map<nat, Slot>, i: nat, bn: nat, b: nat)
    requires Inv(sb, fs, own) && Inv(sb, fs1, own) && i < |fs.ino| && bn < MAXFILE
    requires fs.ino[i].addrs[bn / NINDIRECT] == 0
    requires Grows(sb, fs, fs1, i) && fs1.ino == fs.ino && forall s :: Ptr(fs1, s) == Ptr(fs, s)
    requires b !in own && sb.dstart <= b < sb.size && Used(sb, fs1.disk, b) && fs1.disk[b] == Zeros()
    ensures Inv(sb, WithIndirect(fs1, i, bn / NINDIRECT, b), own[b := Ind(i, bn / NINDIRECT)])
    ensures Grows(sb, fs, WithIndirect(fs1, i, bn / NINDIRECT, b), i)
    ensures Fills(fs, WithIndirect(fs1, i, bn / NINDIRECT, b), i, bn)
    ensures Ptr(WithIndirect(fs1, i, bn / NINDIRECT, b), Dat(i, bn)) == Ptr(fs, Dat(i, bn))
    ensures FreeBlocks(sb, WithIndirect(fs1, i, bn / NINDIRECT, b)) == FreeBlocks(sb, fs1)
  {
    var j := bn / NINDIRECT;
    LinkIndirect(sb, fs1, own, i, j, b);
    IndirectPtrs(fs1, i, j, b);
    GrowsTrans(sb, fs, fs1, WithIndirect(fs1, i, j, b), i);
    SameFree(sb, fs1, WithIndirect(fs1, i, j, b));
  }

  lemma IndirectConfined(sb: Sb, fs: Fs, fs1: Fs, i: nat, bn: nat, b: nat)
    requires Formed(fs) && Formed(fs1) && i < |fs.ino| == |fs1.ino| && bn < MAXFILE && b != 0
    requires Formed(WithIndirect(fs1, i, bn / NINDIRECT, b))
    requires Grows(sb, fs, WithIndirect(fs1, i, bn / NINDIRECT, b), i)
    requires |fs1.disk| == |fs.disk|
    requires forall x: nat | x < |fs.disk| :: fs1.disk[x] == fs.disk[x] || InBitmap(sb, x) || x == b
    ensures Confined(sb, fs, WithIndirect(fs1, i, bn / NINDIRECT, b), i, bn, bn + 1)
  {
    var fs2 := WithIndirect(fs1, i, bn / NINDIRECT, b);
    assert Ptr(fs2, Ind(i, bn / NINDIRECT)) == b;
    assert PointsTo(fs2, i, bn, b);
  }

  // The indirect block for entry bn, allocated if missing.
  method NeedIndirect(sb: Sb, fs: Fs, i: nat, bn: nat, ghost own: map<nat, Slot>)
    returns (fs': Fs, ok: bool, ghost own': map<nat, Slot>)
    requires Inv(sb, fs, own) && i < |fs.ino| && bn < MAXFILE
    ensures Inv(sb, fs', own') && Grows(sb, fs, fs', i) && Fills(fs, fs', i, bn)
    ensures ok <==> fs.ino[i].addrs[bn / NINDIRECT] != 0 || FreeBlocks(sb, fs) > 0
    ensures ok ==> fs'.ino[i].addrs[bn / NINDIRECT] != 0
    ensures !ok || fs.ino[i].addrs[bn / NINDIRECT] != 0 ==> fs' == fs && own' == own
    ensures ok && fs.ino[i].addrs[bn / NINDIRECT] == 0 ==> FreeBlocks(sb, fs') == FreeBlocks(sb, fs) - 1
    ensures Ptr(fs', Dat(i, bn)) == Ptr(fs, Dat(i, bn)) && Confined(sb, fs, fs', i, bn, bn + 1)
  {
    var j := bn / NINDIRECT;
    own' := own;
    if fs.ino[i].addrs[j] == 0 {
      var fs1, b := NewBlock(sb, fs, i, own);
      if b == 0 {
        return fs1, false, own;
      }
      IndirectGrows(sb, fs, fs1, own, i, bn, b);
      IndirectConfined(sb, fs, fs1, i, bn, b);
      fs', ok, own' := WithIndirect(fs1, i, j, b), true, own[b := Ind(i, j)];
    } else {
      fs', ok := fs, true;
      forall x, n ensures KeptBlock(fs, fs, x, n) {}
    }
  }

  // A fresh block b becomes entry n, whose indirect block a is there.
  lemma EntryGrows(sb: Sb, fs: Fs, own: map<nat, Slot>, i: nat, n: nat, a: nat, b: nat)
    requires Inv(sb, fs, own) && i < |fs.ino| && n < MAXFILE && a == fs.ino[i].addrs[n / NINDIRECT] != 0
    requires Ptr(fs, Dat(i, n)) == 0
    requires b !in own && sb.dstart <= b < sb.size && Used(sb, fs.disk, b) && fs.disk[b] == Zeros()
    ensures a in own && sb.dstart <= a < |fs.disk| && Formed(WithEntry(fs, a, n % NINDIRECT, b))
    ensures Grows(sb, fs, WithEntry(fs, a, n % NINDIRECT, b), i) && Fills(fs, WithEntry(fs, a, n % NINDIRECT, b), i, n)
    ensures Ptr(WithEntry(fs, a, n % NINDIRECT, b), Dat(i, n)) == b
    ensures WithEntry(fs, a, n % NINDIRECT, b).disk[b] == Zeros()
  {
    EntryPtrs(sb, fs, own, i, n, a, b);
    EntryKept(sb, fs, own, i, n, a, b);
  }

  lemma EntryFree(sb: Sb, fs: Fs, own: map<nat, Slot>, i: nat, n: nat, a: nat, b: nat)
    requires Inv(sb, fs, own) && i < |fs.ino| && n < MAXFILE && a == fs.ino[i].addrs[n / NINDIRECT] != 0 && b < sb.size
    ensures a in own && a < |fs.disk| && Formed(WithEntry(fs, a, n % NINDIRECT, b))
    ensures FreeBlocks(sb, WithEntry(fs, a, n % NINDIRECT, b)) == FreeBlocks(sb, fs)
  {
    EntryPtrs(sb, fs, own, i, n, a, b);
    assert SameUsed(sb, fs, WithEntry(fs, a, n % NINDIRECT, b));
    SameFree(sb, fs, WithEntry(fs, a, n % NINDIRECT, b));
  }

  // A data block for entry bn, whose indirect block a is there, allocated and entered.
  method NewEntry(sb: Sb, fs: Fs, i: nat, bn: nat, a: nat, ghost own: map<nat, Slot>)
    returns (fs': Fs, addr: int, ghost own': map<nat, Slot>)
    requires Inv(sb, fs, own) && i < |fs.ino| && bn < MAXFILE
    requires a == fs.ino[i].addrs[bn / NINDIRECT] != 0 && Ptr(fs, Dat(i, bn)) == 0
    ensures Inv(sb, fs', own') && Grows(sb, fs, fs', i) && Fills(fs, fs', i, bn) && fs'.ino == fs.ino
    ensures addr == -1 <==> FreeBlocks(sb, fs) == 0
    ensures addr == -1 ==> fs' == fs && own' == own
    ensures addr != -1 ==> addr == Ptr(fs', Dat(i, bn)) && sb.dstart <= addr < sb.size && fs'.disk[addr] == Zeros()
    ensures addr != -1 ==> FreeBlocks(sb, fs') == FreeBlocks(sb, fs) - 1
    ensures Confined(sb, fs, fs', i, bn, bn + 1)
  {
    var fs1, b := NewBlock(sb, fs, i, own);
    if b == 0 {
      return fs1, -1, own;
    }
    EntryGrows(sb, fs1, own, i, bn, a, b);
    LinkEntry(sb, fs1, own, i, bn, a, b);
    EntryFree(sb, fs1, own, i, bn, a, b);
    fs', addr, own' := WithEntry(fs1, a, bn % NINDIRECT, b), b, own[b := Dat(i, bn)];
    GrowsTrans(sb, fs, fs1, fs', i);
    EntryConfined(sb, fs, fs1, fs', i, bn, a, b);
  }

  lemma EntryConfined(sb: Sb, fs: Fs, fs1: Fs, fs2: Fs, i: nat, bn: nat, a: nat, b: nat)
    requires Formed(fs) && Formed(fs1) && Formed(fs2) && i < |fs.ino| && Grows(sb, fs, fs2, i) && bn < MAXFILE
    requires fs2.ino == fs.ino && a == fs.ino[i].addrs[bn / NINDIRECT] != 0 && b == Ptr(fs2, Dat(i, bn)) != 0
    requires |fs1.disk| == |fs2.disk| == |fs.disk|
    requires forall x: nat | x < |fs.disk| :: fs1.disk[x] == fs.disk[x] || InBitmap(sb, x) || x == b
    requires forall x: nat | x < |fs.disk| :: fs2.disk[x] == fs1.disk[x] || x == a
    ensures Confined(sb, fs, fs2, i, bn, bn + 1)
  {
    assert Ptr(fs2, Ind(i, bn / NINDIRECT)) == a;
    assert PointsTo(fs2, i, bn, a) && PointsTo(fs2, i, bn, b);
  }

  // The data block of entry bn, whose indirect block is there, allocated if missing.
  method EntryBlock(sb: Sb, fs: Fs, i: nat, bn: nat, ghost own: map<nat, Slot>)
    returns (fs': Fs, addr: int, ghost own': map<nat, Slot>)
    requires Inv(sb, fs, own) && i < |fs.ino| && bn < MAXFILE && fs.ino[i].addrs[bn / NINDIRECT] != 0
    ensures Inv(sb, fs', own') && Grows(sb, fs, fs', i) && Fills(fs, fs', i, bn) && fs'.ino == fs.ino
    ensures Ptr(fs, Dat(i, bn)) != 0 || addr == -1 ==> fs' == fs && own' == own
    ensures addr == -1 <==> Ptr(fs, Dat(i, bn)) == 0 && FreeBlocks(sb, fs) == 0
    ensures addr != -1 ==> addr == Ptr(fs', Dat(i, bn)) && sb.dstart <= addr < sb.size
    ensures addr != -1 && Ptr(fs, Dat(i, bn)) == 0 ==>
              fs'.disk[addr] == Zeros() && FreeBlocks(sb, fs') == FreeBlocks(sb, fs) - 1
    ensures Confined(sb, fs, fs', i, bn, bn + 1)
  {
    var a := fs.ino[i].addrs[bn / NINDIRECT];
    assert Ptr(fs, Ind(i, bn / NINDIRECT)) == a;
    addr := Word(fs.disk[a], bn % NINDIRECT);
    if addr == 0 {
      fs', addr, own' := NewEntry(sb, fs, i, bn, a, own);
    } else {
      fs', own' := fs, own;
      assert Ptr(fs, Dat(i, bn)) in own;
      forall x, n ensures KeptBlock(fs, fs, x, n) {}
    }
  }

  // bmap: the disk block of entry bn, allocating it and its indirect block if missing; -1 exactly
  // when fewer blocks are free than it needs, and then whatever was free has been taken.
  method Bmap(sb: Sb, fs: Fs, i: nat, bn: nat, ghost own: map<nat, Slot>)
    returns (fs': Fs, addr: int, ghost own': map<nat, Slot>)
    requires Inv(sb, fs, own) && i < |fs.ino| && bn < MAXFILE
    ensures Inv(sb, fs', own') && Grows(sb, fs, fs', i) && Fills(fs, fs', i, bn)
    ensures Ptr(fs, Dat(i, bn)) != 0 ==> fs' == fs && own' == own
    ensures addr == -1 <==> FreeBlocks(sb, fs) < Need(fs, i, bn)
    ensures addr == -1 ==> Ptr(fs', Dat(i, bn)) == 0 && FreeBlocks(sb, fs') == 0
    ensures addr != -1 ==> addr == Ptr(fs', Dat(i, bn)) && sb.dstart <= addr < sb.size
    ensures addr != -1 ==> Ptr(fs', Ind(i, bn / NINDIRECT)) != 0
    ensures addr != -1 ==> FreeBlocks(sb, fs') == FreeBlocks(sb, fs) - Need(fs, i, bn)
    ensures addr != -1 && Ptr(fs, Dat(i, bn)) == 0 ==> fs'.disk[addr] == Zeros()
    ensures fs'.ino == fs.ino <==> fs.ino[i].addrs[bn / NINDIRECT] != 0 || FreeBlocks(sb, fs) == 0
    ensures Confined(sb, fs, fs', i, bn, bn + 1)
  {
    var fs1, ok, own1 := NeedIndirect(sb, fs, i, bn, own);
    assert Ptr(fs, Ind(i, bn / NINDIRECT)) == fs.ino[i].addrs[bn / NINDIRECT];
    if !ok {
      return fs1, -1, own1;
    }
    fs', addr, own' := EntryBlock(sb, fs1, i, bn, own1);
    GrowsTrans(sb, fs, fs1, fs', i);
    ConfinedTrans(sb, fs, fs1, fs', i, bn, bn + 1, bn, bn + 1, bn, bn + 1);
  }

  // ---------------------------------------------------------------- readi

  // Up to the end of the block that holds byte off, the file's bytes are the block's bytes.
  lemma ChunkBytes(sb: Sb, fs: Fs, own: map<nat, Slot>, i: nat, off: nat, m: nat)
    requires Inv(sb, fs, own) && i < |fs.ino| && off % BSIZE + m <= BSIZE && off + m <= fs.ino[i].size && 0 < m
    ensures 0 < Ptr(fs, Dat(i, off / BSIZE)) < |fs.disk| && off / BSIZE < MAXFILE
    ensures fs.disk[Ptr(fs, Dat(i, off / BSIZE))][off % BSIZE..off % BSIZE + m] == Bytes(fs, i)[off..off + m]
  {
    assert Covered(fs, i, off / BSIZE);
    var b := Ptr(fs, Dat(i, off / BSIZE));
    assert b in own;
    var got, want := fs.disk[b][off % BSIZE..off % BSIZE + m], Bytes(fs, i)[off..off + m];
    forall k | 0 <= k < m ensures got[k] == want[k] {
      assert (off + k) / BSIZE == off / BSIZE && (off + k) % BSIZE == off % BSIZE + k;
      assert Bytes(fs, i)[off + k] == Byte(fs, i, off + k);
    }
  }

  // One round of readi's loop.
  method ReadChunk(sb: Sb, fs: Fs, i: nat, off: nat, m: nat, ghost own: map<nat, Slot>) returns (fs': Fs, dst: seq<nat>)
    requires Inv(sb, fs, own) && i < |fs.ino| && off % BSIZE + m <= BSIZE && off + m <= fs.ino[i].size && 0 < m
    ensures fs' == fs && dst == Bytes(fs, i)[off..off + m]
  {
    ChunkBytes(sb, fs, own, i, off, m);
    var fs1, addr, own1 := Bmap(sb, fs, i, off / BSIZE, own);
    fs' := fs1;
    dst := fs'.disk[addr][off % BSIZE..off % BSIZE + m];
  }

  lemma JoinSlices(s: seq<nat>, a: nat, b: nat, c: nat)
    requires a <= b <= c <= |s|
    ensures s[a..b] + s[b..c] == s[a..c]
  {
  }

  // The loop of readi, for a range inside the file.
  method ReadLoop(sb: Sb, fs: Fs, i: nat, off: nat, n: nat, ghost own: map<nat, Slot>) returns (fs': Fs, dst: seq<nat>)
    requires Inv(sb, fs, own) && i < |fs.ino| && off + n <= fs.ino[i].size
    ensures fs' == fs && dst == Bytes(fs, i)[off..off + n]
  {
    fs', dst := fs, [];
    var tot, o := 0, off;
    ghost var bytes := Bytes(fs, i);
    while tot < n
      invariant 0 <= tot <= n && o == off + tot && fs' == fs
      invariant dst == bytes[off..o]
    {
      var m := Min(n - tot, BSIZE - o % BSIZE);
      var fs1, piece := ReadChunk(sb, fs', i, o, m, own);
      fs', dst := fs1, dst + piece;
      JoinSlices(bytes, off, o, o + m);
      tot, o := tot + m, o + m;
    }
  }

  // readi returns exactly the requested slice, cut off at the end of the file, and although it
  // calls the allocating bmap it never changes anything.
  method Readi(sb: Sb, fs: Fs, i: nat, off: nat, n: nat, ghost own: map<nat, Slot>)
    returns (fs': Fs, dst: seq<nat>, r: int)
    requires Inv(sb, fs, own) && i < |fs.ino| && off < UINT && n < UINT
    ensures fs' == fs
    ensures r == -1 <==> off > fs.ino[i].size || UINT <= off + n
    ensures r == -1 ==> dst == []
    ensures r != -1 ==> off <= fs.ino[i].size && r == Min(n, fs.ino[i].size - off) && dst == Bytes(fs, i)[off..off + r]
  {
    if off > fs.ino[i].size || (off + n) % UINT < off {
      return fs, [], -1;
    }
    r := n;
    if off + n > fs.ino[i].size {
      r := fs.ino[i].size - off;
    }
    fs', dst := ReadLoop(sb, fs, i, off, r, own);
  }

  // --------------------------------------------------------------- writei

  // Block blk with src copied to position at.
  function Patch(blk: Block, at: nat, src: seq<nat>): (r: Block)
    requires IsBlock(blk) && at + |src| <= BSIZE
    ensures IsBlock(r)
  {
    blk[..at] + src + blk[at + |src|..]
  }

  // Overwriting a mapped data block of file i moves no pointer and touches no other block.
  lemma WriteBlock(sb: Sb, fs: Fs, own: map<nat, Slot>, i: nat, n: nat, b: nat, data: Block)
    requires Inv(sb, fs, own) && i < |fs.ino| && b == Ptr(fs, Dat(i, n)) != 0 && IsBlock(data)
    ensures sb.dstart <= b < |fs.disk| && Inv(sb, Written(fs, b, data), own)
    ensures forall s :: Ptr(Written(fs, b, data), s) == Ptr(fs, s)
    ensures forall x, m | !(x == i && m == n) :: KeptBlock(fs, Written(fs, b, data), x, m)
    ensures FreeBlocks(sb, Written(fs, b, data)) == FreeBlocks(sb, fs)
  {
    assert b in own && own[b] == Dat(i, n);
    var fs2 := Written(fs, b, data);
    NotIndirectIf(sb, fs, own, b);
    WrittenPtrs(fs, b, data);
    assert SameUsed(sb, fs, fs2);
    SameFree(sb, fs, fs2);
    SameOwner(sb, fs, fs2, own);
    forall x: nat, m: nat | x < |fs2.ino| ensures Covered(fs2, x, m) { assert Covered(fs, x, m); }
    forall x, m | !(x == i && m == n) ensures KeptBlock(fs, fs2, x, m) {
      assert Ptr(fs, Dat(x, m)) != b;
    }
  }

  ghost predicate HasByte(fs: Fs, i: nat, o: nat)
    requires Formed(fs)
  {
    Ptr(fs, Dat(i, o / BSIZE)) != 0
  }

  // Byte o of file i after src was written at off: from src, or as before.
  ghost predicate ByteAfter(fs: Fs, fs': Fs, i: nat, off: nat, src: seq<nat>, o: nat)
    requires Formed(fs) && Formed(fs')
  {
    if off <= o < off + |src| then HasByte(fs', i, o) && Byte(fs', i, o) == src[o - off]
    else HasByte(fs, i, o) ==> HasByte(fs', i, o) && Byte(fs', i, o) == Byte(fs, i, o)
  }

  ghost predicate Wrote(fs: Fs, fs': Fs, i: nat, off: nat, src: seq<nat>)
    requires Formed(fs) && Formed(fs')
  {
    forall o: nat :: ByteAfter(fs, fs', i, off, src, o)
  }

  ghost predicate OtherBlock(fs: Fs, fs': Fs, x: nat, n: nat)
    requires Formed(fs) && Formed(fs')
  {
    Ptr(fs', Dat(x, n)) == Ptr(fs, Dat(x, n)) && KeptBlock(fs, fs', x, n)
  }

  // An inode of the same size that has gained addresses, at most.
  ghost predicate Gains(ip: Inode, ip': Inode)
    requires |ip.addrs| == |ip'.addrs| == NDIRECT
  {
    ip'.size == ip.size && forall j | 0 <= j < NDIRECT && ip.addrs[j] != 0 :: ip'.addrs[j] == ip.addrs[j]
  }

  // Only file i's data may differ, and its mapping where it had none; its size is the same.
  ghost predicate OthersSame(sb: Sb, fs: Fs, fs': Fs, i: nat)
    requires Formed(fs) && Formed(fs') && i < |fs.ino|
  {
    && |fs'.ino| == |fs.ino| && |fs'.disk| == |fs.disk| && SameHead(sb, fs.disk, fs'.disk)
    && Gains(fs.ino[i], fs'.ino[i])
    && (forall x | 0 <= x < |fs.ino| && x != i :: fs'.ino[x] == fs.ino[x])
    && (forall x, n | x != i :: OtherBlock(fs, fs', x, n))
  }

  lemma OthersTrans(sb: Sb, fs1: Fs, fs2: Fs, fs3: Fs, i: nat)
    requires Formed(fs1) && Formed(fs2) && Formed(fs3) && i < |fs1.ino|
    requires OthersSame(sb, fs1, fs2, i) && OthersSame(sb, fs2, fs3, i)
    ensures OthersSame(sb, fs1, fs3, i)
  {
    forall x, n | x != i ensures OtherBlock(fs1, fs3, x, n) {
      assert OtherBlock(fs1, fs2, x, n) && OtherBlock(fs2, fs3, x, n);
    }
  }

  lemma GrowsOthers(sb: Sb, fs: Fs, fs': Fs, i: nat)
    requires Formed(fs) && Formed(fs') && i < |fs.ino| && Grows(sb, fs, fs', i)
    ensures OthersSame(sb, fs, fs', i)
    ensures Wrote(fs, fs', i, 0, [])
  {
    forall x, n | x != i ensures OtherBlock(fs, fs', x, n) {
      assert KeptBlock(fs, fs', x, n);
    }
    forall j | 0 <= j < NDIRECT && fs.ino[i].addrs[j] != 0 ensures fs'.ino[i].addrs[j] == fs.ino[i].addrs[j] {
      assert Ptr(fs, Ind(i, j)) != 0;
    }
    forall o: nat ensures ByteAfter(fs, fs', i, 0, [], o) {
      assert KeptBlock(fs, fs', i, o / BSIZE);
    }
  }

  // src, which fits in the block that holds byte off, copied into that mapped block.
  lemma PatchBytes(sb: Sb, fs: Fs, own: map<nat, Slot>, i: nat, off: nat, src: seq<nat>, b: nat)
    requires Inv(sb, fs, own) && i < |fs.ino| && off % BSIZE + |src| <= BSIZE && b == Ptr(fs, Dat(i, off / BSIZE)) != 0
    ensures sb.dstart <= b < |fs.disk| && IsBlock(fs.disk[b])
    ensures Inv(sb, Written(fs, b, Patch(fs.disk[b], off % BSIZE, src)), own)
    ensures OthersSame(sb, fs, Written(fs, b, Patch(fs.disk[b], off % BSIZE, src)), i)
    ensures FreeBlocks(sb, Written(fs, b, Patch(fs.disk[b], off % BSIZE, src))) == FreeBlocks(sb, fs)
    ensures forall s :: Ptr(Written(fs, b, Patch(fs.disk[b], off % BSIZE, src)), s) == Ptr(fs, s)
    ensures Wrote(fs, Written(fs, b, Patch(fs.disk[b], off % BSIZE, src)), i, off, src)
  {
    assert b in own;
    var data := Patch(fs.disk[b], off % BSIZE, src);
    WriteBlock(sb, fs, own, i, off / BSIZE, b, data);
    var fs2 := Written(fs, b, data);
    forall x, n | x != i ensures OtherBlock(fs, fs2, x, n) {
      assert KeptBlock(fs, fs2, x, n);
    }
    forall o: nat ensures ByteAfter(fs, fs2, i, off, src, o) {
      if o / BSIZE == off / BSIZE {
        PatchedByte(fs, fs2, i, off, src, b, o);
      } else {
        assert KeptBlock(fs, fs2, i, o / BSIZE);
      }
    }
  }

  lemma PatchedByte(fs: Fs, fs2: Fs, i: nat, off: nat, src: seq<nat>, b: nat, o: nat)
    requires Formed(fs) && Formed(fs2) && off % BSIZE + |src| <= BSIZE && o / BSIZE == off / BSIZE
    requires b == Ptr(fs, Dat(i, off / BSIZE)) == Ptr(fs2, Dat(i, off / BSIZE)) && 0 < b < |fs.disk| == |fs2.disk|
    requires fs2.disk[b] == Patch(fs.disk[b], off % BSIZE, src)
    ensures ByteAfter(fs, fs2, i, off, src, o)
  {
    assert o % BSIZE - off % BSIZE == o - off;
  }

  // Entry n of file i is mapped, at the cost of the blocks that it needed.
  ghost predicate Maps(sb: Sb, fs: Fs, fs': Fs, i: nat, n: nat)
    requires Formed(fs) && Formed(fs') && ValidSb(sb, |fs.ino|) && |fs'.ino| == |fs.ino|
    requires |fs.disk| == |fs'.disk| == sb.size
  {
    && Fills(fs, fs', i, n) && Ptr(fs', Ind(i, n / NINDIRECT)) != 0 && Ptr(fs', Dat(i, n)) != 0
    && FreeBlocks(sb, fs') == FreeBlocks(sb, fs) - Need(fs, i, n)
  }

  lemma WroteTrans(fs1: Fs, fs2: Fs, fs3: Fs, i: nat, off: nat, done: seq<nat>, o: nat, piece: seq<nat>, all: seq<nat>)
    requires Formed(fs1) && Formed(fs2) && Formed(fs3) && o == off + |done| && all == done + piece
    requires Wrote(fs1, fs2, i, off, done) && Wrote(fs2, fs3, i, o, piece)
    ensures Wrote(fs1, fs3, i, off, all)
  {
    forall b: nat ensures ByteAfter(fs1, fs3, i, off, all, b) {
      assert ByteAfter(fs1, fs2, i, off, done, b) && ByteAfter(fs2, fs3, i, o, piece, b);
    }
  }

  // ------------------------------------------------------------- iupdate

  // The inode in slot x of a block: word 3 of the slot is the size, words 4..15 the addresses.
  function SlotInode(blk: Block, x: nat): (ip: Inode)
    requires IsBlock(blk)
    ensures |ip.addrs| == NDIRECT
  {
    var base := DINODE_WORDS * (x % IPB);
    Inode(Word(blk, base + 3), seq<nat>(NDIRECT, k requires 0 <= k < NDIRECT => Word(blk, base + 4 + k)))
  }

  // The on-disk copy of inode x.
  function DiskInode(sb: Sb, d: seq<Block>, x: nat): (ip: Inode)
    requires sb.inodestart + x / IPB < |d| && IsBlock(d[sb.inodestart + x / IPB])
    ensures |ip.addrs| == NDIRECT
  {
    SlotInode(d[sb.inodestart + x / IPB], x)
  }

  ghost predicate OnDisk(sb: Sb, d: seq<Block>, x: nat, ip: Inode)
    requires sb.inodestart + x / IPB < |d| && IsBlock(d[sb.inodestart + x / IPB])
  {
    DiskInode(sb, d, x) == ip
  }

  // Inode x and its disk copy are the same in fs and fs'.
  ghost predicate SameCopy(sb: Sb, fs: Fs, fs': Fs, x: nat)
    requires Formed(fs) && Formed(fs') && ValidSb(sb, |fs.ino|) && |fs'.ino| == |fs.ino| && x < |fs.ino|
    requires |fs.disk| == |fs'.disk| == sb.size
  {
    fs'.ino[x] == fs.ino[x] && DiskInode(sb, fs'.disk, x) == DiskInode(sb, fs.disk, x)
  }

  ghost predicate Synced(sb: Sb, fs: Fs)
    requires Formed(fs) && ValidSb(sb, |fs.ino|) && |fs.disk| == sb.size
  {
    forall x | 0 <= x < |fs.ino| :: OnDisk(sb, fs.disk, x, fs.ino[x])
  }

  // Outside inode x's slot the two blocks agree.
  ghost predicate SameOutside(blk: Block, r: Block, x: nat)
    requires IsBlock(blk) && IsBlock(r)
  {
    forall w: nat {:trigger Word(r, w)} | w < WORDS && w / DINODE_WORDS != x % IPB :: Word(r, w) == Word(blk, w)
  }

  lemma PutOutside(blk: Block, r: Block, x: nat, k: nat, word: nat)
    requires IsBlock(blk) && IsBlock(r) && SameOutside(blk, r, x) && k < DINODE_WORDS && word < UINT
    ensures SameOutside(blk, PutWord(r, DINODE_WORDS * (x % IPB) + k, word), x)
  {
    var base := DINODE_WORDS * (x % IPB);
    var r1 := PutWord(r, base + k, word);
    forall w: nat {:trigger Word(r1, w)} | w < WORDS && w / DINODE_WORDS != x % IPB
      ensures Word(r1, w) == Word(blk, w)
    {
      assert w != base + k;
      assert Word(r, w) == Word(blk, w);
    }
  }

  // Inode x's slot holds the size of ip and its first k addresses.
  ghost predicate Partly(r: Block, x: nat, ip: Inode, k: nat)
    requires IsBlock(r) && k <= |ip.addrs| == NDIRECT
  {
    && Word(r, DINODE_WORDS * (x % IPB) + 3) == ip.size
    && forall j | 0 <= j < k :: Word(r, DINODE_WORDS * (x % IPB) + 4 + j) == ip.addrs[j]
  }

  lemma PutAddr(r: Block, x: nat, ip: Inode, k: nat)
    requires IsBlock(r) && k < |ip.addrs| == NDIRECT && ip.addrs[k] < UINT && Partly(r, x, ip, k)
    ensures Partly(PutWord(r, DINODE_WORDS * (x % IPB) + (4 + k), ip.addrs[k]), x, ip, k + 1)
  {
  }

  // The block with inode x's slot overwritten by ip, one word at a time.
  method PutInode(blk: Block, x: nat, ip: Inode) returns (r: Block)
    requires IsBlock(blk) && |ip.addrs| == NDIRECT && ip.size < UINT
    requires forall k | 0 <= k < NDIRECT :: ip.addrs[k] < UINT
    ensures IsBlock(r) && SlotInode(r, x) == ip && SameOutside(blk, r, x)
  {
    var base := DINODE_WORDS * (x % IPB);
    r := PutWord(blk, base + 3, ip.size);
    PutOutside(blk, blk, x, 3, ip.size);
    var k := 0;
    while k < NDIRECT
      invariant 0 <= k <= NDIRECT && IsBlock(r) && Partly(r, x, ip, k) && SameOutside(blk, r, x)
    {
      PutAddr(r, x, ip, k);
      PutOutside(blk, r, x, 4 + k, ip.addrs[k]);
      r, k := PutWord(r, base + (4 + k), ip.addrs[k]), k + 1;
    }
    assert SlotInode(r, x).addrs == ip.addrs;
  }

  // Writing a block below the bitmap disturbs no file.
  lemma HeadWrite(sb: Sb, fs: Fs, own: map<nat, Slot>, x: nat, data: Block)
    requires Inv(sb, fs, own) && x < sb.bmapstart && IsBlock(data)
    ensures Inv(sb, Written(fs, x, data), own) && Kept(fs, Written(fs, x, data))
  {
    var fs2 := Written(fs, x, data);
    NotIndirectIf(sb, fs, own, x);
    WrittenPtrs(fs, x, data);
    assert SameUsed(sb, fs, fs2);
    SameOwner(sb, fs, fs2, own);
    forall y, n ensures KeptBlock(fs, fs2, y, n) {
      assert Ptr(fs, Dat(y, n)) != 0 ==> Ptr(fs, Dat(y, n)) in own;
    }
    KeptMapped(fs, fs2);
  }

  // iupdate brings the disk copy of inode i in line with memory; every other copy stays.
  method Iupdate(sb: Sb, fs: Fs, i: nat, ghost own: map<nat, Slot>) returns (fs': Fs)
    requires Inv(sb, fs, own) && i < |fs.ino|
    ensures Inv(sb, fs', own) && fs'.ino == fs.ino && Kept(fs, fs')
    ensures forall b: nat | b < |fs.disk| && b != sb.inodestart + i / IPB :: fs'.disk[b] == fs.disk[b]
    ensures OnDisk(sb, fs'.disk, i, fs.ino[i])
    ensures forall x | 0 <= x < |fs.ino| && x != i :: SameCopy(sb, fs, fs', x)
  {
    SmallWords(sb, fs, own, i);
    var b := sb.inodestart + i / IPB;
    var blk := PutInode(fs.disk[b], i, fs.ino[i]);
    HeadWrite(sb, fs, own, b, blk);
    fs' := Written(fs, b, blk);
    forall x | 0 <= x < |fs.ino| && x != i ensures SameCopy(sb, fs, fs', x) {
      if x / IPB == i / IPB { SlotApart(fs.disk[b], blk, x, i); }
    }
  }

  lemma SlotApart(blk: Block, blk': Block, x: nat, i: nat)
    requires IsBlock(blk) && IsBlock(blk') && x / IPB == i / IPB && x != i && SameOutside(blk, blk', i)
    ensures SlotInode(blk', x) == SlotInode(blk, x)
  {
    var base := DINODE_WORDS * (x % IPB);
    assert (base + 3) / DINODE_WORDS == x % IPB != i % IPB;
    forall k | 0 <= k < NDIRECT ensures SlotInode(blk', x).addrs[k] == SlotInode(blk, x).addrs[k] {
      assert (base + 4 + k) / DINODE_WORDS == x % IPB;
    }
    assert SlotInode(blk', x).addrs == SlotInode(blk, x).addrs;
  }

  // Sizes and addresses fit in the 32-bit words of an on-disk inode.
  lemma SmallWords(sb: Sb, fs: Fs, own: map<nat, Slot>, i: nat)
    requires Inv(sb, fs, own) && i < |fs.ino|
    ensures fs.ino[i].size <= MAXFILE * BSIZE && forall k | 0 <= k < NDIRECT :: fs.ino[i].addrs[k] < UINT
  {
    assert Covered(fs, i, MAXFILE);
    forall k | 0 <= k < NDIRECT ensures fs.ino[i].addrs[k] < UINT {
      assert Ptr(fs, Ind(i, k)) == fs.ino[i].addrs[k];
    }
  }

  // -------------------------------------------------------------- writei

  // old with src laid over it from position off, growing it if need be.
  function Overlay(old_: seq<nat>, off: nat, src: seq<nat>): seq<nat>
    requires off <= |old_|
  {
    old_[..off] + src + (if off + |src| < |old_| then old_[off + |src|..] else [])
  }

  function Max(a: int, b: int): int {
    if a < b then b else a
  }

  function Resized(fs: Fs, i: nat, size: nat): Fs
    requires i < |fs.ino|
  {
    fs.(ino := fs.ino[i := fs.ino[i].(size := size)])
  }

  // Once src is in the blocks, the size may grow to its end ...
  lemma ResizedInv(sb: Sb, fs: Fs, fs': Fs, own: map<nat, Slot>, own': map<nat, Slot>, i: nat, off: nat, src: seq<nat>,
                   sz: nat)
    requires Inv(sb, fs, own) && Inv(sb, fs', own') && i < |fs.ino| && off <= fs.ino[i].size
    requires OthersSame(sb, fs, fs', i) && Wrote(fs, fs', i, off, src) && sz == Max(fs.ino[i].size, off + |src|)
    ensures Inv(sb, Resized(fs', i, sz), own') && forall s :: Ptr(Resized(fs', i, sz), s) == Ptr(fs', s)
  {
    var fs2 := Resized(fs', i, sz);
    forall s ensures Ptr(fs2, s) == Ptr(fs', s) {}
    SameOwner(sb, fs', fs2, own');
    forall x: nat, n: nat | x < |fs2.ino| ensures Covered(fs2, x, n) {
      assert Covered(fs', x, n);
      if x == i {
        assert Covered(fs, i, n) && ByteAfter(fs, fs', i, off, src, n * BSIZE);
        assert n * BSIZE / BSIZE == n;
      }
    }
  }

  // ... and then the file holds the overlaid bytes.
  lemma ResizedBytes(sb: Sb, fs: Fs, fs': Fs, own: map<nat, Slot>, i: nat, off: nat, src: seq<nat>, sz: nat)
    requires Inv(sb, fs, own) && Formed(fs') && i < |fs.ino| == |fs'.ino| && off <= fs.ino[i].size
    requires Wrote(fs, fs', i, off, src) && sz == Max(fs.ino[i].size, off + |src|)
    ensures Bytes(Resized(fs', i, sz), i) == Overlay(Bytes(fs, i), off, src)
  {
    var a, b := Bytes(Resized(fs', i, sz), i), Overlay(Bytes(fs, i), off, src);
    forall o: nat | o < sz ensures a[o] == b[o] {
      assert a[o] == Byte(fs', i, o);
      OverlaidByte(sb, fs, fs', own, i, off, src, o);
    }
  }

  lemma OverlaidByte(sb: Sb, fs: Fs, fs': Fs, own: map<nat, Slot>, i: nat, off: nat, src: seq<nat>, o: nat)
    requires Inv(sb, fs, own) && Formed(fs') && i < |fs.ino| && off <= fs.ino[i].size && Wrote(fs, fs', i, off, src)
    requires o < Max(fs.ino[i].size, off + |src|)
    ensures Byte(fs', i, o) == Overlay(Bytes(fs, i), off, src)[o]
  {
    assert ByteAfter(fs, fs', i, off, src, o) && Covered(fs, i, o / BSIZE);
  }

  lemma OthersBytes(sb: Sb, fs: Fs, fs': Fs, own: map<nat, Slot>, i: nat, x: nat, sz: nat)
    requires Inv(sb, fs, own) && Formed(fs') && i < |fs.ino| && x < |fs.ino| && x != i && OthersSame(sb, fs, fs', i)
    ensures Bytes(Resized(fs', i, sz), x) == Bytes(fs, x)
  {
    forall o: nat | o < fs.ino[x].size ensures Byte(fs', x, o) == Byte(fs, x, o) {
      assert OtherBlock(fs, fs', x, o / BSIZE) && Covered(fs, x, o / BSIZE);
      assert Ptr(fs, Dat(x, o / BSIZE)) in own;
    }
  }

  // The entry after the last one that a write of n bytes at off touches.
  function EndBlock(off: nat, n: nat): nat {
    if n == 0 then off / BSIZE else (off + n - 1) / BSIZE + 1
  }

  // The entry to map next after tot of the n bytes, if there is one.
  ghost predicate AtEntry(off: nat, n: nat, tot: nat, x: nat) {
    x == if tot < n then (off + tot) / BSIZE else EndBlock(off, n)
  }

  // One round of writei's loop, after tot of the n bytes, stays within entry x.
  lemma Round(off: nat, n: nat, tot: nat, o: nat, m: nat, x: nat)
    requires tot < n && off + n <= MAXFILE * BSIZE && o == off + tot && m == Min(n - tot, BSIZE - o % BSIZE)
    requires AtEntry(off, n, tot, x)
    ensures 0 < m && tot + m <= n && x == o / BSIZE < EndBlock(off, n) <= MAXFILE && AtEntry(off, n, tot + m, x + 1)
    ensures o % BSIZE + m <= BSIZE && x * BSIZE <= o < o + m <= (x + 1) * BSIZE
  {
  }

  // Free blocks, less those that entries n to m of file i still need.
  ghost function Left(sb: Sb, fs: Fs, i: nat, n: nat, m: nat): int
    requires Formed(fs) && ValidSb(sb, |fs.ino|) && |fs.disk| == sb.size
  {
    FreeBlocks(sb, fs) - NeedAll(fs, i, n, m)
  }

  // The file ends inside the range to be written, at a block that has no indirect block, and one
  // block is left: it becomes the indirect block, and nothing records that.
  ghost predicate Stray(sb: Sb, fs: Fs, i: nat, off: nat, n: nat)
    requires Formed(fs) && ValidSb(sb, |fs.ino|) && |fs.disk| == sb.size && i < |fs.ino|
  {
    && off <= fs.ino[i].size < off + n <= MAXFILE * BSIZE
    && fs.ino[i].addrs[fs.ino[i].size / BSIZE / NINDIRECT] == 0 && FreeBlocks(sb, fs) == 1
  }

  // The range reaches past the end of the file, and the first entry to hold a new byte can be had.
  ghost predicate Enlarges(sb: Sb, fs: Fs, i: nat, off: nat, n: nat)
    requires Formed(fs) && ValidSb(sb, |fs.ino|) && |fs.disk| == sb.size && i < |fs.ino|
  {
    && off <= fs.ino[i].size < off + n <= MAXFILE * BSIZE
    && Need(fs, i, fs.ino[i].size / BSIZE) <= FreeBlocks(sb, fs)
  }

  // Past the last block of a file nothing need be mapped; up to it everything is.
  lemma StrayAligned(sb: Sb, fs: Fs, own: map<nat, Slot>, i: nat)
    requires Inv(sb, fs, own) && i < |fs.ino| && fs.ino[i].size < MAXFILE * BSIZE
    requires fs.ino[i].addrs[fs.ino[i].size / BSIZE / NINDIRECT] == 0
    ensures fs.ino[i].size % BSIZE == 0
  {
    var n := fs.ino[i].size / BSIZE;
    assert Covered(fs, i, n);
  }

  // What is left, with entries x to e to go, covers them as well as it covered entries n to e of fs.
  ghost predicate Ledger(sb: Sb, fs: Fs, fs': Fs, i: nat, n: nat, x: nat, e: nat)
    requires Formed(fs) && Formed(fs') && ValidSb(sb, |fs.ino|) && |fs'.ino| == |fs.ino|
    requires |fs.disk| == |fs'.disk| == sb.size
  {
    Left(sb, fs', i, x, e) == Left(sb, fs, i, n, e)
  }

  lemma LedgerStep(sb: Sb, fs: Fs, fs1: Fs, fs2: Fs, i: nat, n: nat, x: nat, e: nat)
    requires Formed(fs) && Formed(fs1) && Formed(fs2) && ValidSb(sb, |fs.ino|)
    requires |fs1.ino| == |fs2.ino| == |fs.ino| && |fs.disk| == |fs1.disk| == |fs2.disk| == sb.size
    requires x < e && Ledger(sb, fs, fs1, i, n, x, e) && Maps(sb, fs1, fs2, i, x)
    ensures Ledger(sb, fs, fs2, i, n, x + 1, e)
  {
    NeedStep(fs1, fs2, i, x, e);
  }

  // Up to byte o, which is not past the end of the file, nothing had to be allocated.
  ghost predicate Intact(sb: Sb, fs: Fs, fs': Fs, i: nat, o: nat)
    requires Formed(fs) && Formed(fs') && ValidSb(sb, |fs.ino|) && |fs'.ino| == |fs.ino|
    requires |fs.disk| == |fs'.disk| == sb.size
    requires i < |fs.ino|
  {
    o <= fs.ino[i].size ==>
      && fs'.ino == fs.ino && FreeBlocks(sb, fs') == FreeBlocks(sb, fs)
      && Need(fs', i, fs.ino[i].size / BSIZE) == Need(fs, i, fs.ino[i].size / BSIZE)
  }

  lemma IntactStep(sb: Sb, fs: Fs, fs1: Fs, fs2: Fs, own1: map<nat, Slot>, i: nat, o: nat, m: nat, x: nat)
    requires Inv(sb, fs1, own1) && Formed(fs) && Formed(fs2) && |fs1.ino| == |fs2.ino| == |fs.ino|
    requires |fs.disk| == |fs2.disk| == sb.size && i < |fs.ino| && fs1.ino[i].size == fs.ino[i].size
    requires 0 < m && x < MAXFILE && x * BSIZE <= o && Intact(sb, fs, fs1, i, o) && Maps(sb, fs1, fs2, i, x)
    requires fs2.ino == fs1.ino <==> fs1.ino[i].addrs[x / NINDIRECT] != 0 || FreeBlocks(sb, fs1) == 0
    ensures Intact(sb, fs, fs2, i, o + m)
  {
    assert Covered(fs1, i, x);
    if o + m <= fs.ino[i].size {
      SameNeed(fs1, fs2, i, x, fs.ino[i].size / BSIZE);
    }
  }

  // Mapping an entry that was mapped already changes what no entry needs.
  lemma SameNeed(fs: Fs, fs': Fs, i: nat, x: nat, y: nat)
    requires Formed(fs) && Formed(fs') && Fills(fs, fs', i, x) && i < |fs.ino| && x < MAXFILE
    requires Ptr(fs, Dat(i, x)) != 0 && Ptr(fs', Ind(i, x / NINDIRECT)) != 0 && Ptr(fs', Dat(i, x)) != 0
    ensures Need(fs', i, y) == Need(fs, i, y)
  {
    assert Ptr(fs, Ind(i, x / NINDIRECT)) != 0;
    assert y != x ==> Ptr(fs', Dat(i, y)) == Ptr(fs, Dat(i, y));
    assert y / NINDIRECT != x / NINDIRECT ==> Ptr(fs', Ind(i, y / NINDIRECT)) == Ptr(fs, Ind(i, y / NINDIRECT));
  }

  // A stray allocation is still ahead while the loop succeeds.
  ghost predicate StrayAhead(sb: Sb, fs: Fs, i: nat, off: nat, n: nat, o: nat)
    requires Formed(fs) && ValidSb(sb, |fs.ino|) && |fs.disk| == sb.size && i < |fs.ino|
  {
    Stray(sb, fs, i, off, n) ==> o <= fs.ino[i].size
  }

  lemma StrayStep(sb: Sb, fs: Fs, fs1: Fs, own: map<nat, Slot>, i: nat, off: nat, n: nat, o: nat, m: nat, x: nat)
    requires Inv(sb, fs, own) && Formed(fs1) && |fs1.ino| == |fs.ino| && |fs1.disk| == sb.size && i < |fs.ino|
    requires x < MAXFILE && x * BSIZE <= o < o + m <= (x + 1) * BSIZE
    requires Intact(sb, fs, fs1, i, o) && Need(fs1, i, x) <= FreeBlocks(sb, fs1) && StrayAhead(sb, fs, i, off, n, o)
    ensures StrayAhead(sb, fs, i, off, n, o + m)
  {
    if Stray(sb, fs, i, off, n) {
      StrayAligned(sb, fs, own, i);
    }
  }

  // The loop gets past the end of the file only by way of the entry there.
  ghost predicate GotPast(sb: Sb, fs: Fs, i: nat, o: nat)
    requires Formed(fs) && ValidSb(sb, |fs.ino|) && |fs.disk| == sb.size && i < |fs.ino|
  {
    o > fs.ino[i].size ==> Need(fs, i, fs.ino[i].size / BSIZE) <= FreeBlocks(sb, fs)
  }

  lemma GotPastStep(sb: Sb, fs: Fs, fs1: Fs, i: nat, o: nat, m: nat, x: nat)
    requires Formed(fs) && ValidSb(sb, |fs.ino|) && |fs.disk| == sb.size && i < |fs.ino|
    requires Formed(fs1) && |fs1.ino| == |fs.ino| && |fs1.disk| == sb.size
    requires x * BSIZE <= o < o + m <= (x + 1) * BSIZE
    requires Intact(sb, fs, fs1, i, o) && Need(fs1, i, x) <= FreeBlocks(sb, fs1) && GotPast(sb, fs, i, o)
    ensures GotPast(sb, fs, i, o + m)
  {
    if o <= fs.ino[i].size < o + m {
      assert fs.ino[i].size / BSIZE == x;
    }
  }

  // The first bmap to fail: at or past the old end of the file.
  lemma LoopFail(sb: Sb, fs: Fs, fs1: Fs, own1: map<nat, Slot>, i: nat, n: nat, o: nat, x: nat, e: nat)
    requires Formed(fs) && ValidSb(sb, |fs.ino|) && Inv(sb, fs1, own1) && |fs1.ino| == |fs.ino| && |fs.disk| == sb.size
    requires i < |fs.ino| && fs.ino[i].size == fs1.ino[i].size && x * BSIZE <= o && x < e <= MAXFILE
    requires Ledger(sb, fs, fs1, i, n, x, e) && FreeBlocks(sb, fs1) < Need(fs1, i, x)
    ensures o >= fs.ino[i].size && Left(sb, fs, i, n, e) < 0
  {
    NeedFirst(fs1, i, x, e);
    assert Covered(fs1, i, x);
  }

  // It leaves a stray allocation exactly when one block was free and an indirect block was missing.
  lemma StrayFail(sb: Sb, fs: Fs, fs1: Fs, fs2: Fs, i: nat, off: nat, n: nat, o: nat, x: nat)
    requires Formed(fs) && ValidSb(sb, |fs.ino|) && Formed(fs1) && |fs1.ino| == |fs2.ino| == |fs.ino|
    requires |fs.disk| == |fs1.disk| == sb.size && i < |fs.ino|
    requires off <= fs.ino[i].size <= o < off + n <= MAXFILE * BSIZE && x == o / BSIZE
    requires Intact(sb, fs, fs1, i, o) && StrayAhead(sb, fs, i, off, n, o) && FreeBlocks(sb, fs1) < Need(fs1, i, x)
    requires fs2.ino == fs1.ino <==> fs1.ino[i].addrs[x / NINDIRECT] != 0 || FreeBlocks(sb, fs1) == 0
    ensures Stray(sb, fs, i, off, n) <==> o <= fs.ino[i].size && fs2.ino != fs.ino
    ensures GotPast(sb, fs, i, o) ==> (Enlarges(sb, fs, i, off, n) <==> o > fs.ino[i].size)
  {
    assert Ptr(fs1, Ind(i, x / NINDIRECT)) == fs1.ino[i].addrs[x / NINDIRECT];
  }

  // writei's loop after tot of the bytes, with entries x to e still to map.
  ghost predicate LoopAt(sb: Sb, fs: Fs, fs': Fs, own': map<nat, Slot>, i: nat, off: nat, src: seq<nat>, tot: nat,
                         x: nat, e: nat)
    requires Formed(fs) && ValidSb(sb, |fs.ino|) && |fs.disk| == sb.size && i < |fs.ino|
  {
    && tot <= |src| && Inv(sb, fs', own') && OthersSame(sb, fs, fs', i) && Wrote(fs, fs', i, off, src[..tot])
    && Ledger(sb, fs, fs', i, off / BSIZE, x, e) && Intact(sb, fs, fs', i, off + tot)
    && StrayAhead(sb, fs, i, off, |src|, off + tot) && GotPast(sb, fs, i, off + tot)
    && Confined(sb, fs, fs', i, off / BSIZE, e)
  }

  // What a round that wrote src at byte o of entry x, or failed to map the entry, has done to fs.
  ghost predicate Chunk(sb: Sb, fs: Fs, fs': Fs, i: nat, x: nat, o: nat, src: seq<nat>, ok: bool)
    requires Formed(fs) && Formed(fs') && ValidSb(sb, |fs.ino|) && |fs'.ino| == |fs.ino|
    requires |fs.disk| == |fs'.disk| == sb.size
    requires i < |fs.ino| && x < MAXFILE
  {
    && OthersSame(sb, fs, fs', i) && Confined(sb, fs, fs', i, x, x + 1)
    && (ok ==> Wrote(fs, fs', i, o, src))
    && (!ok ==> Wrote(fs, fs', i, o, []))
    && (ok <==> Need(fs, i, x) <= FreeBlocks(sb, fs))
    && (ok ==> Maps(sb, fs, fs', i, x))
    && (!ok ==> FreeBlocks(sb, fs') == 0)
    && (fs'.ino == fs.ino <==> fs.ino[i].addrs[x / NINDIRECT] != 0 || FreeBlocks(sb, fs) == 0)
  }

  lemma PatchConfined(sb: Sb, fs: Fs, fs1: Fs, fs2: Fs, i: nat, x: nat, b: nat)
    requires Formed(fs) && Formed(fs1) && Formed(fs2) && Confined(sb, fs, fs1, i, x, x + 1)
    requires b == Ptr(fs1, Dat(i, x)) != 0 && forall s :: Ptr(fs2, s) == Ptr(fs1, s)
    requires |fs2.disk| == |fs1.disk| && forall c: nat | c < |fs1.disk| :: c == b || fs2.disk[c] == fs1.disk[c]
    ensures Confined(sb, fs, fs2, i, x, x + 1)
  {
    assert PointsTo(fs2, i, x, b);
    ConfinedTrans(sb, fs, fs1, fs2, i, x, x + 1, x, x + 1, x, x + 1);
  }

  // One round of writei's loop: map the block, copy the piece of src that falls into it.
  method WriteChunk(sb: Sb, fs: Fs, i: nat, off: nat, src: seq<nat>, ghost own: map<nat, Slot>)
    returns (fs': Fs, ok: bool, ghost own': map<nat, Slot>)
    requires Inv(sb, fs, own) && i < |fs.ino| && off % BSIZE + |src| <= BSIZE && off / BSIZE < MAXFILE
    ensures Inv(sb, fs', own') && |fs'.ino| == |fs.ino| && Chunk(sb, fs, fs', i, off / BSIZE, off, src, ok)
  {
    var addr;
    fs', addr, own' := Bmap(sb, fs, i, off / BSIZE, own);
    GrowsOthers(sb, fs, fs', i);
    ok := addr != -1;
    if ok {
      PatchBytes(sb, fs', own', i, off, src, addr);
      var fs1 := fs';
      fs' := Written(fs', addr, Patch(fs'.disk[addr], off % BSIZE, src));
      OthersTrans(sb, fs, fs1, fs', i);
      PatchConfined(sb, fs, fs1, fs', i, off / BSIZE, addr);
      forall o: nat ensures ByteAfter(fs, fs', i, off, src, o) {
        assert ByteAfter(fs, fs1, i, 0, [], o) && ByteAfter(fs1, fs', i, off, src, o);
      }
    } else {
      forall o: nat ensures ByteAfter(fs, fs', i, off, [], o) {
        assert ByteAfter(fs, fs', i, 0, [], o);
      }
    }
  }

  lemma Splice(s: seq<nat>, a: nat, b: nat)
    requires a <= b <= |s|
    ensures s[..b] == s[..a] + s[a..b]
  {
  }

  lemma RoundOk(sb: Sb, fs: Fs, fs1: Fs, fs2: Fs, own: map<nat, Slot>, own1: map<nat, Slot>, own2: map<nat, Slot>,
                i: nat, off: nat, src: seq<nat>, tot: nat, tot': nat,
                x: nat, x': nat, e: nat, o: nat, piece: seq<nat>, ok: bool)
    requires Inv(sb, fs, own) && i < |fs.ino| && LoopAt(sb, fs, fs1, own1, i, off, src, tot, x, e)
    requires x < e <= MAXFILE && tot < tot' <= |src| && x * BSIZE <= off + tot < off + tot' <= (x + 1) * BSIZE
    requires x' == x + 1 && o == off + tot && x == o / BSIZE && piece == src[tot..tot'] && ok
    requires Inv(sb, fs2, own2) && |fs2.ino| == |fs1.ino| && Chunk(sb, fs1, fs2, i, o / BSIZE, o, piece, ok)
    ensures LoopAt(sb, fs, fs2, own2, i, off, src, tot', x', e)
  {
    OthersTrans(sb, fs, fs1, fs2, i);
    Splice(src, tot, tot');
    WroteTrans(fs, fs1, fs2, i, off, src[..tot], o, piece, src[..tot']);
    LedgerStep(sb, fs, fs1, fs2, i, off / BSIZE, x, e);
    IntactStep(sb, fs, fs1, fs2, own1, i, off + tot, tot' - tot, x);
    StrayStep(sb, fs, fs1, own, i, off, |src|, off + tot, tot' - tot, x);
    GotPastStep(sb, fs, fs1, i, off + tot, tot' - tot, x);
    ConfinedTrans(sb, fs, fs1, fs2, i, off / BSIZE, e, x, x + 1, off / BSIZE, e);
  }

  // writei's loop has ended after tot of the bytes.
  ghost predicate LoopEnd(sb: Sb, fs: Fs, fs': Fs, own': map<nat, Slot>, i: nat, off: nat, src: seq<nat>, tot: nat)
    requires Formed(fs) && ValidSb(sb, |fs.ino|) && |fs.disk| == sb.size && i < |fs.ino|
  {
    && tot <= |src| && Inv(sb, fs', own') && OthersSame(sb, fs, fs', i) && Wrote(fs, fs', i, off, src[..tot])
    && (tot < |src| <==> FreeBlocks(sb, fs) < NeedAll(fs, i, off / BSIZE, EndBlock(off, |src|)))
    && (tot < |src| ==> off + tot >= fs.ino[i].size && FreeBlocks(sb, fs') == 0)
    && (Enlarges(sb, fs, i, off, |src|) <==> off + tot > fs.ino[i].size)
    && (Stray(sb, fs, i, off, |src|) <==> off + tot <= fs.ino[i].size && fs'.ino != fs.ino)
    && Confined(sb, fs, fs', i, off / BSIZE, EndBlock(off, |src|))
  }

  lemma RoundFailed(sb: Sb, fs: Fs, fs1: Fs, fs2: Fs, own1: map<nat, Slot>, own2: map<nat, Slot>,
                    i: nat, off: nat, src: seq<nat>, tot: nat, x: nat, o: nat, piece: seq<nat>, ok: bool)
    requires Formed(fs) && ValidSb(sb, |fs.ino|) && |fs.disk| == sb.size && i < |fs.ino|
    requires off <= fs.ino[i].size && tot < |src| && off + |src| <= MAXFILE * BSIZE
    requires o == off + tot && !ok && x == o / BSIZE < EndBlock(off, |src|) <= MAXFILE
    requires LoopAt(sb, fs, fs1, own1, i, off, src, tot, x, EndBlock(off, |src|))
    requires Inv(sb, fs2, own2) && |fs2.ino| == |fs1.ino| && Chunk(sb, fs1, fs2, i, o / BSIZE, o, piece, ok)
    ensures LoopEnd(sb, fs, fs2, own2, i, off, src, tot)
  {
    OthersTrans(sb, fs, fs1, fs2, i);
    WroteTrans(fs, fs1, fs2, i, off, src[..tot], o, [], src[..tot]);
    LoopFail(sb, fs, fs1, own1, i, off / BSIZE, off + tot, x, EndBlock(off, |src|));
    StrayFail(sb, fs, fs1, fs2, i, off, |src|, off + tot, x);
    ConfinedTrans(sb, fs, fs1, fs2, i, off / BSIZE, EndBlock(off, |src|), x, x + 1, off / BSIZE, EndBlock(off, |src|));
  }

  lemma LoopDone(sb: Sb, fs: Fs, fs1: Fs, own1: map<nat, Slot>, i: nat, off: nat, src: seq<nat>, tot: nat, x: nat)
    requires Formed(fs) && ValidSb(sb, |fs.ino|) && |fs.disk| == sb.size && i < |fs.ino|
    requires off <= fs.ino[i].size && off + |src| <= MAXFILE * BSIZE
    requires tot == |src| && AtEntry(off, |src|, tot, x)
    requires LoopAt(sb, fs, fs1, own1, i, off, src, tot, x, EndBlock(off, |src|))
    ensures LoopEnd(sb, fs, fs1, own1, i, off, src, tot)
  {
  }

  lemma LoopStart(sb: Sb, fs: Fs, own: map<nat, Slot>, i: nat, off: nat, src: seq<nat>, e: nat)
    requires Inv(sb, fs, own) && i < |fs.ino| && off <= fs.ino[i].size
    ensures LoopAt(sb, fs, fs, own, i, off, src, 0, off / BSIZE, e)
  {
    WroteNothing(sb, fs, i, off);
    ConfinedSame(sb, fs, i, off / BSIZE, e);
  }

  // One round, after tot of the bytes: one more entry, or the end.
  method WriteRound(sb: Sb, fs: Fs, i: nat, off: nat, src: seq<nat>, tot: nat, ghost own: map<nat, Slot>,
                    ghost fs0: Fs, ghost own0: map<nat, Slot>, ghost x: nat)
    returns (fs': Fs, ok: bool, tot': nat, ghost own': map<nat, Slot>, ghost x': nat)
    requires Inv(sb, fs0, own0) && i < |fs0.ino| && off <= fs0.ino[i].size && off + |src| <= MAXFILE * BSIZE
    requires tot < |src| && AtEntry(off, |src|, tot, x)
    requires LoopAt(sb, fs0, fs, own, i, off, src, tot, x, EndBlock(off, |src|))
    ensures ok ==> tot < tot' <= |src| && AtEntry(off, |src|, tot', x')
    ensures !ok || LoopAt(sb, fs0, fs', own', i, off, src, tot', x', EndBlock(off, |src|))
    ensures ok || LoopEnd(sb, fs0, fs', own', i, off, src, tot')
  {
    var o := off + tot;
    var m := Min(|src| - tot, BSIZE - o % BSIZE);
    Round(off, |src|, tot, o, m, x);
    tot', x' := tot + m, x + 1;
    var piece := src[tot..tot'];
    fs', ok, own' := WriteChunk(sb, fs, i, o, piece, own);
    if ok {
      RoundOk(sb, fs0, fs, fs', own0, own, own', i, off, src, tot, tot', x, x', EndBlock(off, |src|), o, piece, ok);
    } else {
      tot', x' := tot, x;
      RoundFailed(sb, fs0, fs, fs', own, own', i, off, src, tot, x, o, piece, ok);
    }
  }

  // The loop of writei, up to the end of src or the first failed bmap.
  method WriteLoop(sb: Sb, fs: Fs, i: nat, off: nat, src: seq<nat>, ghost own: map<nat, Slot>)
    returns (fs': Fs, tot: nat, ghost own': map<nat, Slot>)
    requires Inv(sb, fs, own) && i < |fs.ino| && off <= fs.ino[i].size && off + |src| <= MAXFILE * BSIZE
    ensures LoopEnd(sb, fs, fs', own', i, off, src, tot)
    ensures tot < |src| <==> FreeBlocks(sb, fs) < NeedAll(fs, i, off / BSIZE, EndBlock(off, |src|))
  {
    fs', own', tot := fs, own, 0;
    ghost var x: nat := off / BSIZE;
    LoopStart(sb, fs, own, i, off, src, EndBlock(off, |src|));
    while tot < |src|
      invariant 0 <= tot <= |src| && AtEntry(off, |src|, tot, x)
      invariant LoopAt(sb, fs, fs', own', i, off, src, tot, x, EndBlock(off, |src|))
    {
      var ok;
      fs', ok, tot, own', x := WriteRound(sb, fs', i, off, src, tot, own', fs, own, x);
      if !ok {
        return;
      }
    }
    LoopDone(sb, fs, fs', own', i, off, src, tot, x);
  }

  lemma WroteNothing(sb: Sb, fs: Fs, i: nat, off: nat)
    requires Formed(fs) && i < |fs.ino|
    ensures Wrote(fs, fs, i, off, []) && OthersSame(sb, fs, fs, i)
  {
    forall x, n | x != i ensures OtherBlock(fs, fs, x, n) {}
    forall o: nat ensures ByteAfter(fs, fs, i, off, [], o) {}
  }

  // No disk copy of an inode has changed.
  lemma OthersSynced(sb: Sb, fs: Fs, fs': Fs, i: nat)
    requires Formed(fs) && Formed(fs') && i < |fs.ino| && ValidSb(sb, |fs.ino|) && |fs.disk| == sb.size
    requires OthersSame(sb, fs, fs', i)
    ensures forall x | 0 <= x < |fs.ino| && x != i :: SameCopy(sb, fs, fs', x)
    ensures DiskInode(sb, fs'.disk, i) == DiskInode(sb, fs.disk, i)
  {
    forall x | 0 <= x < |fs.ino| ensures DiskInode(sb, fs'.disk, x) == DiskInode(sb, fs.disk, x) {
      assert sb.inodestart + x / IPB < sb.bmapstart;
    }
  }

  // The end of writei: the size grows over the bytes written, and iupdate records it.
  method Grow(sb: Sb, fs: Fs, fs1: Fs, i: nat, off: nat, sz: nat, ghost src: seq<nat>, ghost own: map<nat, Slot>,
              ghost own': map<nat, Slot>)
    returns (fs': Fs)
    requires Inv(sb, fs, own) && Inv(sb, fs1, own') && i < |fs.ino| && off <= fs.ino[i].size < sz == off + |src|
    requires OthersSame(sb, fs, fs1, i) && Wrote(fs, fs1, i, off, src)
    ensures Inv(sb, fs', own') && |fs'.ino| == |fs.ino| && fs'.ino == Resized(fs1, i, sz).ino
    ensures OnDisk(sb, fs'.disk, i, fs'.ino[i])
    ensures forall x | 0 <= x < |fs.ino| && x != i :: SameCopy(sb, fs, fs', x)
    ensures Bytes(fs', i) == Overlay(Bytes(fs, i), off, src)
    ensures forall x | 0 <= x < |fs.ino| && x != i :: Bytes(fs', x) == Bytes(fs, x)
    ensures FreeBlocks(sb, fs') == FreeBlocks(sb, fs1)
    ensures |fs'.disk| == |fs1.disk|
    ensures forall b: nat | b < |fs1.disk| && b != sb.inodestart + i / IPB :: fs'.disk[b] == fs1.disk[b]
    ensures forall s | Ptr(fs1, s) != 0 :: Ptr(fs', s) == Ptr(fs1, s)
  {
    ResizedInv(sb, fs, fs1, own, own', i, off, src, sz);
    ResizedBytes(sb, fs, fs1, own, i, off, src, sz);
    ghost var fs2 := Resized(fs1, i, sz);
    fs' := Iupdate(sb, Resized(fs1, i, sz), i, own');
    KeptBytes(sb, fs2, fs', own', i);
    ResizedPtrs(fs1, i, sz);
    GrowSynced(sb, fs, fs1, fs2, fs', i);
    GrowOthers(sb, fs, fs1, fs2, fs', own, own', i, sz);
    GrowFree(sb, fs1, fs', i);
  }

  lemma ResizedPtrs(fs: Fs, i: nat, sz: nat)
    requires Formed(fs) && i < |fs.ino|
    ensures Formed(Resized(fs, i, sz)) && forall s :: Ptr(Resized(fs, i, sz), s) == Ptr(fs, s)
  {
  }

  lemma GrowOthers(sb: Sb, fs: Fs, fs1: Fs, fs2: Fs, fs3: Fs, own: map<nat, Slot>, own': map<nat, Slot>, i: nat,
                   sz: nat)
    requires Inv(sb, fs, own) && Formed(fs1) && i < |fs.ino| && OthersSame(sb, fs, fs1, i)
    requires fs2 == Resized(fs1, i, sz) && Inv(sb, fs2, own') && Formed(fs3) && Kept(fs2, fs3)
    ensures |fs3.ino| == |fs.ino| && forall x | 0 <= x < |fs.ino| && x != i :: Bytes(fs3, x) == Bytes(fs, x)
  {
    forall x | 0 <= x < |fs.ino| && x != i ensures Bytes(fs3, x) == Bytes(fs, x) {
      OthersBytes(sb, fs, fs1, own, i, x, sz);
      KeptBytes(sb, fs2, fs3, own', x);
    }
  }

  lemma GrowFree(sb: Sb, fs1: Fs, fs2: Fs, i: nat)
    requires Formed(fs1) && Formed(fs2) && ValidSb(sb, |fs1.ino|) && |fs1.disk| == |fs2.disk| == sb.size
    requires i < |fs1.ino| == |fs2.ino|
    requires forall b: nat | b < |fs1.disk| && b != sb.inodestart + i / IPB :: fs2.disk[b] == fs1.disk[b]
    ensures FreeBlocks(sb, fs2) == FreeBlocks(sb, fs1)
  {
    assert SameUsed(sb, fs1, fs2);
    SameFree(sb, fs1, fs2);
  }

  lemma GrowSynced(sb: Sb, fs: Fs, fs1: Fs, fs2: Fs, fs3: Fs, i: nat)
    requires Formed(fs) && Formed(fs1) && i < |fs.ino| && ValidSb(sb, |fs.ino|) && |fs.disk| == sb.size
    requires OthersSame(sb, fs, fs1, i)
    requires Formed(fs2) && fs2.disk == fs1.disk && |fs2.ino| == |fs.ino|
    requires forall x | 0 <= x < |fs.ino| && x != i :: fs2.ino[x] == fs1.ino[x]
    requires Formed(fs3) && |fs3.ino| == |fs.ino| && |fs3.disk| == sb.size
    requires forall x | 0 <= x < |fs.ino| && x != i :: SameCopy(sb, fs2, fs3, x)
    ensures forall x | 0 <= x < |fs.ino| && x != i :: SameCopy(sb, fs, fs3, x)
  {
    OthersSynced(sb, fs, fs1, i);
    forall x | 0 <= x < |fs.ino| && x != i ensures SameCopy(sb, fs, fs3, x) {
      assert SameCopy(sb, fs, fs1, x) && SameCopy(sb, fs2, fs3, x);
    }
  }

  // Without growth the inode is not written back, so a disk copy that was right stays right only if
  // the inode is unchanged.
  lemma NotGrown(sb: Sb, fs: Fs, fs': Fs, own: map<nat, Slot>, i: nat, off: nat, src: seq<nat>)
    requires Inv(sb, fs, own) && Formed(fs') && i < |fs.ino| && off + |src| <= fs.ino[i].size
    requires OthersSame(sb, fs, fs', i) && Wrote(fs, fs', i, off, src)
    ensures Bytes(fs', i) == Overlay(Bytes(fs, i), off, src)
    ensures forall x | 0 <= x < |fs.ino| && x != i :: SameCopy(sb, fs, fs', x) && Bytes(fs', x) == Bytes(fs, x)
    ensures DiskInode(sb, fs'.disk, i) == DiskInode(sb, fs.disk, i) && Gains(fs.ino[i], fs'.ino[i])
    ensures fs'.ino == fs.ino <==> fs'.ino[i] == fs.ino[i]
  {
    var sz := fs.ino[i].size;
    assert Resized(fs', i, sz) == fs';
    ResizedBytes(sb, fs, fs', own, i, off, src, sz);
    OthersSynced(sb, fs, fs', i);
    forall x | 0 <= x < |fs.ino| && x != i ensures Bytes(fs', x) == Bytes(fs, x) {
      OthersBytes(sb, fs, fs', own, i, x, sz);
    }
  }

  // writei: src, or on a full disk a prefix of it, is laid over the file at off; no other file changes.
  // It falls short exactly when fewer blocks are free than the range still needs.  The disk copy of
  // the inode is right afterwards if the file grew, or if it was right and the call left no stray block.
  method Writei(sb: Sb, fs: Fs, i: nat, off: nat, src: seq<nat>, ghost own: map<nat, Slot>)
    returns (fs': Fs, r: int, ghost tot: nat, ghost own': map<nat, Slot>)
    requires Inv(sb, fs, own) && i < |fs.ino| && off < UINT && |src| < UINT
    ensures Inv(sb, fs', own') && |fs'.ino| == |fs.ino|
    ensures r == -1 <==> off > fs.ino[i].size || off + |src| >= UINT || off + |src| > MAXFILE * BSIZE
    ensures r == -1 ==> fs' == fs
    ensures r != -1 ==> off <= fs.ino[i].size && r == (if tot == |src| then tot else -2)
    ensures r != -1 ==> tot <= |src| && Bytes(fs', i) == Overlay(Bytes(fs, i), off, src[..tot])
    ensures r == -2 <==> off <= fs.ino[i].size && off + |src| <= MAXFILE * BSIZE &&
                         FreeBlocks(sb, fs) < NeedAll(fs, i, off / BSIZE, EndBlock(off, |src|))
    ensures r == -2 ==> FreeBlocks(sb, fs') == 0
    ensures forall x | 0 <= x < |fs.ino| && x != i :: SameCopy(sb, fs, fs', x) && Bytes(fs', x) == Bytes(fs, x)
    ensures fs'.ino[i].size > fs.ino[i].size <==> Enlarges(sb, fs, i, off, |src|)
    ensures fs'.ino == fs.ino <==> !Enlarges(sb, fs, i, off, |src|) && !Stray(sb, fs, i, off, |src|)
    ensures CopyAfter(sb, fs, fs', i, off, |src|)
    ensures Synced(sb, fs) ==> (Synced(sb, fs') <==> !Stray(sb, fs, i, off, |src|))
    ensures Behind(sb, fs) ==> Behind(sb, fs')
    ensures Touches(sb, fs, fs', i, off, |src|)
  {
    own', tot := own, 0;
    if off > fs.ino[i].size || (off + |src|) % UINT < off {
      return fs, -1, 0, own;
    }
    if (off + |src|) % UINT > MAXFILE * BSIZE {
      return fs, -1, 0, own;
    }
    var fs1, t, own1 := WriteLoop(sb, fs, i, off, src, own);
    r := if t < |src| then -2 else |src|;
    tot, own' := t, own1;
    if off + t > fs.ino[i].size {
      fs' := Grow(sb, fs, fs1, i, off, off + t, src[..t], own, own1);
      GrownTouches(sb, fs, fs1, fs', i, off, |src|);
    } else {
      fs' := fs1;
      NotGrown(sb, fs, fs1, own, i, off, src[..t]);
    }
    StillSynced(sb, fs, fs', i, off, |src|);
    StillBehind(sb, fs, fs', own, i, off, |src|);
  }

  // A write of n bytes at off changes no blocks but those of the bitmap, those that hold or map the
  // entries of its range and, if the file grows, the one that holds its inode.
  ghost predicate Touches(sb: Sb, fs: Fs, fs': Fs, i: nat, off: nat, n: nat)
    requires Formed(fs) && Formed(fs') && ValidSb(sb, |fs.ino|) && |fs.disk| == |fs'.disk| == sb.size && i < |fs.ino|
  {
    forall b: nat | b < |fs.disk| ::
      || fs'.disk[b] == fs.disk[b] || InBitmap(sb, b) || InRange(fs', i, off / BSIZE, EndBlock(off, n), b)
      || (b == sb.inodestart + i / IPB && Enlarges(sb, fs, i, off, n))
  }

  lemma GrownTouches(sb: Sb, fs: Fs, fs1: Fs, fs2: Fs, i: nat, off: nat, n: nat)
    requires Formed(fs) && Formed(fs1) && Formed(fs2) && ValidSb(sb, |fs.ino|) && i < |fs.ino|
    requires |fs.disk| == |fs1.disk| == |fs2.disk| == sb.size && Enlarges(sb, fs, i, off, n)
    requires Confined(sb, fs, fs1, i, off / BSIZE, EndBlock(off, n))
    requires forall b: nat | b < |fs1.disk| && b != sb.inodestart + i / IPB :: fs2.disk[b] == fs1.disk[b]
    requires forall s | Ptr(fs1, s) != 0 :: Ptr(fs2, s) == Ptr(fs1, s)
    ensures Touches(sb, fs, fs2, i, off, n)
  {
    var n0, n1 := off / BSIZE, EndBlock(off, n);
    forall b: nat | b < |fs.disk| && b != sb.inodestart + i / IPB
      ensures fs2.disk[b] == fs.disk[b] || InBitmap(sb, b) || InRange(fs2, i, n0, n1, b)
    {
      if InRange(fs1, i, n0, n1, b) { RangeKept(fs1, fs2, i, n0, n1, n0, n1, b); }
    }
  }

  // What a write of n bytes at off does to the disk copy of inode i, from any state: it is brought in
  // line if the file grows, and untouched if not.
  ghost predicate CopyAfter(sb: Sb, fs: Fs, fs': Fs, i: nat, off: nat, n: nat)
    requires Formed(fs) && Formed(fs') && ValidSb(sb, |fs.ino|) && |fs'.ino| == |fs.ino| && i < |fs.ino|
    requires |fs.disk| == |fs'.disk| == sb.size
  {
    var before, after := OnDisk(sb, fs.disk, i, fs.ino[i]), OnDisk(sb, fs'.disk, i, fs'.ino[i]);
    && (Enlarges(sb, fs, i, off, n) ==> after)
    && (!Enlarges(sb, fs, i, off, n) ==>
        DiskInode(sb, fs'.disk, i) == DiskInode(sb, fs.disk, i) && Gains(fs.ino[i], fs'.ino[i]))
    && (before ==> (after <==> !Stray(sb, fs, i, off, n)))
  }

  // A disk copy c that lacks, at most, addresses past the end of the file.
  ghost predicate Trails(c: Inode, ip: Inode)
    requires |c.addrs| == |ip.addrs| == NDIRECT
  {
    c.size == ip.size && forall j | 0 <= j < NDIRECT :: c.addrs[j] == ip.addrs[j] || PastEnd(c, ip, j)
  }

  ghost predicate PastEnd(c: Inode, ip: Inode, j: nat)
    requires |c.addrs| == |ip.addrs| == NDIRECT && j < NDIRECT
  {
    c.addrs[j] == 0 && ip.size <= j * NINDIRECT * BSIZE
  }

  ghost predicate Behind(sb: Sb, fs: Fs)
    requires Formed(fs) && ValidSb(sb, |fs.ino|) && |fs.disk| == sb.size
  {
    forall x | 0 <= x < |fs.ino| :: Trails(DiskInode(sb, fs.disk, x), fs.ino[x])
  }

  lemma GainsTrails(sb: Sb, fs: Fs, own: map<nat, Slot>, i: nat, c: Inode, ip': Inode)
    requires Inv(sb, fs, own) && i < |fs.ino| && |c.addrs| == |ip'.addrs| == NDIRECT
    requires Trails(c, fs.ino[i]) && Gains(fs.ino[i], ip')
    ensures Trails(c, ip')
  {
    forall j: nat | j < NDIRECT ensures c.addrs[j] == ip'.addrs[j] || PastEnd(c, ip', j) {
      assert c.addrs[j] == fs.ino[i].addrs[j] || PastEnd(c, fs.ino[i], j);
      assert Covered(fs, i, j * NINDIRECT);
      assert j * NINDIRECT / NINDIRECT == j;
    }
  }

  lemma StillBehind(sb: Sb, fs: Fs, fs': Fs, own: map<nat, Slot>, i: nat, off: nat, n: nat)
    requires Inv(sb, fs, own) && Formed(fs') && |fs'.ino| == |fs.ino| && |fs'.disk| == sb.size && i < |fs.ino|
    requires CopyAfter(sb, fs, fs', i, off, n) && forall x | 0 <= x < |fs.ino| && x != i :: SameCopy(sb, fs, fs', x)
    ensures Behind(sb, fs) ==> Behind(sb, fs')
  {
    if Behind(sb, fs) {
      forall x | 0 <= x < |fs.ino| ensures Trails(DiskInode(sb, fs'.disk, x), fs'.ino[x]) {
        assert Trails(DiskInode(sb, fs.disk, x), fs.ino[x]);
        if x != i {
          assert SameCopy(sb, fs, fs', x);
        } else if !Enlarges(sb, fs, i, off, n) {
          GainsTrails(sb, fs, own, i, DiskInode(sb, fs.disk, i), fs'.ino[i]);
        }
      }
    }
  }

  lemma StillSynced(sb: Sb, fs: Fs, fs': Fs, i: nat, off: nat, n: nat)
    requires Formed(fs) && Formed(fs') && ValidSb(sb, |fs.ino|) && |fs'.ino| == |fs.ino| && i < |fs.ino|
    requires |fs.disk| == |fs'.disk| == sb.size && CopyAfter(sb, fs, fs', i, off, n)
    requires forall x | 0 <= x < |fs.ino| && x != i :: SameCopy(sb, fs, fs', x)
    ensures Synced(sb, fs) ==> (Synced(sb, fs') <==> !Stray(sb, fs, i, off, n))
  {
    if Synced(sb, fs) {
      assert OnDisk(sb, fs.disk, i, fs.ino[i]);
      if !Stray(sb, fs, i, off, n) {
        forall x | 0 <= x < |fs.ino| ensures OnDisk(sb, fs'.disk, x, fs'.ino[x]) {
          if x != i { assert SameCopy(sb, fs, fs', x) && OnDisk(sb, fs.disk, x, fs.ino[x]); }
        }
      }
    }
  }

  // A file system of three blocks: inodes, bitmap, and one free block.
  function TinySb(): Sb {
    Sb(3, 0, 1, 2)
  }

  function Tiny(): Fs {
    Fs([Zeros(), Zeros()[0 := 3], Zeros()], [Inode(0, seq(NDIRECT, j => 0))])
  }

  lemma TinyInv()
    ensures Inv(TinySb(), Tiny(), map[]) && Synced(TinySb(), Tiny()) && FreeBlocks(TinySb(), Tiny()) == 1
  {
    var sb, fs := TinySb(), Tiny();
    assert ByteBit(3, 0) && ByteBit(3, 1) && !ByteBit(3, 2);
    assert Used(sb, fs.disk, 0) && Used(sb, fs.disk, 1) && !Used(sb, fs.disk, 2);
    EmptyInv(sb, fs);
    assert Clear(sb, fs, 1) == 0 && Clear(sb, fs, 2) == 0;
    forall w: nat | w < WORDS ensures Word(Zeros(), w) == 0 {
      ZeroWords(w);
    }
    assert OnDisk(sb, fs.disk, 0, fs.ino[0]);
  }

  // One byte written to its empty file: the last block becomes an indirect block, the write falls
  // short, and the inode on disk does not know of that block.
  method StrayWrite() returns (fs': Fs, r: int, ghost own': map<nat, Slot>)
    ensures Inv(TinySb(), fs', own') && |fs'.ino| == 1 && r == -2 && !Synced(TinySb(), fs')
  {
    TinyInv();
    NeedFirst(Tiny(), 0, 0, 1);
    ghost var tot;
    fs', r, tot, own' := Writei(TinySb(), Tiny(), 0, 0, [7], map[]);
  }

  /** The mounted file system: block contents and in-memory inodes, updated in place. */
  class FileSystem {
    const sb: Sb
    var fs: Fs
    ghost var own: map<nat, Slot>

    ghost predicate Valid()
      reads this
    {
      Inv(sb, fs, own)
    }

    constructor (sb0: Sb, fs0: Fs, ghost own0: map<nat, Slot>)
      requires Inv(sb0, fs0, own0)
      ensures Valid() && sb == sb0 && fs == fs0
    {
      sb, fs, own := sb0, fs0, own0;
    }

    ghost function Content(i: nat): seq<nat>
      requires Valid() && i < |fs.ino|
      reads this
    {
      Bytes(fs, i)
    }

    method Read(i: nat, off: nat, n: nat) returns (dst: seq<nat>, r: int)
      requires Valid() && i < |fs.ino| && off < UINT && n < UINT
      modifies this
      ensures Valid() && fs == old(fs) && own == old(own)
      ensures r == -1 <==> off > fs.ino[i].size || UINT <= off + n
      ensures r != -1 ==> off <= fs.ino[i].size && r == Min(n, fs.ino[i].size - off) && dst == Content(i)[off..off + r]
    {
      var fs1;
      fs1, dst, r := Readi(sb, fs, i, off, n, own);
      fs := fs1;
    }

    method Write(i: nat, off: nat, src: seq<nat>) returns (r: int, ghost tot: nat)
      requires Valid() && i < |fs.ino| && off < UINT && |src| < UINT
      modifies this
      ensures Valid() && |fs.ino| == |old(fs).ino|
      ensures r == -1 <==> off > old(fs).ino[i].size || off + |src| >= UINT || off + |src| > MAXFILE * BSIZE
      ensures r == -1 ==> fs == old(fs)
      ensures r != -1 ==> off <= |old(Content(i))| && r == (if tot == |src| then tot else -2)
      ensures r == -2 <==> off <= old(fs).ino[i].size && off + |src| <= MAXFILE * BSIZE &&
                           FreeBlocks(sb, old(fs)) < NeedAll(old(fs), i, off / BSIZE, EndBlock(off, |src|))
      ensures r != -1 ==> tot <= |src| && Content(i) == Overlay(old(Content(i)), off, src[..tot])
      ensures forall x | 0 <= x < |fs.ino| && x != i :: SameCopy(sb, old(fs), fs, x) && Content(x) == old(Content(x))
      ensures fs.ino[i].size > old(fs).ino[i].size <==> Enlarges(sb, old(fs), i, off, |src|)
      ensures CopyAfter(sb, old(fs), fs, i, off, |src|)
      ensures Synced(sb, old(fs)) ==> (Synced(sb, fs) <==> !Stray(sb, old(fs), i, off, |src|))
      ensures Behind(sb, old(fs)) ==> Behind(sb, fs)
      ensures Touches(sb, old(fs), fs, i, off, |src|)
    {
      var fs1;
      ghost var own1;
      fs1, r, tot, own1 := Writei(sb, fs, i, off, src, own);
      fs, own := fs1, own1;
    }
  }

  // What writei accepted whole, readi returns.
  method WriteThenRead(sb: Sb, fs: Fs, i: nat, off: nat, src: seq<nat>, ghost own: map<nat, Slot>)
    returns (r: int, dst: seq<nat>)
    requires Inv(sb, fs, own) && i < |fs.ino| && off < UINT && |src| < UINT
    ensures r == |src| ==> dst == src
  {
    var fs1, r1, tot, own1 := Writei(sb, fs, i, off, src, own);
    r := r1;
    dst := [];
    if r == |src| {
      var fs2, dst1, r2 := Readi(sb, fs1, i, off, |src|, own1);
      dst := dst1;
      assert src[..tot] == src;
      assert Overlay(Bytes(fs, i), off, src)[off..off + |src|] == src;
    }
  }
}
