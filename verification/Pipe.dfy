/**
 pipe.c: a ring of 512 bytes with free-running 32-bit counters, filled and drained
 in critical sections under the pipe's lock, and the stream that any interleaving
 of readers and writers sees.
 */
module Pipe {

  const PIPESIZE := 512
  const UINT := 0x1_0000_0000

  // ------------------------------------------------------------- the ring

  // The n bytes of ring d from counter value start on.
  ghost function Window(d: seq<nat>, start: nat, n: nat): (r: seq<nat>)
    requires |d| == PIPESIZE
    ensures |r| == n
  {
    if n == 0 then [] else Window(d, start, n - 1) + [d[(start + n - 1) % PIPESIZE]]
  }

  lemma {:induction false} WindowAt(d: seq<nat>, start: nat, n: nat, k: nat)
    requires |d| == PIPESIZE && k < n
    ensures Window(d, start, n)[k] == d[(start + k) % PIPESIZE]
  {
    if k < n - 1 {
      WindowAt(d, start, n - 1, k);
    }
  }

  // Storing behind a window that leaves a free place extends it.
  lemma WindowPush(d: seq<nat>, start: nat, n: nat, x: nat)
    requires |d| == PIPESIZE && n < PIPESIZE
    ensures Window(d[(start + n) % PIPESIZE := x], start, n + 1) == Window(d, start, n) + [x]
  {
    var d' := d[(start + n) % PIPESIZE := x];
    forall k | 0 <= k < n ensures Window(d', start, n)[k] == Window(d, start, n)[k] {
      WindowAt(d', start, n, k);
      WindowAt(d, start, n, k);
      Apart(start + k, start + n);
    }
    assert Window(d', start, n) == Window(d, start, n);
  }

  lemma Apart(a: nat, b: nat)
    requires a < b < a + PIPESIZE
    ensures a % PIPESIZE != b % PIPESIZE
  {
  }

  lemma WindowPop(d: seq<nat>, start: nat, n: nat)
    requires |d| == PIPESIZE && 0 < n
    ensures Window(d, start, n) == [d[start % PIPESIZE]] + Window(d, start + 1, n - 1)
  {
    var w := [d[start % PIPESIZE]] + Window(d, start + 1, n - 1);
    forall k | 0 <= k < n ensures Window(d, start, n)[k] == w[k] {
      WindowAt(d, start, n, k);
      if k > 0 {
        WindowAt(d, start + 1, n - 1, k - 1);
        assert start + 1 + (k - 1) == start + k;
      }
    }
  }

  // The counters may wrap: only their residue modulo the ring size counts.
  lemma WindowWrap(d: seq<nat>, start: nat, n: nat)
    requires |d| == PIPESIZE
    ensures Window(d, start % UINT, n) == Window(d, start, n)
  {
    forall k | 0 <= k < n ensures Window(d, start % UINT, n)[k] == Window(d, start, n)[k] {
      WindowAt(d, start, n, k);
      WindowAt(d, start % UINT, n, k);
      SameResidue(start, k);
    }
  }

  lemma SameResidue(start: nat, k: nat)
    ensures (start % UINT + k) % PIPESIZE == (start + k) % PIPESIZE
  {
    var a, b := start % UINT + k, 0x80_0000 * (start / UINT);
    assert start + k == a + PIPESIZE * b;
    Multiple(a, b);
  }

  lemma Multiple(a: nat, b: nat)
    ensures (a + PIPESIZE * b) % PIPESIZE == a % PIPESIZE
  {
  }

  // nwrite - nread in 32-bit arithmetic.
  function Ahead(nread: nat, nwrite: nat): nat
    requires nread < UINT && nwrite < UINT
  {
    if nread <= nwrite then nwrite - nread else nwrite + UINT - nread
  }

  lemma PutCounts(nread: nat, nwrite: nat)
    requires nread < UINT && nwrite < UINT && Ahead(nread, nwrite) < PIPESIZE
    ensures (nwrite + 1) % UINT < UINT && Ahead(nread, (nwrite + 1) % UINT) == Ahead(nread, nwrite) + 1
    ensures nwrite % PIPESIZE == (nread + Ahead(nread, nwrite)) % PIPESIZE
  {
  }

  lemma GetCounts(nread: nat, nwrite: nat)
    requires nread < UINT && nwrite < UINT && 0 < Ahead(nread, nwrite)
    ensures (nread + 1) % UINT < UINT && Ahead((nread + 1) % UINT, nwrite) == Ahead(nread, nwrite) - 1
  {
  }

  // ------------------------------------------------- what a section does

  function Min(a: int, b: int): int {
    if a < b then a else b
  }

  // A writer at byte i of src puts bytes until src ends or the pipe is full.
  predicate PutSection(buf: seq<nat>, buf': seq<nat>, src: seq<nat>, i: nat, i': nat) {
    && i <= i' <= |src| && buf' == buf + src[i..i'] && |buf'| <= PIPESIZE
    && (i' < |src| ==> |buf'| == PIPESIZE)
  }

  // A reader takes up to n bytes from the front.
  predicate GetSection(buf: seq<nat>, buf': seq<nat>, n: int, got: seq<nat>) {
    && buf == got + buf' && |got| == (if n < 0 then 0 else Min(n, |buf|))
  }

  class Pipe {
    const data: array<nat>
    var nread: nat
    var nwrite: nat
    var readopen: bool
    var writeopen: bool

    ghost function Count(): nat
      requires nread < UINT && nwrite < UINT
      reads this
    {
      Ahead(nread, nwrite)
    }

    ghost predicate Valid()
      reads this
    {
      data.Length == PIPESIZE && nread < UINT && nwrite < UINT && Count() <= PIPESIZE
    }

    ghost function Buffered(): (r: seq<nat>)
      requires Valid()
      reads this, data
      ensures |r| == Count()
    {
      Window(data[..], nread, Count())
    }

    // pipealloc
    constructor ()
      ensures Valid() && fresh(data) && Buffered() == [] && readopen && writeopen
    {
      data := new nat[PIPESIZE];
      nread, nwrite, readopen, writeopen := 0, 0, true, true;
    }

    predicate IsFull()
      requires Valid()
      reads this
      ensures IsFull() <==> Count() == PIPESIZE
    {
      nwrite == (nread + PIPESIZE) % UINT
    }

    predicate IsEmpty()
      requires Valid()
      reads this
      ensures IsEmpty() <==> Count() == 0
    {
      nread == nwrite
    }

    // data[nwrite++ % PIPESIZE] = x
    method Put(x: nat)
      requires Valid() && !IsFull()
      modifies this`nwrite, data
      ensures Valid() && Buffered() == old(Buffered()) + [x]
    {
      ghost var n := Count();
      WindowPush(data[..], nread, n, x);
      PutCounts(nread, nwrite);
      ghost var d := data[..];
      data[nwrite % PIPESIZE] := x;
      assert data[..] == d[(nread + n) % PIPESIZE := x];
      nwrite := (nwrite + 1) % UINT;
    }

    // data[nread++ % PIPESIZE]
    method Get() returns (x: nat)
      requires Valid() && !IsEmpty()
      modifies this`nread
      ensures Valid() && old(Buffered()) == [x] + Buffered()
    {
      ghost var n := Count();
      WindowPop(data[..], nread, n);
      WindowWrap(data[..], nread + 1, n - 1);
      GetCounts(nread, nwrite);
      x := data[nread % PIPESIZE];
      nread := (nread + 1) % UINT;
    }

    // The loop of pipewrite from byte i to the end of addr or to a full pipe.
    method Fill(addr: seq<nat>, i: nat) returns (i': nat)
      requires Valid() && i <= |addr|
      modifies this`nwrite, data
      ensures Valid() && PutSection(old(Buffered()), Buffered(), addr, i, i')
    {
      i' := i;
      while i' < |addr| && !IsFull()
        invariant Valid() && i <= i' <= |addr| && Buffered() == old(Buffered()) + addr[i..i']
      {
        Put(addr[i']);
        assert addr[i..i' + 1] == addr[i..i'] + [addr[i']];
        assert old(Buffered()) + addr[i..i'] + [addr[i']] == old(Buffered()) + (addr[i..i'] + [addr[i']]);
        i' := i' + 1;
      }
    }

    // The copy loop of piperead.
    method Drain(n: int) returns (got: seq<nat>)
      requires Valid()
      modifies this`nread
      ensures Valid() && GetSection(old(Buffered()), Buffered(), n, got)
    {
      got := [];
      var i := 0;
      while i < n && !IsEmpty()
        invariant Valid() && i == |got| && (0 <= n ==> i <= n) && (n < 0 ==> i == 0)
        invariant old(Buffered()) == got + Buffered()
        decreases n - i
      {
        ghost var b := Buffered();
        var x := Get();
        assert got + b == got + [x] + Buffered();
        got, i := got + [x], i + 1;
      }
    }
  }
}
