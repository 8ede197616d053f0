/**
 How fs.c looks at a 512-byte block: as 128 little-endian words (an indirect
 block, part of an inode block) and as 4096 bits (a block of the free map).
 */
module BlockCodec {

  const BSIZE := 512
  const WORDS := 128
  const BITS := 4096

  type Block = seq<nat>

  predicate IsBlock(b: Block) {
    |b| == BSIZE
  }

  function Zeros(): (r: Block)
    ensures IsBlock(r) && forall i | 0 <= i < BSIZE :: r[i] == 0
  {
    seq(BSIZE, i => 0)
  }

  // ------------------------------------------------------------- words

  function Word(b: Block, i: nat): nat
    requires IsBlock(b) && i < WORDS
  {
    b[4 * i] + 0x100 * b[4 * i + 1] + 0x1_0000 * b[4 * i + 2] + 0x100_0000 * b[4 * i + 3]
  }

  function PutWord(b: Block, i: nat, w: nat): (r: Block)
    requires IsBlock(b) && i < WORDS && w < 0x1_0000_0000
    ensures IsBlock(r) && Word(r, i) == w
    ensures forall j: nat | j < WORDS && j != i :: Word(r, j) == Word(b, j)
  {
    b[4 * i := w % 0x100][4 * i + 1 := w / 0x100 % 0x100]
     [4 * i + 2 := w / 0x1_0000 % 0x100][4 * i + 3 := w / 0x100_0000]
  }

  lemma ZeroWords(i: nat)
    requires i < WORDS
    ensures Word(Zeros(), i) == 0
  {
  }

  // -------------------------------------------------------------- bits

  // (x & 1 << k) != 0
  predicate ByteBit(x: nat, k: nat) {
    if k == 0 then x % 2 == 1 else ByteBit(x / 2, k - 1)
  }

  // x | 1 << k
  function OrBit(x: nat, k: nat): nat {
    if k == 0 then (if x % 2 == 1 then x else x + 1) else 2 * OrBit(x / 2, k - 1) + x % 2
  }

  lemma {:induction false} OrBitBits(x: nat, k: nat, j: nat)
    ensures ByteBit(OrBit(x, k), j) == (j == k || ByteBit(x, j))
  {
    if k > 0 {
      assert OrBit(x, k) / 2 == OrBit(x / 2, k - 1) && OrBit(x, k) % 2 == x % 2;
      if j > 0 {
        OrBitBits(x / 2, k - 1, j - 1);
      }
    } else if j > 0 {
      assert OrBit(x, 0) / 2 == x / 2;
    }
  }

  // Bit bi of a free-map block.
  predicate Bit(b: Block, bi: nat)
    requires IsBlock(b) && bi < BITS
  {
    ByteBit(b[bi / 8], bi % 8)
  }

  function SetBit(b: Block, bi: nat): (r: Block)
    requires IsBlock(b) && bi < BITS
    ensures IsBlock(r)
  {
    b[bi / 8 := OrBit(b[bi / 8], bi % 8)]
  }

  lemma SetBitBits(b: Block, bi: nat, bj: nat)
    requires IsBlock(b) && bi < BITS && bj < BITS
    ensures Bit(SetBit(b, bi), bj) == (bi == bj || Bit(b, bj))
  {
    if bi / 8 == bj / 8 {
      OrBitBits(b[bi / 8], bi % 8, bj % 8);
      assert bi == bj <==> bi % 8 == bj % 8;
    }
  }
}
