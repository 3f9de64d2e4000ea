// Disk blocks as bytes, and the little-endian 32-bit words stored in them.
module Blocks {

  const BSIZE: nat := 1024
  const WORDS: nat := 256  // 32-bit words per block

  type byte = x: int | 0 <= x < 256
  type uint = x: int | 0 <= x < 0x1_0000_0000
  type Block = b: seq<byte> | |b| == BSIZE witness seq(BSIZE, _ => 0)

  function ZeroBlock(): (b: Block) {
    seq(BSIZE, _ => 0)
  }

  /** The i-th 32-bit word of a block. */
  function Word(b: Block, i: nat): (w: uint)
    requires i < WORDS
  {
    var b0: int, b1: int, b2: int, b3: int := b[4*i], b[4*i+1], b[4*i+2], b[4*i+3];
    b0 + 0x100 * b1 + 0x1_0000 * b2 + 0x100_0000 * b3
  }

  function WithWord(b: Block, i: nat, w: uint): (r: Block)
    requires i < WORDS
  {
    b[4*i := w % 0x100][4*i+1 := w / 0x100 % 0x100][4*i+2 := w / 0x1_0000 % 0x100][4*i+3 := w / 0x100_0000]
  }

  /** Storing a word changes that word and no other one. */
  lemma WordOfWithWord(b: Block, i: nat, w: uint, j: nat)
    requires i < WORDS && j < WORDS
    ensures Word(WithWord(b, i, w), j) == if i == j then w else Word(b, j)
  {
    var r := WithWord(b, i, w);
    if i == j {
      assert r[4*i] == w % 0x100 && r[4*i+1] == w / 0x100 % 0x100;
      assert r[4*i+2] == w / 0x1_0000 % 0x100 && r[4*i+3] == w / 0x100_0000;
      LittleEndian(w);
    } else {
      assert forall k :: 0 <= k < BSIZE && !(4*i <= k < 4*i + 4) ==> r[k] == b[k];
    }
  }

  lemma LittleEndian(w: uint)
    ensures w == w % 0x100 + 0x100 * (w / 0x100 % 0x100) + 0x1_0000 * (w / 0x1_0000 % 0x100) + 0x100_0000 * (w / 0x100_0000)
  {
  }

  lemma WordOfZero(i: nat)
    requires i < WORDS
    ensures Word(ZeroBlock(), i) == 0
  {
  }
}
