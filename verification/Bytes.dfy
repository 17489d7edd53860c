/** Bytes, fixed-size blocks and the little-endian 32-bit words stored in them. */
module Bytes {

  type byte = x: int | 0 <= x < 256

  const BLOCK_SIZE := 4096
  const WORDS_PER_BLOCK := 1024
  const WORD_LIMIT := 0x1_0000_0000

  type Block = b: seq<byte> | |b| == BLOCK_SIZE witness seq(BLOCK_SIZE, _ => 0)

  datatype Option<+T> = None | Some(value: T)

  function Max(a: int, b: int): int { if a > b then a else b }

  function Min(a: int, b: int): int { if a < b then a else b }

  /** The block a memset to zero leaves behind. */
  function ZeroBlock(): (b: Block)
    ensures forall i :: 0 <= i < BLOCK_SIZE ==> b[i] == 0
  {
    seq(BLOCK_SIZE, _ => 0)
  }

  /** The four bytes of a little-endian word, as one number. */
  function Join(b0: byte, b1: byte, b2: byte, b3: byte): (w: nat)
    ensures w < WORD_LIMIT
  {
    b0 + 0x100 * b1 + 0x1_0000 * b2 + 0x100_0000 * b3
  }

  /** Word k of a block, read as the kernel reads `((uint32_t*)buffer)[k]`. */
  function Word(b: Block, k: nat): (w: nat)
    requires k < WORDS_PER_BLOCK
    ensures w < WORD_LIMIT
  {
    Join(b[4 * k], b[4 * k + 1], b[4 * k + 2], b[4 * k + 3])
  }

  /** The block after `((uint32_t*)buffer)[k] = w`. */
  function PutWord(b: Block, k: nat, w: nat): (r: Block)
    requires k < WORDS_PER_BLOCK && w < WORD_LIMIT
  {
    b[4 * k := w % 0x100][4 * k + 1 := w / 0x100 % 0x100][4 * k + 2 := w / 0x1_0000 % 0x100][4 * k + 3 := w / 0x100_0000]
  }

  /** Storing a word and reading any word back: only word k changes. */
  lemma WordOfPutWord(b: Block, k: nat, w: nat, j: nat)
    requires k < WORDS_PER_BLOCK && w < WORD_LIMIT && j < WORDS_PER_BLOCK
    ensures Word(PutWord(b, k, w), j) == if j == k then w else Word(b, j)
  {
    var r := PutWord(b, k, w);
    if j == k {
      assert w / 0x1_0000 == w / 0x100 / 0x100;
      assert w / 0x100_0000 == w / 0x1_0000 / 0x100;
      assert r[4 * k] == w % 0x100;
      assert r[4 * k + 1] == w / 0x100 % 0x100;
    }
  }

  lemma WordOfZero(k: nat)
    requires k < WORDS_PER_BLOCK
    ensures Word(ZeroBlock(), k) == 0
  {
  }
}
