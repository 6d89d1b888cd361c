/** The message digest of RFC 1321, sections 3.1 to 3.5: pad, split, fold, encode. */
module Md5Spec {
  import opened Words
  import opened Md5Rounds

  const BLOCK: nat := 64

  /** Section 3.3: the initial registers. */
  const INITIAL := Registers(0x67452301, 0xefcdab89, 0x98badcfe, 0x10325476)

  function DecodeWords(bytes: seq<Byte>): (words: seq<Word>)
    requires |bytes| % 4 == 0
    ensures |words| == |bytes| / 4
  {
    seq(|bytes| / 4, k requires 0 <= k < |bytes| / 4 => DecodeWord(bytes[4 * k..4 * k + 4]))
  }

  function EncodeWords(words: seq<Word>): (bytes: seq<Byte>)
    ensures |bytes| == 4 * |words|
  {
    if words == [] then [] else EncodeWord(words[0]) + EncodeWords(words[1..])
  }

  /** The registers after compressing every complete block of the bytes; a shorter rest waits. */
  function Fold(r: Registers, bytes: seq<Byte>): Registers
    decreases |bytes|
  {
    if |bytes| < BLOCK then r else Fold(Compress(r, DecodeWords(bytes[..BLOCK])), bytes[BLOCK..])
  }

  function Zeros(n: nat): (z: seq<Byte>)
    ensures |z| == n && forall b <- z :: b == 0
  {
    seq(n, _ => 0)
  }

  /** How many zeros follow the 0x80 byte: the fewest that end 8 bytes short of a block. */
  function ZerosNeeded(length: nat): (z: nat)
    ensures z < BLOCK && (length + 1 + z) % BLOCK == 56
  {
    (119 - length % BLOCK) % BLOCK
  }

  /** No smaller number of zeros would do. */
  lemma ZerosNeededIsLeast(length: nat, fewer: nat)
    requires fewer < ZerosNeeded(length)
    ensures (length + 1 + fewer) % BLOCK != 56
  {
  }

  /** The bit length as two words, low-order word first, modulo 2^64. */
  function LengthWords(length: nat): seq<Word> {
    [8 * length % WORD_LIMIT, 8 * length / WORD_LIMIT % WORD_LIMIT]
  }

  function Padded(message: seq<Byte>): (p: seq<Byte>)
    ensures |p| % BLOCK == 0
  {
    var zeros := ZerosNeeded(|message|);
    assert (|message| + 1 + zeros + 8) % BLOCK == 0;
    message + [0x80] + Zeros(zeros) + EncodeWords(LengthWords(|message|))
  }

  function Digest(message: seq<Byte>): (digest: seq<Byte>)
    ensures |digest| == 16
  {
    var r := Fold(INITIAL, Padded(message));
    EncodeWords([r.a, r.b, r.c, r.d])
  }

  // ---- Folding in pieces ----

  lemma {:induction false} FoldConcat(r: Registers, blocks: seq<Byte>, more: seq<Byte>)
    requires |blocks| % BLOCK == 0
    ensures Fold(r, blocks + more) == Fold(Fold(r, blocks), more)
    decreases |blocks|
  {
    hide Compress;
    if blocks == [] {
      assert blocks + more == more;
    } else {
      assert (blocks + more)[..BLOCK] == blocks[..BLOCK];
      assert (blocks + more)[BLOCK..] == blocks[BLOCK..] + more;
      FoldConcat(Compress(r, DecodeWords(blocks[..BLOCK])), blocks[BLOCK..], more);
    }
  }

  /** One more block, then the bytes too few for another. */
  lemma FoldBlock(blocks: seq<Byte>, block: seq<Byte>)
    requires |blocks| % BLOCK == 0 && |block| == BLOCK
    ensures Fold(INITIAL, blocks + block) == Compress(Fold(INITIAL, blocks), DecodeWords(block))
  {
    hide Compress;
    FoldConcat(INITIAL, blocks, block);
    assert block[..BLOCK] == block && block[BLOCK..] == [];
  }

  lemma FoldLeavesRest(blocks: seq<Byte>, rest: seq<Byte>)
    requires |blocks| % BLOCK == 0 && |rest| < BLOCK
    ensures Fold(INITIAL, blocks + rest) == Fold(INITIAL, blocks)
  {
    FoldConcat(INITIAL, blocks, rest);
  }

  // ---- The two-word bit counter ----

  /** The counter's update with its carry test keeps the bit length modulo 2^64. */
  lemma CountAdvances(length: nat, n: Word)
    ensures
      var words, bits := LengthWords(length), 8 * n % WORD_LIMIT;
      var low := Add(words[0], bits);
      var high := if low < bits then Add(words[1], 1) else words[1];
      [low, Add(high, n / 0x2000_0000)] == LengthWords(length + n)
  {
    hide Add;
    var low, high := 8 * length % WORD_LIMIT, 8 * length / WORD_LIMIT;
    var bits, top := 8 * n % WORD_LIMIT, n / 0x2000_0000;
    assert 8 * n == WORD_LIMIT * top + bits;
    CarryTest(low, bits);
    var carry := if Add(low, bits) < bits then 1 else 0;
    SplitLength(8 * (length + n), high + top + carry, Add(low, bits));
    AddTwice(high, carry, top);
    AddTwice(high, 0, top);
  }

  lemma CarryTest(low: Word, bits: Word)
    ensures low + bits == Add(low, bits) + (if Add(low, bits) < bits then WORD_LIMIT else 0)
  {
  }

  lemma SplitLength(n: nat, high: nat, low: Word)
    requires n == WORD_LIMIT * high + low
    ensures n % WORD_LIMIT == low && n / WORD_LIMIT == high
  {
  }

  lemma AddTwice(high: nat, carry: Word, top: Word)
    ensures Add(Add(high % WORD_LIMIT, carry), top) == (high + top + carry) % WORD_LIMIT
    ensures carry == 0 ==> Add(high % WORD_LIMIT, top) == (high + top) % WORD_LIMIT
  {
    SumThenWrap(high, carry);
    SumThenWrap(high + carry, top);
  }

  lemma LengthModBlock(length: nat)
    ensures LengthWords(length)[0] / 8 % BLOCK == length % BLOCK
  {
    var q := 8 * length / WORD_LIMIT;
    assert LengthWords(length)[0] / 8 == length - 0x2000_0000 * q;
  }
}
