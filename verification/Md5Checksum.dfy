/** The streaming digest of md5checksum.cpp, updated in place, against the digest of RFC 1321. */
module Md5Checksum {
  import opened Words
  import opened Md5Rounds
  import opened Md5Spec

  // ---- Byte copies and word layout, loop by loop ----

  method Memcpy(output: array<Byte>, at: nat, input: seq<Byte>)
    requires at + |input| <= output.Length
    modifies output
    ensures output[..] == old(output[..at]) + input + old(output[at + |input|..])
  {
    for i := 0 to |input|
      invariant output[..] == old(output[..at]) + input[..i] + old(output[at + i..])
    {
      output[at + i] := input[i];
    }
  }

  method Encode(output: array<Byte>, input: seq<Word>)
    requires output.Length == 4 * |input|
    modifies output
    ensures output[..] == EncodeWords(input)
  {
    hide And, ShiftRight;
    var i, j := 0, 0;
    while j < output.Length
      invariant i <= |input| && j == 4 * i
      invariant output[..j] == EncodeWords(input[..i])
    {
      BytesOfWord(input[i]);
      output[j] := And(input[i], 0xff) as Byte;
      output[j + 1] := And(ShiftRight(input[i], 8), 0xff) as Byte;
      output[j + 2] := And(ShiftRight(input[i], 16), 0xff) as Byte;
      output[j + 3] := And(ShiftRight(input[i], 24), 0xff) as Byte;
      EncodeOneMore(input[..i], input[i]);
      assert input[..i] + [input[i]] == input[..i + 1];
      i, j := i + 1, j + 4;
    }
    assert input[..i] == input;
  }

  lemma ByteOfWord(w: Word, k: nat)
    ensures And(ShiftRight(w, k), 0xff) == w / Pow2(k) % 256
  {
    assert Pow2(8) == 256;
    MaskTakesLowBits(32, ShiftRight(w, k), 8, 255);
  }

  lemma BytesOfWord(w: Word)
    ensures And(w, 0xff) == w % 256
    ensures And(ShiftRight(w, 8), 0xff) == w / 0x100 % 256
    ensures And(ShiftRight(w, 16), 0xff) == w / 0x1_0000 % 256
    ensures And(ShiftRight(w, 24), 0xff) == w / 0x100_0000
  {
    hide And, ShiftRight;
    PowersOfBytes();
    ShiftByZero(w);
    ByteOfWord(w, 0);
    ByteOfWord(w, 8);
    ByteOfWord(w, 16);
    ByteOfWord(w, 24);
  }

  lemma ShiftByZero(w: Word)
    ensures ShiftRight(w, 0) == w
  {
  }

  lemma PowersOfBytes()
    ensures Pow2(0) == 1 && Pow2(8) == 0x100 && Pow2(16) == 0x1_0000 && Pow2(24) == 0x100_0000
  {
    assert Pow2(8) == 0x100;
    Pow2Sum(8, 8);
    Pow2Sum(16, 8);
  }

  lemma {:induction false} EncodeOneMore(words: seq<Word>, w: Word)
    ensures EncodeWords(words + [w]) == EncodeWords(words) + EncodeWord(w)
  {
    if words == [] {
      assert EncodeWords([w]) == EncodeWord(w) + EncodeWords([]);
    } else {
      assert (words + [w])[1..] == words[1..] + [w];
      EncodeOneMore(words[1..], w);
    }
  }

  method Decode(input: seq<Byte>) returns (output: array<Word>)
    requires |input| % 4 == 0
    ensures fresh(output) && output[..] == DecodeWords(input)
  {
    hide Or, ShiftLeft, DecodeWord;
    output := new Word[|input| / 4];
    var i, j := 0, 0;
    while j < |input|
      invariant j == 4 * i && i <= output.Length
      invariant forall k | 0 <= k < i :: output[k] == DecodeWord(input[4 * k..4 * k + 4])
    {
      var b0, b1, b2, b3 := input[j] as Word, input[j + 1] as Word, input[j + 2] as Word, input[j + 3] as Word;
      output[i] := Or(Or(Or(b0, ShiftLeft(b1, 8)), ShiftLeft(b2, 16)), ShiftLeft(b3, 24));
      OrOfBytes(input[j..j + 4]);
      i, j := i + 1, j + 4;
    }
  }

  lemma OrOfBytes(b: seq<Byte>)
    requires |b| == 4
    ensures
      var low := Or(b[0] as Word, ShiftLeft(b[1] as Word, 8));
      Or(Or(low, ShiftLeft(b[2] as Word, 16)), ShiftLeft(b[3] as Word, 24)) == DecodeWord(b)
  {
    hide Or, ShiftLeft;
    PowersOfBytes();
    OrInByte(b[0] as nat, 8, b[1]);
    var low := b[0] as nat + 0x100 * b[1] as nat;
    OrInByte(low, 16, b[2]);
    OrInByte(low + 0x1_0000 * b[2] as nat, 24, b[3]);
  }

  // ---- The context ----

  function RegistersOf(words: seq<Word>): Registers
    requires |words| == 4
  {
    Registers(words[0], words[1], words[2], words[3])
  }

  method Transform(state: array<Word>, block: seq<Byte>)
    requires state.Length == 4 && |block| == BLOCK
    modifies state
    ensures RegistersOf(state[..]) == Compress(RegistersOf(old(state[..])), DecodeWords(block))
  {
    hide Steps;
    var x := Decode(block);
    ghost var r := RegistersOf(state[..]);
    var a, b, c, d := state[0], state[1], state[2], state[3];
    NoSteps(x[..], r);
    a, b, c, d := Round1(a, b, c, d, x[..], r);
    a, b, c, d := Round2(a, b, c, d, x[..], r);
    a, b, c, d := Round3(a, b, c, d, x[..], r);
    a, b, c, d := Round4(a, b, c, d, x[..], r);
    state[0] := Add(state[0], a);
    state[1] := Add(state[1], b);
    state[2] := Add(state[2], c);
    state[3] := Add(state[3], d);
  }

  lemma BitShifts(n: Word)
    ensures ShiftLeft(n, 3) == 8 * n % WORD_LIMIT && ShiftRight(n, 29) == n / 0x2000_0000
  {
    Pow2Of32();
    Pow2Sum(3, 29);
  }

  lemma NoSteps(x: seq<Word>, r: Registers)
    requires |x| == 16
    ensures Steps(0, x, r) == r
  {
  }

  class Context {
    const state: array<Word>
    const count: array<Word>
    const buffer: array<Byte>
    ghost var message: seq<Byte>  // everything absorbed so far

    ghost predicate Valid()
      reads this, state, count, buffer
    {
      && state.Length == 4 && count.Length == 2 && buffer.Length == BLOCK && state != count
      && RegistersOf(state[..]) == Fold(INITIAL, message)
      && count[..] == LengthWords(|message|)
      && var waiting := |message| % BLOCK;
         buffer[..waiting] == message[|message| - waiting..]
    }

    constructor ()
      ensures Valid() && fresh(state) && fresh(count) && fresh(buffer)
      ensures message == []
    {
      state := new Word[4];
      count := new Word[2];
      buffer := new Byte[64];
      new;
      message := [];
      count[0], count[1] := 0, 0;
      state[0], state[1], state[2], state[3] := 0x67452301, 0xefcdab89, 0x98badcfe, 0x10325476;
    }

    /** The bytes waiting for a full block, as the code computes it from the bit counter. */
    method Index() returns (index: nat)
      requires Valid()
      ensures index == |message| % BLOCK
    {
      index := And(ShiftRight(count[0], 3), 0x3F);
      assert Pow2(3) == 8 && Pow2(6) == 64;
      MaskTakesLowBits(32, ShiftRight(count[0], 3), 6, 63);
      LengthModBlock(|message|);
    }

    method AddToCount(inputLen: Word)
      requires Valid()
      modifies count
      ensures count[..] == LengthWords(|message| + inputLen)
    {
      hide Add;
      CountAdvances(|message|, inputLen);
      BitShifts(inputLen);
      var bits := ShiftLeft(inputLen, 3);
      count[0] := Add(count[0], bits);
      if count[0] < bits {
        count[1] := Add(count[1], 1);
      }
      count[1] := Add(count[1], ShiftRight(inputLen, 29));
    }

    /** The registers hold the fold of these complete blocks. */
    ghost predicate Folded(blocks: seq<Byte>)
      requires state.Length == 4
      reads this, state
    {
      |blocks| % BLOCK == 0 && RegistersOf(state[..]) == Fold(INITIAL, blocks)
    }

    /** Compresses one block: the folded prefix of all grows by it. */
    method Absorb(ghost all: seq<Byte>, ghost done: nat, block: seq<Byte>)
      requires state.Length == 4 && done + BLOCK <= |all| && block == all[done..done + BLOCK]
      requires Folded(all[..done])
      modifies state
      ensures Folded(all[..done + BLOCK])
    {
      hide Compress, Fold;
      FoldBlock(all[..done], block);
      assert all[..done] + block == all[..done + BLOCK];
      Transform(state, block);
    }

    /** The loop over whole blocks of the input; its test is computed modulo 2^32. */
    method AbsorbBlocks(input: seq<Byte>, partLen: Word, ghost all: seq<Byte>) returns (i: Word)
      requires state.Length == 4 && 0 < partLen <= 64 && partLen <= |input| < WORD_LIMIT - (64 - partLen)
      requires |input| <= |all| && input == all[|all| - |input|..]
      requires Folded(all[..|all| - |input| + partLen])
      modifies state
      ensures partLen <= i <= |input| < i + 64
      ensures Folded(all[..|all| - |input| + i])
    {
      hide Fold, Add;
      ghost var length := |all| - |input|;
      i := partLen;
      LoopTestExact(64 - partLen, |input|, i);
      while Add(i, 63) < |input|
        invariant partLen <= i <= |input| && (i + (64 - partLen)) % BLOCK == 0
        invariant Folded(all[..length + i])
        invariant Add(i, 63) == i + 63
      {
        assert input[i..i + 64] == all[length + i..length + i + 64];
        Absorb(all, length + i, input[i..i + 64]);
        AddsWithinRange(i, 64);
        i := Add(i, 64);
        LoopTestExact(64 - partLen, |input|, i);
      }
    }

    /** Buffers the bytes left over, too few for a block. */
    method Retain(index: nat, rest: seq<Byte>, ghost all: seq<Byte>, ghost start: nat)
      requires state.Length == 4 && count.Length == 2 && buffer.Length == BLOCK && state != count
      requires start <= |all| && index + |rest| == |all| - start < BLOCK
      requires all[start..] == buffer[..index] + rest
      requires Folded(all[..start]) && count[..] == LengthWords(|all|)
      modifies this`message, buffer
      ensures Valid() && message == all
    {
      hide Fold, LengthWords;
      Memcpy(buffer, index, rest);
      RestWaits(all, start);
      message := all;
    }

    method Update(input: seq<Byte>)
      requires Valid()
      requires |message| % BLOCK + |input| < WORD_LIMIT
      modifies this`message, state, count, buffer
      ensures Valid()
      ensures message == old(message) + input
    {
      hide Fold, LengthWords, Add;
      var inputLen: Word := |input|;
      var index := Index();
      AddToCount(inputLen);
      var partLen := 64 - index;
      var i: Word := 0;
      ghost var all, start := message + input, |message| - index;
      assert all[..start] == message[..start] && all[start..] == message[start..] + input;
      assert message[start..] == buffer[..index];
      RestWaits(message, start);
      if inputLen >= partLen {
        assert all[start..start + BLOCK] == all[start..][..BLOCK] == buffer[..index] + input[..partLen];
        Memcpy(buffer, index, input[..partLen]);
        assert buffer[..] == all[start..start + BLOCK];
        Absorb(all, start, buffer[..]);
        i := AbsorbBlocks(input, partLen, all);
        index, start := 0, |message| + i;
      }
      Retain(index, input[i..], all, start);
    }

    /** Clears what the context holds. */
    method Zeroise()
      modifies state, count, buffer
      ensures Zeroised()
    {
      forall i | 0 <= i < state.Length {
        state[i] := 0;
      }
      forall i | 0 <= i < count.Length {
        count[i] := 0;
      }
      forall i | 0 <= i < buffer.Length {
        buffer[i] := 0;
      }
    }

    ghost predicate Zeroised()
      reads state, count, buffer
    {
      (forall w <- state[..] + count[..] :: w == 0) && forall b <- buffer[..] :: b == 0
    }

    /** Pads to 56 modulo 64, appends the bit length from before padding, writes the digest, and clears
        the context. */
    method Final(digest: array<Byte>)
      requires Valid() && digest.Length == 16 && digest != buffer
      modifies this`message, state, count, buffer, digest
      ensures digest[..] == Digest(old(message)) && Zeroised()
    {
      hide Fold, LengthWords, EncodeWords, Compress, Zeroised;
      ghost var start := message;
      var bits := new Byte[8];
      Encode(bits, count[..]);
      var index := Index();
      var padLen := if index < 56 then 56 - index else 120 - index;
      PaddingLength(|message|, padLen);
      Update(PADDING[..padLen]);
      Update(bits[..]);
      PaddingBytes(padLen);
      assert message == Padded(start);
      ghost var r := Fold(INITIAL, message);
      assert state[..] == [r.a, r.b, r.c, r.d];
      Encode(digest, state[..]);
      Zeroise();
    }
  }

  const PADDING: seq<Byte> := [0x80] + Zeros(63)

  lemma PaddingLength(length: nat, padLen: nat)
    requires padLen == if length % BLOCK < 56 then 56 - length % BLOCK else 120 - length % BLOCK
    ensures padLen == 1 + ZerosNeeded(length) && 1 <= padLen <= 64
    ensures (length + padLen) % BLOCK == 56
  {
  }

  lemma PaddingBytes(padLen: nat)
    requires 1 <= padLen <= 64
    ensures PADDING[..padLen] == [0x80] + Zeros(padLen - 1)
  {
  }

  /** The whole digest, for every length an unsigned int can hold. */
  method MDBytes(data: seq<Byte>) returns (buff: array<Byte>)
    requires |data| < WORD_LIMIT
    ensures fresh(buff) && buff[..] == Digest(data)
  {
    hide *;
    buff := new Byte[16];
    var context := new Context();
    NothingWaits();
    context.Update(data);
    assert [] + data == data;
    context.Final(buff);
  }

  lemma NothingWaits()
    ensures 0 % BLOCK == 0
  {
  }

  lemma RestWaits(bytes: seq<Byte>, start: nat)
    requires start % BLOCK == 0 && start <= |bytes| < start + BLOCK
    ensures start == |bytes| - |bytes| % BLOCK
    ensures Fold(INITIAL, bytes) == Fold(INITIAL, bytes[..start])
  {
    hide Fold;
    FoldLeavesRest(bytes[..start], bytes[start..]);
    assert bytes == bytes[..start] + bytes[start..];
  }

  /** The test i + 63 < inputLen, computed modulo 2^32, is right exactly while i + index has not
      reached 2^32, where index bytes were waiting in the buffer. */
  lemma LoopTestExact(index: nat, inputLen: Word, i: Word)
    requires index < 64 && 64 - index <= i <= inputLen && (i + index) % BLOCK == 0
    ensures (Add(i, 63) < inputLen <==> i + 63 < inputLen) <==> i + index < WORD_LIMIT
    ensures i + index < WORD_LIMIT ==> Add(i, 63) == i + 63
  {
  }

  lemma AddsWithinRange(x: Word, y: Word)
    requires x + y < WORD_LIMIT
    ensures Add(x, y) == x + y
  {
  }

  /** The precondition of Update is exact: with index bytes waiting, the machine's loop test is right
      at the last whole block of the input if and only if index + inputLen does not reach 2^32.
      Otherwise the test passes there and names a block that ends beyond the input. */
  lemma UpdateBoundIsExact(index: nat, inputLen: Word)
    requires index < 64 <= index + inputLen
    ensures
      var last := inputLen - (index + inputLen) % BLOCK;
      && 64 - index <= last <= inputLen < last + BLOCK
      && (Add(last, 63) < inputLen <==> index + inputLen >= WORD_LIMIT)
  {
    var last := inputLen - (index + inputLen) % BLOCK;
    assert (last + index) % BLOCK == 0;
    LoopTestExact(index, inputLen, last);
  }
}
