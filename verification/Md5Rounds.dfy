/** MD5's compression: the rounds as unrolled in md5checksum.cpp against the table-driven
    description of section 3.4 of RFC 1321. */
module Md5Rounds {
  import opened Words

  datatype Registers = Registers(a: Word, b: Word, c: Word, d: Word)

  // ---- The macros of md5checksum.h ----

  function F(x: Word, y: Word, z: Word): Word { Or(And(x, y), And(Not(x), z)) }
  function G(x: Word, y: Word, z: Word): Word { Or(And(x, z), And(y, Not(z))) }
  function H(x: Word, y: Word, z: Word): Word { Xor(Xor(x, y), z) }
  function I(x: Word, y: Word, z: Word): Word { Xor(y, Or(x, Not(z))) }

  /** The four functions as section 3.4 of RFC 1321 describes them, bit by bit: F chooses y or z by x,
      G chooses x or y by z, H is the parity of all three, and I that of y and of x or not z. */
  lemma RoundFunctionBits(x: Word, y: Word, z: Word, k: nat)
    requires k < 32
    ensures Bit(F(x, y, z), k) == if Bit(x, k) == 1 then Bit(y, k) else Bit(z, k)
    ensures Bit(G(x, y, z), k) == if Bit(z, k) == 1 then Bit(x, k) else Bit(y, k)
    ensures Bit(H(x, y, z), k) == (Bit(x, k) + Bit(y, k) + Bit(z, k)) % 2
    ensures Bit(I(x, y, z), k) == (Bit(y, k) + if Bit(x, k) == 1 || Bit(z, k) == 0 then 1 else 0) % 2
  {
    hide Bit, And, Or, Xor, Not;
    OperatorBits(x, y, k);
    OperatorBits(x, z, k);
    OperatorBits(y, z, k);
    OperatorBits(z, z, k);
    OperatorBits(Not(x), z, k);
    OperatorBits(y, Not(z), k);
    OperatorBits(And(x, y), And(Not(x), z), k);
    OperatorBits(And(x, z), And(y, Not(z)), k);
    OperatorBits(Xor(x, y), z, k);
    OperatorBits(x, Not(z), k);
    OperatorBits(y, Or(x, Not(z)), k);
  }

  type Shift = s: nat | s <= 32

  // The value each macro leaves in its first argument.
  function FF(a: Word, b: Word, c: Word, d: Word, x: Word, s: Shift, ac: Word): Word {
    Add(RotateLeft(Add(a, Add(Add(F(b, c, d), x), ac)), s), b)
  }

  function GG(a: Word, b: Word, c: Word, d: Word, x: Word, s: Shift, ac: Word): Word {
    Add(RotateLeft(Add(a, Add(Add(G(b, c, d), x), ac)), s), b)
  }

  function HH(a: Word, b: Word, c: Word, d: Word, x: Word, s: Shift, ac: Word): Word {
    Add(RotateLeft(Add(a, Add(Add(H(b, c, d), x), ac)), s), b)
  }

  function II(a: Word, b: Word, c: Word, d: Word, x: Word, s: Shift, ac: Word): Word {
    Add(RotateLeft(Add(a, Add(Add(I(b, c, d), x), ac)), s), b)
  }

  // ---- RFC 1321, section 3.4: one operation for all 64 steps ----

  /** Step i computes a = b + ((a + f(b,c,d) + X[k] + T[i]) <<< s), counting steps from 0. */
  function Step(i: nat, x: seq<Word>, r: Registers): Registers
    requires i < 64 && |x| == 16
  {
    var sum := Add(Add(Add(r.a, Mix(i, r.b, r.c, r.d)), x[MessageIndex(i)]), T(i));
    Registers(r.d, Add(r.b, RotateLeft(sum, ShiftOf(i))), r.b, r.c)
  }

  function Steps(n: nat, x: seq<Word>, r: Registers): Registers
    requires n <= 64 && |x| == 16
  {
    if n == 0 then r else Step(n - 1, x, Steps(n - 1, x, r))
  }

  function Mix(i: nat, b: Word, c: Word, d: Word): Word {
    if i < 16 then F(b, c, d) else if i < 32 then G(b, c, d) else if i < 48 then H(b, c, d) else I(b, c, d)
  }

  function MessageIndex(i: nat): (k: nat)
    ensures k < 16
  {
    if i < 16 then i else if i < 32 then (5 * i + 1) % 16 else if i < 48 then (3 * i + 5) % 16 else 7 * i % 16
  }

  function ShiftOf(i: nat): Shift {
    if i < 16 then Cycle(i, 7, 12, 17, 22) else if i < 32 then Cycle(i, 5, 9, 14, 20)
    else if i < 48 then Cycle(i, 4, 11, 16, 23) else Cycle(i, 6, 10, 15, 21)
  }

  function Cycle(i: nat, s0: Shift, s1: Shift, s2: Shift, s3: Shift): Shift {
    if i % 4 == 0 then s0 else if i % 4 == 1 then s1 else if i % 4 == 2 then s2 else s3
  }

  /** The RFC's table T[1..64], the integer parts of 2^32 * abs(sin(i + 1)). */
  function T(i: nat): Word
    requires i < 64
  {
    match i
    case 0 => 0xd76aa478
    case 1 => 0xe8c7b756
    case 2 => 0x242070db
    case 3 => 0xc1bdceee
    case 4 => 0xf57c0faf
    case 5 => 0x4787c62a
    case 6 => 0xa8304613
    case 7 => 0xfd469501
    case 8 => 0x698098d8
    case 9 => 0x8b44f7af
    case 10 => 0xffff5bb1
    case 11 => 0x895cd7be
    case 12 => 0x6b901122
    case 13 => 0xfd987193
    case 14 => 0xa679438e
    case 15 => 0x49b40821
    case 16 => 0xf61e2562
    case 17 => 0xc040b340
    case 18 => 0x265e5a51
    case 19 => 0xe9b6c7aa
    case 20 => 0xd62f105d
    case 21 => 0x02441453
    case 22 => 0xd8a1e681
    case 23 => 0xe7d3fbc8
    case 24 => 0x21e1cde6
    case 25 => 0xc33707d6
    case 26 => 0xf4d50d87
    case 27 => 0x455a14ed
    case 28 => 0xa9e3e905
    case 29 => 0xfcefa3f8
    case 30 => 0x676f02d9
    case 31 => 0x8d2a4c8a
    case 32 => 0xfffa3942
    case 33 => 0x8771f681
    case 34 => 0x6d9d6122
    case 35 => 0xfde5380c
    case 36 => 0xa4beea44
    case 37 => 0x4bdecfa9
    case 38 => 0xf6bb4b60
    case 39 => 0xbebfbc70
    case 40 => 0x289b7ec6
    case 41 => 0xeaa127fa
    case 42 => 0xd4ef3085
    case 43 => 0x04881d05
    case 44 => 0xd9d4d039
    case 45 => 0xe6db99e5
    case 46 => 0x1fa27cf8
    case 47 => 0xc4ac5665
    case 48 => 0xf4292244
    case 49 => 0x432aff97
    case 50 => 0xab9423a7
    case 51 => 0xfc93a039
    case 52 => 0x655b59c3
    case 53 => 0x8f0ccc92
    case 54 => 0xffeff47d
    case 55 => 0x85845dd1
    case 56 => 0x6fa87e4f
    case 57 => 0xfe2ce6e0
    case 58 => 0xa3014314
    case 59 => 0x4e0811a1
    case 60 => 0xf7537e82
    case 61 => 0xbd3af235
    case 62 => 0x2ad7d2bb
    case _ => 0xeb86d391
  }

  const STEPS: nat := 64

  /** The compression function: 64 steps, then the final additions. */
  function Compress(r: Registers, x: seq<Word>): Registers
    requires |x| == 16
  {
    var q := Steps(STEPS, x, r);
    Registers(Add(r.a, q.a), Add(r.b, q.b), Add(r.c, q.c), Add(r.d, q.d))
  }

  // ---- The 64 steps permute the register states ----

  function Unstep(i: nat, x: seq<Word>, r: Registers): Registers
    requires i < 64 && |x| == 16
  {
    var sum := RotateLeft(Sub(r.b, r.c), 32 - ShiftOf(i));
    Registers(Sub(Sub(Sub(sum, T(i)), x[MessageIndex(i)]), Mix(i, r.c, r.d, r.a)), r.c, r.d, r.a)
  }

  function Unsteps(n: nat, x: seq<Word>, r: Registers): Registers
    requires n <= 64 && |x| == 16
  {
    if n == 0 then r else Unsteps(n - 1, x, Unstep(n - 1, x, r))
  }

  lemma SubUndoesAdd(x: Word, y: Word)
    ensures Sub(Add(x, y), y) == x
    ensures Add(Sub(x, y), y) == x
    ensures Sub(Add(y, x), y) == x
    ensures Add(y, Sub(x, y)) == x
  {
    assert Add(x, y) == if x + y < WORD_LIMIT then x + y else x + y - WORD_LIMIT;
    assert Sub(x, y) == if y <= x then x - y else x - y + WORD_LIMIT;
    assert Add(y, x) == Add(x, y) && Add(y, Sub(x, y)) == Add(Sub(x, y), y);
  }

  lemma StepThenUnstep(i: nat, x: seq<Word>, r: Registers)
    requires i < 64 && |x| == 16
    ensures Unstep(i, x, Step(i, x, r)) == r
  {
    hide Mix, MessageIndex, ShiftOf, T, Add, Sub, RotateLeft;
    var f, s, k, t := Mix(i, r.b, r.c, r.d), ShiftOf(i), x[MessageIndex(i)], T(i);
    var sum := Add(Add(Add(r.a, f), k), t);
    SubUndoesAdd(RotateLeft(sum, s), r.b);
    RotateBack(sum, s);
    SubUndoesAdd(Add(Add(r.a, f), k), t);
    SubUndoesAdd(Add(r.a, f), k);
    SubUndoesAdd(r.a, f);
  }

  lemma UnstepThenStep(i: nat, x: seq<Word>, r: Registers)
    requires i < 64 && |x| == 16
    ensures Step(i, x, Unstep(i, x, r)) == r
  {
    hide Mix, MessageIndex, ShiftOf, T, Add, Sub, RotateLeft;
    var f, s, k, t := Mix(i, r.c, r.d, r.a), ShiftOf(i), x[MessageIndex(i)], T(i);
    var turned := Sub(r.b, r.c);
    var sum := RotateLeft(turned, 32 - s);
    SubUndoesAdd(Sub(Sub(sum, t), k), f);
    SubUndoesAdd(Sub(sum, t), k);
    SubUndoesAdd(sum, t);
    RotateBack(turned, 32 - s);
    SubUndoesAdd(r.b, r.c);
  }

  /** For every block the first n steps are a bijection on register states. */
  lemma {:induction false} StepsArePermutation(n: nat, x: seq<Word>, r: Registers)
    requires n <= 64 && |x| == 16
    ensures Unsteps(n, x, Steps(n, x, r)) == r
    ensures Steps(n, x, Unsteps(n, x, r)) == r
  {
    hide Step, Unstep;
    if n > 0 {
      StepThenUnstep(n - 1, x, Steps(n - 1, x, r));
      StepsArePermutation(n - 1, x, r);
      StepsArePermutation(n - 1, x, Unstep(n - 1, x, r));
      UnstepThenStep(n - 1, x, r);
    }
  }

  // ---- The unrolled code follows the table ----

  lemma AddsRegroup(a: Word, f: Word, x: Word, t: Word)
    ensures Add(a, Add(Add(f, x), t)) == Add(Add(Add(a, f), x), t)
  {
    hide Add;
    AddWrapped(f, x);
    AddWrapped(f + x, t);
    AddWrapped(f + x + t, a);
    AddWrapped(a, f);
    AddWrapped(a + f, x);
    AddWrapped(a + f + x, t);
  }

  lemma AddWrapped(u: nat, v: Word)
    ensures Add(u % WORD_LIMIT, v) == (u + v) % WORD_LIMIT
    ensures Add(v, u % WORD_LIMIT) == (u + v) % WORD_LIMIT
    ensures u < WORD_LIMIT ==> u % WORD_LIMIT == u
  {
    SumThenWrap(u, v);
  }

  lemma SumThenWrap(u: nat, v: nat)
    ensures (u % WORD_LIMIT + v) % WORD_LIMIT == (u + v) % WORD_LIMIT
  {
  }

  /** The statement that step i is in the code, by its round. */
  function Statement(i: nat, a: Word, b: Word, c: Word, d: Word, x: seq<Word>): Word
    requires i < 64 && |x| == 16
  {
    var (k, s, t) := (x[MessageIndex(i)], ShiftOf(i), T(i));
    if i < 16 then FF(a, b, c, d, k, s, t)
    else if i < 32 then GG(a, b, c, d, k, s, t)
    else if i < 48 then HH(a, b, c, d, k, s, t)
    else II(a, b, c, d, k, s, t)
  }

  lemma StepIsStatement(i: nat, x: seq<Word>, r: Registers)
    requires i < 64 && |x| == 16
    ensures Step(i, x, r) == Registers(r.d, Statement(i, r.a, r.b, r.c, r.d, x), r.b, r.c)
  {
    hide F, G, H, I, MessageIndex, ShiftOf, T, RotateLeft;
    AddsRegroup(r.a, Mix(i, r.b, r.c, r.d), x[MessageIndex(i)], T(i));
  }

  /** Four statements, one per register role, are four steps. */
  lemma FourSteps(i: nat, x: seq<Word>, r: Registers, a: Word, b: Word, c: Word, d: Word)
    requires i + 4 <= 64 && |x| == 16 && Registers(a, b, c, d) == Steps(i, x, r)
    ensures
      var a' := Statement(i, a, b, c, d, x);
      var d' := Statement(i + 1, d, a', b, c, x);
      var c' := Statement(i + 2, c, d', a', b, x);
      var b' := Statement(i + 3, b, c', d', a', x);
      Registers(a', b', c', d') == Steps(i + 4, x, r)
  {
    hide Statement, Step;
    StepIsStatement(i, x, Steps(i, x, r));
    StepIsStatement(i + 1, x, Steps(i + 1, x, r));
    StepIsStatement(i + 2, x, Steps(i + 2, x, r));
    StepIsStatement(i + 3, x, Steps(i + 3, x, r));
    assert Steps(i + 4, x, r) == Step(i + 3, x, Steps(i + 3, x, r));
    assert Steps(i + 3, x, r) == Step(i + 2, x, Steps(i + 2, x, r));
    assert Steps(i + 2, x, r) == Step(i + 1, x, Steps(i + 1, x, r));
    assert Steps(i + 1, x, r) == Step(i, x, Steps(i, x, r));
  }

  method Round1(a0: Word, b0: Word, c0: Word, d0: Word, x: seq<Word>, ghost r: Registers)
    returns (a: Word, b: Word, c: Word, d: Word)
    requires |x| == 16 && Registers(a0, b0, c0, d0) == Steps(0, x, r)
    ensures Registers(a, b, c, d) == Steps(16, x, r)
  {
    hide FF, Steps;
    a, b, c, d := a0, b0, c0, d0;
    FourSteps(0, x, r, a, b, c, d);
    a := FF(a, b, c, d, x[0], 7, 0xd76aa478);
    d := FF(d, a, b, c, x[1], 12, 0xe8c7b756);
    c := FF(c, d, a, b, x[2], 17, 0x242070db);
    b := FF(b, c, d, a, x[3], 22, 0xc1bdceee);
    FourSteps(4, x, r, a, b, c, d);
    a := FF(a, b, c, d, x[4], 7, 0xf57c0faf);
    d := FF(d, a, b, c, x[5], 12, 0x4787c62a);
    c := FF(c, d, a, b, x[6], 17, 0xa8304613);
    b := FF(b, c, d, a, x[7], 22, 0xfd469501);
    FourSteps(8, x, r, a, b, c, d);
    a := FF(a, b, c, d, x[8], 7, 0x698098d8);
    d := FF(d, a, b, c, x[9], 12, 0x8b44f7af);
    c := FF(c, d, a, b, x[10], 17, 0xffff5bb1);
    b := FF(b, c, d, a, x[11], 22, 0x895cd7be);
    FourSteps(12, x, r, a, b, c, d);
    a := FF(a, b, c, d, x[12], 7, 0x6b901122);
    d := FF(d, a, b, c, x[13], 12, 0xfd987193);
    c := FF(c, d, a, b, x[14], 17, 0xa679438e);
    b := FF(b, c, d, a, x[15], 22, 0x49b40821);
  }

  method Round2(a0: Word, b0: Word, c0: Word, d0: Word, x: seq<Word>, ghost r: Registers)
    returns (a: Word, b: Word, c: Word, d: Word)
    requires |x| == 16 && Registers(a0, b0, c0, d0) == Steps(16, x, r)
    ensures Registers(a, b, c, d) == Steps(32, x, r)
  {
    hide GG, Steps;
    a, b, c, d := a0, b0, c0, d0;
    FourSteps(16, x, r, a, b, c, d);
    a := GG(a, b, c, d, x[1], 5, 0xf61e2562);
    d := GG(d, a, b, c, x[6], 9, 0xc040b340);
    c := GG(c, d, a, b, x[11], 14, 0x265e5a51);
    b := GG(b, c, d, a, x[0], 20, 0xe9b6c7aa);
    FourSteps(20, x, r, a, b, c, d);
    a := GG(a, b, c, d, x[5], 5, 0xd62f105d);
    d := GG(d, a, b, c, x[10], 9, 0x2441453);
    c := GG(c, d, a, b, x[15], 14, 0xd8a1e681);
    b := GG(b, c, d, a, x[4], 20, 0xe7d3fbc8);
    FourSteps(24, x, r, a, b, c, d);
    a := GG(a, b, c, d, x[9], 5, 0x21e1cde6);
    d := GG(d, a, b, c, x[14], 9, 0xc33707d6);
    c := GG(c, d, a, b, x[3], 14, 0xf4d50d87);
    b := GG(b, c, d, a, x[8], 20, 0x455a14ed);
    FourSteps(28, x, r, a, b, c, d);
    a := GG(a, b, c, d, x[13], 5, 0xa9e3e905);
    d := GG(d, a, b, c, x[2], 9, 0xfcefa3f8);
    c := GG(c, d, a, b, x[7], 14, 0x676f02d9);
    b := GG(b, c, d, a, x[12], 20, 0x8d2a4c8a);
  }

  method Round3(a0: Word, b0: Word, c0: Word, d0: Word, x: seq<Word>, ghost r: Registers)
    returns (a: Word, b: Word, c: Word, d: Word)
    requires |x| == 16 && Registers(a0, b0, c0, d0) == Steps(32, x, r)
    ensures Registers(a, b, c, d) == Steps(48, x, r)
  {
    hide HH, Steps;
    a, b, c, d := a0, b0, c0, d0;
    FourSteps(32, x, r, a, b, c, d);
    a := HH(a, b, c, d, x[5], 4, 0xfffa3942);
    d := HH(d, a, b, c, x[8], 11, 0x8771f681);
    c := HH(c, d, a, b, x[11], 16, 0x6d9d6122);
    b := HH(b, c, d, a, x[14], 23, 0xfde5380c);
    FourSteps(36, x, r, a, b, c, d);
    a := HH(a, b, c, d, x[1], 4, 0xa4beea44);
    d := HH(d, a, b, c, x[4], 11, 0x4bdecfa9);
    c := HH(c, d, a, b, x[7], 16, 0xf6bb4b60);
    b := HH(b, c, d, a, x[10], 23, 0xbebfbc70);
    FourSteps(40, x, r, a, b, c, d);
    a := HH(a, b, c, d, x[13], 4, 0x289b7ec6);
    d := HH(d, a, b, c, x[0], 11, 0xeaa127fa);
    c := HH(c, d, a, b, x[3], 16, 0xd4ef3085);
    b := HH(b, c, d, a, x[6], 23, 0x4881d05);
    FourSteps(44, x, r, a, b, c, d);
    a := HH(a, b, c, d, x[9], 4, 0xd9d4d039);
    d := HH(d, a, b, c, x[12], 11, 0xe6db99e5);
    c := HH(c, d, a, b, x[15], 16, 0x1fa27cf8);
    b := HH(b, c, d, a, x[2], 23, 0xc4ac5665);
  }

  method Round4(a0: Word, b0: Word, c0: Word, d0: Word, x: seq<Word>, ghost r: Registers)
    returns (a: Word, b: Word, c: Word, d: Word)
    requires |x| == 16 && Registers(a0, b0, c0, d0) == Steps(48, x, r)
    ensures Registers(a, b, c, d) == Steps(64, x, r)
  {
    hide II, Steps;
    a, b, c, d := a0, b0, c0, d0;
    FourSteps(48, x, r, a, b, c, d);
    a := II(a, b, c, d, x[0], 6, 0xf4292244);
    d := II(d, a, b, c, x[7], 10, 0x432aff97);
    c := II(c, d, a, b, x[14], 15, 0xab9423a7);
    b := II(b, c, d, a, x[5], 21, 0xfc93a039);
    FourSteps(52, x, r, a, b, c, d);
    a := II(a, b, c, d, x[12], 6, 0x655b59c3);
    d := II(d, a, b, c, x[3], 10, 0x8f0ccc92);
    c := II(c, d, a, b, x[10], 15, 0xffeff47d);
    b := II(b, c, d, a, x[1], 21, 0x85845dd1);
    FourSteps(56, x, r, a, b, c, d);
    a := II(a, b, c, d, x[8], 6, 0x6fa87e4f);
    d := II(d, a, b, c, x[15], 10, 0xfe2ce6e0);
    c := II(c, d, a, b, x[6], 15, 0xa3014314);
    b := II(b, c, d, a, x[13], 21, 0x4e0811a1);
    FourSteps(60, x, r, a, b, c, d);
    a := II(a, b, c, d, x[4], 6, 0xf7537e82);
    d := II(d, a, b, c, x[11], 10, 0xbd3af235);
    c := II(c, d, a, b, x[2], 15, 0x2ad7d2bb);
    b := II(b, c, d, a, x[9], 21, 0xeb86d391);
  }
}
