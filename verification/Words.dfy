/** Bytes and 32-bit words as numbers, and C's operators on them.
    Bitwise operators are defined bit by bit; shifts and sums carry their wrap-around. */
module Words {
  const WORD_LIMIT: nat := 0x1_0000_0000

  newtype Byte = b: int | 0 <= b < 256
  type Word = w: int | 0 <= w < WORD_LIMIT

  function Min(a: nat, b: nat): nat { if a < b then a else b }

  function Pow2(n: nat): (p: nat)
    ensures p > 0
  {
    if n == 0 then 1 else 2 * Pow2(n - 1)
  }

  lemma {:induction false} Pow2Sum(m: nat, n: nat)
    ensures Pow2(m + n) == Pow2(m) * Pow2(n)
  {
    if m > 0 {
      Pow2Sum(m - 1, n);
    }
  }

  lemma Pow2Of32()
    ensures Pow2(32) == WORD_LIMIT
  {
    hide Pow2;
    Pow2Of8();
    Pow2Sum(8, 8);
    Pow2Sum(16, 16);
  }

  // ---- Sums and shifts on unsigned 32-bit words ----

  function Add(x: Word, y: Word): Word { (x + y) % WORD_LIMIT }

  function Sub(x: Word, y: Word): Word { (x - y) % WORD_LIMIT }

  function ShiftLeft(x: Word, n: nat): Word { x * Pow2(n) % WORD_LIMIT }

  function ShiftRight(x: Word, n: nat): Word
  {
    QuotientAtMost(x, Pow2(n));
    x / Pow2(n)
  }

  lemma QuotientAtMost(x: nat, d: nat)
    requires d > 0
    ensures 0 <= x / d <= x
  {
    MulMonotone(x / d, 1, d);
    MulCommutes(x / d, d);
  }

  // ---- Bitwise operators ----

  datatype BitOp = AND | OR | XOR

  function OnBits(op: BitOp, p: nat, q: nat): (bit: nat)
    requires p < 2 && q < 2
    ensures bit < 2
  {
    match op
    case AND => if p + q == 2 then 1 else 0
    case OR => if p + q > 0 then 1 else 0
    case XOR => (p + q) % 2
  }

  /** Applies the operator to the low n bits of x and y. */
  function Bitwise(op: BitOp, n: nat, x: nat, y: nat): (r: nat)
    ensures r < Pow2(n)
  {
    if n == 0 then 0 else OnBits(op, x % 2, y % 2) + 2 * Bitwise(op, n - 1, x / 2, y / 2)
  }

  function BitwiseWord(op: BitOp, x: Word, y: Word): Word
  {
    Pow2Of32();
    Bitwise(op, 32, x, y)
  }

  function And(x: Word, y: Word): Word { BitwiseWord(AND, x, y) }
  function Or(x: Word, y: Word): Word { BitwiseWord(OR, x, y) }
  function Xor(x: Word, y: Word): Word { BitwiseWord(XOR, x, y) }
  function Not(x: Word): Word { WORD_LIMIT - 1 - x }

  // ---- Bits ----

  /** Bit k of a number, the lowest being bit 0. */
  function Bit(w: nat, k: nat): (bit: nat)
    ensures bit < 2
  {
    w / Pow2(k) % 2
  }

  lemma BitOfHalf(w: nat, k: nat)
    requires k > 0
    ensures Bit(w, k) == Bit(w / 2, k - 1)
  {
    var p, q, r := Pow2(k - 1), w / 2 / Pow2(k - 1), w / 2 % Pow2(k - 1);
    DivisionParts(w / 2, p);
    MulAssociates(2, p, q);
    DivisionIsUnique(w, 2 * p, q, 2 * r + w % 2);
  }

  /** A number is the sum of its bits' weights: two words with the same bits are equal. */
  lemma {:induction false} BitsDetermine(n: nat, x: nat, y: nat)
    requires x < Pow2(n) && y < Pow2(n) && forall k | 0 <= k < n :: Bit(x, k) == Bit(y, k)
    ensures x == y
  {
    if n > 0 {
      hide Bit;
      forall k | 0 <= k < n - 1
        ensures Bit(x / 2, k) == Bit(y / 2, k)
      {
        BitOfHalf(x, k + 1);
        BitOfHalf(y, k + 1);
      }
      BitsDetermine(n - 1, x / 2, y / 2);
      LowestBit(x);
      LowestBit(y);
    }
  }

  lemma LowestBit(w: nat)
    ensures Bit(w, 0) == w % 2
  {
  }

  /** A bitwise operator acts on each bit alone. */
  lemma {:induction false} BitwiseBit(op: BitOp, n: nat, x: nat, y: nat, k: nat)
    requires k < n
    ensures Bit(Bitwise(op, n, x, y), k) == OnBits(op, Bit(x, k), Bit(y, k))
  {
    var r := Bitwise(op, n - 1, x / 2, y / 2);
    var bit := OnBits(op, x % 2, y % 2);
    assert (bit + 2 * r) % 2 == bit && (bit + 2 * r) / 2 == r;
    hide Bit;
    if k == 0 {
      LowestBit(x);
      LowestBit(y);
      LowestBit(bit + 2 * r);
    } else {
      BitwiseBit(op, n - 1, x / 2, y / 2, k - 1);
      BitOfHalf(x, k);
      BitOfHalf(y, k);
      BitOfHalf(bit + 2 * r, k);
    }
  }

  lemma {:induction false} ComplementBit(n: nat, x: nat, k: nat)
    requires k < n && x < Pow2(n)
    ensures Bit(Pow2(n) - 1 - x, k) == 1 - Bit(x, k)
  {
    var c := Pow2(n) - 1 - x;
    assert c % 2 == 1 - x % 2 && c / 2 == Pow2(n - 1) - 1 - x / 2;
    hide Bit;
    if k == 0 {
      LowestBit(x);
      LowestBit(c);
    } else {
      ComplementBit(n - 1, x / 2, k - 1);
      BitOfHalf(x, k);
      BitOfHalf(c, k);
    }
  }

  /** C's four bitwise operators, bit by bit. */
  lemma OperatorBits(x: Word, y: Word, k: nat)
    requires k < 32
    ensures Bit(And(x, y), k) == (if Bit(x, k) == 1 && Bit(y, k) == 1 then 1 else 0)
    ensures Bit(Or(x, y), k) == (if Bit(x, k) == 1 || Bit(y, k) == 1 then 1 else 0)
    ensures Bit(Xor(x, y), k) == (if Bit(x, k) != Bit(y, k) then 1 else 0)
    ensures Bit(Not(x), k) == (if Bit(x, k) == 1 then 0 else 1)
  {
    hide Bit, Bitwise, Pow2;
    BitwiseBit(AND, 32, x, y, k);
    BitwiseBit(OR, 32, x, y, k);
    BitwiseBit(XOR, 32, x, y, k);
    Pow2Of32();
    ComplementBit(32, x, k);
  }

  /** A mask of k ones takes the remainder by 2^k. */
  lemma {:induction false} MaskTakesLowBits(n: nat, x: nat, k: nat, mask: nat)
    requires k <= n && mask + 1 == Pow2(k)
    ensures Bitwise(AND, n, x, mask) == x % (mask + 1)
  {
    if k == 0 {
      AndWithZero(n, x);
    } else {
      var half := mask / 2;
      MaskTakesLowBits(n - 1, x / 2, k - 1, half);
      RemainderByDouble(x, half + 1);
      AndWithOdd(n, x, half);
    }
  }

  lemma AndWithOdd(n: nat, x: nat, mask: nat)
    requires n > 0
    ensures Bitwise(AND, n, x, 2 * mask + 1) == x % 2 + 2 * Bitwise(AND, n - 1, x / 2, mask)
  {
    assert (2 * mask + 1) % 2 == 1 && (2 * mask + 1) / 2 == mask;
  }

  lemma {:induction false} AndWithZero(n: nat, x: nat)
    ensures Bitwise(AND, n, x, 0) == 0
  {
    if n > 0 {
      AndWithZero(n - 1, x / 2);
    }
  }

  lemma RemainderByDouble(x: nat, d: nat)
    requires d > 0
    ensures x % (2 * d) == x % 2 + 2 * (x / 2 % d)
  {
    var q, r := x / 2 / d, x / 2 % d;
    assert x == (2 * d) * q + (x % 2 + 2 * r);
    DivisionIsUnique(x, 2 * d, q, x % 2 + 2 * r);
  }

  lemma {:induction false} MulMonotone(d: nat, a: nat, b: nat)
    requires a <= b
    ensures d * a <= d * b
  {
    if a < b {
      MulMonotone(d, a, b - 1);
      assert d * b == d * (b - 1) + d;
    }
  }

  lemma MulCommutes(a: nat, b: nat)
    ensures a * b == b * a
  {
  }

  lemma MulDistributes(a: nat, b: nat, c: nat)
    ensures a * (b + c) == a * b + a * c
  {
  }

  lemma MulAssociates(a: nat, b: nat, c: nat)
    ensures a * (b * c) == a * b * c
  {
  }

  lemma DivisionParts(x: nat, d: nat)
    requires d > 0
    ensures x == d * (x / d) + x % d && 0 <= x % d < d && 0 <= x / d
  {
  }

  lemma LessByProducts(d: nat, a: nat, b: nat)
    requires d * a < d * b
    ensures a < b
  {
    if b <= a {
      MulMonotone(d, b, a);
    }
  }

  lemma DivisionIsUnique(x: nat, d: nat, q: nat, r: nat)
    requires x == d * q + r && r < d
    ensures x / d == q && x % d == r
  {
    var q' := x / d;
    assert x == d * q' + x % d;
    MulDistributes(d, q, 1);
    MulDistributes(d, q', 1);
    LessByProducts(d, q, q' + 1);
    LessByProducts(d, q', q + 1);
  }

  /** Or of a multiple of 2^k and a number below 2^k is their sum. */
  lemma {:induction false} OrOfDisjointBits(n: nat, high: nat, k: nat, low: nat)
    requires k <= n && low < Pow2(k) && Pow2(k) * high + low < Pow2(n)
    ensures Bitwise(OR, n, Pow2(k) * high, low) == Pow2(k) * high + low
  {
    if n == 0 {
    } else if k == 0 {
      OrWithZero(n, high);
    } else {
      MulAssociates(2, Pow2(k - 1), high);
      OrOfDisjointBits(n - 1, high, k - 1, low / 2);
    }
  }

  lemma {:induction false} OrWithZero(n: nat, x: nat)
    requires x < Pow2(n)
    ensures Bitwise(OR, n, x, 0) == x
  {
    if n > 0 {
      OrWithZero(n - 1, x / 2);
    }
  }

  lemma {:induction false} OrCommutes(n: nat, x: nat, y: nat)
    ensures Bitwise(OR, n, x, y) == Bitwise(OR, n, y, x)
  {
    if n > 0 {
      OrCommutes(n - 1, x / 2, y / 2);
    }
  }

  /** Shifting a byte above k bits and or-ing it in adds it at that position. */
  lemma OrInByte(low: nat, k: nat, b: Byte)
    requires k <= 24 && low < Pow2(k)
    ensures Pow2(k) * b as int + low < WORD_LIMIT && Pow2(k) * b as int + low < Pow2(k + 8)
    ensures Or(low, ShiftLeft(b as Word, k)) == low + Pow2(k) * b as int
  {
    hide Bitwise, Pow2;
    var shifted := Pow2(k) * b as int;
    ByteShiftFits(low, k, b);
    MulCommutes(Pow2(k), b as nat);
    assert ShiftLeft(b as Word, k) == shifted;
    Pow2Of32();
    OrOfDisjointBits(32, b as nat, k, low);
    OrCommutes(32, low, shifted);
  }

  lemma ByteShiftFits(low: nat, k: nat, b: Byte)
    requires k <= 24 && low < Pow2(k)
    ensures Pow2(k) * b as int + low < Pow2(k + 8) <= WORD_LIMIT
  {
    hide Pow2;
    Pow2Of8();
    Pow2Sum(k, 8);
    MulMonotone(Pow2(k), b as nat, 255);
    Pow2AtMost(k + 8, 32);
    Pow2Of32();
  }

  lemma Pow2Of8()
    ensures Pow2(8) == 256
  {
    assert Pow2(4) == 16;
    Pow2Sum(4, 4);
  }

  lemma {:induction false} Pow2AtMost(m: nat, n: nat)
    requires m <= n
    ensures Pow2(m) <= Pow2(n)
  {
    if m < n {
      Pow2AtMost(m, n - 1);
    }
  }

  // ---- Rotation ----

  function RotateLeft(x: Word, n: nat): Word
    requires n <= 32
  {
    Or(ShiftLeft(x, n), ShiftRight(x, 32 - n))
  }

  /** Rotation moves the high n bits of a word below its low 32 - n ones. */
  lemma RotateSwapsParts(x: Word, n: nat, high: nat, low: nat)
    requires n <= 32 && low < Pow2(32 - n)
    requires x == Pow2(32 - n) * high + low
    ensures high < Pow2(n)
    ensures RotateLeft(x, n) == Pow2(n) * low + high
  {
    Pow2Of32();
    Pow2Sum(n, 32 - n);
    ShiftParts(x, Pow2(n), Pow2(32 - n), high, low);
    OrOfDisjointBits(32, low, n, high);
  }

  lemma ShiftParts(x: nat, p: nat, q: nat, high: nat, low: nat)
    requires p > 0 && p * q == WORD_LIMIT && low < q && x == q * high + low < WORD_LIMIT
    ensures high < p && x / q == high
    ensures x * p % WORD_LIMIT == p * low && p * low + high < WORD_LIMIT
  {
    DivisionIsUnique(x, q, high, low);
    MulCommutes(p, q);
    LessByProducts(q, high, p);
    MulMonotone(p, low + 1, q);
    MulDistributes(p, low, 1);
    MulCommutes(x, p);
    MulDistributes(p, q * high, low);
    MulAssociates(p, q, high);
    DivisionIsUnique(x * p, WORD_LIMIT, high, p * low);
  }

  /** Rotation as arithmetic: the low 32 - n bits move up by n, the high n bits come in below. */
  lemma RotateLeftExact(x: Word, n: nat)
    requires n <= 32
    ensures RotateLeft(x, n) == Pow2(n) * (x % Pow2(32 - n)) + x / Pow2(32 - n)
  {
    hide Pow2, RotateLeft;
    DivisionParts(x, Pow2(32 - n));
    RotateSwapsParts(x, n, x / Pow2(32 - n), x % Pow2(32 - n));
  }

  lemma RotateBack(x: Word, n: nat)
    requires n <= 32
    ensures RotateLeft(RotateLeft(x, n), 32 - n) == x
  {
    hide Pow2, RotateLeft;
    var q := Pow2(32 - n);
    var high, low := x / q, x % q;
    DivisionParts(x, q);
    RotateSwapsParts(x, n, high, low);
    RotateSwapsParts(RotateLeft(x, n), 32 - n, low, high);
  }

  // ---- Little-endian layout ----

  /** The four bytes of a word, low-order byte first. */
  function EncodeWord(w: Word): (bytes: seq<Byte>)
    ensures |bytes| == 4
  {
    [(w % 256) as Byte, (w / 0x100 % 256) as Byte, (w / 0x1_0000 % 256) as Byte, (w / 0x100_0000) as Byte]
  }

  function DecodeWord(bytes: seq<Byte>): Word
    requires |bytes| == 4
  {
    bytes[0] as int + 0x100 * bytes[1] as int + 0x1_0000 * bytes[2] as int + 0x100_0000 * bytes[3] as int
  }

  lemma DecodeEncode(w: Word)
    ensures DecodeWord(EncodeWord(w)) == w
  {
    assert w / 0x100 == w / 0x100 % 256 + 0x100 * (w / 0x1_0000);
    assert w / 0x1_0000 == w / 0x1_0000 % 256 + 0x100 * (w / 0x100_0000);
  }

  lemma EncodeDecode(bytes: seq<Byte>)
    requires |bytes| == 4
    ensures EncodeWord(DecodeWord(bytes)) == bytes
  {
    var b0, b1, b2, b3 := bytes[0] as int, bytes[1] as int, bytes[2] as int, bytes[3] as int;
    var w := DecodeWord(bytes);
    assert w / 0x100 == b1 + 0x100 * b2 + 0x1_0000 * b3;
    assert w / 0x1_0000 == b2 + 0x100 * b3;
    assert w / 0x100_0000 == b3;
    assert EncodeWord(w) == [b0 as Byte, b1 as Byte, b2 as Byte, b3 as Byte];
  }
}
