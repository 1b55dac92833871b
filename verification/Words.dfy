/** 32-bit words inside 64-bit host registers: truncation, the two extensions, and the arithmetic of
    both widths. Words are the naturals below 2^32, host registers those below 2^64. */
module Words {

  const TWO_32: int := 0x1_0000_0000
  const TWO_64: int := 0x1_0000_0000_0000_0000

  type Word = x: int | 0 <= x < TWO_32
  type Reg = x: int | 0 <= x < TWO_64

  /** The low word: what a 32-bit store writes. */
  function Low(x: int): Word {
    x % TWO_32
  }

  function Wrap64(x: int): Reg {
    x % TWO_64
  }

  function ZExt(v: Word): Reg {
    v
  }

  function SExt(v: Word): Reg {
    if v < 0x8000_0000 then v else v + TWO_64 - TWO_32
  }

  /** Two's-complement readings. */
  function Signed32(v: Word): int {
    if v < 0x8000_0000 then v else v - TWO_32
  }

  function Signed64(x: Reg): int {
    if x < 0x8000_0000_0000_0000 then x else x - TWO_64
  }

  function Pow2(n: nat): (p: nat)
    ensures p >= 1
  {
    if n == 0 then 1 else 2 * Pow2(n - 1)
  }

  datatype BitOp = And | Or | Xor

  function Bit(op: BitOp, a: nat, b: nat): nat
    requires a < 2 && b < 2
    ensures Bit(op, a, b) < 2
  {
    match op
    case And => if a == 1 then b else 0
    case Or => if a == 1 then 1 else b
    case Xor => if a == b then 0 else 1
  }

  /** Bitwise operation on k-bit numbers. */
  function Bitwise(op: BitOp, a: nat, b: nat, k: nat): (r: nat)
    ensures r < Pow2(k)
  {
    if k == 0 then 0 else 2 * Bitwise(op, a / 2, b / 2, k - 1) + Bit(op, a % 2, b % 2)
  }

  lemma Pow2Of32()
    ensures Pow2(32) == TWO_32
  {
    assert Pow2(8) == 256;
    assert Pow2(16) == 0x1_0000;
    assert Pow2(24) == 0x100_0000;
  }

  function Bitwise32(op: BitOp, a: Word, b: Word): Word {
    Pow2Of32();
    Bitwise(op, a, b, 32)
  }

  /** A 64-bit bitwise operation works on the halves separately. */
  function Bitwise64(op: BitOp, a: Reg, b: Reg): Reg {
    Bitwise32(op, a / TWO_32, b / TWO_32) * TWO_32 + Bitwise32(op, Low(a), Low(b))
  }

  function Shl32(a: Word, n: nat): Word { Low(a * Pow2(n)) }

  function Shr32(a: Word, n: nat): Word {
    DivLess(a, Pow2(n));
    a / Pow2(n)
  }

  function Sar32(a: Word, n: nat): Word { Low(Signed32(a) / Pow2(n)) }

  function Shl64(a: Reg, n: nat): Reg { Wrap64(a * Pow2(n)) }

  function Shr64(a: Reg, n: nat): Reg {
    DivLess(a, Pow2(n));
    a / Pow2(n)
  }

  function Sar64(a: Reg, n: nat): Reg { Wrap64(Signed64(a) / Pow2(n)) }

  lemma DivLess(a: nat, d: nat)
    requires d >= 1
    ensures 0 <= a / d <= a
  {
  }

  // ---------------------------------------------------------------- low words

  lemma LowOfExt(v: Word)
    ensures Low(ZExt(v)) == v && Low(SExt(v)) == v && Signed64(SExt(v)) == Signed32(v)
  {
  }

  lemma LowWrap(x: int)
    ensures Low(Wrap64(x)) == Low(x)
  {
  }

  lemma LowPeriod(k: int, x: int)
    ensures Low(k * TWO_32 + x) == Low(x)
  {
  }

  lemma LowSplit(a: int)
    ensures a == a / TWO_32 * TWO_32 + Low(a) && Low(Low(a)) == Low(a)
  {
  }

  lemma LowAdd(a: int, b: int)
    ensures Low(a + b) == Low(Low(a) + Low(b))
  {
  }

  lemma LowOffset(a: nat)
    ensures Low(a) % 4096 == a % 4096
  {
    var q, r := a / TWO_32, Low(a);
    assert a == 0x10_0000 * q * 4096 + r;
    var s, t := r / 4096, r % 4096;
    assert a == (0x10_0000 * q + s) * 4096 + t;
  }

  lemma LowSub(a: int, b: int)
    ensures Low(a - b) == Low(Low(a) - Low(b))
  {
  }

  lemma LowBitwise(op: BitOp, a: Reg, b: Reg)
    ensures Low(Bitwise64(op, a, b)) == Bitwise32(op, Low(a), Low(b))
  {
    hide Low, Bitwise32;
    LowPeriod(Bitwise32(op, a / TWO_32, b / TWO_32), Bitwise32(op, Low(a), Low(b)));
    LowWord(Bitwise32(op, Low(a), Low(b)));
  }

  lemma LowWord(x: Word)
    ensures Low(x) == x
  {
  }

  lemma LowMul(a: int, p: int)
    ensures Low(a * p) == Low(Low(a) * p)
  {
    hide Low;
    var q := a / TWO_32;
    LowSplit(a);
    LowPeriod(q * p, Low(a) * p);
    Distribute(q, TWO_32, Low(a), p);
  }

  lemma Distribute(q: int, m: int, r: int, p: int)
    ensures (q * m + r) * p == (q * p) * m + r * p
  {
    assert (q * m + r) * p == (q * m) * p + r * p;
    assert (q * m) * p == (q * p) * m;
  }

  lemma LowShl(a: Reg, n: nat)
    ensures Low(Shl64(a, n)) == Shl32(Low(a), n)
  {
    hide Low, Pow2, Wrap64;
    LowWrap(a * Pow2(n));
    LowMul(a, Pow2(n));
  }

  lemma ShiftsOfExt(v: Word, n: nat)
    ensures Low(Shr64(ZExt(v), n)) == Shr32(v, n)
    ensures Low(Sar64(SExt(v), n)) == Sar32(v, n)
  {
    hide Low, Pow2, Wrap64, SExt, Signed32, Signed64;
    var p := Pow2(n);
    DivLess(v, p);
    LowOfExt(v);
    LowWord(v / p);
    LowWrap(Signed32(v) / p);
  }

  lemma ExtOrder(a: Word, b: Word)
    ensures Signed64(SExt(a)) < Signed64(SExt(b)) <==> Signed32(a) < Signed32(b)
    ensures SExt(a) < SExt(b) <==> a < b
    ensures SExt(a) == SExt(b) <==> a == b
    ensures ZExt(a) < ZExt(b) <==> a < b
  {
  }

  // ---------------------------------------------------------------- masks

  lemma BitwiseZero(a: nat, k: nat)
    ensures Bitwise(And, a, 0, k) == 0
  {
  }

  lemma MulAtLeast(p: nat, d: nat)
    requires d >= 1
    ensures p * d >= p
  {
  }

  lemma DivUnique(p: nat, q: nat, r: nat, q': nat, r': nat)
    requires p * q + r == p * q' + r' && r < p && r' < p
    ensures q == q'
  {
    assert p * (q' - q) == p * q' - p * q && p * (q - q') == p * q - p * q';
    if q < q' { MulAtLeast(p, q' - q); }
    if q' < q { MulAtLeast(p, q - q'); }
  }

  lemma ModUnique(a: nat, p: nat, q: nat, r: nat)
    requires a == p * q + r && r < p
    ensures a % p == r && a / p == q
  {
    DivUnique(p, q, r, a / p, a % p);
  }

  lemma ModDouble(a: nat, p: nat)
    requires p >= 1
    ensures a % (2 * p) == 2 * (a / 2 % p) + a % 2
  {
    var h := a / 2;
    var q, r := h / p, h % p;
    assert h == p * q + r;
    assert a == 2 * h + a % 2;
    assert 2 * p * q == 2 * (p * q);
    ModUnique(a, 2 * p, q, 2 * r + a % 2);
  }

  lemma OddHalf(p: nat)
    requires p >= 1
    ensures (2 * p - 1) / 2 == p - 1 && (2 * p - 1) % 2 == 1
  {
  }

  lemma BitwiseMaskStep(a: nat, p: nat, k: nat)
    requires p >= 1 && k > 0 && Bitwise(And, a / 2, p - 1, k - 1) == a / 2 % p
    ensures Bitwise(And, a, 2 * p - 1, k) == a % (2 * p)
  {
    OddHalf(p);
    ModDouble(a, p);
    assert Bitwise(And, a, 2 * p - 1, k) == 2 * Bitwise(And, a / 2, (2 * p - 1) / 2, k - 1) + a % 2;
  }

  /** Masking with n ones is reduction modulo 2^n. */
  lemma {:induction false} BitwiseMask(a: nat, n: nat, k: nat)
    requires n <= k
    ensures Bitwise(And, a, Pow2(n) - 1, k) == a % Pow2(n)
  {
    hide Bitwise;
    if n == 0 {
      BitwiseZero(a, k);
    } else {
      BitwiseMask(a / 2, n - 1, k - 1);
      BitwiseMaskStep(a, Pow2(n - 1), k);
    }
  }

  /** Exclusive or with all ones is the complement. */
  lemma {:induction false} BitwiseNot(a: nat, k: nat)
    requires a < Pow2(k)
    ensures Bitwise(Xor, a, Pow2(k) - 1, k) == Pow2(k) - 1 - a
  {
    if k > 0 { BitwiseNot(a / 2, k - 1); }
  }

  lemma LowOfSmallMask(x: Reg, m: nat)
    requires m < TWO_32
    ensures Bitwise64(And, x, m) == Bitwise32(And, Low(x), m)
  {
    BitwiseZero(x / TWO_32, 32);
  }

  lemma LowMask(x: Reg, n: nat)
    requires n <= 31
    ensures 1 <= Pow2(n) < TWO_32 && Bitwise64(And, x, Pow2(n) - 1) == Low(x) % Pow2(n)
  {
    Pow2Monotone(n, 31);
    Pow2Of32();
    BitwiseMask(Low(x), n, 32);
    LowOfSmallMask(x, Pow2(n) - 1);
  }

  lemma {:induction false} Pow2Monotone(n: nat, k: nat)
    requires n <= k
    ensures Pow2(n) <= Pow2(k)
  {
    if n < k { Pow2Monotone(n, k - 1); }
  }

  lemma LowNot(x: Reg)
    ensures Low(Bitwise64(Xor, x, TWO_64 - 1)) == TWO_32 - 1 - Low(x)
  {
    Pow2Of32();
    assert Low(TWO_64 - 1) == TWO_32 - 1;
    hide Low, Pow2, Bitwise;
    LowBitwise(Xor, x, TWO_64 - 1);
    BitwiseNot(Low(x), 32);
  }

  // ---------------------------------------------------------------- or and exclusive or

  /** With BitwiseMask these fix all three operations. */
  lemma {:induction false} BitwiseSums(a: nat, b: nat, k: nat)
    requires a < Pow2(k) && b < Pow2(k)
    ensures Bitwise(Or, a, b, k) + Bitwise(And, a, b, k) == a + b
    ensures Bitwise(Xor, a, b, k) + 2 * Bitwise(And, a, b, k) == a + b
  {
    if k > 0 { BitwiseSums(a / 2, b / 2, k - 1); }
  }

  lemma {:induction false} XorCancels(a: nat, b: nat, k: nat)
    requires a < Pow2(k)
    ensures Bitwise(Xor, Bitwise(Xor, a, b, k), b, k) == a
    ensures Bitwise(Xor, a, b, k) == Bitwise(Xor, b, a, k)
  {
    if k > 0 { XorCancels(a / 2, b / 2, k - 1); }
  }

  lemma Halves(hi: Word, lo: Word)
    ensures var x := hi * TWO_32 + lo; 0 <= x < TWO_64 && x / TWO_32 == hi && Low(x) == lo
  {
  }

  /** Exclusive or is injective in either operand. */
  lemma Xor64Injective(a: Reg, a': Reg, b: Reg)
    requires Bitwise64(Xor, a, b) == Bitwise64(Xor, a', b) || Bitwise64(Xor, b, a) == Bitwise64(Xor, b, a')
    ensures a == a'
  {
    Xor64Cancels(a, b);
    Xor64Cancels(a', b);
    hide Bitwise64;
  }

  lemma Xor64Cancels(a: Reg, b: Reg)
    ensures Bitwise64(Xor, Bitwise64(Xor, a, b), b) == a && Bitwise64(Xor, a, b) == Bitwise64(Xor, b, a)
  {
    Pow2Of32();
    hide Pow2, Bitwise, Low;
    XorCancels(a / TWO_32, b / TWO_32, 32);
    XorCancels(Low(a), Low(b), 32);
    Halves(Bitwise32(Xor, a / TWO_32, b / TWO_32), Bitwise32(Xor, Low(a), Low(b)));
    LowSplit(a);
  }
}
