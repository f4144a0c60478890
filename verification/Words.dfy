// 32-bit machine words as integers modulo 2^32, with bitwise operations
// defined bit by bit so that they can be reasoned about by induction.
module Words {

  datatype Option<+T> = None | Some(value: T)

  const W := 0x1_0000_0000
  type Word = x: int | 0 <= x < W
  type Byte = x: int | 0 <= x < 256

  function Wrap(x: int): Word {
    x % W
  }

  // The value of a word read as a two's complement number.
  function Signed(x: Word): int {
    if x < 0x8000_0000 then x else x - W
  }

  function Pow2(n: nat): (r: nat)
    ensures r > 0
  {
    if n == 0 then 1 else 2 * Pow2(n - 1)
  }

  datatype BitFn = And | Or | Xor | Nor | Nand

  function Bit1(f: BitFn, a: int, b: int): (r: nat)
    ensures r <= 1
  {
    match f
    case And => if a == 1 && b == 1 then 1 else 0
    case Or => if a == 1 || b == 1 then 1 else 0
    case Xor => if a != b then 1 else 0
    case Nor => if a == 1 || b == 1 then 0 else 1
    case Nand => if a == 1 && b == 1 then 0 else 1
  }

  // The low n bits of f applied bit by bit.
  function Bits(f: BitFn, x: nat, y: nat, n: nat): (r: nat)
    ensures r < Pow2(n)
    decreases n
  {
    if n == 0 then 0 else Bit1(f, x % 2, y % 2) + 2 * Bits(f, x / 2, y / 2, n - 1)
  }

  lemma Pow2Values()
    ensures Pow2(8) == 0x100 && Pow2(16) == 0x1_0000 && Pow2(24) == 0x100_0000 && Pow2(31) == 0x8000_0000 && Pow2(32) == W
  {
    assert Pow2(4) == 16;
    assert Pow2(8) == 16 * Pow2(4);
    assert Pow2(12) == 16 * Pow2(8);
    assert Pow2(16) == 16 * Pow2(12);
    assert Pow2(20) == 16 * Pow2(16);
    assert Pow2(24) == 16 * Pow2(20);
    assert Pow2(28) == 16 * Pow2(24);
    assert Pow2(31) == 8 * Pow2(28);
    assert Pow2(32) == 16 * Pow2(28);
  }

  function BitOp(f: BitFn, x: Word, y: Word): Word {
    Pow2Values();
    Bits(f, x, y, 32)
  }

  function Lsl(x: Word, k: nat): Word {
    Wrap(x * Pow2(k % 32))
  }

  function Lsr(x: Word, k: nat): Word {
    DivBound(x, Pow2(k % 32));
    x / Pow2(k % 32)
  }

  function Asr(x: Word, k: nat): Word {
    Wrap(Signed(x) / Pow2(k % 32))
  }

  lemma MulLe(a: int, b: int, c: nat)
    requires a <= b
    ensures a * c <= b * c
  {
    assert (b - a) * c >= 0;
  }

  lemma DivBound(x: nat, d: nat)
    requires d > 0
    ensures 0 <= x / d <= x
  {
    var q, r := x / d, x % d;
    assert x == q * d + r;
    if q < 0 {
      MulLe(q, -1, d);
      assert false;
    }
    MulLe(1, d, q);
  }

  // ---- facts about the bitwise operations ----

  lemma {:induction false} BitsOrZeroLeft(y: nat, n: nat)
    requires y < Pow2(n)
    ensures Bits(Or, 0, y, n) == y
  {
    if n > 0 {
      BitsOrZeroLeft(y / 2, n - 1);
    }
  }

  lemma {:induction false} BitsOrZeroRight(x: nat, n: nat)
    requires x < Pow2(n)
    ensures Bits(Or, x, 0, n) == x
  {
    if n > 0 {
      BitsOrZeroRight(x / 2, n - 1);
    }
  }

  // Filling k zero low bits with l.
  lemma {:induction false} BitsOrDisjoint(h: nat, l: nat, k: nat, n: nat)
    requires k <= n && l < Pow2(k) && h < Pow2(n - k)
    ensures Bits(Or, h * Pow2(k), l, n) == h * Pow2(k) + l
  {
    if k == 0 {
      BitsOrZeroRight(h, n);
    } else {
      var x := h * Pow2(k);
      assert x == 2 * (h * Pow2(k - 1));
      assert x % 2 == 0 && x / 2 == h * Pow2(k - 1);
      BitsOrDisjoint(h, l / 2, k - 1, n - 1);
    }
  }

  lemma {:induction false} BitsAndMask(x: nat, k: nat, n: nat)
    requires k <= n
    ensures Bits(And, x, Pow2(k) - 1, n) == x % Pow2(k)
  {
    if k == 0 {
      BitsAndZero(x, n);
    } else {
      BitsAndMask(x / 2, k - 1, n - 1);
      AndStep(x, Pow2(k - 1), n);
    }
  }

  lemma AndStep(x: nat, p: nat, n: nat)
    requires n > 0 && p > 0
    requires Bits(And, x / 2, p - 1, n - 1) == (x / 2) % p
    ensures Bits(And, x, 2 * p - 1, n) == x % (2 * p)
  {
    var m := 2 * p - 1;
    assert m % 2 == 1 && m / 2 == p - 1;
    assert Bits(And, x, m, n) == x % 2 + 2 * Bits(And, x / 2, p - 1, n - 1);
    ModHalf(x, p);
  }

  lemma {:induction false} BitsAndZero(x: nat, n: nat)
    ensures Bits(And, x, 0, n) == 0
  {
    if n > 0 {
      BitsAndZero(x / 2, n - 1);
    }
  }

  lemma ModHalf(x: nat, p: nat)
    requires p > 0
    ensures x % (2 * p) == x % 2 + 2 * ((x / 2) % p)
  {
    var q, r := (x / 2) / p, (x / 2) % p;
    assert x / 2 == p * q + r;
    assert x == (2 * p) * q + (x % 2 + 2 * r);
    DivModUnique(x, 2 * p, q, x % 2 + 2 * r);
  }

  // Quotient and remainder are unique.
  lemma DivModUnique(x: int, d: int, q: int, r: int)
    requires d > 0 && x == d * q + r && 0 <= r < d
    ensures x / d == q && x % d == r
  {
    var q', r' := x / d, x % d;
    MultipleSize(d, q' - q);
    assert d * (q' - q) == d * q' - d * q;
  }

  lemma MultipleSize(d: int, k: int)
    requires d > 0
    ensures (k >= 1 ==> d * k >= d) && (k <= -1 ==> d * k <= -d)
  {
  }

  lemma {:induction false} BitsXorOnes(x: nat, n: nat)
    requires x < Pow2(n)
    ensures Bits(Xor, x, Pow2(n) - 1, n) == Pow2(n) - 1 - x
  {
    if n > 0 {
      var p := Pow2(n - 1);
      assert (Pow2(n) - 1) % 2 == 1 && (Pow2(n) - 1) / 2 == p - 1;
      BitsXorOnes(x / 2, n - 1);
    }
  }

  // ---- the same facts about words ----

  // or with zr copies: the encoding of mov.
  lemma OrZero(x: Word)
    ensures BitOp(Or, 0, x) == x
    ensures BitOp(Or, x, 0) == x
  {
    Pow2Values();
    BitsOrZeroLeft(x, 32);
    BitsOrZeroRight(x, 32);
  }

  // A word is rebuilt from its halves by lsl 16 and or.
  lemma HalvesJoin(hi: nat, lo: nat)
    requires hi < 0x1_0000 && lo < 0x1_0000
    ensures Lsl(hi, 16) == hi * 0x1_0000
    ensures BitOp(Or, Lsl(hi, 16), lo) == hi * 0x1_0000 + lo
  {
    Pow2Values();
    assert Lsl(hi, 16) == hi * Pow2(16);
    BitsOrDisjoint(hi, lo, 16, 32);
  }

  // xor with all ones is the one's complement.
  lemma XorOnes(x: Word)
    ensures BitOp(Xor, x, W - 1) == W - 1 - x
  {
    Pow2Values();
    BitsXorOnes(x, 32);
  }

  lemma AndMask(x: Word, k: nat)
    requires k <= 32
    ensures Pow2(k) - 1 < W
    ensures BitOp(And, x, Pow2(k) - 1) == x % Pow2(k)
  {
    Pow2Values();
    Pow2Mono(k, 32);
    BitsAndMask(x, k, 32);
  }

  lemma {:induction false} Pow2Mono(a: nat, b: nat)
    requires a <= b
    ensures Pow2(a) <= Pow2(b)
    decreases b - a
  {
    if a < b {
      Pow2Mono(a, b - 1);
    }
  }

  lemma {:induction false} Pow2Add(a: nat, b: nat)
    ensures Pow2(a + b) == Pow2(a) * Pow2(b)
  {
    if a > 0 {
      Pow2Add(a - 1, b);
    }
  }

  // ---- sign extension by shifting ----

  // The low `bits` bits of x, sign-extended (or zero-extended) to a word.
  function Extend(x: Word, bits: nat, unsigned: bool): Word
    requires 0 < bits <= 32
  {
    var p := Pow2(bits);
    var low := x % p;
    if unsigned || low < Pow2(bits - 1) then Wrap(low) else Wrap(low - p)
  }

  lemma MulAssoc(a: int, b: int, c: int)
    ensures (a * b) * c == a * (b * c)
  {
  }

  lemma MulDistr(a: int, b: int, c: int)
    ensures (a + b) * c == a * c + b * c
    ensures (a - b) * c == a * c - b * c
  {
  }

  lemma ShiftSplit(x: nat, d: nat, p: nat, w: nat)
    requires d > 0 && p > 0 && p * d == w
    ensures w > 0 && (x * d) % w == (x % p) * d
    ensures 0 <= (x % p) * d <= w - d
  {
    var low, high := x % p, x / p;
    MulLe(1, p, d);
    MulDistr(high * p, low, d);
    MulAssoc(high, p, d);
    MulLe(0, low, d);
    MulLe(low, p - 1, d);
    MulDistr(p, 1, d);
    DivModUnique(x * d, w, high, low * d);
  }

  // Shifting left by k discards the k high bits.
  lemma LslDropsHighBits(x: Word, k: nat)
    requires k < 32
    ensures Lsl(x, k) == (x % Pow2(32 - k)) * Pow2(k)
    ensures Pow2(32 - k) * Pow2(k) == W
  {
    hide Pow2;
    Pow2Add(32 - k, k);
    Pow2Values();
    ShiftSplit(x, Pow2(k), Pow2(32 - k), W);
  }

  // Shifting left and back right keeps the low bits: the shape of every
  // narrowing load and cast.
  lemma ShiftExtendsUnsigned(x: Word, bits: nat)
    requires 0 < bits < 32
    ensures Lsr(Lsl(x, 32 - bits), 32 - bits) == Extend(x, bits, true)
  {
    hide Pow2;
    var k := 32 - bits;
    var d, p := Pow2(k), Pow2(bits);
    LslDropsHighBits(x, k);
    LowBound(x, p);
    DivModUnique((x % p) * d, d, x % p, 0);
    assert k % 32 == k;
  }

  lemma LowBound(x: Word, p: nat)
    requires p > 0
    ensures 0 <= x % p <= x
  {
    DivBound(x, p);
    MulLe(0, x / p, p);
  }

  // The shifted field, read as signed and divided back.
  lemma SignedSplit(low: nat, d: nat, half: nat)
    requires d > 0 && half * d == 0x8000_0000 && low < 2 * half
    ensures 0 <= low * d < W
    ensures Signed(low * d) / d == if low < half then low else low - 2 * half
  {
    hide Pow2, Bits;
    MulLe(0, low, d);
    MulLe(low, 2 * half - 1, d);
    MulDistr(2 * half, 1, d);
    MulAssoc(2, half, d);
    if low < half {
      MulLe(low, half - 1, d);
      MulDistr(half, 1, d);
      DivModUnique(low * d, d, low, 0);
    } else {
      MulLe(half, low, d);
      MulDistr(low, 2 * half, d);
      DivModUnique(low * d - W, d, low - 2 * half, 0);
    }
  }

  lemma Pow2Double(n: nat)
    ensures Pow2(n + 1) == 2 * Pow2(n)
  {
  }

  lemma ShiftExtendsSigned(x: Word, bits: nat)
    requires 0 < bits < 32
    ensures Asr(Lsl(x, 32 - bits), 32 - bits) == Extend(x, bits, false)
  {
    hide Pow2, Lsl, Signed;
    var k := 32 - bits;
    LslDropsHighBits(x, k);
    Pow2Values();
    Pow2Add(bits - 1, k);
    Pow2Double(bits - 1);
    var half, d, p, low := Pow2(bits - 1), Pow2(k), Pow2(bits), x % Pow2(bits);
    assert bits - 1 + k == 31;
    SignedSplit(low, d, half);
    assert k % 32 == k;
    assert Asr(Lsl(x, k), k) == Wrap(Signed(low * d) / d);
  }

  // ---- big-endian bytes ----

  function Be32(b0: Byte, b1: Byte, b2: Byte, b3: Byte): Word {
    b0 * 0x100_0000 + b1 * 0x1_0000 + b2 * 0x100 + b3
  }

  function ByteAt(w: Word, i: nat): Byte
    requires i < 4
  {
    if i == 0 then w / 0x100_0000
    else if i == 1 then (w / 0x1_0000) % 256
    else if i == 2 then (w / 0x100) % 256
    else w % 256
  }

  lemma Be32RoundTrip(w: Word)
    ensures Be32(ByteAt(w, 0), ByteAt(w, 1), ByteAt(w, 2), ByteAt(w, 3)) == w
  {
    BytesNest(w);
  }

  lemma BytesNest(w: nat)
    ensures w == w / 0x100 * 0x100 + w % 256
    ensures w / 0x100 == w / 0x1_0000 * 0x100 + w / 0x100 % 256
    ensures w / 0x1_0000 == w / 0x100_0000 * 0x100 + w / 0x1_0000 % 256
  {
    var a, b, c := w / 0x100, w / 0x1_0000, w / 0x100_0000;
    assert a / 256 == b by { DivModUnique(w, 0x1_0000, a / 256, a % 256 * 256 + w % 256); }
    assert b / 256 == c by { DivModUnique(w, 0x100_0000, b / 256, b % 256 * 0x1_0000 + w % 0x1_0000); }
  }
}
