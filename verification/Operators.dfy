// What the operators of C and the instructions of the machine compute, said on
// numbers and bits: two independent accounts, joined by the compiled code.
module Operators {
  import opened Words
  import opened Isa
  import opened Emu
  import opened Link
  import opened Minic
  import opened Codegen

  // Bit i of a number.
  predicate Bit(x: int, i: nat) {
    x / Pow2(i) % 2 == 1
  }

  // v is x up to a multiple of 2^32.
  predicate Modulo32(v: Word, x: int) {
    (v - x) % W == 0
  }

  lemma WrapModulo(x: int)
    ensures Modulo32(Wrap(x), x)
  {
  }

  // A word read as signed is the number in range with the same residue.
  lemma SignedIs(x: Word)
    ensures -0x8000_0000 <= Signed(x) < 0x8000_0000 && Modulo32(x, Signed(x))
  {
  }

  // ---- bits ----

  lemma DivDouble(x: nat, p: nat)
    requires p > 0
    ensures x / (2 * p) == (x / 2) / p
  {
    var q, r := (x / 2) / p, (x / 2) % p;
    assert x / 2 == p * q + r;
    assert x == (2 * p) * q + (x % 2 + 2 * r);
    DivModUnique(x, 2 * p, q, x % 2 + 2 * r);
  }

  lemma BitShift(x: nat, i: nat)
    requires i > 0
    ensures Bit(x, i) == Bit(x / 2, i - 1)
  {
    DivDouble(x, Pow2(i - 1));
  }

  lemma BitZero(x: nat)
    ensures Bit(x, 0) <==> x % 2 == 1
  {
  }

  lemma BitsSplit(f: BitFn, x: nat, y: nat, n: nat)
    requires n > 0
    ensures Bits(f, x, y, n) % 2 == Bit1(f, x % 2, y % 2) && Bits(f, x, y, n) / 2 == Bits(f, x / 2, y / 2, n - 1)
  {
    hide Bit1;
    DivModUnique(Bits(f, x, y, n), 2, Bits(f, x / 2, y / 2, n - 1), Bit1(f, x % 2, y % 2));
  }

  lemma {:induction false} BitsBit(f: BitFn, x: nat, y: nat, n: nat, i: nat)
    requires i < n
    ensures Bit(Bits(f, x, y, n), i) <==> Bit1(f, if Bit(x, i) then 1 else 0, if Bit(y, i) then 1 else 0) == 1
    decreases n
  {
    hide Bits, Bit, Bit1;
    var z := Bits(f, x, y, n);
    BitsSplit(f, x, y, n);
    if i == 0 {
      BitZero(z);
      BitZero(x);
      BitZero(y);
    } else {
      BitShift(z, i);
      BitShift(x, i);
      BitShift(y, i);
      BitsBit(f, x / 2, y / 2, n - 1, i - 1);
    }
  }

  // Numbers below 2^n with the same bits are the same.
  lemma {:induction false} BitsDetermine(x: nat, y: nat, n: nat)
    requires x < Pow2(n) && y < Pow2(n) && forall i: nat | i < n :: Bit(x, i) == Bit(y, i)
    ensures x == y
    decreases n
  {
    if n > 0 {
      assert Bit(x, 0) == Bit(y, 0);
      assert x / Pow2(0) == x && y / Pow2(0) == y;
      forall i: nat | i < n - 1 ensures Bit(x / 2, i) == Bit(y / 2, i) {
        BitShift(x, i + 1);
        BitShift(y, i + 1);
        assert Bit(x, i + 1) == Bit(y, i + 1);
      }
      BitsDetermine(x / 2, y / 2, n - 1);
    }
  }

  predicate BitTable(f: BitFn, a: bool, b: bool) {
    match f
    case And => a && b
    case Or => a || b
    case Xor => a != b
    case Nor => !a && !b
    case Nand => !a || !b
  }

  // Every bit of v is f of the bits of x and y.
  predicate Bitwise(f: BitFn, x: Word, y: Word, v: Word) {
    forall i: nat | i < 32 :: Bit(v, i) <==> BitTable(f, Bit(x, i), Bit(y, i))
  }

  lemma BitOpBitwise(f: BitFn, x: Word, y: Word)
    ensures Bitwise(f, x, y, BitOp(f, x, y))
  {
    hide Bits, Bit;
    forall i: nat | i < 32 ensures Bit(BitOp(f, x, y), i) <==> BitTable(f, Bit(x, i), Bit(y, i)) {
      BitsBit(f, x, y, 32, i);
    }
  }

  // ---- shifts and divisions ----

  // v is the quotient of x by d, rounded down.
  predicate Floor(v: int, x: int, d: int) {
    v * d <= x < v * d + d
  }

  lemma DivFloor(x: int, d: int)
    requires d > 0
    ensures Floor(x / d, x, d) && 0 <= x % d < d && (x - x % d) % d == 0
  {
    assert x == (x / d) * d + x % d;
    DivModUnique(x - x % d, d, x / d, 0);
  }

  lemma ShiftedRange(x: int, d: int)
    requires d > 0 && -0x8000_0000 <= x < 0x8000_0000
    ensures -0x8000_0000 <= x / d < 0x8000_0000
  {
    DivFloor(x, d);
    MulLe(1, d, 0x8000_0001);
    if x / d < -0x8000_0000 { MulLe(x / d, -0x8000_0001, d); }
    if x / d >= 0x8000_0000 { MulLe(0x8000_0000, x / d, d); }
  }

  lemma SignedWrap(v: int)
    requires -0x8000_0000 <= v < 0x8000_0000
    ensures Signed(Wrap(v)) == v
  {
  }

  // ---- C ----

  // What C asks of the value v of x op y.
  predicate Means(op: BinOp, x: Word, y: Word, v: Word) {
    match op
    case Add => Modulo32(v, x + y)
    case Sub => Modulo32(v, x - y)
    case Mul => Modulo32(v, x * y)
    case UDivide => y != 0 ==> Floor(v, x, y)
    case UModulo => y != 0 ==> v < y && (x - v) % y == 0
    case BitAnd => Bitwise(And, x, y, v)
    case BitOr => Bitwise(Or, x, y, v)
    case BitXor => Bitwise(Xor, x, y, v)
    case Shl => y < 32 ==> Modulo32(v, x * Pow2(y))
    case ShrU => y < 32 ==> Floor(v, x, Pow2(y))
    case ShrS => y < 32 ==> Floor(Signed(v), Signed(x), Pow2(y))
    case Compare(rel, unsigned) =>
      v <= 1 && (match rel
        case Equal => v == 1 <==> x == y
        case Unequal => v == 1 <==> x != y
        case Less => v == 1 <==> if unsigned then x < y else Signed(x) < Signed(y)
        case LessEqual => v == 1 <==> if unsigned then x <= y else Signed(x) <= Signed(y)
        case Greater => v == 1 <==> if unsigned then x > y else Signed(x) > Signed(y)
        case GreaterEqual => v == 1 <==> if unsigned then x >= y else Signed(x) >= Signed(y))
    case _ => true
  }

  // Every operator without a runtime routine has the value C asks for.
  lemma OperatorMeans(fuel: nat, env: Env, op: BinOp, l: Expr, r: Expr, m: Mem, m1: Mem, m2: Mem, p: int, x: Word, y: Word)
    returns (v: Word)
    requires Routine(op).None? && p - 4 >= env.lo
    requires Eval(fuel, env, r, m, p) == Val(y, m1) && Eval(fuel, env, l, m1, p - 4) == Val(x, m2)
    ensures Eval(fuel, env, Bin(op, l, r), m, p) == Val(v, m2) && Means(op, x, y, v)
  {
    hide Apply, Means;
    v := Apply(op, x, y);
    ApplyMeans(op, x, y);
  }

  lemma ApplyMeans(op: BinOp, x: Word, y: Word)
    requires Routine(op).None?
    ensures Means(op, x, y, Apply(op, x, y))
  {
    hide Pow2, Bitwise, BitOp, Signed, Floor, Modulo32;
    match op
    case Add => WrapModulo(x + y);
    case Sub => WrapModulo(x - y);
    case Mul => WrapModulo(x * y);
    case UDivide => DivisionMeans(x, y);
    case UModulo => DivisionMeans(x, y);
    case BitAnd => BitOpBitwise(And, x, y);
    case BitOr => BitOpBitwise(Or, x, y);
    case BitXor => BitOpBitwise(Xor, x, y);
    case Shl => WrapModulo(x * Pow2(y % 32));
    case ShrU => ShiftMeans(x, y);
    case ShrS => ShiftMeans(x, y);
    case Compare(rel, unsigned) => CompareMeans(rel, unsigned, x, y);
  }

  lemma DivisionMeans(x: Word, y: Word)
    ensures Means(UDivide, x, y, Apply(UDivide, x, y)) && Means(UModulo, x, y, Apply(UModulo, x, y))
  {
    hide Pow2, Floor;
    if y != 0 {
      DivBound(x, y);
      DivFloor(x, y);
      WrapSmall(x / y);
      WrapSmall(x % y);
    }
  }

  lemma ShiftMeans(x: Word, y: Word)
    ensures Means(ShrU, x, y, Apply(ShrU, x, y)) && Means(ShrS, x, y, Apply(ShrS, x, y))
  {
    hide Pow2, Floor, Signed, Wrap;
    var d := Pow2(y % 32);
    DivBound(x, d);
    DivFloor(x, d);
    WrapSmall(x / d);
    SignedIs(x);
    ShiftedRange(Signed(x), d);
    SignedWrap(Signed(x) / d);
    DivFloor(Signed(x), d);
  }

  lemma WrapSmall(x: int)
    requires 0 <= x < W
    ensures Wrap(x) == x
  {
  }

  lemma CompareMeans(rel: Relation, unsigned: bool, x: Word, y: Word)
    ensures Means(Compare(rel, unsigned), x, y, Apply(Compare(rel, unsigned), x, y))
  {
  }

  // C leaves no choice where it defines the operator.
  predicate Defined(op: BinOp, y: Word) {
    match op
    case UDivide => y != 0
    case UModulo => y != 0
    case Shl => y < 32
    case ShrU => y < 32
    case ShrS => y < 32
    case _ => true
  }

  lemma MeansOne(op: BinOp, x: Word, y: Word, v: Word, u: Word)
    requires Routine(op).None? && Defined(op, y) && Means(op, x, y, v) && Means(op, x, y, u)
    ensures u == v
  {
    hide Pow2, Bitwise, Bit, Signed, Floor, Modulo32;
    match op
    case Add => OneResidue(v, u, x + y);
    case Sub => OneResidue(v, u, x - y);
    case Mul => OneResidue(v, u, x * y);
    case Shl => OneResidue(v, u, x * Pow2(y));
    case UDivide => OneFloor(v, u, x, y);
    case UModulo => OneRest(v, u, x, y);
    case ShrU => OneFloor(v, u, x, Pow2(y));
    case ShrS =>
      OneFloor(Signed(v), Signed(u), Signed(x), Pow2(y));
      SignedOne(v, u);
    case BitAnd => OneWord(And, x, y, v, u);
    case BitOr => OneWord(Or, x, y, v, u);
    case BitXor => OneWord(Xor, x, y, v, u);
    case Compare(_, _) =>
  }

  lemma OneResidue(v: Word, u: Word, x: int)
    requires Modulo32(v, x) && Modulo32(u, x)
    ensures v == u
  {
  }

  lemma OneFloor(v: int, u: int, x: int, d: int)
    requires d > 0 && Floor(v, x, d) && Floor(u, x, d)
    ensures v == u
  {
    if v < u { MulLe(v + 1, u, d); MulDistr(v, 1, d); }
    if u < v { MulLe(u + 1, v, d); MulDistr(u, 1, d); }
  }

  lemma OneRest(v: Word, u: Word, x: int, d: int)
    requires d > 0 && v < d && u < d && (x - v) % d == 0 && (x - u) % d == 0
    ensures v == u
  {
    DivModUnique(x, d, (x - v) / d, v);
    DivModUnique(x, d, (x - u) / d, u);
  }

  lemma SignedOne(v: Word, u: Word)
    requires Signed(v) == Signed(u)
    ensures v == u
  {
  }

  lemma OneWord(f: BitFn, x: Word, y: Word, v: Word, u: Word)
    requires Bitwise(f, x, y, v) && Bitwise(f, x, y, u)
    ensures v == u
  {
    hide Bit;
    Pow2Values();
    forall i: nat | i < 32 ensures Bit(v, i) == Bit(u, i) {
    }
    BitsDetermine(v, u, 32);
  }

  lemma {:induction false} OnesBit(n: nat, i: nat)
    requires i < n
    ensures Bit(Pow2(n) - 1, i)
    decreases n
  {
    var p := Pow2(n - 1);
    assert (Pow2(n) - 1) % 2 == 1 && (Pow2(n) - 1) / 2 == p - 1;
    if i == 0 {
      BitZero(Pow2(n) - 1);
    } else {
      BitShift(Pow2(n) - 1, i);
      OnesBit(n - 1, i - 1);
    }
  }

  lemma ComplementBits(v: Word)
    ensures forall i: nat | i < 32 :: Bit(W - 1 - v, i) <==> !Bit(v, i)
  {
    hide Bit, BitOp, Pow2;
    XorOnes(v);
    BitOpBitwise(Xor, v, W - 1);
    Pow2Values();
    forall i: nat | i < 32 ensures Bit(W - 1 - v, i) <==> !Bit(v, i) {
      OnesBit(32, i);
    }
  }

  // -x is the opposite number, ~x has every bit turned over, !x is 1 exactly for 0.
  lemma UnaryMeans(fuel: nat, env: Env, x: Expr, m: Mem, m1: Mem, p: int, v: Word) returns (n: Word, b: Word, z: Word)
    requires Eval(fuel, env, x, m, p) == Val(v, m1)
    ensures Eval(fuel, env, Neg(x), m, p) == Val(n, m1) && Modulo32(n, 0 - v)
    ensures Eval(fuel, env, BitNot(x), m, p) == Val(b, m1) && forall i: nat | i < 32 :: Bit(b, i) <==> !Bit(v, i)
    ensures Eval(fuel, env, Not(x), m, p) == Val(z, m1) && z <= 1 && (z == 1 <==> v == 0)
  {
    hide Bit, Modulo32, Wrap;
    n, b, z := Wrap(0 - v), W - 1 - v, Bool(v == 0);
    WrapModulo(0 - v);
    ComplementBits(v);
  }

  // r is the number of type ty with v's low bits.
  predicate Narrowed(v: Word, ty: Ty, r: Word) {
    match ty.kind
    case Char => (r - v) % 0x100 == 0 && if ty.unsigned then r < 0x100 else -0x80 <= Signed(r) < 0x80
    case Short => (r - v) % 0x1_0000 == 0 && if ty.unsigned then r < 0x1_0000 else -0x8000 <= Signed(r) < 0x8000
    case _ => r == v
  }

  lemma ExtendIs(v: Word, bits: nat, n: nat, unsigned: bool)
    requires (bits == 8 && n == 0x100) || (bits == 16 && n == 0x1_0000)
    ensures v % n < n && Extend(v, bits, unsigned) == if unsigned || v % n < n / 2 then v % n else W + v % n - n
  {
    hide Pow2;
    Pow2Values();
    HalfPow2();
    SignedLow(v % n, n);
  }

  lemma ConvertNarrows(v: Word, ty: Ty)
    ensures Narrowed(v, ty, Convert(v, ty))
  {
    hide Extend, Signed;
    if ty.kind.Char? {
      ExtendIs(v, 8, 0x100, ty.unsigned);
      LowPart(v, 0x100);
      SignedLow(v % 0x100, 0x100);
    } else if ty.kind.Short? {
      ExtendIs(v, 16, 0x1_0000, ty.unsigned);
      LowPart(v, 0x1_0000);
      SignedLow(v % 0x1_0000, 0x1_0000);
    }
  }

  lemma LowPart(v: Word, n: nat)
    requires n == 0x100 || n == 0x1_0000
    ensures (v % n - v) % n == 0 && (W + v % n - n - v) % n == 0
  {
  }

  lemma SignedLow(low: nat, n: nat)
    requires low < n && (n == 0x100 || n == 0x1_0000)
    ensures low < n / 2 ==> Signed(low) == low
    ensures low >= n / 2 ==> Wrap(low - n) == W + low - n && Signed(W + low - n) == low - n
  {
  }

  lemma HalfPow2()
    ensures Pow2(7) == 0x80 && Pow2(15) == 0x8000
  {
    Pow2Values();
    assert Pow2(8) == 2 * Pow2(7) && Pow2(16) == 2 * Pow2(15);
  }

  // A cast narrows its operand's value; a narrow object is read as its type says.
  lemma CastMeans(fuel: nat, env: Env, x: Expr, ty: Ty, m: Mem, m1: Mem, p: int, v: Word) returns (r: Word)
    requires Eval(fuel, env, x, m, p) == Val(v, m1)
    ensures Eval(fuel, env, Cast(x, ty), m, p) == Val(r, m1) && Narrowed(v, ty, r)
  {
    hide Convert, Narrowed;
    r := Convert(v, ty);
    ConvertNarrows(v, ty);
  }

  // && and || stop at the first operand when it decides, and give 0 or 1.
  lemma LogicMeans(fuel: nat, env: Env, l: Expr, r: Expr, m: Mem, m1: Mem, m2: Mem, p: int, x: Word, y: Word)
    requires Eval(fuel, env, l, m, p) == Val(x, m1)
    ensures x == 0 ==> Eval(fuel, env, LogAnd(l, r), m, p) == Val(0, m1)
    ensures x != 0 ==> Eval(fuel, env, LogOr(l, r), m, p) == Val(1, m1)
    ensures x != 0 && Eval(fuel, env, r, m1, p) == Val(y, m2) ==>
              Eval(fuel, env, LogAnd(l, r), m, p) == Val(if y != 0 then 1 else 0, m2)
    ensures x == 0 && Eval(fuel, env, r, m1, p) == Val(y, m2) ==>
              Eval(fuel, env, LogOr(l, r), m, p) == Val(if y != 0 then 1 else 0, m2)
  {
    hide Apply, Convert, CallFn, EvalArgs, Address;
  }

  // ---- the machine ----

  // What the instruction set asks of an arithmetic instruction's result.
  predicate Computes(op: AluOp, x: Word, y: Word, v: Word) {
    match op
    case ANand => Bitwise(Nand, x, y, v)
    case AOr => Bitwise(Or, x, y, v)
    case AAnd => Bitwise(And, x, y, v)
    case ANor => Bitwise(Nor, x, y, v)
    case AXor => Bitwise(Xor, x, y, v)
    case AAdd => Modulo32(v, x + y)
    case ASub => Modulo32(v, x - y)
    case ALsl => Modulo32(v, x * Pow2(y % 32))
    case ALsr => Floor(v, x, Pow2(y % 32))
    case AAsr => Floor(Signed(v), Signed(x), Pow2(y % 32))
    case AMul => Modulo32(v, x * y)
    case ADiv => if y == 0 then v == 0 else Floor(v, x, y)
    case AMod => if y == 0 then v == 0 else v < y && (x - v) % y == 0
  }

  lemma AluComputes(op: AluOp, x: Word, y: Word)
    ensures Computes(op, x, y, Alu(op, x, y))
  {
    hide Pow2, Bitwise, BitOp, Signed, Floor, Modulo32;
    match op
    case ANand => BitOpBitwise(Nand, x, y);
    case AOr => BitOpBitwise(Or, x, y);
    case AAnd => BitOpBitwise(And, x, y);
    case ANor => BitOpBitwise(Nor, x, y);
    case AXor => BitOpBitwise(Xor, x, y);
    case AAdd => WrapModulo(x + y);
    case ASub => WrapModulo(x - y);
    case ALsl => WrapModulo(x * Pow2(y % 32));
    case ALsr => DivFloor(x, Pow2(y % 32));
    case AAsr =>
      SignedIs(x);
      ShiftedRange(Signed(x), Pow2(y % 32));
      SignedWrap(Signed(x) / Pow2(y % 32));
      DivFloor(Signed(x), Pow2(y % 32));
    case AMul => WrapModulo(x * y);
    case ADiv => if y != 0 { DivFloor(x, y); }
    case AMod => if y != 0 { DivFloor(x, y); }
  }

  // An arithmetic instruction puts its result in its register and changes
  // nothing else; y is the second register or the immediate.
  lemma AluRuns(s: Cpu, op: AluOp, a: Reg, b: Reg, c: Reg, n: Imm)
    requires s.Valid() && a != ZR
    ensures Exec(AluR(op, a, b, c), s).Next? && Exec(AluI(op, a, b, n), s).Next?
    ensures var t := Exec(AluR(op, a, b, c), s).s;
            t == s.(regs := s.regs[a := t.regs[a]], pc := s.pc + 4) && Computes(op, s.regs[b], s.regs[c], t.regs[a])
    ensures var t := Exec(AluI(op, a, b, n), s).s;
            t == s.(regs := s.regs[a := t.regs[a]], pc := s.pc + 4) && Computes(op, s.regs[b], n, t.regs[a])
  {
    hide Alu, Computes;
    AluComputes(op, s.regs[b], s.regs[c]);
    AluComputes(op, s.regs[b], n);
  }

  // The relation each conditional jump stands for.
  predicate Decides(cc: Cond, x: Word, y: Word) {
    match cc
    case Je => x == y
    case Jne => x != y
    case Jb => x < y
    case Jbe => x <= y
    case Ja => x > y
    case Jae => x >= y
    case Jl => Signed(x) < Signed(y)
    case Jle => Signed(x) <= Signed(y)
    case Jg => Signed(x) > Signed(y)
    case Jge => Signed(x) >= Signed(y)
  }

  // A comparison and then a conditional jump: control goes to the target exactly
  // when the relation holds of the two registers.
  lemma ComparedJump(s: Cpu, b: Reg, c: Reg, cc: Cond, n: Imm)
    requires s.Valid() && n != s.pc + 4
    ensures Exec(CmpR(b, c), s).Next? && Exec(Jcc(cc, n), Exec(CmpR(b, c), s).s).Next?
    ensures Exec(Jcc(cc, n), Exec(CmpR(b, c), s).s).s.pc == if Decides(cc, s.regs[b], s.regs[c]) then n else s.pc + 8
  {
    hide Signed;
  }

  // The jump the compiler chooses for a comparison is taken exactly when the
  // comparison's value in C is 1.
  lemma JumpDecides(rel: Relation, unsigned: bool, x: Word, y: Word, v: Word)
    requires Means(Compare(rel, unsigned), x, y, v)
    ensures Decides(JumpFor(rel, unsigned), x, y) <==> v == 1
  {
    hide Signed;
    SignedInjective(x, y);
  }

  lemma SignedInjective(x: Word, y: Word)
    ensures Signed(x) == Signed(y) <==> x == y
  {
  }

  // ---- memory ----

  // The number four bytes write, the high one first.
  function Digits256(b0: int, b1: int, b2: int, b3: int): int {
    ((b0 * 256 + b1) * 256 + b2) * 256 + b3
  }

  lemma LoadsBigEndian(mem: seq<Byte>, a: nat)
    requires a + 4 <= |mem|
    ensures Read(mem, a, 4) == Some(Digits256(mem[a], mem[a + 1], mem[a + 2], mem[a + 3]))
    ensures Read(mem, a, 2) == Some(Digits256(0, 0, mem[a], mem[a + 1])) && Read(mem, a, 1) == Some(Digits256(0, 0, 0, mem[a]))
  {
  }

  // A store of n bytes writes the low n digits of v and nothing else.
  lemma StoresBigEndian(mem: seq<Byte>, a: nat, v: Word)
    requires a + 4 <= |mem|
    ensures Write(mem, a, 4, v).Some? && Write(mem, a, 2, v).Some? && Write(mem, a, 1, v).Some?
    ensures var w := Write(mem, a, 4, v).value;
            w == mem[a := w[a]][a + 1 := w[a + 1]][a + 2 := w[a + 2]][a + 3 := w[a + 3]] && Digits256(w[a], w[a + 1], w[a + 2], w[a + 3]) == v
    ensures var w := Write(mem, a, 2, v).value;
            w == mem[a := w[a]][a + 1 := w[a + 1]] && Digits256(0, 0, w[a], w[a + 1]) == v % 0x1_0000
    ensures Write(mem, a, 1, v).value == mem[a := v % 256]
  {
    hide ByteAt;
    BytesOf(v);
  }

  lemma BytesOf(v: Word)
    ensures Digits256(ByteAt(v, 0), ByteAt(v, 1), ByteAt(v, 2), ByteAt(v, 3)) == v
    ensures Digits256(0, 0, ByteAt(v, 2), ByteAt(v, 3)) == v % 0x1_0000 && ByteAt(v, 3) == v % 256
  {
  }

  // The memory an instruction of this width is about.
  function Bank(s: Cpu, w: Width): seq<Byte> {
    if w.Disk? then s.disk else s.mem
  }

  function LowDigits(v: Word, w: Width): Word {
    match w case B8 => v % 256 case B16 => v % 0x1_0000 case B32 => v case Disk => v
  }

  // What is loaded back after a store of the same width at the same address is
  // the low digits of what was stored; the store changes no register.
  lemma StoreThenLoad(s: Cpu, w: Width, a: Reg, b: Reg, c: Reg)
    requires s.Valid() && a != ZR && s.regs[c] + WidthBytes(w) <= |Bank(s, w)|
    ensures Exec(StoreR(w, c, b), s).Next?
    ensures var t := Exec(StoreR(w, c, b), s).s; t.regs == s.regs && t.pc == s.pc + 4 && (w.Disk? ==> t.mem == s.mem)
    ensures var o := Exec(LoadR(w, a, c), Exec(StoreR(w, c, b), s).s);
            o.Next? && o.s.regs == s.regs[a := LowDigits(s.regs[b], w)]
  {
    hide Read, Write;
    WriteRead(Bank(s, w), s.regs[c], WidthBytes(w), s.regs[b]);
  }

  // Outside they stop the machine and change nothing.
  lemma OutsideMemory(s: Cpu, w: Width, a: Reg, b: Reg, c: Reg)
    requires s.Valid() && s.regs[c] + WidthBytes(w) > |Bank(s, w)|
    ensures Exec(StoreR(w, c, b), s) == Fault(2, s) && Exec(LoadR(w, a, c), s) == Fault(2, s)
  {
    hide Read, Write;
    WriteRead(Bank(s, w), s.regs[c], WidthBytes(w), s.regs[b]);
  }

  lemma WriteRead(m: seq<Byte>, a: nat, n: nat, v: Word)
    requires n == 1 || n == 2 || n == 4
    ensures Write(m, a, n, v).Some? <==> a + n <= |m|
    ensures Read(m, a, n).Some? <==> a + n <= |m|
    ensures Write(m, a, n, v).Some? ==>
              Read(Write(m, a, n, v).value, a, n) == Some(if n == 1 then v % 256 else if n == 2 then v % 0x1_0000 else v)
  {
    hide ByteAt, Be32;
    BytesOf(v);
    DigitsAre(ByteAt(v, 0), ByteAt(v, 1), ByteAt(v, 2), ByteAt(v, 3));
    DigitsAre(0, 0, ByteAt(v, 2), ByteAt(v, 3));
  }

  lemma DigitsAre(b0: Byte, b1: Byte, b2: Byte, b3: Byte)
    ensures Be32(b0, b1, b2, b3) == Digits256(b0, b1, b2, b3)
  {
  }
}
