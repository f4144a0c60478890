// The instruction set: what the encoding table writes and what the emulator
// reads back (emu/isa.c, emu/emu.c).
module Isa {
  import opened Words

  type Reg = r: int | 0 <= r < 16
  type Imm = x: int | 0 <= x < 0x1_0000

  const ZR: Reg := 0
  const SP: Reg := 14
  const FLAGS: Reg := 15

  datatype AluOp = ANand | AOr | AAnd | ANor | AAdd | ASub | AXor | ALsl | ALsr | AAsr | AMul | ADiv | AMod
  datatype Cond = Je | Jne | Jb | Jae | Jbe | Ja | Jl | Jge | Jle | Jg
  // Disk is the pload/pstore pair, which moves 32 bits.
  datatype Width = B8 | B16 | B32 | Disk

  datatype Insn =
    | Nop
    | In(a: Reg) | Out(c: Reg) | OutI(imm: Imm) | Keyboard(a: Reg)
    | Screen(b: Reg, c: Reg) | ScreenI(b: Reg, imm: Imm)
    | Time0(a: Reg) | Time1(a: Reg) | Counter(a: Reg)
    | AluR(op: AluOp, a: Reg, b: Reg, c: Reg)
    | AluI(op: AluOp, a: Reg, b: Reg, imm: Imm)
    | CmpR(b: Reg, c: Reg) | CmpI(b: Reg, imm: Imm)
    | JmpR(c: Reg) | JmpI(imm: Imm) | Jcc(cc: Cond, imm: Imm)
    | LoadR(w: Width, a: Reg, c: Reg) | StoreR(w: Width, c: Reg, b: Reg)
    | LoadI(w: Width, a: Reg, imm: Imm) | StoreI(w: Width, imm: Imm, b: Reg)

  // ---- the encoding table, one row per shape ----

  // An operand field: a value of `len` bits whose lowest bit is `pos`.
  datatype Field = Field(pos: nat, len: nat)
  datatype Encoding = Encoding(bits: Word, fields: seq<Field>)

  const RA := Field(20, 4)
  const RB := Field(16, 4)
  const RC := Field(8, 4)
  const IM := Field(0, 16)

  function AluCode(op: AluOp): (k: nat)
    ensures k <= 13
  {
    match op
    case ANand => 0 case AOr => 1 case AAnd => 2 case ANor => 3 case AAdd => 4
    case ASub => 5 case AXor => 6 case ALsl => 7 case ALsr => 8 case AAsr => 9
    case AMul => 11 case ADiv => 12 case AMod => 13
  }

  function CondCode(cc: Cond): (k: nat)
    ensures 0x51 <= k <= 0x5D
  {
    match cc
    case Je => 0x51 case Jne => 0x59 case Jb => 0x52 case Jae => 0x5A case Jbe => 0x53
    case Ja => 0x5B case Jl => 0x54 case Jge => 0x5C case Jle => 0x55 case Jg => 0x5D
  }

  function WidthCode(w: Width): (k: nat)
    ensures k <= 3
  {
    match w case B8 => 0 case B16 => 1 case B32 => 2 case Disk => 3
  }

  const OP := 0x100_0000

  function TableRow(i: Insn): Encoding {
    match i
    case Nop => Encoding(0, [])
    case In(_) => Encoding(0x01 * OP, [RA])
    case Out(_) => Encoding(0x02 * OP, [RC])
    case OutI(_) => Encoding(0x12 * OP, [IM])
    case Keyboard(_) => Encoding(0x03 * OP, [RA])
    case Screen(_, _) => Encoding(0x04 * OP, [RB, RC])
    case ScreenI(_, _) => Encoding(0x14 * OP, [RB, IM])
    case Time0(_) => Encoding(0x05 * OP, [RA])
    case Time1(_) => Encoding(0x06 * OP, [RA])
    case Counter(_) => Encoding(0x07 * OP, [RA])
    case AluR(op, _, _, _) => Encoding((0x20 + AluCode(op)) * OP, [RA, RB, RC])
    case AluI(op, _, _, _) => Encoding((0x30 + AluCode(op)) * OP, [RA, RB, IM])
    case CmpR(_, _) => Encoding(0x2A * OP + 0xF0_0000, [RB, RC])
    case CmpI(_, _) => Encoding(0x3A * OP + 0xF0_0000, [RB, IM])
    case JmpR(_) => Encoding(0x48 * OP + 0xF_0000, [RC])
    case JmpI(_) => Encoding(0x58 * OP + 0xF_0000, [IM])
    case Jcc(cc, _) => Encoding(CondCode(cc) * OP + 0xF_0000, [IM])
    case LoadR(w, _, _) => Encoding((0x60 + WidthCode(w)) * OP, [RA, RC])
    case StoreR(w, _, _) => Encoding((0x64 + WidthCode(w)) * OP, [RC, RB])
    case LoadI(w, _, _) => Encoding((0x70 + WidthCode(w)) * OP, [RA, IM])
    case StoreI(w, _, _) => Encoding((0x74 + WidthCode(w)) * OP, [IM, RB])
  }

  function Operands(i: Insn): seq<Word> {
    match i
    case Nop => []
    case In(a) => [a]
    case Out(c) => [c]
    case OutI(n) => [n]
    case Keyboard(a) => [a]
    case Screen(b, c) => [b, c]
    case ScreenI(b, n) => [b, n]
    case Time0(a) => [a]
    case Time1(a) => [a]
    case Counter(a) => [a]
    case AluR(_, a, b, c) => [a, b, c]
    case AluI(_, a, b, n) => [a, b, n]
    case CmpR(b, c) => [b, c]
    case CmpI(b, n) => [b, n]
    case JmpR(c) => [c]
    case JmpI(n) => [n]
    case Jcc(_, n) => [n]
    case LoadR(_, a, c) => [a, c]
    case StoreR(_, c, b) => [c, b]
    case LoadI(_, a, n) => [a, n]
    case StoreI(_, n, b) => [n, b]
  }

  // isa_encode's inner loop: or every operand into the fixed bits.
  function OrFields(word: Word, fields: seq<Field>, vals: seq<Word>): Word
    requires |fields| == |vals|
    decreases |fields|
  {
    if |fields| == 0 then word
    else OrFields(BitOp(Or, word, Lsl(vals[0], fields[0].pos)), fields[1..], vals[1..])
  }

  lemma OperandCount(i: Insn)
    ensures |TableRow(i).fields| == |Operands(i)|
  {
  }

  function Encode(i: Insn): Word {
    OperandCount(i);
    OrFields(TableRow(i).bits, TableRow(i).fields, Operands(i))
  }

  function WordBytes(w: Word): (s: seq<Byte>)
    ensures |s| == 4
  {
    [ByteAt(w, 0), ByteAt(w, 1), ByteAt(w, 2), ByteAt(w, 3)]
  }

  // isa_encode for one word of the table: the loop that ors in the operands.
  method IsaEncode(row: Encoding, vals: seq<Word>) returns (out: seq<Byte>)
    requires |row.fields| == |vals|
    ensures out == WordBytes(OrFields(row.bits, row.fields, vals))
  {
    var word := row.bits;
    var o := 0;
    while o < |row.fields|
      invariant 0 <= o <= |row.fields|
      invariant OrFields(word, row.fields[o..], vals[o..]) == OrFields(row.bits, row.fields, vals)
    {
      assert row.fields[o..][1..] == row.fields[o + 1..] && vals[o..][1..] == vals[o + 1..];
      word := BitOp(Or, word, Lsl(vals[o], row.fields[o].pos));
      o := o + 1;
    }
    out := WordBytes(word);
  }

  // ---- the emulator's view of a word ----

  function Top(w: Word): nat { w / OP }
  function FA(w: Word): Reg { (w / 0x10_0000) % 16 }
  function FB(w: Word): Reg { (w / 0x1_0000) % 16 }
  function FC(w: Word): Reg { (w / 0x100) % 16 }
  function FI(w: Word): Imm { w % 0x1_0000 }

  function AluOf(k: nat): Option<AluOp> {
    match k
    case 0 => Some(ANand) case 1 => Some(AOr) case 2 => Some(AAnd) case 3 => Some(ANor)
    case 4 => Some(AAdd) case 5 => Some(ASub) case 6 => Some(AXor) case 7 => Some(ALsl)
    case 8 => Some(ALsr) case 9 => Some(AAsr) case 11 => Some(AMul) case 12 => Some(ADiv)
    case 13 => Some(AMod)
    case _ => None
  }

  function CondOf(k: nat): Option<Cond> {
    match k
    case 0x51 => Some(Je) case 0x59 => Some(Jne) case 0x52 => Some(Jb) case 0x5A => Some(Jae)
    case 0x53 => Some(Jbe) case 0x5B => Some(Ja) case 0x54 => Some(Jl) case 0x5C => Some(Jge)
    case 0x55 => Some(Jle) case 0x5D => Some(Jg)
    case _ => None
  }

  function WidthOf(k: nat): Width {
    if k == 0 then B8 else if k == 1 then B16 else if k == 2 then B32 else Disk
  }


  // The dispatch on the top byte; None is the "unknown opcode" fault.
  function Decode(w: Word): Option<Insn> {
    var k := Top(w);
    if k == 0x00 then Some(Nop)
    else if k == 0x01 then Some(In(FA(w)))
    else if k == 0x02 then Some(Out(FC(w)))
    else if k == 0x03 then Some(Keyboard(FA(w)))
    else if k == 0x04 then Some(Screen(FB(w), FC(w)))
    else if k == 0x05 then Some(Time0(FA(w)))
    else if k == 0x06 then Some(Time1(FA(w)))
    else if k == 0x07 then Some(Counter(FA(w)))
    else if k == 0x10 then Some(OutI(FI(w)))
    else if k == 0x14 then Some(ScreenI(FB(w), FI(w)))
    else if k == 0x2A then Some(CmpR(FB(w), FC(w)))
    else if k == 0x3A then Some(CmpI(FB(w), FI(w)))
    else if 0x20 <= k < 0x30 then
      (match AluOf(k - 0x20) case None => None case Some(op) => Some(AluR(op, FA(w), FB(w), FC(w))))
    else if 0x30 <= k < 0x40 then
      (match AluOf(k - 0x30) case None => None case Some(op) => Some(AluI(op, FA(w), FB(w), FI(w))))
    else if k == 0x48 then Some(JmpR(FC(w)))
    else if k == 0x58 then Some(JmpI(FI(w)))
    else if 0x50 <= k < 0x60 then
      (match CondOf(k) case None => None case Some(cc) => Some(Jcc(cc, FI(w))))
    else if 0x60 <= k < 0x64 then Some(LoadR(WidthOf(k - 0x60), FA(w), FC(w)))
    else if 0x64 <= k < 0x68 then Some(StoreR(WidthOf(k - 0x64), FC(w), FB(w)))
    else if 0x70 <= k < 0x74 then Some(LoadI(WidthOf(k - 0x70), FA(w), FI(w)))
    else if 0x74 <= k < 0x78 then Some(StoreI(WidthOf(k - 0x74), FI(w), FB(w)))
    else None
  }

  // ---- encoding and decoding agree ----

  // Or-ing a field into a gap of zero bits adds it; gap and above name the
  // weights of the field's lowest bit and of the first bit above it.
  lemma {:induction false} BitsOrInsert(h: nat, v: nat, l: nat, p: nat, len: nat, n: nat, gap: nat, above: nat)
    requires p + len <= n && gap == Pow2(p) && above == Pow2(p + len)
    requires l < gap && v < Pow2(len) && h < Pow2(n - p - len)
    ensures Bits(Or, h * above + l, v * gap, n) == h * above + v * gap + l
    decreases p
  {
    if p == 0 {
      BitsOrDisjoint(h, v, len, n);
    } else {
      var gap', above' := Pow2(p - 1), Pow2(p + len - 1);
      var x, y := h * above + l, v * gap;
      MulAssoc(h, above', 2);
      MulAssoc(v, gap', 2);
      Halves(h * above', l, v * gap', x, y);
      BitsOrInsert(h, v, l / 2, p - 1, len, n - 1, gap', above');
    }
  }

  lemma Halves(s: nat, l: nat, t: nat, x: nat, y: nat)
    requires x == 2 * s + l && y == 2 * t
    ensures x % 2 == l % 2 && x / 2 == s + l / 2 && y % 2 == 0 && y / 2 == t
  {
  }

  lemma OrInsert(h: nat, v: Word, l: nat, p: nat, len: nat, gap: nat, above: nat)
    requires p + len <= 32 && p < 32 && gap == Pow2(p) && above == Pow2(p + len)
    requires l < gap && v < Pow2(len) && h < Pow2(32 - p - len)
    ensures h * above + l < W
    ensures BitOp(Or, h * above + l, Lsl(v, p)) == h * above + v * gap + l
  {
    hide Words.Pow2, Words.Bits, Words.Lsl;
    Pow2Values();
    Pow2Add(p, len);
    Pow2Add(32 - p - len, p + len);
    var top, size := Pow2(32 - p - len), Pow2(len);
    Bound(h, top, above, v, size, gap, l);
    assert v * gap < W;
    LslIsMul(v, p, gap);
    BitsOrInsert(h, v, l, p, len, 32, gap, above);
  }

  lemma Bound(h: nat, top: nat, above: nat, v: nat, size: nat, gap: nat, l: nat)
    requires h < top && v < size && l < gap && above == gap * size && top * above == W
    ensures h * above + v * gap + l < W
    ensures v * gap < W && h * above + l < W
  {
    MulLe(v, size - 1, gap);
    MulDistr(size, 1, gap);
    MulLe(h, top - 1, above);
    MulDistr(top, 1, above);
  }

  lemma LslIsMul(v: Word, p: nat, gap: nat)
    requires p < 32 && gap == Pow2(p) && v * gap < W
    ensures Lsl(v, p) == v * gap
  {
    assert p % 32 == p;
    MulLe(0, v, gap);
  }

  // The same for a register field at bit 20, 16 or 8 and the immediate field
  // of a word w whose field is still zero.
  lemma OrReg20(w: Word, v: Reg, h: nat, l: nat)
    requires w == h * OP + l && l < 0x10_0000
    ensures BitOp(Or, w, Lsl(v, 20)) == w + v * 0x10_0000
  {
    hide Words.BitOp, Words.Lsl, Words.Pow2;
    Pow2Small();
    OrInsert(h, v, l, 20, 4, 0x10_0000, OP);
  }

  lemma OrReg16(w: Word, v: Reg, h: nat, l: nat)
    requires w == h * 0x10_0000 + l && l < 0x1_0000
    ensures BitOp(Or, w, Lsl(v, 16)) == w + v * 0x1_0000
  {
    hide Words.BitOp, Words.Lsl, Words.Pow2;
    Pow2Small();
    OrInsert(h, v, l, 16, 4, 0x1_0000, 0x10_0000);
  }

  lemma OrReg8(w: Word, v: Reg, h: nat)
    requires w == h * 0x1000
    ensures BitOp(Or, w, Lsl(v, 8)) == w + v * 0x100
  {
    hide Words.BitOp, Words.Lsl, Words.Pow2;
    Pow2Small();
    OrInsert(h, v, 0, 8, 4, 0x100, 0x1000);
  }

  lemma OrImm(w: Word, v: Imm, h: nat)
    requires w == h * 0x1_0000
    ensures BitOp(Or, w, Lsl(v, 0)) == w + v
  {
    hide Words.BitOp, Words.Lsl, Words.Pow2;
    Pow2Small();
    OrInsert(h, v, 0, 0, 16, 1, 0x1_0000);
  }

  lemma Pow2Small()
    ensures Pow2(0) == 1 && Pow2(4) == 16 && Pow2(8) == 0x100 && Pow2(12) == 0x1000 && Pow2(16) == 0x1_0000
    ensures Pow2(20) == 0x10_0000 && Pow2(24) == OP && Pow2(32) == W
  {
    Pow2Values();
    assert Pow2(4) == 16;
    assert Pow2(12) == 16 * Pow2(8);
    assert Pow2(20) == 16 * Pow2(16);
  }

  lemma Or0(w: Word, vals: seq<Word>)
    requires |vals| == 0
    ensures OrFields(w, [], vals) == w
  {
  }

  lemma Or1(w: Word, f: Field, v: Word)
    ensures OrFields(w, [f], [v]) == BitOp(Or, w, Lsl(v, f.pos))
  {
    assert [f][1..] == [] && [v][1..] == [];
  }

  lemma Or2(w: Word, f: Field, g: Field, v: Word, u: Word)
    ensures OrFields(w, [f, g], [v, u]) == BitOp(Or, BitOp(Or, w, Lsl(v, f.pos)), Lsl(u, g.pos))
  {
    assert [f, g][1..] == [g] && [v, u][1..] == [u];
    Or1(BitOp(Or, w, Lsl(v, f.pos)), g, u);
  }

  lemma Or3(w: Word, f: Field, g: Field, e: Field, v: Word, u: Word, t: Word)
    ensures OrFields(w, [f, g, e], [v, u, t])
         == BitOp(Or, BitOp(Or, BitOp(Or, w, Lsl(v, f.pos)), Lsl(u, g.pos)), Lsl(t, e.pos))
  {
    assert [f, g, e][1..] == [g, e] && [v, u, t][1..] == [u, t];
    Or2(BitOp(Or, w, Lsl(v, f.pos)), g, e, u, t);
  }

  // A word assembled from its fields: `mid` is whatever fixed bits the row has
  // at 20 and 16, or the register operands placed there.
  function Pack(k: nat, a: nat, b: nat, low: nat): nat {
    k * OP + a * 0x10_0000 + b * 0x1_0000 + low
  }

  // What every row of the table encodes to, given operands in range.
  function Packed(i: Insn): nat {
    match i
    case Nop => 0
    case In(a) => Pack(0x01, a, 0, 0)
    case Out(c) => Pack(0x02, 0, 0, c * 256)
    case OutI(n) => Pack(0x12, 0, 0, n)
    case Keyboard(a) => Pack(0x03, a, 0, 0)
    case Screen(b, c) => Pack(0x04, 0, b, c * 256)
    case ScreenI(b, n) => Pack(0x14, 0, b, n)
    case Time0(a) => Pack(0x05, a, 0, 0)
    case Time1(a) => Pack(0x06, a, 0, 0)
    case Counter(a) => Pack(0x07, a, 0, 0)
    case AluR(op, a, b, c) => Pack(0x20 + AluCode(op), a, b, c * 256)
    case AluI(op, a, b, n) => Pack(0x30 + AluCode(op), a, b, n)
    case CmpR(b, c) => Pack(0x2A, 15, b, c * 256)
    case CmpI(b, n) => Pack(0x3A, 15, b, n)
    case JmpR(c) => Pack(0x48, 0, 15, c * 256)
    case JmpI(n) => Pack(0x58, 0, 15, n)
    case Jcc(cc, n) => Pack(CondCode(cc), 0, 15, n)
    case LoadR(w, a, c) => Pack(0x60 + WidthCode(w), a, 0, c * 256)
    case StoreR(w, c, b) => Pack(0x64 + WidthCode(w), 0, b, c * 256)
    case LoadI(w, a, n) => Pack(0x70 + WidthCode(w), a, 0, n)
    case StoreI(w, n, b) => Pack(0x74 + WidthCode(w), 0, b, n)
  }

  lemma EncodeA(k: nat, a: Reg)
    requires k < 256
    ensures OrFields(k * OP, [RA], [a]) == Pack(k, a, 0, 0)
  {
    hide Words.BitOp, Words.Lsl;
    Or1(k * OP, RA, a);
    OrReg20(k * OP, a, k, 0);
  }

  lemma EncodeC(k: nat, b: Reg, w: Word, c: Reg)
    requires k < 256 && w == k * OP + b * 0x1_0000
    ensures OrFields(w, [RC], [c]) == Pack(k, 0, b, c * 256)
  {
    hide Words.BitOp, Words.Lsl;
    Or1(w, RC, c);
    OrReg8(w, c, (k * 256 + b) * 16);
  }

  lemma EncodeI(k: nat, b: Reg, w: Word, n: Imm)
    requires k < 256 && w == k * OP + b * 0x1_0000
    ensures OrFields(w, [IM], [n]) == Pack(k, 0, b, n)
  {
    hide Words.BitOp, Words.Lsl;
    Or1(w, IM, n);
    OrImm(w, n, k * 256 + b);
  }

  lemma EncodeBC(k: nat, a: Reg, w: Word, b: Reg, c: Reg)
    requires k < 256 && w == k * OP + a * 0x10_0000
    ensures OrFields(w, [RB, RC], [b, c]) == Pack(k, a, b, c * 256)
  {
    hide Words.BitOp, Words.Lsl;
    Or2(w, RB, RC, b, c);
    OrReg16(w, b, k * 16 + a, 0);
    OrReg8(w + b * 0x1_0000, c, (k * 256 + a * 16 + b) * 16);
  }

  lemma EncodeBI(k: nat, a: Reg, w: Word, b: Reg, n: Imm)
    requires k < 256 && w == k * OP + a * 0x10_0000
    ensures OrFields(w, [RB, IM], [b, n]) == Pack(k, a, b, n)
  {
    hide Words.BitOp, Words.Lsl;
    Or2(w, RB, IM, b, n);
    OrReg16(w, b, k * 16 + a, 0);
    OrImm(w + b * 0x1_0000, n, k * 256 + a * 16 + b);
  }

  lemma EncodeAC(k: nat, w: Word, a: Reg, c: Reg)
    requires k < 256 && w == k * OP
    ensures OrFields(w, [RA, RC], [a, c]) == Pack(k, a, 0, c * 256)
  {
    hide Words.BitOp, Words.Lsl;
    Or2(w, RA, RC, a, c);
    OrReg20(w, a, k, 0);
    OrReg8(w + a * 0x10_0000, c, (k * 256 + a * 16) * 16);
  }

  lemma EncodeAI(k: nat, w: Word, a: Reg, n: Imm)
    requires k < 256 && w == k * OP
    ensures OrFields(w, [RA, IM], [a, n]) == Pack(k, a, 0, n)
  {
    hide Words.BitOp, Words.Lsl;
    Or2(w, RA, IM, a, n);
    OrReg20(w, a, k, 0);
    OrImm(w + a * 0x10_0000, n, k * 256 + a * 16);
  }

  lemma EncodeCB(k: nat, w: Word, c: Reg, b: Reg)
    requires k < 256 && w == k * OP
    ensures OrFields(w, [RC, RB], [c, b]) == Pack(k, 0, b, c * 256)
  {
    hide Words.BitOp, Words.Lsl;
    Or2(w, RC, RB, c, b);
    OrReg8(w, c, k * 0x1000);
    OrReg16(w + c * 0x100, b, k * 16, c * 256);
  }

  lemma EncodeIB(k: nat, w: Word, n: Imm, b: Reg)
    requires k < 256 && w == k * OP
    ensures OrFields(w, [IM, RB], [n, b]) == Pack(k, 0, b, n)
  {
    hide Words.BitOp, Words.Lsl;
    Or2(w, IM, RB, n, b);
    OrImm(w, n, k * 256);
    OrReg16(w + n, b, k * 16, n);
  }

  lemma EncodeABC(k: nat, w: Word, a: Reg, b: Reg, c: Reg)
    requires k < 256 && w == k * OP
    ensures OrFields(w, [RA, RB, RC], [a, b, c]) == Pack(k, a, b, c * 256)
  {
    hide Words.BitOp, Words.Lsl;
    Or3(w, RA, RB, RC, a, b, c);
    OrReg20(w, a, k, 0);
    var w1: Word := w + a * 0x10_0000;
    OrReg16(w1, b, k * 16 + a, 0);
    OrReg8(w1 + b * 0x1_0000, c, (k * 256 + a * 16 + b) * 16);
  }

  lemma EncodeABI(k: nat, w: Word, a: Reg, b: Reg, n: Imm)
    requires k < 256 && w == k * OP
    ensures OrFields(w, [RA, RB, IM], [a, b, n]) == Pack(k, a, b, n)
  {
    hide Words.BitOp, Words.Lsl;
    Or3(w, RA, RB, IM, a, b, n);
    OrReg20(w, a, k, 0);
    var w1: Word := w + a * 0x10_0000;
    OrReg16(w1, b, k * 16 + a, 0);
    OrImm(w1 + b * 0x1_0000, n, k * 256 + a * 16 + b);
  }

  lemma EncodeIsPacked(i: Insn)
    ensures Encode(i) == Packed(i)
  {
    hide Pack, Words.BitOp, Words.Lsl, OrFields;
    var w := TableRow(i).bits;
    match i
    case Nop => Or0(0, []);
    case In(a) => EncodeA(0x01, a);
    case Out(c) => EncodeC(0x02, 0, w, c);
    case OutI(n) => EncodeI(0x12, 0, w, n);
    case Keyboard(a) => EncodeA(0x03, a);
    case Screen(b, c) => EncodeBC(0x04, 0, w, b, c);
    case ScreenI(b, n) => EncodeBI(0x14, 0, w, b, n);
    case Time0(a) => EncodeA(0x05, a);
    case Time1(a) => EncodeA(0x06, a);
    case Counter(a) => EncodeA(0x07, a);
    case AluR(op, a, b, c) => EncodeABC(0x20 + AluCode(op), w, a, b, c);
    case AluI(op, a, b, n) => EncodeABI(0x30 + AluCode(op), w, a, b, n);
    case CmpR(b, c) => EncodeBC(0x2A, 15, w, b, c);
    case CmpI(b, n) => EncodeBI(0x3A, 15, w, b, n);
    case JmpR(c) => EncodeC(0x48, 15, w, c);
    case JmpI(n) => EncodeI(0x58, 15, w, n);
    case Jcc(cc, n) => EncodeI(CondCode(cc), 15, w, n);
    case LoadR(d, a, c) => EncodeAC(0x60 + WidthCode(d), w, a, c);
    case StoreR(d, c, b) => EncodeCB(0x64 + WidthCode(d), w, c, b);
    case LoadI(d, a, n) => EncodeAI(0x70 + WidthCode(d), w, a, n);
    case StoreI(d, n, b) => EncodeIB(0x74 + WidthCode(d), w, n, b);
  }

  lemma FieldsOfPack(k: nat, a: Reg, b: Reg, low: nat)
    requires k < 256 && low < 0x1_0000
    ensures Pack(k, a, b, low) < W
    ensures var w := Pack(k, a, b, low);
            Top(w) == k && FA(w) == a && FB(w) == b && FI(w) == low && FC(w) == (low / 256) % 16
  {
    var w: Word := Pack(k, a, b, low);
    DivModUnique(w, OP, k, a * 0x10_0000 + b * 0x1_0000 + low);
    DivModUnique(w, 0x10_0000, k * 16 + a, b * 0x1_0000 + low);
    DivModUnique(w, 0x1_0000, k * 256 + a * 16 + b, low);
    var low' := low / 256;
    DivModUnique(w, 0x100, (k * 256 + a * 16 + b) * 256 + low', low % 256);
    DivModUnique(k * 16 + a, 16, k, a);
    DivModUnique(k * 256 + a * 16 + b, 16, k * 16 + a, b);
    DivModUnique(low', 16, low' / 16, low' % 16);
    DivModUnique((k * 256 + a * 16 + b) * 256 + low', 16, (k * 256 + a * 16 + b) * 16 + low' / 16, low' % 16);
  }

  lemma FieldsOfRegs(k: nat, a: Reg, b: Reg, c: Reg)
    requires k < 256
    ensures Pack(k, a, b, c * 256) < W
    ensures var w := Pack(k, a, b, c * 256);
            Top(w) == k && FA(w) == a && FB(w) == b && FC(w) == c
  {
    FieldsOfPack(k, a, b, c * 256);
    assert (c * 256 / 256) % 16 == c;
  }

  // The decoder undoes the encoder on every instruction but `out` with an
  // immediate: the table writes that one under 0x12 and the emulator reads it
  // under 0x10.
  lemma DecodeUndoesEncode(i: Insn)
    ensures Decode(Encode(i)) == Some(i) <==> !i.OutI?
  {
    hide Encode, Pack, Top, FA, FB, FC, FI;
    EncodeIsPacked(i);
    match i
    case Nop => FieldsOfPack(0, 0, 0, 0); assert Packed(i) == Pack(0, 0, 0, 0) by { PackZero(); }
    case In(a) => FieldsOfPack(0x01, a, 0, 0);
    case Out(c) => FieldsOfRegs(0x02, 0, 0, c);
    case OutI(n) => FieldsOfPack(0x12, 0, 0, n);
    case Keyboard(a) => FieldsOfPack(0x03, a, 0, 0);
    case Screen(b, c) => FieldsOfRegs(0x04, 0, b, c);
    case ScreenI(b, n) => FieldsOfPack(0x14, 0, b, n);
    case Time0(a) => FieldsOfPack(0x05, a, 0, 0);
    case Time1(a) => FieldsOfPack(0x06, a, 0, 0);
    case Counter(a) => FieldsOfPack(0x07, a, 0, 0);
    case AluR(op, a, b, c) => FieldsOfRegs(0x20 + AluCode(op), a, b, c);
    case AluI(op, a, b, n) => FieldsOfPack(0x30 + AluCode(op), a, b, n);
    case CmpR(b, c) => FieldsOfRegs(0x2A, 15, b, c);
    case CmpI(b, n) => FieldsOfPack(0x3A, 15, b, n);
    case JmpR(c) => FieldsOfRegs(0x48, 0, 15, c);
    case JmpI(n) => FieldsOfPack(0x58, 0, 15, n);
    case Jcc(cc, n) => FieldsOfPack(CondCode(cc), 0, 15, n);
    case LoadR(w, a, c) => FieldsOfRegs(0x60 + WidthCode(w), a, 0, c);
    case StoreR(w, c, b) => FieldsOfRegs(0x64 + WidthCode(w), 0, b, c);
    case LoadI(w, a, n) => FieldsOfPack(0x70 + WidthCode(w), a, 0, n);
    case StoreI(w, n, b) => FieldsOfPack(0x74 + WidthCode(w), 0, b, n);
  }

  lemma PackZero()
    ensures Pack(0, 0, 0, 0) == 0
  {
  }
}
