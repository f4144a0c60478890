// How the short sequences the code generator emits behave on the line machine:
// constants, addresses, loads, stores, pushes, comparisons and jumps.
module Gadgets {
  import opened Words
  import opened Isa
  import opened Emu
  import opened Asm
  import opened Link
  import opened Machine
  import opened Minic
  import opened Codegen

  // Where a function's code starts and the label counter it was generated with.
  datatype Place = Place(k: nat, c: nat)

  // A linked program together with the C program it was compiled from.
  datatype World = World(p: Prog, near: map<nat, set<string>>, place: seq<Place>, env: Env) {
    function Near(): set<string> {
      if env.unit in near then near[env.unit] else {}
    }
  }

  // The rows from k on are this code, in this unit.
  ghost predicate CodeAt(p: Prog, unit: nat, k: nat, code: seq<Line>) {
    k + |code| <= |p.rows| && forall i | 0 <= i < |code| :: p.rows[k + i] == Row(unit, code[i])
  }

  lemma CodeSplit(p: Prog, unit: nat, k: nat, a: seq<Line>, b: seq<Line>)
    requires CodeAt(p, unit, k, a + b)
    ensures CodeAt(p, unit, k, a) && CodeAt(p, unit, k + |a|, b)
  {
    forall i | 0 <= i < |a| ensures p.rows[k + i] == Row(unit, a[i]) {
      assert (a + b)[i] == a[i];
    }
    forall i | 0 <= i < |b| ensures p.rows[k + |a| + i] == Row(unit, b[i]) {
      assert (a + b)[|a| + i] == b[i];
      assert p.rows[k + (|a| + i)] == Row(unit, (a + b)[|a| + i]);
    }
  }

  predicate OffCode(p: Prog, a: int) {
    p.host.floor <= a && !(p.gate <= a < p.gate + 4) && !(p.base <= a < p.End())
  }

  // A label names its own line in every row of its unit.
  ghost predicate LabelsOk(p: Prog) {
    forall i, k | 0 <= i < |p.rows| && 0 <= k < |p.rows| ::
      p.rows[i].line.Label? && !p.rows[i].line.sym.Number? && p.rows[i].owner == p.rows[k].owner ==>
        p.Val(k, p.rows[i].line.sym) == Some(p.Addr(i))
  }

  ghost predicate LinesOk(p: Prog) {
    forall k | 0 <= k < |p.rows| ::
      && Emit(p.rows[k], p.syms, p.poll, p.gate).Some?
      && (LineSize(p.rows[k].line, p.poll) == 0 ==> p.rows[k].line.Label? || p.rows[k].line.Note?)
  }

  ghost predicate FuncsOk(w: World) {
    && |w.place| == |w.env.funcs|
    && (forall f | f in w.env.funcs :: CompilesStmts(f.body, false, false))
    && (forall i | 0 <= i < |w.place| ::
          CodeAt(w.p, w.env.funcs[i].unit, w.place[i].k,
                 FuncCode(w.(env := w.env.(unit := w.env.funcs[i].unit)).Near(), w.env.funcs[i], w.place[i].c).code))
    && (forall d, k | d in w.env.defs && 0 <= k < |w.p.rows| && w.p.rows[k].owner == d.0 && w.env.defs[d] < |w.place| ::
          w.place[w.env.defs[d]].k <= |w.p.rows| &&
          w.p.Val(k, Name(d.1)) == Some(w.p.Addr(w.place[w.env.defs[d]].k)))
  }

  ghost predicate SymsOk(w: World) {
    forall d, k | d in w.env.syms && 0 <= k < |w.p.rows| && w.p.rows[k].owner == d.0 ::
      w.p.Val(k, d.1) == Some(w.env.syms[d])
  }

  // The linked program carries the compiled functions, names resolve as the C
  // program expects, and __sp_poll does what a safe point takes it to do.
  ghost predicate Ok(w: World) {
    && w.p.Valid() && w.p.base < w.p.End()
    && LinesOk(w.p) && LabelsOk(w.p) && FuncsOk(w) && SymsOk(w)
    && w.p.host.floor <= w.env.lo && w.env.meaning.Emitted? && Served(w.p)
  }

  // The machine state stands for the C state: memory agrees wherever the
  // program may look, and the free stack [lo, p) is nobody's.
  ghost predicate Agrees(w: World, m: Mem, p: int, mem: seq<Byte>) {
    && |mem| <= W && w.env.lo <= p <= |mem|
    && (forall a | a in m :: 0 <= a < |mem| && OffCode(w.p, a) && !(w.env.lo <= a < p))
    && (forall a | a in m && m[a].Known? :: mem[a] == m[a].b)
    && (forall a | w.env.lo <= a < p :: OffCode(w.p, a))
  }

  ghost predicate Inv(w: World, m: Mem, p: int, s: Mach) {
    && s.cpu.Valid() && s.k <= |w.p.rows| && s.cpu.pc == w.p.Addr(s.k)
    && s.cpu.regs[R10] == w.env.fb && s.cpu.regs[SP] == p
    && Agrees(w, m, p, s.cpu.mem)
  }

  // Above the system, memory that is neither the program's nor free stack is
  // untouched.
  ghost predicate Keeps(w: World, m: Mem, p: int, mem: seq<Byte>, mem': seq<Byte>) {
    |mem'| == |mem| && forall a | w.p.host.floor <= a < |mem| && a !in m && !(w.env.lo <= a < p) :: mem'[a] == mem[a]
  }

  // In n lines the machine gets from s to line k, the C memory from m to m'.
  ghost predicate Arrived(w: World, m: Mem, m': Mem, p: int, s: Mach, n: nat, t: Mach, k: int) {
    && w.p.Valid() && s.cpu.Valid()
    && LineRun(w.p, s, n) == Some(t) && t.k == k
    && Inv(w, m', p, t) && m'.Keys == m.Keys
    && Keeps(w, m, p, s.cpu.mem, t.cpu.mem)
  }

  lemma Stay(w: World, m: Mem, p: int, s: Mach)
    requires w.p.Valid() && Inv(w, m, p, s)
    ensures Arrived(w, m, m, p, s, 0, s, s.k)
  {
  }

  lemma Then(w: World, m: Mem, m1: Mem, m2: Mem, p: int, s: Mach, n1: nat, t1: Mach, k1: nat, n2: nat, t2: Mach, k2: nat)
    requires w.p.Valid() && s.cpu.Valid() && t1.cpu.Valid()
    requires Arrived(w, m, m1, p, s, n1, t1, k1) && Arrived(w, m1, m2, p, t1, n2, t2, k2)
    ensures Arrived(w, m, m2, p, s, n1 + n2, t2, k2)
  {
    hide LineStep, Inv;
    LineRunAdd(w.p, s, n1, n2);
  }

  // ---- one register instruction ----

  // Instructions that change a register other than the stack pointer and the
  // frame base, or the compared pair.
  predicate RegInsn(i: Insn) {
    match i
    case AluR(_, a, _, _) => a != SP && a != R10
    case AluI(_, a, _, _) => a != SP && a != R10
    case CmpR(_, _) => true
    case LoadR(w, a, _) => a != SP && a != R10 && !w.Disk?
    case _ => false
  }

  // The single instruction a line stands for.
  function InsnOf(p: Prog, k: nat): Option<Insn>
    requires k < |p.rows|
  {
    match p.rows[k].line
    case Op(i) => if Straight(i) then Some(i) else None
    case OpI(op, a, b, n) => if n < 0x1_0000 then Some(AluI(op, a, b, n)) else None
    case OpSym(op, a, b, half, y) =>
      (match p.Val(k, y)
       case None => None
       case Some(v) => match HalfOf(half, v) case None => None case Some(n) => Some(AluI(op, a, b, n)))
    case _ => None
  }

  lemma InsnSize(p: Prog, k: nat)
    requires k < |p.rows| && InsnOf(p, k).Some?
    ensures LineSize(p.rows[k].line, p.poll) == 4
  {
  }

  lemma OneInsn(p: Prog, s: Mach, i: Insn)
    requires p.Valid() && s.cpu.Valid() && s.k < |p.rows| && InsnOf(p, s.k) == Some(i)
    requires StoreOk(p, i, s.cpu) && Exec(i, s.cpu).Next?
    ensures LineRun(p, s, 1) == Some(Mach(s.k + 1, Exec(i, s.cpu).s))
  {
    hide Exec, StoreOk;
    OpStraight(p, s.k);
    ExecOne(p, i, s.cpu, Exec(i, s.cpu).s);
    assert LineStep(p, s) == Some(Mach(s.k + 1, Exec(i, s.cpu).s));
    assert LineRun(p, LineStep(p, s).value, 0) == LineStep(p, s);
  }

  lemma OpStraight(p: Prog, k: nat)
    requires k < |p.rows| && InsnOf(p, k).Some?
    ensures Straight(InsnOf(p, k).value)
  {
  }

  lemma RegEffect(i: Insn, s: Cpu)
    requires s.Valid() && RegInsn(i) && Exec(i, s).Next?
    ensures var t := Exec(i, s).s;
            t.mem == s.mem && t.pc == s.pc + 4 && t.regs[R10] == s.regs[R10] && t.regs[SP] == s.regs[SP]
  {
    hide Alu, Read;
  }

  lemma RegStep(w: World, m: Mem, p: int, s: Mach, i: Insn) returns (t: Mach)
    requires w.p.Valid() && Inv(w, m, p, s) && s.k < |w.p.rows| && InsnOf(w.p, s.k) == Some(i)
    requires RegInsn(i) && Exec(i, s.cpu).Next?
    ensures t == Mach(s.k + 1, Exec(i, s.cpu).s)
    ensures Arrived(w, m, m, p, s, 1, t, s.k + 1)
  {
    hide Exec, InsnOf, LineRun, Agrees;
    t := Mach(s.k + 1, Exec(i, s.cpu).s);
    assert StoreOk(w.p, i, s.cpu);
    OneInsn(w.p, s, i);
    RegEffect(i, s.cpu);
    InsnSize(w.p, s.k);
    AddrNext(w.p, s.k);
  }

  // ---- stepping through emitted lines ----

  // The lines still to run, from the machine's position on.
  ghost predicate Ahead(w: World, s: Mach, code: seq<Line>) {
    CodeAt(w.p, w.env.unit, s.k, code)
  }

  lemma Head(w: World, s: Mach, code: seq<Line>)
    requires Ahead(w, s, code) && |code| > 0
    ensures s.k < |w.p.rows| && w.p.rows[s.k] == Row(w.env.unit, code[0])
    ensures forall t: Mach | t.k == s.k + 1 :: Ahead(w, t, code[1..])
  {
    assert w.p.rows[s.k + 0] == Row(w.env.unit, code[0]);
    assert code == [code[0]] + code[1..];
    CodeSplit(w.p, w.env.unit, s.k, [code[0]], code[1..]);
  }

  // What a step of the machine over one line gives.
  ghost predicate Stepped(w: World, m: Mem, p: int, s: Mach, t: Mach, code: seq<Line>) {
    |code| > 0 && Arrived(w, m, m, p, s, 1, t, s.k + 1) && Inv(w, m, p, t) && t.k == s.k + 1 && Ahead(w, t, code[1..])
  }

  lemma AluIStep(w: World, m: Mem, p: int, s: Mach, code: seq<Line>, op: AluOp, a: Reg, b: Reg, n: nat) returns (t: Mach)
    requires Ok(w) && Inv(w, m, p, s) && Ahead(w, s, code) && |code| > 0 && code[0] == OpI(op, a, b, n)
    requires a != SP && a != R10 && a != ZR
    ensures Stepped(w, m, p, s, t, code) && n < W
    ensures t.cpu.regs == s.cpu.regs[a := Alu(op, s.cpu.regs[b], n)]
  {
    hide Alu, Arrived, Agrees, LabelsOk, FuncsOk, SymsOk, Ahead;
    Head(w, s, code);
    assert Emit(w.p.rows[s.k], w.p.syms, w.p.poll, w.p.gate).Some?;
    t := RegStep(w, m, p, s, AluI(op, a, b, n));
    ArrivedInv(w, m, m, p, s, 1, t, s.k + 1);
  }

  lemma AluRStep(w: World, m: Mem, p: int, s: Mach, code: seq<Line>, op: AluOp, a: Reg, b: Reg, c: Reg) returns (t: Mach)
    requires Ok(w) && Inv(w, m, p, s) && Ahead(w, s, code) && |code| > 0 && code[0] == Op(AluR(op, a, b, c))
    requires a != SP && a != R10 && a != ZR
    ensures Stepped(w, m, p, s, t, code)
    ensures t.cpu.regs == s.cpu.regs[a := Alu(op, s.cpu.regs[b], s.cpu.regs[c])]
  {
    hide Alu, Arrived, Agrees, LinesOk, LabelsOk, FuncsOk, SymsOk, Ahead;
    Head(w, s, code);
    t := RegStep(w, m, p, s, AluR(op, a, b, c));
    ArrivedInv(w, m, m, p, s, 1, t, s.k + 1);
  }

  lemma CmpStep(w: World, m: Mem, p: int, s: Mach, code: seq<Line>) returns (t: Mach)
    requires Ok(w) && Inv(w, m, p, s) && Ahead(w, s, code) && |code| > 0 && code[0] == Op(CmpR(R1, R2))
    ensures Stepped(w, m, p, s, t, code)
    ensures t.cpu.regs == s.cpu.regs && t.cpu.la == s.cpu.regs[R1] && t.cpu.lb == s.cpu.regs[R2]
  {
    hide Arrived, Agrees, LinesOk, LabelsOk, FuncsOk, SymsOk, Ahead;
    Head(w, s, code);
    t := RegStep(w, m, p, s, CmpR(R1, R2));
    ArrivedInv(w, m, m, p, s, 1, t, s.k + 1);
  }

  // An instruction whose immediate is half of a symbol's address.
  lemma SymStep(w: World, m: Mem, p: int, s: Mach, code: seq<Line>, op: AluOp, a: Reg, b: Reg, half: Half, y: Sym)
    returns (t: Mach, h: Imm)
    requires Ok(w) && Inv(w, m, p, s) && Ahead(w, s, code) && |code| > 0 && code[0] == OpSym(op, a, b, half, y)
    requires a != SP && a != R10 && a != ZR && (w.env.unit, y) in w.env.syms
    ensures Stepped(w, m, p, s, t, code)
    ensures HalfOf(half, w.env.syms[(w.env.unit, y)]) == Some(h)
    ensures t.cpu.regs == s.cpu.regs[a := Alu(op, s.cpu.regs[b], h)]
  {
    hide Alu, Arrived, Agrees, LabelsOk, FuncsOk, Ahead;
    Head(w, s, code);
    assert Emit(w.p.rows[s.k], w.p.syms, w.p.poll, w.p.gate).Some?;
    assert w.p.Val(s.k, y) == Some(w.env.syms[(w.env.unit, y)]);
    h := HalfOf(half, w.env.syms[(w.env.unit, y)]).value;
    t := RegStep(w, m, p, s, AluI(op, a, b, h));
    ArrivedInv(w, m, m, p, s, 1, t, s.k + 1);
  }

  // mov between registers and of a constant.
  lemma MovRStep(w: World, m: Mem, p: int, s: Mach, code: seq<Line>, a: Reg, b: Reg) returns (t: Mach)
    requires Ok(w) && Inv(w, m, p, s) && Ahead(w, s, code) && |code| > 0 && code[0] == MovR(a, b)
    requires a != SP && a != R10 && a != ZR
    ensures Stepped(w, m, p, s, t, code)
    ensures t.cpu.regs == s.cpu.regs[a := s.cpu.regs[b]]
  {
    hide Stepped, Ok, Agrees, BitOp, Ahead;
    t := AluRStep(w, m, p, s, code, AOr, a, ZR, b);
    OrZero(s.cpu.regs[b]);
  }

  lemma MovIStep(w: World, m: Mem, p: int, s: Mach, code: seq<Line>, a: Reg, n: Imm) returns (t: Mach)
    requires Ok(w) && Inv(w, m, p, s) && Ahead(w, s, code) && |code| > 0 && code[0] == MovI(a, n)
    requires a != SP && a != R10 && a != ZR
    ensures Stepped(w, m, p, s, t, code)
    ensures t.cpu.regs == s.cpu.regs[a := n]
  {
    hide Stepped, Ok, Agrees, BitOp, Ahead;
    t := AluIStep(w, m, p, s, code, AOr, a, ZR, n);
    OrZero(n);
  }

  // Two steps are a run of two; the same for a run and one more step.
  lemma Onward(w: World, m: Mem, p: int, s: Mach, n: nat, t1: Mach, t2: Mach, code: seq<Line>)
    requires w.p.Valid() && s.cpu.Valid() && t1.cpu.Valid() && |code| > 0
    requires Arrived(w, m, m, p, s, n, t1, t1.k) && Stepped(w, m, p, t1, t2, code)
    ensures Arrived(w, m, m, p, s, n + 1, t2, t2.k)
  {
    hide Arrived;
    Then(w, m, m, m, p, s, n, t1, t1.k, 1, t2, t2.k);
  }

  // ---- constants and addresses ----

  lemma AluJoin(hi: nat, lo: nat)
    requires hi < 0x1_0000 && lo < 0x1_0000
    ensures Alu(ALsl, hi, 16) == hi * 0x1_0000
    ensures Alu(AOr, hi * 0x1_0000, lo) == hi * 0x1_0000 + lo
  {
    hide Lsl, BitOp;
    HalvesJoin(hi, lo);
  }

  // Loading a constant of more than 16 bits.
  lemma SimBigNum(w: World, m: Mem, p: int, s: Mach, r: Reg, v: Word) returns (n: nat, t: Mach)
    requires Ok(w) && Inv(w, m, p, s) && Ahead(w, s, NumCode(r, v))
    requires (r == R1 || r == R2) && v >= 0x1_0000
    ensures Arrived(w, m, m, p, s, n, t, s.k + |NumCode(r, v)|)
    ensures t.cpu.regs == s.cpu.regs[r := v]
  {
    hide Ok, Arrived, Ahead, Agrees, Alu;
    OkValid(w);
    var code := NumCode(r, v);
    var hi, lo := v / 0x1_0000, v % 0x1_0000;
    AluJoin(hi, lo);
    var t1 := MovIStep(w, m, p, s, code, r, hi);
    var t2 := AluIStep(w, m, p, t1, code[1..], ALsl, r, r, 16);
    Onward(w, m, p, s, 1, t1, t2, code[1..]);
    if lo == 0 {
      t, n := t2, 2;
    } else {
      t := AluIStep(w, m, p, t2, code[1..][1..], AOr, r, r, lo);
      Onward(w, m, p, s, 2, t2, t, code[1..][1..]);
      n := 3;
    }
  }

  lemma SimNum(w: World, m: Mem, p: int, s: Mach, r: Reg, v: Word) returns (n: nat, t: Mach)
    requires Ok(w) && Inv(w, m, p, s) && Ahead(w, s, NumCode(r, v))
    requires r == R1 || r == R2
    ensures Arrived(w, m, m, p, s, n, t, s.k + |NumCode(r, v)|)
    ensures t.cpu.regs == s.cpu.regs[r := v]
  {
    hide Ok, Arrived, Ahead, Agrees;
    OkValid(w);
    if v < 0x1_0000 {
      t := MovIStep(w, m, p, s, NumCode(r, v), r, v);
      n := 1;
    } else {
      n, t := SimBigNum(w, m, p, s, r, v);
    }
  }

  // The 32-bit address of a symbol, in r9.
  lemma SimFar(w: World, m: Mem, p: int, s: Mach, y: Sym) returns (n: nat, t: Mach)
    requires Ok(w) && Inv(w, m, p, s) && Ahead(w, s, FarAddr(y)) && (w.env.unit, y) in w.env.syms
    ensures Arrived(w, m, m, p, s, n, t, s.k + 3)
    ensures t.cpu.regs == s.cpu.regs[R9 := w.env.syms[(w.env.unit, y)]]
  {
    hide Ok, Arrived, Ahead, Agrees, Alu;
    OkValid(w);
    var code := FarAddr(y);
    var v := w.env.syms[(w.env.unit, y)];
    AluJoin(v / 0x1_0000, v % 0x1_0000);
    AluOfZero(v / 0x1_0000);
    var t1, h := SymStep(w, m, p, s, code, AOr, R9, ZR, Hi, y);
    var t2 := AluIStep(w, m, p, t1, code[1..], ALsl, R9, R9, 16);
    Onward(w, m, p, s, 1, t1, t2, code[1..]);
    var l;
    t, l := SymStep(w, m, p, t2, code[1..][1..], AOr, R9, R9, Lo, y);
    Onward(w, m, p, s, 2, t2, t, code[1..][1..]);
    n := 3;
  }

  lemma AluOfZero(x: Word)
    ensures Alu(AOr, 0, x) == x
  {
    hide BitOp;
    OrZero(x);
  }

  lemma SimGlobal(w: World, m: Mem, p: int, s: Mach, name: string) returns (n: nat, t: Mach)
    requires Ok(w) && Inv(w, m, p, s) && Ahead(w, s, GlobalAddr(w.Near(), name)) && (w.env.unit, Name(name)) in w.env.syms
    ensures Arrived(w, m, m, p, s, n, t, s.k + |GlobalAddr(w.Near(), name)|)
    ensures t.cpu.regs == s.cpu.regs[R9 := w.env.syms[(w.env.unit, Name(name))]]
  {
    hide Ok, Arrived, Ahead, Agrees, Alu;
    OkValid(w);
    if name in w.Near() {
      var h;
      t, h := SymStep(w, m, p, s, GlobalAddr(w.Near(), name), AOr, R9, ZR, D16, Name(name));
      AluOfZero(h);
      n := 1;
    } else {
      n, t := SimFar(w, m, p, s, Name(name));
    }
  }

  lemma OkValid(w: World)
    requires Ok(w)
    ensures w.p.Valid() && w.p.host.floor <= w.env.lo && w.p.base < w.p.End() && w.env.meaning.Emitted?
  {
  }

  lemma ArrivedInv(w: World, m: Mem, m': Mem, p: int, s: Mach, n: nat, t: Mach, k: nat)
    requires w.p.Valid() && s.cpu.Valid() && Arrived(w, m, m', p, s, n, t, k)
    ensures Inv(w, m', p, t) && t.cpu.Valid() && t.k == k && m'.Keys == m.Keys && LineRun(w.p, s, n) == Some(t)
  {
  }

  // ---- loads and stores ----

  lemma SimNarrow(w: World, m: Mem, p: int, s: Mach, ty: Ty, code: seq<Line>) returns (n: nat, t: Mach)
    requires Ok(w) && Inv(w, m, p, s) && Ahead(w, s, code) && code == NarrowCode(ty)
    ensures Arrived(w, m, m, p, s, n, t, s.k + |code|)
    ensures t.cpu.regs == s.cpu.regs[R1 := Convert(s.cpu.regs[R1], ty)]
  {
    hide Ok, Arrived, Ahead, Agrees, Lsl, Lsr, Asr, Extend;
    OkValid(w);
    if ty.kind.Int? || ty.kind.Agg? {
      Stay(w, m, p, s);
      n, t := 0, s;
    } else {
      var bits := if ty.kind.Char? then 8 else 16;
      var op := if ty.unsigned then ALsr else AAsr;
      var t1 := AluIStep(w, m, p, s, code, ALsl, R1, R1, 32 - bits);
      t := AluIStep(w, m, p, t1, code[1..], op, R1, R1, 32 - bits);
      Onward(w, m, p, s, 1, t1, t, code[1..]);
      if ty.unsigned { ShiftExtendsUnsigned(s.cpu.regs[R1], bits); } else { ShiftExtendsSigned(s.cpu.regs[R1], bits); }
      n := 2;
    }
  }

  // What the program may read is what the machine reads.
  lemma LoadAgrees(w: World, m: Mem, p: int, mem: seq<Byte>, a: nat, n: nat)
    requires Agrees(w, m, p, mem) && (n == 1 || n == 2 || n == 4) && LoadN(m, a, n).Some?
    ensures Read(mem, a, n) == LoadN(m, a, n)
  {
    hide Be32, OffCode;
    assert a in m && a + n - 1 in m;
    forall i | a <= i < a + n ensures i in m && mem[i] == m[i].b {
    }
  }

  lemma SimLoad(w: World, m: Mem, p: int, s: Mach, ty: Ty) returns (n: nat, t: Mach)
    requires Ok(w) && Inv(w, m, p, s) && Ahead(w, s, LoadCode(ty))
    requires FetchTy(m, s.cpu.regs[R9], ty).Val? && !ty.kind.Agg?
    ensures Arrived(w, m, m, p, s, n, t, s.k + |LoadCode(ty)|)
    ensures t.cpu.regs[R1] == FetchTy(m, s.cpu.regs[R9], ty).v
  {
    hide Ok, Arrived, Ahead, Agrees, Convert;
    OkValid(w);
    var code := LoadCode(ty);
    Head(w, s, code);
    InvAgrees(w, m, p, s);
    LoadAgrees(w, m, p, s.cpu.mem, s.cpu.regs[R9], SizeOf(ty));
    var t1 := RegStep(w, m, p, s, LoadR(WidthOfTy(ty), R1, R9));
    ArrivedInv(w, m, m, p, s, 1, t1, s.k + 1);
    assert code[1..] == NarrowCode(ty);
    var n2;
    n2, t := SimNarrow(w, m, p, t1, ty, code[1..]);
    Then(w, m, m, m, p, s, 1, t1, s.k + 1, n2, t, s.k + |code|);
    n := 1 + n2;
  }

  lemma InvAgrees(w: World, m: Mem, p: int, s: Mach)
    requires Inv(w, m, p, s)
    ensures Agrees(w, m, p, s.cpu.mem)
  {
  }

  lemma ClearOf(w: World, a: nat, n: nat)
    requires w.p.Valid() && w.p.base < w.p.End() && 0 < n <= 4
    requires forall i | a <= i < a + n :: OffCode(w.p, i)
    ensures w.p.Clear(a, n)
  {
    assert OffCode(w.p, a);
    assert OffCode(w.p, a + n - 1);
    var atBase, atGate := OffCode(w.p, w.p.base), OffCode(w.p, w.p.gate);
  }

  lemma WriteBytes(mem: seq<Byte>, a: nat, n: nat, v: Word)
    requires (n == 1 || n == 2 || n == 4) && a + n <= |mem|
    ensures Write(mem, a, n, v).Some?
    ensures var m' := Write(mem, a, n, v).value;
            && |m'| == |mem|
            && (forall i | 0 <= i < |mem| && !(a <= i < a + n) :: m'[i] == mem[i])
            && (forall j | a <= j < a + n :: m'[j] == ByteAt(v, 4 - n + (j - a)))
  {
    hide ByteAt;
  }

  lemma StoreCells(m: Mem, a: int, n: nat, v: Word)
    requires (n == 1 || n == 2 || n == 4) && StoreN(m, a, n, v).Some?
    ensures var m' := StoreN(m, a, n, v).value;
            && m'.Keys == m.Keys
            && (forall i | i in m && !(a <= i < a + n) :: m'[i] == m[i])
            && (forall j | a <= j < a + n :: m'[j] == Known(ByteAt(v, 4 - n + (j - a))))
  {
    hide ByteAt;
    assert a in m && a + n - 1 in m;
  }

  // A store the program may make is made, and stays off the code.
  lemma StoreAgrees(w: World, m: Mem, p: int, mem: seq<Byte>, a: int, n: nat, v: Word)
    requires w.p.Valid() && w.p.base < w.p.End() && Agrees(w, m, p, mem)
    requires (n == 1 || n == 2 || n == 4) && StoreN(m, a, n, v).Some?
    ensures 0 <= a && w.p.Clear(a, n) && Write(mem, a, n, v).Some?
    ensures Agrees(w, StoreN(m, a, n, v).value, p, Write(mem, a, n, v).value)
    ensures Keeps(w, m, p, mem, Write(mem, a, n, v).value)
  {
    hide OffCode, StoreN, Write, ByteAt;
    assert Has(m, a, n) by { StoreHas(m, a, n, v); }
    assert a in m && a + n - 1 in m;
    assert forall i | a <= i < a + n :: i in m;
    ClearOf(w, a, n);
    WriteBytes(mem, a, n, v);
    StoreCells(m, a, n, v);
    var m', mem' := StoreN(m, a, n, v).value, Write(mem, a, n, v).value;
    forall i | i in m' && m'[i].Known? ensures mem'[i] == m'[i].b {
    }
  }

  lemma StoreHas(m: Mem, a: int, n: nat, v: Word)
    requires (n == 1 || n == 2 || n == 4) && StoreN(m, a, n, v).Some?
    ensures Has(m, a, n)
  {
  }

  lemma SimStore(w: World, m: Mem, p: int, s: Mach, code: seq<Line>, wd: Width, n: nat) returns (t: Mach)
    requires Ok(w) && Inv(w, m, p, s) && Ahead(w, s, code) && |code| > 0
    requires code[0] == Op(StoreR(wd, R9, R1)) && !wd.Disk? && n == WidthBytes(wd)
    requires StoreN(m, s.cpu.regs[R9], n, s.cpu.regs[R1]).Some?
    ensures Arrived(w, m, StoreN(m, s.cpu.regs[R9], n, s.cpu.regs[R1]).value, p, s, 1, t, s.k + 1)
    ensures t.cpu.regs == s.cpu.regs && Ahead(w, t, code[1..])
  {
    hide Ok, Ahead, Agrees, Keeps, Read, Write, StoreN, LineRun;
    OkValid(w);
    Head(w, s, code);
    StoreAgrees(w, m, p, s.cpu.mem, s.cpu.regs[R9], n, s.cpu.regs[R1]);
    StoreKeys(m, s.cpu.regs[R9], n, s.cpu.regs[R1]);
    OneInsn(w.p, s, StoreR(wd, R9, R1));
    t := Mach(s.k + 1, Exec(StoreR(wd, R9, R1), s.cpu).s);
    AddrNext(w.p, s.k);
  }

  lemma StoreKeys(m: Mem, a: int, n: nat, v: Word)
    requires (n == 1 || n == 2 || n == 4) && StoreN(m, a, n, v).Some?
    ensures StoreN(m, a, n, v).value.Keys == m.Keys
  {
  }

  // ---- the stack ----

  // A word v pushed at p, and nothing else changed.
  ghost predicate Pushed(w: World, m: Mem, p: int, s: Mach, t: Mach, v: Word) {
    && w.p.Valid() && s.cpu.Valid()
    && LineRun(w.p, s, 1) == Some(t) && t.k == s.k + 1 && p >= 4
    && Inv(w, m, p, s) && Inv(w, m, p - 4, t)
    && Keeps(w, m, p, s.cpu.mem, t.cpu.mem)
    && Read(t.cpu.mem, p - 4, 4) == Some(v)
  }

  lemma ReadBack(mem: seq<Byte>, a: nat, v: Word)
    requires Write(mem, a, 4, v).Some?
    ensures Read(Write(mem, a, 4, v).value, a, 4) == Some(v)
  {
    hide ByteAt, Be32;
    Be32RoundTrip(v);
  }

  lemma PushAgrees(w: World, m: Mem, p: int, mem: seq<Byte>, v: Word)
    requires w.p.Valid() && w.p.base < w.p.End() && 0 <= w.env.lo && Agrees(w, m, p, mem) && w.env.lo <= p - 4
    ensures w.p.Clear(p - 4, 4) && Write(mem, p - 4, 4, v).Some?
    ensures Agrees(w, m, p - 4, Write(mem, p - 4, 4, v).value)
    ensures Keeps(w, m, p, mem, Write(mem, p - 4, 4, v).value)
  {
    hide OffCode, Write;
    ClearOf(w, p - 4, 4);
    WriteBytes(mem, p - 4, 4, v);
  }

  lemma PushStep(w: World, m: Mem, p: int, s: Mach, code: seq<Line>, r: Reg) returns (t: Mach)
    requires Ok(w) && Inv(w, m, p, s) && Ahead(w, s, code) && |code| > 0 && code[0] == Push(r)
    requires r != SP && w.env.lo <= p - 4
    ensures Pushed(w, m, p, s, t, s.cpu.regs[r]) && Ahead(w, t, code[1..])
    ensures t.cpu.regs == s.cpu.regs[SP := p - 4]
  {
    hide Ok, Ahead, Agrees, Keeps, Write, Read;
    OkValid(w);
    Head(w, s, code);
    var v := s.cpu.regs[r];
    PushAgrees(w, m, p, s.cpu.mem, v);
    ReadBack(s.cpu.mem, p - 4, v);
    var c1 := s.cpu.(regs := s.cpu.regs[SP := p - 4], pc := s.cpu.pc + 4);
    var c2 := c1.(mem := Write(s.cpu.mem, p - 4, 4, v).value, pc := s.cpu.pc + 8);
    assert Exec(AluI(ASub, SP, SP, 4), s.cpu) == Emu.Next(c1);
    assert Exec(StoreR(B32, SP, r), c1) == Emu.Next(c2);
    ExecTwo(w.p, PushWords(r), s.cpu, c1, c2);
    t := Mach(s.k + 1, c2);
    assert LineStep(w.p, s) == Some(t);
    assert LineRun(w.p, t, 0) == Some(t);
    AddrNext(w.p, s.k);
  }

  lemma ExecTwo(p: Prog, insns: seq<Insn>, s: Cpu, s1: Cpu, s2: Cpu)
    requires |insns| == 2 && s.Valid() && s1.Valid()
    requires Straight(insns[0]) && Straight(insns[1]) && StoreOk(p, insns[0], s) && StoreOk(p, insns[1], s1)
    requires Exec(insns[0], s) == Emu.Next(s1) && Exec(insns[1], s1) == Emu.Next(s2)
    ensures ExecAll(p, insns, s) == Some(s2)
  {
    hide Exec, StoreOk;
    assert insns == [insns[0]] + [insns[1]];
    ExecOne(p, insns[0], s, s1);
    ExecOne(p, insns[1], s1, s2);
    ExecAppend(p, [insns[0]], [insns[1]], s);
  }

  // What was pushed is still there after code that used the stack below it.
  lemma PopStep(w: World, m: Mem, m': Mem, p: int, s: Mach, t1: Mach, v: Word, n: nat, t2: Mach, code: seq<Line>, r: Reg)
    returns (t: Mach)
    requires Ok(w) && s.cpu.Valid() && Pushed(w, m, p, s, t1, v) && t1.cpu.Valid()
    requires Arrived(w, m, m', p - 4, t1, n, t2, t2.k) && Ahead(w, t2, code) && |code| > 0 && code[0] == Pop(r)
    requires r != SP && r != R10 && r != ZR
    ensures Arrived(w, m, m', p, s, n + 2, t, t2.k + 1) && Ahead(w, t, code[1..])
    ensures t.cpu.regs == t2.cpu.regs[r := v][SP := p]
  {
    hide Ok, Ahead, Agrees, Keeps, Write, Read, LineRun;
    OkValid(w);
    Head(w, t2, code);
    PopAgrees(w, m, m', p, s.cpu.mem, t2.cpu.mem);
    KeptWord(w, m, p, t1.cpu.mem, t2.cpu.mem);
    KeepsBoth(w, m, p, s.cpu.mem, t1.cpu.mem, t2.cpu.mem);
    var c1 := t2.cpu.(regs := t2.cpu.regs[r := v], pc := t2.cpu.pc + 4);
    var c2 := c1.(regs := t2.cpu.regs[r := v][SP := p], pc := t2.cpu.pc + 8);
    assert Exec(LoadR(B32, r, SP), t2.cpu) == Emu.Next(c1);
    assert Exec(AluI(AAdd, SP, SP, 4), c1) == Emu.Next(c2);
    t := Mach(t2.k + 1, c2);
    PopRuns(w.p, t2, c1, c2, r);
    AddrNext(w.p, t2.k);
    LineRunAdd(w.p, s, 1, n);
    LineRunAdd(w.p, s, 1 + n, 1);
  }

  lemma PopRuns(p: Prog, s: Mach, c1: Cpu, c2: Cpu, r: Reg)
    requires p.Valid() && s.cpu.Valid() && c1.Valid() && s.k < |p.rows| && p.rows[s.k].line == Pop(r)
    requires Exec(LoadR(B32, r, SP), s.cpu) == Emu.Next(c1) && Exec(AluI(AAdd, SP, SP, 4), c1) == Emu.Next(c2)
    ensures LineRun(p, s, 1) == Some(Mach(s.k + 1, c2))
  {
    hide Exec;
    ExecTwo(p, PopWords(r), s.cpu, c1, c2);
    assert LineStep(p, s) == Some(Mach(s.k + 1, c2));
    assert LineRun(p, Mach(s.k + 1, c2), 0) == Some(Mach(s.k + 1, c2));
  }

  lemma KeptWord(w: World, m: Mem, p: int, mem: seq<Byte>, mem': seq<Byte>)
    requires Keeps(w, m, p - 4, mem, mem') && 4 <= p <= |mem| && w.p.host.floor <= p - 4
    requires forall a | p - 4 <= a < p :: a !in m
    ensures Read(mem', p - 4, 4) == Read(mem, p - 4, 4)
  {
    hide Be32;
  }

  lemma PopAgrees(w: World, m: Mem, m': Mem, p: int, mem: seq<Byte>, mem': seq<Byte>)
    requires Agrees(w, m, p, mem) && Agrees(w, m', p - 4, mem') && m'.Keys == m.Keys && |mem'| == |mem|
    ensures Agrees(w, m', p, mem') && p <= |mem| && w.env.lo <= p - 4
    ensures forall a | p - 4 <= a < p :: a !in m
  {
    hide OffCode;
    forall a | a in m' ensures !(w.env.lo <= a < p) {
      assert a in m;
    }
    forall a | p - 4 <= a < p ensures a !in m {
      assert w.env.lo <= p - 4;
    }
  }

  lemma KeepsBoth(w: World, m: Mem, p: int, a: seq<Byte>, b: seq<Byte>, c: seq<Byte>)
    requires Keeps(w, m, p, a, b) && Keeps(w, m, p - 4, b, c)
    ensures Keeps(w, m, p, a, c)
  {
  }
}
