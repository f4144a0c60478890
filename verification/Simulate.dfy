// Compiled code does what the C program means: the forward simulation for
// expressions, calls and statements (symcc/src/codegen.c).
module Simulate {
  import opened Words
  import opened Isa
  import opened Emu
  import opened Link
  import opened Machine
  import opened Minic
  import opened Codegen
  import opened Gadgets
  import opened Jumps
  import opened Calls
  import opened Frames

  // The machine's run from s stands for result r: it arrives at line k with
  // the value in `reg`, or, when the C program is still running after `fuel`
  // turns, the machine is still running after at least as many lines.
  ghost predicate Sim(w: World, r: Res, m: Mem, p: int, s: Mach, n: nat, t: Mach, k: int, reg: Reg, fuel: nat) {
    w.p.Valid() && s.cpu.Valid() &&
    match r
    case Val(v, m') => Arrived(w, m, m', p, s, n, t, k) && t.cpu.regs[reg] == v
    case Void(m') => Arrived(w, m, m', p, s, n, t, k)
    case Stuck => true
    case Timeout => LineRun(w.p, s, n).Some? && n >= fuel
  }

  lemma SimAfter(w: World, r: Res, m: Mem, m1: Mem, p: int, s: Mach, n1: nat, t1: Mach, k1: nat, n2: nat, t2: Mach, k: nat, reg: Reg, fuel: nat)
    requires w.p.Valid() && s.cpu.Valid() && t1.cpu.Valid()
    requires Arrived(w, m, m1, p, s, n1, t1, k1) && Sim(w, r, m1, p, t1, n2, t2, k, reg, fuel)
    ensures Sim(w, r, m, p, s, n1 + n2, t2, k, reg, fuel)
  {
    hide Arrived;
    ArrivedInv(w, m, m1, p, s, n1, t1, k1);
    LineRunAdd(w.p, s, n1, n2);
    match r
    case Val(v, m') => Then(w, m, m1, m', p, s, n1, t1, k1, n2, t2, k);
    case Void(m') => Then(w, m, m1, m', p, s, n1, t1, k1, n2, t2, k);
    case Stuck =>
    case Timeout =>
  }

  // A result that is not a value stops the enclosing expression.
  lemma SimStrict(w: World, r: Res, m: Mem, p: int, s: Mach, n: nat, t: Mach, k: nat, reg: Reg, fuel: nat, k': nat, reg': Reg)
    requires w.p.Valid() && s.cpu.Valid() && !r.Val?
    requires Sim(w, r, m, p, s, n, t, k, reg, fuel)
    ensures Sim(w, Strict(r), m, p, s, n, t, k', reg', fuel)
  {
  }

  lemma SimValue(w: World, r: Res, m: Mem, p: int, s: Mach, n: nat, t: Mach, k: nat, reg: Reg, fuel: nat)
    requires w.p.Valid() && s.cpu.Valid() && (r.Val? || r.Void?)
    requires Sim(w, r, m, p, s, n, t, k, reg, fuel)
    ensures Arrived(w, m, r.m, p, s, n, t, k) && Inv(w, r.m, p, t) && t.k == k && t.cpu.Valid()
    ensures r.Val? ==> t.cpu.regs[reg] == r.v
    ensures r.m.Keys == m.Keys
  {
    hide Inv;
    ArrivedInv(w, m, r.m, p, s, n, t, k);
  }

  lemma MakeSim(w: World, v: Word, m: Mem, m': Mem, p: int, s: Mach, n: nat, t: Mach, k: nat, reg: Reg, fuel: nat)
    requires w.p.Valid() && s.cpu.Valid() && Arrived(w, m, m', p, s, n, t, k) && t.cpu.Valid() && t.cpu.regs[reg] == v
    ensures Sim(w, Val(v, m'), m, p, s, n, t, k, reg, fuel)
  {
    hide Arrived;
  }

  lemma SimTimeout(w: World, m: Mem, p: int, s: Mach, n: nat, t: Mach, k: nat, reg: Reg, fuel: nat)
    requires w.p.Valid() && s.cpu.Valid() && LineRun(w.p, s, n).Some? && n >= fuel
    ensures Sim(w, Timeout, m, p, s, n, t, k, reg, fuel)
  {
  }

  // ---- operators without a runtime routine ----

  function AluOpOf(op: BinOp): AluOp
    requires Routine(op).None? && !op.Compare?
  {
    match op
    case Add => AAdd case Sub => ASub case Mul => AMul case UDivide => ADiv case UModulo => AMod
    case BitAnd => AAnd case BitOr => AOr case BitXor => AXor case Shl => ALsl case ShrU => ALsr case ShrS => AAsr
  }

  lemma OpIsAlu(op: BinOp, x: Word, y: Word, c: nat)
    requires Routine(op).None? && !op.Compare?
    ensures Apply(op, x, y) == Alu(AluOpOf(op), x, y)
    ensures BinCode(op, c) == Gen([Op(AluR(AluOpOf(op), R1, R1, R2))], c)
  {
    hide BitOp, Pow2, Signed;
    if y != 0 { DivBound(x, y); }
    DivBound(x, Pow2(y % 32));
    assert y != 0 ==> Wrap(x / y) == x / y && 0 <= x % y < y;
  }

  lemma SimApply(w: World, m: Mem, p: int, s: Mach, op: BinOp, c: nat) returns (n: nat, t: Mach)
    requires Ok(w) && Inv(w, m, p, s) && Ahead(w, s, BinCode(op, c).code) && Routine(op).None?
    ensures Arrived(w, m, m, p, s, n, t, s.k + |BinCode(op, c).code|)
    ensures t.cpu.regs[R1] == Apply(op, s.cpu.regs[R1], s.cpu.regs[R2])
  {
    hide LineRun, LineStep, Total, Ok, Ahead, Arrived, Agrees, Alu, Apply;
    OkValid(w);
    var x, y := s.cpu.regs[R1], s.cpu.regs[R2];
    if op.Compare? {
      n, t := SimCompare(w, m, p, s, JumpFor(op.rel, op.unsigned), c);
      CompareMeans(op, x, y);
    } else {
      OpIsAlu(op, x, y, c);
      t := AluRStep(w, m, p, s, BinCode(op, c).code, AluOpOf(op), R1, R1, R2);
      n := 1;
    }
  }

  lemma CompareMeans(op: BinOp, x: Word, y: Word)
    requires op.Compare?
    ensures Apply(op, x, y) == Bool(Holds(JumpFor(op.rel, op.unsigned), x, y))
  {
    hide BitOp;
  }

  // A value loaded through r9, or the address itself for an aggregate.
  lemma SimRvalue(w: World, m: Mem, p: int, s: Mach, ty: Ty, fuel: nat) returns (n: nat, t: Mach)
    requires Ok(w) && Inv(w, m, p, s) && Ahead(w, s, RvalueCode(ty))
    ensures Sim(w, Rvalue(Val(s.cpu.regs[R9], m), ty), m, p, s, n, t, s.k + |RvalueCode(ty)|, R1, fuel)
  {
    hide LineRun, LineStep, Total, Ok, Ahead, Arrived, Agrees, FetchTy;
    OkValid(w);
    FetchKind(m, s.cpu.regs[R9], ty);
    if ty.kind.Agg? {
      t := MovRStep(w, m, p, s, RvalueCode(ty), R1, R9);
      n := 1;
    } else if FetchTy(m, s.cpu.regs[R9], ty).Val? {
      n, t := SimLoad(w, m, p, s, ty);
    } else {
      n, t := 0, s;
    }
  }

  lemma FetchKind(m: Mem, a: Word, ty: Ty)
    ensures FetchTy(m, a, ty) == Stuck || (FetchTy(m, a, ty).Val? && FetchTy(m, a, ty).m == m)
  {
    hide Convert;
  }

  // Adding a member's offset.
  lemma SimOffset(w: World, m: Mem, p: int, s: Mach, from: Reg, off: nat) returns (n: nat, t: Mach)
    requires Ok(w) && Inv(w, m, p, s) && Ahead(w, s, OffsetCode(from, off)) && (from == R1 || from == R9)
    ensures Arrived(w, m, m, p, s, n, t, s.k + |OffsetCode(from, off)|)
    ensures t.cpu.regs[R9] == Wrap(s.cpu.regs[from] + off)
  {
    hide LineRun, LineStep, Total, Ok, Ahead, Arrived, Agrees;
    OkValid(w);
    var v: int := s.cpu.regs[from];
    if off != 0 {
      t := AluIStep(w, m, p, s, OffsetCode(from, off), AAdd, R9, from, off);
      n := 1;
    } else if from == R9 {
      Stay(w, m, p, s);
      n, t := 0, s;
    } else {
      t := MovRStep(w, m, p, s, OffsetCode(from, off), R9, from);
      n := 1;
    }
    assert Wrap(v) == v;
  }

  // ---- expressions ----

  lemma {:induction false} SimExpr(w: World, fuel: nat, e: Expr, c: nat, m: Mem, p: int, s: Mach) returns (n: nat, t: Mach)
    requires Ok(w) && Inv(w, m, p, s) && Compiles(e) && Ahead(w, s, ExprCode(w.Near(), e, c).code)
    ensures Sim(w, Eval(fuel, w.env, e, m, p), m, p, s, n, t, s.k + |ExprCode(w.Near(), e, c).code|, R1, fuel)
    decreases fuel, e, 9
  {
    hide LineRun, LineStep, Total, Ok, Ahead, Arrived, Inv, Sim, Eval, ExprCode, Compiles;
    match e
    case Num(v) => n, t := SimNumber(w, fuel, v, c, m, p, s);
    case Var(_, ty) => n, t := SimLoadVar(w, fuel, e, ty, c, m, p, s);
    case GVar(_, ty) => n, t := SimLoadVar(w, fuel, e, ty, c, m, p, s);
    case Member(_, _, ty) => n, t := SimLoadVar(w, fuel, e, ty, c, m, p, s);
    case FuncAddr(name) => n, t := SimFarValue(w, fuel, e, Name(name), c, m, p, s);
    case StrAddr(i) => n, t := SimFarValue(w, fuel, e, Lit(i), c, m, p, s);
    case AddrOf(x) => n, t := SimAddrOf(w, fuel, e, c, m, p, s);
    case Deref(x, ty) => n, t := SimDeref(w, fuel, e, c, m, p, s);
    case Cast(x, ty) => n, t := SimUnary(w, fuel, e, c, m, p, s);
    case Neg(x) => n, t := SimUnary(w, fuel, e, c, m, p, s);
    case BitNot(x) => n, t := SimUnary(w, fuel, e, c, m, p, s);
    case Not(x) => n, t := SimUnary(w, fuel, e, c, m, p, s);
    case Assign(lv, rhs, ty) => n, t := SimAssign(w, fuel, e, c, m, p, s);
    case Bin(op, l, r) => n, t := SimBin(w, fuel, e, c, m, p, s);
    case LogAnd(l, r) => n, t := SimLogical(w, fuel, e, c, m, p, s);
    case LogOr(l, r) => n, t := SimLogical(w, fuel, e, c, m, p, s);
    case Ternary(x, y, z) => n, t := SimTernary(w, fuel, e, c, m, p, s);
    case Comma(l, r) => n, t := SimComma(w, fuel, e, c, m, p, s);
    case Call(name, args) => n, t := SimCallExpr(w, fuel, e, c, m, p, s);
  }

  lemma SimNumber(w: World, fuel: nat, v: Word, c: nat, m: Mem, p: int, s: Mach) returns (n: nat, t: Mach)
    requires Ok(w) && Inv(w, m, p, s) && Ahead(w, s, ExprCode(w.Near(), Num(v), c).code)
    ensures w.p.Valid() && s.cpu.Valid()
    ensures Sim(w, Eval(fuel, w.env, Num(v), m, p), m, p, s, n, t, s.k + |ExprCode(w.Near(), Num(v), c).code|, R1, fuel)
  {
    hide LineRun, LineStep, Total, Ok, Ahead, Arrived, Inv;
    OkValid(w);
    InvValid(w, m, p, s);
    n, t := SimNum(w, m, p, s, R1, v);
    ArrivedInv(w, m, m, p, s, n, t, s.k + |NumCode(R1, v)|);
  }

  lemma {:induction false} SimLoadVar(w: World, fuel: nat, e: Expr, ty: Ty, c: nat, m: Mem, p: int, s: Mach) returns (n: nat, t: Mach)
    requires (e.Var? || e.GVar? || e.Member?) && e.ty == ty && Compiles(e)
    requires Ok(w) && Inv(w, m, p, s) && Ahead(w, s, ExprCode(w.Near(), e, c).code)
    ensures Sim(w, Eval(fuel, w.env, e, m, p), m, p, s, n, t, s.k + |ExprCode(w.Near(), e, c).code|, R1, fuel)
    decreases fuel, e, 8
  {
    hide LineRun, LineStep, Total, Ok, Ahead, Sim, Inv, AddrCode, Address, Addressable;
    OkValid(w);
    InvValid(w, m, p, s);
    var a := AddrCode(w.Near(), e, c);
    SplitAhead(w, s, a.code, RvalueCode(ty));
    LvalueOk(e);
    n, t := SimAddr(w, fuel, e, c, m, p, s);
    var r := Address(fuel, w.env, e, m, p);
    if r.Val? {
      SimValue(w, r, m, p, s, n, t, s.k + |a.code|, R9, fuel);
      var n2, t2 := SimRvalue(w, r.m, p, t, ty, fuel);
      SimAfter(w, Rvalue(r, ty), m, r.m, p, s, n, t, t.k, n2, t2, t.k + |RvalueCode(ty)|, R1, fuel);
      n, t := n + n2, t2;
    } else {
      SimStrict(w, r, m, p, s, n, t, s.k + |a.code|, R9, fuel, s.k + |ExprCode(w.Near(), e, c).code|, R1);
    }
  }

  lemma LvalueOk(e: Expr)
    requires (e.Var? || e.GVar? || e.Member?) && Compiles(e)
    ensures Addressable(e)
  {
  }

  lemma SimFarValue(w: World, fuel: nat, e: Expr, y: Sym, c: nat, m: Mem, p: int, s: Mach) returns (n: nat, t: Mach)
    requires (e.FuncAddr? && y == Name(e.name)) || (e.StrAddr? && y == Lit(e.n))
    requires Ok(w) && Inv(w, m, p, s) && Ahead(w, s, ExprCode(w.Near(), e, c).code)
    ensures Sim(w, Eval(fuel, w.env, e, m, p), m, p, s, n, t, s.k + |ExprCode(w.Near(), e, c).code|, R1, fuel)
  {
    hide LineRun, LineStep, Total, Ok, Ahead, Arrived, Inv;
    OkValid(w);
    InvValid(w, m, p, s);
    if (w.env.unit, y) in w.env.syms {
      SplitAhead(w, s, FarAddr(y), [MovR(R1, R9)]);
      n, t := SimFar(w, m, p, s, y);
      ArrivedInv(w, m, m, p, s, n, t, s.k + 3);
      var t2 := MovRStep(w, m, p, t, [MovR(R1, R9)], R1, R9);
      Onward(w, m, p, s, n, t, t2, [MovR(R1, R9)]);
      n, t := n + 1, t2;
    } else {
      n, t := 0, s;
    }
  }

  lemma {:induction false} SimAddrOf(w: World, fuel: nat, e: Expr, c: nat, m: Mem, p: int, s: Mach) returns (n: nat, t: Mach)
    requires e.AddrOf? && Compiles(e)
    requires Ok(w) && Inv(w, m, p, s) && Ahead(w, s, ExprCode(w.Near(), e, c).code)
    ensures Sim(w, Eval(fuel, w.env, e, m, p), m, p, s, n, t, s.k + |ExprCode(w.Near(), e, c).code|, R1, fuel)
    decreases fuel, e, 8
  {
    hide LineRun, LineStep, Total, Ok, Ahead, Sim, Inv, AddrCode, Address, Addressable, Stepped, Arrived;
    OkValid(w);
    InvValid(w, m, p, s);
    var a := AddrCode(w.Near(), e.e, c);
    SplitAhead(w, s, a.code, [MovR(R1, R9)]);
    n, t := SimAddr(w, fuel, e.e, c, m, p, s);
    var r := Address(fuel, w.env, e.e, m, p);
    if r.Val? {
      SimValue(w, r, m, p, s, n, t, s.k + |a.code|, R9, fuel);
      var t2 := MovRStep(w, r.m, p, t, [MovR(R1, R9)], R1, R9);
      StepSim(w, r.v, r.m, p, t, t2, [MovR(R1, R9)], R1, fuel);
      SimAfter(w, r, m, r.m, p, s, n, t, t.k, 1, t2, t.k + 1, R1, fuel);
      n, t := n + 1, t2;
    } else {
      AddressKind(fuel, w.env, e.e, m, p);
      SimStrict(w, r, m, p, s, n, t, s.k + |a.code|, R9, fuel, s.k + |ExprCode(w.Near(), e, c).code|, R1);
    }
  }

  lemma StepSim(w: World, v: Word, m: Mem, p: int, s: Mach, t: Mach, code: seq<Line>, reg: Reg, fuel: nat)
    requires w.p.Valid() && s.cpu.Valid() && |code| > 0 && Stepped(w, m, p, s, t, code) && t.cpu.regs[reg] == v
    ensures Sim(w, Val(v, m), m, p, s, 1, t, s.k + 1, reg, fuel)
  {
    hide Arrived;
  }

  // An address is never a void result.
  lemma AddressKind(fuel: nat, env: Env, e: Expr, m: Mem, p: int)
    ensures !Address(fuel, env, e, m, p).Void?
  {
    hide Eval, CallFn;
  }

  lemma DerefShape(w: World, fuel: nat, e: Expr, c: nat, m: Mem, p: int)
    requires e.Deref?
    ensures ExprCode(w.Near(), e, c).code
            == ExprCode(w.Near(), e.e, c).code + if e.ty.kind.Agg? then [] else [MovR(R9, R1)] + LoadCode(e.ty)
    ensures Eval(fuel, w.env, e, m, p) == Rvalue(Eval(fuel, w.env, e.e, m, p), e.ty)
  {
    hide LoadCode, Rvalue;
  }

  lemma {:induction false} SimDeref(w: World, fuel: nat, e: Expr, c: nat, m: Mem, p: int, s: Mach) returns (n: nat, t: Mach)
    requires e.Deref? && Compiles(e)
    requires Ok(w) && Inv(w, m, p, s) && Ahead(w, s, ExprCode(w.Near(), e, c).code)
    ensures Sim(w, Eval(fuel, w.env, e, m, p), m, p, s, n, t, s.k + |ExprCode(w.Near(), e, c).code|, R1, fuel)
    decreases fuel, e, 8
  {
    hide LineRun, LineStep, Total, Ok, Ahead, Sim, Inv, Stepped, Arrived, LoadCode, ExprCode, Eval, FetchTy;
    OkValid(w);
    InvValid(w, m, p, s);
    DerefShape(w, fuel, e, c, m, p);
    var a := ExprCode(w.Near(), e.e, c);
    var tail := if e.ty.kind.Agg? then [] else [MovR(R9, R1)] + LoadCode(e.ty);
    SplitAhead(w, s, a.code, tail);
    n, t := SimExpr(w, fuel, e.e, c, m, p, s);
    var r := Eval(fuel, w.env, e.e, m, p);
    if !r.Val? {
      SimStrict(w, r, m, p, s, n, t, s.k + |a.code|, R1, fuel, s.k + |a.code| + |tail|, R1);
    } else if !e.ty.kind.Agg? {
      SimValue(w, r, m, p, s, n, t, s.k + |a.code|, R1, fuel);
      var n2, t2 := SimDerefTail(w, fuel, r, e.ty, p, t);
      SimAfter(w, Rvalue(r, e.ty), m, r.m, p, s, n, t, t.k, n2, t2, t.k + |tail|, R1, fuel);
      n, t := n + n2, t2;
    }
  }

  lemma SimDerefTail(w: World, fuel: nat, r: Res, ty: Ty, p: int, s: Mach) returns (n: nat, t: Mach)
    requires r.Val? && !ty.kind.Agg? && Ok(w) && Inv(w, r.m, p, s) && s.cpu.regs[R1] == r.v
    requires Ahead(w, s, [MovR(R9, R1)] + LoadCode(ty))
    ensures Sim(w, Rvalue(r, ty), r.m, p, s, n, t, s.k + 1 + |LoadCode(ty)|, R1, fuel)
  {
    hide LineRun, LineStep, Total, Ok, Ahead, Sim, Inv, Stepped, Arrived, LoadCode, FetchTy;
    OkValid(w);
    InvValid(w, r.m, p, s);
    SplitAhead(w, s, [MovR(R9, R1)], LoadCode(ty));
    var t2 := MovRStep(w, r.m, p, s, [MovR(R9, R1)], R9, R1);
    StepArrived(w, r.m, p, s, t2, [MovR(R9, R1)]);
    assert RvalueCode(ty) == LoadCode(ty);
    var n3, t3 := SimRvalue(w, r.m, p, t2, ty, fuel);
    SimAfter(w, Rvalue(r, ty), r.m, r.m, p, s, 1, t2, s.k + 1, n3, t3, t2.k + |LoadCode(ty)|, R1, fuel);
    n, t := 1 + n3, t3;
  }

  lemma StepArrived(w: World, m: Mem, p: int, s: Mach, t: Mach, code: seq<Line>)
    requires w.p.Valid() && s.cpu.Valid() && |code| > 0 && Stepped(w, m, p, s, t, code)
    ensures Arrived(w, m, m, p, s, 1, t, s.k + 1) && Inv(w, m, p, t) && t.k == s.k + 1 && t.cpu.Valid()
    ensures Ahead(w, t, code[1..])
  {
    hide Arrived, Ahead, Inv;
    InvValid(w, m, p, t);
  }

  // ---- unary operators ----

  predicate Unary(e: Expr) {
    e.Cast? || e.Neg? || e.BitNot? || e.Not?
  }

  function UnaryValue(e: Expr, v: Word): Word
    requires Unary(e)
  {
    match e
    case Cast(_, ty) => Convert(v, ty)
    case Neg(_) => Wrap(0 - v)
    case BitNot(_) => W - 1 - v
    case Not(_) => Bool(v == 0)
  }

  // What follows the operand's code.
  function UnaryTail(e: Expr, c: nat): seq<Line>
    requires Unary(e)
  {
    match e
    case Cast(_, ty) => NarrowCode(ty)
    case Neg(_) => [Op(AluR(ASub, R1, ZR, R1))]
    case BitNot(_) => NumCode(R2, W - 1) + [Op(AluR(AXor, R1, R1, R2))]
    case Not(_) => [MovI(R2, 0)] + CompareCode(Je, c).code
  }

  lemma UnaryShape(w: World, fuel: nat, e: Expr, c: nat, m: Mem, p: int)
    requires Unary(e)
    ensures var a := ExprCode(w.Near(), e.e, c);
            ExprCode(w.Near(), e, c).code == a.code + UnaryTail(e, a.next)
    ensures var r := Eval(fuel, w.env, e.e, m, p);
            Eval(fuel, w.env, e, m, p) == if r.Val? then Val(UnaryValue(e, r.v), r.m) else Strict(r)
  {
    hide NarrowCode, Convert, NumCode, CompareCode;
    var a := ExprCode(w.Near(), e.e, c);
    if e.BitNot? {
      assert a.code + NumCode(R2, W - 1) + [Op(AluR(AXor, R1, R1, R2))] == a.code + (NumCode(R2, W - 1) + [Op(AluR(AXor, R1, R1, R2))]);
    } else if e.Not? {
      assert a.code + [MovI(R2, 0)] + CompareCode(Je, a.next).code == a.code + ([MovI(R2, 0)] + CompareCode(Je, a.next).code);
    }
  }

  lemma SimBitNotTail(w: World, m: Mem, p: int, s: Mach) returns (n: nat, t: Mach)
    requires Ok(w) && Inv(w, m, p, s) && Ahead(w, s, NumCode(R2, W - 1) + [Op(AluR(AXor, R1, R1, R2))])
    ensures Arrived(w, m, m, p, s, n, t, s.k + |NumCode(R2, W - 1)| + 1)
    ensures t.cpu.regs[R1] == W - 1 - s.cpu.regs[R1]
  {
    hide LineRun, LineStep, Total, Ok, Ahead, Arrived, Agrees, BitOp;
    OkValid(w);
    var code := [Op(AluR(AXor, R1, R1, R2))];
    SplitAhead(w, s, NumCode(R2, W - 1), code);
    n, t := SimNum(w, m, p, s, R2, W - 1);
    ArrivedInv(w, m, m, p, s, n, t, s.k + |NumCode(R2, W - 1)|);
    var t2 := AluRStep(w, m, p, t, code, AXor, R1, R1, R2);
    XorOnes(s.cpu.regs[R1]);
    Onward(w, m, p, s, n, t, t2, code);
    n, t := n + 1, t2;
  }

  lemma SimUnaryTail(w: World, e: Expr, c: nat, m: Mem, p: int, s: Mach) returns (n: nat, t: Mach)
    requires Unary(e) && Ok(w) && Inv(w, m, p, s) && Ahead(w, s, UnaryTail(e, c))
    ensures Arrived(w, m, m, p, s, n, t, s.k + |UnaryTail(e, c)|)
    ensures t.cpu.regs[R1] == UnaryValue(e, s.cpu.regs[R1])
  {
    hide LineRun, LineStep, Total, Ok, Ahead, Arrived, Agrees, Convert;
    OkValid(w);
    match e
    case Cast(_, ty) => n, t := SimNarrow(w, m, p, s, ty, NarrowCode(ty));
    case Neg(_) =>
      t := AluRStep(w, m, p, s, UnaryTail(e, c), ASub, R1, ZR, R1);
      n := 1;
    case BitNot(_) => n, t := SimBitNotTail(w, m, p, s);
    case Not(_) =>
      var cmp := CompareCode(Je, c).code;
      SplitAhead(w, s, [MovI(R2, 0)], cmp);
      var t1 := MovIStep(w, m, p, s, [MovI(R2, 0)], R2, 0);
      var n2, t2 := SimCompare(w, m, p, t1, Je, c);
      Then(w, m, m, m, p, s, 1, t1, t1.k, n2, t2, t1.k + 7);
      n, t := 1 + n2, t2;
  }

  lemma {:induction false} SimUnary(w: World, fuel: nat, e: Expr, c: nat, m: Mem, p: int, s: Mach) returns (n: nat, t: Mach)
    requires Unary(e) && Compiles(e)
    requires Ok(w) && Inv(w, m, p, s) && Ahead(w, s, ExprCode(w.Near(), e, c).code)
    ensures Sim(w, Eval(fuel, w.env, e, m, p), m, p, s, n, t, s.k + |ExprCode(w.Near(), e, c).code|, R1, fuel)
    decreases fuel, e, 8
  {
    hide LineRun, LineStep, Total, Ok, Ahead, Sim, Inv, Arrived, UnaryTail, UnaryValue, ExprCode, Eval;
    OkValid(w);
    InvValid(w, m, p, s);
    UnaryShape(w, fuel, e, c, m, p);
    var a := ExprCode(w.Near(), e.e, c);
    SplitAhead(w, s, a.code, UnaryTail(e, a.next));
    n, t := SimExpr(w, fuel, e.e, c, m, p, s);
    var r := Eval(fuel, w.env, e.e, m, p);
    if !r.Val? {
      SimStrict(w, r, m, p, s, n, t, s.k + |a.code|, R1, fuel, s.k + |ExprCode(w.Near(), e, c).code|, R1);
    } else {
      SimValue(w, r, m, p, s, n, t, s.k + |a.code|, R1, fuel);
      var n2, t2 := SimUnaryTail(w, e, a.next, r.m, p, t);
      Then(w, m, r.m, r.m, p, s, n, t, t.k, n2, t2, t.k + |UnaryTail(e, a.next)|);
      ArrivedInv(w, m, r.m, p, s, n + n2, t2, t.k + |UnaryTail(e, a.next)|);
      MakeSim(w, UnaryValue(e, r.v), m, r.m, p, s, n + n2, t2, t.k + |UnaryTail(e, a.next)|, R1, fuel);
      n, t := n + n2, t2;
    }
  }

  // ---- sequencing and choice ----

  lemma CommaShape(w: World, fuel: nat, e: Expr, c: nat, m: Mem, p: int)
    requires e.Comma?
    ensures var a := ExprCode(w.Near(), e.l, c);
            ExprCode(w.Near(), e, c).code == a.code + ExprCode(w.Near(), e.r, a.next).code
    ensures var r := Eval(fuel, w.env, e.l, m, p);
            Eval(fuel, w.env, e, m, p) == if r.Val? || r.Void? then Eval(fuel, w.env, e.r, r.m, p) else r
  {
  }

  lemma {:induction false} SimComma(w: World, fuel: nat, e: Expr, c: nat, m: Mem, p: int, s: Mach) returns (n: nat, t: Mach)
    requires e.Comma? && Compiles(e)
    requires Ok(w) && Inv(w, m, p, s) && Ahead(w, s, ExprCode(w.Near(), e, c).code)
    ensures Sim(w, Eval(fuel, w.env, e, m, p), m, p, s, n, t, s.k + |ExprCode(w.Near(), e, c).code|, R1, fuel)
    decreases fuel, e, 8
  {
    hide LineRun, LineStep, Total, Ok, Ahead, Sim, Inv, Arrived, Eval, ExprCode;
    OkValid(w);
    InvValid(w, m, p, s);
    CommaShape(w, fuel, e, c, m, p);
    var a := ExprCode(w.Near(), e.l, c);
    var b := ExprCode(w.Near(), e.r, a.next);
    SplitAhead(w, s, a.code, b.code);
    n, t := SimExpr(w, fuel, e.l, c, m, p, s);
    var r := Eval(fuel, w.env, e.l, m, p);
    if r.Val? || r.Void? {
      SimValue(w, r, m, p, s, n, t, s.k + |a.code|, R1, fuel);
      var n2, t2 := SimExpr(w, fuel, e.r, a.next, r.m, p, t);
      SimAfter(w, Eval(fuel, w.env, e, m, p), m, r.m, p, s, n, t, t.k, n2, t2, t.k + |b.code|, R1, fuel);
      n, t := n + n2, t2;
    } else {
      SimStrict(w, r, m, p, s, n, t, s.k + |a.code|, R1, fuel, s.k + |ExprCode(w.Near(), e, c).code|, R1);
    }
  }

  // ---- branching on a condition ----

  // The condition's code and its test against zero.
  lemma {:induction false} SimBranch(w: World, fuel: nat, e: Expr, y: Sym, k: nat, c: nat, m: Mem, p: int, s: Mach, code: seq<Line>)
    returns (n: nat, t: Mach)
    requires Compiles(e) && Ok(w) && Inv(w, m, p, s) && Ahead(w, s, code) && LabelAt(w, k, y)
    requires code == ExprCode(w.Near(), e, c).code + TestCode(Je, y)
    ensures var r := Eval(fuel, w.env, e, m, p);
            if r.Val? then Arrived(w, m, r.m, p, s, n, t, if r.v == 0 then k else s.k + |code|) && Inv(w, r.m, p, t)
            else Sim(w, Strict(r), m, p, s, n, t, 0, R1, fuel)
    decreases fuel, e, 10
  {
    hide LineRun, LineStep, Total, Ok, Ahead, Sim, Inv, Arrived, Eval, ExprCode, LabelAt;
    OkValid(w);
    InvValid(w, m, p, s);
    var a := ExprCode(w.Near(), e, c);
    var test := TestCode(Je, y);
    SplitAhead(w, s, a.code, test);
    n, t := SimExpr(w, fuel, e, c, m, p, s);
    var r := Eval(fuel, w.env, e, m, p);
    if r.Val? {
      SimValue(w, r, m, p, s, n, t, s.k + |a.code|, R1, fuel);
      assert test[..3] == test;
      var n2, t2 := SimTest(w, r.m, p, t, test, Je, y, k);
      ArrivedInv(w, r.m, r.m, p, t, n2, t2, if Holds(Je, t.cpu.regs[R1], 0) then k else t.k + 3);
      Then(w, m, r.m, r.m, p, s, n, t, t.k, n2, t2, t2.k);
      n, t := n + n2, t2;
    } else {
      SimStrict(w, r, m, p, s, n, t, s.k + |a.code|, R1, fuel, 0, R1);
    }
  }

  lemma TernaryShape(w: World, fuel: nat, e: Expr, c: nat, m: Mem, p: int)
    requires e.Ternary?
    ensures var a := ExprCode(w.Near(), e.c, c + 2);
            var b := ExprCode(w.Near(), e.t, a.next);
            var d := ExprCode(w.Near(), e.f, b.next);
            ExprCode(w.Near(), e, c).code
            == (a.code + TestCode(Je, Local(c))) + (b.code + ([Jump(Local(c + 1)), Label(Local(c))] + (d.code + [Label(Local(c + 1))])))
    ensures var r := Eval(fuel, w.env, e.c, m, p);
            Eval(fuel, w.env, e, m, p) ==
            if r.Val? then if r.v != 0 then Eval(fuel, w.env, e.t, r.m, p) else Eval(fuel, w.env, e.f, r.m, p) else Strict(r)
  {
    hide TestCode;
    var a := ExprCode(w.Near(), e.c, c + 2);
    var b := ExprCode(w.Near(), e.t, a.next);
    var d := ExprCode(w.Near(), e.f, b.next);
    var x, y, z := TestCode(Je, Local(c)), [Jump(Local(c + 1)), Label(Local(c))], [Label(Local(c + 1))];
    assert a.code + x + b.code + y + d.code + z == (a.code + x) + (b.code + (y + (d.code + z)));
  }

  // The taken arm, then over the other to the end label.
  lemma {:induction false} SimThen(w: World, fuel: nat, e: Expr, c: nat, d: nat, m: Mem, p: int, s: Mach, k: nat) returns (n: nat, t: Mach)
    requires e.Ternary? && Compiles(e) && Ok(w) && Inv(w, m, p, s) && k == s.k + |ExprCode(w.Near(), e.t, d).code|
    requires Ahead(w, s, ExprCode(w.Near(), e.t, d).code)
    requires CodeAt(w.p, w.env.unit, k, [Jump(Local(c + 1)), Label(Local(c))] + (ExprCode(w.Near(), e.f, ExprCode(w.Near(), e.t, d).next).code + [Label(Local(c + 1))]))
    ensures Sim(w, Eval(fuel, w.env, e.t, m, p), m, p, s, n, t, k + 3 + |ExprCode(w.Near(), e.f, ExprCode(w.Near(), e.t, d).next).code|, R1, fuel)
    decreases fuel, e, 7
  {
    hide LineRun, LineStep, Total, Ok, Ahead, Sim, Inv, Arrived, Eval, ExprCode, LabelAt;
    OkValid(w);
    InvValid(w, m, p, s);
    var b := ExprCode(w.Near(), e.t, d);
    var f := ExprCode(w.Near(), e.f, b.next);
    var y, z := [Jump(Local(c + 1)), Label(Local(c))], [Label(Local(c + 1))];
    var end := k + 2 + |f.code|;
    CodeSplit(w.p, w.env.unit, k, y, f.code + z);
    CodeSplit(w.p, w.env.unit, k + 2, f.code, z);
    LabelOfCode(w, end, z, 0, Local(c + 1));
    n, t := SimExpr(w, fuel, e.t, d, m, p, s);
    var r := Eval(fuel, w.env, e.t, m, p);
    if r.Val? || r.Void? {
      SimValue(w, r, m, p, s, n, t, k, R1, fuel);
      CodeAhead(w, t, y);
      var n2, t2 := JumpStep(w, r.m, p, t, y, Local(c + 1), end);
      InvValid(w, r.m, p, t2);
      CodeAhead(w, t2, z);
      var t3 := MarkStep(w, r.m, p, t2, z);
      Onward(w, r.m, p, t, n2, t2, t3, z);
      Resim(w, r, m, p, s, n, t, k, n2 + 1, t3, end + 1, fuel);
      n, t := n + (n2 + 1), t3;
    } else {
      SimStrict(w, r, m, p, s, n, t, k, R1, fuel, end + 1, R1);
    }
  }

  // A result carried on to a later line with r1 untouched.
  lemma Resim(w: World, r: Res, m: Mem, p: int, s: Mach, n: nat, t: Mach, k: nat, n2: nat, t2: Mach, k2: nat, fuel: nat)
    requires w.p.Valid() && s.cpu.Valid() && (r.Val? || r.Void?) && t.cpu.Valid() && t2.cpu.Valid()
    requires Sim(w, r, m, p, s, n, t, k, R1, fuel) && Arrived(w, r.m, r.m, p, t, n2, t2, k2) && t2.cpu.regs[R1] == t.cpu.regs[R1]
    ensures Sim(w, r, m, p, s, n + n2, t2, k2, R1, fuel)
  {
    hide Arrived;
    Then(w, m, r.m, r.m, p, s, n, t, k, n2, t2, k2);
  }

  // The other arm, entered at its label.
  lemma {:induction false} SimElse(w: World, fuel: nat, e: Expr, c: nat, d: nat, m: Mem, p: int, s: Mach) returns (n: nat, t: Mach)
    requires e.Ternary? && Compiles(e) && Ok(w) && Inv(w, m, p, s)
    requires Ahead(w, s, [Label(Local(c))] + (ExprCode(w.Near(), e.f, d).code + [Label(Local(c + 1))]))
    ensures Sim(w, Eval(fuel, w.env, e.f, m, p), m, p, s, n, t, s.k + 2 + |ExprCode(w.Near(), e.f, d).code|, R1, fuel)
    decreases fuel, e, 7
  {
    hide LineRun, LineStep, Total, Ok, Ahead, Sim, Inv, Arrived, Eval, ExprCode;
    OkValid(w);
    InvValid(w, m, p, s);
    var f := ExprCode(w.Near(), e.f, d);
    var y, z := [Label(Local(c))], [Label(Local(c + 1))];
    SplitAhead(w, s, y, f.code + z);
    var t1 := MarkStep(w, m, p, s, y);
    StepArrived(w, m, p, s, t1, y);
    SplitAhead(w, t1, f.code, z);
    var n2, t2 := SimExpr(w, fuel, e.f, d, m, p, t1);
    var r := Eval(fuel, w.env, e.f, m, p);
    if r.Val? || r.Void? {
      SimValue(w, r, m, p, t1, n2, t2, t1.k + |f.code|, R1, fuel);
      var t3 := MarkStep(w, r.m, p, t2, z);
      StepArrived(w, r.m, p, t2, t3, z);
      Resim(w, r, m, p, t1, n2, t2, t2.k, 1, t3, t2.k + 1, fuel);
      SimAfter(w, r, m, m, p, s, 1, t1, t1.k, n2 + 1, t3, t2.k + 1, R1, fuel);
      n, t := 1 + (n2 + 1), t3;
    } else {
      SimStrict(w, r, m, p, t1, n2, t2, t1.k + |f.code|, R1, fuel, s.k + 2 + |f.code|, R1);
      SimAfter(w, Strict(r), m, m, p, s, 1, t1, t1.k, n2, t2, s.k + 2 + |f.code|, R1, fuel);
      n, t := 1 + n2, t2;
    }
  }

  lemma {:induction false} SimTernary(w: World, fuel: nat, e: Expr, c: nat, m: Mem, p: int, s: Mach) returns (n: nat, t: Mach)
    requires e.Ternary? && Compiles(e)
    requires Ok(w) && Inv(w, m, p, s) && Ahead(w, s, ExprCode(w.Near(), e, c).code)
    ensures Sim(w, Eval(fuel, w.env, e, m, p), m, p, s, n, t, s.k + |ExprCode(w.Near(), e, c).code|, R1, fuel)
    decreases fuel, e, 8
  {
    hide LineRun, LineStep, Total, Ok, Ahead, Sim, Inv, Arrived, Eval, ExprCode, LabelAt;
    OkValid(w);
    InvValid(w, m, p, s);
    TernaryShape(w, fuel, e, c, m, p);
    var a := ExprCode(w.Near(), e.c, c + 2);
    var b := ExprCode(w.Near(), e.t, a.next);
    var d := ExprCode(w.Near(), e.f, b.next);
    var front, x := a.code + TestCode(Je, Local(c)), [Jump(Local(c + 1)), Label(Local(c))];
    var z := d.code + [Label(Local(c + 1))];
    var kb := s.k + |front|;
    var end := s.k + |ExprCode(w.Near(), e, c).code|;
    AheadCode(w, s, ExprCode(w.Near(), e, c).code);
    CodeSplit(w.p, w.env.unit, s.k, front, b.code + (x + z));
    CodeSplit(w.p, w.env.unit, kb, b.code, x + z);
    LabelOfCode(w, kb + |b.code|, x + z, 1, Local(c));
    CodeAhead(w, s, front);
    n, t := SimBranch(w, fuel, e.c, Local(c), kb + |b.code| + 1, c + 2, m, p, s, front);
    var r := Eval(fuel, w.env, e.c, m, p);
    if !r.Val? {
      SimElsewhere(w, Strict(r), m, p, s, n, t, 0, end, fuel);
    } else {
      ArrivedInv(w, m, r.m, p, s, n, t, if r.v == 0 then kb + |b.code| + 1 else kb);
      var n2, t2;
      if r.v != 0 {
        CodeAhead(w, t, b.code);
        n2, t2 := SimThen(w, fuel, e, c, a.next, r.m, p, t, kb + |b.code|);
      } else {
        assert x + z == [Jump(Local(c + 1))] + ([Label(Local(c))] + z);
        CodeSplit(w.p, w.env.unit, kb + |b.code|, [Jump(Local(c + 1))], [Label(Local(c))] + z);
        CodeAhead(w, t, [Label(Local(c))] + z);
        n2, t2 := SimElse(w, fuel, e, c, b.next, r.m, p, t);
      }
      SimAfter(w, Eval(fuel, w.env, e, m, p), m, r.m, p, s, n, t, t.k, n2, t2, end, R1, fuel);
      n, t := n + n2, t2;
    }
  }

  // A result that is not an arrival holds for any line.
  lemma SimElsewhere(w: World, r: Res, m: Mem, p: int, s: Mach, n: nat, t: Mach, k: nat, k': nat, fuel: nat)
    requires w.p.Valid() && s.cpu.Valid() && !r.Val? && !r.Void?
    requires Sim(w, r, m, p, s, n, t, k, R1, fuel)
    ensures Sim(w, r, m, p, s, n, t, k', R1, fuel)
  {
  }

  // The two short-circuit operators differ in the test and the two constants.
  predicate Logical(e: Expr) {
    e.LogAnd? || e.LogOr?
  }

  function Escape(e: Expr): Cond
    requires Logical(e)
  {
    if e.LogAnd? then Je else Jne
  }

  // The end of the code: the value when neither test escaped, then the other.
  function LogicalTail(e: Expr, c: nat): seq<Line>
    requires Logical(e)
  {
    var stay := if e.LogAnd? then 1 else 0;
    [MovI(R1, stay), Jump(Local(c + 1)), Label(Local(c)), MovI(R1, 1 - stay), Label(Local(c + 1))]
  }

  lemma LogicalShape(w: World, fuel: nat, e: Expr, c: nat, m: Mem, p: int)
    requires Logical(e)
    ensures var a := ExprCode(w.Near(), e.l, c + 2);
            var b := ExprCode(w.Near(), e.r, a.next);
            ExprCode(w.Near(), e, c).code == a.code + (TestCode(Escape(e), Local(c)) + (b.code + (TestCode(Escape(e), Local(c)) + LogicalTail(e, c))))
    ensures var r := Eval(fuel, w.env, e.l, m, p);
            var esc := if e.LogAnd? then 0 else 1;
            Eval(fuel, w.env, e, m, p) ==
            if r.Val? then if Holds(Escape(e), r.v, 0) then Val(esc, r.m) else Truth(Eval(fuel, w.env, e.r, r.m, p)) else Strict(r)
  {
    hide TestCode;
    var a := ExprCode(w.Near(), e.l, c + 2);
    var b := ExprCode(w.Near(), e.r, a.next);
    var t := TestCode(Escape(e), Local(c));
    var z := LogicalTail(e, c);
    assert a.code + t + b.code + t + z == a.code + (t + (b.code + (t + z)));
  }

  // At the label: the escape value.
  lemma SimEscape(w: World, e: Expr, c: nat, m: Mem, p: int, s: Mach, k: nat, code: seq<Line>) returns (n: nat, t: Mach)
    requires Logical(e) && Ok(w) && Inv(w, m, p, s) && CodeAt(w.p, w.env.unit, k, code) && code == LogicalTail(e, c)
    requires s.k == k + 2
    ensures Arrived(w, m, m, p, s, n, t, k + 5)
    ensures t.cpu.regs[R1] == if e.LogAnd? then 0 else 1
  {
    hide LineRun, LineStep, Total, Ok, Ahead, Arrived, Agrees;
    OkValid(w);
    CodeFrom(w, k, code, 2, s);
    var t1 := MarkStep(w, m, p, s, code[2..]);
    var t2 := MovIStep(w, m, p, t1, code[2..][1..], R1, if e.LogAnd? then 0 else 1);
    Onward(w, m, p, s, 1, t1, t2, code[2..][1..]);
    t := MarkStep(w, m, p, t2, code[2..][1..][1..]);
    Onward(w, m, p, s, 2, t2, t, code[2..][1..][1..]);
    n := 3;
  }

  // Falling through both tests: the other value, and over the escape.
  lemma SimNoEscape(w: World, e: Expr, c: nat, m: Mem, p: int, s: Mach, code: seq<Line>) returns (n: nat, t: Mach)
    requires Logical(e) && Ok(w) && Inv(w, m, p, s) && Ahead(w, s, code) && code == LogicalTail(e, c)
    ensures Arrived(w, m, m, p, s, n, t, s.k + 5)
    ensures t.cpu.regs[R1] == if e.LogAnd? then 1 else 0
  {
    hide LineRun, LineStep, Total, Ok, Ahead, Arrived, Agrees, LabelAt;
    OkValid(w);
    AheadCode(w, s, code);
    LabelOfCode(w, s.k, code, 4, Local(c + 1));
    var t1 := MovIStep(w, m, p, s, code, R1, if e.LogAnd? then 1 else 0);
    var n2, t2 := JumpStep(w, m, p, t1, code[1..], Local(c + 1), s.k + 4);
    Then(w, m, m, m, p, s, 1, t1, t1.k, n2, t2, s.k + 4);
    CodeFrom(w, s.k, code, 4, t2);
    t := MarkStep(w, m, p, t2, code[4..]);
    Onward(w, m, p, s, 1 + n2, t2, t, code[4..]);
    n := 2 + n2;
  }

  // From a test of r1 to the end: escape or go on.
  lemma SimTestTail(w: World, e: Expr, c: nat, m: Mem, p: int, s: Mach, code: seq<Line>, k: nat, fuel: nat) returns (n: nat, t: Mach)
    requires Logical(e) && Ok(w) && Inv(w, m, p, s) && Ahead(w, s, code)
    requires code == TestCode(Escape(e), Local(c)) + LogicalTail(e, c) && k == s.k + 3
    ensures Sim(w, Val(Bool(s.cpu.regs[R1] != 0), m), m, p, s, n, t, s.k + 8, R1, fuel)
  {
    hide LineRun, LineStep, Total, Ok, Ahead, Arrived, Agrees, LabelAt;
    OkValid(w);
    var tail := LogicalTail(e, c);
    AheadCode(w, s, code);
    CodeSplit(w.p, w.env.unit, s.k, TestCode(Escape(e), Local(c)), tail);
    LabelOfCode(w, k, tail, 2, Local(c));
    assert code[..3] == TestCode(Escape(e), Local(c)) && code[3..] == tail;
    var n1, t1 := SimTest(w, m, p, s, code, Escape(e), Local(c), k + 2);
    var n2;
    if Holds(Escape(e), s.cpu.regs[R1], 0) {
      ArrivedK(w, m, p, s, n1, t1, k + 2);
      n2, t := SimEscape(w, e, c, m, p, t1, k, tail);
    } else {
      ArrivedK(w, m, p, s, n1, t1, s.k + 3);
      n2, t := SimNoEscape(w, e, c, m, p, t1, tail);
    }
    Then(w, m, m, m, p, s, n1, t1, t1.k, n2, t, s.k + 8);
    ArrivedInv(w, m, m, p, s, n1 + n2, t, s.k + 8);
    n := n1 + n2;
  }

  lemma {:induction false} SimLogical(w: World, fuel: nat, e: Expr, c: nat, m: Mem, p: int, s: Mach) returns (n: nat, t: Mach)
    requires Logical(e) && Compiles(e)
    requires Ok(w) && Inv(w, m, p, s) && Ahead(w, s, ExprCode(w.Near(), e, c).code)
    ensures Sim(w, Eval(fuel, w.env, e, m, p), m, p, s, n, t, s.k + |ExprCode(w.Near(), e, c).code|, R1, fuel)
    decreases fuel, e, 8
  {
    hide LineRun, LineStep, Total, Ok, Ahead, Sim, Inv, Arrived, Eval, ExprCode, LogicalTail, TestCode, Holds;
    OkValid(w);
    InvValid(w, m, p, s);
    LogicalShape(w, fuel, e, c, m, p);
    var a := ExprCode(w.Near(), e.l, c + 2);
    var b := ExprCode(w.Near(), e.r, a.next);
    var test, tail := TestCode(Escape(e), Local(c)), LogicalTail(e, c);
    SplitAhead(w, s, a.code, test + (b.code + (test + tail)));
    n, t := SimExpr(w, fuel, e.l, c + 2, m, p, s);
    var r := Eval(fuel, w.env, e.l, m, p);
    var end := s.k + |ExprCode(w.Near(), e, c).code|;
    if !r.Val? {
      SimStrict(w, r, m, p, s, n, t, s.k + |a.code|, R1, fuel, end, R1);
    } else {
      SimValue(w, r, m, p, s, n, t, s.k + |a.code|, R1, fuel);
      var n2, t2 := SimRest(w, fuel, e, c, a.next, r.m, p, t);
      assert TestLen(Escape(e), Local(c)) by { TestIsThree(Escape(e), Local(c)); }
      SimAfter(w, Eval(fuel, w.env, e, m, p), m, r.m, p, s, n, t, t.k, n2, t2, end, R1, fuel);
      n, t := n + n2, t2;
    }
  }

  predicate TestLen(cc: Cond, y: Sym) {
    |TestCode(cc, y)| == 3
  }

  lemma TestIsThree(cc: Cond, y: Sym)
    ensures TestLen(cc, y)
  {
  }

  // After the left operand of a short-circuit operator.
  lemma {:induction false} SimRest(w: World, fuel: nat, e: Expr, c: nat, d: nat, m: Mem, p: int, s: Mach) returns (n: nat, t: Mach)
    requires Logical(e) && Compiles(e)
    requires Ok(w) && Inv(w, m, p, s)
    requires Ahead(w, s, TestCode(Escape(e), Local(c)) + (ExprCode(w.Near(), e.r, d).code + (TestCode(Escape(e), Local(c)) + LogicalTail(e, c))))
    ensures var esc := if e.LogAnd? then 0 else 1;
            Sim(w, if Holds(Escape(e), s.cpu.regs[R1], 0) then Val(esc, m) else Truth(Eval(fuel, w.env, e.r, m, p)),
                m, p, s, n, t, s.k + 3 + |ExprCode(w.Near(), e.r, d).code| + 3 + |LogicalTail(e, c)|, R1, fuel)
    decreases fuel, e, 7
  {
    hide LineRun, LineStep, Total, Ok, Ahead, Sim, Inv, Arrived, Eval, ExprCode, Holds, LabelAt;
    OkValid(w);
    InvValid(w, m, p, s);
    var b := ExprCode(w.Near(), e.r, d);
    var test, tail := TestCode(Escape(e), Local(c)), LogicalTail(e, c);
    var code := test + (b.code + (test + tail));
    var k := s.k + 3 + |b.code| + 3;
    SplitAhead(w, s, test, b.code + (test + tail));
    AheadCode(w, s, code);
    CodeSplit(w.p, w.env.unit, s.k, test, b.code + (test + tail));
    CodeSplit(w.p, w.env.unit, s.k + 3, b.code, test + tail);
    CodeSplit(w.p, w.env.unit, s.k + 3 + |b.code|, test, tail);
    LabelOfCode(w, k, tail, 2, Local(c));
    assert code[..3] == test;
    n, t := SimTest(w, m, p, s, code, Escape(e), Local(c), k + 2);
    if Holds(Escape(e), s.cpu.regs[R1], 0) {
      ArrivedInv(w, m, m, p, s, n, t, k + 2);
      var n2, t2 := SimEscape(w, e, c, m, p, t, k, tail);
      Then(w, m, m, m, p, s, n, t, t.k, n2, t2, k + 5);
      ArrivedInv(w, m, m, p, s, n + n2, t2, k + 5);
      MakeSim(w, if e.LogAnd? then 0 else 1, m, m, p, s, n + n2, t2, k + 5, R1, fuel);
      n, t := n + n2, t2;
    } else {
      ArrivedInv(w, m, m, p, s, n, t, s.k + 3);
      var r := Eval(fuel, w.env, e.r, m, p);
      CodeAhead(w, t, b.code);
      var n2, t2 := SimExpr(w, fuel, e.r, d, m, p, t);
      if r.Val? {
        SimValue(w, r, m, p, t, n2, t2, t.k + |b.code|, R1, fuel);
        CodeAhead(w, t2, test + tail);
        var n3, t3 := SimTestTail(w, e, c, r.m, p, t2, test + tail, k, fuel);
        SimAfter(w, Truth(r), m, r.m, p, t, n2, t2, t2.k, n3, t3, k + 5, R1, fuel);
        SimAfter(w, Truth(r), m, m, p, s, n, t, t.k, n2 + n3, t3, k + 5, R1, fuel);
        n, t := n + (n2 + n3), t3;
      } else {
        SimStrict(w, r, m, p, t, n2, t2, t.k + |b.code|, R1, fuel, k + 5, R1);
        SimAfter(w, Strict(r), m, m, p, s, n, t, t.k, n2, t2, k + 5, R1, fuel);
        n, t := n + n2, t2;
      }
    }
  }

  lemma CodeAhead(w: World, s: Mach, code: seq<Line>)
    requires CodeAt(w.p, w.env.unit, s.k, code)
    ensures Ahead(w, s, code)
  {
  }

  // ---- pushed operands ----

  lemma PushedInv(w: World, m: Mem, p: int, s: Mach, t: Mach, v: Word)
    requires w.p.Valid() && s.cpu.Valid() && Pushed(w, m, p, s, t, v)
    ensures Inv(w, m, p - 4, t) && t.cpu.Valid() && t.k == s.k + 1 && LineRun(w.p, s, 1) == Some(t)
  {
  }

  // A push and a result that never comes back.
  lemma SimPushed(w: World, r: Res, m: Mem, p: int, s: Mach, t1: Mach, v: Word, n: nat, t: Mach, k: nat, reg: Reg, fuel: nat, k': nat, reg': Reg)
    requires w.p.Valid() && s.cpu.Valid() && Pushed(w, m, p, s, t1, v) && t1.cpu.Valid()
    requires !r.Val? && Sim(w, r, m, p - 4, t1, n, t, k, reg, fuel)
    ensures Sim(w, Strict(r), m, p, s, n + 1, t, k', reg', fuel)
  {
    LineRunAdd(w.p, s, 1, n);
  }

  lemma AssignShape(w: World, fuel: nat, e: Expr, c: nat, m: Mem, p: int)
    requires e.Assign? && w.env.meaning.Emitted?
    ensures var a := AddrCode(w.Near(), e.lv, c);
            var b := ExprCode(w.Near(), e.rhs, a.next);
            ExprCode(w.Near(), e, c).code == a.code + ([Push(R9)] + (b.code + ([Pop(R9)] + StoreCode(e.ty))))
    ensures var r := Address(fuel, w.env, e.lv, m, p);
            Eval(fuel, w.env, e, m, p) ==
            if !r.Val? then Strict(r)
            else if p - 4 < w.env.lo || e.ty.kind.Agg? then Stuck
            else var q := Eval(fuel, w.env, e.rhs, r.m, p - 4);
                 if !q.Val? then Strict(q)
                 else match StoreN(q.m, r.v, SizeOf(e.ty), q.v) case None => Stuck case Some(m3) => Val(q.v, m3)
  {
    hide StoreCode, StoreN, Address;
    var a := AddrCode(w.Near(), e.lv, c);
    var b := ExprCode(w.Near(), e.rhs, a.next);
    assert a.code + [Push(R9)] + b.code + [Pop(R9)] + StoreCode(e.ty)
        == a.code + ([Push(R9)] + (b.code + ([Pop(R9)] + StoreCode(e.ty))));
  }

  lemma {:induction false} SimAssign(w: World, fuel: nat, e: Expr, c: nat, m: Mem, p: int, s: Mach) returns (n: nat, t: Mach)
    requires e.Assign? && Compiles(e)
    requires Ok(w) && Inv(w, m, p, s) && Ahead(w, s, ExprCode(w.Near(), e, c).code)
    ensures Sim(w, Eval(fuel, w.env, e, m, p), m, p, s, n, t, s.k + |ExprCode(w.Near(), e, c).code|, R1, fuel)
    decreases fuel, e, 8
  {
    hide LineRun, LineStep, Total, Ok, Ahead, Sim, Inv, Arrived, Eval, ExprCode, AddrCode, Address, StoreCode, StoreN, Addressable, Pushed;
    OkValid(w);
    InvValid(w, m, p, s);
    AssignShape(w, fuel, e, c, m, p);
    var a := AddrCode(w.Near(), e.lv, c);
    var b := ExprCode(w.Near(), e.rhs, a.next);
    var tail := [Pop(R9)] + StoreCode(e.ty);
    var end := s.k + |ExprCode(w.Near(), e, c).code|;
    SplitAhead(w, s, a.code, [Push(R9)] + (b.code + tail));
    n, t := SimAddr(w, fuel, e.lv, c, m, p, s);
    var r := Address(fuel, w.env, e.lv, m, p);
    if !r.Val? {
      SimStrict(w, r, m, p, s, n, t, s.k + |a.code|, R9, fuel, end, R1);
    } else if p - 4 >= w.env.lo && !e.ty.kind.Agg? {
      SimValue(w, r, m, p, s, n, t, s.k + |a.code|, R9, fuel);
      var n2, t2 := SimAssignTail(w, fuel, e, a.next, r, p, t);
      SimAfter(w, Eval(fuel, w.env, e, m, p), m, r.m, p, s, n, t, t.k, n2, t2, end, R1, fuel);
      n, t := n + n2, t2;
    } else {
      SimStuck(w, m, p, s, n, t, end, R1, fuel);
    }
  }

  // The right side between push and pop of the address, then the store.
  lemma {:induction false} SimAssignTail(w: World, fuel: nat, e: Expr, d: nat, r: Res, p: int, s: Mach) returns (n: nat, t: Mach)
    requires e.Assign? && Compiles(e) && r.Val? && p - 4 >= w.env.lo && !e.ty.kind.Agg?
    requires Ok(w) && Inv(w, r.m, p, s) && s.cpu.regs[R9] == r.v
    requires Ahead(w, s, [Push(R9)] + (ExprCode(w.Near(), e.rhs, d).code + ([Pop(R9)] + StoreCode(e.ty))))
    ensures var q := Eval(fuel, w.env, e.rhs, r.m, p - 4);
            Sim(w, if !q.Val? then Strict(q)
                   else match StoreN(q.m, r.v, SizeOf(e.ty), q.v) case None => Stuck case Some(m3) => Val(q.v, m3),
                r.m, p, s, n, t, s.k + 2 + |ExprCode(w.Near(), e.rhs, d).code| + |StoreCode(e.ty)|, R1, fuel)
    decreases fuel, e, 7
  {
    hide LineRun, LineStep, Total, Ok, Ahead, Sim, Inv, Arrived, Eval, ExprCode, StoreN, Pushed;
    OkValid(w);
    InvValid(w, r.m, p, s);
    var b := ExprCode(w.Near(), e.rhs, d);
    var tail := [Pop(R9)] + StoreCode(e.ty);
    var end := s.k + 2 + |b.code| + |StoreCode(e.ty)|;
    SplitAhead(w, s, [Push(R9)], b.code + tail);
    var t1 := PushStep(w, r.m, p, s, [Push(R9)], R9);
    PushedInv(w, r.m, p, s, t1, r.v);
    SplitAhead(w, t1, b.code, tail);
    n, t := SimExpr(w, fuel, e.rhs, d, r.m, p - 4, t1);
    var q := Eval(fuel, w.env, e.rhs, r.m, p - 4);
    if !q.Val? {
      SimPushed(w, q, r.m, p, s, t1, r.v, n, t, t1.k + |b.code|, R1, fuel, end, R1);
      n := n + 1;
    } else {
      SimValue(w, q, r.m, p - 4, t1, n, t, t1.k + |b.code|, R1, fuel);
      SplitAhead(w, t, [Pop(R9)], StoreCode(e.ty));
      var t3 := PopStep(w, r.m, q.m, p, s, t1, r.v, n, t, [Pop(R9)], R9);
      ArrivedInv(w, r.m, q.m, p, s, n + 2, t3, t.k + 1);
      if StoreN(q.m, r.v, SizeOf(e.ty), q.v).Some? {
        WidthOfSize(e.ty);
        var t4 := SimStore(w, q.m, p, t3, StoreCode(e.ty), WidthOfTy(e.ty), SizeOf(e.ty));
        var m3 := StoreN(q.m, r.v, SizeOf(e.ty), q.v).value;
        Then(w, r.m, q.m, m3, p, s, n + 2, t3, t3.k, 1, t4, t3.k + 1);
        ArrivedInv(w, r.m, m3, p, s, n + 3, t4, t3.k + 1);
        MakeSim(w, q.v, r.m, m3, p, s, n + 3, t4, t3.k + 1, R1, fuel);
        n, t := n + 3, t4;
      } else {
        SimStuck(w, r.m, p, s, n, t, end, R1, fuel);
      }
    }
  }

  lemma SimStuck(w: World, m: Mem, p: int, s: Mach, n: nat, t: Mach, k: nat, reg: Reg, fuel: nat)
    requires w.p.Valid() && s.cpu.Valid()
    ensures Sim(w, Stuck, m, p, s, n, t, k, reg, fuel)
  {
  }

  // ---- calls ----

  // The argument words have been pushed: vals lie at p - 4|vals|.
  ghost predicate ArgsDone(w: World, m: Mem, m': Mem, p: int, s: Mach, n: nat, t: Mach, k: nat, vals: seq<Word>) {
    && w.p.Valid() && s.cpu.Valid()
    && LineRun(w.p, s, n) == Some(t) && t.k == k && m'.Keys == m.Keys
    && Inv(w, m, p, s) && Inv(w, m', p - 4 * |vals|, t)
    && Keeps(w, m, p, s.cpu.mem, t.cpu.mem)
    && ArgsOn(vals, p - 4 * |vals|, t.cpu.mem)
  }

  lemma NoArgsDone(w: World, m: Mem, m': Mem, p: int, s: Mach, n: nat, t: Mach, k: nat)
    requires w.p.Valid() && 0 <= w.env.lo && Inv(w, m, p, s) && Arrived(w, m, m', p, s, n, t, k)
    ensures ArgsDone(w, m, m', p, s, n, t, k, [])
  {
    hide OffCode, LineRun;
  }

  lemma ArgsInv(w: World, m: Mem, m': Mem, p: int, s: Mach, n: nat, t: Mach, k: nat, vals: seq<Word>)
    requires w.p.Valid() && s.cpu.Valid() && ArgsDone(w, m, m', p, s, n, t, k, vals)
    ensures Inv(w, m', p - 4 * |vals|, t) && t.cpu.Valid() && t.k == k && m'.Keys == m.Keys && LineRun(w.p, s, n) == Some(t)
  {
  }

  // Free stack above the current stack pointer holds no program memory.
  lemma FreeAbove(w: World, m: Mem, m': Mem, p: int, q: int, mem: seq<Byte>)
    requires Agrees(w, m, p, mem) && m'.Keys == m.Keys && w.env.lo <= q <= p
    ensures forall i | q <= i < p :: i !in m'
  {
    hide OffCode;
    forall i | q <= i < p ensures i !in m' {
      assert i !in m;
    }
  }

  lemma KeepsLower(w: World, m: Mem, m': Mem, p: int, q: int, a: seq<Byte>, b: seq<Byte>, c: seq<Byte>)
    requires Keeps(w, m, p, a, b) && m'.Keys == m.Keys && q <= p && Keeps(w, m', q, b, c)
    ensures Keeps(w, m, p, a, c)
  {
  }

  // One more argument: evaluated below the others, then pushed.
  lemma ArgPush(w: World, m: Mem, m1: Mem, m2: Mem, p: int, s: Mach, n: nat, t: Mach, vals: seq<Word>, n2: nat, t2: Mach, t3: Mach, v: Word)
    requires w.p.Valid() && w.p.host.floor <= w.env.lo && s.cpu.Valid() && t.cpu.Valid() && t2.cpu.Valid()
    requires ArgsDone(w, m, m1, p, s, n, t, t.k, vals)
    requires Arrived(w, m1, m2, p - 4 * |vals|, t, n2, t2, t2.k)
    requires Pushed(w, m2, p - 4 * |vals|, t2, t3, v)
    ensures ArgsDone(w, m, m2, p, s, n + n2 + 1, t3, t2.k + 1, [v] + vals)
  {
    hide Agrees, Keeps, LineRun, LineStep, Read, Total;
    var q := p - 4 * |vals|;
    LineRunAdd(w.p, s, n, n2);
    LineRunAdd(w.p, s, n + n2, 1);
    KeepsLower(w, m, m1, p, q, s.cpu.mem, t.cpu.mem, t2.cpu.mem) by { ArgsBelow(w, m1, q, t, p, vals); }
    KeepsLower(w, m, m2, p, q, s.cpu.mem, t2.cpu.mem, t3.cpu.mem) by { ArgsBelow(w, m1, q, t, p, vals); }
    LowStack(w, m1, q, t);
    FreeAbove(w, m, m1, p, q, s.cpu.mem);
    FreeAbove(w, m, m2, p, q, s.cpu.mem);
    ArgsKept(w, m1, q, t.cpu.mem, t2.cpu.mem, vals, q);
    ArgsKept(w, m2, q, t2.cpu.mem, t3.cpu.mem, vals, q);
    ArgsCons(v, vals, q, t3.cpu.mem);
    assert p - 4 * |[v] + vals| == q - 4;
  }

  lemma ArgsBelow(w: World, m: Mem, q: int, t: Mach, p: int, vals: seq<Word>)
    requires q == p - 4 * |vals|
    ensures q <= p
  {
  }

  lemma ArgsCons(v: Word, vals: seq<Word>, q: int, mem: seq<Byte>)
    requires ArgsOn(vals, q, mem) && q >= 4 && Read(mem, q - 4, 4) == Some(v)
    ensures ArgsOn([v] + vals, q - 4, mem)
  {
    hide Read;
    var all := [v] + vals;
    forall i | 0 <= i < |all| ensures Read(mem, q - 4 + 4 * i, 4) == Some(all[i]) {
      if i > 0 {
        assert Read(mem, q + 4 * (i - 1), 4) == Some(vals[i - 1]);
      }
    }
  }

  // After the call the arguments are dropped again.
  lemma SimClean(w: World, m: Mem, m': Mem, p: int, s: Mach, t: Mach, count: nat, code: seq<Line>) returns (n: nat, t2: Mach)
    requires Ok(w) && Inv(w, m, p, s) && m'.Keys == m.Keys && |t.cpu.mem| == |s.cpu.mem|
    requires Inv(w, m', p - 4 * count, t) && Ahead(w, t, code) && code == CleanCode(count)
    ensures LineRun(w.p, t, n) == Some(t2) && t2.k == t.k + |code| && t2.cpu.mem == t.cpu.mem
    ensures Inv(w, m', p, t2) && t2.cpu.regs[R1] == t.cpu.regs[R1]
  {
    hide LineRun, LineStep, Total, Ok, Ahead, Agrees;
    OkValid(w);
    CleanAgrees(w, m, m', p, p - 4 * count, s.cpu.mem, t.cpu.mem);
    if count == 0 {
      RunZero(w.p, t);
      n, t2 := 0, t;
    } else {
      Head(w, t, code);
      OkLines(w);
      assert Emit(w.p.rows[t.k], w.p.syms, w.p.poll, w.p.gate).Some?;
      OneInsn(w.p, t, AluI(AAdd, SP, SP, 4 * count));
      t2 := Mach(t.k + 1, Exec(AluI(AAdd, SP, SP, 4 * count), t.cpu).s);
      LowStack(w, m, p, s);
      InvPc(w, m', p - 4 * count, t);
      AddrNext(w.p, t.k);
      n := 1;
    }
  }

  lemma InvPc(w: World, m: Mem, p: int, s: Mach)
    requires Inv(w, m, p, s)
    ensures s.cpu.Valid() && s.k <= |w.p.rows| && s.cpu.pc == w.p.Addr(s.k) && s.cpu.regs[SP] == p
  {
  }

  lemma CleanAgrees(w: World, m: Mem, m': Mem, p: int, q: int, mem0: seq<Byte>, mem: seq<Byte>)
    requires Agrees(w, m, p, mem0) && Agrees(w, m', q, mem) && m'.Keys == m.Keys && q <= p && |mem| == |mem0|
    ensures Agrees(w, m', p, mem)
  {
    hide OffCode;
    forall a | a in m' ensures !(w.env.lo <= a < p) {
      assert a in m;
    }
  }

  // From the pushed arguments through the call to the cleaned stack.
  lemma AfterCall(w: World, r: Res, m: Mem, m1: Mem, p: int, s: Mach, n: nat, t: Mach, vals: seq<Word>, n2: nat, t2: Mach, code: seq<Line>, fuel: nat)
    returns (n3: nat, t3: Mach)
    requires Ok(w) && s.cpu.Valid() && t.cpu.Valid() && ArgsDone(w, m, m1, p, s, n, t, t.k, vals)
    requires Sim(w, r, m1, p - 4 * |vals|, t, n2, t2, t.k + 1, R1, fuel)
    requires t2.k == t.k + 1 ==> Ahead(w, t2, code)
    requires code == CleanCode(|vals|)
    ensures Sim(w, r, m, p, s, n3, t3, t.k + 1 + |code|, R1, fuel)
  {
    hide LineRun, LineStep, Total, Ok, Ahead, Keeps, Agrees, Inv;
    OkValid(w);
    LineRunAdd(w.p, s, n, n2) by { ArgsInv(w, m, m1, p, s, n, t, t.k, vals); }
    n3, t3 := n + n2, t2;
    if r.Val? || r.Void? {
      SimValue(w, r, m1, p - 4 * |vals|, t, n2, t2, t.k + 1, R1, fuel);
      KeepsSize(w, m, p, s.cpu.mem, t.cpu.mem);
      KeepsSize(w, m1, p - 4 * |vals|, t.cpu.mem, t2.cpu.mem);
      var n4;
      n4, t3 := SimClean(w, m, r.m, p, s, t2, |vals|, code);
      KeepsLower(w, m, m1, p, p - 4 * |vals|, s.cpu.mem, t.cpu.mem, t2.cpu.mem);
      LineRunAdd(w.p, s, n + n2, n4);
      InvPc(w, r.m, p, t3);
      n3 := n + n2 + n4;
    }
  }

  lemma KeepsSize(w: World, m: Mem, p: int, a: seq<Byte>, b: seq<Byte>)
    requires Keeps(w, m, p, a, b)
    ensures |a| == |b|
  {
  }

  // ---- binary operators ----

  lemma BinShape(w: World, fuel: nat, e: Expr, c: nat, m: Mem, p: int)
    requires e.Bin?
    ensures var b := ExprCode(w.Near(), e.r, c);
            var a := ExprCode(w.Near(), e.l, b.next);
            ExprCode(w.Near(), e, c).code == b.code + ([Push(R1)] + (a.code + ([Pop(R2)] + BinCode(e.op, a.next).code)))
    ensures var r := Eval(fuel, w.env, e.r, m, p);
            Eval(fuel, w.env, e, m, p) ==
            if !r.Val? then Strict(r)
            else if p - 4 < w.env.lo then Stuck
            else var q := Eval(fuel, w.env, e.l, r.m, p - 4);
                 if !q.Val? then Strict(q) else BinResult(fuel, w.env, e.op, q.v, r.v, q.m, p)
  {
    hide BinCode, Apply;
    var b := ExprCode(w.Near(), e.r, c);
    var a := ExprCode(w.Near(), e.l, b.next);
    var d := BinCode(e.op, a.next);
    assert b.code + [Push(R1)] + a.code + [Pop(R2)] + d.code == b.code + ([Push(R1)] + (a.code + ([Pop(R2)] + d.code)));
  }

  // The result of an operator on two values.
  function BinResult(fuel: nat, env: Env, op: BinOp, x: Word, y: Word, m: Mem, p: int): Res {
    match Routine(op)
    case None => Val(Apply(op, x, y), m)
    case Some(f) =>
      if p - 8 < env.lo then Stuck else if fuel == 0 then Timeout else Strict(CallFn(fuel - 1, env, f, [x, y], m, p))
  }

  lemma {:induction false} SimBin(w: World, fuel: nat, e: Expr, c: nat, m: Mem, p: int, s: Mach) returns (n: nat, t: Mach)
    requires e.Bin? && Compiles(e)
    requires Ok(w) && Inv(w, m, p, s) && Ahead(w, s, ExprCode(w.Near(), e, c).code)
    ensures Sim(w, Eval(fuel, w.env, e, m, p), m, p, s, n, t, s.k + |ExprCode(w.Near(), e, c).code|, R1, fuel)
    decreases fuel, e, 8
  {
    hide LineRun, LineStep, Total, Ok, Ahead, Sim, Inv, Arrived, Eval, ExprCode, BinCode, BinResult;
    OkValid(w);
    InvValid(w, m, p, s);
    BinShape(w, fuel, e, c, m, p);
    var b := ExprCode(w.Near(), e.r, c);
    var a := ExprCode(w.Near(), e.l, b.next);
    var tail := [Push(R1)] + (a.code + ([Pop(R2)] + BinCode(e.op, a.next).code));
    var end := s.k + |b.code| + |tail|;
    SplitAhead(w, s, b.code, tail);
    n, t := SimExpr(w, fuel, e.r, c, m, p, s);
    var r := Eval(fuel, w.env, e.r, m, p);
    if !r.Val? {
      SimStrict(w, r, m, p, s, n, t, s.k + |b.code|, R1, fuel, end, R1);
    } else if p - 4 >= w.env.lo {
      SimValue(w, r, m, p, s, n, t, s.k + |b.code|, R1, fuel);
      var n2, t2 := SimBinTail(w, fuel, e, b.next, r, p, t);
      SimAfter(w, Eval(fuel, w.env, e, m, p), m, r.m, p, s, n, t, t.k, n2, t2, end, R1, fuel);
      n, t := n + n2, t2;
    } else {
      SimStuck(w, m, p, s, n, t, end, R1, fuel);
    }
  }

  // The left operand between push and pop of the right one, then the operator.
  lemma {:induction false} SimBinTail(w: World, fuel: nat, e: Expr, d: nat, r: Res, p: int, s: Mach) returns (n: nat, t: Mach)
    requires e.Bin? && Compiles(e) && r.Val? && p - 4 >= w.env.lo
    requires Ok(w) && Inv(w, r.m, p, s) && s.cpu.regs[R1] == r.v
    requires Ahead(w, s, [Push(R1)] + (ExprCode(w.Near(), e.l, d).code + ([Pop(R2)] + BinCode(e.op, ExprCode(w.Near(), e.l, d).next).code)))
    ensures var q := Eval(fuel, w.env, e.l, r.m, p - 4);
            Sim(w, if !q.Val? then Strict(q) else BinResult(fuel, w.env, e.op, q.v, r.v, q.m, p), r.m, p, s, n, t,
                s.k + 2 + |ExprCode(w.Near(), e.l, d).code| + |BinCode(e.op, ExprCode(w.Near(), e.l, d).next).code|, R1, fuel)
    decreases fuel, e, 7
  {
    hide LineRun, LineStep, Total, Ok, Ahead, Sim, Inv, Arrived, Eval, ExprCode, Pushed, BinCode, BinResult;
    OkValid(w);
    InvValid(w, r.m, p, s);
    var a := ExprCode(w.Near(), e.l, d);
    var op := BinCode(e.op, a.next).code;
    var end := s.k + 2 + |a.code| + |op|;
    SplitAhead(w, s, [Push(R1)], a.code + ([Pop(R2)] + op));
    var t1 := PushStep(w, r.m, p, s, [Push(R1)], R1);
    PushedInv(w, r.m, p, s, t1, r.v);
    SplitAhead(w, t1, a.code, [Pop(R2)] + op);
    n, t := SimExpr(w, fuel, e.l, d, r.m, p - 4, t1);
    var q := Eval(fuel, w.env, e.l, r.m, p - 4);
    if !q.Val? {
      SimPushed(w, q, r.m, p, s, t1, r.v, n, t, t1.k + |a.code|, R1, fuel, end, R1);
      n := n + 1;
    } else {
      SimValue(w, q, r.m, p - 4, t1, n, t, t1.k + |a.code|, R1, fuel);
      SplitAhead(w, t, [Pop(R2)], op);
      var t3 := PopStep(w, r.m, q.m, p, s, t1, r.v, n, t, [Pop(R2)], R2);
      ArrivedInv(w, r.m, q.m, p, s, n + 2, t3, t.k + 1);
      var n4, t4 := SimOperator(w, fuel, e, a.next, q.m, p, t3);
      SimAfter(w, BinResult(fuel, w.env, e.op, q.v, r.v, q.m, p), r.m, q.m, p, s, n + 2, t3, t3.k, n4, t4, end, R1, fuel);
      n, t := n + 2 + n4, t4;
    }
  }

  // r1 op r2, by an instruction, a comparison or a runtime routine.
  lemma {:induction false} SimOperator(w: World, fuel: nat, e: Expr, c: nat, m: Mem, p: int, s: Mach) returns (n: nat, t: Mach)
    requires e.Bin? && Ok(w) && Inv(w, m, p, s) && Ahead(w, s, BinCode(e.op, c).code)
    ensures Sim(w, BinResult(fuel, w.env, e.op, s.cpu.regs[R1], s.cpu.regs[R2], m, p), m, p, s, n, t,
                s.k + |BinCode(e.op, c).code|, R1, fuel)
    decreases fuel, e, 6
  {
    hide LineRun, LineStep, Total, Ok, Ahead, Sim, Inv, Arrived, Pushed, ArgsDone, CallFn, Apply, CallCode;
    OkValid(w);
    InvValid(w, m, p, s);
    var x, y := s.cpu.regs[R1], s.cpu.regs[R2];
    var end := s.k + |BinCode(e.op, c).code|;
    if Routine(e.op).None? {
      n, t := SimApply(w, m, p, s, e.op, c);
      ArrivedInv(w, m, m, p, s, n, t, end);
      MakeSim(w, Apply(e.op, x, y), m, m, p, s, n, t, end, R1, fuel);
    } else {
      var f := Routine(e.op).value;
      RoutineCode(e.op, c);
      if p - 8 < w.env.lo {
        n, t := 0, s;
        SimStuck(w, m, p, s, n, t, end, R1, fuel);
      } else if fuel == 0 {
        n, t := 0, s;
        RunZero(w.p, s);
        SimTimeout(w, m, p, s, 0, s, end, R1, 0);
      } else {
        n, t := SimRoutine(w, fuel, e, f, x, y, m, p, s);
      }
    }
  }

  lemma RoutineCode(op: BinOp, c: nat)
    requires Routine(op).Some?
    ensures BinCode(op, c).code == CallCode(Routine(op).value) && |CallCode(Routine(op).value)| == 4
  {
  }

  // push r2; push r1; call; drop both.
  lemma {:induction false} SimRoutine(w: World, fuel: nat, e: Expr, f: string, x: Word, y: Word, m: Mem, p: int, s: Mach) returns (n: nat, t: Mach)
    requires fuel > 0 && Ok(w) && Inv(w, m, p, s) && Ahead(w, s, CallCode(f)) && p - 8 >= w.env.lo
    requires s.cpu.regs[R1] == x && s.cpu.regs[R2] == y
    ensures Sim(w, Strict(CallFn(fuel - 1, w.env, f, [x, y], m, p)), m, p, s, n, t, s.k + 4, R1, fuel)
    decreases fuel, e, 5
  {
    hide LineRun, LineStep, Total, Ok, Ahead, Sim, Inv, Arrived, Pushed, ArgsDone, CallFn;
    OkValid(w);
    InvValid(w, m, p, s);
    var code := CallCode(f);
    var t1 := PushStep(w, m, p, s, code, R2);
    PushedInv(w, m, p, s, t1, y);
    Stay(w, m, p, s);
    NoArgsDone(w, m, m, p, s, 0, s, s.k);
    ArgPush(w, m, m, m, p, s, 0, s, [], 0, s, t1, y);
    Stay(w, m, p - 4, t1);
    var t2 := PushStep(w, m, p - 4, t1, code[1..], R1);
    PushedInv(w, m, p - 4, t1, t2, x);
    assert [y] + [] == [y];
    ArgPush(w, m, m, m, p, s, 1, t1, [y], 0, t1, t2, x);
    assert [x] + [y] == [x, y];
    Head(w, t2, code[1..][1..]);
    var n3, t3 := SimCall(w, fuel - 1, f, [x, y], m, p, s, 2, t2, m, code[1..][1..]);
    var r := CallFn(fuel - 1, w.env, f, [x, y], m, p);
    assert code[1..][1..][1..] == CleanCode(2);
    n, t := AfterCall(w, r, m, m, p, s, 2, t2, [x, y], n3, t3, CleanCode(2), fuel);
    if !r.Val? {
      SimStrict(w, r, m, p, s, n, t, s.k + 4, R1, fuel, s.k + 4, R1);
    }
  }

  // ---- call expressions ----

  lemma CallShape(w: World, fuel: nat, e: Expr, c: nat, m: Mem, p: int)
    requires e.Call?
    ensures var a := ArgsCode(w.Near(), e.args, c);
            ExprCode(w.Near(), e, c).code == a.code + ([CallTo(Name(e.name))] + CleanCode(e.args.Count()))
    ensures var r := EvalArgs(fuel, w.env, e.args, m, p);
            Eval(fuel, w.env, e, m, p) ==
            match r
            case Vals(vs, m1) => if fuel == 0 then Timeout else CallFn(fuel - 1, w.env, e.name, vs, m1, p)
            case ArgStuck => Stuck
            case ArgTimeout => Timeout
  {
    hide CleanCode, CallFn, EvalArgs;
    var a := ArgsCode(w.Near(), e.args, c);
    assert a.code + [CallTo(Name(e.name))] + CleanCode(e.args.Count()) == a.code + ([CallTo(Name(e.name))] + CleanCode(e.args.Count()));
  }

  lemma {:induction false} SimCallExpr(w: World, fuel: nat, e: Expr, c: nat, m: Mem, p: int, s: Mach) returns (n: nat, t: Mach)
    requires e.Call? && Compiles(e)
    requires Ok(w) && Inv(w, m, p, s) && Ahead(w, s, ExprCode(w.Near(), e, c).code)
    ensures Sim(w, Eval(fuel, w.env, e, m, p), m, p, s, n, t, s.k + |ExprCode(w.Near(), e, c).code|, R1, fuel)
    decreases fuel, e, 8
  {
    hide LineRun, LineStep, Total, Ok, Ahead, Sim, Inv, ArgsDone, CallFn, Eval, EvalArgs, ExprCode, ArgsCode, CleanCode;
    OkValid(w);
    InvValid(w, m, p, s);
    CallShape(w, fuel, e, c, m, p);
    var a := ArgsCode(w.Near(), e.args, c);
    var tail := [CallTo(Name(e.name))] + CleanCode(e.args.Count());
    var end := s.k + |a.code| + |tail|;
    SplitAhead(w, s, a.code, tail);
    n, t := SimArgs(w, fuel, e.args, c, m, p, s);
    match EvalArgs(fuel, w.env, e.args, m, p)
    case ArgStuck => SimStuck(w, m, p, s, n, t, end, R1, fuel);
    case ArgTimeout => SimTimeout(w, m, p, s, n, t, end, R1, fuel);
    case Vals(vs, m1) =>
      ArgsInv(w, m, m1, p, s, n, t, s.k + |a.code|, vs);
      if fuel == 0 {
        SimTimeout(w, m, p, s, n, t, end, R1, fuel);
      } else {
        SplitAhead(w, t, [CallTo(Name(e.name))], CleanCode(e.args.Count()));
        var n2, t2 := SimCall(w, fuel - 1, e.name, vs, m, p, s, n, t, m1, [CallTo(Name(e.name))]);
        var r := CallFn(fuel - 1, w.env, e.name, vs, m1, p);
        n, t := AfterCall(w, r, m, m1, p, s, n, t, vs, n2, t2, CleanCode(|vs|), fuel);
      }
  }

  lemma ArgsShape(w: World, fuel: nat, args: Args, c: nat, m: Mem, p: int)
    requires args.Arg?
    ensures var b := ArgsCode(w.Near(), args.tail, c);
            var a := ExprCode(w.Near(), args.head, b.next);
            ArgsCode(w.Near(), args, c).code == b.code + (a.code + [Push(R1)])
    ensures var r := EvalArgs(fuel, w.env, args.tail, m, p);
            EvalArgs(fuel, w.env, args, m, p) ==
            if !r.Vals? then r
            else match Eval(fuel, w.env, args.head, r.m, p - 4 * |r.vs|)
                 case Val(v, m2) => if p - 4 * |r.vs| - 4 < w.env.lo then ArgStuck else Vals([v] + r.vs, m2)
                 case Void(_) => ArgStuck
                 case Stuck => ArgStuck
                 case Timeout => ArgTimeout
  {
    hide Eval, ExprCode;
    var b := ArgsCode(w.Near(), args.tail, c);
    var a := ExprCode(w.Near(), args.head, b.next);
    assert b.code + a.code + [Push(R1)] == b.code + (a.code + [Push(R1)]);
  }

  // Arguments are evaluated last one first and pushed.
  lemma {:induction false} SimArgs(w: World, fuel: nat, args: Args, c: nat, m: Mem, p: int, s: Mach) returns (n: nat, t: Mach)
    requires CompilesArgs(args) && Ok(w) && Inv(w, m, p, s) && Ahead(w, s, ArgsCode(w.Near(), args, c).code)
    ensures match EvalArgs(fuel, w.env, args, m, p)
            case Vals(vs, m') => ArgsDone(w, m, m', p, s, n, t, s.k + |ArgsCode(w.Near(), args, c).code|, vs)
            case ArgStuck => true
            case ArgTimeout => LineRun(w.p, s, n).Some? && n >= fuel
    decreases fuel, args, 5
  {
    hide LineRun, LineStep, Total, Ok, Ahead, Inv, ArgsDone, Eval, ExprCode, Sim, Pushed, Arrived;
    OkValid(w);
    InvValid(w, m, p, s);
    if args.NoArgs? {
      Stay(w, m, p, s);
      NoArgsDone(w, m, m, p, s, 0, s, s.k);
      n, t := 0, s;
    } else {
      ArgsShape(w, fuel, args, c, m, p);
      var b := ArgsCode(w.Near(), args.tail, c);
      var a := ExprCode(w.Near(), args.head, b.next);
      SplitAhead(w, s, b.code, a.code + [Push(R1)]);
      n, t := SimArgs(w, fuel, args.tail, c, m, p, s);
      var r := EvalArgs(fuel, w.env, args.tail, m, p);
      if r.Vals? {
        ArgsInv(w, m, r.m, p, s, n, t, s.k + |b.code|, r.vs);
        SplitAhead(w, t, a.code, [Push(R1)]);
        var q := p - 4 * |r.vs|;
        var n2, t2 := SimExpr(w, fuel, args.head, b.next, r.m, q, t);
        var z := Eval(fuel, w.env, args.head, r.m, q);
        LineRunAdd(w.p, s, n, n2);
        if z.Val? && q - 4 >= w.env.lo {
          SimValue(w, z, r.m, q, t, n2, t2, t.k + |a.code|, R1, fuel);
          var t3 := PushStep(w, z.m, q, t2, [Push(R1)], R1);
          ArgPush(w, m, r.m, z.m, p, s, n, t, r.vs, n2, t2, t3, z.v);
          n, t := n + n2 + 1, t3;
        } else if z.Timeout? {
          SimIsTimeout(w, z, r.m, q, t, n2, t2, t.k + |a.code|, R1, fuel);
          n := n + n2;
        }
      }
    }
  }

  lemma SimIsTimeout(w: World, r: Res, m: Mem, p: int, s: Mach, n: nat, t: Mach, k: nat, reg: Reg, fuel: nat)
    requires w.p.Valid() && s.cpu.Valid() && r.Timeout? && Sim(w, r, m, p, s, n, t, k, reg, fuel)
    ensures LineRun(w.p, s, n).Some? && n >= fuel
  {
  }

  // ---- addresses ----

  lemma MemberShape(w: World, fuel: nat, e: Expr, c: nat, m: Mem, p: int)
    requires e.Member?
    ensures var g := if e.base.Deref? then ExprCode(w.Near(), e.base.e, c)
                     else if e.base.Call? then ExprCode(w.Near(), e.base, c)
                     else AddrCode(w.Near(), e.base, c);
            AddrCode(w.Near(), e, c).code == g.code + OffsetCode(if e.base.Deref? || e.base.Call? then R1 else R9, e.off)
    ensures var r := if e.base.Deref? then Eval(fuel, w.env, e.base.e, m, p)
                     else if e.base.Call? then Eval(fuel, w.env, e.base, m, p)
                     else Address(fuel, w.env, e.base, m, p);
            Address(fuel, w.env, e, m, p) == if r.Val? then Val(Wrap(r.v + e.off), r.m) else Strict(r)
  {
    hide ExprCode, Eval, OffsetCode;
  }

  lemma {:induction false} SimAddr(w: World, fuel: nat, e: Expr, c: nat, m: Mem, p: int, s: Mach) returns (n: nat, t: Mach)
    requires Ok(w) && Inv(w, m, p, s) && Addressable(e) && Ahead(w, s, AddrCode(w.Near(), e, c).code)
    ensures Sim(w, Address(fuel, w.env, e, m, p), m, p, s, n, t, s.k + |AddrCode(w.Near(), e, c).code|, R9, fuel)
    decreases fuel, e, 6
  {
    hide LineRun, LineStep, Total, Ok, Ahead, Sim, Inv, Arrived, ExprCode, Eval, GlobalAddr;
    OkValid(w);
    InvValid(w, m, p, s);
    match e
    case Var(off, _) =>
      t := AluIStep(w, m, p, s, AddrCode(w.Near(), e, c).code, ASub, R9, R10, off);
      n := 1;
      StepSim(w, Wrap(w.env.fb - off), m, p, s, t, AddrCode(w.Near(), e, c).code, R9, fuel);
    case GVar(name, _) =>
      if (w.env.unit, Name(name)) in w.env.syms {
        n, t := SimGlobal(w, m, p, s, name);
        ArrivedInv(w, m, m, p, s, n, t, s.k + |GlobalAddr(w.Near(), name)|);
        MakeSim(w, w.env.syms[(w.env.unit, Name(name))], m, m, p, s, n, t, s.k + |GlobalAddr(w.Near(), name)|, R9, fuel);
      } else {
        n, t := 0, s;
        SimStuck(w, m, p, s, n, t, s.k + |AddrCode(w.Near(), e, c).code|, R9, fuel);
      }
    case Deref(x, _) => n, t := SimDerefAddr(w, fuel, e, c, m, p, s);
    case Member(b, off, _) => n, t := SimMember(w, fuel, e, c, m, p, s);
  }

  lemma {:induction false} SimDerefAddr(w: World, fuel: nat, e: Expr, c: nat, m: Mem, p: int, s: Mach) returns (n: nat, t: Mach)
    requires e.Deref? && Ok(w) && Inv(w, m, p, s) && Addressable(e) && Ahead(w, s, AddrCode(w.Near(), e, c).code)
    ensures Sim(w, Address(fuel, w.env, e, m, p), m, p, s, n, t, s.k + |AddrCode(w.Near(), e, c).code|, R9, fuel)
    decreases fuel, e, 5
  {
    hide LineRun, LineStep, Total, Ok, Ahead, Sim, Inv, Arrived, ExprCode, Eval;
    OkValid(w);
    InvValid(w, m, p, s);
    var a := ExprCode(w.Near(), e.e, c);
    var tail := [MovR(R9, R1)];
    SplitAhead(w, s, a.code, tail);
    n, t := SimExpr(w, fuel, e.e, c, m, p, s);
    var r := Eval(fuel, w.env, e.e, m, p);
    if r.Val? {
      SimValue(w, r, m, p, s, n, t, s.k + |a.code|, R1, fuel);
      var t2 := MovRStep(w, r.m, p, t, tail, R9, R1);
      StepSim(w, r.v, r.m, p, t, t2, tail, R9, fuel);
      SimAfter(w, r, m, r.m, p, s, n, t, t.k, 1, t2, t.k + 1, R9, fuel);
      n, t := n + 1, t2;
    } else {
      SimStrict(w, r, m, p, s, n, t, s.k + |a.code|, R1, fuel, s.k + |a.code| + 1, R9);
    }
  }

  // A member's address: the object's address, or a pointer's value, plus the offset.
  lemma {:induction false} SimMember(w: World, fuel: nat, e: Expr, c: nat, m: Mem, p: int, s: Mach) returns (n: nat, t: Mach)
    requires e.Member? && Ok(w) && Inv(w, m, p, s) && Addressable(e) && Ahead(w, s, AddrCode(w.Near(), e, c).code)
    ensures Sim(w, Address(fuel, w.env, e, m, p), m, p, s, n, t, s.k + |AddrCode(w.Near(), e, c).code|, R9, fuel)
    decreases fuel, e, 5
  {
    hide LineRun, LineStep, Total, Ok, Ahead, Sim, Inv, Arrived, ExprCode, Eval, AddrCode, Address, OffsetCode;
    OkValid(w);
    InvValid(w, m, p, s);
    MemberShape(w, fuel, e, c, m, p);
    var byValue := e.base.Deref? || e.base.Call?;
    var g := if e.base.Deref? then ExprCode(w.Near(), e.base.e, c)
             else if e.base.Call? then ExprCode(w.Near(), e.base, c)
             else AddrCode(w.Near(), e.base, c);
    var r := if e.base.Deref? then Eval(fuel, w.env, e.base.e, m, p)
             else if e.base.Call? then Eval(fuel, w.env, e.base, m, p)
             else Address(fuel, w.env, e.base, m, p);
    var reg := if byValue then R1 else R9;
    var tail := OffsetCode(reg, e.off);
    SplitAhead(w, s, g.code, tail);
    if e.base.Deref? {
      n, t := SimExpr(w, fuel, e.base.e, c, m, p, s);
    } else if e.base.Call? {
      n, t := SimExpr(w, fuel, e.base, c, m, p, s);
    } else {
      n, t := SimAddr(w, fuel, e.base, c, m, p, s);
    }
    if r.Val? {
      SimValue(w, r, m, p, s, n, t, s.k + |g.code|, reg, fuel);
      var n2, t2 := SimOffset(w, r.m, p, t, reg, e.off);
      Then(w, m, r.m, r.m, p, s, n, t, t.k, n2, t2, t.k + |tail|);
      ArrivedInv(w, m, r.m, p, s, n + n2, t2, t.k + |tail|);
      MakeSim(w, Wrap(r.v + e.off), m, r.m, p, s, n + n2, t2, t.k + |tail|, R9, fuel);
      n, t := n + n2, t2;
    } else {
      SimStrict(w, r, m, p, s, n, t, s.k + |g.code|, reg, fuel, s.k + |g.code| + |tail|, R9);
    }
  }

  // ---- calling a function ----

  lemma ArgsFacts(w: World, m0: Mem, m: Mem, p: int, s0: Mach, n0: nat, s: Mach, k: nat, vals: seq<Word>)
    requires w.p.Valid() && s0.cpu.Valid() && ArgsDone(w, m0, m, p, s0, n0, s, k, vals)
    requires 0 <= w.env.lo
    ensures Inv(w, m, p - 4 * |vals|, s) && s.cpu.Valid() && ArgsOn(vals, p - 4 * |vals|, s.cpu.mem)
    ensures forall i | p - 4 * |vals| <= i < p - 4 * |vals| + 4 * |vals| :: i !in m
  {
    hide OffCode, LineRun, Keeps;
    var q := p - 4 * |vals|;
    FreeStack(w, m0, p, s0.cpu.mem);
    FreeStack(w, m, q, s.cpu.mem);
    forall i | q <= i < p ensures i !in m {
      assert i !in m0;
    }
  }

  // What CallFn does with the function found.
  function Body(fuel: nat, w: World, f: Func, vals: seq<Word>, m: Mem, q: int): Res {
    if |vals| != |f.params| || !Room(w.env, q - 8 - f.frame) then Stuck
    else match BindParams(f.params, vals, q - 8, m + Frame(q - 8 - f.frame, q - 8), 0)
      case None => Stuck
      case Some(m1) =>
        Leaving(RunStmts(fuel, Inside(w, f.unit, q - 8).env, f.body, m1, q - 8 - f.frame), q, f.frame)
  }

  function Leaving(o: Out, q: int, size: nat): Res {
    match o
    case Normal(m2) => Void(m2 - FrameKeys(q - 8 - size, q - 8))
    case Returned(v, m2) =>
      (match v
       case None => Void(m2 - FrameKeys(q - 8 - size, q - 8))
       case Some(x) => Val(x, m2 - FrameKeys(q - 8 - size, q - 8)))
    case Broke(_) => Stuck
    case Continued(_) => Stuck
    case OutStuck => Stuck
    case OutTimeout => Timeout
  }

  lemma CallFnIs(w: World, fuel: nat, name: string, vals: seq<Word>, m: Mem, p: int)
    requires w.env.meaning.Emitted?
    requires (w.env.unit, name) in w.env.defs && w.env.defs[(w.env.unit, name)] < |w.env.funcs|
    ensures CallFn(fuel, w.env, name, vals, m, p)
         == Body(fuel, w, w.env.funcs[w.env.defs[(w.env.unit, name)]], vals, m, p - 4 * |vals|)
  {
    hide RunStmts, BindParams, Frame, FrameKeys;
  }

  lemma {:induction false} SimCall(w: World, fuel: nat, name: string, vals: seq<Word>, m0: Mem, p: int, s0: Mach, n0: nat, s: Mach, m: Mem, code: seq<Line>)
    returns (n: nat, t: Mach)
    requires Ok(w) && s0.cpu.Valid() && s.cpu.Valid() && ArgsDone(w, m0, m, p, s0, n0, s, s.k, vals)
    requires Ahead(w, s, code) && |code| > 0 && code[0] == CallTo(Name(name))
    ensures Sim(w, CallFn(fuel, w.env, name, vals, m, p), m, p - 4 * |vals|, s, n, t, s.k + 1, R1, fuel + 1)
    decreases fuel
  {
    hide LineRun, LineStep, Total, Ok, Ahead, Sim, Inv, ArgsDone, ArgsOn, CallFn, Body, FuncCode;
    OkValid(w);
    var q := p - 4 * |vals|;
    n, t := 0, s;
    if (w.env.unit, name) in w.env.defs && w.env.defs[(w.env.unit, name)] < |w.env.funcs| {
      var d := w.env.defs[(w.env.unit, name)];
      CallFnIs(w, fuel, name, vals, m, p);
      ArgsFacts(w, m0, m, p, s0, n0, s, s.k, vals);
      if Body(fuel, w, w.env.funcs[d], vals, m, q) == Stuck {
        SimStuck(w, m, q, s, n, t, s.k + 1, R1, fuel + 1);
      } else {
        n, t := SimBody(w, fuel, name, d, vals, m, q, s, code);
      }
    } else {
      NotDefined(w, fuel, name, vals, m, p);
      SimStuck(w, m, q, s, n, t, s.k + 1, R1, fuel + 1);
    }
  }

  lemma NotDefined(w: World, fuel: nat, name: string, vals: seq<Word>, m: Mem, p: int)
    requires !((w.env.unit, name) in w.env.defs && w.env.defs[(w.env.unit, name)] < |w.env.funcs|)
    ensures CallFn(fuel, w.env, name, vals, m, p) == Stuck
  {
  }

  lemma BodyParts(fuel: nat, w: World, f: Func, vals: seq<Word>, m: Mem, q: int)
    requires Body(fuel, w, f, vals, m, q) != Stuck
    ensures |vals| == |f.params| && Room(w.env, q - 8 - f.frame)
    ensures var b := BindParams(f.params, vals, q - 8, m + Frame(q - 8 - f.frame, q - 8), 0);
            b.Some? && Body(fuel, w, f, vals, m, q)
            == Leaving(RunStmts(fuel, Inside(w, f.unit, q - 8).env, f.body, b.value, q - 8 - f.frame), q, f.frame)
  {
    hide RunStmts, BindParams, Frame, Leaving;
  }

  lemma BodyCompiles(w: World, d: nat)
    requires Ok(w) && d < |w.env.funcs|
    ensures CompilesStmts(w.env.funcs[d].body, false, false) && d < |w.place|
  {
    hide LinesOk, LabelsOk, SymsOk, CodeAt, FuncCode;
    assert w.env.funcs[d] in w.env.funcs;
  }

  // Enter, run the body, leave.
  lemma {:induction false} SimBody(w: World, fuel: nat, name: string, d: nat, vals: seq<Word>, m: Mem, q: int, s: Mach, code: seq<Line>)
    returns (n: nat, t: Mach)
    requires Ok(w) && Inv(w, m, q, s) && (w.env.unit, name) in w.env.defs && d == w.env.defs[(w.env.unit, name)] && d < |w.env.funcs|
    requires ArgsOn(vals, q, s.cpu.mem) && forall i | q <= i < q + 4 * |vals| :: i !in m
    requires Ahead(w, s, code) && |code| > 0 && code[0] == CallTo(Name(name))
    requires Body(fuel, w, w.env.funcs[d], vals, m, q) != Stuck
    ensures Sim(w, Body(fuel, w, w.env.funcs[d], vals, m, q), m, q, s, n, t, s.k + 1, R1, fuel + 1)
    decreases fuel, w.env.funcs[d].body, 1
  {
    hide LineRun, LineStep, Total, Ok, Ahead, Sim, Inv, ArgsOn, Body, FuncCode, FrameCode, ParamsCode, StmtsCode,
         Arrived, InFrame, Entered, BindParams, Frame, FrameKeys, RunStmts, SimOut, Leaving;
    OkValid(w);
    InvValid(w, m, q, s);
    var f := w.env.funcs[d];
    var v := Inside(w, f.unit, q - 8);
    BodyParts(fuel, w, f, vals, m, q);
    BodyCompiles(w, d);
    OkInside(w, f.unit, w.env.fb);
    OkInside(w, f.unit, q - 8);
    var c := w.place[d].c;
    var n1, t1, u, k := CallStep(w, m, q, s, code, name);
    EnteredFacts(w, u, m, q, s, n1, t1, k);
    CodeOfFunc(w, u, d, t1);
    FuncShape(u.Near(), f, c);
    var body := StmtsCode(u.Near(), f.body, NOWHERE, c + 1).code;
    var rest := FrameCode(f.frame) + (ParamsCode(f.params, 0) + ([Label(Poll(c))] + (body + LEAVE)));
    SplitAhead(u, t1, Prologue(f), rest);
    var n2, t2, v' := SimBase(w, u, m, q, s, n1, t1, k, f);
    FrameFacts(w, v, m, m, q, 0, s, n2, t2);
    InsideAhead(u, v, t2, rest);
    var n3, t3 := SimSetup(w, v, m, q, f, c, vals, s, n2, t2, body + LEAVE);
    var m1 := BindParams(f.params, vals, q - 8, m + Frame(q - 8 - f.frame, q - 8), 0).value;
    FrameFacts(w, v, m, m1, q, f.frame, s, n3, t3);
    SplitAhead(v, t3, body, LEAVE);
    var p2 := q - 8 - f.frame;
    var n4, t4 := SimStmts(v, fuel, f.body, NOWHERE, c + 1, m1, p2, t3, 0, 0);
    var o := RunStmts(fuel, v.env, f.body, m1, p2);
    n, t := SimLeave(w, v, fuel, o, m, m1, q, f.frame, s, n3, t3, n4, t4, t3.k + |body|);
  }

  lemma EnteredFacts(w: World, u: World, m: Mem, q: int, s: Mach, n: nat, t: Mach, k: nat)
    requires w.p.Valid() && s.cpu.Valid() && Entered(w, u, m, q, s, n, t, k)
    ensures t.k == k && t.cpu.Valid()
  {
  }

  lemma FrameFacts(w: World, v: World, m: Mem, m1: Mem, q: int, size: nat, s: Mach, n: nat, t: Mach)
    requires w.p.Valid() && s.cpu.Valid() && InFrame(w, v, m, m1, q, size, s, n, t)
    ensures t.cpu.Valid() && Inv(v, m1, q - 8 - size, t) && n > 0 && LineRun(w.p, s, n) == Some(t)
  {
  }

  // The body's outcome becomes the call's result.
  lemma SimLeave(w: World, v: World, fuel: nat, o: Out, m: Mem, m1: Mem, q: int, size: nat, s: Mach, n: nat, t: Mach, n2: nat, t2: Mach, k: nat)
    returns (n3: nat, t3: Mach)
    requires Ok(w) && Ok(v) && Inv(w, m, q, s) && t.cpu.Valid() && v.p == w.p && v.env.lo == w.env.lo && v.env.fb == q - 8
    requires InFrame(w, v, m, m1, q, size, s, n, t) && w.env.lo <= q - 8 - size && s.cpu.Valid()
    requires SimOut(v, o, m1, q - 8 - size, t, n2, t2, k, 0, 0, fuel)
    requires forall z: Mach | z.k == k :: Ahead(v, z, LEAVE)
    ensures Sim(w, Leaving(o, q, size), m, q, s, n3, t3, s.k + 1, R1, fuel + 1)
  {
    hide LineRun, LineStep, Total, Ok, Ahead, Inv, Arrived, InFrame, FrameKeys;
    OkValid(w);
    n3, t3 := n + n2, t2;
    FrameFacts(w, v, m, m1, q, size, s, n, t);
    match o
    case Normal(m2) =>
      ArrivedInv(v, m1, m2, q - 8 - size, t, n2, t2, k);
      n3, t3 := SimReturn(w, v, m, m1, m2, q, size, s, n, t, n2, t2);
    case Returned(x, m2) =>
      ArrivedInv(v, m1, m2, q - 8 - size, t, n2, t2, t2.k);
      n3, t3 := SimReturn(w, v, m, m1, m2, q, size, s, n, t, n2, t2);
    case OutTimeout => LineRunAdd(w.p, s, n, n2);
    case _ =>
  }

  // ---- statements ----

  // The machine's run stands for outcome o: falling through to line k,
  // breaking to line kb, continuing to line kc, or about to leave the function.
  ghost predicate SimOut(w: World, o: Out, m: Mem, p: int, s: Mach, n: nat, t: Mach, k: int, kb: int, kc: int, fuel: nat) {
    w.p.Valid() && s.cpu.Valid() &&
    match o
    case Normal(m') => Arrived(w, m, m', p, s, n, t, k)
    case Broke(m') => Arrived(w, m, m', p, s, n, t, kb)
    case Continued(m') => Arrived(w, m, m', p, s, n, t, kc)
    case Returned(v, m') =>
      Arrived(w, m, m', p, s, n, t, t.k) && Ahead(w, t, LEAVE) && (v.Some? ==> t.cpu.regs[R1] == v.value)
    case OutStuck => true
    case OutTimeout => LineRun(w.p, s, n).Some? && n >= fuel
  }

  // The labels break and continue go to.
  ghost predicate TargetsOk(w: World, tg: Targets, kb: nat, kc: nat) {
    (tg.brk.Some? ==> LabelAt(w, kb, tg.brk.value)) && (tg.cont.Some? ==> LabelAt(w, kc, tg.cont.value))
  }

  lemma OutAfter(w: World, o: Out, m: Mem, m1: Mem, p: int, s: Mach, n1: nat, t1: Mach, k1: nat, n2: nat, t2: Mach, k: nat, kb: nat, kc: nat, fuel: nat)
    requires w.p.Valid() && s.cpu.Valid() && t1.cpu.Valid()
    requires Arrived(w, m, m1, p, s, n1, t1, k1) && SimOut(w, o, m1, p, t1, n2, t2, k, kb, kc, fuel)
    ensures SimOut(w, o, m, p, s, n1 + n2, t2, k, kb, kc, fuel)
  {
    hide Arrived, Ahead;
    ArrivedInv(w, m, m1, p, s, n1, t1, k1);
    LineRunAdd(w.p, s, n1, n2);
    match o
    case Normal(m') => Then(w, m, m1, m', p, s, n1, t1, k1, n2, t2, k);
    case Broke(m') => Then(w, m, m1, m', p, s, n1, t1, k1, n2, t2, kb);
    case Continued(m') => Then(w, m, m1, m', p, s, n1, t1, k1, n2, t2, kc);
    case Returned(_, m') => Then(w, m, m1, m', p, s, n1, t1, k1, n2, t2, t2.k);
    case _ =>
  }

  // An outcome that leaves the statement does not care where it would end.
  lemma OutElsewhere(w: World, o: Out, m: Mem, p: int, s: Mach, n: nat, t: Mach, k: nat, k': nat, kb: nat, kc: nat, fuel: nat)
    requires w.p.Valid() && s.cpu.Valid() && !o.Normal? && SimOut(w, o, m, p, s, n, t, k, kb, kc, fuel)
    ensures SimOut(w, o, m, p, s, n, t, k', kb, kc, fuel)
  {
    hide Arrived, Ahead;
  }

  // Outcomes that pass through a loop or a switch.
  lemma OutThrough(w: World, o: Out, m: Mem, p: int, s: Mach, n: nat, t: Mach, k: nat, kb: nat, kc: nat, k': nat, kb': nat, kc': nat, fuel: nat)
    requires w.p.Valid() && s.cpu.Valid() && SimOut(w, o, m, p, s, n, t, k, kb, kc, fuel)
    requires !o.Normal? && !o.Broke? && (o.Continued? ==> kc == kc')
    ensures SimOut(w, o, m, p, s, n, t, k', kb', kc', fuel)
  {
    hide Arrived, Ahead;
  }

  lemma OutFacts(w: World, o: Out, m: Mem, p: int, s: Mach, n: nat, t: Mach, k: nat, kb: nat, kc: nat, fuel: nat)
    requires w.p.Valid() && s.cpu.Valid() && SimOut(w, o, m, p, s, n, t, k, kb, kc, fuel)
    ensures o.Normal? ==> Arrived(w, m, o.m, p, s, n, t, k) && Inv(w, o.m, p, t) && t.cpu.Valid() && t.k == k
    ensures o.Broke? ==> Arrived(w, m, o.m, p, s, n, t, kb) && Inv(w, o.m, p, t) && t.cpu.Valid() && t.k == kb
    ensures o.Continued? ==> Arrived(w, m, o.m, p, s, n, t, kc) && Inv(w, o.m, p, t) && t.cpu.Valid() && t.k == kc
  {
    hide Inv, Ahead;
    if o.Normal? { ArrivedInv(w, m, o.m, p, s, n, t, k); }
    if o.Broke? { ArrivedInv(w, m, o.m, p, s, n, t, kb); }
    if o.Continued? { ArrivedInv(w, m, o.m, p, s, n, t, kc); }
  }

  lemma MakeNormal(w: World, m: Mem, m': Mem, p: int, s: Mach, n: nat, t: Mach, k: nat, kb: nat, kc: nat, fuel: nat)
    requires w.p.Valid() && s.cpu.Valid() && Arrived(w, m, m', p, s, n, t, k)
    ensures SimOut(w, Normal(m'), m, p, s, n, t, k, kb, kc, fuel)
  {
    hide Arrived;
  }

  lemma OutOfRes(w: World, r: Res, m: Mem, p: int, s: Mach, n: nat, t: Mach, k: nat, reg: Reg, kb: nat, kc: nat, fuel: nat)
    requires w.p.Valid() && s.cpu.Valid() && Sim(w, r, m, p, s, n, t, k, reg, fuel)
    ensures SimOut(w, ExprOut(r), m, p, s, n, t, k, kb, kc, fuel)
  {
    hide Arrived;
  }

  // A condition without a value ends the statement.
  lemma OutOfStrict(w: World, r: Res, m: Mem, p: int, s: Mach, n: nat, t: Mach, k: nat, kb: nat, kc: nat, fuel: nat)
    requires w.p.Valid() && s.cpu.Valid() && !r.Val? && Sim(w, Strict(r), m, p, s, n, t, 0, R1, fuel)
    ensures SimOut(w, ExprOut(Strict(r)), m, p, s, n, t, k, kb, kc, fuel)
  {
    hide Arrived;
  }

  lemma {:induction false} SimStmts(w: World, fuel: nat, ss: Stmts, tg: Targets, c: nat, m: Mem, p: int, s: Mach, kb: nat, kc: nat)
    returns (n: nat, t: Mach)
    requires Ok(w) && Inv(w, m, p, s) && CompilesStmts(ss, tg.brk.Some?, tg.cont.Some?) && TargetsOk(w, tg, kb, kc)
    requires Ahead(w, s, StmtsCode(w.Near(), ss, tg, c).code)
    ensures SimOut(w, RunStmts(fuel, w.env, ss, m, p), m, p, s, n, t, s.k + |StmtsCode(w.Near(), ss, tg, c).code|, kb, kc, fuel)
    decreases fuel, ss, 0
  {
    hide LineRun, LineStep, Total, Ok, Ahead, SimOut, Inv, Arrived, StmtCode, RunStmt, TargetsOk, CompilesStmt;
    OkValid(w);
    InvValid(w, m, p, s);
    match ss
    case Nil =>
      Stay(w, m, p, s);
      MakeNormal(w, m, m, p, s, 0, s, s.k, kb, kc, fuel);
      n, t := 0, s;
    case Cons(head, rest) =>
      var a := StmtCode(w.Near(), head, tg, c);
      var b := StmtsCode(w.Near(), rest, tg, a.next);
      var end := s.k + |a.code| + |b.code|;
      SplitAhead(w, s, a.code, b.code);
      n, t := SimStmt(w, fuel, head, tg, c, m, p, s, kb, kc);
      var o := RunStmt(fuel, w.env, head, m, p);
      OutFacts(w, o, m, p, s, n, t, s.k + |a.code|, kb, kc, fuel);
      if o.Normal? {
        var n2, t2 := SimStmts(w, fuel, rest, tg, a.next, o.m, p, t, kb, kc);
        OutAfter(w, RunStmts(fuel, w.env, ss, m, p), m, o.m, p, s, n, t, t.k, n2, t2, end, kb, kc, fuel);
        n, t := n + n2, t2;
      } else {
        OutElsewhere(w, o, m, p, s, n, t, s.k + |a.code|, end, kb, kc, fuel);
      }
  }

  lemma {:induction false} SimStmt(w: World, fuel: nat, st: Stmt, tg: Targets, c: nat, m: Mem, p: int, s: Mach, kb: nat, kc: nat)
    returns (n: nat, t: Mach)
    requires Ok(w) && Inv(w, m, p, s) && CompilesStmt(st, tg.brk.Some?, tg.cont.Some?) && TargetsOk(w, tg, kb, kc)
    requires Ahead(w, s, StmtCode(w.Near(), st, tg, c).code)
    ensures SimOut(w, RunStmt(fuel, w.env, st, m, p), m, p, s, n, t, s.k + |StmtCode(w.Near(), st, tg, c).code|, kb, kc, fuel)
    decreases fuel, st, 5
  {
    hide LineRun, LineStep, Total, Ok, Ahead, Inv, Arrived, ExprCode, Eval, StmtsCode, RunStmts, LabelAt, ForCode, ChainCode;
    OkValid(w);
    InvValid(w, m, p, s);
    match st
    case Return(value) => n, t := SimReturnStmt(w, fuel, value, c, m, p, s, kb, kc, st, tg);
    case If(e, yes, no) => n, t := SimIf(w, fuel, st, tg, c, m, p, s, kb, kc);
    case While(e, body) => n, t := SimWhile(w, fuel, st, tg, c, m, p, s, kb, kc);
    case For(init, cond, inc, body) => n, t := SimFor(w, fuel, st, tg, c, m, p, s, kb, kc);
    case DoWhile(body, e) => n, t := SimDoWhile(w, fuel, st, tg, c, m, p, s, kb, kc);
    case Switch(e, slot, pre, body) => n, t := SimSwitch(w, fuel, st, tg, c, m, p, s, kb, kc);
    case Case(i, _) => n, t := SimMark(w, m, p, s, User(i));
    case Default(i) => n, t := SimMark(w, m, p, s, User(i));
    case Break => n, t := JumpStep(w, m, p, s, [Jump(tg.brk.value)], tg.brk.value, kb);
    case Continue => n, t := JumpStep(w, m, p, s, [Jump(tg.cont.value)], tg.cont.value, kc);
    case Decl =>
      Stay(w, m, p, s);
      n, t := 0, s;
    case Do(e) =>
      n, t := SimExpr(w, fuel, e, c, m, p, s);
      OutOfRes(w, Eval(fuel, w.env, e, m, p), m, p, s, n, t, s.k + |ExprCode(w.Near(), e, c).code|, R1, kb, kc, fuel);
  }

  lemma SimMark(w: World, m: Mem, p: int, s: Mach, y: Sym) returns (n: nat, t: Mach)
    requires Ok(w) && Inv(w, m, p, s) && Ahead(w, s, [Label(y)]) && !y.Poll?
    ensures n == 1 && Arrived(w, m, m, p, s, n, t, s.k + 1) && Inv(w, m, p, t) && t.cpu.Valid() && t.k == s.k + 1
    ensures t.cpu.regs == s.cpu.regs
  {
    hide LineRun, LineStep, Total, Ok, Ahead, Arrived, Inv;
    OkValid(w);
    InvValid(w, m, p, s);
    t := MarkStep(w, m, p, s, [Label(y)]);
    StepArrived(w, m, p, s, t, [Label(y)]);
    n := 1;
  }

  lemma {:induction false} SimReturnStmt(w: World, fuel: nat, value: Option<Expr>, c: nat, m: Mem, p: int, s: Mach, kb: nat, kc: nat, st: Stmt, tg: Targets)
    returns (n: nat, t: Mach)
    requires st == Return(value) && Ok(w) && Inv(w, m, p, s) && CompilesStmt(st, tg.brk.Some?, tg.cont.Some?)
    requires Ahead(w, s, StmtCode(w.Near(), st, tg, c).code)
    ensures SimOut(w, RunStmt(fuel, w.env, st, m, p), m, p, s, n, t, s.k + |StmtCode(w.Near(), st, tg, c).code|, kb, kc, fuel)
    decreases fuel, st, 4
  {
    hide LineRun, LineStep, Total, Ok, Ahead, Inv, Arrived, ExprCode, Eval, Sim;
    OkValid(w);
    InvValid(w, m, p, s);
    var tail := [Note] + LEAVE;
    assert tail[1..] == LEAVE;
    match value
    case None =>
      t := MarkStep(w, m, p, s, tail);
      StepArrived(w, m, p, s, t, tail);
      n := 1;
    case Some(e) =>
      var a := ExprCode(w.Near(), e, c);
      assert a.code + [Note] + LEAVE == a.code + tail;
      SplitAhead(w, s, a.code, tail);
      n, t := SimExpr(w, fuel, e, c, m, p, s);
      var r := Eval(fuel, w.env, e, m, p);
      if r.Val? {
        SimValue(w, r, m, p, s, n, t, s.k + |a.code|, R1, fuel);
        var t2 := MarkStep(w, r.m, p, t, tail);
        StepArrived(w, r.m, p, t, t2, tail);
        Then(w, m, r.m, r.m, p, s, n, t, t.k, 1, t2, t2.k);
        n, t := n + 1, t2;
      } else if r.Timeout? {
        SimIsTimeout(w, r, m, p, s, n, t, s.k + |a.code|, R1, fuel);
      }
  }

  // ---- if ----

  // The code after the first branch; the else label is its line IfElse.
  function IfTail(near: set<string>, no: Stmts, tg: Targets, c: nat, d: nat): seq<Line> {
    if no.Nil? then [Label(Local(c))]
    else [Jump(Local(c + 1)), Label(Local(c))] + (StmtsCode(near, no, tg, d).code + [Label(Local(c + 1))])
  }

  function IfElse(no: Stmts): nat {
    if no.Nil? then 0 else 1
  }

  lemma IfShape(w: World, fuel: nat, st: Stmt, tg: Targets, c: nat, m: Mem, p: int)
    requires st.If?
    ensures var a := ExprCode(w.Near(), st.c, c + 2);
            var front := a.code + TestCode(Je, Local(c));
            var b := StmtsCode(w.Near(), st.t, tg, a.next);
            StmtCode(w.Near(), st, tg, c).code == front + (b.code + IfTail(w.Near(), st.f, tg, c, b.next))
    ensures var r := Eval(fuel, w.env, st.c, m, p);
            RunStmt(fuel, w.env, st, m, p) ==
            if r.Val? then if r.v != 0 then RunStmts(fuel, w.env, st.t, r.m, p) else RunStmts(fuel, w.env, st.f, r.m, p)
            else ExprOut(Strict(r))
  {
    hide TestCode, ExprCode, Eval, RunStmts, StmtsCode;
    var a := BranchCode(w.Near(), st.c, Je, Local(c), c + 2);
    var b := StmtsCode(w.Near(), st.t, tg, a.next);
    if st.f.Nil? {
      assert a.code + b.code + [Label(Local(c))] == a.code + (b.code + [Label(Local(c))]);
    } else {
      var d := StmtsCode(w.Near(), st.f, tg, b.next);
      var x, z := [Jump(Local(c + 1)), Label(Local(c))], [Label(Local(c + 1))];
      assert a.code + b.code + x + d.code + z == a.code + (b.code + (x + (d.code + z)));
    }
  }

  lemma PartsAt(w: World, s: Mach, a: seq<Line>, b: seq<Line>, d: seq<Line>)
    requires Ahead(w, s, a + (b + d))
    ensures Ahead(w, s, a) && CodeAt(w.p, w.env.unit, s.k, a) && CodeAt(w.p, w.env.unit, s.k + |a|, b)
    ensures CodeAt(w.p, w.env.unit, s.k + |a| + |b|, d)
  {
    hide CodeAt;
    CodeSplit(w.p, w.env.unit, s.k, a, b + d);
    CodeSplit(w.p, w.env.unit, s.k + |a|, b, d);
  }

  lemma IfLabels(w: World, no: Stmts, tg: Targets, c: nat, d: nat, k: nat)
    requires CodeAt(w.p, w.env.unit, k, IfTail(w.Near(), no, tg, c, d))
    ensures LabelAt(w, k + IfElse(no), Local(c))
    ensures no.Cons? ==> LabelAt(w, k + |IfTail(w.Near(), no, tg, c, d)| - 1, Local(c + 1))
  {
    hide StmtsCode, LabelAt, CodeAt;
    var rest := IfTail(w.Near(), no, tg, c, d);
    LabelOfCode(w, k, rest, IfElse(no), Local(c));
    if no.Cons? { LabelOfCode(w, k, rest, |rest| - 1, Local(c + 1)); }
  }

  lemma {:induction false} SimIf(w: World, fuel: nat, st: Stmt, tg: Targets, c: nat, m: Mem, p: int, s: Mach, kb: nat, kc: nat)
    returns (n: nat, t: Mach)
    requires st.If? && Ok(w) && Inv(w, m, p, s) && CompilesStmt(st, tg.brk.Some?, tg.cont.Some?) && TargetsOk(w, tg, kb, kc)
    requires Ahead(w, s, StmtCode(w.Near(), st, tg, c).code)
    ensures SimOut(w, RunStmt(fuel, w.env, st, m, p), m, p, s, n, t, s.k + |StmtCode(w.Near(), st, tg, c).code|, kb, kc, fuel)
    decreases fuel, st, 4
  {
    hide LineRun, LineStep, Total, Ok, Ahead, SimOut, Sim, Inv, Arrived, ExprCode, Eval, StmtsCode, StmtCode, RunStmts, RunStmt, LabelAt,
         TargetsOk, IfTail, IfElse, TestCode, CodeAt;
    OkValid(w);
    InvValid(w, m, p, s);
    IfShape(w, fuel, st, tg, c, m, p);
    var a := ExprCode(w.Near(), st.c, c + 2);
    var front := a.code + TestCode(Je, Local(c));
    var b := StmtsCode(w.Near(), st.t, tg, a.next);
    var rest := IfTail(w.Near(), st.f, tg, c, b.next);
    var kr := s.k + |front| + |b.code|;
    var end := kr + |rest|;
    PartsAt(w, s, front, b.code, rest);
    IfLabels(w, st.f, tg, c, b.next, kr);
    n, t := SimBranch(w, fuel, st.c, Local(c), kr + IfElse(st.f), c + 2, m, p, s, front);
    var r := Eval(fuel, w.env, st.c, m, p);
    if !r.Val? {
      OutOfStrict(w, r, m, p, s, n, t, end, kb, kc, fuel);
    } else {
      ArrivedInv(w, m, r.m, p, s, n, t, if r.v == 0 then kr + IfElse(st.f) else s.k + |front|);
      var n2, t2;
      if r.v != 0 {
        n2, t2 := SimIfThen(w, fuel, st, tg, c, a.next, r.m, p, t, kb, kc);
      } else {
        n2, t2 := SimIfElse(w, fuel, st, tg, c, b.next, r.m, p, t, kr, kb, kc);
      }
      OutAfter(w, RunStmt(fuel, w.env, st, m, p), m, r.m, p, s, n, t, t.k, n2, t2, end, kb, kc, fuel);
      n, t := n + n2, t2;
    }
  }

  lemma {:induction false} SimIfThen(w: World, fuel: nat, st: Stmt, tg: Targets, c: nat, d: nat, m: Mem, p: int, s: Mach, kb: nat, kc: nat)
    returns (n: nat, t: Mach)
    requires st.If? && Ok(w) && Inv(w, m, p, s) && CompilesStmt(st, tg.brk.Some?, tg.cont.Some?) && TargetsOk(w, tg, kb, kc)
    requires var b := StmtsCode(w.Near(), st.t, tg, d);
             && CodeAt(w.p, w.env.unit, s.k, b.code)
             && CodeAt(w.p, w.env.unit, s.k + |b.code|, IfTail(w.Near(), st.f, tg, c, b.next))
    ensures var b := StmtsCode(w.Near(), st.t, tg, d);
            SimOut(w, RunStmts(fuel, w.env, st.t, m, p), m, p, s, n, t, s.k + |b.code| + |IfTail(w.Near(), st.f, tg, c, b.next)|, kb, kc, fuel)
    decreases fuel, st, 3
  {
    hide LineRun, LineStep, Total, Ok, Ahead, SimOut, Inv, Arrived, StmtsCode, RunStmts, LabelAt, TargetsOk, IfTail, CodeAt;
    OkValid(w);
    InvValid(w, m, p, s);
    var b := StmtsCode(w.Near(), st.t, tg, d);
    var kr := s.k + |b.code|;
    var end := kr + |IfTail(w.Near(), st.f, tg, c, b.next)|;
    CodeAhead(w, s, b.code);
    n, t := SimStmts(w, fuel, st.t, tg, d, m, p, s, kb, kc);
    var o := RunStmts(fuel, w.env, st.t, m, p);
    OutFacts(w, o, m, p, s, n, t, kr, kb, kc, fuel);
    if !o.Normal? {
      OutElsewhere(w, o, m, p, s, n, t, kr, end, kb, kc, fuel);
    } else {
      var n2, t2 := SimIfSkip(w, st.f, tg, c, b.next, o.m, p, t);
      Then(w, m, o.m, o.m, p, s, n, t, t.k, n2, t2, end);
      MakeNormal(w, m, o.m, p, s, n + n2, t2, end, kb, kc, fuel);
      n, t := n + n2, t2;
    }
  }

  // Past the else branch.
  lemma SimIfSkip(w: World, no: Stmts, tg: Targets, c: nat, d: nat, m: Mem, p: int, s: Mach) returns (n: nat, t: Mach)
    requires Ok(w) && Inv(w, m, p, s) && CodeAt(w.p, w.env.unit, s.k, IfTail(w.Near(), no, tg, c, d))
    ensures Arrived(w, m, m, p, s, n, t, s.k + |IfTail(w.Near(), no, tg, c, d)|)
  {
    hide LineRun, LineStep, Total, Ok, Ahead, Inv, Arrived, StmtsCode, LabelAt, CodeAt;
    OkValid(w);
    InvValid(w, m, p, s);
    var rest := IfTail(w.Near(), no, tg, c, d);
    CodeAhead(w, s, rest);
    IfLabels(w, no, tg, c, d, s.k);
    if no.Nil? {
      n, t := SimMark(w, m, p, s, Local(c));
    } else {
      var end := s.k + |rest|;
      n, t := JumpStep(w, m, p, s, rest, Local(c + 1), end - 1);
      InvValid(w, m, p, t);
      LabelAhead(w, t, Local(c + 1));
      var n4, t4 := SimMark(w, m, p, t, Local(c + 1));
      Then(w, m, m, m, p, s, n, t, end - 1, n4, t4, end);
      n, t := n + n4, t4;
    }
  }

  // The else branch, from its label in the code at line kr.
  lemma {:induction false} SimIfElse(w: World, fuel: nat, st: Stmt, tg: Targets, c: nat, d: nat, m: Mem, p: int, s: Mach, kr: nat, kb: nat, kc: nat)
    returns (n: nat, t: Mach)
    requires st.If? && Ok(w) && Inv(w, m, p, s) && CompilesStmt(st, tg.brk.Some?, tg.cont.Some?) && TargetsOk(w, tg, kb, kc)
    requires CodeAt(w.p, w.env.unit, kr, IfTail(w.Near(), st.f, tg, c, d)) && s.k == kr + IfElse(st.f)
    ensures SimOut(w, RunStmts(fuel, w.env, st.f, m, p), m, p, s, n, t, kr + |IfTail(w.Near(), st.f, tg, c, d)|, kb, kc, fuel)
    decreases fuel, st, 3
  {
    hide LineRun, LineStep, Total, Ok, Ahead, SimOut, Inv, Arrived, StmtsCode, LabelAt, TargetsOk, CodeAt, RunStmts;
    OkValid(w);
    InvValid(w, m, p, s);
    IfLabels(w, st.f, tg, c, d, kr);
    LabelAhead(w, s, Local(c));
    var n1, t1 := SimMark(w, m, p, s, Local(c));
    if st.f.Nil? {
      n, t := n1, t1;
      NilRuns(fuel, w.env, m, p);
      MakeNormal(w, m, m, p, s, n, t, s.k + 1, kb, kc, fuel);
    } else {
      var b := StmtsCode(w.Near(), st.f, tg, d);
      var z := [Label(Local(c + 1))];
      CodeSplit(w.p, w.env.unit, kr, [Jump(Local(c + 1)), Label(Local(c))], b.code + z);
      CodeAhead(w, t1, b.code + z);
      SplitAhead(w, t1, b.code, z);
      var n2, t2 := SimStmts(w, fuel, st.f, tg, d, m, p, t1, kb, kc);
      var o := RunStmts(fuel, w.env, st.f, m, p);
      n, t := FinishMark(w, o, m, m, p, s, n1, t1, n2, t2, t1.k + |b.code|, kb, kc, fuel, Local(c + 1));
    }
  }

  lemma NilRuns(fuel: nat, env: Env, m: Mem, p: int)
    ensures RunStmts(fuel, env, Nil, m, p) == Normal(m)
  {
  }

  // After a prefix, an outcome of the rest, with one label at the end.
  lemma FinishMark(w: World, o: Out, m: Mem, m1: Mem, p: int, s: Mach, n1: nat, t1: Mach, n2: nat, t2: Mach, k: nat, kb: nat, kc: nat, fuel: nat, y: Sym)
    returns (n: nat, t: Mach)
    requires !y.Poll? && Ok(w) && s.cpu.Valid() && t1.cpu.Valid() && Arrived(w, m, m1, p, s, n1, t1, t1.k)
    requires SimOut(w, o, m1, p, t1, n2, t2, k, kb, kc, fuel)
    requires forall z: Mach | z.k == k :: Ahead(w, z, [Label(y)])
    ensures SimOut(w, o, m, p, s, n, t, k + 1, kb, kc, fuel)
  {
    hide LineRun, LineStep, Total, Ok, Ahead, SimOut, Inv, Arrived;
    OkValid(w);
    OutAfter(w, o, m, m1, p, s, n1, t1, t1.k, n2, t2, k, kb, kc, fuel);
    n, t := n1 + n2, t2;
    OutFacts(w, o, m, p, s, n, t, k, kb, kc, fuel);
    if o.Normal? {
      var n3, t3 := SimMark(w, o.m, p, t2, y);
      Then(w, m, o.m, o.m, p, s, n, t2, k, n3, t3, k + 1);
      MakeNormal(w, m, o.m, p, s, n + n3, t3, k + 1, kb, kc, fuel);
      n, t := n + n3, t3;
    } else {
      OutElsewhere(w, o, m, p, s, n, t, k, k + 1, kb, kc, fuel);
    }
  }

  // ---- while ----

  // Round a while or do-while again.
  function Back(fuel: nat, env: Env, st: Stmt, m: Mem, p: int): Out {
    if fuel == 0 then OutTimeout else RunStmt(fuel - 1, env, st, m, p)
  }

  // A turn that took at least one line leaves one turn less to time out in.
  lemma OutTurn(w: World, o: Out, m: Mem, m1: Mem, p: int, s: Mach, n1: nat, t1: Mach, k1: nat, n2: nat, t2: Mach, k: nat, kb: nat, kc: nat, fuel: nat)
    requires w.p.Valid() && s.cpu.Valid() && t1.cpu.Valid() && n1 > 0 && fuel > 0
    requires Arrived(w, m, m1, p, s, n1, t1, k1) && SimOut(w, o, m1, p, t1, n2, t2, k, kb, kc, fuel - 1)
    ensures SimOut(w, o, m, p, s, n1 + n2, t2, k, kb, kc, fuel)
  {
    hide Arrived, Ahead, LineRun;
    OutAfter(w, o, m, m1, p, s, n1, t1, k1, n2, t2, k, kb, kc, fuel - 1);
  }

  lemma OutOfTime(w: World, m: Mem, m1: Mem, p: int, s: Mach, n: nat, t: Mach, k: nat, kb: nat, kc: nat, k1: nat)
    requires w.p.Valid() && s.cpu.Valid() && Arrived(w, m, m1, p, s, n, t, k1)
    ensures SimOut(w, OutTimeout, m, p, s, n, t, k, kb, kc, 0)
  {
  }

  // The machine is back at the first line of the loop.
  lemma {:induction false} SimBack(w: World, fuel: nat, st: Stmt, tg: Targets, c: nat, m0: Mem, m: Mem, p: int, s0: Mach, n0: nat, s: Mach, kb: nat, kc: nat)
    returns (n: nat, t: Mach)
    requires Ok(w) && CompilesStmt(st, tg.brk.Some?, tg.cont.Some?) && TargetsOk(w, tg, kb, kc)
    requires s0.cpu.Valid() && n0 > 0 && Arrived(w, m0, m, p, s0, n0, s, s.k)
    requires Ahead(w, s, StmtCode(w.Near(), st, tg, c).code)
    ensures SimOut(w, Back(fuel, w.env, st, m, p), m0, p, s0, n, t, s.k + |StmtCode(w.Near(), st, tg, c).code|, kb, kc, fuel)
    decreases fuel, st, 0
  {
    hide LineRun, LineStep, Total, Ok, Ahead, SimOut, Inv, Arrived, StmtCode, RunStmt, TargetsOk, CompilesStmt;
    OkValid(w);
    ArrivedInv(w, m0, m, p, s0, n0, s, s.k);
    var end := s.k + |StmtCode(w.Near(), st, tg, c).code|;
    if fuel == 0 {
      n, t := n0, s;
      OutOfTime(w, m0, m, p, s0, n, t, end, kb, kc, s.k);
    } else {
      var n2, t2 := SimStmt(w, fuel - 1, st, tg, c, m, p, s, kb, kc);
      OutTurn(w, RunStmt(fuel - 1, w.env, st, m, p), m0, m, p, s0, n0, s, s.k, n2, t2, end, kb, kc, fuel);
      n, t := n0 + n2, t2;
    }
  }

  // The machine is at the last line of a construct, a label.
  lemma SimEnd(w: World, m0: Mem, m: Mem, p: int, s0: Mach, n0: nat, s: Mach, y: Sym, kb: nat, kc: nat, fuel: nat)
    returns (n: nat, t: Mach)
    requires !y.Poll? && Ok(w) && s0.cpu.Valid() && Arrived(w, m0, m, p, s0, n0, s, s.k) && LabelAt(w, s.k, y)
    ensures SimOut(w, Normal(m), m0, p, s0, n, t, s.k + 1, kb, kc, fuel)
  {
    hide LineRun, LineStep, Total, Ok, Ahead, SimOut, Inv, Arrived;
    OkValid(w);
    ArrivedInv(w, m0, m, p, s0, n0, s, s.k);
    LabelAhead(w, s, y);
    var n1, t1 := SimMark(w, m, p, s, y);
    Then(w, m0, m, m, p, s0, n0, s, s.k, n1, t1, s.k + 1);
    n, t := n0 + n1, t1;
    MakeNormal(w, m0, m, p, s0, n, t, s.k + 1, kb, kc, fuel);
  }

  lemma LabelAhead(w: World, s: Mach, y: Sym)
    requires LabelAt(w, s.k, y)
    ensures Ahead(w, s, [Label(y)])
  {
  }

  function WhileNext(fuel: nat, env: Env, st: Stmt, o: Out, p: int): Out {
    match o
    case Normal(m) => Back(fuel, env, st, m, p)
    case Continued(m) => Back(fuel, env, st, m, p)
    case Broke(m) => Normal(m)
    case _ => o
  }

  lemma WhileShape(w: World, fuel: nat, st: Stmt, tg: Targets, c: nat, m: Mem, p: int)
    requires st.While?
    ensures var a := ExprCode(w.Near(), st.c, c + 3);
            StmtCode(w.Near(), st, tg, c).code ==
            [Label(Local(c)), Label(Poll(c + 2))] + ((a.code + TestCode(Je, Local(c + 1)))
              + (StmtsCode(w.Near(), st.body, Targets(Some(Local(c + 1)), Some(Local(c))), a.next).code
                 + [Jump(Local(c)), Label(Local(c + 1))]))
    ensures var r := Eval(fuel, w.env, st.c, m, p);
            RunStmt(fuel, w.env, st, m, p) ==
            if !Room(w.env, p) then OutStuck
            else if !r.Val? then ExprOut(Strict(r))
            else if r.v == 0 then Normal(r.m)
            else WhileNext(fuel, w.env, st, RunStmts(fuel, w.env, st.body, r.m, p), p)
  {
    hide TestCode, ExprCode, Eval, RunStmts, StmtsCode;
    var a := BranchCode(w.Near(), st.c, Je, Local(c + 1), c + 3);
    var b := StmtsCode(w.Near(), st.body, Targets(Some(Local(c + 1)), Some(Local(c))), a.next);
    var x, z := [Label(Local(c)), Label(Poll(c + 2))], [Jump(Local(c)), Label(Local(c + 1))];
    assert x + a.code + b.code + z == x + (a.code + (b.code + z));
  }

  // Past the label and the safe point of a loop.
  lemma SimLoopHead(w: World, m: Mem, p: int, s: Mach, x: nat, y: nat, rest: seq<Line>) returns (n: nat, t: Mach)
    requires Ok(w) && Inv(w, m, p, s) && Ahead(w, s, [Label(Local(x)), Label(Poll(y))] + rest) && Room(w.env, p)
    ensures n > 0 && Arrived(w, m, m, p, s, n, t, s.k + 2) && Inv(w, m, p, t) && t.cpu.Valid() && t.k == s.k + 2
    ensures Ahead(w, t, rest)
  {
    hide LineRun, LineStep, Total, Ok, Ahead, Inv, Arrived, Room;
    OkValid(w);
    InvValid(w, m, p, s);
    var code := [Label(Local(x)), Label(Poll(y))];
    SplitAhead(w, s, code, rest);
    var t1 := MarkStep(w, m, p, s, code);
    StepArrived(w, m, p, s, t1, code);
    n, t := SafeStep(w, m, p, t1, code[1..], y);
    ArrivedInv(w, m, m, p, t1, n, t, t1.k + 1);
    Then(w, m, m, m, p, s, 1, t1, s.k + 1, n, t, s.k + 2);
    n := n + 1;
  }

  lemma LoopTargets(w: World, brk: Sym, cont: Sym, kb: nat, kc: nat)
    requires LabelAt(w, kb, brk) && LabelAt(w, kc, cont)
    ensures TargetsOk(w, Targets(Some(brk), Some(cont)), kb, kc)
  {
    hide LabelAt;
  }

  lemma {:induction false} SimWhile(w: World, fuel: nat, st: Stmt, tg: Targets, c: nat, m: Mem, p: int, s: Mach, kb: nat, kc: nat)
    returns (n: nat, t: Mach)
    requires st.While? && Ok(w) && Inv(w, m, p, s) && CompilesStmt(st, tg.brk.Some?, tg.cont.Some?) && TargetsOk(w, tg, kb, kc)
    requires Ahead(w, s, StmtCode(w.Near(), st, tg, c).code)
    ensures SimOut(w, RunStmt(fuel, w.env, st, m, p), m, p, s, n, t, s.k + |StmtCode(w.Near(), st, tg, c).code|, kb, kc, fuel)
    decreases fuel, st, 4
  {
    hide LineRun, LineStep, Total, Ok, Ahead, SimOut, Sim, Inv, Arrived, ExprCode, Eval, StmtsCode, StmtCode, RunStmts, RunStmt, LabelAt,
         TargetsOk, WhileNext;
    OkValid(w);
    InvValid(w, m, p, s);
    WhileShape(w, fuel, st, tg, c, m, p);
    if !Room(w.env, p) {
      n, t := 0, s;
      OutStuckIs(w, m, p, s, n, t, s.k + |StmtCode(w.Near(), st, tg, c).code|, kb, kc, fuel);
      return;
    }
    var code := StmtCode(w.Near(), st, tg, c).code;
    var a := ExprCode(w.Near(), st.c, c + 3);
    var front := a.code + TestCode(Je, Local(c + 1));
    var b := StmtsCode(w.Near(), st.body, Targets(Some(Local(c + 1)), Some(Local(c))), a.next);
    var z := [Jump(Local(c)), Label(Local(c + 1))];
    var end := s.k + |code|;
    AheadCode(w, s, code);
    LabelOfCode(w, s.k, code, 0, Local(c));
    LabelOfCode(w, s.k, code, |code| - 1, Local(c + 1));
    var n0, t0 := SimLoopHead(w, m, p, s, c, c + 2, front + (b.code + z));
    PartsAt(w, t0, front, b.code, z);
    n, t := SimBranch(w, fuel, st.c, Local(c + 1), end - 1, c + 3, m, p, t0, front);
    var r := Eval(fuel, w.env, st.c, m, p);
    if !r.Val? {
      OutOfStrict(w, r, m, p, t0, n, t, end, kb, kc, fuel);
      OutAfter(w, ExprOut(Strict(r)), m, m, p, s, n0, t0, t0.k, n, t, end, kb, kc, fuel);
      n := n0 + n;
    } else {
      ArrivedInv(w, m, r.m, p, t0, n, t, if r.v == 0 then end - 1 else t0.k + |front|);
      Then(w, m, m, r.m, p, s, n0, t0, t0.k, n, t, t.k);
      if r.v == 0 {
        n, t := SimEnd(w, m, r.m, p, s, n0 + n, t, Local(c + 1), kb, kc, fuel);
      } else {
        n, t := SimWhileBody(w, fuel, st, tg, c, a.next, m, r.m, p, s, n0 + n, t, kb, kc);
      }
    }
  }

  // The body of a while, and what comes after it.  s0 is at the loop's start.
  lemma {:induction false} SimWhileBody(w: World, fuel: nat, st: Stmt, tg: Targets, c: nat, d: nat, m0: Mem, m: Mem, p: int, s0: Mach, n0: nat, s: Mach, kb: nat, kc: nat)
    returns (n: nat, t: Mach)
    requires st.While? && Ok(w) && CompilesStmt(st, tg.brk.Some?, tg.cont.Some?) && TargetsOk(w, tg, kb, kc)
    requires s0.cpu.Valid() && n0 > 0 && Arrived(w, m0, m, p, s0, n0, s, s.k)
    requires Ahead(w, s0, StmtCode(w.Near(), st, tg, c).code)
    requires var body := StmtsCode(w.Near(), st.body, Targets(Some(Local(c + 1)), Some(Local(c))), d).code;
             && CodeAt(w.p, w.env.unit, s.k, body)
             && CodeAt(w.p, w.env.unit, s.k + |body|, [Jump(Local(c)), Label(Local(c + 1))])
             && s.k + |body| + 2 == s0.k + |StmtCode(w.Near(), st, tg, c).code|
    requires LabelAt(w, s0.k, Local(c))
    ensures SimOut(w, WhileNext(fuel, w.env, st, RunStmts(fuel, w.env, st.body, m, p), p), m0, p, s0, n, t,
                   s0.k + |StmtCode(w.Near(), st, tg, c).code|, kb, kc, fuel)
    decreases fuel, st, 3
  {
    hide LineRun, LineStep, Total, Ok, Ahead, SimOut, Sim, Inv, Arrived, ExprCode, Eval, StmtsCode, StmtCode, RunStmts, RunStmt, LabelAt,
         TargetsOk, Back, CodeAt;
    OkValid(w);
    ArrivedInv(w, m0, m, p, s0, n0, s, s.k);
    var inner := Targets(Some(Local(c + 1)), Some(Local(c)));
    var body := StmtsCode(w.Near(), st.body, inner, d).code;
    var z := [Jump(Local(c)), Label(Local(c + 1))];
    var kz := s.k + |body|;
    var end := kz + 2;
    LabelOfCode(w, kz, z, 1, Local(c + 1));
    LoopTargets(w, Local(c + 1), Local(c), kz + 1, s0.k);
    CodeAhead(w, s, body);
    n, t := SimStmts(w, fuel, st.body, inner, d, m, p, s, kz + 1, s0.k);
    var o := RunStmts(fuel, w.env, st.body, m, p);
    OutFacts(w, o, m, p, s, n, t, kz, kz + 1, s0.k, fuel);
    AheadAt(w, s0, t, StmtCode(w.Near(), st, tg, c).code);
    if o.Normal? {
      CodeAhead(w, t, z);
      var n1, t1 := JumpStep(w, o.m, p, t, z, Local(c), s0.k);
      ArrivedInv(w, o.m, o.m, p, t, n1, t1, s0.k);
      Then(w, m0, m, o.m, p, s0, n0, s, s.k, n, t, kz);
      Then(w, m0, o.m, o.m, p, s0, n0 + n, t, kz, n1, t1, s0.k);
      AheadAt(w, s0, t1, StmtCode(w.Near(), st, tg, c).code);
      n, t := SimBack(w, fuel, st, tg, c, m0, o.m, p, s0, n0 + n + n1, t1, kb, kc);
    } else if o.Continued? {
      Then(w, m0, m, o.m, p, s0, n0, s, s.k, n, t, s0.k);
      n, t := SimBack(w, fuel, st, tg, c, m0, o.m, p, s0, n0 + n, t, kb, kc);
    } else if o.Broke? {
      Then(w, m0, m, o.m, p, s0, n0, s, s.k, n, t, kz + 1);
      n, t := SimEnd(w, m0, o.m, p, s0, n0 + n, t, Local(c + 1), kb, kc, fuel);
    } else {
      OutThrough(w, o, m, p, s, n, t, kz, kz + 1, s0.k, end, kb, kc, fuel);
      OutAfter(w, o, m0, m, p, s0, n0, s, s.k, n, t, end, kb, kc, fuel);
      n := n0 + n;
    }
  }

  lemma AheadAt(w: World, s: Mach, t: Mach, code: seq<Line>)
    requires Ahead(w, s, code)
    ensures t.k == s.k ==> Ahead(w, t, code)
  {
  }

  // ---- do-while ----

  function DoNext(fuel: nat, env: Env, st: Stmt, o: Out, p: int): Out
    requires st.DoWhile?
  {
    match o
    case Normal(m) => Again(fuel, env, st, m, p)
    case Continued(m) => Again(fuel, env, st, m, p)
    case Broke(m) => Normal(m)
    case _ => o
  }

  // The code after the body.
  function DoTail(near: set<string>, e: Expr, c: nat, d: nat): seq<Line> {
    [Label(Local(c + 1))] + ((ExprCode(near, e, d).code + TestCode(Je, Local(c + 2))) + [Jump(Local(c)), Label(Local(c + 2))])
  }

  lemma DoShape(w: World, fuel: nat, st: Stmt, tg: Targets, c: nat, m: Mem, p: int)
    requires st.DoWhile?
    ensures var b := StmtsCode(w.Near(), st.body, Targets(Some(Local(c + 2)), Some(Local(c + 1))), c + 4);
            StmtCode(w.Near(), st, tg, c).code ==
            [Label(Local(c)), Label(Poll(c + 3))] + (b.code + DoTail(w.Near(), st.c, c, b.next))
    ensures RunStmt(fuel, w.env, st, m, p) ==
            if !Room(w.env, p) then OutStuck else DoNext(fuel, w.env, st, RunStmts(fuel, w.env, st.body, m, p), p)
  {
    hide TestCode, ExprCode, Eval, RunStmts, StmtsCode, Again;
    var b := StmtsCode(w.Near(), st.body, Targets(Some(Local(c + 2)), Some(Local(c + 1))), c + 4);
    var a := BranchCode(w.Near(), st.c, Je, Local(c + 2), b.next);
    var x, y, z := [Label(Local(c)), Label(Poll(c + 3))], [Label(Local(c + 1))], [Jump(Local(c)), Label(Local(c + 2))];
    assert x + b.code + y + a.code + z == x + (b.code + (y + (a.code + z)));
  }

  lemma AgainIs(fuel: nat, env: Env, st: Stmt, m: Mem, p: int)
    requires st.DoWhile?
    ensures var r := Eval(fuel, env, st.c, m, p);
            Again(fuel, env, st, m, p) ==
            if !r.Val? then ExprOut(Strict(r)) else if r.v == 0 then Normal(r.m) else Back(fuel, env, st, r.m, p)
  {
    hide Eval, RunStmt;
  }

  lemma {:induction false} SimDoWhile(w: World, fuel: nat, st: Stmt, tg: Targets, c: nat, m: Mem, p: int, s: Mach, kb: nat, kc: nat)
    returns (n: nat, t: Mach)
    requires st.DoWhile? && Ok(w) && Inv(w, m, p, s) && CompilesStmt(st, tg.brk.Some?, tg.cont.Some?) && TargetsOk(w, tg, kb, kc)
    requires Ahead(w, s, StmtCode(w.Near(), st, tg, c).code)
    ensures SimOut(w, RunStmt(fuel, w.env, st, m, p), m, p, s, n, t, s.k + |StmtCode(w.Near(), st, tg, c).code|, kb, kc, fuel)
    decreases fuel, st, 4
  {
    hide LineRun, LineStep, Total, Ok, Ahead, SimOut, Sim, Inv, Arrived, ExprCode, Eval, StmtsCode, StmtCode, RunStmts, RunStmt, LabelAt,
         TargetsOk, Again, DoTail;
    OkValid(w);
    InvValid(w, m, p, s);
    DoShape(w, fuel, st, tg, c, m, p);
    if !Room(w.env, p) {
      n, t := 0, s;
      OutStuckIs(w, m, p, s, n, t, s.k + |StmtCode(w.Near(), st, tg, c).code|, kb, kc, fuel);
      return;
    }
    var code := StmtCode(w.Near(), st, tg, c).code;
    var inner := Targets(Some(Local(c + 2)), Some(Local(c + 1)));
    var b := StmtsCode(w.Near(), st.body, inner, c + 4);
    var tail := DoTail(w.Near(), st.c, c, b.next);
    var end := s.k + |code|;
    var kt := s.k + 2 + |b.code|;
    AheadCode(w, s, code);
    LabelOfCode(w, s.k, code, 0, Local(c));
    var n0, t0 := SimLoopHead(w, m, p, s, c, c + 3, b.code + tail);
    AheadCode(w, t0, b.code + tail);
    CodeSplit(w.p, w.env.unit, t0.k, b.code, tail);
    DoLabels(w, kt, tail, st.c, c, b.next);
    LoopTargets(w, Local(c + 2), Local(c + 1), end - 1, kt);
    CodeAhead(w, t0, b.code);
    n, t := SimStmts(w, fuel, st.body, inner, c + 4, m, p, t0, end - 1, kt);
    var o := RunStmts(fuel, w.env, st.body, m, p);
    OutFacts(w, o, m, p, t0, n, t, kt, end - 1, kt, fuel);
    if o.Normal? || o.Continued? {
      Then(w, m, m, o.m, p, s, n0, t0, t0.k, n, t, kt);
      n, t := SimAgain(w, fuel, st, tg, c, b.next, m, o.m, p, s, n0 + n, t, kb, kc);
    } else if o.Broke? {
      Then(w, m, m, o.m, p, s, n0, t0, t0.k, n, t, end - 1);
      n, t := SimEnd(w, m, o.m, p, s, n0 + n, t, Local(c + 2), kb, kc, fuel);
    } else {
      OutThrough(w, o, m, p, t0, n, t, kt, end - 1, kt, end, kb, kc, fuel);
      OutAfter(w, o, m, m, p, s, n0, t0, t0.k, n, t, end, kb, kc, fuel);
      n := n0 + n;
    }
  }

  lemma DoLabels(w: World, k: nat, tail: seq<Line>, e: Expr, c: nat, d: nat)
    requires CodeAt(w.p, w.env.unit, k, tail) && tail == DoTail(w.Near(), e, c, d)
    ensures |tail| > 1 && LabelAt(w, k, Local(c + 1)) && LabelAt(w, k + |tail| - 1, Local(c + 2))
  {
    hide LabelAt, CodeAt, ExprCode;
    LabelOfCode(w, k, tail, 0, Local(c + 1));
    LabelOfCode(w, k, tail, |tail| - 1, Local(c + 2));
  }

  // From the label before the condition.  s0 is at the loop's start.
  lemma {:induction false} SimAgain(w: World, fuel: nat, st: Stmt, tg: Targets, c: nat, d: nat, m0: Mem, m: Mem, p: int, s0: Mach, n0: nat, s: Mach, kb: nat, kc: nat)
    returns (n: nat, t: Mach)
    requires st.DoWhile? && Ok(w) && CompilesStmt(st, tg.brk.Some?, tg.cont.Some?) && TargetsOk(w, tg, kb, kc)
    requires s0.cpu.Valid() && n0 > 0 && Arrived(w, m0, m, p, s0, n0, s, s.k)
    requires Ahead(w, s0, StmtCode(w.Near(), st, tg, c).code) && LabelAt(w, s0.k, Local(c))
    requires CodeAt(w.p, w.env.unit, s.k, DoTail(w.Near(), st.c, c, d))
    requires s.k + |DoTail(w.Near(), st.c, c, d)| == s0.k + |StmtCode(w.Near(), st, tg, c).code|
    ensures SimOut(w, Again(fuel, w.env, st, m, p), m0, p, s0, n, t, s0.k + |StmtCode(w.Near(), st, tg, c).code|, kb, kc, fuel)
    decreases fuel, st, 3
  {
    hide LineRun, LineStep, Total, Ok, Ahead, SimOut, Sim, Inv, Arrived, ExprCode, Eval, StmtCode, RunStmts, RunStmt, LabelAt,
         TargetsOk, Again, Back;
    OkValid(w);
    ArrivedInv(w, m0, m, p, s0, n0, s, s.k);
    AgainIs(fuel, w.env, st, m, p);
    var front := ExprCode(w.Near(), st.c, d).code + TestCode(Je, Local(c + 2));
    var z := [Jump(Local(c)), Label(Local(c + 2))];
    var end := s.k + 3 + |front|;
    CodeAhead(w, s, DoTail(w.Near(), st.c, c, d));
    SplitAhead(w, s, [Label(Local(c + 1))], front + z);
    var n1, t1 := SimMark(w, m, p, s, Local(c + 1));
    Then(w, m0, m, m, p, s0, n0, s, s.k, n1, t1, t1.k);
    SplitAhead(w, t1, front, z);
    DoLabels(w, s.k, DoTail(w.Near(), st.c, c, d), st.c, c, d);
    n, t := SimBranch(w, fuel, st.c, Local(c + 2), end - 1, d, m, p, t1, front);
    var r := Eval(fuel, w.env, st.c, m, p);
    if !r.Val? {
      OutOfStrict(w, r, m, p, t1, n, t, end, kb, kc, fuel);
      OutAfter(w, ExprOut(Strict(r)), m0, m, p, s0, n0 + n1, t1, t1.k, n, t, end, kb, kc, fuel);
      n := n0 + n1 + n;
    } else {
      ArrivedInv(w, m, r.m, p, t1, n, t, if r.v == 0 then end - 1 else t1.k + |front|);
      Then(w, m0, m, r.m, p, s0, n0 + n1, t1, t1.k, n, t, t.k);
      if r.v == 0 {
        n, t := SimEnd(w, m0, r.m, p, s0, n0 + n1 + n, t, Local(c + 2), kb, kc, fuel);
      } else {
        var n2, t2 := JumpStep(w, r.m, p, t, z, Local(c), s0.k);
        ArrivedInv(w, r.m, r.m, p, t, n2, t2, s0.k);
        Then(w, m0, r.m, r.m, p, s0, n0 + n1 + n, t, t.k, n2, t2, s0.k);
        AheadAt(w, s0, t2, StmtCode(w.Near(), st, tg, c).code);
        n, t := SimBack(w, fuel, st, tg, c, m0, r.m, p, s0, n0 + n1 + n + n2, t2, kb, kc);
      }
    }
  }

  // ---- for ----

  function ForNext(fuel: nat, env: Env, st: Stmt, o: Out, p: int): Out
    requires st.For?
  {
    match o
    case Normal(m) => Turn(fuel, env, st, m, p)
    case Continued(m) => Turn(fuel, env, st, m, p)
    case Broke(m) => Normal(m)
    case _ => o
  }

  // The loop's condition, always true when there is none.
  function CondRes(fuel: nat, env: Env, cond: Option<Expr>, m: Mem, p: int): Res {
    match cond case None => Val(1, m) case Some(e) => Eval(fuel, env, e, m, p)
  }

  function CondCode(near: set<string>, cond: Option<Expr>, y: Sym, c: nat): Gen {
    match cond case None => Gen([], c) case Some(e) => BranchCode(near, e, Je, y, c)
  }

  function IncRes(fuel: nat, env: Env, inc: Option<Expr>, m: Mem, p: int): Res {
    match inc case None => Void(m) case Some(e) => Eval(fuel, env, e, m, p)
  }

  function IncCode(near: set<string>, inc: Option<Expr>, c: nat): Gen {
    match inc case None => Gen([], c) case Some(e) => ExprCode(near, e, c)
  }

  // The code after the body.
  function TurnCode(near: set<string>, inc: Option<Expr>, c: nat, d: nat): seq<Line> {
    [Label(Local(c + 1))] + (IncCode(near, inc, d).code + [Jump(Local(c)), Label(Local(c + 2))])
  }

  function LoopCode(near: set<string>, st: Stmt, c: nat, d: nat): seq<Line>
    requires st.For?
  {
    ForCode(near, st.cond, st.inc, st.body, c, d).code
  }

  lemma ForShape(w: World, fuel: nat, st: Stmt, tg: Targets, c: nat, m: Mem, p: int)
    requires st.For?
    ensures var i := StmtsCode(w.Near(), st.init, tg, c + 3);
            StmtCode(w.Near(), st, tg, c).code == i.code + LoopCode(w.Near(), st, c, i.next)
    ensures var o := RunStmts(fuel, w.env, st.init, m, p);
            RunStmt(fuel, w.env, st, m, p) == if o.Normal? then Loop(fuel, w.env, st, o.m, p) else o
  {
    hide RunStmts, StmtsCode, Loop, ForCode;
  }

  lemma LoopShape(w: World, fuel: nat, st: Stmt, c: nat, d: nat, m: Mem, p: int)
    requires st.For?
    ensures var a := CondCode(w.Near(), st.cond, Local(c + 2), d + 1);
            var b := StmtsCode(w.Near(), st.body, Targets(Some(Local(c + 2)), Some(Local(c + 1))), a.next);
            LoopCode(w.Near(), st, c, d) ==
            [Label(Local(c)), Label(Poll(d))] + (a.code + (b.code + TurnCode(w.Near(), st.inc, c, b.next)))
    ensures var r := CondRes(fuel, w.env, st.cond, m, p);
            Loop(fuel, w.env, st, m, p) ==
            if !Room(w.env, p) then OutStuck
            else if !r.Val? then ExprOut(Strict(r))
            else if r.v == 0 then Normal(r.m)
            else ForNext(fuel, w.env, st, RunStmts(fuel, w.env, st.body, r.m, p), p)
  {
    hide ExprCode, Eval, RunStmts, StmtsCode, Turn, BranchCode;
    var a := CondCode(w.Near(), st.cond, Local(c + 2), d + 1);
    var b := StmtsCode(w.Near(), st.body, Targets(Some(Local(c + 2)), Some(Local(c + 1))), a.next);
    var i := IncCode(w.Near(), st.inc, b.next);
    var x, y, z := [Label(Local(c)), Label(Poll(d))], [Label(Local(c + 1))], [Jump(Local(c)), Label(Local(c + 2))];
    assert x + a.code + b.code + y + i.code + z == x + (a.code + (b.code + (y + (i.code + z))));
  }

  lemma TurnIs(fuel: nat, env: Env, st: Stmt, m: Mem, p: int)
    requires st.For?
    ensures var r := IncRes(fuel, env, st.inc, m, p);
            Turn(fuel, env, st, m, p) ==
            if r.Val? || r.Void? then if fuel == 0 then OutTimeout else Loop(fuel - 1, env, st, r.m, p) else ExprOut(r)
  {
    hide Eval, Loop;
  }

  lemma {:induction false} SimFor(w: World, fuel: nat, st: Stmt, tg: Targets, c: nat, m: Mem, p: int, s: Mach, kb: nat, kc: nat)
    returns (n: nat, t: Mach)
    requires st.For? && Ok(w) && Inv(w, m, p, s) && CompilesStmt(st, tg.brk.Some?, tg.cont.Some?) && TargetsOk(w, tg, kb, kc)
    requires Ahead(w, s, StmtCode(w.Near(), st, tg, c).code)
    ensures SimOut(w, RunStmt(fuel, w.env, st, m, p), m, p, s, n, t, s.k + |StmtCode(w.Near(), st, tg, c).code|, kb, kc, fuel)
    decreases fuel, st, 4
  {
    hide LineRun, LineStep, Total, Ok, Ahead, SimOut, Inv, Arrived, StmtsCode, StmtCode, RunStmts, RunStmt, TargetsOk, Loop, LoopCode;
    OkValid(w);
    InvValid(w, m, p, s);
    ForShape(w, fuel, st, tg, c, m, p);
    var i := StmtsCode(w.Near(), st.init, tg, c + 3);
    var loop := LoopCode(w.Near(), st, c, i.next);
    var end := s.k + |i.code| + |loop|;
    SplitAhead(w, s, i.code, loop);
    n, t := SimStmts(w, fuel, st.init, tg, c + 3, m, p, s, kb, kc);
    var o := RunStmts(fuel, w.env, st.init, m, p);
    OutFacts(w, o, m, p, s, n, t, s.k + |i.code|, kb, kc, fuel);
    if o.Normal? {
      var n2, t2 := SimLoop(w, fuel, st, tg, c, i.next, o.m, p, t, kb, kc);
      OutAfter(w, Loop(fuel, w.env, st, o.m, p), m, o.m, p, s, n, t, t.k, n2, t2, end, kb, kc, fuel);
      n, t := n + n2, t2;
    } else {
      OutElsewhere(w, o, m, p, s, n, t, s.k + |i.code|, end, kb, kc, fuel);
    }
  }

  // The condition of a for: to the end label when it is false.
  lemma {:induction false} SimCond(w: World, fuel: nat, cond: Option<Expr>, y: Sym, k: nat, c: nat, m: Mem, p: int, s: Mach, code: seq<Line>)
    returns (n: nat, t: Mach)
    requires (cond.Some? ==> Compiles(cond.value)) && Ok(w) && Inv(w, m, p, s) && Ahead(w, s, code) && LabelAt(w, k, y)
    requires code == CondCode(w.Near(), cond, y, c).code
    ensures var r := CondRes(fuel, w.env, cond, m, p);
            if r.Val? then Arrived(w, m, r.m, p, s, n, t, if r.v == 0 then k else s.k + |code|) && Inv(w, r.m, p, t)
            else Sim(w, Strict(r), m, p, s, n, t, 0, R1, fuel)
    decreases fuel, cond, 11
  {
    hide LineRun, LineStep, Total, Ok, Ahead, Sim, Inv, Arrived, Eval, ExprCode, LabelAt;
    OkValid(w);
    InvValid(w, m, p, s);
    match cond
    case None =>
      Stay(w, m, p, s);
      n, t := 0, s;
    case Some(e) => n, t := SimBranch(w, fuel, e, y, k, c, m, p, s, code);
  }

  lemma {:induction false} SimLoop(w: World, fuel: nat, st: Stmt, tg: Targets, c: nat, d: nat, m: Mem, p: int, s: Mach, kb: nat, kc: nat)
    returns (n: nat, t: Mach)
    requires st.For? && Ok(w) && Inv(w, m, p, s) && CompilesStmt(st, tg.brk.Some?, tg.cont.Some?)
    requires Ahead(w, s, LoopCode(w.Near(), st, c, d))
    ensures SimOut(w, Loop(fuel, w.env, st, m, p), m, p, s, n, t, s.k + |LoopCode(w.Near(), st, c, d)|, kb, kc, fuel)
    decreases fuel, st, 3
  {
    hide LineRun, LineStep, Total, Ok, Ahead, SimOut, Sim, Inv, Arrived, ExprCode, Eval, StmtsCode, StmtCode, RunStmts, LabelAt,
         Turn, Loop, TurnCode, LoopCode, CondCode, CondRes;
    OkValid(w);
    InvValid(w, m, p, s);
    LoopShape(w, fuel, st, c, d, m, p);
    if !Room(w.env, p) {
      n, t := 0, s;
      OutStuckIs(w, m, p, s, n, t, s.k + |LoopCode(w.Near(), st, c, d)|, kb, kc, fuel);
      return;
    }
    var code := LoopCode(w.Near(), st, c, d);
    var a := CondCode(w.Near(), st.cond, Local(c + 2), d + 1);
    var b := StmtsCode(w.Near(), st.body, Targets(Some(Local(c + 2)), Some(Local(c + 1))), a.next);
    var tail := TurnCode(w.Near(), st.inc, c, b.next);
    var end := s.k + |code|;
    AheadCode(w, s, code);
    LabelOfCode(w, s.k, code, 0, Local(c));
    var n0, t0 := SimLoopHead(w, m, p, s, c, d, a.code + (b.code + tail));
    PartsAt(w, t0, a.code, b.code, tail);
    TurnLabels(w, t0.k + |a.code| + |b.code|, tail, st.inc, c, b.next);
    n, t := SimCond(w, fuel, st.cond, Local(c + 2), end - 1, d + 1, m, p, t0, a.code);
    var r := CondRes(fuel, w.env, st.cond, m, p);
    if !r.Val? {
      OutOfStrict(w, r, m, p, t0, n, t, end, kb, kc, fuel);
      OutAfter(w, ExprOut(Strict(r)), m, m, p, s, n0, t0, t0.k, n, t, end, kb, kc, fuel);
      n := n0 + n;
    } else {
      ArrivedInv(w, m, r.m, p, t0, n, t, if r.v == 0 then end - 1 else t0.k + |a.code|);
      Then(w, m, m, r.m, p, s, n0, t0, t0.k, n, t, t.k);
      if r.v == 0 {
        n, t := SimEnd(w, m, r.m, p, s, n0 + n, t, Local(c + 2), kb, kc, fuel);
      } else {
        n, t := SimForBody(w, fuel, st, tg, c, d, a.next, m, r.m, p, s, n0 + n, t, kb, kc);
      }
    }
  }

  lemma TurnLabels(w: World, k: nat, tail: seq<Line>, inc: Option<Expr>, c: nat, d: nat)
    requires CodeAt(w.p, w.env.unit, k, tail) && tail == TurnCode(w.Near(), inc, c, d)
    ensures |tail| > 1 && LabelAt(w, k, Local(c + 1)) && LabelAt(w, k + |tail| - 1, Local(c + 2))
  {
    hide LabelAt, CodeAt, ExprCode;
    LabelOfCode(w, k, tail, 0, Local(c + 1));
    LabelOfCode(w, k, tail, |tail| - 1, Local(c + 2));
  }

  lemma {:induction false} SimForBody(w: World, fuel: nat, st: Stmt, tg: Targets, c: nat, d: nat, e: nat, m0: Mem, m: Mem, p: int, s0: Mach, n0: nat, s: Mach, kb: nat, kc: nat)
    returns (n: nat, t: Mach)
    requires st.For? && Ok(w) && CompilesStmt(st, tg.brk.Some?, tg.cont.Some?)
    requires s0.cpu.Valid() && n0 > 0 && Arrived(w, m0, m, p, s0, n0, s, s.k)
    requires Ahead(w, s0, LoopCode(w.Near(), st, c, d)) && LabelAt(w, s0.k, Local(c))
    requires var b := StmtsCode(w.Near(), st.body, Targets(Some(Local(c + 2)), Some(Local(c + 1))), e);
             var tail := TurnCode(w.Near(), st.inc, c, b.next);
             && CodeAt(w.p, w.env.unit, s.k, b.code) && CodeAt(w.p, w.env.unit, s.k + |b.code|, tail)
             && s.k + |b.code| + |tail| == s0.k + |LoopCode(w.Near(), st, c, d)|
    ensures SimOut(w, ForNext(fuel, w.env, st, RunStmts(fuel, w.env, st.body, m, p), p), m0, p, s0, n, t,
                   s0.k + |LoopCode(w.Near(), st, c, d)|, kb, kc, fuel)
    decreases fuel, st, 2
  {
    hide LineRun, LineStep, Total, Ok, Ahead, SimOut, Sim, Inv, Arrived, StmtsCode, RunStmts, LabelAt, Turn, TurnCode, LoopCode, CodeAt;
    OkValid(w);
    ArrivedInv(w, m0, m, p, s0, n0, s, s.k);
    var inner := Targets(Some(Local(c + 2)), Some(Local(c + 1)));
    var b := StmtsCode(w.Near(), st.body, inner, e);
    var tail := TurnCode(w.Near(), st.inc, c, b.next);
    var kt := s.k + |b.code|;
    var end := kt + |tail|;
    TurnLabels(w, kt, tail, st.inc, c, b.next);
    LoopTargets(w, Local(c + 2), Local(c + 1), end - 1, kt);
    CodeAhead(w, s, b.code);
    n, t := SimStmts(w, fuel, st.body, inner, e, m, p, s, end - 1, kt);
    var o := RunStmts(fuel, w.env, st.body, m, p);
    OutFacts(w, o, m, p, s, n, t, kt, end - 1, kt, fuel);
    if o.Normal? || o.Continued? {
      Then(w, m0, m, o.m, p, s0, n0, s, s.k, n, t, kt);
      n, t := SimTurn(w, fuel, st, tg, c, d, b.next, m0, o.m, p, s0, n0 + n, t, kb, kc);
    } else if o.Broke? {
      Then(w, m0, m, o.m, p, s0, n0, s, s.k, n, t, end - 1);
      n, t := SimEnd(w, m0, o.m, p, s0, n0 + n, t, Local(c + 2), kb, kc, fuel);
    } else {
      OutThrough(w, o, m, p, s, n, t, kt, end - 1, kt, end, kb, kc, fuel);
      OutAfter(w, o, m0, m, p, s0, n0, s, s.k, n, t, end, kb, kc, fuel);
      n := n0 + n;
    }
  }

  // The increment, from its label.
  lemma {:induction false} SimInc(w: World, fuel: nat, inc: Option<Expr>, c: nat, m: Mem, p: int, s: Mach) returns (n: nat, t: Mach)
    requires (inc.Some? ==> Compiles(inc.value)) && Ok(w) && Inv(w, m, p, s) && Ahead(w, s, IncCode(w.Near(), inc, c).code)
    ensures Sim(w, IncRes(fuel, w.env, inc, m, p), m, p, s, n, t, s.k + |IncCode(w.Near(), inc, c).code|, R1, fuel)
    decreases fuel, inc, 11
  {
    hide LineRun, LineStep, Total, Ok, Ahead, Inv, Arrived, Eval, ExprCode;
    OkValid(w);
    InvValid(w, m, p, s);
    match inc
    case None =>
      Stay(w, m, p, s);
      n, t := 0, s;
    case Some(e) => n, t := SimExpr(w, fuel, e, c, m, p, s);
  }

  lemma {:induction false} SimTurn(w: World, fuel: nat, st: Stmt, tg: Targets, c: nat, d: nat, e: nat, m0: Mem, m: Mem, p: int, s0: Mach, n0: nat, s: Mach, kb: nat, kc: nat)
    returns (n: nat, t: Mach)
    requires st.For? && Ok(w) && CompilesStmt(st, tg.brk.Some?, tg.cont.Some?)
    requires s0.cpu.Valid() && n0 > 0 && Arrived(w, m0, m, p, s0, n0, s, s.k)
    requires Ahead(w, s0, LoopCode(w.Near(), st, c, d)) && LabelAt(w, s0.k, Local(c))
    requires CodeAt(w.p, w.env.unit, s.k, TurnCode(w.Near(), st.inc, c, e))
    requires s.k + |TurnCode(w.Near(), st.inc, c, e)| == s0.k + |LoopCode(w.Near(), st, c, d)|
    ensures SimOut(w, Turn(fuel, w.env, st, m, p), m0, p, s0, n, t, s0.k + |LoopCode(w.Near(), st, c, d)|, kb, kc, fuel)
    decreases fuel, st, 1
  {
    hide LineRun, LineStep, Total, Ok, Ahead, SimOut, Sim, Inv, Arrived, LabelAt, Turn, LoopCode, Loop, IncRes, IncCode;
    OkValid(w);
    ArrivedInv(w, m0, m, p, s0, n0, s, s.k);
    TurnIs(fuel, w.env, st, m, p);
    var i := IncCode(w.Near(), st.inc, e).code;
    var z := [Jump(Local(c)), Label(Local(c + 2))];
    var end := s.k + 3 + |i|;
    CodeAhead(w, s, TurnCode(w.Near(), st.inc, c, e));
    SplitAhead(w, s, [Label(Local(c + 1))], i + z);
    var n1, t1 := SimMark(w, m, p, s, Local(c + 1));
    Then(w, m0, m, m, p, s0, n0, s, s.k, n1, t1, t1.k);
    SplitAhead(w, t1, i, z);
    n, t := SimInc(w, fuel, st.inc, e, m, p, t1);
    var r := IncRes(fuel, w.env, st.inc, m, p);
    if r.Val? || r.Void? {
      SimValue(w, r, m, p, t1, n, t, t1.k + |i|, R1, fuel);
      Then(w, m0, m, r.m, p, s0, n0 + n1, t1, t1.k, n, t, t.k);
      var n2, t2 := JumpStep(w, r.m, p, t, z, Local(c), s0.k);
      ArrivedInv(w, r.m, r.m, p, t, n2, t2, s0.k);
      Then(w, m0, r.m, r.m, p, s0, n0 + n1 + n, t, t.k, n2, t2, s0.k);
      AheadAt(w, s0, t2, LoopCode(w.Near(), st, c, d));
      n, t := SimRound(w, fuel, st, tg, c, d, m0, r.m, p, s0, n0 + n1 + n + n2, t2, kb, kc);
    } else {
      OutOfRes(w, r, m, p, t1, n, t, t1.k + |i|, R1, kb, kc, fuel);
      OutElsewhere(w, ExprOut(r), m, p, t1, n, t, t1.k + |i|, end, kb, kc, fuel);
      OutAfter(w, ExprOut(r), m0, m, p, s0, n0 + n1, t1, t1.k, n, t, end, kb, kc, fuel);
      n := n0 + n1 + n;
    }
  }

  lemma {:induction false} SimRound(w: World, fuel: nat, st: Stmt, tg: Targets, c: nat, d: nat, m0: Mem, m: Mem, p: int, s0: Mach, n0: nat, s: Mach, kb: nat, kc: nat)
    returns (n: nat, t: Mach)
    requires st.For? && Ok(w) && CompilesStmt(st, tg.brk.Some?, tg.cont.Some?)
    requires s0.cpu.Valid() && n0 > 0 && Arrived(w, m0, m, p, s0, n0, s, s.k)
    requires Ahead(w, s, LoopCode(w.Near(), st, c, d))
    ensures SimOut(w, if fuel == 0 then OutTimeout else Loop(fuel - 1, w.env, st, m, p), m0, p, s0, n, t,
                   s.k + |LoopCode(w.Near(), st, c, d)|, kb, kc, fuel)
    decreases fuel, st, 0
  {
    hide LineRun, LineStep, Total, Ok, Ahead, SimOut, Inv, Arrived, LoopCode, Loop, CompilesStmt;
    OkValid(w);
    ArrivedInv(w, m0, m, p, s0, n0, s, s.k);
    var end := s.k + |LoopCode(w.Near(), st, c, d)|;
    if fuel == 0 {
      n, t := n0, s;
      OutOfTime(w, m0, m, p, s0, n, t, end, kb, kc, s.k);
    } else {
      var n2, t2 := SimLoop(w, fuel - 1, st, tg, c, d, m, p, s, kb, kc);
      OutTurn(w, Loop(fuel - 1, w.env, st, m, p), m0, m, p, s0, n0, s, s.k, n2, t2, end, kb, kc, fuel);
      n, t := n0 + n2, t2;
    }
  }

  // ---- switch ----

  // Every case label of the body is somewhere.
  ghost predicate CasesOk(w: World, body: Stmts) {
    body.Cons? ==>
      && (body.head.Case? ==> exists k: nat :: LabelAt(w, k, User(body.head.num)))
      && CasesOk(w, body.tail)
  }

  lemma {:induction false} CasesPlaced(w: World, body: Stmts, tg: Targets, c: nat, k: nat)
    requires CodeAt(w.p, w.env.unit, k, StmtsCode(w.Near(), body, tg, c).code)
    ensures CasesOk(w, body)
    decreases body
  {
    hide LabelAt, CodeAt;
    if body.Cons? {
      var a := StmtCode(w.Near(), body.head, tg, c);
      var b := StmtsCode(w.Near(), body.tail, tg, a.next);
      CodeSplit(w.p, w.env.unit, k, a.code, b.code);
      CasesPlaced(w, body.tail, tg, a.next, k + |a.code|);
      if body.head.Case? {
        assert a.code == [Label(User(body.head.num))];
        LabelOfCode(w, k, a.code, 0, User(body.head.num));
      }
    }
  }

  // The statements from some point of a list on: their code ends the list's.
  predicate Suffix(rest: Stmts, ss: Stmts)
    decreases ss
  {
    rest == ss || (ss.Cons? && Suffix(rest, ss.tail))
  }

  lemma {:induction false} SuffixCode(w: World, rest: Stmts, ss: Stmts, tg: Targets, c: nat, k: nat) returns (j: nat, d: nat)
    requires Suffix(rest, ss) && CodeAt(w.p, w.env.unit, k, StmtsCode(w.Near(), ss, tg, c).code)
    requires CompilesStmts(ss, tg.brk.Some?, tg.cont.Some?)
    ensures CodeAt(w.p, w.env.unit, j, StmtsCode(w.Near(), rest, tg, d).code)
    ensures j + |StmtsCode(w.Near(), rest, tg, d).code| == k + |StmtsCode(w.Near(), ss, tg, c).code|
    ensures CompilesStmts(rest, tg.brk.Some?, tg.cont.Some?)
    decreases ss
  {
    hide CodeAt, StmtCode, CompilesStmt;
    if rest == ss {
      j, d := k, c;
    } else {
      var a := StmtCode(w.Near(), ss.head, tg, c);
      var b := StmtsCode(w.Near(), ss.tail, tg, a.next);
      CodeSplit(w.p, w.env.unit, k, a.code, b.code);
      j, d := SuffixCode(w, rest, ss.tail, tg, a.next, k + |a.code|);
    }
  }

  lemma {:induction false} ChosenFrom(body: Stmts, v: Word)
    ensures var r := FromCase(body, v);
            r.Some? ==> Suffix(r.value, body) && r.value.Cons? && r.value.head.Case? && r.value.head.val == v
    ensures var r := FromDefault(body);
            r.Some? ==> Suffix(r.value, body) && r.value.Cons? && r.value.head.Default?
    ensures forall end :: DefaultSym(body, end) == if FromDefault(body).Some? then User(FromDefault(body).value.head.num) else end
  {
    if body.Cons? { ChosenFrom(body.tail, v); }
  }

  // The label at the head of a suffix.
  lemma SuffixLabel(w: World, rest: Stmts, tg: Targets, d: nat, k: nat)
    requires rest.Cons? && (rest.head.Case? || rest.head.Default?)
    requires CodeAt(w.p, w.env.unit, k, StmtsCode(w.Near(), rest, tg, d).code)
    ensures LabelAt(w, k, User(rest.head.num))
  {
    hide LabelAt, CodeAt;
    var a := StmtCode(w.Near(), rest.head, tg, d);
    CodeSplit(w.p, w.env.unit, k, a.code, StmtsCode(w.Near(), rest.tail, tg, a.next).code);
    assert a.code == [Label(User(rest.head.num))];
    LabelOfCode(w, k, a.code, 0, User(rest.head.num));
  }

  // One comparison of the chain.
  lemma SimCaseTest(w: World, m: Mem, p: int, s: Mach, slot: nat, val: Word, i: nat, v: Word, k: nat, code: seq<Line>) returns (n: nat, t: Mach)
    requires Ok(w) && Inv(w, m, p, s) && Ahead(w, s, code) && LabelAt(w, k, User(i)) && code == CaseTest(slot, val, i)
    requires LoadN(m, Wrap(w.env.fb - slot), 4) == Some(v)
    ensures Arrived(w, m, m, p, s, n, t, if v == val then k else s.k + |code|) && Inv(w, m, p, t)
  {
    hide LineRun, LineStep, Total, Ok, Ahead, Inv, Arrived, LabelAt, Agrees, NumCode, LoadN;
    OkValid(w);
    InvValid(w, m, p, s);
    var load := LoadCode(Ty(Int, false));
    var sub, num, tail := [OpI(ASub, R9, R10, slot)], NumCode(R2, val), [Op(CmpR(R1, R2)), Branch(Je, User(i))];
    assert code == sub + (load + (num + tail));
    SplitAhead(w, s, sub, load + (num + tail));
    var t1 := AluIStep(w, m, p, s, sub, ASub, R9, R10, slot);
    StepArrived(w, m, p, s, t1, sub);
    SplitAhead(w, t1, load, num + tail);
    assert FetchTy(m, t1.cpu.regs[R9], Ty(Int, false)) == Val(v, m);
    var n2, t2 := SimLoad(w, m, p, t1, Ty(Int, false));
    ArrivedInv(w, m, m, p, t1, n2, t2, t1.k + |load|);
    Then(w, m, m, m, p, s, 1, t1, t1.k, n2, t2, t2.k);
    SplitAhead(w, t2, num, tail);
    var n3, t3 := SimNum(w, m, p, t2, R2, val);
    ArrivedInv(w, m, m, p, t2, n3, t3, t2.k + |num|);
    Then(w, m, m, m, p, s, 1 + n2, t2, t2.k, n3, t3, t3.k);
    n, t := SimEqual(w, m, p, t3, i, k, tail);
    ArrivedInv(w, m, m, p, t3, n, t, if v == val then k else t3.k + 2);
    Then(w, m, m, m, p, s, 1 + n2 + n3, t3, t3.k, n, t, t.k);
    n := 1 + n2 + n3 + n;
  }

  lemma SimEqual(w: World, m: Mem, p: int, s: Mach, i: nat, k: nat, code: seq<Line>) returns (n: nat, t: Mach)
    requires Ok(w) && Inv(w, m, p, s) && Ahead(w, s, code) && LabelAt(w, k, User(i)) && code == [Op(CmpR(R1, R2)), Branch(Je, User(i))]
    ensures Arrived(w, m, m, p, s, n, t, if s.cpu.regs[R1] == s.cpu.regs[R2] then k else s.k + 2)
  {
    hide LineRun, LineStep, Total, Ok, Ahead, Inv, Arrived, LabelAt, Agrees;
    OkValid(w);
    InvValid(w, m, p, s);
    var t1 := CmpStep(w, m, p, s, code);
    StepArrived(w, m, p, s, t1, code);
    var n2;
    n2, t := BranchStep(w, m, p, t1, code[1..], Je, User(i), k);
    Then(w, m, m, m, p, s, 1, t1, t1.k, n2, t, if s.cpu.regs[R1] == s.cpu.regs[R2] then k else s.k + 2);
    n := 1 + n2;
  }

  // The chain: to the first case label with the slot's value, else through.
  lemma {:induction false} SimChain(w: World, m: Mem, p: int, s: Mach, slot: nat, body: Stmts, v: Word, k: nat) returns (n: nat, t: Mach)
    requires Ok(w) && Inv(w, m, p, s) && Ahead(w, s, ChainCode(slot, body)) && CasesOk(w, body)
    requires LoadN(m, Wrap(w.env.fb - slot), 4) == Some(v)
    requires FromCase(body, v).Some? ==>
               FromCase(body, v).value.Cons? && FromCase(body, v).value.head.Case? && LabelAt(w, k, User(FromCase(body, v).value.head.num))
    ensures Arrived(w, m, m, p, s, n, t, if FromCase(body, v).Some? then k else s.k + |ChainCode(slot, body)|)
    decreases body
  {
    hide LineRun, LineStep, Total, Ok, Ahead, Inv, Arrived, LabelAt, Agrees, CaseTest, LoadN;
    OkValid(w);
    InvValid(w, m, p, s);
    if body.Nil? {
      Stay(w, m, p, s);
      n, t := 0, s;
    } else if !body.head.Case? {
      assert [] + ChainCode(slot, body.tail) == ChainCode(slot, body.tail);
      n, t := SimChain(w, m, p, s, slot, body.tail, v, k);
    } else {
      var test := CaseTest(slot, body.head.val, body.head.num);
      var k1 := k;
      if body.head.val != v { k1 :| LabelAt(w, k1, User(body.head.num)); }
      SplitAhead(w, s, test, ChainCode(slot, body.tail));
      n, t := SimCaseTest(w, m, p, s, slot, body.head.val, body.head.num, v, k1, test);
      if body.head.val != v {
        ArrivedInv(w, m, m, p, s, n, t, s.k + |test|);
        var n2, t2 := SimChain(w, m, p, t, slot, body.tail, v, k);
        Then(w, m, m, m, p, s, n, t, t.k, n2, t2, if FromCase(body, v).Some? then k else s.k + |ChainCode(slot, body)|);
        n, t := n + n2, t2;
      }
    }
  }

  // What follows the hidden slot's store.
  function PickCode(near: set<string>, st: Stmt, tg: Targets, c: nat, d: nat): seq<Line>
    requires st.Switch?
  {
    var b := StmtsCode(near, st.pre, tg, d);
    b.code + (ChainCode(st.slot, st.body) + ([Jump(DefaultSym(st.body, Local(c)))]
      + (StmtsCode(near, st.body, Targets(Some(Local(c)), tg.cont), b.next).code + [Label(Local(c))])))
  }

  function SwitchNext(o: Out): Out {
    match o case Broke(m) => Normal(m) case _ => o
  }

  // A switch after its preamble.
  function Pick(fuel: nat, env: Env, st: Stmt, m: Mem, p: int): Out
    requires st.Switch?
  {
    match LoadN(m, Wrap(env.fb - st.slot), 4)
    case None => OutStuck
    case Some(v) =>
      match Chosen(st.body, v)
      case None => Normal(m)
      case Some(rest) => SwitchNext(RunStmts(fuel, env, rest, m, p))
  }

  lemma SwitchShape(w: World, fuel: nat, st: Stmt, tg: Targets, c: nat, m: Mem, p: int)
    requires st.Switch? && w.env.meaning.Emitted?
    ensures var a := ExprCode(w.Near(), st.c, c + 1);
            StmtCode(w.Near(), st, tg, c).code ==
            a.code + ([OpI(ASub, R9, R10, st.slot), Op(StoreR(B32, R9, R1))] + PickCode(w.Near(), st, tg, c, a.next))
    ensures var r := Eval(fuel, w.env, st.c, m, p);
            RunStmt(fuel, w.env, st, m, p) ==
            if !r.Val? then ExprOut(Strict(r))
            else match StoreN(r.m, Wrap(w.env.fb - st.slot), 4, r.v)
                 case None => OutStuck
                 case Some(m2) =>
                   var o := RunStmts(fuel, w.env, st.pre, m2, p);
                   if o.Normal? then Pick(fuel, w.env, st, o.m, p) else o
  {
    hide ExprCode, Eval, RunStmts, StmtsCode, Chosen, LoadN, StoreN, ChainCode;
    var a := ExprCode(w.Near(), st.c, c + 1);
    var b := StmtsCode(w.Near(), st.pre, tg, a.next);
    var d := StmtsCode(w.Near(), st.body, Targets(Some(Local(c)), tg.cont), b.next);
    var x, y, z, e := [OpI(ASub, R9, R10, st.slot), Op(StoreR(B32, R9, R1))], ChainCode(st.slot, st.body),
                      [Jump(DefaultSym(st.body, Local(c)))], [Label(Local(c))];
    assert a.code + x + b.code + y + z + d.code + e == a.code + (x + (b.code + (y + (z + (d.code + e)))));
  }

  // The value goes into the hidden slot.
  lemma SimSlot(w: World, m: Mem, p: int, s: Mach, slot: nat, rest: seq<Line>) returns (n: nat, t: Mach)
    requires Ok(w) && Inv(w, m, p, s) && Ahead(w, s, [OpI(ASub, R9, R10, slot), Op(StoreR(B32, R9, R1))] + rest)
    requires StoreN(m, Wrap(w.env.fb - slot), 4, s.cpu.regs[R1]).Some?
    ensures Arrived(w, m, StoreN(m, Wrap(w.env.fb - slot), 4, s.cpu.regs[R1]).value, p, s, n, t, s.k + 2) && Ahead(w, t, rest)
  {
    hide LineRun, LineStep, Total, Ok, Ahead, Inv, Arrived, Agrees, StoreN;
    OkValid(w);
    InvValid(w, m, p, s);
    var code := [OpI(ASub, R9, R10, slot), Op(StoreR(B32, R9, R1))];
    SplitAhead(w, s, code, rest);
    var t1 := AluIStep(w, m, p, s, code, ASub, R9, R10, slot);
    StepArrived(w, m, p, s, t1, code);
    t := SimStore(w, m, p, t1, code[1..], B32, 4);
    var m2 := StoreN(m, Wrap(w.env.fb - slot), 4, s.cpu.regs[R1]).value;
    ArrivedInv(w, m, m2, p, t1, 1, t, t1.k + 1);
    Then(w, m, m, m2, p, s, 1, t1, t1.k, 1, t, t.k);
    n := 2;
  }

  lemma {:induction false} SimSwitch(w: World, fuel: nat, st: Stmt, tg: Targets, c: nat, m: Mem, p: int, s: Mach, kb: nat, kc: nat)
    returns (n: nat, t: Mach)
    requires st.Switch? && Ok(w) && Inv(w, m, p, s) && CompilesStmt(st, tg.brk.Some?, tg.cont.Some?) && TargetsOk(w, tg, kb, kc)
    requires Ahead(w, s, StmtCode(w.Near(), st, tg, c).code)
    ensures SimOut(w, RunStmt(fuel, w.env, st, m, p), m, p, s, n, t, s.k + |StmtCode(w.Near(), st, tg, c).code|, kb, kc, fuel)
    decreases fuel, st, 4
  {
    hide LineRun, LineStep, Total, Ok, Ahead, SimOut, Sim, Inv, Arrived, ExprCode, Eval, StmtCode, RunStmts, RunStmt, LabelAt,
         TargetsOk, Pick, PickCode, StoreN;
    OkValid(w);
    InvValid(w, m, p, s);
    SwitchShape(w, fuel, st, tg, c, m, p);
    var a := ExprCode(w.Near(), st.c, c + 1);
    var put, rest := [OpI(ASub, R9, R10, st.slot), Op(StoreR(B32, R9, R1))], PickCode(w.Near(), st, tg, c, a.next);
    var end := s.k + |StmtCode(w.Near(), st, tg, c).code|;
    SplitAhead(w, s, a.code, put + rest);
    n, t := SimExpr(w, fuel, st.c, c + 1, m, p, s);
    var r := Eval(fuel, w.env, st.c, m, p);
    if !r.Val? {
      SimStrict(w, r, m, p, s, n, t, s.k + |a.code|, R1, fuel, 0, R1);
      OutOfStrict(w, r, m, p, s, n, t, end, kb, kc, fuel);
    } else {
      SimValue(w, r, m, p, s, n, t, s.k + |a.code|, R1, fuel);
      var q := StoreN(r.m, Wrap(w.env.fb - st.slot), 4, r.v);
      if q.None? {
        OutStuckIs(w, m, p, s, n, t, end, kb, kc, fuel);
      } else {
        var n1, t1 := SimSlot(w, r.m, p, t, st.slot, rest);
        ArrivedInv(w, r.m, q.value, p, t, n1, t1, t.k + 2);
        Then(w, m, r.m, q.value, p, s, n, t, t.k, n1, t1, t1.k);
        n, t := SimSwitchPre(w, fuel, st, tg, c, a.next, m, q.value, p, s, n + n1, t1, kb, kc);
      }
    }
  }

  lemma OutStuckIs(w: World, m: Mem, p: int, s: Mach, n: nat, t: Mach, k: nat, kb: nat, kc: nat, fuel: nat)
    requires w.p.Valid() && s.cpu.Valid()
    ensures SimOut(w, OutStuck, m, p, s, n, t, k, kb, kc, fuel)
  {
  }

  lemma {:induction false} SimSwitchPre(w: World, fuel: nat, st: Stmt, tg: Targets, c: nat, d: nat, m0: Mem, m: Mem, p: int, s0: Mach, n0: nat, s: Mach, kb: nat, kc: nat)
    returns (n: nat, t: Mach)
    requires st.Switch? && Ok(w) && CompilesStmt(st, tg.brk.Some?, tg.cont.Some?) && TargetsOk(w, tg, kb, kc)
    requires s0.cpu.Valid() && Arrived(w, m0, m, p, s0, n0, s, s.k)
    requires Ahead(w, s, PickCode(w.Near(), st, tg, c, d))
    ensures var o := RunStmts(fuel, w.env, st.pre, m, p);
            SimOut(w, if o.Normal? then Pick(fuel, w.env, st, o.m, p) else o, m0, p, s0, n, t,
                   s.k + |PickCode(w.Near(), st, tg, c, d)|, kb, kc, fuel)
    decreases fuel, st, 3
  {
    hide LineRun, LineStep, Total, Ok, Ahead, SimOut, Inv, Arrived, RunStmts, LabelAt, TargetsOk, Pick, StmtsCode, ChainCode, DefaultSym;
    OkValid(w);
    ArrivedInv(w, m0, m, p, s0, n0, s, s.k);
    var b := StmtsCode(w.Near(), st.pre, tg, d);
    var chain, jump := ChainCode(st.slot, st.body), [Jump(DefaultSym(st.body, Local(c)))];
    var tail := StmtsCode(w.Near(), st.body, Targets(Some(Local(c)), tg.cont), b.next).code + [Label(Local(c))];
    var end := s.k + |PickCode(w.Near(), st, tg, c, d)|;
    SplitAhead(w, s, b.code, chain + (jump + tail));
    n, t := SimStmts(w, fuel, st.pre, tg, d, m, p, s, kb, kc);
    var o := RunStmts(fuel, w.env, st.pre, m, p);
    OutFacts(w, o, m, p, s, n, t, s.k + |b.code|, kb, kc, fuel);
    if o.Normal? {
      Then(w, m0, m, o.m, p, s0, n0, s, s.k, n, t, t.k);
      n, t := SimPick(w, fuel, st, tg, c, b.next, m0, o.m, p, s0, n0 + n, t, kb, kc);
    } else {
      OutElsewhere(w, o, m, p, s, n, t, s.k + |b.code|, end, kb, kc, fuel);
      OutAfter(w, o, m0, m, p, s0, n0, s, s.k, n, t, end, kb, kc, fuel);
      n := n0 + n;
    }
  }

  // The chain, the jump behind it and the chosen part of the body.
  function BodyCode(near: set<string>, st: Stmt, tg: Targets, c: nat, d: nat): seq<Line>
    requires st.Switch?
  {
    StmtsCode(near, st.body, Targets(Some(Local(c)), tg.cont), d).code
  }

  // Where the part of the body that runs for v starts, and its label counter.
  lemma {:induction false} SimDispatch(w: World, st: Stmt, tg: Targets, c: nat, d: nat, m: Mem, p: int, s: Mach, v: Word)
    returns (n: nat, t: Mach, e: nat)
    requires st.Switch? && Ok(w) && Inv(w, m, p, s) && CompilesStmt(st, tg.brk.Some?, tg.cont.Some?)
    requires LoadN(m, Wrap(w.env.fb - st.slot), 4) == Some(v)
    requires Ahead(w, s, ChainCode(st.slot, st.body) + ([Jump(DefaultSym(st.body, Local(c)))] + (BodyCode(w.Near(), st, tg, c, d) + [Label(Local(c))])))
    ensures var kEnd := s.k + |ChainCode(st.slot, st.body)| + 1 + |BodyCode(w.Near(), st, tg, c, d)|;
            && LabelAt(w, kEnd, Local(c)) && Arrived(w, m, m, p, s, n, t, t.k)
            && match Chosen(st.body, v)
               case None => t.k == kEnd
               case Some(rest) =>
                 && CompilesStmts(rest, true, tg.cont.Some?)
                 && CodeAt(w.p, w.env.unit, t.k, StmtsCode(w.Near(), rest, Targets(Some(Local(c)), tg.cont), e).code)
                 && kEnd == t.k + |StmtsCode(w.Near(), rest, Targets(Some(Local(c)), tg.cont), e).code|
  {
    hide LineRun, LineStep, Total, Ok, Ahead, Inv, Arrived, LabelAt, StmtsCode, ChainCode, DefaultSym, LoadN,
         FromCase, FromDefault, CodeAt, CasesOk, Suffix;
    OkValid(w);
    InvValid(w, m, p, s);
    var inner := Targets(Some(Local(c)), tg.cont);
    var chain, jump := ChainCode(st.slot, st.body), [Jump(DefaultSym(st.body, Local(c)))];
    var body := BodyCode(w.Near(), st, tg, c, d);
    var kBody := s.k + |chain| + 1;
    var kEnd := kBody + |body|;
    PartsAt(w, s, chain, jump, body + [Label(Local(c))]);
    CodeSplit(w.p, w.env.unit, kBody, body, [Label(Local(c))]);
    LabelOfCode(w, kEnd, [Label(Local(c))], 0, Local(c));
    CasesPlaced(w, st.body, inner, d, kBody);
    ChosenFrom(st.body, v);
    var k;
    k, e := kEnd, d;
    if Chosen(st.body, v).Some? {
      k, e := SuffixCode(w, Chosen(st.body, v).value, st.body, inner, d, kBody);
      SuffixLabel(w, Chosen(st.body, v).value, inner, e, k);
    }
    n, t := SimChain(w, m, p, s, st.slot, st.body, v, k);
    ArrivedInv(w, m, m, p, s, n, t, if FromCase(st.body, v).Some? then k else s.k + |chain|);
    if FromCase(st.body, v).None? {
      CodeAhead(w, t, jump);
      var n2, t2 := JumpStep(w, m, p, t, jump, DefaultSym(st.body, Local(c)), k);
      Then(w, m, m, m, p, s, n, t, t.k, n2, t2, k);
      n, t := n + n2, t2;
    }
  }

  lemma {:induction false} SimPick(w: World, fuel: nat, st: Stmt, tg: Targets, c: nat, d: nat, m0: Mem, m: Mem, p: int, s0: Mach, n0: nat, s: Mach, kb: nat, kc: nat)
    returns (n: nat, t: Mach)
    requires st.Switch? && Ok(w) && CompilesStmt(st, tg.brk.Some?, tg.cont.Some?) && TargetsOk(w, tg, kb, kc)
    requires s0.cpu.Valid() && Arrived(w, m0, m, p, s0, n0, s, s.k)
    requires Ahead(w, s, ChainCode(st.slot, st.body) + ([Jump(DefaultSym(st.body, Local(c)))] + (BodyCode(w.Near(), st, tg, c, d) + [Label(Local(c))])))
    ensures SimOut(w, Pick(fuel, w.env, st, m, p), m0, p, s0, n, t,
                   s.k + |ChainCode(st.slot, st.body)| + 2 + |BodyCode(w.Near(), st, tg, c, d)|, kb, kc, fuel)
    decreases fuel, st, 2
  {
    hide LineRun, LineStep, Total, Ok, Ahead, SimOut, Inv, Arrived, RunStmts, LabelAt, TargetsOk, StmtsCode, ChainCode, DefaultSym, LoadN,
         Chosen, CodeAt, SwitchNext, CompilesStmt, BodyCode;
    OkValid(w);
    ArrivedInv(w, m0, m, p, s0, n0, s, s.k);
    var kEnd := s.k + |ChainCode(st.slot, st.body)| + 1 + |BodyCode(w.Near(), st, tg, c, d)|;
    var l := LoadN(m, Wrap(w.env.fb - st.slot), 4);
    if l.None? {
      n, t := n0, s;
      OutStuckIs(w, m0, p, s0, n, t, kEnd + 1, kb, kc, fuel);
    } else {
      var n1, t1, e := SimDispatch(w, st, tg, c, d, m, p, s, l.value);
      Then(w, m0, m, m, p, s0, n0, s, s.k, n1, t1, t1.k);
      match Chosen(st.body, l.value)
      case Some(rest) => n, t := SimChosen(w, fuel, st, tg, rest, c, e, m0, m, p, s0, n0 + n1, t1, kEnd, kb, kc);
      case None => n, t := SimEnd(w, m0, m, p, s0, n0 + n1, t1, Local(c), kb, kc, fuel);
    }
  }

  lemma SwitchTargets(w: World, tg: Targets, y: Sym, k: nat, kb: nat, kc: nat)
    requires TargetsOk(w, tg, kb, kc) && LabelAt(w, k, y)
    ensures TargetsOk(w, Targets(Some(y), tg.cont), k, kc)
  {
    hide LabelAt;
  }

  // A chosen suffix of the body, down to the end label.
  lemma {:induction false} SimChosen(w: World, fuel: nat, st: Stmt, tg: Targets, rest: Stmts, c: nat, d: nat, m0: Mem, m: Mem, p: int, s0: Mach, n0: nat, s: Mach, kEnd: nat, kb: nat, kc: nat)
    returns (n: nat, t: Mach)
    requires st.Switch? && (rest == st.body || rest < st.body) && Ok(w) && TargetsOk(w, tg, kb, kc)
    requires CompilesStmts(rest, true, tg.cont.Some?)
    requires s0.cpu.Valid() && Arrived(w, m0, m, p, s0, n0, s, s.k)
    requires CodeAt(w.p, w.env.unit, s.k, StmtsCode(w.Near(), rest, Targets(Some(Local(c)), tg.cont), d).code)
    requires kEnd == s.k + |StmtsCode(w.Near(), rest, Targets(Some(Local(c)), tg.cont), d).code| && LabelAt(w, kEnd, Local(c))
    ensures SimOut(w, SwitchNext(RunStmts(fuel, w.env, rest, m, p)), m0, p, s0, n, t, kEnd + 1, kb, kc, fuel)
    decreases fuel, st, 1
  {
    hide LineRun, LineStep, Total, Ok, Ahead, SimOut, Inv, Arrived, RunStmts, LabelAt, TargetsOk, StmtsCode, CodeAt;
    OkValid(w);
    ArrivedInv(w, m0, m, p, s0, n0, s, s.k);
    var inner := Targets(Some(Local(c)), tg.cont);
    var code := StmtsCode(w.Near(), rest, inner, d).code;
    SwitchTargets(w, tg, Local(c), kEnd, kb, kc);
    CodeAhead(w, s, code);
    n, t := SimStmts(w, fuel, rest, inner, d, m, p, s, kEnd, kc);
    var o := RunStmts(fuel, w.env, rest, m, p);
    OutFacts(w, o, m, p, s, n, t, kEnd, kEnd, kc, fuel);
    if o.Normal? || o.Broke? {
      Then(w, m0, m, o.m, p, s0, n0, s, s.k, n, t, kEnd);
      n, t := SimEnd(w, m0, o.m, p, s0, n0 + n, t, Local(c), kb, kc, fuel);
    } else {
      OutThrough(w, o, m, p, s, n, t, kEnd, kEnd, kc, kEnd + 1, kb, kc, fuel);
      OutAfter(w, o, m0, m, p, s0, n0, s, s.k, n, t, kEnd + 1, kb, kc, fuel);
      n := n0 + n;
    }
  }
}
