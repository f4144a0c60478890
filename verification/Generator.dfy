// The code generator's recursive walk, as it runs: lines are appended to the
// object, labels numbered from a counter, and break and continue targets kept
// on two stacks.  Each method emits exactly what Codegen's functions say.
module Generator {
  import opened Words
  import opened Isa
  import opened Link
  import opened Minic
  import opened Codegen

  function Innermost(stack: seq<Sym>): Option<Sym> {
    if |stack| == 0 then None else Some(stack[|stack| - 1])
  }

  lemma Join4<T>(t: seq<T>, a: seq<T>, b: seq<T>, c: seq<T>, d: seq<T>)
    ensures t + (a + b + c + d) == t + a + b + c + d
  {
  }

  lemma Join6<T>(t: seq<T>, a: seq<T>, b: seq<T>, c: seq<T>, d: seq<T>, e: seq<T>, f: seq<T>)
    ensures t + (a + b + c + d + e + f) == t + a + b + c + d + e + f
  {
    Join4(t, a, b, c, d);
    assert t + (a + b + c + d + e + f) == t + (a + b + c + d) + e + f;
  }

  lemma LogicalIs(near: set<string>, e: Expr, c: nat)
    requires e.LogAnd? || e.LogOr?
    ensures var a := ExprCode(near, e.l, c + 2);
            var b := ExprCode(near, e.r, a.next);
            var test := TestCode(if e.LogAnd? then Je else Jne, Local(c));
            var v := if e.LogAnd? then 1 else 0;
            ExprCode(near, e, c) == Gen(a.code + test + b.code + test
              + [MovI(R1, v), Jump(Local(c + 1)), Label(Local(c)), MovI(R1, 1 - v), Label(Local(c + 1))] + [], b.next)
  {
    hide TestCode;
  }

  lemma TernaryIs(near: set<string>, e: Expr, c: nat)
    requires e.Ternary?
    ensures var a := BranchCode(near, e.c, Je, Local(c), c + 2);
            var b := ExprCode(near, e.t, a.next);
            var d := ExprCode(near, e.f, b.next);
            ExprCode(near, e, c) == Gen(a.code + b.code + [Jump(Local(c + 1)), Label(Local(c))] + d.code + [Label(Local(c + 1))] + [], d.next)
  {
    hide TestCode;
  }

  lemma IfIs(near: set<string>, s: Stmt, t: Targets, c: nat)
    requires s.If?
    ensures var a := BranchCode(near, s.c, Je, Local(c), c + 2);
            var b := StmtsCode(near, s.t, t, a.next);
            var d := StmtsCode(near, s.f, t, b.next);
            StmtCode(near, s, t, c)
            == if s.f.Nil? then Gen(a.code + b.code + [Label(Local(c))] + [] + [] + [], b.next)
               else Gen(a.code + b.code + [Jump(Local(c + 1)), Label(Local(c))] + d.code + [Label(Local(c + 1))] + [], d.next)
    ensures CompilesStmt(s, t.brk.Some?, t.cont.Some?)
            == (Compiles(s.c) && CompilesStmts(s.t, t.brk.Some?, t.cont.Some?) && CompilesStmts(s.f, t.brk.Some?, t.cont.Some?))
  {
    hide BranchCode, StmtsCode, Compiles, CompilesStmts;
  }

  lemma WhileIs(near: set<string>, s: Stmt, t: Targets, c: nat)
    requires s.While?
    ensures CompilesStmt(s, t.brk.Some?, t.cont.Some?) == (Compiles(s.c) && CompilesStmts(s.body, true, true))
    ensures var a := BranchCode(near, s.c, Je, Local(c + 1), c + 3);
            var b := StmtsCode(near, s.body, Targets(Some(Local(c + 1)), Some(Local(c))), a.next);
            StmtCode(near, s, t, c)
            == Gen([Label(Local(c)), Label(Poll(c + 2))] + a.code + b.code + [Jump(Local(c)), Label(Local(c + 1))] + [] + [], b.next)
  {
    hide BranchCode, StmtsCode, Compiles, CompilesStmts;
  }

  lemma DoWhileIs(near: set<string>, s: Stmt, t: Targets, c: nat)
    requires s.DoWhile?
    ensures CompilesStmt(s, t.brk.Some?, t.cont.Some?) == (Compiles(s.c) && CompilesStmts(s.body, true, true))
    ensures var b := StmtsCode(near, s.body, Targets(Some(Local(c + 2)), Some(Local(c + 1))), c + 4);
            var a := BranchCode(near, s.c, Je, Local(c + 2), b.next);
            StmtCode(near, s, t, c)
            == Gen([Label(Local(c)), Label(Poll(c + 3))] + b.code + [Label(Local(c + 1))] + a.code
                   + [Jump(Local(c)), Label(Local(c + 2))] + [], a.next)
  {
    hide BranchCode, StmtsCode, Compiles, CompilesStmts;
  }

  lemma ForLoopIs(near: set<string>, s: Stmt, c: nat, d: nat)
    requires s.For?
    ensures var a := if s.cond.Some? then BranchCode(near, s.cond.value, Je, Local(c + 2), d + 1) else Gen([], d + 1);
            var b := StmtsCode(near, s.body, Targets(Some(Local(c + 2)), Some(Local(c + 1))), a.next);
            var i := if s.inc.Some? then ExprCode(near, s.inc.value, b.next) else Gen([], b.next);
            ForCode(near, s.cond, s.inc, s.body, c, d)
            == Gen([Label(Local(c)), Label(Poll(d))] + a.code + b.code + [Label(Local(c + 1))] + i.code + [Jump(Local(c)), Label(Local(c + 2))], i.next)
  {
    hide BranchCode, StmtsCode, ExprCode;
  }

  lemma SwitchIs(near: set<string>, s: Stmt, t: Targets, c: nat)
    requires s.Switch?
    ensures CompilesStmt(s, t.brk.Some?, t.cont.Some?)
            == (Compiles(s.c) && CompilesStmts(s.pre, t.brk.Some?, t.cont.Some?) && CompilesStmts(s.body, true, t.cont.Some?))
    ensures var a := ExprCode(near, s.c, c + 1);
            var b := StmtsCode(near, s.pre, t, a.next);
            var d := StmtsCode(near, s.body, Targets(Some(Local(c)), t.cont), b.next);
            StmtCode(near, s, t, c)
            == Gen(a.code + [OpI(ASub, R9, R10, s.slot), Op(StoreR(B32, R9, R1))] + b.code
                   + (ChainCode(s.slot, s.body) + [Jump(DefaultSym(s.body, Local(c)))]) + d.code + [Label(Local(c))], d.next)
  {
    hide ExprCode, StmtsCode, ChainCode, DefaultSym, Compiles, CompilesStmts;
    var a := ExprCode(near, s.c, c + 1);
    var b := StmtsCode(near, s.pre, t, a.next);
    var x := a.code + [OpI(ASub, R9, R10, s.slot), Op(StoreR(B32, R9, R1))] + b.code;
    assert x + ChainCode(s.slot, s.body) + [Jump(DefaultSym(s.body, Local(c)))] == x + (ChainCode(s.slot, s.body) + [Jump(DefaultSym(s.body, Local(c)))]);
  }

  class Generator {
    var text: seq<Line>
    var labels: nat
    var breaks: seq<Sym>
    var continues: seq<Sym>
    const near: set<string>

    constructor (near: set<string>)
      ensures text == [] && labels == 0 && breaks == [] && continues == [] && this.near == near
    {
      text, labels, breaks, continues := [], 0, [], [];
      this.near := near;
    }

    function Jumps(): Targets
      reads this
    {
      Targets(Innermost(breaks), Innermost(continues))
    }

    // Since text was t, the code of g was appended and its labels drawn.
    predicate Wrote(t: seq<Line>, g: Gen)
      reads this
    {
      text == t + g.code && labels == g.next
    }

    method Emit(l: Line)
      modifies this`text
      ensures text == old(text) + [l]
    {
      text := text + [l];
    }

    method NewLabel() returns (n: nat)
      modifies this`labels
      ensures n == old(labels) && labels == n + 1
    {
      n := labels;
      labels := labels + 1;
    }

    method EmitAll(ls: seq<Line>)
      modifies this`text
      ensures text == old(text) + ls
    {
      var i := 0;
      while i < |ls|
        invariant 0 <= i <= |ls| && text == old(text) + ls[..i]
      {
        Emit(ls[i]);
        assert old(text) + ls[..i + 1] == (old(text) + ls[..i]) + [ls[i]];
        i := i + 1;
      }
      assert ls[..|ls|] == ls;
    }

    // ---- leaves ----

    method GenNumReg(r: Reg, v: Word)
      modifies this`text
      ensures text == old(text) + NumCode(r, v)
    {
      var hi, lo := v / 0x1_0000, v % 0x1_0000;
      if hi != 0 {
        Emit(MovI(r, hi));
        Emit(OpI(ALsl, r, r, 16));
        if lo != 0 { Emit(OpI(AOr, r, r, lo)); }
      } else {
        Emit(MovI(r, lo));
      }
    }

    method GenAddress(y: Sym)
      modifies this`text
      ensures text == old(text) + FarAddr(y)
    {
      Emit(OpSym(AOr, R9, ZR, Hi, y));
      Emit(OpI(ALsl, R9, R9, 16));
      Emit(OpSym(AOr, R9, R9, Lo, y));
    }

    method GenNarrow(t: Ty)
      modifies this`text
      ensures text == old(text) + NarrowCode(t)
    {
      if t.kind.Char? {
        Emit(OpI(ALsl, R1, R1, 24));
        Emit(OpI(if t.unsigned then ALsr else AAsr, R1, R1, 24));
      } else if t.kind.Short? {
        Emit(OpI(ALsl, R1, R1, 16));
        Emit(OpI(if t.unsigned then ALsr else AAsr, R1, R1, 16));
      }
    }

    method GenLoad(t: Ty)
      modifies this`text
      ensures text == old(text) + LoadCode(t)
    {
      Emit(Op(LoadR(WidthOfTy(t), R1, R9)));
      GenNarrow(t);
    }

    method GenStore(t: Ty)
      modifies this`text
      ensures text == old(text) + StoreCode(t)
    {
      Emit(Op(StoreR(WidthOfTy(t), R9, R1)));
    }

    // The value of the lvalue in r9, or its address when it is an aggregate.
    method GenRvalue(t: Ty)
      modifies this`text
      ensures text == old(text) + RvalueCode(t)
    {
      if t.kind.Agg? { Emit(MovR(R1, R9)); } else { GenLoad(t); }
    }

    method GenCompare(cc: Cond)
      modifies this`text, this`labels
      ensures Wrote(old(text), CompareCode(cc, old(labels)))
    {
      var yes := NewLabel();
      var end := NewLabel();
      Emit(Op(CmpR(R1, R2)));
      Emit(Branch(cc, Local(yes)));
      Emit(MovI(R1, 0));
      Emit(Jump(Local(end)));
      Emit(Label(Local(yes)));
      Emit(MovI(R1, 1));
      Emit(Label(Local(end)));
    }

    method GenTest(cc: Cond, y: Sym)
      modifies this`text
      ensures text == old(text) + TestCode(cc, y)
    {
      Emit(MovI(R2, 0));
      Emit(Op(CmpR(R1, R2)));
      Emit(Branch(cc, y));
    }

    // r1 := r1 op r2
    method GenOperator(op: BinOp)
      modifies this`text, this`labels
      ensures Wrote(old(text), BinCode(op, old(labels)))
    {
      match op
      case Compare(rel, unsigned) => GenCompare(JumpFor(rel, unsigned));
      case SDivide => EmitAll(CallCode("__divsi3"));
      case SModulo => EmitAll(CallCode("__modsi3"));
      case Add => Emit(Op(AluR(AAdd, R1, R1, R2)));
      case Sub => Emit(Op(AluR(ASub, R1, R1, R2)));
      case Mul => Emit(Op(AluR(AMul, R1, R1, R2)));
      case UDivide => Emit(Op(AluR(ADiv, R1, R1, R2)));
      case UModulo => Emit(Op(AluR(AMod, R1, R1, R2)));
      case BitAnd => Emit(Op(AluR(AAnd, R1, R1, R2)));
      case BitOr => Emit(Op(AluR(AOr, R1, R1, R2)));
      case BitXor => Emit(Op(AluR(AXor, R1, R1, R2)));
      case Shl => Emit(Op(AluR(ALsl, R1, R1, R2)));
      case ShrU => Emit(Op(AluR(ALsr, R1, R1, R2)));
      case ShrS => Emit(Op(AluR(AAsr, R1, R1, R2)));
    }

    // ---- expressions ----
    //
    // ok is false when the generator reports an error and exits; then nothing
    // is promised.

    method GenLaddr(e: Expr) returns (ok: bool)
      modifies this`text, this`labels
      ensures ok == Addressable(e)
      ensures ok ==> Wrote(old(text), AddrCode(near, e, old(labels)))
      decreases e, 1
    {
      hide ExprCode, Compiles;
      ok := true;
      match e
      case Var(off, _) => Emit(OpI(ASub, R9, R10, off));
      case GVar(name, _) =>
        if name in near { Emit(OpSym(AOr, R9, ZR, D16, Name(name))); } else { GenAddress(Name(name)); }
      case Deref(x, _) =>
        ok := GenExpr(x);
        if !ok { return; }
        Emit(MovR(R9, R1));
      case Member(b, off, _) => ok := GenMemberAddr(e);
      case _ => ok := false;
    }

    method GenMemberAddr(e: Expr) returns (ok: bool)
      requires e.Member?
      modifies this`text, this`labels
      ensures ok == Addressable(e)
      ensures ok ==> Wrote(old(text), AddrCode(near, e, old(labels)))
      decreases e, 0
    {
      hide ExprCode, Compiles;
      var byValue := e.base.Deref? || e.base.Call?;
      if e.base.Deref? {
        ok := GenExpr(e.base.e);
      } else if e.base.Call? {
        ok := GenExpr(e.base);
      } else {
        ok := GenLaddr(e.base);
      }
      if !ok { return; }
      if e.off != 0 {
        Emit(OpI(AAdd, R9, if byValue then R1 else R9, e.off));
      } else if byValue {
        Emit(MovR(R9, R1));
      }
    }

    method GenExpr(e: Expr) returns (ok: bool)
      modifies this`text, this`labels
      ensures ok == Compiles(e)
      ensures ok ==> Wrote(old(text), ExprCode(near, e, old(labels)))
      decreases e, 3
    {
      hide AddrCode, ArgsCode, CompilesArgs, RvalueCode, LoadCode, NumCode, FarAddr, TestCode, BinCode;
      ok := true;
      match e
      case Num(v) => GenNumReg(R1, v);
      case Var(_, t) =>
        ok := GenLaddr(e);
        if !ok { return; }
        GenRvalue(t);
      case GVar(_, t) =>
        ok := GenLaddr(e);
        if !ok { return; }
        GenRvalue(t);
      case Member(_, _, t) =>
        ok := GenLaddr(e);
        if !ok { return; }
        GenRvalue(t);
      case FuncAddr(name) =>
        GenAddress(Name(name));
        Emit(MovR(R1, R9));
      case StrAddr(n) =>
        GenAddress(Lit(n));
        Emit(MovR(R1, R9));
      case AddrOf(x) =>
        ok := GenLaddr(x);
        if !ok { return; }
        Emit(MovR(R1, R9));
      case Deref(x, t) =>
        ok := GenExpr(x);
        if !ok { return; }
        if !t.kind.Agg? {
          Emit(MovR(R9, R1));
          GenLoad(t);
        }
      case Cast(_, _) => ok := GenUnary(e);
      case Neg(_) => ok := GenUnary(e);
      case BitNot(_) => ok := GenUnary(e);
      case Not(_) => ok := GenUnary(e);
      case Assign(lv, rhs, t) => ok := GenAssign(e);
      case Bin(op, l, r) => ok := GenBinary(e);
      case LogAnd(l, r) => ok := GenLogAnd(e);
      case LogOr(l, r) => ok := GenLogOr(e);
      case Ternary(c, t, f) => ok := GenConditional(e);
      case Comma(l, r) =>
        ok := GenExpr(l);
        if !ok { return; }
        ok := GenExpr(r);
      case Call(name, args) => ok := GenCall(e);
    }

    method GenUnary(e: Expr) returns (ok: bool)
      requires e.Cast? || e.Neg? || e.BitNot? || e.Not?
      modifies this`text, this`labels
      ensures ok == Compiles(e)
      ensures ok ==> Wrote(old(text), ExprCode(near, e, old(labels)))
      decreases e, 2
    {
      hide AddrCode, ArgsCode, Addressable, CompilesArgs, NarrowCode, NumCode, CompareCode;
      ok := GenExpr(e.e);
      if !ok { return; }
      match e
      case Cast(_, t) => GenNarrow(t);
      case Neg(_) => Emit(Op(AluR(ASub, R1, ZR, R1)));
      case BitNot(_) =>
        GenNumReg(R2, W - 1);
        Emit(Op(AluR(AXor, R1, R1, R2)));
      case Not(_) =>
        Emit(MovI(R2, 0));
        GenCompare(Je);
    }

    method GenAssign(e: Expr) returns (ok: bool)
      requires e.Assign?
      modifies this`text, this`labels
      ensures ok == Compiles(e)
      ensures ok ==> Wrote(old(text), ExprCode(near, e, old(labels)))
      decreases e, 2
    {
      hide AddrCode, ArgsCode, Addressable, CompilesArgs;
      ok := GenLaddr(e.lv);
      if !ok { return; }
      Emit(Push(R9));
      ok := GenExpr(e.rhs);
      if !ok { return; }
      Emit(Pop(R9));
      GenStore(e.ty);
    }

    // The right operand first, kept on the stack while the left one runs.
    method GenBinary(e: Expr) returns (ok: bool)
      requires e.Bin?
      modifies this`text, this`labels
      ensures ok == Compiles(e)
      ensures ok ==> Wrote(old(text), ExprCode(near, e, old(labels)))
      decreases e, 2
    {
      hide AddrCode, ArgsCode, Addressable, CompilesArgs, BinCode;
      ok := GenExpr(e.r);
      if !ok { return; }
      Emit(Push(R1));
      ok := GenExpr(e.l);
      if !ok { return; }
      Emit(Pop(R2));
      GenOperator(e.op);
    }

    method GenLogAnd(e: Expr) returns (ok: bool)
      requires e.LogAnd?
      modifies this`text, this`labels
      ensures ok == Compiles(e)
      ensures ok ==> Wrote(old(text), ExprCode(near, e, old(labels)))
      decreases e, 2
    {
      hide ExprCode, Addressable, CompilesArgs, TestCode;
      LogicalIs(near, e, labels);
      ghost var t := text;
      ghost var a := ExprCode(near, e.l, labels + 2);
      ghost var b := ExprCode(near, e.r, a.next);
      var no := NewLabel();
      var end := NewLabel();
      ok := GenExpr(e.l);
      if !ok { return; }
      GenTest(Je, Local(no));
      ok := GenExpr(e.r);
      if !ok { return; }
      GenTest(Je, Local(no));
      EmitAll([MovI(R1, 1), Jump(Local(end)), Label(Local(no)), MovI(R1, 0), Label(Local(end))]);
      Join6(t, a.code, TestCode(Je, Local(no)), b.code, TestCode(Je, Local(no)),
            [MovI(R1, 1), Jump(Local(end)), Label(Local(no)), MovI(R1, 0), Label(Local(end))], []);
    }

    method GenLogOr(e: Expr) returns (ok: bool)
      requires e.LogOr?
      modifies this`text, this`labels
      ensures ok == Compiles(e)
      ensures ok ==> Wrote(old(text), ExprCode(near, e, old(labels)))
      decreases e, 2
    {
      hide ExprCode, Addressable, CompilesArgs, TestCode;
      LogicalIs(near, e, labels);
      ghost var t := text;
      ghost var a := ExprCode(near, e.l, labels + 2);
      ghost var b := ExprCode(near, e.r, a.next);
      var yes := NewLabel();
      var end := NewLabel();
      ok := GenExpr(e.l);
      if !ok { return; }
      GenTest(Jne, Local(yes));
      ok := GenExpr(e.r);
      if !ok { return; }
      GenTest(Jne, Local(yes));
      EmitAll([MovI(R1, 0), Jump(Local(end)), Label(Local(yes)), MovI(R1, 1), Label(Local(end))]);
      Join6(t, a.code, TestCode(Jne, Local(yes)), b.code, TestCode(Jne, Local(yes)),
            [MovI(R1, 0), Jump(Local(end)), Label(Local(yes)), MovI(R1, 1), Label(Local(end))], []);
    }

    method GenBranchZero(e: Expr, cc: Cond, y: Sym) returns (ok: bool)
      modifies this`text, this`labels
      ensures ok == Compiles(e)
      ensures ok ==> Wrote(old(text), BranchCode(near, e, cc, y, old(labels)))
      decreases e, 4
    {
      hide ExprCode, TestCode, Compiles;
      ok := GenExpr(e);
      if !ok { return; }
      GenTest(cc, y);
    }

    method GenConditional(e: Expr) returns (ok: bool)
      requires e.Ternary?
      modifies this`text, this`labels
      ensures ok == Compiles(e)
      ensures ok ==> Wrote(old(text), ExprCode(near, e, old(labels)))
      decreases e, 2
    {
      hide ExprCode, BranchCode, Addressable, CompilesArgs;
      TernaryIs(near, e, labels);
      ghost var t := text;
      ghost var a := BranchCode(near, e.c, Je, Local(labels), labels + 2);
      ghost var b := ExprCode(near, e.t, a.next);
      ghost var d := ExprCode(near, e.f, b.next);
      var no := NewLabel();
      var end := NewLabel();
      ok := GenBranchZero(e.c, Je, Local(no));
      if !ok { return; }
      ok := GenExpr(e.t);
      if !ok { return; }
      EmitAll([Jump(Local(end)), Label(Local(no))]);
      ok := GenExpr(e.f);
      if !ok { return; }
      Emit(Label(Local(end)));
      Join6(t, a.code, b.code, [Jump(Local(end)), Label(Local(no))], d.code, [Label(Local(end))], []);
    }

    method GenCall(e: Expr) returns (ok: bool)
      requires e.Call?
      modifies this`text, this`labels
      ensures ok == Compiles(e)
      ensures ok ==> Wrote(old(text), ExprCode(near, e, old(labels)))
      decreases e, 2
    {
      hide AddrCode, ArgsCode, Addressable, CompilesArgs;
      ok := GenArgs(e.args);
      if !ok { return; }
      Emit(CallTo(Name(e.name)));
      if e.args.Count() > 0 {
        Emit(OpI(AAdd, SP, SP, 4 * e.args.Count()));
      }
    }

    // The arguments from right to left.
    method GenArgs(args: Args) returns (ok: bool)
      modifies this`text, this`labels
      ensures ok == CompilesArgs(args)
      ensures ok ==> Wrote(old(text), ArgsCode(near, args, old(labels)))
      decreases args, 0
    {
      hide ExprCode, Compiles;
      ok := true;
      match args
      case NoArgs =>
      case Arg(x, rest) =>
        ok := GenArgs(rest);
        if !ok { return; }
        ok := GenExpr(x);
        if !ok { return; }
        Emit(Push(R1));
    }

    // ---- statements ----

    method GenStmts(ss: Stmts) returns (ok: bool)
      modifies this
      ensures ok == CompilesStmts(ss, old(breaks) != [], old(continues) != [])
      ensures ok ==> Wrote(old(text), StmtsCode(near, ss, old(Jumps()), old(labels)))
      ensures ok ==> breaks == old(breaks) && continues == old(continues)
      decreases ss, 0
    {
      hide StmtCode, CompilesStmt;
      ghost var t, c := Jumps(), labels;
      var rest := ss;
      ok := true;
      while rest.Cons?
        invariant rest == ss || rest < ss
        invariant breaks == old(breaks) && continues == old(continues)
        invariant CompilesStmts(rest, t.brk.Some?, t.cont.Some?) == CompilesStmts(ss, t.brk.Some?, t.cont.Some?)
        invariant text + StmtsCode(near, rest, t, labels).code == old(text) + StmtsCode(near, ss, t, c).code
        invariant StmtsCode(near, rest, t, labels).next == StmtsCode(near, ss, t, c).next
        decreases rest
      {
        ok := GenStmt(rest.head);
        if !ok { return; }
        rest := rest.tail;
      }
    }

    method GenStmt(s: Stmt) returns (ok: bool)
      modifies this
      ensures ok == CompilesStmt(s, old(breaks) != [], old(continues) != [])
      ensures ok ==> Wrote(old(text), StmtCode(near, s, old(Jumps()), old(labels)))
      ensures ok ==> breaks == old(breaks) && continues == old(continues)
      decreases s, 3
    {
      hide ExprCode, Compiles, StmtsCode, CompilesStmts, ForCode, ChainCode, BranchCode;
      ok := true;
      match s
      case Return(value) =>
        if value.Some? {
          ok := GenExpr(value.value);
          if !ok { return; }
        }
        Emit(Note);
        EmitAll(LEAVE);
      case If(_, _, _) => ok := GenIf(s);
      case While(_, _) => ok := GenWhile(s);
      case For(_, _, _, _) => ok := GenFor(s);
      case DoWhile(_, _) => ok := GenDoWhile(s);
      case Switch(_, _, _, _) => ok := GenSwitch(s);
      case Case(n, _) => Emit(Label(User(n)));
      case Default(n) => Emit(Label(User(n)));
      case Break =>
        if breaks == [] { return false; }
        Emit(Jump(breaks[|breaks| - 1]));
      case Continue =>
        if continues == [] { return false; }
        Emit(Jump(continues[|continues| - 1]));
      case Decl =>
      case Do(e) => ok := GenExpr(e);
    }

    method GenIf(s: Stmt) returns (ok: bool)
      requires s.If?
      modifies this
      ensures ok == CompilesStmt(s, old(breaks) != [], old(continues) != [])
      ensures ok ==> Wrote(old(text), StmtCode(near, s, old(Jumps()), old(labels)))
      ensures ok ==> breaks == old(breaks) && continues == old(continues)
      decreases s, 2
    {
      hide ExprCode, Compiles, StmtCode, StmtsCode, CompilesStmt, CompilesStmts, BranchCode;
      IfIs(near, s, Jumps(), labels);
      ghost var t, tg := text, Jumps();
      ghost var a := BranchCode(near, s.c, Je, Local(labels), labels + 2);
      ghost var b := StmtsCode(near, s.t, tg, a.next);
      ghost var d := StmtsCode(near, s.f, tg, b.next);
      var no := NewLabel();
      var end := NewLabel();
      ok := GenBranchZero(s.c, Je, Local(no));
      if !ok { return; }
      ok := GenStmts(s.t);
      if !ok { return; }
      if s.f.Cons? {
        EmitAll([Jump(Local(end)), Label(Local(no))]);
        ok := GenStmts(s.f);
        if !ok { return; }
        Emit(Label(Local(end)));
        Join6(t, a.code, b.code, [Jump(Local(end)), Label(Local(no))], d.code, [Label(Local(end))], []);
      } else {
        NilCompiles(breaks != [], continues != []);
        Emit(Label(Local(no)));
        Join6(t, a.code, b.code, [Label(Local(no))], [], [], []);
      }
    }

    // A loop's first label and its safe-point label.
    method GenLoopHead(begin: nat)
      modifies this`text, this`labels
      ensures text == old(text) + [Label(Local(begin)), Label(Poll(old(labels)))]
      ensures labels == old(labels) + 1
    {
      Emit(Label(Local(begin)));
      var poll := NewLabel();
      Emit(Label(Poll(poll)));
    }

    method GenWhile(s: Stmt) returns (ok: bool)
      requires s.While?
      modifies this
      ensures ok == CompilesStmt(s, old(breaks) != [], old(continues) != [])
      ensures ok ==> Wrote(old(text), StmtCode(near, s, old(Jumps()), old(labels)))
      ensures ok ==> breaks == old(breaks) && continues == old(continues)
      decreases s, 2
    {
      hide ExprCode, Compiles, StmtCode, StmtsCode, CompilesStmt, CompilesStmts, BranchCode;
      WhileIs(near, s, Jumps(), labels);
      ghost var t := text;
      ghost var a := BranchCode(near, s.c, Je, Local(labels + 1), labels + 3);
      ghost var b := StmtsCode(near, s.body, Targets(Some(Local(labels + 1)), Some(Local(labels))), a.next);
      var begin := NewLabel();
      var end := NewLabel();
      breaks, continues := breaks + [Local(end)], continues + [Local(begin)];
      GenLoopHead(begin);
      ok := GenBranchZero(s.c, Je, Local(end));
      if !ok { return; }
      ok := GenStmts(s.body);
      if !ok { return; }
      EmitAll([Jump(Local(begin)), Label(Local(end))]);
      continues := continues[..|continues| - 1];
      breaks := breaks[..|breaks| - 1];
      Join6(t, [Label(Local(begin)), Label(Poll(begin + 2))], a.code, b.code, [Jump(Local(begin)), Label(Local(end))], [], []);
    }

    // The condition at the end of a do-while, and the way back.
    method GenDoTest(e: Expr, begin: nat) returns (ok: bool)
      modifies this`text, this`labels
      ensures ok == Compiles(e)
      ensures var a := BranchCode(near, e, Je, Local(begin + 2), old(labels));
              ok ==> Wrote(old(text), Gen([Label(Local(begin + 1))] + a.code + [Jump(Local(begin)), Label(Local(begin + 2))], a.next))
    {
      hide Compiles, BranchCode;
      Emit(Label(Local(begin + 1)));
      ok := GenBranchZero(e, Je, Local(begin + 2));
      if !ok { return; }
      EmitAll([Jump(Local(begin)), Label(Local(begin + 2))]);
    }

    method GenDoWhile(s: Stmt) returns (ok: bool)
      requires s.DoWhile?
      modifies this
      ensures ok == CompilesStmt(s, old(breaks) != [], old(continues) != [])
      ensures ok ==> Wrote(old(text), StmtCode(near, s, old(Jumps()), old(labels)))
      ensures ok ==> breaks == old(breaks) && continues == old(continues)
      decreases s, 2
    {
      hide ExprCode, Compiles, StmtCode, StmtsCode, CompilesStmt, CompilesStmts, BranchCode;
      DoWhileIs(near, s, Jumps(), labels);
      ghost var t := text;
      ghost var b := StmtsCode(near, s.body, Targets(Some(Local(labels + 2)), Some(Local(labels + 1))), labels + 4);
      ghost var a := BranchCode(near, s.c, Je, Local(labels + 2), b.next);
      var begin := NewLabel();
      var cond := NewLabel();
      var end := NewLabel();
      breaks, continues := breaks + [Local(end)], continues + [Local(cond)];
      GenLoopHead(begin);
      ok := GenStmts(s.body);
      if !ok { return; }
      ghost var before := text;
      ok := GenDoTest(s.c, begin);
      if !ok { return; }
      Join4(before, [Label(Local(cond))], a.code, [Jump(Local(begin)), Label(Local(end))], []);
      continues := continues[..|continues| - 1];
      breaks := breaks[..|breaks| - 1];
      Join6(t, [Label(Local(begin)), Label(Poll(begin + 3))], b.code, [Label(Local(cond))], a.code, [Jump(Local(begin)), Label(Local(end))], []);
    }

    method GenFor(s: Stmt) returns (ok: bool)
      requires s.For?
      modifies this
      ensures ok == CompilesStmt(s, old(breaks) != [], old(continues) != [])
      ensures ok ==> Wrote(old(text), StmtCode(near, s, old(Jumps()), old(labels)))
      ensures ok ==> breaks == old(breaks) && continues == old(continues)
      decreases s, 2
    {
      hide ExprCode, Compiles, StmtsCode, CompilesStmts, BranchCode, ForCode;
      var begin := NewLabel();
      var cont := NewLabel();
      var end := NewLabel();
      ok := GenStmts(s.init);
      if !ok { return; }
      ok := GenForLoop(s, begin, cont, end);
    }

    // A for after its initialisation.
    method GenForLoop(s: Stmt, begin: nat, cont: nat, end: nat) returns (ok: bool)
      requires s.For? && cont == begin + 1 && end == begin + 2
      modifies this
      ensures ok == ((s.cond.Some? ==> Compiles(s.cond.value)) && (s.inc.Some? ==> Compiles(s.inc.value)) && CompilesStmts(s.body, true, true))
      ensures ok ==> Wrote(old(text), ForCode(near, s.cond, s.inc, s.body, begin, old(labels)))
      ensures ok ==> breaks == old(breaks) && continues == old(continues)
      decreases s, 1
    {
      hide ExprCode, Compiles, StmtsCode, CompilesStmts, BranchCode, ForCode;
      ForLoopIs(near, s, begin, labels);
      ghost var t, d := text, labels;
      ghost var a := if s.cond.Some? then BranchCode(near, s.cond.value, Je, Local(end), d + 1) else Gen([], d + 1);
      ghost var b := StmtsCode(near, s.body, Targets(Some(Local(end)), Some(Local(cont))), a.next);
      ghost var i := if s.inc.Some? then ExprCode(near, s.inc.value, b.next) else Gen([], b.next);
      GenLoopHead(begin);
      ok := true;
      if s.cond.Some? {
        ok := GenBranchZero(s.cond.value, Je, Local(end));
        if !ok { return; }
      }
      breaks, continues := breaks + [Local(end)], continues + [Local(cont)];
      ok := GenStmts(s.body);
      if !ok { return; }
      continues := continues[..|continues| - 1];
      breaks := breaks[..|breaks| - 1];
      Emit(Label(Local(cont)));
      if s.inc.Some? {
        ok := GenExpr(s.inc.value);
        if !ok { return; }
      }
      EmitAll([Jump(Local(begin)), Label(Local(end))]);
      Join6(t, [Label(Local(begin)), Label(Poll(d))], a.code, b.code, [Label(Local(cont))], i.code, [Jump(Local(begin)), Label(Local(end))]);
    }

    method GenCaseTest(slot: nat, val: Word, n: nat)
      modifies this`text
      ensures text == old(text) + CaseTest(slot, val, n)
    {
      hide NumCode;
      EmitAll([OpI(ASub, R9, R10, slot), Op(LoadR(B32, R1, R9))]);
      GenNumReg(R2, val);
      EmitAll([Op(CmpR(R1, R2)), Branch(Je, User(n))]);
      Join4(old(text), [OpI(ASub, R9, R10, slot), Op(LoadR(B32, R1, R9))], NumCode(R2, val), [Op(CmpR(R1, R2)), Branch(Je, User(n))], []);
    }

    // The comparison chain; other is where an unmatched value goes.
    method GenChain(slot: nat, body: Stmts, end: Sym) returns (other: Sym)
      modifies this`text
      ensures text == old(text) + ChainCode(slot, body)
      ensures other == DefaultSym(body, end)
    {
      hide CaseTest;
      other := end;
      var rest := body;
      while rest.Cons?
        invariant text + ChainCode(slot, rest) == old(text) + ChainCode(slot, body)
        invariant DefaultSym(rest, other) == DefaultSym(body, end)
        decreases rest
      {
        if rest.head.Default? {
          other := User(rest.head.num);
        } else if rest.head.Case? {
          GenCaseTest(slot, rest.head.val, rest.head.num);
        }
        rest := rest.tail;
      }
    }

    method GenSwitch(s: Stmt) returns (ok: bool)
      requires s.Switch?
      modifies this
      ensures ok == CompilesStmt(s, old(breaks) != [], old(continues) != [])
      ensures ok ==> Wrote(old(text), StmtCode(near, s, old(Jumps()), old(labels)))
      ensures ok ==> breaks == old(breaks) && continues == old(continues)
      decreases s, 2
    {
      hide ExprCode, Compiles, StmtCode, StmtsCode, CompilesStmt, CompilesStmts, ChainCode, DefaultSym;
      SwitchIs(near, s, Jumps(), labels);
      ghost var t, tg := text, Jumps();
      ghost var a := ExprCode(near, s.c, labels + 1);
      ghost var b := StmtsCode(near, s.pre, tg, a.next);
      ghost var d := StmtsCode(near, s.body, Targets(Some(Local(labels)), tg.cont), b.next);
      var end := NewLabel();
      ok := GenExpr(s.c);
      if !ok { return; }
      EmitAll([OpI(ASub, R9, R10, s.slot), Op(StoreR(B32, R9, R1))]);
      ok := GenStmts(s.pre);
      if !ok { return; }
      var other := GenChain(s.slot, s.body, Local(end));
      Emit(Jump(other));
      assert t + a.code + [OpI(ASub, R9, R10, s.slot), Op(StoreR(B32, R9, R1))] + b.code + ChainCode(s.slot, s.body) + [Jump(other)]
          == t + a.code + [OpI(ASub, R9, R10, s.slot), Op(StoreR(B32, R9, R1))] + b.code + (ChainCode(s.slot, s.body) + [Jump(other)]);
      breaks := breaks + [Local(end)];
      ok := GenStmts(s.body);
      if !ok { return; }
      breaks := breaks[..|breaks| - 1];
      Emit(Label(Local(end)));
      Join6(t, a.code, [OpI(ASub, R9, R10, s.slot), Op(StoreR(B32, R9, R1))], b.code, ChainCode(s.slot, s.body) + [Jump(other)], d.code, [Label(Local(end))]);
    }

    // ---- functions ----

    method GenParams(params: seq<Ty>)
      modifies this`text
      ensures text == old(text) + ParamsCode(params, 0)
    {
      var k := 0;
      while k < |params|
        invariant 0 <= k <= |params|
        invariant text + ParamsCode(params, k) == old(text) + ParamsCode(params, 0)
      {
        ghost var t := text;
        Emit(OpI(AAdd, R9, R10, 8 + 4 * k));
        Emit(Op(LoadR(B32, R1, R9)));
        Emit(OpI(ASub, R9, R10, 4 * (k + 1)));
        GenStore(params[k]);
        assert text == t + ParamCode(k, params[k]);
        k := k + 1;
      }
    }

    // A whole function; the label stacks are empty before and after.
    method GenFunc(f: Func) returns (ok: bool)
      requires breaks == [] && continues == []
      modifies this
      ensures ok == CompilesStmts(f.body, false, false)
      ensures ok ==> Wrote(old(text), FuncCode(near, f, old(labels)))
      ensures ok ==> breaks == [] && continues == []
    {
      hide StmtsCode, CompilesStmts, ParamsCode;
      EmitAll([Label(Name(f.name)), Push(R10), MovR(R10, SP)]);
      if f.frame != 0 { Emit(OpI(ASub, SP, SP, f.frame)); }
      GenParams(f.params);
      var poll := NewLabel();
      Emit(Label(Poll(poll)));
      ok := GenStmts(f.body);
      if !ok { return; }
      EmitAll(LEAVE);
    }

    // Every function of a unit, in order.
    method GenUnit(funcs: seq<Func>) returns (ok: bool)
      requires breaks == [] && continues == []
      modifies this
      ensures ok == forall f | f in funcs :: CompilesStmts(f.body, false, false)
      ensures ok ==> Wrote(old(text), UnitCode(near, funcs, old(labels)))
    {
      hide FuncCode, CompilesStmts, UnitCode;
      UnitNone(near, labels);
      var i := 0;
      while i < |funcs|
        invariant 0 <= i <= |funcs| && breaks == [] && continues == []
        invariant forall f | f in funcs[..i] :: CompilesStmts(f.body, false, false)
        invariant Wrote(old(text), UnitCode(near, funcs[..i], old(labels)))
      {
        ghost var labels0 := labels;
        ok := GenFunc(funcs[i]);
        if !ok {
          assert funcs[i] in funcs;
          return;
        }
        assert funcs[..i + 1] == funcs[..i] + [funcs[i]];
        UnitSnoc(near, funcs[..i], funcs[i], old(labels));
        Join4(old(text), UnitCode(near, funcs[..i], old(labels)).code, FuncCode(near, funcs[i], labels0).code, [], []);
        i := i + 1;
      }
      assert funcs[..i] == funcs;
      ok := true;
    }
  }

  lemma NilCompiles(brk: bool, cont: bool)
    ensures CompilesStmts(Nil, brk, cont)
  {
  }

  lemma UnitNone(near: set<string>, c: nat)
    ensures UnitCode(near, [], c) == Gen([], c)
  {
  }

  lemma UnitSnoc(near: set<string>, funcs: seq<Func>, f: Func, c: nat)
    ensures var a := UnitCode(near, funcs, c);
            UnitCode(near, funcs + [f], c) == Gen(a.code + FuncCode(near, f, a.next).code, FuncCode(near, f, a.next).next)
  {
    hide FuncCode;
    assert (funcs + [f])[..|funcs|] == funcs;
  }
}
