// The code generator (symcc/src/codegen.c): what it emits for every construct,
// as functions, and the recursive walk that emits it.
module Codegen {
  import opened Words
  import opened Isa
  import opened Link
  import opened Minic

  const R1: Reg := 1
  const R2: Reg := 2
  const R9: Reg := 9
  const R10: Reg := 10

  // The code of a construct, and the label counter after it.
  datatype Gen = Gen(code: seq<Line>, next: nat)

  function MovR(a: Reg, b: Reg): Line { Op(AluR(AOr, a, ZR, b)) }
  function MovI(a: Reg, n: nat): Line { OpI(AOr, a, ZR, n) }

  // gen_num_reg: constants above 16 bits are built from halves.
  function NumCode(r: Reg, v: Word): seq<Line> {
    var hi, lo := v / 0x1_0000, v % 0x1_0000;
    if hi == 0 then [MovI(r, lo)]
    else if lo == 0 then [MovI(r, hi), OpI(ALsl, r, r, 16)]
    else [MovI(r, hi), OpI(ALsl, r, r, 16), OpI(AOr, r, r, lo)]
  }

  // emit_addr32
  function FarAddr(y: Sym): seq<Line> {
    [OpSym(AOr, R9, ZR, Hi, y), OpI(ALsl, R9, R9, 16), OpSym(AOr, R9, R9, Lo, y)]
  }

  // A global is loaded in one instruction when it is known to lie low.
  function GlobalAddr(near: set<string>, name: string): seq<Line> {
    if name in near then [OpSym(AOr, R9, ZR, D16, Name(name))] else FarAddr(Name(name))
  }

  // lsl and lsr/asr by the same amount: narrow r1 to the type.
  function NarrowCode(t: Ty): seq<Line> {
    var op := if t.unsigned then ALsr else AAsr;
    match t.kind
    case Char => [OpI(ALsl, R1, R1, 24), OpI(op, R1, R1, 24)]
    case Short => [OpI(ALsl, R1, R1, 16), OpI(op, R1, R1, 16)]
    case _ => []
  }

  function WidthOfTy(t: Ty): Width {
    match t.kind case Char => B8 case Short => B16 case _ => B32
  }

  // gen_load, gen_store
  function LoadCode(t: Ty): seq<Line> {
    [Op(LoadR(WidthOfTy(t), R1, R9))] + NarrowCode(t)
  }

  function StoreCode(t: Ty): seq<Line> {
    [Op(StoreR(WidthOfTy(t), R9, R1))]
  }

  // gen_compare
  function CompareCode(cc: Cond, c: nat): Gen {
    Gen([Op(CmpR(R1, R2)), Branch(cc, Local(c)), MovI(R1, 0), Jump(Local(c + 1)),
         Label(Local(c)), MovI(R1, 1), Label(Local(c + 1))], c + 2)
  }

  // The jump taken when r1 stands in the relation to r2.
  function JumpFor(rel: Relation, unsigned: bool): Cond {
    match rel
    case Equal => Je
    case Unequal => Jne
    case Less => if unsigned then Jb else Jl
    case LessEqual => if unsigned then Jbe else Jle
    case Greater => if unsigned then Ja else Jg
    case GreaterEqual => if unsigned then Jae else Jge
  }

  // Compare r1 with zero and branch.
  function TestCode(cc: Cond, y: Sym): seq<Line> {
    [MovI(R2, 0), Op(CmpR(R1, R2)), Branch(cc, y)]
  }

  function CallCode(f: string): seq<Line> {
    [Push(R2), Push(R1), CallTo(Name(f)), OpI(AAdd, SP, SP, 8)]
  }

  // r1 := r1 op r2
  function BinCode(op: BinOp, c: nat): Gen {
    match op
    case Add => Gen([Op(AluR(AAdd, R1, R1, R2))], c)
    case Sub => Gen([Op(AluR(ASub, R1, R1, R2))], c)
    case Mul => Gen([Op(AluR(AMul, R1, R1, R2))], c)
    case UDivide => Gen([Op(AluR(ADiv, R1, R1, R2))], c)
    case UModulo => Gen([Op(AluR(AMod, R1, R1, R2))], c)
    case SDivide => Gen(CallCode("__divsi3"), c)
    case SModulo => Gen(CallCode("__modsi3"), c)
    case BitAnd => Gen([Op(AluR(AAnd, R1, R1, R2))], c)
    case BitOr => Gen([Op(AluR(AOr, R1, R1, R2))], c)
    case BitXor => Gen([Op(AluR(AXor, R1, R1, R2))], c)
    case Shl => Gen([Op(AluR(ALsl, R1, R1, R2))], c)
    case ShrU => Gen([Op(AluR(ALsr, R1, R1, R2))], c)
    case ShrS => Gen([Op(AluR(AAsr, R1, R1, R2))], c)
    case Compare(rel, unsigned) => CompareCode(JumpFor(rel, unsigned), c)
  }

  function RvalueCode(t: Ty): seq<Line> {
    if t.kind.Agg? then [MovR(R1, R9)] else LoadCode(t)
  }

  function OffsetCode(from: Reg, off: nat): seq<Line> {
    if off != 0 then [OpI(AAdd, R9, from, off)]
    else if from == R9 then []
    else [MovR(R9, from)]
  }

  // gen_expr
  function ExprCode(near: set<string>, e: Expr, c: nat): Gen
    decreases e, 1
  {
    match e
    case Num(v) => Gen(NumCode(R1, v), c)
    case Var(_, t) => var a := AddrCode(near, e, c); Gen(a.code + RvalueCode(t), a.next)
    case GVar(_, t) => var a := AddrCode(near, e, c); Gen(a.code + RvalueCode(t), a.next)
    case FuncAddr(name) => Gen(FarAddr(Name(name)) + [MovR(R1, R9)], c)
    case StrAddr(n) => Gen(FarAddr(Lit(n)) + [MovR(R1, R9)], c)
    case AddrOf(x) => var a := AddrCode(near, x, c); Gen(a.code + [MovR(R1, R9)], a.next)
    case Deref(x, t) =>
      var a := ExprCode(near, x, c);
      Gen(a.code + if t.kind.Agg? then [] else [MovR(R9, R1)] + LoadCode(t), a.next)
    case Member(_, _, t) => var a := AddrCode(near, e, c); Gen(a.code + RvalueCode(t), a.next)
    case Cast(x, t) => var a := ExprCode(near, x, c); Gen(a.code + NarrowCode(t), a.next)
    case Neg(x) => var a := ExprCode(near, x, c); Gen(a.code + [Op(AluR(ASub, R1, ZR, R1))], a.next)
    case BitNot(x) =>
      var a := ExprCode(near, x, c);
      Gen(a.code + NumCode(R2, W - 1) + [Op(AluR(AXor, R1, R1, R2))], a.next)
    case Not(x) =>
      var a := ExprCode(near, x, c);
      var d := CompareCode(Je, a.next);
      Gen(a.code + [MovI(R2, 0)] + d.code, d.next)
    case Assign(lv, rhs, t) =>
      var a := AddrCode(near, lv, c);
      var b := ExprCode(near, rhs, a.next);
      Gen(a.code + [Push(R9)] + b.code + [Pop(R9)] + StoreCode(t), b.next)
    case Bin(op, l, r) =>
      var b := ExprCode(near, r, c);
      var a := ExprCode(near, l, b.next);
      var d := BinCode(op, a.next);
      Gen(b.code + [Push(R1)] + a.code + [Pop(R2)] + d.code, d.next)
    case LogAnd(l, r) =>
      var a := ExprCode(near, l, c + 2);
      var b := ExprCode(near, r, a.next);
      Gen(a.code + TestCode(Je, Local(c)) + b.code + TestCode(Je, Local(c))
          + [MovI(R1, 1), Jump(Local(c + 1)), Label(Local(c)), MovI(R1, 0), Label(Local(c + 1))], b.next)
    case LogOr(l, r) =>
      var a := ExprCode(near, l, c + 2);
      var b := ExprCode(near, r, a.next);
      Gen(a.code + TestCode(Jne, Local(c)) + b.code + TestCode(Jne, Local(c))
          + [MovI(R1, 0), Jump(Local(c + 1)), Label(Local(c)), MovI(R1, 1), Label(Local(c + 1))], b.next)
    case Ternary(x, t, f) =>
      var a := ExprCode(near, x, c + 2);
      var b := ExprCode(near, t, a.next);
      var d := ExprCode(near, f, b.next);
      Gen(a.code + TestCode(Je, Local(c)) + b.code + [Jump(Local(c + 1)), Label(Local(c))]
          + d.code + [Label(Local(c + 1))], d.next)
    case Comma(l, r) =>
      var a := ExprCode(near, l, c);
      var b := ExprCode(near, r, a.next);
      Gen(a.code + b.code, b.next)
    case Call(name, args) =>
      var a := ArgsCode(near, args, c);
      Gen(a.code + [CallTo(Name(name))] + CleanCode(args.Count()), a.next)
  }

  function CleanCode(n: nat): seq<Line> {
    if n == 0 then [] else [OpI(AAdd, SP, SP, 4 * n)]
  }

  // gen_laddr, gen_member_addr: the address of an lvalue in r9.
  function AddrCode(near: set<string>, e: Expr, c: nat): Gen
    decreases e, 0
  {
    match e
    case Var(off, _) => Gen([OpI(ASub, R9, R10, off)], c)
    case GVar(name, _) => Gen(GlobalAddr(near, name), c)
    case Deref(x, _) => var a := ExprCode(near, x, c); Gen(a.code + [MovR(R9, R1)], a.next)
    case Member(b, off, _) =>
      if b.Deref? then var a := ExprCode(near, b.e, c); Gen(a.code + OffsetCode(R1, off), a.next)
      else if b.Call? then var a := ExprCode(near, b, c); Gen(a.code + OffsetCode(R1, off), a.next)
      else var a := AddrCode(near, b, c); Gen(a.code + OffsetCode(R9, off), a.next)
    case _ => Gen([], c)
  }

  // Arguments from right to left, each pushed.
  function ArgsCode(near: set<string>, args: Args, c: nat): Gen
    decreases args, 0
  {
    match args
    case NoArgs => Gen([], c)
    case Arg(e, rest) =>
      var b := ArgsCode(near, rest, c);
      var a := ExprCode(near, e, b.next);
      Gen(b.code + a.code + [Push(R1)], a.next)
  }

  // gen_branch_zero
  function BranchCode(near: set<string>, e: Expr, cc: Cond, y: Sym, c: nat): Gen {
    var a := ExprCode(near, e, c);
    Gen(a.code + TestCode(cc, y), a.next)
  }

  // Where break and continue go.
  datatype Targets = Targets(brk: Option<Sym>, cont: Option<Sym>)

  function JumpTo(y: Option<Sym>): seq<Line> {
    match y case None => [] case Some(s) => [Jump(s)]
  }

  const LEAVE: seq<Line> := [MovR(SP, R10), Pop(R10), Ret]

  // gen_stmt
  function StmtCode(near: set<string>, s: Stmt, t: Targets, c: nat): Gen
    decreases s, 1
  {
    match s
    case Return(value) =>
      (match value
       case None => Gen([Note] + LEAVE, c)
       case Some(e) => var a := ExprCode(near, e, c); Gen(a.code + [Note] + LEAVE, a.next))
    case If(e, yes, no) =>
      var a := BranchCode(near, e, Je, Local(c), c + 2);
      var b := StmtsCode(near, yes, t, a.next);
      if no.Nil? then Gen(a.code + b.code + [Label(Local(c))], b.next)
      else
        var d := StmtsCode(near, no, t, b.next);
        Gen(a.code + b.code + [Jump(Local(c + 1)), Label(Local(c))] + d.code + [Label(Local(c + 1))], d.next)
    case While(e, body) =>
      var a := BranchCode(near, e, Je, Local(c + 1), c + 3);
      var b := StmtsCode(near, body, Targets(Some(Local(c + 1)), Some(Local(c))), a.next);
      Gen([Label(Local(c)), Label(Poll(c + 2))] + a.code + b.code + [Jump(Local(c)), Label(Local(c + 1))], b.next)
    case For(init, cond, inc, body) =>
      var i := StmtsCode(near, init, t, c + 3);
      var l := ForCode(near, cond, inc, body, c, i.next);
      Gen(i.code + l.code, l.next)
    case DoWhile(body, e) =>
      var b := StmtsCode(near, body, Targets(Some(Local(c + 2)), Some(Local(c + 1))), c + 4);
      var a := BranchCode(near, e, Je, Local(c + 2), b.next);
      Gen([Label(Local(c)), Label(Poll(c + 3))] + b.code + [Label(Local(c + 1))] + a.code
          + [Jump(Local(c)), Label(Local(c + 2))], a.next)
    case Switch(e, slot, pre, body) =>
      var a := ExprCode(near, e, c + 1);
      var b := StmtsCode(near, pre, t, a.next);
      var d := StmtsCode(near, body, Targets(Some(Local(c)), t.cont), b.next);
      Gen(a.code + [OpI(ASub, R9, R10, slot), Op(StoreR(B32, R9, R1))] + b.code + ChainCode(slot, body)
          + [Jump(DefaultSym(body, Local(c)))] + d.code + [Label(Local(c))], d.next)
    case Case(n, _) => Gen([Label(User(n))], c)
    case Default(n) => Gen([Label(User(n))], c)
    case Break => Gen(JumpTo(t.brk), c)
    case Continue => Gen(JumpTo(t.cont), c)
    case Decl => Gen([], c)
    case Do(e) => ExprCode(near, e, c)
  }

  // A for loop after its initialisation; its labels are c, c + 1 and c + 2.
  function ForCode(near: set<string>, cond: Option<Expr>, inc: Option<Expr>, body: Stmts, c: nat, d: nat): Gen
    decreases body, 1
  {
    var a := match cond
             case None => Gen([], d + 1)
             case Some(e) => BranchCode(near, e, Je, Local(c + 2), d + 1);
    var b := StmtsCode(near, body, Targets(Some(Local(c + 2)), Some(Local(c + 1))), a.next);
    var i := match inc case None => Gen([], b.next) case Some(e) => ExprCode(near, e, b.next);
    Gen([Label(Local(c)), Label(Poll(d))] + a.code + b.code + [Label(Local(c + 1))]
        + i.code + [Jump(Local(c)), Label(Local(c + 2))], i.next)
  }

  function StmtsCode(near: set<string>, ss: Stmts, t: Targets, c: nat): Gen
    decreases ss, 0
  {
    match ss
    case Nil => Gen([], c)
    case Cons(s, rest) =>
      var a := StmtCode(near, s, t, c);
      var b := StmtsCode(near, rest, t, a.next);
      Gen(a.code + b.code, b.next)
  }

  // One comparison of a switch's chain.
  function CaseTest(slot: nat, val: Word, n: nat): seq<Line> {
    [OpI(ASub, R9, R10, slot), Op(LoadR(B32, R1, R9))] + NumCode(R2, val) + [Op(CmpR(R1, R2)), Branch(Je, User(n))]
  }

  function ChainCode(slot: nat, body: Stmts): seq<Line> {
    match body
    case Nil => []
    case Cons(s, rest) => (if s.Case? then CaseTest(slot, s.val, s.num) else []) + ChainCode(slot, rest)
  }

  function DefaultSym(body: Stmts, end: Sym): Sym {
    match body
    case Nil => end
    case Cons(s, rest) => DefaultSym(rest, if s.Default? then User(s.num) else end)
  }

  // One parameter copied from the caller's argument area into its slot.
  function ParamCode(k: nat, t: Ty): seq<Line> {
    [OpI(AAdd, R9, R10, 8 + 4 * k), Op(LoadR(B32, R1, R9)), OpI(ASub, R9, R10, 4 * (k + 1))] + StoreCode(t)
  }

  function ParamsCode(params: seq<Ty>, k: nat): seq<Line>
    requires k <= |params|
    decreases |params| - k
  {
    if k == |params| then [] else ParamCode(k, params[k]) + ParamsCode(params, k + 1)
  }

  function FrameCode(size: nat): seq<Line> {
    if size == 0 then [] else [OpI(ASub, SP, SP, size)]
  }

  const NOWHERE := Targets(None, None)

  // gen_func
  function FuncCode(near: set<string>, f: Func, c: nat): Gen {
    var b := StmtsCode(near, f.body, NOWHERE, c + 1);
    Gen([Label(Name(f.name)), Push(R10), MovR(R10, SP)] + FrameCode(f.frame) + ParamsCode(f.params, 0)
        + [Label(Poll(c))] + b.code + LEAVE, b.next)
  }

  // The functions of one object, one after the other.
  function UnitCode(near: set<string>, funcs: seq<Func>, c: nat): Gen {
    if |funcs| == 0 then Gen([], c)
    else
      var a := UnitCode(near, funcs[..|funcs| - 1], c);
      var b := FuncCode(near, funcs[|funcs| - 1], a.next);
      Gen(a.code + b.code, b.next)
  }

  // ---- when the generator does not give up ----

  // Expressions it can compile: lvalues are lvalues.
  predicate Compiles(e: Expr)
    decreases e, 1
  {
    match e
    case Num(_) => true
    case Var(_, _) => true
    case GVar(_, _) => true
    case FuncAddr(_) => true
    case StrAddr(_) => true
    case AddrOf(x) => Addressable(x)
    case Deref(x, _) => Compiles(x)
    case Member(_, _, _) => Addressable(e)
    case Cast(x, _) => Compiles(x)
    case Neg(x) => Compiles(x)
    case BitNot(x) => Compiles(x)
    case Not(x) => Compiles(x)
    case Assign(lv, rhs, _) => Addressable(lv) && Compiles(rhs)
    case Bin(_, l, r) => Compiles(l) && Compiles(r)
    case LogAnd(l, r) => Compiles(l) && Compiles(r)
    case LogOr(l, r) => Compiles(l) && Compiles(r)
    case Ternary(x, t, f) => Compiles(x) && Compiles(t) && Compiles(f)
    case Comma(l, r) => Compiles(l) && Compiles(r)
    case Call(_, args) => CompilesArgs(args)
  }

  predicate Addressable(e: Expr)
    decreases e, 0
  {
    match e
    case Var(_, _) => true
    case GVar(_, _) => true
    case Deref(x, _) => Compiles(x)
    case Member(b, _, _) =>
      if b.Deref? then Compiles(b.e) else if b.Call? then Compiles(b) else Addressable(b)
    case _ => false
  }

  predicate CompilesArgs(args: Args)
    decreases args, 0
  {
    match args case NoArgs => true case Arg(e, rest) => Compiles(e) && CompilesArgs(rest)
  }

  // Statements it can compile: break and continue have somewhere to go.
  predicate CompilesStmt(s: Stmt, brk: bool, cont: bool)
    decreases s, 1
  {
    match s
    case Return(value) => value.Some? ==> Compiles(value.value)
    case If(e, yes, no) => Compiles(e) && CompilesStmts(yes, brk, cont) && CompilesStmts(no, brk, cont)
    case While(e, body) => Compiles(e) && CompilesStmts(body, true, true)
    case For(init, cond, inc, body) =>
      && CompilesStmts(init, brk, cont) && (cond.Some? ==> Compiles(cond.value)) && (inc.Some? ==> Compiles(inc.value))
      && CompilesStmts(body, true, true)
    case DoWhile(body, e) => Compiles(e) && CompilesStmts(body, true, true)
    case Switch(e, _, pre, body) => Compiles(e) && CompilesStmts(pre, brk, cont) && CompilesStmts(body, true, cont)
    case Case(_, _) => true
    case Default(_) => true
    case Break => brk
    case Continue => cont
    case Decl => true
    case Do(e) => Compiles(e)
  }

  predicate CompilesStmts(ss: Stmts, brk: bool, cont: bool)
    decreases ss, 0
  {
    match ss case Nil => true case Cons(s, rest) => CompilesStmt(s, brk, cont) && CompilesStmts(rest, brk, cont)
  }
}
