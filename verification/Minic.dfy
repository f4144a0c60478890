// The C subset the code generator accepts, and what it means: scalar
// expressions over byte-addressed memory, structured statements and functions.
module Minic {
  import opened Words
  import opened Isa
  import opened Emu
  import opened Link

  // Int stands for int, long and pointers; Agg for arrays, structs and unions,
  // whose expressions evaluate to their address.
  datatype Kind = Char | Short | Int | Agg
  datatype Ty = Ty(kind: Kind, unsigned: bool)

  datatype Relation = Equal | Unequal | Less | LessEqual | Greater | GreaterEqual

  datatype BinOp =
    | Add | Sub | Mul | UDivide | UModulo | SDivide | SModulo
    | BitAnd | BitOr | BitXor | Shl | ShrU | ShrS
    | Compare(rel: Relation, unsigned: bool)

  datatype Expr =
    | Num(v: Word)
    | Var(off: nat, ty: Ty)
    | GVar(name: string, ty: Ty)
    | FuncAddr(name: string)
    | StrAddr(n: nat)
    | AddrOf(e: Expr)
    | Deref(e: Expr, ty: Ty)
    | Member(base: Expr, off: nat, ty: Ty)
    | Cast(e: Expr, ty: Ty)
    | Neg(e: Expr) | BitNot(e: Expr) | Not(e: Expr)
    | Assign(lv: Expr, rhs: Expr, ty: Ty)
    | Bin(op: BinOp, l: Expr, r: Expr)
    | LogAnd(l: Expr, r: Expr) | LogOr(l: Expr, r: Expr)
    | Ternary(c: Expr, t: Expr, f: Expr)
    | Comma(l: Expr, r: Expr)
    | Call(name: string, args: Args)

  datatype Args = NoArgs | Arg(head: Expr, tail: Args) {
    function Count(): nat {
      match this case NoArgs => 0 case Arg(_, t) => 1 + t.Count()
    }
  }

  datatype Stmt =
    | Return(value: Option<Expr>)
    | If(c: Expr, t: Stmts, f: Stmts)
    | While(c: Expr, body: Stmts)
    | For(init: Stmts, cond: Option<Expr>, inc: Option<Expr>, body: Stmts)
    | DoWhile(body: Stmts, c: Expr)
    // slot is the hidden variable holding the value; pre is what stands before
    // the first case label.
    | Switch(c: Expr, slot: nat, pre: Stmts, body: Stmts)
    | Case(num: nat, val: Word)
    | Default(num: nat)
    | Break
    | Continue
    | Decl
    | Do(e: Expr)

  datatype Stmts = Nil | Cons(head: Stmt, tail: Stmts)

  // unit is the object the function is compiled into; result is the type its
  // value has, if it returns one.
  datatype Func = Func(unit: nat, name: string, params: seq<Ty>, result: Ty, frame: nat, body: Stmts)

  // ---- memory ----

  // A byte the program may use, not yet written or written.
  datatype Cell = Undef | Known(b: Byte)

  // Only the addresses the program may touch are present.
  type Mem = map<int, Cell>

  predicate Has(m: Mem, a: int, n: nat) {
    forall i | a <= i < a + n :: i in m
  }

  predicate Defined(m: Mem, a: int, n: nat) {
    forall i | a <= i < a + n :: i in m && m[i].Known?
  }

  function LoadN(m: Mem, a: int, n: nat): Option<Word>
    requires n == 1 || n == 2 || n == 4
  {
    if !Defined(m, a, n) then None
    else if n == 1 then Some(m[a].b)
    else if n == 2 then Some(Be32(0, 0, m[a].b, m[a + 1].b))
    else Some(Be32(m[a].b, m[a + 1].b, m[a + 2].b, m[a + 3].b))
  }

  function StoreN(m: Mem, a: int, n: nat, v: Word): (r: Option<Mem>)
    requires n == 1 || n == 2 || n == 4
    ensures r.Some? ==> r.value.Keys == m.Keys
  {
    if !Has(m, a, n) then None
    else if n == 1 then Some(m[a := Known(ByteAt(v, 3))])
    else if n == 2 then Some(m[a := Known(ByteAt(v, 2))][a + 1 := Known(ByteAt(v, 3))])
    else
      Some(m[a := Known(ByteAt(v, 0))][a + 1 := Known(ByteAt(v, 1))][a + 2 := Known(ByteAt(v, 2))][a + 3 := Known(ByteAt(v, 3))])
  }

  function SizeOf(t: Ty): (n: nat)
    ensures n == 1 || n == 2 || n == 4
  {
    match t.kind case Char => 1 case Short => 2 case Int => 4 case Agg => 4
  }

  // A value narrowed to a type: char and short keep their low bits, extended.
  function Convert(v: Word, t: Ty): Word {
    match t.kind
    case Char => Extend(v, 8, t.unsigned)
    case Short => Extend(v, 16, t.unsigned)
    case _ => v
  }

  // ---- values of operators ----

  function Bool(b: bool): Word {
    if b then 1 else 0
  }

  // The number a word stands for.
  function Number(x: Word, unsigned: bool): int {
    if unsigned then x else Signed(x)
  }

  predicate Related(rel: Relation, a: int, b: int) {
    match rel
    case Equal => a == b
    case Unequal => a != b
    case Less => a < b
    case LessEqual => a <= b
    case Greater => a > b
    case GreaterEqual => a >= b
  }

  // The value of an operator on numbers.  Shifts count modulo 32 and an unsigned
  // division by zero gives zero, as on the machine; C leaves both undefined.
  function Apply(op: BinOp, x: Word, y: Word): Word {
    match op
    case Add => Wrap(x + y)
    case Sub => Wrap(x - y)
    case Mul => Wrap(x * y)
    case UDivide => if y == 0 then 0 else Wrap(x / y)
    case UModulo => if y == 0 then 0 else Wrap(x % y)
    case BitAnd => BitOp(And, x, y)
    case BitOr => BitOp(Or, x, y)
    case BitXor => BitOp(Xor, x, y)
    case Shl => Wrap(x * Pow2(y % 32))
    case ShrU => Wrap(x / Pow2(y % 32))
    case ShrS => Wrap(Signed(x) / Pow2(y % 32))
    case Compare(rel, unsigned) => Bool(Related(rel, Number(x, unsigned), Number(y, unsigned)))
    case _ => 0
  }

  // The runtime routine a signed division calls.
  function Routine(op: BinOp): Option<string> {
    match op
    case SDivide => Some("__divsi3")
    case SModulo => Some("__modsi3")
    case _ => None
  }

  // ---- programs and results ----

  // IsoC is what a program means in C.  Emitted is what the code generator
  // makes of it, which is different in three places: the value of a narrow
  // assignment and of a narrow function keep their high bits, and what stands
  // before the first case of a switch is executed.
  datatype Meaning = IsoC | Emitted

  datatype Env = Env(
    meaning: Meaning,
    funcs: seq<Func>,
    // the function a name denotes in a unit
    defs: map<(nat, string), nat>,
    // the address a symbol denotes in a unit
    syms: map<(nat, Sym), Word>,
    // the lowest usable stack address
    lo: int,
    // the current unit and frame base
    unit: nat, fb: int)

  // Stuck is undefined behaviour: a bad access, a missing function, a used
  // value that is not there, or an exhausted stack.
  datatype Res = Val(v: Word, m: Mem) | Void(m: Mem) | Stuck | Timeout
  datatype ArgRes = Vals(vs: seq<Word>, m: Mem) | ArgStuck | ArgTimeout
  datatype Out = Normal(m: Mem) | Broke(m: Mem) | Continued(m: Mem) | Returned(v: Option<Word>, m: Mem) | OutStuck | OutTimeout

  function FetchTy(m: Mem, a: Word, t: Ty): Res {
    match LoadN(m, a, SizeOf(t))
    case None => Stuck
    case Some(v) => Val(Convert(v, t), m)
  }

  predicate Within(a: int, lo: int, hi: int) {
    lo <= a < hi
  }

  function Frame(lo: int, hi: int): map<int, Cell> {
    map a: int | lo <= a < hi && Within(a, lo, hi) :: Undef
  }

  function FrameKeys(lo: int, hi: int): set<int> {
    set a: int | lo <= a < hi && Within(a, lo, hi)
  }

  // Copy the arguments into their slots.
  function BindParams(params: seq<Ty>, vals: seq<Word>, fb: int, m: Mem, k: nat): Option<Mem>
    requires |params| == |vals| && k <= |params|
    decreases |params| - k
  {
    if k == |params| then Some(m)
    else match StoreN(m, fb - 4 * (k + 1), SizeOf(params[k]), vals[k])
      case None => None
      case Some(m') => BindParams(params, vals, fb, m', k + 1)
  }

  // The value a construct of type ty passes on.
  function Passed(env: Env, v: Word, ty: Ty): Word {
    if env.meaning.IsoC? then Convert(v, ty) else v
  }

  // A safe point may have to push a return address.
  predicate Room(env: Env, p: int) {
    env.lo <= p - 4
  }

  // ---- evaluation ----
  //
  // p is the stack pointer: the place of the next pushed word, and so of the
  // frame of the next function called.  Nothing else depends on it.

  function Eval(fuel: nat, env: Env, e: Expr, m: Mem, p: int): Res
    decreases fuel, e, 1
  {
    match e
    case Num(v) => Val(v, m)
    case Var(_, ty) => Rvalue(Address(fuel, env, e, m, p), ty)
    case GVar(_, ty) => Rvalue(Address(fuel, env, e, m, p), ty)
    case FuncAddr(name) =>
      if (env.unit, Name(name)) in env.syms then Val(env.syms[(env.unit, Name(name))], m) else Stuck
    case StrAddr(n) =>
      if (env.unit, Lit(n)) in env.syms then Val(env.syms[(env.unit, Lit(n))], m) else Stuck
    case AddrOf(x) => Address(fuel, env, x, m, p)
    case Deref(x, ty) => Rvalue(Eval(fuel, env, x, m, p), ty)
    case Member(_, _, ty) => Rvalue(Address(fuel, env, e, m, p), ty)
    case Cast(x, ty) =>
      (match Eval(fuel, env, x, m, p)
       case Val(v, m1) => Val(Convert(v, ty), m1)
       case r => Strict(r))
    case Neg(x) =>
      (match Eval(fuel, env, x, m, p)
       case Val(v, m1) => Val(Wrap(0 - v), m1)
       case r => Strict(r))
    case BitNot(x) =>
      (match Eval(fuel, env, x, m, p)
       case Val(v, m1) => Val(W - 1 - v, m1)
       case r => Strict(r))
    case Not(x) =>
      (match Eval(fuel, env, x, m, p)
       case Val(v, m1) => Val(Bool(v == 0), m1)
       case r => Strict(r))
    case Assign(lv, rhs, ty) =>
      (match Address(fuel, env, lv, m, p)
       case Val(a, m1) =>
         if p - 4 < env.lo || ty.kind.Agg? then Stuck
         else (match Eval(fuel, env, rhs, m1, p - 4)
               case Val(v, m2) =>
                 (match StoreN(m2, a, SizeOf(ty), v)
                  case None => Stuck
                  case Some(m3) => Val(Passed(env, v, ty), m3))
               case r => Strict(r))
       case r => Strict(r))
    case Bin(op, l, r) =>
      (match Eval(fuel, env, r, m, p)
       case Val(y, m1) =>
         if p - 4 < env.lo then Stuck
         else (match Eval(fuel, env, l, m1, p - 4)
               case Val(x, m2) =>
                 (match Routine(op)
                  case None => Val(Apply(op, x, y), m2)
                  case Some(f) =>
                    if p - 8 < env.lo then Stuck
                    else if fuel == 0 then Timeout
                    else Strict(CallFn(fuel - 1, env, f, [x, y], m2, p)))
               case q => Strict(q))
       case q => Strict(q))
    case LogAnd(l, r) =>
      (match Eval(fuel, env, l, m, p)
       case Val(x, m1) => if x == 0 then Val(0, m1) else Truth(Eval(fuel, env, r, m1, p))
       case q => Strict(q))
    case LogOr(l, r) =>
      (match Eval(fuel, env, l, m, p)
       case Val(x, m1) => if x != 0 then Val(1, m1) else Truth(Eval(fuel, env, r, m1, p))
       case q => Strict(q))
    case Ternary(c, t, f) =>
      (match Eval(fuel, env, c, m, p)
       case Val(x, m1) => if x != 0 then Eval(fuel, env, t, m1, p) else Eval(fuel, env, f, m1, p)
       case q => Strict(q))
    case Comma(l, r) =>
      (match Eval(fuel, env, l, m, p)
       case Val(_, m1) => Eval(fuel, env, r, m1, p)
       case Void(m1) => Eval(fuel, env, r, m1, p)
       case q => Strict(q))
    case Call(name, args) =>
      (match EvalArgs(fuel, env, args, m, p)
       case Vals(vs, m1) => if fuel == 0 then Timeout else CallFn(fuel - 1, env, name, vs, m1, p)
       case ArgStuck => Stuck
       case ArgTimeout => Timeout)
  }

  // Using a result as a value: a void one is not there.
  function Strict(r: Res): Res {
    match r case Void(_) => Stuck case _ => r
  }

  function Truth(r: Res): Res {
    match r case Val(v, m) => Val(Bool(v != 0), m) case _ => Strict(r)
  }

  function Rvalue(r: Res, ty: Ty): Res {
    match r
    case Val(a, m) => if ty.kind.Agg? then r else FetchTy(m, a, ty)
    case _ => Strict(r)
  }

  // The address of an lvalue.
  function Address(fuel: nat, env: Env, e: Expr, m: Mem, p: int): Res
    decreases fuel, e, 0
  {
    match e
    case Var(off, _) => Val(Wrap(env.fb - off), m)
    case GVar(name, _) =>
      if (env.unit, Name(name)) in env.syms then Val(env.syms[(env.unit, Name(name))], m) else Stuck
    case Deref(x, _) => Strict(Eval(fuel, env, x, m, p))
    case Member(b, off, _) =>
      var r := if b.Deref? then Eval(fuel, env, b.e, m, p)
               else if b.Call? then Eval(fuel, env, b, m, p)
               else Address(fuel, env, b, m, p);
      (match r
       case Val(a, m1) => Val(Wrap(a + off), m1)
       case _ => Strict(r))
    case _ => Stuck
  }

  // Arguments, last one first; each evaluated one is pushed.
  function EvalArgs(fuel: nat, env: Env, args: Args, m: Mem, p: int): (r: ArgRes)
    ensures r.Vals? ==> |r.vs| == args.Count()
    decreases fuel, args, 0
  {
    match args
    case NoArgs => Vals([], m)
    case Arg(e, rest) =>
      match EvalArgs(fuel, env, rest, m, p)
      case Vals(vs, m1) =>
        (match Eval(fuel, env, e, m1, p - 4 * rest.Count())
         case Val(v, m2) => if p - 4 * args.Count() < env.lo then ArgStuck else Vals([v] + vs, m2)
         case Void(_) => ArgStuck
         case Stuck => ArgStuck
         case Timeout => ArgTimeout)
      case r => r
  }

  // Call with the arguments pushed below p: the return address and the
  // caller's frame base take eight bytes, the frame lies below them.
  function CallFn(fuel: nat, env: Env, name: string, vals: seq<Word>, m: Mem, p: int): Res
    decreases fuel
  {
    if (env.unit, name) !in env.defs || env.defs[(env.unit, name)] >= |env.funcs| then Stuck
    else
      var f := env.funcs[env.defs[(env.unit, name)]];
      var fb := p - 4 * |vals| - 8;
      if |vals| != |f.params| || !Room(env, fb - f.frame) then Stuck
      else match BindParams(f.params, vals, fb, m + Frame(fb - f.frame, fb), 0)
        case None => Stuck
        case Some(m1) =>
          match RunStmts(fuel, env.(unit := f.unit, fb := fb), f.body, m1, fb - f.frame)
          case Normal(m2) => Void(m2 - FrameKeys(fb - f.frame, fb))
          case Returned(v, m2) =>
            (match v
             case None => Void(m2 - FrameKeys(fb - f.frame, fb))
             case Some(w) => Val(Passed(env, w, f.result), m2 - FrameKeys(fb - f.frame, fb)))
          case Broke(_) => Stuck
          case Continued(_) => Stuck
          case OutStuck => Stuck
          case OutTimeout => Timeout
  }

  // ---- execution ----

  function RunStmts(fuel: nat, env: Env, ss: Stmts, m: Mem, p: int): Out
    decreases fuel, ss, 0
  {
    match ss
    case Nil => Normal(m)
    case Cons(s, rest) =>
      match RunStmt(fuel, env, s, m, p)
      case Normal(m1) => RunStmts(fuel, env, rest, m1, p)
      case o => o
  }

  function ExprOut(r: Res): Out {
    match r
    case Val(_, m) => Normal(m)
    case Void(m) => Normal(m)
    case Stuck => OutStuck
    case Timeout => OutTimeout
  }

  function RunStmt(fuel: nat, env: Env, s: Stmt, m: Mem, p: int): Out
    decreases fuel, s, 2
  {
    match s
    case Return(value) =>
      (match value
       case None => Returned(None, m)
       case Some(e) =>
         match Eval(fuel, env, e, m, p)
         case Val(v, m1) => Returned(Some(v), m1)
         case Void(_) => OutStuck
         case Stuck => OutStuck
         case Timeout => OutTimeout)
    case If(c, t, f) =>
      (match Eval(fuel, env, c, m, p)
       case Val(v, m1) => if v != 0 then RunStmts(fuel, env, t, m1, p) else RunStmts(fuel, env, f, m1, p)
       case r => ExprOut(Strict(r)))
    case While(c, body) =>
      if !Room(env, p) then OutStuck
      else (match Eval(fuel, env, c, m, p)
       case Val(v, m1) =>
         if v == 0 then Normal(m1)
         else (match RunStmts(fuel, env, body, m1, p)
               case Normal(m2) => if fuel == 0 then OutTimeout else RunStmt(fuel - 1, env, s, m2, p)
               case Continued(m2) => if fuel == 0 then OutTimeout else RunStmt(fuel - 1, env, s, m2, p)
               case Broke(m2) => Normal(m2)
               case o => o)
       case r => ExprOut(Strict(r)))
    case DoWhile(body, c) =>
      if !Room(env, p) then OutStuck
      else (match RunStmts(fuel, env, body, m, p)
       case Normal(m1) => Again(fuel, env, s, m1, p)
       case Continued(m1) => Again(fuel, env, s, m1, p)
       case Broke(m1) => Normal(m1)
       case o => o)
    case For(init, _, _, _) =>
      (match RunStmts(fuel, env, init, m, p)
       case Normal(m1) => Loop(fuel, env, s, m1, p)
       case o => o)
    case Switch(c, slot, pre, body) =>
      (match Eval(fuel, env, c, m, p)
       case Val(v, m1) =>
         (match StoreN(m1, Wrap(env.fb - slot), 4, v)
          case None => OutStuck
          case Some(m2) =>
            match (if env.meaning.IsoC? then Normal(m2) else RunStmts(fuel, env, pre, m2, p))
            case Normal(m3) =>
              (match LoadN(m3, Wrap(env.fb - slot), 4)
               case None => OutStuck
               case Some(w) =>
                 match Chosen(body, w)
                 case None => Normal(m3)
                 case Some(rest) =>
                   match RunStmts(fuel, env, rest, m3, p)
                   case Broke(m4) => Normal(m4)
                   case o => o)
            case o => o)
       case r => ExprOut(Strict(r)))
    case Case(_, _) => Normal(m)
    case Default(_) => Normal(m)
    case Break => Broke(m)
    case Continue => Continued(m)
    case Decl => Normal(m)
    case Do(e) => ExprOut(Eval(fuel, env, e, m, p))
  }

  // The test at the end of a do-while.
  function Again(fuel: nat, env: Env, s: Stmt, m: Mem, p: int): Out
    requires s.DoWhile?
    decreases fuel, s, 1
  {
    match Eval(fuel, env, s.c, m, p)
    case Val(v, m1) =>
      if v == 0 then Normal(m1) else if fuel == 0 then OutTimeout else RunStmt(fuel - 1, env, s, m1, p)
    case r => ExprOut(Strict(r))
  }

  // The loop of a for, after its initialisation.
  function Loop(fuel: nat, env: Env, s: Stmt, m: Mem, p: int): Out
    requires s.For?
    decreases fuel, s, 1
  {
    if !Room(env, p) then OutStuck
    else match (match s.cond case None => Val(1, m) case Some(c) => Eval(fuel, env, c, m, p))
    case Val(v, m1) =>
      if v == 0 then Normal(m1)
      else (match RunStmts(fuel, env, s.body, m1, p)
            case Normal(m2) => Turn(fuel, env, s, m2, p)
            case Continued(m2) => Turn(fuel, env, s, m2, p)
            case Broke(m2) => Normal(m2)
            case o => o)
    case r => ExprOut(Strict(r))
  }

  // The increment of a for, and round again.
  function Turn(fuel: nat, env: Env, s: Stmt, m: Mem, p: int): Out
    requires s.For?
    decreases fuel, s, 0
  {
    match (match s.inc case None => Void(m) case Some(i) => Eval(fuel, env, i, m, p))
    case Val(_, m1) => if fuel == 0 then OutTimeout else Loop(fuel - 1, env, s, m1, p)
    case Void(m1) => if fuel == 0 then OutTimeout else Loop(fuel - 1, env, s, m1, p)
    case Stuck => OutStuck
    case Timeout => OutTimeout
  }

  // The part of a switch body that runs for value v: from its case label, else
  // from the last default label, else nothing.
  function Chosen(body: Stmts, v: Word): (r: Option<Stmts>)
    ensures r.Some? ==> r.value == body || r.value < body
  {
    if FromCase(body, v).Some? then FromCase(body, v) else FromDefault(body)
  }

  function FromCase(body: Stmts, v: Word): (r: Option<Stmts>)
    ensures r.Some? ==> r.value == body || r.value < body
  {
    match body
    case Nil => None
    case Cons(s, rest) => if s.Case? && s.val == v then Some(body) else FromCase(rest, v)
  }

  function FromDefault(body: Stmts): (r: Option<Stmts>)
    ensures r.Some? ==> r.value == body || r.value < body
  {
    match body
    case Nil => None
    case Cons(s, rest) =>
      if FromDefault(rest).Some? then FromDefault(rest) else if s.Default? then Some(body) else None
  }
}
