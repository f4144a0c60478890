// The signed division and remainder routines, as the compiler sees them, and
// the proof that they truncate toward zero (section 6.5.5 of ISO/IEC 9899:1999).
module Divsi3 {
  import opened Words
  import opened Isa
  import opened Emu
  import opened Link
  import opened Minic

  // ---- what C asks for ----

  function Magnitude(a: int): nat {
    if a < 0 then -a else a
  }

  function Quotient(a: int, b: int): int
    requires b != 0
  {
    var q := Magnitude(a) / Magnitude(b);
    if (a < 0) != (b < 0) then -q else q
  }

  function Remainder(a: int, b: int): int
    requires b != 0
  {
    var r := Magnitude(a) % Magnitude(b);
    if a < 0 then -r else r
  }

  // The two are C's pair: the remainder makes up the difference, is smaller
  // than the divisor and has the dividend's sign; and they are the only such pair.
  lemma TruncatingPair(a: int, b: int)
    requires b != 0
    ensures a == Quotient(a, b) * b + Remainder(a, b)
    ensures Magnitude(Remainder(a, b)) < Magnitude(b)
    ensures Remainder(a, b) != 0 ==> (Remainder(a, b) < 0 <==> a < 0)
  {
    var m: int, n: int := Magnitude(a), Magnitude(b);
    var q: int := m / n;
    assert m == q * n + m % n;
    assert q * n == (-q) * (-n);
    assert (-q) * n == q * (-n) == -(q * n);
  }

  lemma TruncatingPairUnique(a: int, b: int, q: int, r: int)
    requires b != 0 && a == q * b + r && Magnitude(r) < Magnitude(b) && (r != 0 ==> (r < 0 <==> a < 0))
    ensures q == Quotient(a, b) && r == Remainder(a, b)
  {
    TruncatingPair(a, b);
    var d, e := q - Quotient(a, b), Remainder(a, b) - r;
    assert d * b == e by {
      assert (q - Quotient(a, b)) * b == q * b - Quotient(a, b) * b;
    }
    if d > 0 {
      Grows(d, b);
    } else if d < 0 {
      Grows(-d, b);
      Opposite(d, b);
    }
  }

  lemma Opposite(d: int, b: int)
    ensures (-d) * b == -(d * b)
  {
  }

  lemma Grows(d: int, b: int)
    requires d >= 1
    ensures b >= 0 ==> d * b >= b
    ensures b <= 0 ==> d * b <= b
  {
    assert d * b == (d - 1) * b + b;
    if b >= 0 { assert (d - 1) * b >= 0; } else { assert (d - 1) * (-b) >= 0; }
  }

  // ---- the routines ----

  const INT := Ty(Int, false)
  const UNSIGNED := Ty(Int, true)

  // a, b: parameters; ua, ub, q: locals
  const VA := Var(4, INT)
  const VB := Var(8, INT)
  const VUA := Var(12, UNSIGNED)
  const VUB := Var(16, UNSIGNED)
  const VQ := Var(20, UNSIGNED)

  function Set(x: Expr, e: Expr): Stmt
    requires x.Var?
  {
    Do(Assign(x, e, x.ty))
  }

  function Negated(x: Expr): Expr { Bin(Sub, Num(0), x) }
  function Negative(x: Expr): Expr { Bin(Compare(Less, false), x, Num(0)) }
  function FlipIf(c: Expr, x: Expr): Stmt
    requires x.Var?
  {
    If(c, Cons(Set(x, Negated(x)), Nil), Nil)
  }

  function Common(last: Stmts): Stmts {
    Cons(Decl, Cons(Decl, Cons(Decl,
    Cons(Set(VUA, VA), Cons(Set(VUB, VB), Cons(FlipIf(Negative(VA), VUA), Cons(FlipIf(Negative(VB), VUB), last)))))))
  }

  // q = ua op ub; if (c) return 0 - q; return q;
  function Answer(op: BinOp, c: Expr): Stmts {
    Cons(Set(VQ, Bin(op, VUA, VUB)), Cons(If(c, Cons(Return(Some(Negated(VQ))), Nil), Nil), Cons(Return(Some(VQ)), Nil)))
  }

  function DivBody(): Stmts {
    Common(Answer(UDivide, Bin(Compare(Unequal, false), Negative(VA), Negative(VB))))
  }

  function ModBody(): Stmts {
    Common(Answer(UModulo, Negative(VA)))
  }

  function DivFunc(unit: nat): Func { Func(unit, "__divsi3", [INT, INT], INT, 20, DivBody()) }
  function ModFunc(unit: nat): Func { Func(unit, "__modsi3", [INT, INT], INT, 20, ModBody()) }

  // ---- a frame of five word slots ----

  function Minus(x: Word): Word {
    if x == 0 then 0 else W - x
  }

  function Slot(m: Mem, fb: int, o: nat): Option<Word> {
    LoadN(m, fb - o, 4)
  }

  ghost predicate Slots(m: Mem, fb: int, vs: map<nat, Word>) {
    && (forall o | o in vs :: o == 4 || o == 8 || o == 12 || o == 16 || o == 20)
    && (forall o | o in vs :: Slot(m, fb, o) == Some(vs[o]))
  }

  // m is the caller's memory m0 with the frame [fb - 20, fb) added.
  ghost predicate Over(m0: Mem, m: Mem, fb: int) {
    && 20 <= fb < W
    && (forall a | fb - 20 <= a < fb :: a !in m0 && a in m)
    && (forall a | a in m && !(fb - 20 <= a < fb) :: a in m0 && m[a] == m0[a])
    && (forall a | a in m0 :: a in m)
  }

  predicate IsSlot(o: nat) { o == 4 || o == 8 || o == 12 || o == 16 || o == 20 }

  lemma StoreLoad(m: Mem, a: int, v: Word, b: int)
    requires StoreN(m, a, 4, v).Some?
    ensures LoadN(StoreN(m, a, 4, v).value, a, 4) == Some(v)
    ensures b + 4 <= a || a + 4 <= b ==> LoadN(StoreN(m, a, 4, v).value, b, 4) == LoadN(m, b, 4)
  {
    hide Be32, ByteAt;
    Be32RoundTrip(v);
  }

  lemma StoreSlot(m0: Mem, m: Mem, fb: int, vs: map<nat, Word>, o: nat, v: Word) returns (m': Mem)
    requires Over(m0, m, fb) && Slots(m, fb, vs) && IsSlot(o)
    ensures StoreN(m, fb - o, 4, v) == Some(m') && Over(m0, m', fb) && Slots(m', fb, vs[o := v])
  {
    hide LoadN, ByteAt;
    assert Has(m, fb - o, 4);
    m' := StoreN(m, fb - o, 4, v).value;
    forall k | k in vs[o := v] ensures Slot(m', fb, k) == Some(vs[o := v][k]) {
      if k != o { assert Slot(m, fb, k) == Some(vs[k]); }
      StoreLoad(m, fb - o, v, fb - k);
    }
  }

  lemma EnterFrame(m0: Mem, fb: int, x: Word, y: Word) returns (m: Mem)
    requires 20 <= fb < W && forall a | fb - 20 <= a < fb :: a !in m0
    ensures BindParams([INT, INT], [x, y], fb, m0 + Frame(fb - 20, fb), 0) == Some(m)
    ensures Over(m0, m, fb) && Slots(m, fb, map[4 := x, 8 := y])
  {
    hide StoreN, LoadN;
    var m1 := m0 + Frame(fb - 20, fb);
    assert Over(m0, m1, fb);
    var m2 := StoreSlot(m0, m1, fb, map[], 4, x);
    m := StoreSlot(m0, m2, fb, map[4 := x], 8, y);
    assert map[4 := x][8 := y] == map[4 := x, 8 := y];
    assert BindParams([INT, INT], [x, y], fb, m, 2) == Some(m);
    assert BindParams([INT, INT], [x, y], fb, m2, 1) == Some(m);
  }

  lemma LeaveFrame(m0: Mem, m: Mem, fb: int)
    requires Over(m0, m, fb)
    ensures m - FrameKeys(fb - 20, fb) == m0
  {
    var r := m - FrameKeys(fb - 20, fb);
    forall a ensures a in r <==> a in m0 {
      assert a in FrameKeys(fb - 20, fb) <==> fb - 20 <= a < fb;
    }
  }

  // ---- evaluating the routines' expressions ----

  // The machine state a routine's statement runs in.
  ghost predicate Ready(env: Env, m0: Mem, m: Mem, p: int, vs: map<nat, Word>) {
    Over(m0, m, env.fb) && Slots(m, env.fb, vs) && p - 8 >= env.lo
  }

  lemma EvalVar(fuel: nat, env: Env, m0: Mem, m: Mem, p: int, vs: map<nat, Word>, o: nat, u: bool)
    requires Over(m0, m, env.fb) && Slots(m, env.fb, vs) && o in vs
    ensures Eval(fuel, env, Var(o, Ty(Int, u)), m, p) == Val(vs[o], m)
    ensures Address(fuel, env, Var(o, Ty(Int, u)), m, p) == Val(env.fb - o, m)
  {
    hide LoadN;
  }

  lemma EvalNegated(fuel: nat, env: Env, m0: Mem, m: Mem, p: int, vs: map<nat, Word>, o: nat, u: bool)
    requires Over(m0, m, env.fb) && Slots(m, env.fb, vs) && o in vs && p - 4 >= env.lo
    ensures Eval(fuel, env, Negated(Var(o, Ty(Int, u))), m, p) == Val(Minus(vs[o]), m)
  {
    hide Slots, Over;
    EvalVar(fuel, env, m0, m, p, vs, o, u);
    EvalNum(fuel, env, 0, m, p - 4);
    BinIs(fuel, env, Sub, Num(0), Var(o, Ty(Int, u)), m, p, 0, vs[o]);
  }

  lemma EvalNum(fuel: nat, env: Env, v: Word, m: Mem, p: int)
    ensures Eval(fuel, env, Num(v), m, p) == Val(v, m)
  {
  }

  // A binary operator whose operands leave memory alone.
  lemma BinIs(fuel: nat, env: Env, op: BinOp, l: Expr, r: Expr, m: Mem, p: int, x: Word, y: Word)
    requires Routine(op).None? && p - 4 >= env.lo
    requires Eval(fuel, env, r, m, p) == Val(y, m) && Eval(fuel, env, l, m, p - 4) == Val(x, m)
    ensures Eval(fuel, env, Bin(op, l, r), m, p) == Val(Apply(op, x, y), m)
  {
    hide Apply;
  }

  lemma EvalNegative(fuel: nat, env: Env, m0: Mem, m: Mem, p: int, vs: map<nat, Word>, o: nat, u: bool)
    requires Over(m0, m, env.fb) && Slots(m, env.fb, vs) && o in vs && p - 4 >= env.lo
    ensures Eval(fuel, env, Negative(Var(o, Ty(Int, u))), m, p) == Val(Bool(Signed(vs[o]) < 0), m)
  {
    hide Slots, Over;
    EvalVar(fuel, env, m0, m, p - 4, vs, o, u);
    EvalNum(fuel, env, 0, m, p);
    BinIs(fuel, env, Compare(Less, false), Var(o, Ty(Int, u)), Num(0), m, p, vs[o], 0);
  }

  // x = e;
  lemma RunSet(fuel: nat, env: Env, m0: Mem, m: Mem, p: int, vs: map<nat, Word>, o: nat, u: bool, e: Expr, v: Word) returns (m': Mem)
    requires Ready(env, m0, m, p, vs) && IsSlot(o) && Eval(fuel, env, e, m, p - 4) == Val(v, m)
    ensures RunStmt(fuel, env, Set(Var(o, Ty(Int, u)), e), m, p) == Normal(m') && Ready(env, m0, m', p, vs[o := v])
  {
    hide Slots, Over, StoreN, RunStmt;
    m' := StoreSlot(m0, m, env.fb, vs, o, v);
    OverBound(m0, m, env.fb);
    VarAddress(fuel, env, o, Ty(Int, u), m, p);
    AssignIs(fuel, env, Var(o, Ty(Int, u)), e, m, p, env.fb - o, v);
    DoIs(fuel, env, Assign(Var(o, Ty(Int, u)), e, Ty(Int, u)), m, p);
  }

  lemma OverBound(m0: Mem, m: Mem, fb: int)
    requires Over(m0, m, fb)
    ensures 20 <= fb < W
  {
  }

  lemma AssignIs(fuel: nat, env: Env, lv: Expr, e: Expr, m: Mem, p: int, a: Word, v: Word)
    requires p - 4 >= env.lo && Address(fuel, env, lv, m, p) == Val(a, m) && Eval(fuel, env, e, m, p - 4) == Val(v, m)
    requires StoreN(m, a, 4, v).Some?
    ensures Eval(fuel, env, Assign(lv, e, UNSIGNED), m, p) == Val(v, StoreN(m, a, 4, v).value)
    ensures Eval(fuel, env, Assign(lv, e, INT), m, p) == Val(v, StoreN(m, a, 4, v).value)
  {
    hide StoreN, Address;
  }

  lemma VarAddress(fuel: nat, env: Env, o: nat, ty: Ty, m: Mem, p: int)
    requires 20 <= env.fb < W && o <= 20
    ensures Address(fuel, env, Var(o, ty), m, p) == Val(env.fb - o, m)
  {
  }

  lemma DoIs(fuel: nat, env: Env, e: Expr, m: Mem, p: int)
    ensures RunStmt(fuel, env, Do(e), m, p) == ExprOut(Eval(fuel, env, e, m, p))
  {
    hide Eval;
  }

  lemma ConsIs(fuel: nat, env: Env, s: Stmt, rest: Stmts, m: Mem, p: int)
    ensures var o := RunStmt(fuel, env, s, m, p);
            RunStmts(fuel, env, Cons(s, rest), m, p) == if o.Normal? then RunStmts(fuel, env, rest, o.m, p) else o
    ensures RunStmts(fuel, env, Nil, m, p) == Normal(m)
  {
    hide RunStmt;
  }

  lemma IfIs(fuel: nat, env: Env, c: Expr, t: Stmts, m: Mem, p: int, v: Word)
    requires Eval(fuel, env, c, m, p) == Val(v, m)
    ensures RunStmt(fuel, env, If(c, t, Nil), m, p) == if v != 0 then RunStmts(fuel, env, t, m, p) else Normal(m)
  {
    hide Eval;
    ConsIs(fuel, env, Decl, Nil, m, p);
  }

  lemma DeclIs(fuel: nat, env: Env, m: Mem, p: int)
    ensures RunStmt(fuel, env, Decl, m, p) == Normal(m)
  {
  }

  lemma ReturnIs(fuel: nat, env: Env, e: Expr, m: Mem, p: int, v: Word)
    requires Eval(fuel, env, e, m, p) == Val(v, m)
    ensures RunStmts(fuel, env, Cons(Return(Some(e)), Nil), m, p) == Returned(Some(v), m)
  {
    hide Eval;
    ConsIs(fuel, env, Return(Some(e)), Nil, m, p);
  }

  // if (x < 0) y = 0 - y;
  lemma RunFlip(fuel: nat, env: Env, m0: Mem, m: Mem, p: int, vs: map<nat, Word>, o: nat, k: nat) returns (m': Mem)
    requires Ready(env, m0, m, p, vs) && o in vs && k in vs && IsSlot(k)
    ensures RunStmt(fuel, env, FlipIf(Negative(Var(o, INT)), Var(k, UNSIGNED)), m, p) == Normal(m')
    ensures Ready(env, m0, m', p, vs[k := if Signed(vs[o]) < 0 then Minus(vs[k]) else vs[k]])
  {
    hide Slots, Over, RunStmt, RunStmts, Eval;
    var c, body := Negative(Var(o, INT)), Set(Var(k, UNSIGNED), Negated(Var(k, UNSIGNED)));
    EvalNegative(fuel, env, m0, m, p, vs, o, false);
    IfIs(fuel, env, c, Cons(body, Nil), m, p, Bool(Signed(vs[o]) < 0));
    if Signed(vs[o]) < 0 {
      EvalNegated(fuel, env, m0, m, p - 4, vs, k, true);
      m' := RunSet(fuel, env, m0, m, p, vs, k, true, Negated(Var(k, UNSIGNED)), Minus(vs[k]));
      ConsIs(fuel, env, body, Nil, m, p);
      ConsIs(fuel, env, body, Nil, m', p);
    } else {
      m' := m;
      assert vs[k := vs[k]] == vs;
    }
  }

  // A word's magnitude, read as a signed number.
  function MagnitudeWord(x: Word): Word {
    if Signed(x) < 0 then Minus(x) else x
  }

  lemma MagnitudeIs(x: Word)
    ensures MagnitudeWord(x) == Magnitude(Signed(x))
  {
  }

  // unsigned ua, ub, q; ua = a; ub = b;
  lemma RunCopies(fuel: nat, env: Env, m0: Mem, m: Mem, p: int, x: Word, y: Word, last: Stmts) returns (m': Mem)
    requires Ready(env, m0, m, p, map[4 := x, 8 := y])
    ensures RunStmts(fuel, env, Cons(Decl, Cons(Decl, Cons(Decl, Cons(Set(VUA, VA), Cons(Set(VUB, VB), last))))), m, p)
            == RunStmts(fuel, env, last, m', p)
    ensures Ready(env, m0, m', p, map[4 := x, 8 := y][12 := x][16 := y])
  {
    hide Ready, RunStmt, RunStmts, Eval, Slots, Over, Set;
    var v0 := map[4 := x, 8 := y];
    ReadyParts(env, m0, m, p, v0);
    EvalVar(fuel, env, m0, m, p - 4, v0, 4, false);
    var m1 := RunSet(fuel, env, m0, m, p, v0, 12, true, VA, x);
    var v1 := v0[12 := x];
    ReadyParts(env, m0, m1, p, v1);
    EvalVar(fuel, env, m0, m1, p - 4, v1, 8, false);
    m' := RunSet(fuel, env, m0, m1, p, v1, 16, true, VB, y);
    var s4 := Cons(Set(VUB, VB), last);
    var s3 := Cons(Set(VUA, VA), s4);
    DeclIs(fuel, env, m, p);
    ConsIs(fuel, env, Decl, Cons(Decl, Cons(Decl, s3)), m, p);
    ConsIs(fuel, env, Decl, Cons(Decl, s3), m, p);
    ConsIs(fuel, env, Decl, s3, m, p);
    ConsIs(fuel, env, Set(VUA, VA), s4, m, p);
    ConsIs(fuel, env, Set(VUB, VB), last, m1, p);
  }

  // Everything before the division.
  lemma RunCommon(fuel: nat, env: Env, m0: Mem, m: Mem, p: int, x: Word, y: Word, last: Stmts) returns (m': Mem)
    requires Ready(env, m0, m, p, map[4 := x, 8 := y])
    ensures RunStmts(fuel, env, Common(last), m, p) == RunStmts(fuel, env, last, m', p)
    ensures Ready(env, m0, m', p, map[4 := x, 8 := y, 12 := MagnitudeWord(x), 16 := MagnitudeWord(y)])
  {
    hide Ready, RunStmt, RunStmts, Eval, Slots, Over, Set, FlipIf;
    var s6 := Cons(FlipIf(Negative(VB), VUB), last);
    var s5 := Cons(FlipIf(Negative(VA), VUA), s6);
    var m2 := RunCopies(fuel, env, m0, m, p, x, y, s5);
    var v2 := map[4 := x, 8 := y][12 := x][16 := y];
    var m3 := RunFlip(fuel, env, m0, m2, p, v2, 4, 12);
    var v3 := v2[12 := MagnitudeWord(x)];
    m' := RunFlip(fuel, env, m0, m3, p, v3, 8, 16);
    assert v3[16 := MagnitudeWord(y)] == map[4 := x, 8 := y, 12 := MagnitudeWord(x), 16 := MagnitudeWord(y)];
    ConsIs(fuel, env, FlipIf(Negative(VA), VUA), s6, m2, p);
    ConsIs(fuel, env, FlipIf(Negative(VB), VUB), last, m3, p);
  }

  lemma ReadyParts(env: Env, m0: Mem, m: Mem, p: int, vs: map<nat, Word>)
    requires Ready(env, m0, m, p, vs)
    ensures Over(m0, m, env.fb) && Slots(m, env.fb, vs) && p - 8 >= env.lo
  {
  }

  // q = ua op ub;
  lemma RunQuotient(fuel: nat, env: Env, m0: Mem, m: Mem, p: int, vs: map<nat, Word>, op: BinOp) returns (m': Mem)
    requires Ready(env, m0, m, p, vs) && 12 in vs && 16 in vs && (op.UDivide? || op.UModulo?)
    ensures RunStmt(fuel, env, Set(VQ, Bin(op, VUA, VUB)), m, p) == Normal(m')
    ensures Ready(env, m0, m', p, vs[20 := Apply(op, vs[12], vs[16])])
  {
    hide Ready, RunStmt, RunStmts, Eval, Apply;
    ReadyParts(env, m0, m, p, vs);
    EvalVar(fuel, env, m0, m, p - 4, vs, 16, true);
    EvalVar(fuel, env, m0, m, p - 8, vs, 12, true);
    BinIs(fuel, env, op, VUA, VUB, m, p - 4, vs[12], vs[16]);
    m' := RunSet(fuel, env, m0, m, p, vs, 20, true, Bin(op, VUA, VUB), Apply(op, vs[12], vs[16]));
  }

  // if (c) return 0 - q; return q; where m1 is memory after the assignment to q
  lemma RunAnswer(fuel: nat, env: Env, m0: Mem, m: Mem, m1: Mem, p: int, vs: map<nat, Word>, op: BinOp, c: Expr, flip: bool)
    requires Ready(env, m0, m1, p, vs) && 20 in vs && RunStmt(fuel, env, Set(VQ, Bin(op, VUA, VUB)), m, p) == Normal(m1)
    requires Eval(fuel, env, c, m1, p) == Val(Bool(flip), m1)
    ensures RunStmts(fuel, env, Answer(op, c), m, p) == Returned(Some(if flip then Minus(vs[20]) else vs[20]), m1)
  {
    hide Ready, RunStmt, RunStmts, Eval, Apply;
    var q := vs[20];
    ReadyParts(env, m0, m1, p, vs);
    EvalVar(fuel, env, m0, m1, p, vs, 20, true);
    EvalNegated(fuel, env, m0, m1, p, vs, 20, true);
    var no, yes := Cons(Return(Some(VQ)), Nil), Cons(Return(Some(Negated(VQ))), Nil);
    ReturnIs(fuel, env, VQ, m1, p, q);
    ReturnIs(fuel, env, Negated(VQ), m1, p, Minus(q));
    IfIs(fuel, env, c, yes, m1, p, Bool(flip));
    ConsIs(fuel, env, If(c, yes, Nil), no, m1, p);
    ConsIs(fuel, env, Set(VQ, Bin(op, VUA, VUB)), Cons(If(c, yes, Nil), no), m, p);
  }

  lemma SmallSigned(x: Word)
    requires x < 2
    ensures Signed(x) == x
  {
  }

  lemma EvalSigns(fuel: nat, env: Env, m0: Mem, m: Mem, p: int, vs: map<nat, Word>)
    requires Ready(env, m0, m, p, vs) && 4 in vs && 8 in vs
    ensures Eval(fuel, env, Bin(Compare(Unequal, false), Negative(VA), Negative(VB)), m, p)
            == Val(Bool((Signed(vs[4]) < 0) != (Signed(vs[8]) < 0)), m)
  {
    hide Eval, Slots, Over, Signed;
    EvalNegative(fuel, env, m0, m, p, vs, 8, false);
    EvalNegative(fuel, env, m0, m, p - 4, vs, 4, false);
    BinIs(fuel, env, Compare(Unequal, false), Negative(VA), Negative(VB), m, p, Bool(Signed(vs[4]) < 0), Bool(Signed(vs[8]) < 0));
    SmallSigned(Bool(Signed(vs[4]) < 0));
    SmallSigned(Bool(Signed(vs[8]) < 0));
  }

  // What the routines return.
  function DivWord(x: Word, y: Word): Word {
    var q := Apply(UDivide, MagnitudeWord(x), MagnitudeWord(y));
    if (Signed(x) < 0) != (Signed(y) < 0) then Minus(q) else q
  }

  function ModWord(x: Word, y: Word): Word {
    var r := Apply(UModulo, MagnitudeWord(x), MagnitudeWord(y));
    if Signed(x) < 0 then Minus(r) else r
  }

  // For every dividend, the smallest negative one included, and every nonzero
  // divisor the results are C's, modulo 2^32.
  lemma WordsTruncate(x: Word, y: Word)
    requires y != 0
    ensures Signed(y) != 0 && DivWord(x, y) == Wrap(Quotient(Signed(x), Signed(y)))
    ensures ModWord(x, y) == Wrap(Remainder(Signed(x), Signed(y)))
  {
    hide Apply, MagnitudeWord, Minus, Wrap;
    MagnitudeIs(x);
    MagnitudeIs(y);
    SignedNonzero(y);
    UnsignedPair(MagnitudeWord(x), MagnitudeWord(y));
    var m, n := Magnitude(Signed(x)), Magnitude(Signed(y));
    MinusWraps(Apply(UDivide, m, n));
    MinusWraps(Apply(UModulo, m, n));
  }

  lemma SignedNonzero(y: Word)
    ensures y != 0 ==> Signed(y) != 0
  {
  }

  lemma MinusWraps(x: Word)
    ensures Minus(x) == Wrap(0 - (x as int)) && Wrap(x) == x
  {
  }

  lemma UnsignedPair(m: Word, n: Word)
    requires n != 0
    ensures Apply(UDivide, m, n) == m / n && Apply(UModulo, m, n) == m % n
  {
    DivBound(m, n);
    assert 0 <= m % n < n;
  }

  // Signed results are exact unless the true quotient is 2^31.
  lemma SignedExact(x: Word, y: Word)
    requires y != 0
    ensures Signed(DivWord(x, y)) == Quotient(Signed(x), Signed(y)) <==> !(x == 0x8000_0000 && y == W - 1)
    ensures Signed(ModWord(x, y)) == Remainder(Signed(x), Signed(y))
  {
    hide DivWord, ModWord, Quotient, Remainder;
    WordsTruncate(x, y);
    ResultRange(Signed(x), Signed(y));
  }

  lemma ResultRange(a: int, b: int)
    requires -0x8000_0000 <= a < 0x8000_0000 && -0x8000_0000 <= b < 0x8000_0000 && b != 0
    ensures -0x8000_0000 <= Remainder(a, b) < 0x8000_0000
    ensures a == -0x8000_0000 && b == -1 ==> Quotient(a, b) == 0x8000_0000
    ensures !(a == -0x8000_0000 && b == -1) ==> -0x8000_0000 <= Quotient(a, b) < 0x8000_0000
  {
    var m, n := Magnitude(a), Magnitude(b);
    assert 0 <= m % n < n;
    DivBound(m, n);
    if n >= 2 { Halved(m, n); }
  }

  lemma Halved(m: nat, n: nat)
    requires n >= 2
    ensures m / n <= m / 2
  {
    var q := m / n;
    assert q * n <= m;
    MulLe(2, n, q);
    assert q * 2 <= q * n;
  }

  // The stack and the names a call of a routine needs.
  ghost predicate CanCall(env: Env, f: Func, m: Mem, p: int) {
    && (env.unit, f.name) in env.defs && env.defs[(env.unit, f.name)] < |env.funcs|
    && env.funcs[env.defs[(env.unit, f.name)]] == f
    && 0 <= env.lo <= p - 44 && p < W && forall a | env.lo <= a < p :: a !in m
  }

  // A body's outcome as a call's result.
  function Result(o: Out, frame: set<int>): Res {
    match o
    case Normal(m) => Void(m - frame)
    case Returned(v, m) => if v.Some? then Val(v.value, m - frame) else Void(m - frame)
    case OutTimeout => Timeout
    case _ => Stuck
  }

  lemma CallBody(fuel: nat, env: Env, f: Func, m: Mem, p: int, x: Word, y: Word) returns (m1: Mem, env': Env)
    requires CanCall(env, f, m, p) && |f.params| == 2 && f.params == [INT, INT] && f.result == INT && f.frame == 20
    ensures env' == env.(unit := f.unit, fb := p - 16)
    ensures Ready(env', m, m1, p - 36, map[4 := x, 8 := y])
    ensures CallFn(fuel, env, f.name, [x, y], m, p)
            == Result(RunStmts(fuel, env', f.body, m1, p - 36), FrameKeys(p - 36, p - 16))
  {
    hide RunStmts, BindParams, Frame, FrameKeys, Slots;
    env' := env.(unit := f.unit, fb := p - 16);
    m1 := EnterFrame(m, p - 16, x, y);
  }

  lemma DivReturns(fuel: nat, env: Env, unit: nat, m: Mem, p: int, x: Word, y: Word)
    requires CanCall(env, DivFunc(unit), m, p)
    ensures CallFn(fuel, env, "__divsi3", [x, y], m, p) == Val(DivWord(x, y), m)
  {
    hide RunStmts, RunStmt, Eval, Ready, CallFn, Slots, Signed, Common, MagnitudeWord, CanCall, FrameKeys;
    var m1, e := CallBody(fuel, env, DivFunc(unit), m, p, x, y);
    var c := Bin(Compare(Unequal, false), Negative(VA), Negative(VB));
    var m2 := RunCommon(fuel, e, m, m1, p - 36, x, y, Answer(UDivide, c));
    var vs := map[4 := x, 8 := y, 12 := MagnitudeWord(x), 16 := MagnitudeWord(y)];
    var m3 := RunQuotient(fuel, e, m, m2, p - 36, vs, UDivide);
    var vs' := vs[20 := Apply(UDivide, vs[12], vs[16])];
    EvalSigns(fuel, e, m, m3, p - 36, vs');
    RunAnswer(fuel, e, m, m2, m3, p - 36, vs', UDivide, c, (Signed(x) < 0) != (Signed(y) < 0));
    ReadyParts(e, m, m3, p - 36, vs');
    LeaveFrame(m, m3, p - 16);
  }

  lemma ModReturns(fuel: nat, env: Env, unit: nat, m: Mem, p: int, x: Word, y: Word)
    requires CanCall(env, ModFunc(unit), m, p)
    ensures CallFn(fuel, env, "__modsi3", [x, y], m, p) == Val(ModWord(x, y), m)
  {
    hide RunStmts, RunStmt, Eval, Ready, CallFn, Slots, Signed, Common, MagnitudeWord, CanCall, FrameKeys;
    var m1, e := CallBody(fuel, env, ModFunc(unit), m, p, x, y);
    var c := Negative(VA);
    var m2 := RunCommon(fuel, e, m, m1, p - 36, x, y, Answer(UModulo, c));
    var vs := map[4 := x, 8 := y, 12 := MagnitudeWord(x), 16 := MagnitudeWord(y)];
    var m3 := RunQuotient(fuel, e, m, m2, p - 36, vs, UModulo);
    var vs' := vs[20 := Apply(UModulo, vs[12], vs[16])];
    ReadyParts(e, m, m3, p - 36, vs');
    EvalNegative(fuel, e, m, m3, p - 36, vs', 4, false);
    RunAnswer(fuel, e, m, m2, m3, p - 36, vs', UModulo, c, Signed(x) < 0);
    ReadyParts(e, m, m3, p - 36, vs');
    LeaveFrame(m, m3, p - 16);
  }

  lemma RoutineIs(fuel: nat, env: Env, op: BinOp, l: Expr, r: Expr, m: Mem, m1: Mem, m2: Mem, p: int, x: Word, y: Word)
    requires fuel > 0 && (op.SDivide? || op.SModulo?) && Eval(fuel, env, r, m, p) == Val(y, m1) && Eval(fuel, env, l, m1, p - 4) == Val(x, m2)
    ensures p - 8 >= env.lo ==>
              Eval(fuel, env, Bin(op, l, r), m, p) == Strict(CallFn(fuel - 1, env, Routine(op).value, [x, y], m2, p))
  {
    hide CallFn, Apply;
  }

  lemma RoomFor(env: Env, unit: nat, m: Mem, p: int)
    requires CanCall(env, DivFunc(unit), m, p) || CanCall(env, ModFunc(unit), m, p)
    ensures p - 8 >= env.lo
  {
  }

  // So signed / and % mean what C says they mean.
  lemma SignedDivision(fuel: nat, env: Env, unit: nat, l: Expr, r: Expr, m: Mem, m1: Mem, m2: Mem, p: int, x: Word, y: Word)
    requires fuel > 0 && y != 0 && Eval(fuel, env, r, m, p) == Val(y, m1) && Eval(fuel, env, l, m1, p - 4) == Val(x, m2)
    ensures Signed(y) != 0
    ensures CanCall(env, DivFunc(unit), m2, p) ==>
              Eval(fuel, env, Bin(SDivide, l, r), m, p) == Val(Wrap(Quotient(Signed(x), Signed(y))), m2)
    ensures CanCall(env, ModFunc(unit), m2, p) ==>
              Eval(fuel, env, Bin(SModulo, l, r), m, p) == Val(Wrap(Remainder(Signed(x), Signed(y))), m2)
  {
    hide CallFn, DivWord, ModWord, DivFunc, ModFunc, Signed, Quotient, Remainder, Eval, CanCall;
    WordsTruncate(x, y);
    RoutineIs(fuel, env, SDivide, l, r, m, m1, m2, p, x, y);
    RoutineIs(fuel, env, SModulo, l, r, m, m1, m2, p, x, y);
    if CanCall(env, DivFunc(unit), m2, p) || CanCall(env, ModFunc(unit), m2, p) { RoomFor(env, unit, m2, p); }
    if CanCall(env, DivFunc(unit), m2, p) { DivReturns(fuel - 1, env, unit, m2, p, x, y); }
    if CanCall(env, ModFunc(unit), m2, p) { ModReturns(fuel - 1, env, unit, m2, p, x, y); }
  }
}
