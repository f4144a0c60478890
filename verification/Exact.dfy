// Where compiled code keeps the C meaning: the code generator leaves a narrow
// assignment's value and a narrow function's result in r1 as they were computed,
// and runs what stands before the first case of a switch.  A program none of
// whose parts depends on these three means the same either way.
module Exact {
  import opened Words
  import opened Isa
  import opened Emu
  import opened Link
  import opened Minic

  // ---- how much of a value matters ----

  const WHOLE := Ty(Int, false)

  predicate Narrow(ty: Ty) {
    ty.kind.Char? || ty.kind.Short?
  }

  // The bits of a value that storing it as ty keeps.
  function Low(v: Word, ty: Ty): nat {
    match ty.kind case Char => v % 0x100 case Short => v % 0x1_0000 case _ => v
  }

  // A value needed as t is not affected by what a store as ty drops.
  predicate Covers(ty: Ty, t: Ty) {
    SizeOf(t) <= SizeOf(ty)
  }

  // Every value of type t is a value of type ty.
  predicate Embeds(t: Ty, ty: Ty) {
    !Narrow(ty) || t == ty || (t.kind.Char? && ty.kind.Short? && (t.unsigned || !ty.unsigned))
  }

  lemma ConvertIs(v: Word, ty: Ty)
    ensures Narrow(ty) ==>
              var n := if ty.kind.Char? then 0x100 else 0x1_0000;
              Convert(v, ty) == if ty.unsigned || v % n < n / 2 then v % n else W - n + v % n
    ensures !Narrow(ty) ==> Convert(v, ty) == v
  {
    Pow2Values();
    assert Pow2(8) == 2 * Pow2(7) && Pow2(16) == 2 * Pow2(15);
  }

  lemma LowOfConvert(v: Word, ty: Ty)
    ensures Low(Convert(v, ty), ty) == Low(v, ty)
    ensures Convert(Convert(v, ty), ty) == Convert(v, ty)
  {
    hide Convert;
    ConvertIs(v, ty);
    ConvertIs(Convert(v, ty), ty);
  }

  lemma LowCovers(a: Word, b: Word, ty: Ty, t: Ty)
    requires Low(a, ty) == Low(b, ty) && Covers(ty, t)
    ensures Low(a, t) == Low(b, t)
  {
    if ty.kind.Short? && t.kind.Char? {
      LowByte(a);
      LowByte(b);
    }
  }

  lemma EmbedsIs(v: Word, t: Ty, ty: Ty)
    requires Embeds(t, ty)
    ensures Convert(Convert(v, t), ty) == Convert(v, t)
  {
    hide Convert;
    LowOfConvert(v, t);
    ConvertIs(v, t);
    ConvertIs(Convert(v, t), ty);
  }

  // A store keeps only the low bits.
  lemma StoreLow(m: Mem, a: int, ty: Ty, v: Word, w: Word)
    requires Low(v, ty) == Low(w, ty)
    ensures StoreN(m, a, SizeOf(ty), v) == StoreN(m, a, SizeOf(ty), w)
  {
    hide Has;
    if ty.kind.Short? {
      LowByte(v);
      LowByte(w);
    }
  }

  // The two low bytes of a word are those of its low half.
  lemma LowByte(x: Word)
    ensures x % 0x100 == (x % 0x1_0000) % 0x100
    ensures (x / 0x100) % 0x100 == (x % 0x1_0000) / 0x100
  {
    var q, r := x / 0x1_0000, x % 0x1_0000;
    DivModUnique(x, 0x100, q * 0x100 + r / 0x100, r % 0x100);
    DivModUnique(q * 0x100 + r / 0x100, 0x100, q, r / 0x100);
  }

  // ---- the condition, read off the program text ----

  datatype Scope = Scope(unit: nat, defs: map<(nat, string), nat>, funcs: seq<Func>) {
    function ResultOf(name: string): Option<Ty> {
      if (unit, name) in defs && defs[(unit, name)] < |funcs| then Some(funcs[defs[(unit, name)]].result) else None
    }
  }

  function ScopeOf(env: Env): Scope {
    Scope(env.unit, env.defs, env.funcs)
  }

  // In C the value of e is in the range of ty.
  predicate Ranged(scope: Scope, e: Expr, ty: Ty) {
    !Narrow(ty) ||
    match e
    case Num(v) => Convert(v, ty) == v
    case Var(_, t) => Embeds(t, ty)
    case GVar(_, t) => Embeds(t, ty)
    case Deref(_, t) => Embeds(t, ty)
    case Member(_, _, t) => Embeds(t, ty)
    case Cast(_, t) => Embeds(t, ty)
    case Assign(_, _, t) => Embeds(t, ty)
    case Not(_) => true
    case Bin(op, _, _) => op.Compare?
    case LogAnd(_, _) => true
    case LogOr(_, _) => true
    case Ternary(_, t, f) => Ranged(scope, t, ty) && Ranged(scope, f, ty)
    case Comma(_, r) => Ranged(scope, r, ty)
    case Call(name, _) => scope.ResultOf(name).Some? && Embeds(scope.ResultOf(name).value, ty)
    case _ => false
  }

  // e, needed as the type `need` or not at all, does not depend on the value of
  // a narrow assignment outside that type's range.
  predicate ExactExpr(scope: Scope, e: Expr, need: Option<Ty>)
    decreases e, 1
  {
    match e
    case Num(_) => true
    case FuncAddr(_) => true
    case StrAddr(_) => true
    case Var(_, _) => true
    case GVar(_, _) => true
    case AddrOf(x) => ExactAddr(scope, x)
    case Deref(x, _) => ExactExpr(scope, x, Some(WHOLE))
    case Member(_, _, _) => ExactAddr(scope, e)
    case Cast(x, ty) => ExactExpr(scope, x, if need.None? then None else Some(ty))
    case Neg(x) => ExactExpr(scope, x, Some(WHOLE))
    case BitNot(x) => ExactExpr(scope, x, Some(WHOLE))
    case Not(x) => ExactExpr(scope, x, Some(WHOLE))
    case Assign(lv, rhs, ty) =>
      && ExactAddr(scope, lv)
      && (if need.None? || Covers(ty, need.value) then ExactExpr(scope, rhs, Some(ty))
          else ExactExpr(scope, rhs, Some(WHOLE)) && Ranged(scope, rhs, ty))
    case Bin(_, l, r) => ExactExpr(scope, l, Some(WHOLE)) && ExactExpr(scope, r, Some(WHOLE))
    case LogAnd(l, r) => ExactExpr(scope, l, Some(WHOLE)) && ExactExpr(scope, r, Some(WHOLE))
    case LogOr(l, r) => ExactExpr(scope, l, Some(WHOLE)) && ExactExpr(scope, r, Some(WHOLE))
    case Ternary(c, t, f) => ExactExpr(scope, c, Some(WHOLE)) && ExactExpr(scope, t, need) && ExactExpr(scope, f, need)
    case Comma(l, r) => ExactExpr(scope, l, None) && ExactExpr(scope, r, need)
    case Call(_, args) => ExactArgs(scope, args)
  }

  predicate ExactAddr(scope: Scope, e: Expr)
    decreases e, 0
  {
    match e
    case Deref(x, _) => ExactExpr(scope, x, Some(WHOLE))
    case Member(b, _, _) =>
      if b.Deref? then ExactExpr(scope, b.e, Some(WHOLE))
      else if b.Call? then ExactExpr(scope, b, Some(WHOLE))
      else ExactAddr(scope, b)
    case _ => true
  }

  predicate ExactArgs(scope: Scope, args: Args)
    decreases args, 0
  {
    match args
    case NoArgs => true
    case Arg(e, rest) => ExactExpr(scope, e, Some(WHOLE)) && ExactArgs(scope, rest)
  }

  predicate OnlyDecls(ss: Stmts) {
    ss.Cons? ==> ss.head.Decl? && OnlyDecls(ss.tail)
  }

  predicate ExactStmts(scope: Scope, ss: Stmts, result: Ty)
    decreases ss, 0
  {
    ss.Cons? ==> ExactStmt(scope, ss.head, result) && ExactStmts(scope, ss.tail, result)
  }

  predicate ExactStmt(scope: Scope, s: Stmt, result: Ty)
    decreases s, 1
  {
    match s
    case Return(value) => value.Some? ==> ExactExpr(scope, value.value, Some(WHOLE)) && Ranged(scope, value.value, result)
    case If(c, t, f) => ExactExpr(scope, c, Some(WHOLE)) && ExactStmts(scope, t, result) && ExactStmts(scope, f, result)
    case While(c, body) => ExactExpr(scope, c, Some(WHOLE)) && ExactStmts(scope, body, result)
    case DoWhile(body, c) => ExactExpr(scope, c, Some(WHOLE)) && ExactStmts(scope, body, result)
    case For(init, cond, inc, body) =>
      && ExactStmts(scope, init, result) && ExactStmts(scope, body, result)
      && (cond.Some? ==> ExactExpr(scope, cond.value, Some(WHOLE))) && (inc.Some? ==> ExactExpr(scope, inc.value, None))
    case Switch(c, _, pre, body) => ExactExpr(scope, c, Some(WHOLE)) && OnlyDecls(pre) && ExactStmts(scope, body, result)
    case Do(e) => ExactExpr(scope, e, None)
    case _ => true
  }

  predicate ExactProgram(env: Env) {
    forall f | f in env.funcs :: ExactStmts(Scope(f.unit, env.defs, env.funcs), f.body, f.result)
  }

  // ---- the two meanings side by side ----

  function AsC(env: Env): Env {
    env.(meaning := IsoC)
  }

  function AsEmitted(env: Env): Env {
    env.(meaning := Emitted)
  }

  // The same result, but for the bits of the value that are not needed.
  predicate Alike(a: Res, b: Res, need: Option<Ty>) {
    if a.Val? && b.Val? then a.m == b.m && (need.Some? ==> Low(a.v, need.value) == Low(b.v, need.value)) else a == b
  }

  lemma AlikeWhole(a: Res, b: Res)
    requires Alike(a, b, Some(WHOLE))
    ensures a == b
  {
  }

  lemma {:induction false} RangedValue(fuel: nat, c: Env, e: Expr, ty: Ty, m: Mem, p: int)
    requires c.meaning.IsoC? && Ranged(ScopeOf(c), e, ty)
    ensures Eval(fuel, c, e, m, p).Val? ==> Convert(Eval(fuel, c, e, m, p).v, ty) == Eval(fuel, c, e, m, p).v
    decreases e
  {
    hide Extend, LoadN, StoreN, RunStmts, BindParams, Frame, FrameKeys, Apply, EvalArgs, Address;
    match e
    case Ternary(x, t, f) =>
      var r := Eval(fuel, c, x, m, p);
      if r.Val? {
        RangedValue(fuel, c, t, ty, r.m, p);
        RangedValue(fuel, c, f, ty, r.m, p);
      }
    case Comma(l, x) =>
      var r := Eval(fuel, c, l, m, p);
      if r.Val? || r.Void? { RangedValue(fuel, c, x, ty, r.m, p); }
    case Call(name, args) =>
      var a := EvalArgs(fuel, c, args, m, p);
      if a.Vals? && fuel > 0 { ResultRanged(fuel - 1, c, name, a.vs, a.m, p, ty); }
    case _ => RangedLeaf(fuel, c, e, ty, m, p);
  }

  lemma ResultRanged(fuel: nat, c: Env, name: string, vals: seq<Word>, m: Mem, p: int, ty: Ty)
    requires c.meaning.IsoC? && (Narrow(ty) ==> ScopeOf(c).ResultOf(name).Some? && Embeds(ScopeOf(c).ResultOf(name).value, ty))
    ensures CallFn(fuel, c, name, vals, m, p).Val? ==> Convert(CallFn(fuel, c, name, vals, m, p).v, ty) == CallFn(fuel, c, name, vals, m, p).v
  {
    hide Extend, LoadN, StoreN, RunStmts, BindParams, Frame, FrameKeys;
    forall v: Word, t: Ty | Embeds(t, ty) ensures Convert(Convert(v, t), ty) == Convert(v, t) {
      EmbedsIs(v, t, ty);
    }
  }

  lemma RangedLeaf(fuel: nat, c: Env, e: Expr, ty: Ty, m: Mem, p: int)
    requires c.meaning.IsoC? && Ranged(ScopeOf(c), e, ty) && !e.Ternary? && !e.Comma? && !e.Call?
    ensures Eval(fuel, c, e, m, p).Val? ==> Convert(Eval(fuel, c, e, m, p).v, ty) == Eval(fuel, c, e, m, p).v
  {
    hide Extend, LoadN, StoreN, RunStmts, BindParams, Frame, FrameKeys, EvalArgs, Address, CallFn;
    if Narrow(ty) {
      forall v: Word, t: Ty | Embeds(t, ty) ensures Convert(Convert(v, t), ty) == Convert(v, t) {
        EmbedsIs(v, t, ty);
      }
      BoolRanged(true, ty);
      BoolRanged(false, ty);
    }
  }

  lemma BoolRanged(b: bool, ty: Ty)
    ensures Convert(Bool(b), ty) == Bool(b)
  {
    hide Convert;
    ConvertIs(Bool(b), ty);
  }

  lemma ConvertLow(a: Word, b: Word, ty: Ty)
    requires Low(a, ty) == Low(b, ty)
    ensures Convert(a, ty) == Convert(b, ty)
  {
    hide Convert;
    ConvertIs(a, ty);
    ConvertIs(b, ty);
  }

  // An expression means the same, as far as its value is needed.
  lemma {:induction false} SameEval(fuel: nat, c: Env, e: Expr, need: Option<Ty>, m: Mem, p: int)
    requires c.meaning.IsoC? && ExactProgram(c) && ExactExpr(ScopeOf(c), e, need)
    ensures Alike(Eval(fuel, c, e, m, p), Eval(fuel, AsEmitted(c), e, m, p), need)
    decreases fuel, e, 2
  {
    hide ExactProgram, CallFn, EvalArgs, Address, LoadN, StoreN, Convert, Apply;
    match e
    case Num(_) =>
    case FuncAddr(_) =>
    case StrAddr(_) =>
    case Var(_, _) => SamePlace(fuel, c, e, m, p);
    case GVar(_, _) => SamePlace(fuel, c, e, m, p);
    case AddrOf(_) => SamePlace(fuel, c, e, m, p);
    case Deref(_, _) => SamePlace(fuel, c, e, m, p);
    case Member(_, _, _) => SamePlace(fuel, c, e, m, p);
    case Cast(x, ty) => SameCast(fuel, c, x, ty, need, m, p);
    case Neg(x) => SameWhole(fuel, c, x, m, p);
    case BitNot(x) => SameWhole(fuel, c, x, m, p);
    case Not(x) => SameWhole(fuel, c, x, m, p);
    case Assign(_, _, _) => SameAssign(fuel, c, e, need, m, p);
    case Bin(_, _, _) => SameBin(fuel, c, e, m, p);
    case LogAnd(l, r) => SameLogical(fuel, c, e, l, r, m, p);
    case LogOr(l, r) => SameLogical(fuel, c, e, l, r, m, p);
    case _ => SameFlow(fuel, c, e, need, m, p);
  }

  lemma {:induction false} SamePlace(fuel: nat, c: Env, e: Expr, m: Mem, p: int)
    requires e.Var? || e.GVar? || e.AddrOf? || e.Deref? || e.Member?
    requires c.meaning.IsoC? && ExactProgram(c) && ExactExpr(ScopeOf(c), e, Some(WHOLE))
    ensures Eval(fuel, AsEmitted(c), e, m, p) == Eval(fuel, c, e, m, p)
    decreases fuel, e, 1
  {
    hide ExactProgram, CallFn, EvalArgs, Address, FetchTy;
    if e.AddrOf? {
      SameAddr(fuel, c, e.e, m, p);
    } else if e.Deref? {
      SameWhole(fuel, c, e.e, m, p);
    } else {
      SameAddr(fuel, c, e, m, p);
    }
  }

  lemma {:induction false} SameLogical(fuel: nat, c: Env, e: Expr, l: Expr, r: Expr, m: Mem, p: int)
    requires (e == LogAnd(l, r) || e == LogOr(l, r)) && c.meaning.IsoC? && ExactProgram(c)
    requires ExactExpr(ScopeOf(c), l, Some(WHOLE)) && ExactExpr(ScopeOf(c), r, Some(WHOLE))
    ensures Eval(fuel, AsEmitted(c), e, m, p) == Eval(fuel, c, e, m, p)
    decreases fuel, e, 0
  {
    hide ExactProgram, ExactExpr, CallFn, EvalArgs, Address;
    SameWhole(fuel, c, l, m, p);
    var x := Eval(fuel, c, l, m, p);
    if x.Val? { SameWhole(fuel, c, r, x.m, p); }
  }

  // Conditional, comma and call.
  lemma {:induction false} SameFlow(fuel: nat, c: Env, e: Expr, need: Option<Ty>, m: Mem, p: int)
    requires e.Ternary? || e.Comma? || e.Call?
    requires c.meaning.IsoC? && ExactProgram(c) && ExactExpr(ScopeOf(c), e, need)
    ensures Alike(Eval(fuel, c, e, m, p), Eval(fuel, AsEmitted(c), e, m, p), need)
    decreases fuel, e, 0
  {
    hide ExactProgram, CallFn, EvalArgs, Address, LoadN, StoreN, Convert, Apply, Passed;
    match e
    case Ternary(x, t, f) =>
      SameWhole(fuel, c, x, m, p);
      var r := Eval(fuel, c, x, m, p);
      if r.Val? {
        SameEval(fuel, c, t, need, r.m, p);
        SameEval(fuel, c, f, need, r.m, p);
      }
    case Comma(l, x) =>
      SameEval(fuel, c, l, None, m, p);
      var r := Eval(fuel, c, l, m, p);
      if r.Val? || r.Void? { SameEval(fuel, c, x, need, r.m, p); }
    case Call(name, args) =>
      SameArgs(fuel, c, args, m, p);
      var a := EvalArgs(fuel, c, args, m, p);
      if a.Vals? && fuel > 0 { SameCall(fuel - 1, c, name, a.vs, a.m, p); }
  }

  // The same, when the whole value is needed.
  lemma {:induction false} SameWhole(fuel: nat, c: Env, e: Expr, m: Mem, p: int)
    requires c.meaning.IsoC? && ExactProgram(c) && ExactExpr(ScopeOf(c), e, Some(WHOLE))
    ensures Eval(fuel, AsEmitted(c), e, m, p) == Eval(fuel, c, e, m, p)
    decreases fuel, e, 3
  {
    hide ExactProgram, Eval, ExactExpr;
    SameEval(fuel, c, e, Some(WHOLE), m, p);
    AlikeWhole(Eval(fuel, c, e, m, p), Eval(fuel, AsEmitted(c), e, m, p));
  }

  lemma {:induction false} SameCast(fuel: nat, c: Env, x: Expr, ty: Ty, need: Option<Ty>, m: Mem, p: int)
    requires c.meaning.IsoC? && ExactProgram(c) && ExactExpr(ScopeOf(c), Cast(x, ty), need)
    ensures Alike(Eval(fuel, c, Cast(x, ty), m, p), Eval(fuel, AsEmitted(c), Cast(x, ty), m, p), need)
    decreases fuel, x, 3
  {
    hide ExactProgram, CallFn, EvalArgs, Address, LoadN, StoreN, Convert, Apply, Low;
    SameEval(fuel, c, x, if need.None? then None else Some(ty), m, p);
    var a, b := Eval(fuel, c, x, m, p), Eval(fuel, AsEmitted(c), x, m, p);
    if a.Val? && need.Some? { ConvertLow(a.v, b.v, ty); }
  }

  lemma {:induction false} SameAssign(fuel: nat, c: Env, e: Expr, need: Option<Ty>, m: Mem, p: int)
    requires e.Assign? && c.meaning.IsoC? && ExactProgram(c) && ExactExpr(ScopeOf(c), e, need)
    ensures Alike(Eval(fuel, c, e, m, p), Eval(fuel, AsEmitted(c), e, m, p), need)
    decreases fuel, e, 0
  {
    hide ExactProgram, CallFn, EvalArgs, Address, LoadN, StoreN, Convert, Apply, Low, Covers;
    SameAddr(fuel, c, e.lv, m, p);
    var r := Address(fuel, c, e.lv, m, p);
    if r.Val? && p - 4 >= c.lo && !e.ty.kind.Agg? {
      if need.None? || Covers(e.ty, need.value) {
        SameEval(fuel, c, e.rhs, Some(e.ty), r.m, p - 4);
        var a, b := Eval(fuel, c, e.rhs, r.m, p - 4), Eval(fuel, AsEmitted(c), e.rhs, r.m, p - 4);
        if a.Val? {
          StoreLow(a.m, r.v, e.ty, a.v, b.v);
          LowOfConvert(a.v, e.ty);
          if need.Some? { LowCovers(Convert(a.v, e.ty), b.v, e.ty, need.value); }
        }
      } else {
        SameWhole(fuel, c, e.rhs, r.m, p - 4);
        RangedValue(fuel, c, e.rhs, e.ty, r.m, p - 4);
      }
    }
  }

  lemma {:induction false} SameBin(fuel: nat, c: Env, e: Expr, m: Mem, p: int)
    requires e.Bin? && c.meaning.IsoC? && ExactProgram(c) && ExactExpr(ScopeOf(c), e, Some(WHOLE))
    ensures Eval(fuel, AsEmitted(c), e, m, p) == Eval(fuel, c, e, m, p)
    decreases fuel, e, 0
  {
    hide ExactProgram, CallFn, EvalArgs, Address, LoadN, StoreN, Convert, Apply;
    SameWhole(fuel, c, e.r, m, p);
    var y := Eval(fuel, c, e.r, m, p);
    if y.Val? {
      SameWhole(fuel, c, e.l, y.m, p - 4);
      var x := Eval(fuel, c, e.l, y.m, p - 4);
      if x.Val? && Routine(e.op).Some? && fuel > 0 { SameCall(fuel - 1, c, Routine(e.op).value, [x.v, y.v], x.m, p); }
    }
  }

  lemma {:induction false} SameAddr(fuel: nat, c: Env, e: Expr, m: Mem, p: int)
    requires c.meaning.IsoC? && ExactProgram(c) && ExactAddr(ScopeOf(c), e)
    ensures Address(fuel, AsEmitted(c), e, m, p) == Address(fuel, c, e, m, p)
    decreases fuel, e, 0
  {
    hide ExactProgram, Eval, ExactExpr;
    match e
    case Deref(x, _) => SameWhole(fuel, c, x, m, p);
    case Member(b, _, _) =>
      if b.Deref? {
        SameWhole(fuel, c, b.e, m, p);
      } else if b.Call? {
        SameWhole(fuel, c, b, m, p);
      } else {
        SameAddr(fuel, c, b, m, p);
      }
    case _ =>
  }

  lemma {:induction false} SameArgs(fuel: nat, c: Env, args: Args, m: Mem, p: int)
    requires c.meaning.IsoC? && ExactProgram(c) && ExactArgs(ScopeOf(c), args)
    ensures EvalArgs(fuel, AsEmitted(c), args, m, p) == EvalArgs(fuel, c, args, m, p)
    decreases fuel, args, 0
  {
    hide ExactProgram, Eval, ExactExpr;
    match args
    case NoArgs =>
    case Arg(e, rest) =>
      SameArgs(fuel, c, rest, m, p);
      var a := EvalArgs(fuel, c, rest, m, p);
      if a.Vals? { SameWhole(fuel, c, e, a.m, p - 4 * rest.Count()); }
  }

  // A call means the same.
  lemma {:induction false} SameCall(fuel: nat, c: Env, name: string, vals: seq<Word>, m: Mem, p: int)
    requires c.meaning.IsoC? && ExactProgram(c)
    ensures CallFn(fuel, AsEmitted(c), name, vals, m, p) == CallFn(fuel, c, name, vals, m, p)
    decreases fuel
  {
    hide RunStmts, BindParams, Frame, FrameKeys, ExactStmts, Convert;
    if (c.unit, name) in c.defs && c.defs[(c.unit, name)] < |c.funcs| {
      var f := c.funcs[c.defs[(c.unit, name)]];
      var fb := p - 4 * |vals| - 8;
      if |vals| == |f.params| && Room(c, fb - f.frame) {
        var b := BindParams(f.params, vals, fb, m + Frame(fb - f.frame, fb), 0);
        if b.Some? {
          assert f in c.funcs;
          SameStmts(fuel, c.(unit := f.unit, fb := fb), f.body, f.result, b.value, fb - f.frame);
        }
      }
    }
  }

  // The same outcome, with a returned value in the function's range.
  predicate Meets(a: Out, b: Out, result: Ty) {
    a == b && (a.Returned? && a.v.Some? ==> Convert(a.v.value, result) == a.v.value)
  }

  lemma {:induction false} SameStmts(fuel: nat, c: Env, ss: Stmts, result: Ty, m: Mem, p: int)
    requires c.meaning.IsoC? && ExactProgram(c) && ExactStmts(ScopeOf(c), ss, result)
    ensures Meets(RunStmts(fuel, c, ss, m, p), RunStmts(fuel, AsEmitted(c), ss, m, p), result)
    decreases fuel, ss, 0
  {
    hide ExactProgram, RunStmt, ExactStmt, Convert;
    match ss
    case Nil =>
    case Cons(s, rest) =>
      SameStmt(fuel, c, s, result, m, p);
      var o := RunStmt(fuel, c, s, m, p);
      if o.Normal? { SameStmts(fuel, c, rest, result, o.m, p); }
  }

  lemma {:induction false} SameStmt(fuel: nat, c: Env, s: Stmt, result: Ty, m: Mem, p: int)
    requires c.meaning.IsoC? && ExactProgram(c) && ExactStmt(ScopeOf(c), s, result)
    ensures Meets(RunStmt(fuel, c, s, m, p), RunStmt(fuel, AsEmitted(c), s, m, p), result)
    decreases fuel, s, 2
  {
    hide ExactProgram, Eval, RunStmts, ExactExpr, ExactStmts, Convert, Loop, Again, LoadN, StoreN, Chosen, Ranged;
    match s
    case Return(value) =>
      if value.Some? {
        SameWhole(fuel, c, value.value, m, p);
        RangedValue(fuel, c, value.value, result, m, p);
      }
    case If(x, t, f) =>
      SameWhole(fuel, c, x, m, p);
      var r := Eval(fuel, c, x, m, p);
      if r.Val? {
        SameStmts(fuel, c, t, result, r.m, p);
        SameStmts(fuel, c, f, result, r.m, p);
      }
    case While(_, _) => SameWhile(fuel, c, s, result, m, p);
    case DoWhile(body, x) =>
      SameStmts(fuel, c, body, result, m, p);
      var o := RunStmts(fuel, c, body, m, p);
      if o.Normal? || o.Continued? { SameAgain(fuel, c, s, result, o.m, p); }
    case For(init, _, _, _) =>
      SameStmts(fuel, c, init, result, m, p);
      var o := RunStmts(fuel, c, init, m, p);
      if o.Normal? { SameLoop(fuel, c, s, result, o.m, p); }
    case Switch(_, _, _, _) => SameSwitch(fuel, c, s, result, m, p);
    case Do(e) => SameEval(fuel, c, e, None, m, p);
    case _ =>
  }

  lemma {:induction false} SameWhile(fuel: nat, c: Env, s: Stmt, result: Ty, m: Mem, p: int)
    requires s.While? && c.meaning.IsoC? && ExactProgram(c) && ExactStmt(ScopeOf(c), s, result)
    ensures Meets(RunStmt(fuel, c, s, m, p), RunStmt(fuel, AsEmitted(c), s, m, p), result)
    decreases fuel, s, 1
  {
    hide ExactProgram, Eval, RunStmts, ExactExpr, ExactStmts, Convert;
    SameWhole(fuel, c, s.c, m, p);
    var r := Eval(fuel, c, s.c, m, p);
    if r.Val? && r.v != 0 {
      SameStmts(fuel, c, s.body, result, r.m, p);
      var o := RunStmts(fuel, c, s.body, r.m, p);
      if (o.Normal? || o.Continued?) && fuel > 0 { SameStmt(fuel - 1, c, s, result, o.m, p); }
    }
  }

  lemma {:induction false} SameAgain(fuel: nat, c: Env, s: Stmt, result: Ty, m: Mem, p: int)
    requires s.DoWhile? && c.meaning.IsoC? && ExactProgram(c) && ExactStmt(ScopeOf(c), s, result)
    ensures Meets(Again(fuel, c, s, m, p), Again(fuel, AsEmitted(c), s, m, p), result)
    decreases fuel, s, 1
  {
    hide ExactProgram, Eval, RunStmt, ExactExpr, ExactStmts, Convert;
    SameWhole(fuel, c, s.c, m, p);
    var r := Eval(fuel, c, s.c, m, p);
    if r.Val? && r.v != 0 && fuel > 0 { SameStmt(fuel - 1, c, s, result, r.m, p); }
  }

  lemma {:induction false} SameLoop(fuel: nat, c: Env, s: Stmt, result: Ty, m: Mem, p: int)
    requires s.For? && c.meaning.IsoC? && ExactProgram(c) && ExactStmt(ScopeOf(c), s, result)
    ensures Meets(Loop(fuel, c, s, m, p), Loop(fuel, AsEmitted(c), s, m, p), result)
    decreases fuel, s, 1
  {
    hide ExactProgram, Eval, RunStmts, ExactExpr, ExactStmts, Convert, Turn;
    if s.cond.Some? { SameWhole(fuel, c, s.cond.value, m, p); }
    var r := if s.cond.Some? then Eval(fuel, c, s.cond.value, m, p) else Val(1, m);
    if r.Val? && r.v != 0 {
      SameStmts(fuel, c, s.body, result, r.m, p);
      var o := RunStmts(fuel, c, s.body, r.m, p);
      if o.Normal? || o.Continued? { SameTurn(fuel, c, s, result, o.m, p); }
    }
  }

  lemma {:induction false} SameTurn(fuel: nat, c: Env, s: Stmt, result: Ty, m: Mem, p: int)
    requires s.For? && c.meaning.IsoC? && ExactProgram(c) && ExactStmt(ScopeOf(c), s, result)
    ensures Meets(Turn(fuel, c, s, m, p), Turn(fuel, AsEmitted(c), s, m, p), result)
    decreases fuel, s, 0
  {
    hide ExactProgram, Eval, Loop, ExactExpr, ExactStmts, Convert;
    if s.inc.Some? { SameEval(fuel, c, s.inc.value, None, m, p); }
    var r := if s.inc.Some? then Eval(fuel, c, s.inc.value, m, p) else Void(m);
    if (r.Val? || r.Void?) && fuel > 0 { SameLoop(fuel - 1, c, s, result, r.m, p); }
  }

  lemma {:induction false} SameSwitch(fuel: nat, c: Env, s: Stmt, result: Ty, m: Mem, p: int)
    requires s.Switch? && c.meaning.IsoC? && ExactProgram(c) && ExactStmt(ScopeOf(c), s, result)
    ensures Meets(RunStmt(fuel, c, s, m, p), RunStmt(fuel, AsEmitted(c), s, m, p), result)
    decreases fuel, s, 1
  {
    hide ExactProgram, Eval, RunStmts, ExactExpr, ExactStmts, Convert, LoadN, StoreN, Chosen, OnlyDecls;
    SameWhole(fuel, c, s.c, m, p);
    var r := Eval(fuel, c, s.c, m, p);
    if r.Val? {
      var q := StoreN(r.m, Wrap(c.fb - s.slot), 4, r.v);
      if q.Some? {
        DeclsRun(fuel, AsEmitted(c), s.pre, q.value, p);
        var v := LoadN(q.value, Wrap(c.fb - s.slot), 4);
        if v.Some? && Chosen(s.body, v.value).Some? {
          var rest := Chosen(s.body, v.value).value;
          ChosenExact(ScopeOf(c), s.body, v.value, result);
          SameStmts(fuel, c, rest, result, q.value, p);
        }
      }
    }
  }

  lemma {:induction false} DeclsRun(fuel: nat, env: Env, ss: Stmts, m: Mem, p: int)
    requires OnlyDecls(ss)
    ensures RunStmts(fuel, env, ss, m, p) == Normal(m)
    decreases ss
  {
    if ss.Cons? { DeclsRun(fuel, env, ss.tail, m, p); }
  }

  lemma {:induction false} ChosenExact(scope: Scope, body: Stmts, v: Word, result: Ty)
    requires ExactStmts(scope, body, result)
    ensures FromCase(body, v).Some? ==> ExactStmts(scope, FromCase(body, v).value, result)
    ensures FromDefault(body).Some? ==> ExactStmts(scope, FromDefault(body).value, result)
    ensures Chosen(body, v).Some? ==> ExactStmts(scope, Chosen(body, v).value, result)
    decreases body
  {
    hide ExactStmt;
    if body.Cons? { ChosenExact(scope, body.tail, v, result); }
  }

  // ---- exactly when the two meanings agree ----

  // Operands that mean the same leave the assignment's value in r1 exactly when
  // it is in the range of the left side's type; the store is the same.
  lemma AssignAgrees(fuel: nat, c: Env, lv: Expr, rhs: Expr, ty: Ty, m: Mem, p: int, a: Word, m1: Mem, v: Word, m2: Mem)
    requires p - 4 >= c.lo && !ty.kind.Agg? && StoreN(m2, a, SizeOf(ty), v).Some?
    requires Address(fuel, AsC(c), lv, m, p) == Val(a, m1) == Address(fuel, AsEmitted(c), lv, m, p)
    requires Eval(fuel, AsC(c), rhs, m1, p - 4) == Val(v, m2) == Eval(fuel, AsEmitted(c), rhs, m1, p - 4)
    ensures var r, q := Eval(fuel, AsC(c), Assign(lv, rhs, ty), m, p), Eval(fuel, AsEmitted(c), Assign(lv, rhs, ty), m, p);
            r.Val? && q.Val? && r.m == q.m && r.v == Convert(v, ty) && (r.v == q.v <==> Convert(v, ty) == v)
  {
    hide Address, Eval, StoreN, Convert;
    AssignGives(fuel, AsC(c), lv, rhs, ty, m, p, a, m1, v, m2);
    AssignGives(fuel, AsEmitted(c), lv, rhs, ty, m, p, a, m1, v, m2);
  }

  // A function that does the same in both meanings returns what C asks for
  // exactly when the value it computes is in the range of its result type.
  lemma ReturnAgrees(fuel: nat, c: Env, name: string, vals: seq<Word>, m: Mem, p: int, v: Word, m1: Mem, m2: Mem)
    requires (c.unit, name) in c.defs && c.defs[(c.unit, name)] < |c.funcs|
    requires var f, fb := c.funcs[c.defs[(c.unit, name)]], p - 4 * |vals| - 8;
             && |vals| == |f.params| && Room(c, fb - f.frame)
             && BindParams(f.params, vals, fb, m + Frame(fb - f.frame, fb), 0) == Some(m1)
             && var d := c.(unit := f.unit, fb := fb);
                RunStmts(fuel, AsC(d), f.body, m1, fb - f.frame) == Returned(Some(v), m2) == RunStmts(fuel, AsEmitted(d), f.body, m1, fb - f.frame)
    ensures var r, q := CallFn(fuel, AsC(c), name, vals, m, p), CallFn(fuel, AsEmitted(c), name, vals, m, p);
            var ty := c.funcs[c.defs[(c.unit, name)]].result;
            r.Val? && q.Val? && r.m == q.m && r.v == Convert(v, ty) && (r.v == q.v <==> Convert(v, ty) == v)
  {
    hide RunStmts, BindParams, Frame, FrameKeys, Convert;
  }

  // ---- inputs on which they differ ----

  const UCHAR := Ty(Char, true)

  // int x at fb - 8 and unsigned char c at fb - 4
  const X := Var(8, WHOLE)
  const C := Var(4, UCHAR)

  // x = (c = 300): C stores 44 in x, the compiled code 300.
  lemma ChainedAssignmentKeepsHighBits(fuel: nat, c: Env, m: Mem, p: int) returns (m1: Mem, m2: Mem)
    requires 8 <= c.fb < W && p - 8 >= c.lo && Has(m, c.fb - 8, 8)
    ensures Eval(fuel, AsC(c), Assign(X, Assign(C, Num(300), UCHAR), WHOLE), m, p) == Val(44, m1)
    ensures Eval(fuel, AsEmitted(c), Assign(X, Assign(C, Num(300), UCHAR), WHOLE), m, p) == Val(300, m2)
    ensures LoadN(m1, c.fb - 8, 4) == Some(44) && LoadN(m2, c.fb - 8, 4) == Some(300)
  {
    hide LoadN, StoreN, Eval, Has;
    var inner := NarrowInner(fuel, c, m, p);
    m1 := WholeOuter(fuel, AsC(c), Assign(C, Num(300), UCHAR), m, p, 44, inner);
    m2 := WholeOuter(fuel, AsEmitted(c), Assign(C, Num(300), UCHAR), m, p, 300, inner);
  }

  lemma VarAt(fuel: nat, c: Env, off: nat, ty: Ty, m: Mem, p: int)
    requires off <= c.fb < W
    ensures Address(fuel, c, Var(off, ty), m, p) == Val(c.fb - off, m)
  {
  }

  lemma AssignGives(fuel: nat, c: Env, lv: Expr, rhs: Expr, ty: Ty, m: Mem, p: int, a: Word, m1: Mem, v: Word, m2: Mem)
    requires p - 4 >= c.lo && !ty.kind.Agg? && StoreN(m2, a, SizeOf(ty), v).Some?
    requires Address(fuel, c, lv, m, p) == Val(a, m1) && Eval(fuel, c, rhs, m1, p - 4) == Val(v, m2)
    ensures Eval(fuel, c, Assign(lv, rhs, ty), m, p) == Val(Passed(c, v, ty), StoreN(m2, a, SizeOf(ty), v).value)
  {
    hide Address, StoreN, Convert;
  }

  // c = 300
  lemma NarrowInner(fuel: nat, c: Env, m: Mem, p: int) returns (m1: Mem)
    requires 8 <= c.fb < W && p - 8 >= c.lo && Has(m, c.fb - 8, 8)
    ensures Eval(fuel, AsC(c), Assign(C, Num(300), UCHAR), m, p - 4) == Val(44, m1)
    ensures Eval(fuel, AsEmitted(c), Assign(C, Num(300), UCHAR), m, p - 4) == Val(300, m1)
    ensures Has(m1, c.fb - 8, 4)
  {
    hide LoadN, ByteAt, Convert;
    ConvertIs(300, UCHAR);
    m1 := m[c.fb - 4 := Known(ByteAt(300, 3))];
    assert StoreN(m, c.fb - 4, 1, 300) == Some(m1);
    AssignAgrees(fuel, c, C, Num(300), UCHAR, m, p - 4, c.fb - 4, m, 300, m);
  }

  // x = e
  lemma WholeOuter(fuel: nat, c: Env, e: Expr, m: Mem, p: int, v: Word, m1: Mem) returns (m2: Mem)
    requires 8 <= c.fb < W && p - 4 >= c.lo && Eval(fuel, c, e, m, p - 4) == Val(v, m1) && Has(m1, c.fb - 8, 4)
    ensures Eval(fuel, c, Assign(X, e, WHOLE), m, p) == Val(v, m2) && LoadN(m2, c.fb - 8, 4) == Some(v)
  {
    hide LoadN, StoreN, ByteAt, Has, Eval, Address;
    HasStore(m1, c.fb - 8, v, c.fb - 8, 4);
    m2 := StoreN(m1, c.fb - 8, 4, v).value;
    StoreLoads(m1, c.fb - 8, v);
    VarAt(fuel, c, 8, WHOLE, m, p);
    AssignGives(fuel, c, X, e, WHOLE, m, p, c.fb - 8, m, v, m1);
  }

  lemma StoreLoads(m: Mem, a: int, v: Word)
    requires StoreN(m, a, 4, v).Some?
    ensures LoadN(StoreN(m, a, 4, v).value, a, 4) == Some(v)
  {
    hide Be32, ByteAt;
    Be32RoundTrip(v);
  }

  // if (++c) with c at 255: C takes the else branch, the compiled code the other.
  lemma IncrementDoesNotWrap(fuel: nat, c: Env, yes: Stmts, no: Stmts, m: Mem, p: int)
    requires 4 <= c.fb < W && p - 8 >= c.lo && c.fb - 4 in m && m[c.fb - 4] == Known(255)
    ensures var s := If(Assign(C, Bin(Add, C, Num(1)), UCHAR), yes, no);
            var m1 := m[c.fb - 4 := Known(0)];
            && RunStmt(fuel, AsC(c), s, m, p) == RunStmts(fuel, AsC(c), no, m1, p)
            && RunStmt(fuel, AsEmitted(c), s, m, p) == RunStmts(fuel, AsEmitted(c), yes, m1, p)
  {
    hide RunStmts, Extend, Eval, Address;
    ConvertIs(255, UCHAR);
    ConvertIs(256, UCHAR);
    LoadsByte(m, c.fb - 4, 255);
    assert StoreN(m, c.fb - 4, 1, 256) == Some(m[c.fb - 4 := Known(0)]);
    PlusOne(fuel, AsC(c), m, p);
    PlusOne(fuel, AsEmitted(c), m, p);
    AssignGives(fuel, AsC(c), C, Bin(Add, C, Num(1)), UCHAR, m, p, c.fb - 4, m, 256, m);
    AssignGives(fuel, AsEmitted(c), C, Bin(Add, C, Num(1)), UCHAR, m, p, c.fb - 4, m, 256, m);
  }

  lemma LoadsByte(m: Mem, a: int, b: Byte)
    requires a in m && m[a] == Known(b)
    ensures LoadN(m, a, 1) == Some(b)
  {
  }

  lemma PlusOne(fuel: nat, c: Env, m: Mem, p: int)
    requires 4 <= c.fb < W && p - 8 >= c.lo && c.fb - 4 in m && m[c.fb - 4] == Known(255)
    ensures Eval(fuel, c, Bin(Add, C, Num(1)), m, p - 4) == Val(256, m)
    ensures Address(fuel, c, C, m, p) == Val(c.fb - 4, m)
  {
    hide Extend;
    ConvertIs(255, UCHAR);
    LoadsByte(m, c.fb - 4, 255);
    assert Eval(fuel, c, C, m, p - 8) == Val(255, m);
  }

  // unsigned char f(void) { return 300; } gives 44 in C and 300 when compiled.
  function Returns300(unit: nat): Func {
    Func(unit, "f", [], UCHAR, 0, Cons(Return(Some(Num(300))), Nil))
  }

  lemma ResultKeepsHighBits(fuel: nat, c: Env, unit: nat, m: Mem, p: int)
    requires (c.unit, "f") in c.defs && c.defs[(c.unit, "f")] < |c.funcs| && c.funcs[c.defs[(c.unit, "f")]] == Returns300(unit)
    requires Room(c, p - 8)
    ensures CallFn(fuel, AsC(c), "f", [], m, p) == Val(44, m)
    ensures CallFn(fuel, AsEmitted(c), "f", [], m, p) == Val(300, m)
  {
    hide Extend;
    ConvertIs(300, UCHAR);
    assert m + Frame(p - 8, p - 8) == m && m - FrameKeys(p - 8, p - 8) == m;
    assert BindParams([], [], p - 8, m, 0) == Some(m);
    assert RunStmt(fuel, AsC(c).(unit := unit, fb := p - 8), Return(Some(Num(300))), m, p - 8) == Returned(Some(300), m);
    assert RunStmt(fuel, AsEmitted(c).(unit := unit, fb := p - 8), Return(Some(Num(300))), m, p - 8) == Returned(Some(300), m);
  }

  // switch (0) { y = 1; } with y at fb - 4: C leaves y alone, the compiled code
  // sets it.
  const Y := Var(4, WHOLE)

  lemma SwitchRunsPreamble(fuel: nat, c: Env, m: Mem, p: int)
    requires 8 <= c.fb < W && p - 4 >= c.lo && Has(m, c.fb - 8, 8)
    ensures var s := Switch(Num(0), 8, Cons(Do(Assign(Y, Num(1), WHOLE)), Nil), Nil);
            var o, q := RunStmt(fuel, AsC(c), s, m, p), RunStmt(fuel, AsEmitted(c), s, m, p);
            && o.Normal? && LoadN(o.m, c.fb - 4, 4) == LoadN(m, c.fb - 4, 4)
            && q.Normal? && LoadN(q.m, c.fb - 4, 4) == Some(1)
  {
    hide LoadN, StoreN, RunStmts, Has;
    HasStore(m, c.fb - 8, 0, c.fb - 8, 8);
    var m1 := StoreN(m, c.fb - 8, 4, 0).value;
    StoreLoads(m, c.fb - 8, 0);
    StoreElsewhere(m, c.fb - 8, 0, c.fb - 4);
    var m2 := PreambleSets(fuel, AsEmitted(c), m1, p);
  }

  lemma HasStore(m: Mem, a: int, v: Word, b: int, n: nat)
    requires Has(m, b, n) && b <= a && a + 4 <= b + n
    ensures StoreN(m, a, 4, v).Some? && Has(StoreN(m, a, 4, v).value, b, n)
  {
    hide ByteAt;
  }

  // y = 1;
  lemma PreambleSets(fuel: nat, c: Env, m: Mem, p: int) returns (m1: Mem)
    requires 8 <= c.fb < W && p - 4 >= c.lo && Has(m, c.fb - 8, 8)
    ensures RunStmts(fuel, c, Cons(Do(Assign(Y, Num(1), WHOLE)), Nil), m, p) == Normal(m1)
    ensures LoadN(m1, c.fb - 4, 4) == Some(1) && LoadN(m1, c.fb - 8, 4) == LoadN(m, c.fb - 8, 4)
  {
    hide LoadN, StoreN, ByteAt, Has;
    HasStore(m, c.fb - 4, 1, c.fb - 8, 8);
    m1 := StoreN(m, c.fb - 4, 4, 1).value;
    StoreLoads(m, c.fb - 4, 1);
    StoreElsewhere(m, c.fb - 4, 1, c.fb - 8);
    VarAt(fuel, c, 4, WHOLE, m, p);
    AssignGives(fuel, c, Y, Num(1), WHOLE, m, p, c.fb - 4, m, 1, m);
    assert RunStmt(fuel, c, Do(Assign(Y, Num(1), WHOLE)), m, p) == Normal(m1);
    assert RunStmts(fuel, c, Nil, m1, p) == Normal(m1);
  }

  lemma StoreElsewhere(m: Mem, a: int, v: Word, b: int)
    requires StoreN(m, a, 4, v).Some? && (b + 4 <= a || a + 4 <= b)
    ensures LoadN(StoreN(m, a, 4, v).value, b, 4) == LoadN(m, b, 4)
  {
    hide Be32, ByteAt;
  }
}
