// Calls on the line machine: pushing the return address, the callee's prologue
// and parameter copies, and leaving again.
module Calls {
  import opened Words
  import opened Isa
  import opened Emu
  import opened Link
  import opened Machine
  import opened Minic
  import opened Codegen
  import opened Gadgets
  import opened Jumps

  // The argument words lie at q, q + 4, and so on.
  ghost predicate ArgsOn(vals: seq<Word>, q: int, mem: seq<Byte>) {
    0 <= q && forall i | 0 <= i < |vals| :: Read(mem, q + 4 * i, 4) == Some(vals[i])
  }

  lemma KeptAt(w: World, m: Mem, p: int, mem: seq<Byte>, mem': seq<Byte>, a: int)
    requires Keeps(w, m, p, mem, mem') && w.p.host.floor <= p <= a && a + 4 <= |mem|
    requires forall i | a <= i < a + 4 :: i !in m
    ensures Read(mem', a, 4) == Read(mem, a, 4)
  {
    hide Be32;
  }

  lemma ReadBound(mem: seq<Byte>, a: nat)
    requires Read(mem, a, 4).Some?
    ensures a + 4 <= |mem|
  {
  }

  // Words at or above the stack pointer and outside the program's memory stay.
  lemma ArgsKept(w: World, m: Mem, p: int, mem: seq<Byte>, mem': seq<Byte>, vals: seq<Word>, q: int)
    requires Keeps(w, m, p, mem, mem') && w.p.host.floor <= p <= q && ArgsOn(vals, q, mem)
    requires forall i | q <= i < q + 4 * |vals| :: i !in m
    ensures ArgsOn(vals, q, mem')
  {
    hide Read;
    forall i | 0 <= i < |vals| ensures Read(mem', q + 4 * i, 4) == Some(vals[i]) {
      assert Read(mem, q + 4 * i, 4) == Some(vals[i]);
      ReadBound(mem, q + 4 * i);
      KeptAt(w, m, p, mem, mem', q + 4 * i);
    }
  }

  // ---- entering ----

  // The machine stands at the callee's first line with the return address
  // pushed at q - 4.
  ghost predicate Entered(w: World, u: World, m: Mem, q: int, s: Mach, n: nat, t: Mach, k: nat) {
    && w.p.Valid() && s.cpu.Valid()
    && LineRun(w.p, s, n) == Some(t) && t.k == k && n > 0 && q >= 4
    && Inv(u, m, q - 4, t)
    && Keeps(w, m, q, s.cpu.mem, t.cpu.mem)
    && s.k < |w.p.rows| && Read(t.cpu.mem, q - 4, 4) == Some(w.p.Addr(s.k + 1))
  }

  // The world inside unit `unit`, with frame base fb.
  function Inside(w: World, unit: nat, fb: int): World {
    w.(env := w.env.(unit := unit, fb := fb))
  }

  lemma CallStep(w: World, m: Mem, q: int, s: Mach, code: seq<Line>, name: string) returns (n: nat, t: Mach, u: World, k: nat)
    requires Ok(w) && Inv(w, m, q, s) && Ahead(w, s, code) && |code| > 0 && code[0] == CallTo(Name(name))
    requires (w.env.unit, name) in w.env.defs && w.env.defs[(w.env.unit, name)] < |w.env.funcs|
    requires w.env.lo <= q - 4
    ensures u == Inside(w, w.env.funcs[w.env.defs[(w.env.unit, name)]].unit, w.env.fb)
    ensures k == w.place[w.env.defs[(w.env.unit, name)]].k
    ensures Entered(w, u, m, q, s, n, t, k)
  {
    hide Ok, Ahead, LineRun, LineStep, Agrees, Keeps, Write, Read, Total;
    OkValid(w);
    Head(w, s, code);
    var d := w.env.defs[(w.env.unit, name)];
    k := CallTarget(w, s.k, name);
    u := Inside(w, w.env.funcs[d].unit, w.env.fb);
    var back := BackAddress(w, s.k);
    PushAgrees(w, m, q, s.cpu.mem, back);
    ReadBack(s.cpu.mem, q - 4, back);
    var mem := Write(s.cpu.mem, q - 4, 4, back).value;
    var c := s.cpu.(regs := s.cpu.regs[FLAGS := back][SP := q - 4][R13 := w.p.Addr(k)], mem := mem);
    OkLines(w);
    n := GoToLine(w.p, c, w.p.Addr(k), k);
    t := Mach(k, c.(pc := w.p.Addr(k)));
    var first := GoTo(w.p, c, w.p.Addr(k)).value;
    CallLine(w.p, s, Name(name), q, w.p.Addr(k), back);
    FirstThen(w.p, s, first, n, t);
    n := n + 1;
    InsideAgrees(w, u, m, q - 4, mem);
  }

  // What a call line does: the return address pushed, then the transfer.
  lemma CallLine(p: Prog, s: Mach, y: Sym, q: int, target: Word, back: Word)
    requires p.Valid() && s.cpu.Valid() && s.k < |p.rows| && p.rows[s.k].line == CallTo(y)
    requires p.Val(s.k, y) == Some(target) && back == Wrap(p.Addr(s.k) + 32) && s.cpu.pc == p.Addr(s.k)
    requires s.cpu.regs[SP] == q && q >= 4 && p.Clear(q - 4, 4) && Write(s.cpu.mem, q - 4, 4, back).Some?
    ensures var c := s.cpu.(regs := s.cpu.regs[FLAGS := back][SP := q - 4][R13 := target], mem := Write(s.cpu.mem, q - 4, 4, back).value);
            LineStep(p, s) == GoTo(p, c, target)
  {
    hide Write, GoTo;
  }

  // The address a call to name transfers to is where the function starts.
  lemma CallTarget(w: World, at: nat, name: string) returns (k: nat)
    requires Ok(w) && at < |w.p.rows| && w.p.rows[at].owner == w.env.unit
    requires (w.env.unit, name) in w.env.defs && w.env.defs[(w.env.unit, name)] < |w.env.funcs|
    ensures k == w.place[w.env.defs[(w.env.unit, name)]].k && k <= |w.p.rows|
    ensures w.p.Val(at, Name(name)) == Some(w.p.Addr(k)) && w.p.Addr(k) < W
  {
    hide LinesOk, LabelsOk, SymsOk, FuncCode;
    k := w.place[w.env.defs[(w.env.unit, name)]].k;
    assert (w.env.unit, name) in w.env.defs;
    AddrMono(w.p, k, |w.p.rows|);
  }

  // The return address a call pushes is the next line's.
  lemma BackAddress(w: World, at: nat) returns (back: Word)
    requires Ok(w) && at < |w.p.rows| && w.p.rows[at].line.CallTo?
    ensures back == w.p.Addr(at + 1) == Wrap(w.p.Addr(at) + 32)
  {
    hide LinesOk, LabelsOk, SymsOk, FuncsOk;
    AddrMono(w.p, at, at + 1);
    AddrMono(w.p, at + 1, |w.p.rows|);
    AddrNext(w.p, at);
    back := w.p.Addr(at + 1);
  }

  // Agreement does not depend on the unit or the frame base.
  lemma InsideAgrees(w: World, u: World, m: Mem, p: int, mem: seq<Byte>)
    requires u.p == w.p && u.env.lo == w.env.lo
    ensures Agrees(u, m, p, mem) == Agrees(w, m, p, mem)
    ensures forall mem' :: Keeps(u, m, p, mem, mem') == Keeps(w, m, p, mem, mem')
  {
  }

  // mov r10, sp: the new frame base.
  lemma BaseStep(w: World, m: Mem, p: int, s: Mach, code: seq<Line>) returns (t: Mach, u: World)
    requires Ok(w) && Inv(w, m, p, s) && Ahead(w, s, code) && |code| > 0 && code[0] == MovR(R10, SP)
    ensures u == Inside(w, w.env.unit, p)
    ensures LineRun(w.p, s, 1) == Some(t) && t.k == s.k + 1 && t.cpu.mem == s.cpu.mem
    ensures Inv(u, m, p, t) && Ahead(u, t, code[1..])
  {
    hide Ok, Ahead, LineRun, Agrees, BitOp;
    OkValid(w);
    Head(w, s, code);
    u := Inside(w, w.env.unit, p);
    OrZero(p);
    OneInsn(w.p, s, AluR(AOr, R10, ZR, SP));
    t := Mach(s.k + 1, Exec(AluR(AOr, R10, ZR, SP), s.cpu).s);
    AddrNext(w.p, s.k);
    InsideAgrees(w, u, m, p, s.cpu.mem);
    InsideAhead(w, u, t, code[1..]);
  }

  lemma InsideAhead(w: World, u: World, t: Mach, code: seq<Line>)
    requires u.p == w.p && u.env.unit == w.env.unit && Ahead(w, t, code)
    ensures Ahead(u, t, code)
  {
  }

  // sub sp, sp, size: the frame becomes the program's, its contents unset.
  lemma FrameAgrees(w: World, m: Mem, p: int, size: nat, mem: seq<Byte>)
    requires Agrees(w, m, p, mem) && w.env.lo <= p - size && 0 <= w.env.lo
    ensures Agrees(w, m + Frame(p - size, p), p - size, mem)
    ensures (m + Frame(p - size, p)).Keys == m.Keys + FrameKeys(p - size, p)
  {
    hide OffCode;
  }

  lemma SimFrame(w: World, m: Mem, p: int, s: Mach, size: nat, code: seq<Line>) returns (n: nat, t: Mach)
    requires Ok(w) && Inv(w, m, p, s) && Ahead(w, s, code) && code == FrameCode(size) && w.env.lo <= p - size
    ensures LineRun(w.p, s, n) == Some(t) && t.k == s.k + |code| && t.cpu.mem == s.cpu.mem
    ensures Inv(w, m + Frame(p - size, p), p - size, t)
  {
    hide Ok, Ahead, LineRun, Agrees, Frame;
    OkValid(w);
    InvAgrees(w, m, p, s);
    FrameAgrees(w, m, p, size, s.cpu.mem);
    if size == 0 {
      RunZero(w.p, s);
      n, t := 0, s;
    } else {
      Head(w, s, code);
      OkLines(w);
      assert Emit(w.p.rows[s.k], w.p.syms, w.p.poll, w.p.gate).Some?;
      OneInsn(w.p, s, AluI(ASub, SP, SP, size));
      t := Mach(s.k + 1, Exec(AluI(ASub, SP, SP, size), s.cpu).s);
      n := 1;
      AddrNext(w.p, s.k);
    }
  }

  // ---- parameters ----

  lemma WidthOfSize(t: Ty)
    ensures !WidthOfTy(t).Disk? && WidthBytes(WidthOfTy(t)) == SizeOf(t)
  {
  }

  // The argument word in r1.
  lemma SimArgLoad(w: World, m: Mem, p: int, s: Mach, k: nat, v: Word, code: seq<Line>) returns (n: nat, t: Mach)
    requires Ok(w) && Inv(w, m, p, s) && Ahead(w, s, code) && |code| >= 2
    requires code[0] == OpI(AAdd, R9, R10, 8 + 4 * k) && code[1] == Op(LoadR(B32, R1, R9))
    requires 0 <= w.env.fb < W && Read(s.cpu.mem, w.env.fb + 8 + 4 * k, 4) == Some(v)
    ensures Arrived(w, m, m, p, s, n, t, s.k + 2) && Ahead(w, t, code[1..][1..])
    ensures Inv(w, m, p, t) && t.k == s.k + 2 && t.cpu.regs[R1] == v
  {
    hide Ok, Ahead, Agrees, Arrived, Read;
    OkValid(w);
    ReadBound(s.cpu.mem, w.env.fb + 8 + 4 * k);
    MemBound(w, m, p, s);
    var t1 := AluIStep(w, m, p, s, code, AAdd, R9, R10, 8 + 4 * k);
    assert t1.cpu.regs[R9] == w.env.fb + 8 + 4 * k;
    Head(w, t1, code[1..]);
    SteppedMem(w, m, p, s, t1, code);
    t := RegStep(w, m, p, t1, LoadR(B32, R1, R9));
    ArrivedInv(w, m, m, p, t1, 1, t, t1.k + 1);
    Then(w, m, m, m, p, s, 1, t1, t1.k, 1, t, t.k);
    n := 2;
  }

  // One argument word copied into its slot.
  lemma SimParam(w: World, m: Mem, p: int, s: Mach, k: nat, ty: Ty, v: Word, code: seq<Line>) returns (n: nat, t: Mach)
    requires Ok(w) && Inv(w, m, p, s) && Ahead(w, s, code) && code == ParamCode(k, ty)
    requires 0 <= w.env.fb < W && Read(s.cpu.mem, w.env.fb + 8 + 4 * k, 4) == Some(v)
    requires StoreN(m, w.env.fb - 4 * (k + 1), SizeOf(ty), v).Some?
    ensures Arrived(w, m, StoreN(m, w.env.fb - 4 * (k + 1), SizeOf(ty), v).value, p, s, n, t, s.k + 4)
  {
    hide Ok, Ahead, Agrees, Arrived, Read, StoreN;
    OkValid(w);
    MemBound(w, m, p, s);
    var slot := w.env.fb - 4 * (k + 1);
    StoreWhere(w, m, p, s, slot, SizeOf(ty), v);
    var n2, t2 := SimArgLoad(w, m, p, s, k, v, code);
    var t3 := AluIStep(w, m, p, t2, code[1..][1..], ASub, R9, R10, 4 * (k + 1));
    Onward(w, m, p, s, n2, t2, t3, code[1..][1..]);
    assert t3.cpu.regs[R9] == slot;
    WidthOfSize(ty);
    t := SimStore(w, m, p, t3, code[1..][1..][1..], WidthOfTy(ty), SizeOf(ty));
    Then(w, m, m, StoreN(m, slot, SizeOf(ty), v).value, p, s, n2 + 1, t3, t3.k, 1, t, s.k + 4);
    n := n2 + 2;
  }

  lemma MemBound(w: World, m: Mem, p: int, s: Mach)
    requires Inv(w, m, p, s)
    ensures |s.cpu.mem| <= W && p <= |s.cpu.mem|
  {
  }

  lemma StoreWhere(w: World, m: Mem, p: int, s: Mach, a: int, n: nat, v: Word)
    requires Inv(w, m, p, s) && (n == 1 || n == 2 || n == 4) && StoreN(m, a, n, v).Some?
    ensures 0 <= a < |s.cpu.mem|
  {
    StoreHas(m, a, n, v);
    assert a in m;
  }

  // A register step leaves memory as it is.
  lemma SteppedMem(w: World, m: Mem, p: int, s: Mach, t: Mach, code: seq<Line>)
    requires Ok(w) && Inv(w, m, p, s) && Ahead(w, s, code) && |code| > 0 && code[0].OpI?
    requires Stepped(w, m, p, s, t, code) && code[0].a != SP && code[0].a != R10
    ensures t.cpu.mem == s.cpu.mem
  {
    hide Agrees, Keeps, Alu, LabelsOk, FuncsOk, SymsOk;
    Head(w, s, code);
    assert Emit(w.p.rows[s.k], w.p.syms, w.p.poll, w.p.gate).Some?;
    var i := AluI(code[0].op, code[0].a, code[0].b, code[0].n);
    OneInsn(w.p, s, i);
  }

  lemma ParamsShape(params: seq<Ty>, vals: seq<Word>, fb: int, m: Mem, k: nat)
    requires |params| == |vals| && k <= |params| && BindParams(params, vals, fb, m, k).Some?
    ensures k == |params| ==> ParamsCode(params, k) == [] && BindParams(params, vals, fb, m, k) == Some(m)
    ensures k < |params| ==> |ParamCode(k, params[k])| == 4 && ParamsCode(params, k) == ParamCode(k, params[k]) + ParamsCode(params, k + 1)
    ensures k < |params| ==>
              var m1 := StoreN(m, fb - 4 * (k + 1), SizeOf(params[k]), vals[k]);
              m1.Some? && BindParams(params, vals, fb, m, k) == BindParams(params, vals, fb, m1.value, k + 1)
  {
    hide StoreN;
  }

  lemma ArgAt(vals: seq<Word>, q: int, mem: seq<Byte>, k: nat)
    requires ArgsOn(vals, q, mem) && k < |vals|
    ensures 0 <= q && Read(mem, q + 4 * k, 4) == Some(vals[k])
  {
    hide Read;
  }

  lemma {:induction false} SimParams(w: World, m: Mem, p: int, s: Mach, params: seq<Ty>, vals: seq<Word>, k: nat, code: seq<Line>)
    returns (n: nat, t: Mach)
    requires Ok(w) && Inv(w, m, p, s) && |params| == |vals| && k <= |params|
    requires Ahead(w, s, code) && code == ParamsCode(params, k)
    requires 0 <= w.env.fb < W && p <= w.env.fb && ArgsOn(vals, w.env.fb + 8, s.cpu.mem)
    requires forall i | w.env.fb + 8 <= i < w.env.fb + 8 + 4 * |vals| :: i !in m
    requires BindParams(params, vals, w.env.fb, m, k).Some?
    ensures Arrived(w, m, BindParams(params, vals, w.env.fb, m, k).value, p, s, n, t, s.k + |code|)
    decreases |params| - k
  {
    hide LineRun, LineStep, Total, Ok, Ahead, Agrees, Arrived, Read, StoreN, Inv, ArgsOn, ParamCode, ParamsCode, BindParams;
    OkValid(w);
    InvValid(w, m, p, s);
    ParamsShape(params, vals, w.env.fb, m, k);
    if k == |params| {
      Stay(w, m, p, s);
      n, t := 0, s;
    } else {
      var first, rest := ParamCode(k, params[k]), ParamsCode(params, k + 1);
      SplitAhead(w, s, first, rest);
      var m1 := StoreN(m, w.env.fb - 4 * (k + 1), SizeOf(params[k]), vals[k]).value;
      ArgAt(vals, w.env.fb + 8, s.cpu.mem, k);
      var n1, t1 := SimParam(w, m, p, s, k, params[k], vals[k], first);
      ArrivedKeeps(w, m, m1, p, s, n1, t1, s.k + 4);
      LowStack(w, m, p, s);
      ArgsKept(w, m, p, s.cpu.mem, t1.cpu.mem, vals, w.env.fb + 8);
      var n2;
      n2, t := SimParams(w, m1, p, t1, params, vals, k + 1, rest);
      Then(w, m, m1, BindParams(params, vals, w.env.fb, m, k).value, p, s, n1, t1, t1.k, n2, t, s.k + |code|);
      n := n1 + n2;
    }
  }

  lemma InvValid(w: World, m: Mem, p: int, s: Mach)
    requires Inv(w, m, p, s)
    ensures s.cpu.Valid() && s.cpu.regs[R10] == w.env.fb && s.cpu.regs[SP] == p
    ensures s.cpu.pc == w.p.Addr(s.k)
  {
  }

  lemma LowStack(w: World, m: Mem, p: int, s: Mach)
    requires Inv(w, m, p, s) && w.p.host.floor <= w.env.lo
    ensures w.env.lo <= p <= |s.cpu.mem| <= W && w.p.host.floor <= p
  {
  }

  lemma ArrivedKeeps(w: World, m: Mem, m': Mem, p: int, s: Mach, n: nat, t: Mach, k: nat)
    requires w.p.Valid() && s.cpu.Valid() && Arrived(w, m, m', p, s, n, t, k)
    ensures Inv(w, m', p, t) && t.cpu.Valid() && t.k == k && m'.Keys == m.Keys
    ensures Keeps(w, m, p, s.cpu.mem, t.cpu.mem) && LineRun(w.p, s, n) == Some(t)
  {
  }

  lemma SplitAhead(w: World, s: Mach, a: seq<Line>, b: seq<Line>)
    requires Ahead(w, s, a + b)
    ensures Ahead(w, s, a)
    ensures forall t: Mach | t.k == s.k + |a| :: Ahead(w, t, b)
  {
    CodeSplit(w.p, w.env.unit, s.k, a, b);
  }

  // ---- leaving ----

  // The machine mid-way through leaving.
  ghost predicate At(w: World, s: Mach) {
    s.cpu.Valid() && s.k <= |w.p.rows| && s.cpu.pc == w.p.Addr(s.k)
  }

  lemma LeaveBase(w: World, s: Mach, code: seq<Line>) returns (t: Mach)
    requires Ok(w) && At(w, s) && Ahead(w, s, code) && |code| > 0 && code[0] == MovR(SP, R10)
    ensures LineRun(w.p, s, 1) == Some(t) && At(w, t) && Ahead(w, t, code[1..])
    ensures t.cpu.regs == s.cpu.regs[SP := s.cpu.regs[R10]] && t.cpu.mem == s.cpu.mem
  {
    hide Ok, Ahead, LineRun, BitOp;
    OkValid(w);
    Head(w, s, code);
    OrZero(s.cpu.regs[R10]);
    OneInsn(w.p, s, AluR(AOr, SP, ZR, R10));
    t := Mach(s.k + 1, Exec(AluR(AOr, SP, ZR, R10), s.cpu).s);
    AddrNext(w.p, s.k);
  }

  lemma LeavePop(w: World, s: Mach, code: seq<Line>, v: Word) returns (t: Mach)
    requires Ok(w) && At(w, s) && Ahead(w, s, code) && |code| > 0 && code[0] == Pop(R10)
    requires s.cpu.regs[SP] + 4 < W && Read(s.cpu.mem, s.cpu.regs[SP], 4) == Some(v)
    ensures LineRun(w.p, s, 1) == Some(t) && At(w, t) && Ahead(w, t, code[1..])
    ensures t.cpu.regs == s.cpu.regs[R10 := v][SP := s.cpu.regs[SP] + 4] && t.cpu.mem == s.cpu.mem
  {
    hide Ok, Ahead, LineRun, Read;
    OkValid(w);
    Head(w, s, code);
    var sp: int := s.cpu.regs[SP];
    var c1 := s.cpu.(regs := s.cpu.regs[R10 := v], pc := s.cpu.pc + 4);
    var c2 := c1.(regs := s.cpu.regs[R10 := v][SP := sp + 4], pc := s.cpu.pc + 8);
    assert Exec(LoadR(B32, R10, SP), s.cpu) == Emu.Next(c1);
    assert Exec(AluI(AAdd, SP, SP, 4), c1) == Emu.Next(c2);
    PopRuns(w.p, s, c1, c2, R10);
    t := Mach(s.k + 1, c2);
    AddrNext(w.p, s.k);
  }

  lemma LeaveRet(w: World, s: Mach, code: seq<Line>, back: nat) returns (n: nat, t: Mach)
    requires Ok(w) && At(w, s) && Ahead(w, s, code) && |code| > 0 && code[0] == Ret
    requires s.cpu.regs[SP] + 4 < W && back <= |w.p.rows| && w.p.Addr(back) < W
    requires Read(s.cpu.mem, s.cpu.regs[SP], 4) == Some(w.p.Addr(back))
    ensures LineRun(w.p, s, n) == Some(t) && At(w, t) && t.k == back
    ensures t.cpu.regs == s.cpu.regs[FLAGS := w.p.Addr(back)][SP := s.cpu.regs[SP] + 4] && t.cpu.mem == s.cpu.mem
  {
    hide Ok, Ahead, LineRun, Read, LinesOk;
    OkValid(w);
    OkLines(w);
    Head(w, s, code);
    var sp: int := s.cpu.regs[SP];
    var c := s.cpu.(regs := s.cpu.regs[FLAGS := w.p.Addr(back)][SP := sp + 4]);
    var n1 := GoToLine(w.p, c, w.p.Addr(back), back);
    t := Mach(back, c.(pc := w.p.Addr(back)));
    assert LineStep(w.p, s) == Some(GoTo(w.p, c, w.p.Addr(back)).value);
    FirstThen(w.p, s, GoTo(w.p, c, w.p.Addr(back)).value, n1, t);
    n := n1 + 1;
  }

  // mov sp, r10; pop r10; ret: back to the line after the call.
  lemma LeaveSteps(w: World, s: Mach, q: int, saved: Word, back: nat) returns (n: nat, t: Mach)
    requires Ok(w) && At(w, s) && Ahead(w, s, LEAVE)
    requires 8 <= q < W && s.cpu.regs[R10] == q - 8
    requires Read(s.cpu.mem, q - 8, 4) == Some(saved)
    requires back <= |w.p.rows| && w.p.Addr(back) < W && Read(s.cpu.mem, q - 4, 4) == Some(w.p.Addr(back))
    ensures LineRun(w.p, s, n) == Some(t) && At(w, t) && t.k == back
    ensures t.cpu.mem == s.cpu.mem
    ensures t.cpu.regs[R10] == saved && t.cpu.regs[SP] == q && t.cpu.regs[R1] == s.cpu.regs[R1]
  {
    hide Ok, Ahead, LineRun, Read;
    OkValid(w);
    var s1 := LeaveBase(w, s, LEAVE);
    var s2 := LeavePop(w, s1, LEAVE[1..], saved);
    var n3;
    n3, t := LeaveRet(w, s2, LEAVE[1..][1..], back);
    LineRunAdd(w.p, s, 1, 1);
    LineRunAdd(w.p, s, 2, n3);
    n := n3 + 2;
  }

  // After leaving, the frame is free stack again.
  lemma LeaveAgrees(w: World, m: Mem, m2: Mem, q: int, lo: int, hi: int, mem0: seq<Byte>, mem: seq<Byte>)
    requires Agrees(w, m, q, mem0) && 0 <= w.env.lo <= lo <= hi <= q && |mem| == |mem0|
    requires m2.Keys == m.Keys + FrameKeys(lo, hi)
    requires Agrees(w, m2, lo, mem)
    ensures (m2 - FrameKeys(lo, hi)).Keys == m.Keys
    ensures Agrees(w, m2 - FrameKeys(lo, hi), q, mem)
  {
    hide OffCode;
    forall a | a in m ensures a !in FrameKeys(lo, hi) {
    }
  }

  lemma LeaveKeeps(w: World, m: Mem, m2: Mem, q: int, lo: int, hi: int, a: seq<Byte>, b: seq<Byte>)
    requires m2.Keys == m.Keys + FrameKeys(lo, hi) && w.env.lo <= lo <= hi <= q
    requires Keeps(w, m2, lo, a, b)
    ensures Keeps(w, m, q, a, b)
  {
  }
}
