// A whole call on the line machine, around the callee's body: the frame is set
// up and the parameters copied, and afterwards everything is as before.
module Frames {
  import opened Words
  import opened Isa
  import opened Emu
  import opened Link
  import opened Machine
  import opened Minic
  import opened Codegen
  import opened Gadgets
  import opened Jumps
  import opened Calls

  lemma OkInside(w: World, unit: nat, fb: int)
    requires Ok(w)
    ensures Ok(Inside(w, unit, fb))
  {
    hide LinesOk, LabelsOk, CodeAt, FuncCode;
    var u := Inside(w, unit, fb);
    assert FuncsOk(u) by {
      forall i | 0 <= i < |w.place|
        ensures CodeAt(w.p, w.env.funcs[i].unit, w.place[i].k,
                       FuncCode(u.(env := u.env.(unit := w.env.funcs[i].unit)).Near(), w.env.funcs[i], w.place[i].c).code)
      {
        assert u.(env := u.env.(unit := w.env.funcs[i].unit)).Near() == w.(env := w.env.(unit := w.env.funcs[i].unit)).Near();
      }
    }
  }

  // The called function's code, in its own unit.
  lemma CodeOfFunc(w: World, u: World, d: nat, t: Mach)
    requires Ok(w) && d < |w.env.funcs| && u == Inside(w, w.env.funcs[d].unit, w.env.fb) && t.k == w.place[d].k
    ensures Ahead(u, t, FuncCode(u.Near(), w.env.funcs[d], w.place[d].c).code)
  {
    hide LinesOk, LabelsOk, SymsOk, CodeAt, FuncCode;
    assert u.Near() == w.(env := w.env.(unit := w.env.funcs[d].unit)).Near();
  }

  function Prologue(f: Func): seq<Line> {
    [Label(Name(f.name)), Push(R10), MovR(R10, SP)]
  }

  lemma FuncShape(near: set<string>, f: Func, c: nat)
    ensures FuncCode(near, f, c).code
            == Prologue(f) + (FrameCode(f.frame) + (ParamsCode(f.params, 0) + ([Label(Poll(c))]
               + (StmtsCode(near, f.body, NOWHERE, c + 1).code + LEAVE))))
  {
    hide FrameCode, ParamsCode, StmtsCode;
    var a, b, p, q, d := Prologue(f), FrameCode(f.frame), ParamsCode(f.params, 0), [Label(Poll(c))], StmtsCode(near, f.body, NOWHERE, c + 1).code;
    assert a + b + p + q + d + LEAVE == a + (b + (p + (q + (d + LEAVE))));
  }

  // The machine inside the callee: world v, memory m1 over a frame of the
  // given size below q - 8, with the caller's frame base and the return
  // address saved above it.
  ghost predicate InFrame(w: World, v: World, m: Mem, m1: Mem, q: int, size: nat, s: Mach, n: nat, t: Mach) {
    && w.p.Valid() && s.cpu.Valid()
    && LineRun(w.p, s, n) == Some(t) && n > 0 && q >= 8 && 0 <= w.env.fb < W
    && Inv(v, m1, q - 8 - size, t)
    && m1.Keys == m.Keys + FrameKeys(q - 8 - size, q - 8)
    && Keeps(w, m, q, s.cpu.mem, t.cpu.mem)
    && s.k < |w.p.rows|
    && Read(t.cpu.mem, q - 8, 4) == Some(w.env.fb) && Read(t.cpu.mem, q - 4, 4) == Some(w.p.Addr(s.k + 1))
  }

  // Label, push of the old frame base, new frame base.
  lemma SimBase(w: World, u: World, m: Mem, q: int, s: Mach, n: nat, t: Mach, k: nat, f: Func) returns (n2: nat, t2: Mach, v: World)
    requires Ok(w) && Ok(u) && s.cpu.Valid() && t.cpu.Valid() && Entered(w, u, m, q, s, n, t, k)
    requires Inv(w, m, q, s) && u == Inside(w, f.unit, w.env.fb) && w.env.lo <= q - 8
    requires Ahead(u, t, Prologue(f))
    ensures v == Inside(w, f.unit, q - 8) && t2.k == t.k + 3
    ensures InFrame(w, v, m, m, q, 0, s, n2, t2)
  {
    hide LineRun, LineStep, Total, Ok, Ahead, Agrees, Keeps, Read, Pushed;
    OkValid(w);
    var code := Prologue(f);
    var a := MarkStep(u, m, q - 4, t, code);
    StepArrived1(u, m, q - 4, t, a, code);
    var b := PushStep(u, m, q - 4, a, code[1..], R10);
    PushedFacts(u, m, q - 4, a, b, w.env.fb);
    var c;
    c, v := BaseStep(u, m, q - 8, b, code[1..][1..]);
    LineRunAdd(w.p, s, n, 1);
    LineRunAdd(w.p, s, n + 1, 1);
    LineRunAdd(w.p, s, n + 2, 1);
    n2, t2 := n + 3, c;
    FreeStack(w, m, q, s.cpu.mem) by { InvAgrees(w, m, q, s); }
    SavedKept(u, m, q, t.cpu.mem, b.cpu.mem);
    KeepsLow(w, u, m, q, s.cpu.mem, t.cpu.mem, b.cpu.mem);
    NoFrame(m, q - 8);
  }

  lemma NoFrame(m: Mem, q: int)
    ensures m.Keys == m.Keys + FrameKeys(q, q)
    ensures m + Frame(q, q) == m
  {
  }

  lemma StepArrived1(w: World, m: Mem, p: int, s: Mach, t: Mach, code: seq<Line>)
    requires w.p.Valid() && s.cpu.Valid() && |code| > 0 && Stepped(w, m, p, s, t, code)
    ensures Inv(w, m, p, t) && t.k == s.k + 1 && t.cpu.Valid() && Ahead(w, t, code[1..]) && LineRun(w.p, s, 1) == Some(t)
  {
  }

  lemma PushedFacts(w: World, m: Mem, p: int, s: Mach, t: Mach, v: Word)
    requires w.p.Valid() && s.cpu.Valid() && Pushed(w, m, p, s, t, v)
    ensures Inv(w, m, p - 4, t) && t.cpu.Valid() && t.k == s.k + 1 && LineRun(w.p, s, 1) == Some(t)
    ensures Keeps(w, m, p, s.cpu.mem, t.cpu.mem) && Read(t.cpu.mem, p - 4, 4) == Some(v) && p >= 4
  {
  }

  lemma SavedKept(w: World, m: Mem, q: int, a: seq<Byte>, b: seq<Byte>)
    requires Keeps(w, m, q - 4, a, b) && Agrees(w, m, q - 4, a) && 4 <= q && w.p.host.floor <= w.env.lo && Read(a, q - 4, 4).Some?
    requires forall i | q - 4 <= i < q :: i !in m
    ensures Read(b, q - 4, 4) == Read(a, q - 4, 4)
  {
    hide Be32, OffCode;
  }

  lemma KeepsLow(w: World, u: World, m: Mem, q: int, a: seq<Byte>, b: seq<Byte>, c: seq<Byte>)
    requires u.p == w.p && u.env.lo == w.env.lo
    requires Keeps(w, m, q, a, b) && Keeps(u, m, q - 4, b, c)
    ensures Keeps(w, m, q, a, c)
  {
  }

  lemma FreeStack(w: World, m: Mem, q: int, mem: seq<Byte>)
    requires Agrees(w, m, q, mem)
    ensures forall i | w.env.lo <= i < q :: i !in m
    ensures w.env.lo <= q <= |mem| <= W
  {
    hide OffCode;
  }

  // A word above the callee's stack pointer and outside its memory survives.
  lemma SavedBoth(v: World, m: Mem, p: int, a: seq<Byte>, b: seq<Byte>, q: int, x: Word, y: Word)
    requires Keeps(v, m, p, a, b) && v.p.host.floor <= p <= q - 8
    requires forall i | q - 8 <= i < q :: i !in m
    requires Read(a, q - 8, 4) == Some(x) && Read(a, q - 4, 4) == Some(y)
    ensures Read(b, q - 8, 4) == Some(x) && Read(b, q - 4, 4) == Some(y)
  {
    hide Read;
    ReadBound(a, q - 4);
    ReadBound(a, q - 8);
    KeptAt(v, m, p, a, b, q - 8);
    KeptAt(v, m, p, a, b, q - 4);
  }

  lemma FrameFree(m: Mem, m1: Mem, lo: int, q: int, size: nat)
    requires m1.Keys == m.Keys + FrameKeys(q - 8 - size, q - 8)
    requires forall i | lo <= i < q :: i !in m
    requires lo <= q - 8
    ensures forall i | q - 8 <= i < q :: i !in m1
  {
    forall i | q - 8 <= i < q ensures i !in m1 {
      assert i !in FrameKeys(q - 8 - size, q - 8);
      assert i !in m1.Keys;
    }
  }

  // Frame, parameters and the safe-point label.
  lemma SimSetup(w: World, v: World, m: Mem, q: int, f: Func, c: nat, vals: seq<Word>, s: Mach, n: nat, t: Mach, rest: seq<Line>)
    returns (n2: nat, t2: Mach)
    requires Ok(w) && Ok(v) && s.cpu.Valid() && t.cpu.Valid() && v == Inside(w, f.unit, q - 8)
    requires InFrame(w, v, m, m, q, 0, s, n, t) && Inv(w, m, q, s)
    requires ArgsOn(vals, q, s.cpu.mem) && forall i | q <= i < q + 4 * |vals| :: i !in m
    requires |vals| == |f.params| && Room(w.env, q - 8 - f.frame)
    requires BindParams(f.params, vals, q - 8, m + Frame(q - 8 - f.frame, q - 8), 0).Some?
    requires Ahead(v, t, FrameCode(f.frame) + (ParamsCode(f.params, 0) + ([Label(Poll(c))] + rest)))
    ensures InFrame(w, v, m, BindParams(f.params, vals, q - 8, m + Frame(q - 8 - f.frame, q - 8), 0).value, q, f.frame, s, n2, t2)
    ensures Ahead(v, t2, rest)
  {
    hide LineRun, LineStep, Total, Ok, Ahead, Agrees, Keeps, Read, FrameCode, ParamsCode, BindParams, ArgsOn, Frame, FrameKeys, Arrived;
    OkValid(w);
    var lo2 := q - 8 - f.frame;
    var m' := m + Frame(lo2, q - 8);
    var m1 := BindParams(f.params, vals, q - 8, m', 0).value;
    var fc, pc, mark := FrameCode(f.frame), ParamsCode(f.params, 0), [Label(Poll(c))];
    SplitAhead(v, t, fc, pc + (mark + rest));
    var n3, t3 := SimFrame(v, m, q - 8, t, f.frame, fc);
    SplitAhead(v, t3, pc, mark + rest);
    InvAgrees(w, m, q, s);
    FreeStack(w, m, q, s.cpu.mem);
    InvAgrees(v, m, q - 8, t);
    FrameAgrees(v, m, q - 8, f.frame, t.cpu.mem);
    ArgsFree(m, m', q, f.frame, vals);
    FrameFree(m, m', w.env.lo, q, f.frame);
    ArgsKept(w, m, q, s.cpu.mem, t.cpu.mem, vals, q);
    var n4, t4 := SimParams(v, m', lo2, t3, f.params, vals, 0, pc);
    ArrivedKeeps(v, m', m1, lo2, t3, n4, t4, t3.k + |pc|);
    SplitAhead(v, t4, mark, rest);
    var n5;
    n5, t2 := SafeStep(v, m1, lo2, t4, mark, c);
    ArrivedKeeps(v, m1, m1, lo2, t4, n5, t2, t4.k + 1);
    Then(v, m', m1, m1, lo2, t3, n4, t4, t4.k, n5, t2, t2.k);
    ArrivedKeeps(v, m', m1, lo2, t3, n4 + n5, t2, t2.k);
    LineRunAdd(w.p, s, n, n3);
    LineRunAdd(w.p, s, n + n3, n4 + n5);
    n2 := n + n3 + n4 + n5;
    SavedBoth(v, m', lo2, t3.cpu.mem, t2.cpu.mem, q, w.env.fb, w.p.Addr(s.k + 1));
    LeaveKeeps(v, m, m', q, lo2, q - 8, t3.cpu.mem, t2.cpu.mem);
    KeepsSame(w, v, m, q, s.cpu.mem, t.cpu.mem, t2.cpu.mem);
  }

  lemma ArgsFree(m: Mem, m': Mem, q: int, size: nat, vals: seq<Word>)
    requires m'.Keys == m.Keys + FrameKeys(q - 8 - size, q - 8)
    requires forall i | q <= i < q + 4 * |vals| :: i !in m
    ensures forall i | q <= i < q + 4 * |vals| :: i !in m'
  {
    forall i | q <= i < q + 4 * |vals| ensures i !in m' {
      assert i !in FrameKeys(q - 8 - size, q - 8);
      assert i !in m'.Keys;
    }
  }

  lemma KeepsSame(w: World, v: World, m: Mem, q: int, a: seq<Byte>, b: seq<Byte>, c: seq<Byte>)
    requires v.p == w.p && v.env.lo == w.env.lo && Keeps(w, m, q, a, b) && Keeps(v, m, q, b, c)
    ensures Keeps(w, m, q, a, c)
  {
  }

  // Leaving: the frame is gone, the caller's registers are back, and control
  // is on the line after the call.
  lemma SimReturn(w: World, v: World, m: Mem, m1: Mem, m2: Mem, q: int, size: nat, s: Mach, n: nat, t: Mach, n2: nat, t2: Mach)
    returns (n3: nat, t3: Mach)
    requires Ok(w) && Ok(v) && s.cpu.Valid() && t.cpu.Valid() && v.p == w.p && v.env.lo == w.env.lo && v.env.fb == q - 8
    requires InFrame(w, v, m, m1, q, size, s, n, t) && Inv(w, m, q, s) && w.env.lo <= q - 8 - size
    requires Arrived(v, m1, m2, q - 8 - size, t, n2, t2, t2.k) && Ahead(v, t2, LEAVE)
    ensures Arrived(w, m, m2 - FrameKeys(q - 8 - size, q - 8), q, s, n3, t3, s.k + 1)
    ensures t3.cpu.Valid() && t3.cpu.regs[R1] == t2.cpu.regs[R1]
  {
    hide LineRun, LineStep, Total, Ok, Ahead, Agrees, Keeps, Read, FrameKeys;
    OkValid(w);
    var lo2 := q - 8 - size;
    InvAgrees(w, m, q, s);
    FreeStack(w, m, q, s.cpu.mem);
    FrameFree(m, m1, w.env.lo, q, size);
    SavedBoth(v, m1, lo2, t.cpu.mem, t2.cpu.mem, q, w.env.fb, w.p.Addr(s.k + 1));
    AddrMono(w.p, s.k + 1, |w.p.rows|);
    var n4;
    n4, t3 := LeaveSteps(v, t2, q, w.env.fb, s.k + 1);
    LineRunAdd(w.p, s, n, n2);
    LineRunAdd(w.p, s, n + n2, n4);
    n3 := n + n2 + n4;
    InvAgrees(v, m2, lo2, t2);
    KeepsLen(w, m, q, s.cpu.mem, t.cpu.mem);
    KeepsLen(v, m1, lo2, t.cpu.mem, t2.cpu.mem);
    InsideAgrees(w, v, m2, lo2, t2.cpu.mem);
    LeaveAgrees(w, m, m2, q, lo2, q - 8, s.cpu.mem, t2.cpu.mem);
    LeaveKeeps(v, m, m1, q, lo2, q - 8, t.cpu.mem, t2.cpu.mem);
    KeepsSame(w, v, m, q, s.cpu.mem, t.cpu.mem, t2.cpu.mem);
  }

  lemma KeepsLen(w: World, m: Mem, p: int, a: seq<Byte>, b: seq<Byte>)
    requires Keeps(w, m, p, a, b)
    ensures |a| == |b|
  {
  }
}
