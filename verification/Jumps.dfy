// Labels, jumps and materialised comparisons on the line machine.
module Jumps {
  import opened Words
  import opened Isa
  import opened Emu
  import opened Link
  import opened Machine
  import opened Minic
  import opened Codegen
  import opened Gadgets

  // Lines of no size are labels and notes: running them only moves on.
  lemma {:induction false} SkipTo(p: Prog, s: Mach, k: nat)
    requires p.Valid() && s.cpu.Valid() && LinesOk(p)
    requires s.k <= k <= |p.rows| && p.Addr(s.k) == p.Addr(k)
    ensures LineRun(p, s, k - s.k) == Some(Mach(k, s.cpu))
    decreases k - s.k
  {
    hide Emit, LineSize, LineStep, LinesOk, Total;
    if s.k < k {
      AddrNext(p, s.k);
      AddrMono(p, s.k + 1, k);
      NoSizeStep(p, s);
      SkipTo(p, Mach(s.k + 1, s.cpu), k);
    }
  }

  lemma NoSizeStep(p: Prog, s: Mach)
    requires p.Valid() && s.cpu.Valid() && LinesOk(p) && s.k < |p.rows| && LineSize(p.rows[s.k].line, p.poll) == 0
    ensures LineStep(p, s) == Some(Mach(s.k + 1, s.cpu))
  {
    hide Emit, Total, SafePoint, GoOn, GoTo;
    assert Emit(p.rows[s.k], p.syms, p.poll, p.gate).Some?;
  }

  // A transfer to the address of line k gets to line k.
  lemma GoToLine(p: Prog, s: Cpu, t: Word, k: nat) returns (n: nat)
    requires p.Valid() && s.Valid() && LinesOk(p) && k <= |p.rows| && p.Addr(k) == t
    ensures GoTo(p, s, t).Some? && GoTo(p, s, t).value.cpu == s.(pc := t)
    ensures LineRun(p, GoTo(p, s, t).value, n) == Some(Mach(k, s.(pc := t)))
  {
    hide LinesOk, LineRun;
    SearchFinds(p, t, 0, k);
    n := k - p.Search(t, 0).value;
    SkipTo(p, GoTo(p, s, t).value, k);
  }

  // One line, then more.
  lemma FirstThen(p: Prog, s: Mach, t: Mach, n: nat, u: Mach)
    requires p.Valid() && s.cpu.Valid() && t.cpu.Valid() && LineStep(p, s) == Some(t) && LineRun(p, t, n) == Some(u)
    ensures LineRun(p, s, n + 1) == Some(u)
  {
    hide LineStep;
  }

  // line k0 + j of the code being run is the label y.
  ghost predicate LabelAt(w: World, k: nat, y: Sym) {
    k < |w.p.rows| && w.p.rows[k] == Row(w.env.unit, Label(y)) && !y.Number?
  }

  lemma LabelVal(w: World, k: nat, from: nat, y: Sym)
    requires Ok(w) && LabelAt(w, k, y) && from < |w.p.rows| && w.p.rows[from].owner == w.env.unit
    ensures w.p.Val(from, y) == Some(w.p.Addr(k)) && w.p.Addr(k) < W
  {
    hide LinesOk, FuncsOk, SymsOk;
    AddrMono(w.p, k, |w.p.rows|);
  }

  lemma OkLines(w: World)
    requires Ok(w)
    ensures LinesOk(w.p)
  {
  }

  // A machine differing from s in place, scratch registers and comparison.
  lemma Moved(w: World, m: Mem, p: int, s: Mach, t: Mach)
    requires Inv(w, m, p, s) && t.cpu.Valid() && t.k <= |w.p.rows| && t.cpu.pc == w.p.Addr(t.k)
    requires t.cpu.mem == s.cpu.mem && t.cpu.regs[R10] == s.cpu.regs[R10] && t.cpu.regs[SP] == s.cpu.regs[SP]
    ensures Inv(w, m, p, t) && Keeps(w, m, p, s.cpu.mem, t.cpu.mem)
  {
    hide Agrees;
  }

  lemma JumpStep(w: World, m: Mem, p: int, s: Mach, code: seq<Line>, y: Sym, k: nat) returns (n: nat, t: Mach)
    requires Ok(w) && Inv(w, m, p, s) && Ahead(w, s, code) && |code| > 0 && code[0] == Jump(y) && LabelAt(w, k, y)
    ensures Arrived(w, m, m, p, s, n, t, k) && n > 0
    ensures Inv(w, m, p, t) && t.k == k && t.cpu.regs == s.cpu.regs[R13 := w.p.Addr(k)]
  {
    hide Ok, Ahead, LineRun, Agrees, Keeps, LabelAt;
    OkValid(w);
    OkLines(w);
    Head(w, s, code);
    LabelVal(w, k, s.k, y);
    LabelRow(w, k, y);
    var c := s.cpu.(regs := s.cpu.regs[R13 := w.p.Addr(k)]);
    n := GoToLine(w.p, c, w.p.Addr(k), k);
    t := Mach(k, c.(pc := w.p.Addr(k)));
    FirstThen(w.p, s, GoTo(w.p, c, w.p.Addr(k)).value, n, t);
    n := n + 1;
    Moved(w, m, p, s, t);
  }

  lemma LabelRow(w: World, k: nat, y: Sym)
    requires LabelAt(w, k, y)
    ensures k < |w.p.rows|
  {
  }

  // A conditional: to the label when the comparison holds, else onward.
  lemma BranchStep(w: World, m: Mem, p: int, s: Mach, code: seq<Line>, cc: Cond, y: Sym, k: nat) returns (n: nat, t: Mach)
    requires Ok(w) && Inv(w, m, p, s) && Ahead(w, s, code) && |code| > 0 && code[0] == Branch(cc, y) && LabelAt(w, k, y)
    ensures Arrived(w, m, m, p, s, n, t, if Holds(cc, s.cpu.la, s.cpu.lb) then k else s.k + 1) && n > 0
    ensures Inv(w, m, p, t) && t.cpu.regs == s.cpu.regs[R13 := w.p.Addr(k)]
    ensures !Holds(cc, s.cpu.la, s.cpu.lb) ==> Ahead(w, t, code[1..])
  {
    hide Ok, Ahead, LineRun, Agrees, Keeps, LabelAt, Holds;
    OkValid(w);
    OkLines(w);
    Head(w, s, code);
    LabelVal(w, k, s.k, y);
    LabelRow(w, k, y);
    var c := s.cpu.(regs := s.cpu.regs[R13 := w.p.Addr(k)]);
    if Holds(cc, s.cpu.la, s.cpu.lb) {
      n := GoToLine(w.p, c, w.p.Addr(k), k);
      t := Mach(k, c.(pc := w.p.Addr(k)));
      FirstThen(w.p, s, GoTo(w.p, c, w.p.Addr(k)).value, n, t);
      n := n + 1;
    } else {
      t := Mach(s.k + 1, c.(pc := s.cpu.pc + 16));
      AddrNext(w.p, s.k);
      RunZero(w.p, t);
      FirstThen(w.p, s, t, 0, t);
      n := 1;
    }
    Moved(w, m, p, s, t);
  }

  lemma RunZero(p: Prog, t: Mach)
    requires p.Valid() && t.cpu.Valid()
    ensures LineRun(p, t, 0) == Some(t)
  {
  }

  // A label other than a safe point, or a note.
  predicate Mark(l: Line) {
    l.Note? || (l.Label? && !l.sym.Poll?)
  }

  lemma MarkStep(w: World, m: Mem, p: int, s: Mach, code: seq<Line>) returns (t: Mach)
    requires Ok(w) && Inv(w, m, p, s) && Ahead(w, s, code) && |code| > 0 && Mark(code[0])
    ensures Stepped(w, m, p, s, t, code) && t == Mach(s.k + 1, s.cpu)
  {
    hide Ok, Ahead, LineRun, Agrees, Keeps;
    OkValid(w);
    Head(w, s, code);
    t := Mach(s.k + 1, s.cpu);
    AddrNext(w.p, s.k);
    RunZero(w.p, t);
    FirstThen(w.p, s, t, 0, t);
    Moved(w, m, p, s, t);
  }

  // A safe point, stub or not: the machine gets past it with memory, stack
  // pointer and frame base as they were.
  lemma SafeStep(w: World, m: Mem, p: int, s: Mach, code: seq<Line>, c: nat) returns (n: nat, t: Mach)
    requires Ok(w) && Inv(w, m, p, s) && Ahead(w, s, code) && |code| > 0 && code[0] == Label(Poll(c)) && Room(w.env, p)
    ensures n > 0 && Arrived(w, m, m, p, s, n, t, s.k + 1) && Inv(w, m, p, t) && t.k == s.k + 1 && Ahead(w, t, code[1..])
  {
    hide Ok, Ahead, LineRun, Agrees, Keeps, SafePoint;
    OkValid(w);
    OkLines(w);
    Head(w, s, code);
    if w.p.poll {
      n, t := SafeStub(w, m, p, s, c);
    } else {
      t := Mach(s.k + 1, s.cpu);
      n := 1;
      AddrNext(w.p, s.k);
      RunZero(w.p, t);
      FirstThen(w.p, s, t, 0, t);
      Moved(w, m, p, s, t);
    }
  }

  // The machine of a safe point after the count: what the stub goes on with.
  lemma SafeStub(w: World, m: Mem, p: int, s: Mach, c: nat) returns (n: nat, t: Mach)
    requires Ok(w) && Inv(w, m, p, s) && w.p.poll && Room(w.env, p)
    requires s.k < |w.p.rows| && w.p.rows[s.k] == Row(w.env.unit, Label(Poll(c)))
    ensures n > 0 && Arrived(w, m, m, p, s, n, t, s.k + 1) && Inv(w, m, p, t) && t.k == s.k + 1
  {
    hide Ok, LineRun, Agrees, Keeps, SafePoint, Total, GoTo, LineSize;
    OkValid(w);
    OkLines(w);
    AddrNext(w.p, s.k);
    AddrMono(w.p, s.k + 1, |w.p.rows|);
    var back := w.p.Addr(s.k + 1);
    var u := PastCount(w, m, p, s, c);
    n := GoToLine(w.p, u, back, s.k + 1);
    t := Mach(s.k + 1, u.(pc := back));
    FirstThen(w.p, s, GoTo(w.p, u, back).value, n, t);
    n := n + 1;
  }

  // Past its stub the safe point has changed neither memory, stack pointer nor
  // frame base.
  lemma PastCount(w: World, m: Mem, p: int, s: Mach, c: nat) returns (u: Cpu)
    requires Ok(w) && Inv(w, m, p, s) && w.p.poll && Room(w.env, p)
    requires s.k < |w.p.rows| && w.p.rows[s.k] == Row(w.env.unit, Label(Poll(c))) && w.p.Addr(s.k + 1) < W
    ensures u.Valid() && u.regs[SP] == s.cpu.regs[SP] && u.regs[R10] == s.cpu.regs[R10]
    ensures LineStep(w.p, s) == GoTo(w.p, u, w.p.Addr(s.k + 1))
    ensures Agrees(w, m, p, u.mem) && Keeps(w, m, p, s.cpu.mem, u.mem)
  {
    hide Ok, LineRun, Agrees, Keeps, Counted, GoTo, Total, LineSize;
    OkValid(w);
    AddrNext(w.p, s.k);
    var back := w.p.Addr(s.k + 1);
    OwnLabel(w, s.k);
    ServedHere(w, s.k);
    assert w.p.Addr(s.k) + POLL_BYTES == back by { PollSize(c); }
    CountedIs(s.cpu, back);
    if Counted(s.cpu, back).la == 0 {
      u := Serviced(w, m, p, s, c);
    } else {
      u := Counted(s.cpu, back);
      KeepsSelf(w, m, p, s.cpu.mem);
    }
  }

  lemma PollSize(c: nat)
    ensures LineSize(Label(Poll(c)), true) == POLL_BYTES
  {
  }

  // The safe point that calls __sp_poll.
  lemma Serviced(w: World, m: Mem, p: int, s: Mach, c: nat) returns (u: Cpu)
    requires Ok(w) && Inv(w, m, p, s) && w.p.poll && Room(w.env, p)
    requires s.k < |w.p.rows| && w.p.rows[s.k] == Row(w.env.unit, Label(Poll(c))) && w.p.Addr(s.k + 1) < W
    requires w.p.Addr(s.k) + POLL_BYTES == w.p.Addr(s.k + 1) && Counted(s.cpu, w.p.Addr(s.k + 1)).la == 0
    ensures u.Valid() && u.regs[SP] == s.cpu.regs[SP] && u.regs[R10] == s.cpu.regs[R10]
    ensures LineStep(w.p, s) == GoTo(w.p, u, w.p.Addr(s.k + 1))
    ensures Agrees(w, m, p, u.mem) && Keeps(w, m, p, s.cpu.mem, u.mem)
  {
    hide Ok, LineRun, Agrees, Keeps, Counted, Write, Read, GoTo, Restored, Total, LineSize, LineStep, SafePoint, Resolve, ServedAt, AtService;
    OkValid(w);
    var back := w.p.Addr(s.k + 1);
    OwnLabel(w, s.k);
    ServedHere(w, s.k);
    ServedVal(w.p, s.k);
    var d := Counted(s.cpu, back);
    CountedIs(s.cpu, back);
    PushAgrees(w, m, p, s.cpu.mem, back);
    var mem := Write(s.cpu.mem, p - 4, 4, back).value;
    PopAgrees(w, m, m, p, s.cpu.mem, mem);
    ReadBack(s.cpu.mem, p - 4, back);
    var t := w.p.Val(s.k, SP_POLL).value;
    var e := AtService(d, t, back, mem);
    AtServiceIs(d, t, back, mem);
    ServedReturns(w.p, s.k, t, e);
    u := w.p.host.safe(e);
    RestoredIs(w.p, e, u);
    AgreesAbove(w, m, p, mem, u.mem);
    KeepsAbove(w, m, p, s.cpu.mem, mem, u.mem);
    ServiceLine(w.p, s, w.p.Addr(s.k), w.p.Val(s.k, SP_POLL).value, back, mem, u);
  }

  // What __sp_poll changes below the program is none of its business.
  lemma AgreesAbove(w: World, m: Mem, p: int, a: seq<Byte>, b: seq<Byte>)
    requires Agrees(w, m, p, a) && |a| == |b| && forall i | w.p.host.floor <= i < |a| :: b[i] == a[i]
    ensures Agrees(w, m, p, b)
  {
  }

  lemma KeepsAbove(w: World, m: Mem, p: int, a: seq<Byte>, b: seq<Byte>, c: seq<Byte>)
    requires Keeps(w, m, p, a, b) && |b| == |c| && forall i | w.p.host.floor <= i < |b| :: c[i] == b[i]
    ensures Keeps(w, m, p, a, c)
  {
  }

  lemma AtServiceIs(s: Cpu, t: Word, back: Word, mem: seq<Byte>)
    requires s.Valid() && |mem| == |s.mem|
    ensures var u := AtService(s, t, back, mem); u.Valid() && u.mem == mem && u.pc == t
    ensures var u := AtService(s, t, back, mem); u.regs[SP] == Wrap(s.regs[SP] as int - 4) && u.regs[FP] == s.regs[FP]
  {
  }

  lemma ServedVal(p: Prog, k: nat)
    requires k < |p.rows| && ServedAt(p, k)
    ensures p.Val(k, SP_POLL).Some? && p.Search(p.Val(k, SP_POLL).value, 0).Some?
  {
    hide Resolve, Total;
  }

  lemma ServedReturns(p: Prog, k: nat, t: Word, e: Cpu)
    requires k < |p.rows| && ServedAt(p, k) && p.Val(k, SP_POLL) == Some(t)
    requires e.Valid() && e.pc == t && Read(e.mem, e.regs[SP], 4) == Some(p.Addr(k + 1))
    ensures Restored(p, e, p.host.safe(e))
  {
    hide Resolve, Total, Restored, Reaches, Loaded, Read;
    assert Called(e, t, p.Addr(k + 1));
    assert Returns(p, e);
  }

  lemma ServiceLine(p: Prog, s: Mach, a: Word, t: Word, back: Word, mem: seq<Byte>, u: Cpu)
    requires p.Valid() && s.cpu.Valid() && s.k < |p.rows| && p.rows[s.k].line.Label? && p.rows[s.k].line.sym.Poll? && p.poll
    requires p.Val(s.k, p.rows[s.k].line.sym) == Some(a) && p.Val(s.k, SP_POLL) == Some(t)
    requires a + POLL_BYTES == back && s.cpu.pc == a && Counted(s.cpu, back).la == 0 && s.cpu.regs[SP] >= 4
    requires p.Clear(s.cpu.regs[SP] - 4, 4) && p.Search(t, 0).Some? && Write(s.cpu.mem, s.cpu.regs[SP] - 4, 4, back) == Some(mem)
    requires |mem| == |s.cpu.mem| && u == p.host.safe(AtService(Counted(s.cpu, back), t, back, mem)) && u.Valid() && |u.mem| == |mem|
    ensures LineStep(p, s) == GoTo(p, u, back)
  {
    hide Counted, Write, GoTo, Total, Resolve, AtService;
    CountedIs(s.cpu, back);
    assert Wrap(a + POLL_BYTES) == back;
    assert LineStep(p, s) == SafePoint(p, s);
  }

  lemma KeepsSelf(w: World, m: Mem, p: int, mem: seq<Byte>)
    ensures Keeps(w, m, p, mem, mem)
  {
  }

  lemma OwnLabel(w: World, k: nat)
    requires Ok(w) && k < |w.p.rows| && w.p.rows[k].line.Label? && !w.p.rows[k].line.sym.Number?
    ensures w.p.Val(k, w.p.rows[k].line.sym) == Some(w.p.Addr(k))
  {
    hide LinesOk, FuncsOk, SymsOk, Served;
  }

  lemma ServedHere(w: World, k: nat)
    requires Ok(w) && w.p.poll && k < |w.p.rows| && w.p.rows[k].line.Label? && w.p.rows[k].line.sym.Poll?
    ensures ServedAt(w.p, k)
  {
    hide LinesOk, FuncsOk, SymsOk, LabelsOk, ServedAt;
  }

  // Line i of code that starts at the machine's position is a label.
  lemma LabelOfCode(w: World, k: nat, code: seq<Line>, i: nat, y: Sym)
    requires CodeAt(w.p, w.env.unit, k, code) && i < |code| && code[i] == Label(y) && !y.Number?
    ensures LabelAt(w, k + i, y)
  {
    assert w.p.rows[k + i] == Row(w.env.unit, code[i]);
  }

  // Code from line i on.
  lemma CodeFrom(w: World, k: nat, code: seq<Line>, i: nat, t: Mach)
    requires CodeAt(w.p, w.env.unit, k, code) && i <= |code| && t.k == k + i
    ensures Ahead(w, t, code[i..])
  {
    assert code == code[..i] + code[i..];
    CodeSplit(w.p, w.env.unit, k, code[..i], code[i..]);
  }

  // mov r2, 0; cmp; branch: taken exactly when the test of r1 against zero holds.
  lemma SimTest(w: World, m: Mem, p: int, s: Mach, code: seq<Line>, cc: Cond, y: Sym, k: nat) returns (n: nat, t: Mach)
    requires Ok(w) && Inv(w, m, p, s) && Ahead(w, s, code) && |code| >= 3 && code[..3] == TestCode(cc, y) && LabelAt(w, k, y)
    ensures Arrived(w, m, m, p, s, n, t, if Holds(cc, s.cpu.regs[R1], 0) then k else s.k + 3) && n > 0
    ensures Inv(w, m, p, t) && t.cpu.regs[R1] == s.cpu.regs[R1]
    ensures !Holds(cc, s.cpu.regs[R1], 0) ==> Ahead(w, t, code[3..])
  {
    hide Ok, Ahead, Arrived, Agrees, LabelAt, Holds;
    OkValid(w);
    assert code[0] == code[..3][0] && code[1] == code[..3][1] && code[2] == code[..3][2];
    var t1 := MovIStep(w, m, p, s, code, R2, 0);
    var t2 := CmpStep(w, m, p, t1, code[1..]);
    Onward(w, m, p, s, 1, t1, t2, code[1..]);
    var n3;
    n3, t := BranchStep(w, m, p, t2, code[1..][1..], cc, y, k);
    Then(w, m, m, m, p, s, 2, t2, t2.k, n3, t, t.k) by { ArrivedK(w, m, p, t2, n3, t, if Holds(cc, s.cpu.regs[R1], 0) then k else s.k + 3); }
    ArrivedK(w, m, p, t2, n3, t, if Holds(cc, s.cpu.regs[R1], 0) then k else s.k + 3);
    n := 2 + n3;
    assert code[1..][1..][1..] == code[3..];
  }

  lemma ArrivedK(w: World, m: Mem, p: int, s: Mach, n: nat, t: Mach, k: nat)
    requires w.p.Valid() && s.cpu.Valid() && Arrived(w, m, m, p, s, n, t, k)
    ensures t.k == k
  {
  }

  // gen_compare: r1 becomes 1 when the comparison of r1 with r2 holds, else 0.
  lemma SimCompare(w: World, m: Mem, p: int, s: Mach, cc: Cond, c: nat) returns (n: nat, t: Mach)
    requires Ok(w) && Inv(w, m, p, s) && Ahead(w, s, CompareCode(cc, c).code)
    ensures Arrived(w, m, m, p, s, n, t, s.k + 7)
    ensures t.cpu.regs[R1] == Bool(Holds(cc, s.cpu.regs[R1], s.cpu.regs[R2]))
  {
    hide Ok, Ahead, Arrived, Agrees, LabelAt, Holds;
    OkValid(w);
    var code := CompareCode(cc, c).code;
    assert CodeAt(w.p, w.env.unit, s.k, code) by { AheadCode(w, s, code); }
    LabelOfCode(w, s.k, code, 4, Local(c));
    LabelOfCode(w, s.k, code, 6, Local(c + 1));
    var t1 := CmpStep(w, m, p, s, code);
    var n2, t2 := BranchStep(w, m, p, t1, code[1..], cc, Local(c), s.k + 4);
    ArrivedK(w, m, p, t1, n2, t2, if Holds(cc, t1.cpu.la, t1.cpu.lb) then s.k + 4 else s.k + 2);
    Then(w, m, m, m, p, s, 1, t1, t1.k, n2, t2, t2.k);
    var rest;
    if Holds(cc, s.cpu.regs[R1], s.cpu.regs[R2]) {
      CodeFrom(w, s.k, code, 4, t2);
      rest, t := CompareTrue(w, m, p, t2, code[4..], c);
    } else {
      CodeFrom(w, s.k, code, 2, t2);
      rest, t := CompareFalse(w, m, p, t2, code[2..], c);
    }
    Then(w, m, m, m, p, s, 1 + n2, t2, t2.k, rest, t, s.k + 7);
    n := 1 + n2 + rest;
  }

  lemma CompareTrue(w: World, m: Mem, p: int, s: Mach, code: seq<Line>, c: nat) returns (n: nat, t: Mach)
    requires Ok(w) && Inv(w, m, p, s) && Ahead(w, s, code)
    requires code == [Label(Local(c)), MovI(R1, 1), Label(Local(c + 1))]
    ensures Arrived(w, m, m, p, s, n, t, s.k + 3) && t.cpu.regs[R1] == 1
  {
    hide Ok, Ahead, Arrived, Agrees;
    OkValid(w);
    var t3 := MarkStep(w, m, p, s, code);
    var t4 := MovIStep(w, m, p, t3, code[1..], R1, 1);
    Onward(w, m, p, s, 1, t3, t4, code[1..]);
    t := MarkStep(w, m, p, t4, code[1..][1..]);
    Onward(w, m, p, s, 2, t4, t, code[1..][1..]);
    n := 3;
  }

  lemma CompareFalse(w: World, m: Mem, p: int, s: Mach, code: seq<Line>, c: nat) returns (n: nat, t: Mach)
    requires Ok(w) && Inv(w, m, p, s) && Ahead(w, s, code)
    requires code == [MovI(R1, 0), Jump(Local(c + 1)), Label(Local(c)), MovI(R1, 1), Label(Local(c + 1))]
    ensures Arrived(w, m, m, p, s, n, t, s.k + 5) && t.cpu.regs[R1] == 0
  {
    hide Ok, Ahead, Arrived, Agrees, LabelAt;
    OkValid(w);
    AheadCode(w, s, code);
    LabelOfCode(w, s.k, code, 4, Local(c + 1));
    var t3 := MovIStep(w, m, p, s, code, R1, 0);
    var n4, t4 := JumpStep(w, m, p, t3, code[1..], Local(c + 1), s.k + 4);
    Then(w, m, m, m, p, s, 1, t3, t3.k, n4, t4, s.k + 4);
    CodeFrom(w, s.k, code, 4, t4);
    t := MarkStep(w, m, p, t4, code[4..]);
    Onward(w, m, p, s, 1 + n4, t4, t, code[4..]);
    n := 2 + n4;
  }

  lemma AheadCode(w: World, s: Mach, code: seq<Line>)
    requires Ahead(w, s, code)
    ensures CodeAt(w.p, w.env.unit, s.k, code)
  {
  }
}
