// Running a linked text section line by line, and the proof that the emulator
// running its bytes does the same: the branch, jump and call stubs behave as
// direct transfers (symcc/src/link_image.c, emu/emu.c).
module Machine {
  import opened Words
  import opened Isa
  import opened Emu
  import opened Asm
  import opened Link

  // The system a program runs under.  Memory below floor is the system's; fine
  // says that it is in order; safe says how the machine comes back when a safe
  // point has called __sp_poll.
  datatype Host = Host(floor: nat, fine: seq<Byte> -> bool, safe: Cpu -> Cpu)

  // A linked text section and the address of the low gate, which holds
  // `jmp r13`.  With poll on, safe-point labels are stubs.
  datatype Prog = Prog(rows: seq<Row>, base: nat, syms: seq<ImageSym>, gate: Word, poll: bool, host: Host) {
    predicate Valid() {
      && gate + 4 <= base && gate < 0x1_0000 && host.floor <= base
      && End() < W
    }

    function Addr(k: nat): nat
      requires k <= |rows|
    {
      base + Total(TextSec(poll), rows[..k])
    }

    function End(): nat {
      Addr(|rows|)
    }

    function Val(k: nat, s: Sym): Option<Word>
      requires k < |rows|
    {
      Resolve(syms, s, rows[k].owner)
    }

    // A store of n bytes at a that leaves the code, the gate and the system alone.
    predicate Clear(a: nat, n: nat) {
      host.floor <= a && (a + n <= gate || gate + 4 <= a) && (a + n <= base || End() <= a)
    }

    // The first line at or after k standing at address t.
    function Search(t: nat, k: nat): Option<nat>
      requires k <= |rows|
      decreases |rows| - k
    {
      if Addr(k) == t then Some(k) else if k == |rows| then None else Search(t, k + 1)
    }
  }

  datatype Mach = Mach(k: nat, cpu: Cpu)

  // ---- one line ----

  predicate Straight(i: Insn) {
    !i.JmpR? && !i.JmpI? && !i.Jcc? && !i.OutI?
  }

  predicate StoreOk(p: Prog, i: Insn, s: Cpu)
    requires s.Valid()
  {
    match i
    case StoreR(w, c, _) => w.Disk? || p.Clear(s.regs[c], WidthBytes(w))
    case StoreI(w, n, _) => w.Disk? || p.Clear(n, WidthBytes(w))
    case _ => true
  }

  // Straight-line instructions that do not touch the code.
  function ExecAll(p: Prog, insns: seq<Insn>, s: Cpu): (r: Option<Cpu>)
    requires s.Valid()
    ensures r.Some? ==> r.value.Valid() && |r.value.mem| == |s.mem|
    decreases |insns|
  {
    if |insns| == 0 then Some(s)
    else if !Straight(insns[0]) || !StoreOk(p, insns[0], s) || !Exec(insns[0], s).Next? then None
    else ExecAll(p, insns[1..], Exec(insns[0], s).s)
  }

  function GoOn(p: Prog, m: Mach, insns: seq<Insn>): (r: Option<Mach>)
    requires m.cpu.Valid()
    ensures r.Some? ==> r.value.cpu.Valid() && |r.value.cpu.mem| == |m.cpu.mem|
  {
    match ExecAll(p, insns, m.cpu)
    case None => None
    case Some(t) => Some(Mach(m.k + 1, t))
  }

  // Transfer to address t, which must be where some line stands.
  function GoTo(p: Prog, s: Cpu, t: Word): (r: Option<Mach>)
    requires s.Valid()
    ensures r.Some? ==> r.value.cpu.Valid() && |r.value.cpu.mem| == |s.mem|
  {
    match p.Search(t, 0)
    case None => None
    case Some(k) => Some(Mach(k, s.(pc := t)))
  }

  // A safe point: r12 counts the points passed.  All but every 4096th only go
  // on; that one calls __sp_poll.
  function Counted(s: Cpu, skip: Word): (t: Cpu)
    requires s.Valid()
    ensures t.Valid() && t.mem == s.mem
  {
    var c := BitOp(And, Wrap(s.regs[R12] as int + 1), 4095);
    s.(regs := s.regs[R12 := c][R13 := skip], la := c, lb := 0)
  }

  // __sp_poll about to run: the return address pushed.
  function AtService(s: Cpu, t: Word, back: Word, mem: seq<Byte>): (u: Cpu)
    requires s.Valid() && |mem| == |s.mem|
    ensures u.Valid() && u.mem == mem
  {
    var sp := Wrap(s.regs[SP] as int - 4);
    s.(regs := s.regs[FLAGS := back][SP := sp][R13 := t], mem := mem, pc := t)
  }

  function SafePoint(p: Prog, m: Mach): (r: Option<Mach>)
    requires p.Valid() && m.cpu.Valid() && m.k < |p.rows| && p.rows[m.k].line.Label?
    ensures r.Some? ==> r.value.cpu.Valid() && |r.value.cpu.mem| == |m.cpu.mem|
  {
    match (p.Val(m.k, p.rows[m.k].line.sym), p.Val(m.k, SP_POLL))
    case (Some(a), Some(t)) =>
      var s := Counted(m.cpu, Wrap(a + POLL_BYTES));
      var sp, back := Wrap(s.regs[SP] as int - 4), Wrap(s.pc + POLL_BYTES);
      if s.la != 0 then GoTo(p, s, Wrap(a + POLL_BYTES))
      else if !p.Clear(sp, 4) || p.Search(t, 0).None? || Write(s.mem, sp, 4, back).None? then None
      else
        var u := p.host.safe(AtService(s, t, back, Write(s.mem, sp, 4, back).value));
        if !u.Valid() || |u.mem| != |s.mem| then None else GoTo(p, u, back)
    case _ => None
  }

  // The direct meaning of a line.  Branches, jumps and calls set r13 to their
  // target and go there; nothing else about the stubs is visible.
  function LineStep(p: Prog, m: Mach): (r: Option<Mach>)
    requires p.Valid() && m.cpu.Valid()
    ensures r.Some? ==> r.value.cpu.Valid() && |r.value.cpu.mem| == |m.cpu.mem|
  {
    if m.k >= |p.rows| then None
    else
      var s := m.cpu;
      match p.rows[m.k].line
      case Label(y) => if y.Poll? && p.poll then SafePoint(p, m) else Some(Mach(m.k + 1, s))
      case Note => Some(Mach(m.k + 1, s))
      case Op(i) =>
        if i.JmpR? then (if s.regs[i.c] == s.pc then None else GoTo(p, s, s.regs[i.c]))
        else GoOn(p, m, [i])
      case OpI(op, a, b, n) => if n < 0x1_0000 then GoOn(p, m, [AluI(op, a, b, n)]) else None
      case OpSym(op, a, b, half, y) =>
        (match p.Val(m.k, y)
         case None => None
         case Some(v) =>
           match HalfOf(half, v)
           case None => None
           case Some(n) => GoOn(p, m, [AluI(op, a, b, n)]))
      case Push(x) => GoOn(p, m, PushWords(x))
      case Pop(x) => GoOn(p, m, PopWords(x))
      case Ret =>
        (match Read(s.mem, s.regs[SP], 4)
         case None => None
         case Some(t) =>
           var sp: int := s.regs[SP];
           GoTo(p, s.(regs := s.regs[FLAGS := t][SP := Wrap(sp + 4)]), t))
      case Jump(y) =>
        (match p.Val(m.k, y)
         case None => None
         case Some(t) => GoTo(p, s.(regs := s.regs[R13 := t]), t))
      case Branch(cc, y) =>
        (match p.Val(m.k, y)
         case None => None
         case Some(t) =>
           var s' := s.(regs := s.regs[R13 := t]);
           if Holds(cc, s.la, s.lb) then GoTo(p, s', t) else Some(Mach(m.k + 1, s'.(pc := s.pc + 16))))
      case CallTo(y) =>
        (match p.Val(m.k, y)
         case None => None
         case Some(t) =>
           var top: int := s.regs[SP];
           var sp := Wrap(top - 4);
           var back := Wrap(s.pc + 32);
           if !p.Clear(sp, 4) then None
           else match Write(s.mem, sp, 4, back)
             case None => None
             case Some(mem) => GoTo(p, s.(regs := s.regs[FLAGS := back][SP := sp][R13 := t], mem := mem), t))
      case _ => None
  }

  // n lines.
  function LineRun(p: Prog, m: Mach, n: nat): (r: Option<Mach>)
    requires p.Valid() && m.cpu.Valid()
    ensures r.Some? ==> r.value.cpu.Valid() && |r.value.cpu.mem| == |m.cpu.mem|
    decreases n
  {
    if n == 0 then Some(m)
    else match LineStep(p, m)
      case None => None
      case Some(m') => LineRun(p, m', n - 1)
  }

  lemma {:induction false} LineRunAdd(p: Prog, m: Mach, a: nat, b: nat)
    requires p.Valid() && m.cpu.Valid() && LineRun(p, m, a).Some?
    ensures LineRun(p, m, a + b) == LineRun(p, LineRun(p, m, a).value, b)
    decreases a
  {
    hide LineStep;
    if a > 0 {
      LineRunAdd(p, LineStep(p, m).value, a - 1, b);
    }
  }

  // ---- addresses ----

  lemma AddrNext(p: Prog, k: nat)
    requires k < |p.rows|
    ensures p.Addr(k + 1) == p.Addr(k) + LineSize(p.rows[k].line, p.poll)
  {
    hide LineSize;
    assert p.rows[..k + 1] == p.rows[..k] + [p.rows[k]];
    TotalSnoc(TextSec(p.poll), p.rows[..k], p.rows[k]);
  }

  lemma {:induction false} AddrMono(p: Prog, j: nat, k: nat)
    requires j <= k <= |p.rows|
    ensures p.base <= p.Addr(j) <= p.Addr(k) <= p.End()
    decreases |p.rows| - j
  {
    hide LineSize, Total;
    assert p.rows[..k][..j] == p.rows[..j];
    TotalPrefix(TextSec(p.poll), p.rows[..k], j);
    TotalPrefix(TextSec(p.poll), p.rows, k);
    assert p.rows[..|p.rows|] == p.rows;
  }

  lemma {:induction false} SearchFinds(p: Prog, t: nat, j: nat, k: nat)
    requires j <= k <= |p.rows| && p.Addr(k) == t
    ensures p.Search(t, j).Some? && j <= p.Search(t, j).value <= k
    ensures p.Addr(p.Search(t, j).value) == t
    decreases k - j
  {
    if p.Addr(j) != t {
      SearchFinds(p, t, j + 1, k);
    }
  }

  lemma {:induction false} SearchSound(p: Prog, t: nat, j: nat)
    requires j <= |p.rows| && p.Search(t, j).Some?
    ensures j <= p.Search(t, j).value <= |p.rows| && p.Addr(p.Search(t, j).value) == t
    decreases |p.rows| - j
  {
    if p.Addr(j) != t {
      SearchSound(p, t, j + 1);
    }
  }

  // No line stands strictly inside another.
  lemma NotInside(p: Prog, j: nat, k: nat)
    requires j <= |p.rows| && k < |p.rows|
    ensures p.Addr(j) <= p.Addr(k) || p.Addr(k) + LineSize(p.rows[k].line, p.poll) <= p.Addr(j)
  {
    hide LineSize, Total;
    if j <= k {
      AddrMono(p, j, k);
    } else {
      AddrNext(p, k);
      AddrMono(p, k + 1, j);
    }
  }

  // ---- the bytes in memory ----

  function InsnAt(mem: seq<Byte>, a: nat, i: Insn): bool {
    Read(mem, a, 4) == Some(Encode(i))
  }

  ghost predicate InsnsAt(mem: seq<Byte>, a: nat, insns: seq<Insn>) {
    forall j | 0 <= j < |insns| :: InsnAt(mem, a + 4 * j, insns[j])
  }

  // Every line is in memory as the linker wrote it, the gate is in place and
  // the system below is in order.
  ghost predicate Loaded(p: Prog, mem: seq<Byte>) {
    && (forall k | 0 <= k < |p.rows| :: RowLoaded(p, mem, k))
    && InsnAt(mem, p.gate, JmpR(R13))
    && p.End() <= |mem| && HostFine(p, mem)
  }

  ghost predicate HostFine(p: Prog, mem: seq<Byte>) {
    p.host.floor <= |mem| && p.host.fine(mem[..p.host.floor])
  }

  ghost predicate RowLoaded(p: Prog, mem: seq<Byte>, k: nat)
    requires k < |p.rows|
  {
    match Emit(p.rows[k], p.syms, p.poll, p.gate)
    case None => false
    case Some(e) => e.Code? ==> InsnsAt(mem, p.Addr(k), e.insns)
  }

  // __sp_poll returns to where it was called from, with the program's memory,
  // stack pointer and frame base as they were; every other register and the
  // system's memory may change.
  ghost predicate Restored(p: Prog, s: Cpu, u: Cpu)
    requires s.Valid()
  {
    && u.Valid() && Read(s.mem, s.regs[SP], 4) == Some(u.pc) && u.regs[SP] == Wrap(s.regs[SP] as int + 4)
    && u.regs[FP] == s.regs[FP] && |u.mem| == |s.mem|
    && forall a | p.host.floor <= a < |s.mem| :: u.mem[a] == s.mem[a]
  }

  const FP: Reg := 10

  ghost predicate Reaches(s: Cpu, u: Cpu)
    requires s.Valid()
  {
    exists n: nat :: Run(s, n) == Next(u)
  }

  // What a program with safe points takes __sp_poll to do.
  ghost predicate Served(p: Prog) {
    p.poll ==> forall k | 0 <= k < |p.rows| && p.rows[k].line.Label? && p.rows[k].line.sym.Poll? :: ServedAt(p, k)
  }

  // The machine is at t, the address `back` on its stack.
  ghost predicate Called(s: Cpu, t: Word, back: nat)
    requires s.Valid()
  {
    s.pc == t && Read(s.mem, s.regs[SP], 4) == Some(back)
  }

  // With the program in memory and the system in order, the machine gets from
  // s to safe(s), and they still are.
  ghost predicate Returns(p: Prog, s: Cpu)
    requires s.Valid()
  {
    Restored(p, s, p.host.safe(s)) && (Loaded(p, s.mem) ==> Reaches(s, p.host.safe(s)) && Loaded(p, p.host.safe(s).mem))
  }

  ghost predicate ServedAt(p: Prog, k: nat)
    requires k < |p.rows|
  {
    match p.Val(k, SP_POLL)
    case None => false
    case Some(t) =>
      && p.Search(t, 0).Some? && p.Addr(k + 1) < W
      && forall s: Cpu :: s.Valid() && Called(s, t, p.Addr(k + 1)) ==> Returns(p, s)
  }

  // ---- executing instructions from memory ----

  lemma FetchesInsn(s: Cpu, i: Insn)
    requires s.Valid() && InsnAt(s.mem, s.pc, i) && !i.OutI?
    ensures Step(s) == Exec(i, s)
  {
    hide Exec, Encode, Decode, Read;
    DecodeUndoesEncode(i);
  }

  lemma RunOne(s: Cpu, i: Insn)
    requires s.Valid() && InsnAt(s.mem, s.pc, i) && !i.OutI? && Exec(i, s).Next?
    ensures Run(s, 1) == Exec(i, s)
  {
    hide Exec, Step, InsnAt;
    FetchesInsn(s, i);
    assert Run(Step(s).s, 0) == Next(Step(s).s);
  }

  lemma StraightPc(i: Insn, s: Cpu)
    requires s.Valid() && Straight(i) && Exec(i, s).Next?
    ensures Exec(i, s).s.pc == s.pc + 4
  {
    hide Alu, Read, Write, Holds, SetReg;
  }

  // A store outside the code leaves every code word in place.
  lemma StoreKeepsWord(p: Prog, i: Insn, s: Cpu, a: nat, j: Insn)
    requires s.Valid() && StoreOk(p, i, s) && Exec(i, s).Next?
    requires (p.base <= a && a + 4 <= p.End()) || a == p.gate
    requires InsnAt(s.mem, a, j)
    ensures InsnAt(Exec(i, s).s.mem, a, j)
  {
    hide Alu, Encode, Holds, SetReg, Decode;
    match i
    case StoreR(w, c, b) =>
      if !w.Disk? {
        WriteElsewhere(s.mem, s.regs[c], WidthBytes(w), s.regs[b], a);
      }
    case StoreI(w, n, b) =>
      if !w.Disk? {
        WriteElsewhere(s.mem, n, WidthBytes(w), s.regs[b], a);
      }
    case _ =>
  }

  lemma WriteElsewhere(m: seq<Byte>, at: nat, n: nat, v: Word, a: nat)
    requires n == 1 || n == 2 || n == 4
    requires Write(m, at, n, v).Some? && (at + n <= a || a + 4 <= at)
    ensures Read(Write(m, at, n, v).value, a, 4) == Read(m, a, 4)
  {
    hide Be32, ByteAt;
  }

  lemma StoreKeepsCode(p: Prog, i: Insn, s: Cpu, a: nat, insns: seq<Insn>)
    requires s.Valid() && StoreOk(p, i, s) && Exec(i, s).Next?
    requires p.base <= a && a + 4 * |insns| <= p.End()
    requires InsnsAt(s.mem, a, insns)
    ensures InsnsAt(Exec(i, s).s.mem, a, insns)
  {
    hide Exec, StoreOk, InsnAt;
    forall j | 0 <= j < |insns| ensures InsnAt(Exec(i, s).s.mem, a + 4 * j, insns[j]) {
      StoreKeepsWord(p, i, s, a + 4 * j, insns[j]);
    }
  }

  lemma EmitSize(r: Row, syms: seq<ImageSym>, poll: bool, gate: Word)
    requires Emit(r, syms, poll, gate).Some?
    ensures Size(Emit(r, syms, poll, gate).value) == LineSize(r.line, poll)
  {
    hide Emit, LineSize, Size;
    SizeAgrees(TextSec(poll), r, syms, poll, gate);
  }

  lemma StepKeepsLoaded(p: Prog, i: Insn, s: Cpu)
    requires p.Valid() && s.Valid() && StoreOk(p, i, s) && Exec(i, s).Next? && Loaded(p, s.mem)
    ensures Loaded(p, Exec(i, s).s.mem)
  {
    hide Exec, StoreOk, InsnAt, Emit, Total, InsnsAt, LineSize, HostFine;
    forall k | 0 <= k < |p.rows| ensures RowLoaded(p, Exec(i, s).s.mem, k) {
      assert RowLoaded(p, s.mem, k);
      var e := Emit(p.rows[k], p.syms, p.poll, p.gate).value;
      if e.Code? {
        EmitSize(p.rows[k], p.syms, p.poll, p.gate);
        AddrNext(p, k);
        AddrMono(p, k, k + 1);
        StoreKeepsCode(p, i, s, p.Addr(k), e.insns);
      }
    }
    StoreKeepsWord(p, i, s, p.gate, JmpR(R13));
    StoreKeepsHost(p, i, s);
  }

  lemma StoreKeepsHost(p: Prog, i: Insn, s: Cpu)
    requires s.Valid() && StoreOk(p, i, s) && Exec(i, s).Next? && HostFine(p, s.mem)
    ensures HostFine(p, Exec(i, s).s.mem)
  {
    hide Alu, Encode, Holds, SetReg, Decode, ByteAt, Be32;
    assert p.host.floor <= |s.mem|;
    assert Exec(i, s).s.mem[..p.host.floor] == s.mem[..p.host.floor];
  }

  // Straight-line code runs instruction by instruction.
  lemma {:induction false} RunStraight(p: Prog, insns: seq<Insn>, s: Cpu)
    requires p.Valid() && s.Valid() && Loaded(p, s.mem) && InsnsAt(s.mem, s.pc, insns)
    requires p.base <= s.pc && s.pc + 4 * |insns| <= p.End()
    requires ExecAll(p, insns, s).Some?
    ensures Run(s, |insns|) == Next(ExecAll(p, insns, s).value)
    ensures Loaded(p, ExecAll(p, insns, s).value.mem)
    ensures ExecAll(p, insns, s).value.pc == s.pc + 4 * |insns|
    decreases |insns|
  {
    hide Exec, StoreOk, Step, Straight, Loaded, InsnAt;
    if |insns| > 0 {
      var i := insns[0];
      var t := Exec(i, s).s;
      assert InsnAt(s.mem, s.pc + 4 * 0, i);
      StraightNotOut(i);
      RunOne(s, i);
      StraightPc(i, s);
      StepKeepsLoaded(p, i, s);
      StoreKeepsCode(p, i, s, s.pc, insns);
      forall j | 0 <= j < |insns[1..]| ensures InsnAt(t.mem, t.pc + 4 * j, insns[1..][j]) {
        assert InsnAt(t.mem, s.pc + 4 * (j + 1), insns[j + 1]);
      }
      RunStraight(p, insns[1..], t);
      RunAdd(s, 1, |insns| - 1);
    }
  }

  lemma StraightNotOut(i: Insn)
    requires Straight(i)
    ensures !i.OutI?
  {
  }

  // ---- the stubs ----

  // target leaves the address in r13 and changes nothing else.
  lemma TargetLoads(p: Prog, s: Cpu, t: Word)
    requires s.Valid()
    ensures ExecAll(p, Target(t), s) == Some(s.(regs := s.regs[R13 := t], pc := s.pc + 12))
  {
    hide BitOp, Lsl;
    var hi, lo := t / 0x1_0000, t % 0x1_0000;
    OrZero(hi);
    HalvesJoin(hi, lo);
    var insns := Target(t);
    var s1 := s.(regs := s.regs[R13 := hi], pc := s.pc + 4);
    var s2 := s.(regs := s.regs[R13 := Lsl(hi, 16)], pc := s.pc + 8);
    var s3 := s.(regs := s.regs[R13 := t], pc := s.pc + 12);
    assert Exec(insns[0], s) == Next(s1);
    assert s1.regs[R13 := Lsl(hi, 16)] == s2.regs;
    assert Exec(insns[1], s1) == Next(s2);
    assert s2.regs[R13 := t] == s3.regs;
    assert Exec(insns[2], s2) == Next(s3);
    ExecThree(p, insns, s, s1, s2, s3);
  }

  lemma ExecThree(p: Prog, insns: seq<Insn>, s: Cpu, s1: Cpu, s2: Cpu, s3: Cpu)
    requires |insns| == 3 && s.Valid() && s1.Valid() && s2.Valid()
    requires forall i | i in insns :: Straight(i) && !i.StoreR? && !i.StoreI?
    requires Exec(insns[0], s) == Next(s1) && Exec(insns[1], s1) == Next(s2) && Exec(insns[2], s2) == Next(s3)
    ensures ExecAll(p, insns, s) == Some(s3)
  {
    hide Exec;
    assert insns[1..][0] == insns[1] && insns[1..][1..][0] == insns[2];
    assert insns[1..][1..][1..] == [];
    assert ExecAll(p, insns[1..][1..], s2) == Some(s3);
    assert ExecAll(p, insns[1..], s1) == Some(s3);
  }

  // The machine is where the line machine says it is, with its code in place.
  ghost predicate At(p: Prog, m: Mach) {
    p.Valid() && m.cpu.Valid() && m.k <= |p.rows| && m.cpu.pc == p.Addr(m.k) && Loaded(p, m.cpu.mem)
  }

  lemma CodeOf(p: Prog, m: Mach, e: Emitted)
    requires At(p, m) && m.k < |p.rows| && Emit(p.rows[m.k], p.syms, p.poll, p.gate) == Some(e) && e.Code?
    ensures InsnsAt(m.cpu.mem, m.cpu.pc, e.insns)
    ensures p.base <= m.cpu.pc && m.cpu.pc + 4 * |e.insns| == p.Addr(m.k + 1) <= p.End()
  {
    hide Emit, LineSize, Total, InsnsAt, Loaded, RowLoaded;
    LoadedRow(p, m.cpu.mem, m.k, e.insns);
    EmitSize(p.rows[m.k], p.syms, p.poll, p.gate);
    AddrNext(p, m.k);
    AddrMono(p, m.k, m.k + 1);
  }

  // A line that expands to straight code.
  lemma StraightLine(p: Prog, m: Mach, insns: seq<Insn>) returns (n: nat)
    requires At(p, m) && m.k < |p.rows| && Emit(p.rows[m.k], p.syms, p.poll, p.gate) == Some(Code(insns))
    requires GoOn(p, m, insns).Some?
    ensures Run(m.cpu, n) == Next(GoOn(p, m, insns).value.cpu) && At(p, GoOn(p, m, insns).value)
    ensures n == |insns|
  {
    hide Emit, ExecAll, Loaded, InsnsAt, Total, Run;
    CodeOf(p, m, Code(insns));
    RunStraight(p, insns, m.cpu);
    n := |insns|;
  }

  // The first instructions of a stub, then its final jump.
  lemma StubFront(p: Prog, m: Mach, front: seq<Insn>, last: Insn, t: Cpu)
    requires At(p, m) && m.k < |p.rows| && Emit(p.rows[m.k], p.syms, p.poll, p.gate) == Some(Code(front + [last]))
    requires ExecAll(p, front, m.cpu) == Some(t)
    ensures Run(m.cpu, |front|) == Next(t) && Loaded(p, t.mem)
    ensures t.pc == m.cpu.pc + 4 * |front| && InsnAt(t.mem, t.pc, last)
    ensures t.pc + 4 == p.Addr(m.k + 1)
  {
    hide Emit, ExecAll, Loaded, InsnAt, Total, Run;
    CodeOf(p, m, Code(front + [last]));
    forall j | 0 <= j < |front| ensures InsnAt(m.cpu.mem, m.cpu.pc + 4 * j, front[j]) {
      assert (front + [last])[j] == front[j];
    }
    RunStraight(p, front, m.cpu);
    LoadedRow(p, t.mem, m.k, front + [last]);
    assert (front + [last])[|front|] == last;
    assert InsnAt(t.mem, p.Addr(m.k) + 4 * |front|, (front + [last])[|front|]);
  }

  lemma LoadedRow(p: Prog, mem: seq<Byte>, k: nat, insns: seq<Insn>)
    requires Loaded(p, mem) && k < |p.rows| && Emit(p.rows[k], p.syms, p.poll, p.gate) == Some(Code(insns))
    ensures InsnsAt(mem, p.Addr(k), insns)
  {
    hide Emit, InsnsAt, Total;
    assert RowLoaded(p, mem, k);
  }

  // jmp r at the end of a stub, to where some line stands.
  lemma StubJump(p: Prog, t: Cpu, r: Reg, k: nat)
    requires p.Valid() && t.Valid() && Loaded(p, t.mem) && InsnAt(t.mem, t.pc, JmpR(r))
    requires k < |p.rows| && p.Addr(k) < t.pc && t.pc + 4 == p.Addr(k + 1)
    requires GoTo(p, t, t.regs[r]).Some?
    ensures Run(t, 1) == Next(GoTo(p, t, t.regs[r]).value.cpu) && At(p, GoTo(p, t, t.regs[r]).value)
  {
    hide InsnAt, Loaded, Total, LineSize;
    var target := t.regs[r];
    SearchSound(p, target, 0);
    var j := p.Search(target, 0).value;
    NotInside(p, j, k);
    AddrNext(p, k);
    AddrMono(p, k + 1, |p.rows|);
    assert target != t.pc;
    assert Wrap(t.pc) == t.pc;
    RunOne(t, JmpR(r));
  }

  lemma JumpStub(p: Prog, m: Mach, y: Sym) returns (n: nat)
    requires At(p, m) && m.k < |p.rows| && p.rows[m.k].line == Jump(y) && LineStep(p, m).Some?
    ensures n == 4 && Run(m.cpu, n) == Next(LineStep(p, m).value.cpu) && At(p, LineStep(p, m).value)
  {
    hide Target, Loaded, InsnAt, Total, Run, ExecAll;
    var t := p.Val(m.k, y).value;
    var s' := m.cpu.(regs := m.cpu.regs[R13 := t], pc := m.cpu.pc + 12);
    TargetLoads(p, m.cpu, t);
    StubFront(p, m, Target(t), JmpR(R13), s');
    StubJump(p, s', R13, m.k);
    RunAdd(m.cpu, 3, 1);
    n := 4;
  }

  // Not taken, the conditional falls through; taken, it goes through the gate.
  lemma BranchStub(p: Prog, m: Mach, cc: Cond, y: Sym) returns (n: nat)
    requires At(p, m) && m.k < |p.rows| && p.rows[m.k].line == Branch(cc, y) && LineStep(p, m).Some?
    ensures n > 0 && Run(m.cpu, n) == Next(LineStep(p, m).value.cpu) && At(p, LineStep(p, m).value)
  {
    hide Target, InsnAt, Total, Run, ExecAll, Holds, LineSize, RowLoaded;
    var t := p.Val(m.k, y).value;
    var s' := m.cpu.(regs := m.cpu.regs[R13 := t], pc := m.cpu.pc + 12);
    TargetLoads(p, m.cpu, t);
    StubFront(p, m, Target(t), Jcc(cc, p.gate), s');
    AddrMono(p, m.k, m.k + 1);
    RunOne(s', Jcc(cc, p.gate)) by { assert s'.pc > p.gate; }
    RunAdd(m.cpu, 3, 1);
    if Holds(cc, m.cpu.la, m.cpu.lb) {
      var g := s'.(pc := p.gate);
      SearchSound(p, t, 0);
      AddrMono(p, p.Search(t, 0).value, |p.rows|);
      RunOne(g, JmpR(R13));
      RunAdd(m.cpu, 4, 1);
      n := 5;
    } else {
      n := 4;
    }
  }

  // The call stub's first four instructions push the address after the call.
  lemma CallFront(p: Prog, s: Cpu, t: Word)
    requires s.Valid() && s.pc < W
    requires p.Clear(Wrap(s.regs[SP] as int - 4), 4)
    requires Write(s.mem, Wrap(s.regs[SP] as int - 4), 4, Wrap(s.pc + 32)).Some?
    ensures var sp := Wrap(s.regs[SP] as int - 4);
            var back := Wrap(s.pc + 32);
            ExecAll(p, [Counter(FLAGS), AluI(AAdd, FLAGS, FLAGS, 32), AluI(ASub, SP, SP, 4), StoreR(B32, SP, FLAGS)] + Target(t), s)
            == Some(s.(regs := s.regs[FLAGS := back][SP := sp][R13 := t], mem := Write(s.mem, sp, 4, back).value, pc := s.pc + 28))
  {
    hide Write, Target, BitOp;
    var sp := Wrap(s.regs[SP] as int - 4);
    var back := Wrap(s.pc + 32);
    var front := [Counter(FLAGS), AluI(AAdd, FLAGS, FLAGS, 32), AluI(ASub, SP, SP, 4), StoreR(B32, SP, FLAGS)];
    var s1 := s.(regs := s.regs[FLAGS := Wrap(s.pc)], pc := s.pc + 4);
    var s2 := s.(regs := s.regs[FLAGS := back], pc := s.pc + 8);
    var s3 := s.(regs := s.regs[FLAGS := back][SP := sp], pc := s.pc + 12);
    var s4 := s3.(mem := Write(s.mem, sp, 4, back).value, pc := s.pc + 16);
    assert Exec(front[0], s) == Next(s1);
    assert s1.regs[FLAGS := back] == s2.regs;
    assert Exec(front[1], s1) == Next(s2);
    assert Exec(front[2], s2) == Next(s3);
    assert Exec(front[3], s3) == Next(s4);
    ExecThree(p, front[..3], s, s1, s2, s3);
    ExecAppend(p, front[..3], [front[3]], s);
    assert front[..3] + [front[3]] == front;
    ExecOne(p, front[3], s3, s4);
    ExecAppend(p, front, Target(t), s);
    TargetLoads(p, s4, t);
  }

  lemma ExecOne(p: Prog, i: Insn, s: Cpu, t: Cpu)
    requires s.Valid() && Straight(i) && StoreOk(p, i, s) && Exec(i, s) == Next(t)
    ensures ExecAll(p, [i], s) == Some(t)
  {
    hide Exec;
    assert [i][1..] == [];
  }

  lemma {:induction false} ExecAppend(p: Prog, a: seq<Insn>, b: seq<Insn>, s: Cpu)
    requires s.Valid() && ExecAll(p, a, s).Some?
    ensures ExecAll(p, a + b, s) == ExecAll(p, b, ExecAll(p, a, s).value)
    decreases |a|
  {
    hide Exec, StoreOk, Straight;
    if |a| == 0 {
      assert a + b == b;
    } else {
      assert (a + b)[0] == a[0] && (a + b)[1..] == a[1..] + b;
      ExecAppend(p, a[1..], b, Exec(a[0], s).s);
    }
  }

  // The call stub pushes the address of the next line and goes to the target.
  lemma CallStubRuns(p: Prog, m: Mach, y: Sym) returns (n: nat)
    requires At(p, m) && m.k < |p.rows| && p.rows[m.k].line == CallTo(y) && LineStep(p, m).Some?
    ensures n == 8 && Run(m.cpu, n) == Next(LineStep(p, m).value.cpu) && At(p, LineStep(p, m).value)
  {
    hide Target, Loaded, InsnAt, Total, Run, ExecAll, Write, LineSize;
    var t := p.Val(m.k, y).value;
    var front := [Counter(FLAGS), AluI(AAdd, FLAGS, FLAGS, 32), AluI(ASub, SP, SP, 4), StoreR(B32, SP, FLAGS)];
    AddrMono(p, m.k, |p.rows|);
    CallFront(p, m.cpu, t);
    var s' := ExecAll(p, front + Target(t), m.cpu).value;
    StubFront(p, m, front + Target(t), JmpR(R13), s');
    StubJump(p, s', R13, m.k);
    RunAdd(m.cpu, 7, 1);
    n := 8;
  }

  // The count: three instructions and the load of the address to skip to.
  lemma CountRuns(p: Prog, s: Cpu, skip: Word)
    requires s.Valid()
    ensures ExecAll(p, PollCount(skip), s) == Some(Counted(s, skip).(pc := s.pc + 24))
  {
    hide BitOp, Target;
    var front := [AluI(AAdd, R12, R12, 1), AluI(AAnd, R12, R12, 4095), CmpI(R12, 0)];
    var c := Counted(s, skip);
    var s1 := s.(regs := s.regs[R12 := Wrap(s.regs[R12] as int + 1)], pc := s.pc + 4);
    var s2 := s.(regs := s.regs[R12 := c.la], pc := s.pc + 8);
    var s3 := s.(regs := s.regs[R12 := c.la], la := c.la, lb := 0, pc := s.pc + 12);
    assert Exec(front[0], s) == Next(s1);
    assert s1.regs[R12 := c.la] == s2.regs;
    assert Exec(front[1], s1) == Next(s2);
    assert Exec(front[2], s2) == Next(s3);
    ExecThree(p, front, s, s1, s2, s3);
    ExecAppend(p, front, Target(skip), s);
    TargetLoads(p, s3, skip);
  }

  function PollCount(skip: Word): (r: seq<Insn>)
    ensures |r| == 6
  {
    [AluI(AAdd, R12, R12, 1), AluI(AAnd, R12, R12, 4095), CmpI(R12, 0)] + Target(skip)
  }

  // The parts of a safe point's code in memory.
  lemma PollParts(mem: seq<Byte>, a: nat, skip: Word, t: Word, gate: Imm)
    requires InsnsAt(mem, a, PollStub(skip, t, gate))
    ensures InsnsAt(mem, a, PollCount(skip)) && InsnAt(mem, a + 24, Jcc(Jne, gate)) && InsnsAt(mem, a + 28, CallStub(t))
  {
    hide InsnAt, Target, CallStub;
    var stub := PollStub(skip, t, gate);
    assert stub == PollCount(skip) + ([Jcc(Jne, gate)] + CallStub(t));
    forall j | 0 <= j < 6 ensures InsnAt(mem, a + 4 * j, PollCount(skip)[j]) {
      assert stub[j] == PollCount(skip)[j];
    }
    assert InsnAt(mem, a + 4 * 6, stub[6]);
    forall j | 0 <= j < 8 ensures InsnAt(mem, a + 28 + 4 * j, CallStub(t)[j]) {
      assert stub[7 + j] == CallStub(t)[j];
      assert InsnAt(mem, a + 4 * (7 + j), stub[7 + j]);
    }
  }

  // The front of the stub: to the conditional that skips the call.
  lemma PollFront(p: Prog, m: Mach, skip: Word, t: Word)
    requires At(p, m) && m.k < |p.rows| && p.rows[m.k].line.Label? && p.rows[m.k].line.sym.Poll? && p.poll
    requires Emit(p.rows[m.k], p.syms, p.poll, p.gate) == Some(Code(PollStub(skip, t, p.gate)))
    ensures var c := Counted(m.cpu, skip).(pc := m.cpu.pc + 24);
      && Run(m.cpu, 6) == Next(c) && Loaded(p, c.mem) && InsnAt(c.mem, c.pc, Jcc(Jne, p.gate))
      && InsnsAt(c.mem, c.pc + 4, CallStub(t)) && c.pc + 36 == p.Addr(m.k + 1) && p.Addr(m.k) + 24 == c.pc
  {
    hide Emit, ExecAll, Loaded, InsnAt, InsnsAt, Total, Run, PollStub, PollCount, CallStub, LineSize, Counted;
    CodeOf(p, m, Code(PollStub(skip, t, p.gate)));
    PollParts(m.cpu.mem, m.cpu.pc, skip, t, p.gate);
    CountRuns(p, m.cpu, skip);
    RunStraight(p, PollCount(skip), m.cpu);
  }

  // The safe-point stub: usually it only counts; otherwise it calls __sp_poll,
  // which comes back to the line after it.
  lemma PollStubRuns(p: Prog, m: Mach) returns (n: nat)
    requires At(p, m) && Served(p) && m.k < |p.rows| && p.rows[m.k].line.Label? && p.rows[m.k].line.sym.Poll? && p.poll
    requires LineStep(p, m).Some?
    ensures n > 0 && Run(m.cpu, n) == Next(LineStep(p, m).value.cpu) && At(p, LineStep(p, m).value)
  {
    hide Target, InsnAt, Total, Run, ExecAll, LineSize, RowLoaded, Loaded, Counted, InsnsAt, CallStub, Served, Restored, Write, Read, Emit, PollStub;
    var y := p.rows[m.k].line.sym;
    var skip, t := Wrap(p.Val(m.k, y).value + POLL_BYTES), p.Val(m.k, SP_POLL).value;
    EmitPoll(p, m);
    PollFront(p, m, skip, t);
    var c := Counted(m.cpu, skip).(pc := m.cpu.pc + 24);
    CountedIs(m.cpu, skip);
    AddrMono(p, m.k, m.k + 1);
    if c.la != 0 {
      n := SkipRuns(p, m, c, skip);
    } else {
      n := ServiceRuns(p, m, c, skip, t);
    }
  }

  lemma EmitPoll(p: Prog, m: Mach)
    requires p.Valid() && m.k < |p.rows| && p.rows[m.k].line.Label? && p.rows[m.k].line.sym.Poll? && p.poll
    requires p.Val(m.k, p.rows[m.k].line.sym).Some? && p.Val(m.k, SP_POLL).Some?
    ensures Emit(p.rows[m.k], p.syms, p.poll, p.gate)
         == Some(Code(PollStub(Wrap(p.Val(m.k, p.rows[m.k].line.sym).value + POLL_BYTES), p.Val(m.k, SP_POLL).value, p.gate)))
  {
    hide PollStub, Resolve, CallStub, Target, PushWords, PopWords, RetWords, HalfOf, WordBytes, Total;
  }

  lemma CountedIs(s: Cpu, skip: Word)
    requires s.Valid()
    ensures var c := Counted(s, skip); c.pc == s.pc && c.lb == 0 && c.regs[R13] == skip && c.regs[SP] == s.regs[SP] && c.regs[FP] == s.regs[FP]
  {
    hide BitOp;
  }

  // Not yet: through the gate, over the call.
  lemma SkipRuns(p: Prog, m: Mach, c: Cpu, skip: Word) returns (n: nat)
    requires At(p, m) && m.k < |p.rows| && c.Valid() && Loaded(p, c.mem) && InsnAt(c.mem, c.pc, Jcc(Jne, p.gate))
    requires Run(m.cpu, 6) == Next(c) && c.la != 0 && c.lb == 0 && c.regs[R13] == skip && p.base <= c.pc
    requires GoTo(p, c, skip).Some?
    ensures n == 8 && Run(m.cpu, n) == Next(GoTo(p, c, skip).value.cpu) && At(p, GoTo(p, c, skip).value)
  {
    hide InsnAt, Total, Run, LineSize, RowLoaded;
    var g := c.(pc := p.gate);
    assert Holds(Jne, c.la, c.lb);
    RunOne(c, Jcc(Jne, p.gate));
    SearchSound(p, skip, 0);
    AddrMono(p, p.Search(skip, 0).value, |p.rows|);
    RunOne(g, JmpR(R13));
    RunAdd(m.cpu, 6, 1);
    RunAdd(m.cpu, 7, 1);
    n := 8;
  }

  // Now: the call of __sp_poll and its return.
  lemma ServiceRuns(p: Prog, m: Mach, c: Cpu, skip: Word, t: Word) returns (n: nat)
    requires At(p, m) && m.k < |p.rows| && p.rows[m.k].line.Label? && p.rows[m.k].line.sym.Poll? && p.poll && Served(p)
    requires Emit(p.rows[m.k], p.syms, p.poll, p.gate) == Some(Code(PollStub(skip, t, p.gate))) && p.Addr(m.k) + 24 == c.pc
    requires p.Val(m.k, SP_POLL) == Some(t) && c.Valid() && Loaded(p, c.mem) && InsnAt(c.mem, c.pc, Jcc(Jne, p.gate))
    requires Run(m.cpu, 6) == Next(c) && c.la == 0 && c.lb == 0 && InsnsAt(c.mem, c.pc + 4, CallStub(t))
    requires c.pc == m.cpu.pc + 24 && c.pc + 36 == p.Addr(m.k + 1)
    requires var sp, back := Wrap(c.regs[SP] as int - 4), Wrap(m.cpu.pc + POLL_BYTES);
      && p.Clear(sp, 4) && p.Search(t, 0).Some? && Write(c.mem, sp, 4, back).Some?
      && var u := p.host.safe(AtService(c, t, back, Write(c.mem, sp, 4, back).value));
         u.Valid() && |u.mem| == |c.mem| && GoTo(p, u, back).Some?
    ensures var sp, back := Wrap(c.regs[SP] as int - 4), Wrap(m.cpu.pc + POLL_BYTES);
      var u := p.host.safe(AtService(c, t, back, Write(c.mem, sp, 4, back).value));
      n > 0 && Run(m.cpu, n) == Next(GoTo(p, u, back).value.cpu) && At(p, GoTo(p, u, back).value)
  {
    hide InsnAt, Total, Run, LineSize, RowLoaded, Loaded, Write, Read, ExecAll, CallStub, InsnsAt, Restored, Emit, PollStub;
    var sp, back := Wrap(c.regs[SP] as int - 4), Wrap(m.cpu.pc + POLL_BYTES);
    AddrMono(p, m.k + 1, |p.rows|);
    assert back == p.Addr(m.k + 1);
    var d := c.(pc := c.pc + 4);
    RunOne(c, Jcc(Jne, p.gate));
    RunAdd(m.cpu, 6, 1);
    var e := CallRuns(p, m, d, skip, t, back);
    RunAdd(m.cpu, 7, 8);
    assert e == AtService(c, t, back, Write(c.mem, sp, 4, back).value) by { ServiceSame(c, d, t, back, Write(c.mem, sp, 4, back).value); }
    PushedBack(p, e, c.mem, sp, back);
    assert ServedAt(p, m.k);
    var u := p.host.safe(e);
    assert Called(e, t, back) && Returns(p, e);
    RestoredIs(p, e, u);
    assert Reaches(e, u);
    var k: nat :| Run(e, k) == Next(u);
    RunAdd(m.cpu, 15, k);
    n := 15 + k;
    SearchSound(p, back, 0);
  }

  lemma ServiceSame(c: Cpu, d: Cpu, t: Word, back: Word, mem: seq<Byte>)
    requires c.Valid() && d == c.(pc := d.pc) && |mem| == |c.mem|
    ensures AtService(d, t, back, mem) == AtService(c, t, back, mem)
  {
  }

  lemma PushedBack(p: Prog, e: Cpu, mem: seq<Byte>, sp: Word, back: Word)
    requires e.Valid() && e.regs[SP] == sp && Write(mem, sp, 4, back) == Some(e.mem)
    ensures Read(e.mem, e.regs[SP], 4) == Some(back)
  {
    hide Be32, ByteAt;
    Be32RoundTrip(back);
  }

  lemma RestoredIs(p: Prog, s: Cpu, u: Cpu)
    requires s.Valid() && Restored(p, s, u)
    ensures u.Valid() && Read(s.mem, s.regs[SP], 4) == Some(u.pc) && |u.mem| == |s.mem|
    ensures forall a | p.host.floor <= a < |s.mem| :: u.mem[a] == s.mem[a]
    ensures u.regs[SP] == Wrap(s.regs[SP] as int + 4) && u.regs[FP] == s.regs[FP]
  {
    hide Read;
  }

  // The call stub inside a safe point.
  lemma CallRuns(p: Prog, m: Mach, d: Cpu, skip: Word, t: Word, back: Word) returns (e: Cpu)
    requires p.Valid() && m.k < |p.rows| && d.Valid() && Loaded(p, d.mem) && InsnsAt(d.mem, d.pc, CallStub(t))
    requires Emit(p.rows[m.k], p.syms, p.poll, p.gate) == Some(Code(PollStub(skip, t, p.gate)))
    requires p.base <= d.pc && d.pc + 32 == p.Addr(m.k + 1) && back == p.Addr(m.k + 1) && p.Addr(m.k) + 28 == d.pc
    requires var sp := Wrap(d.regs[SP] as int - 4); p.Clear(sp, 4) && Write(d.mem, sp, 4, back).Some?
    requires p.Search(t, 0).Some?
    ensures Run(d, 8) == Next(e) && e == AtService(d, t, back, Write(d.mem, Wrap(d.regs[SP] as int - 4), 4, back).value)
    ensures Loaded(p, e.mem)
  {
    hide InsnAt, Total, Run, LineSize, RowLoaded, Loaded, Write, Read, ExecAll, Target, Emit;
    var front := [Counter(FLAGS), AluI(AAdd, FLAGS, FLAGS, 32), AluI(ASub, SP, SP, 4), StoreR(B32, SP, FLAGS)] + Target(t);
    assert CallStub(t) == front + [JmpR(R13)];
    AddrMono(p, m.k + 1, |p.rows|);
    CallFront(p, d, t);
    forall j | 0 <= j < 7 ensures InsnAt(d.mem, d.pc + 4 * j, front[j]) {
      assert CallStub(t)[j] == front[j];
    }
    RunStraight(p, front, d);
    var s' := ExecAll(p, front, d).value;
    var stub := PollStub(skip, t, p.gate);
    LoadedRow(p, s'.mem, m.k, stub);
    assert stub[14] == JmpR(R13);
    assert InsnAt(s'.mem, p.Addr(m.k) + 4 * 14, stub[14]);
    StubJump(p, s', R13, m.k);
    RunAdd(d, 7, 1);
    e := GoTo(p, s', t).value.cpu;
  }

  // ret pops the return address through flags.
  lemma RetRuns(p: Prog, m: Mach) returns (n: nat)
    requires At(p, m) && m.k < |p.rows| && p.rows[m.k].line == Ret && LineStep(p, m).Some?
    ensures n == 3 && Run(m.cpu, n) == Next(LineStep(p, m).value.cpu) && At(p, LineStep(p, m).value)
  {
    hide Loaded, InsnAt, Total, Run, ExecAll, Read;
    var s := m.cpu;
    var t := Read(s.mem, s.regs[SP], 4).value;
    var sp: int := s.regs[SP];
    var front := [LoadR(B32, FLAGS, SP), AluI(AAdd, SP, SP, 4)];
    var s1 := s.(regs := s.regs[FLAGS := t], pc := s.pc + 4);
    var s2 := s.(regs := s.regs[FLAGS := t][SP := Wrap(sp + 4)], pc := s.pc + 8);
    assert Exec(front[0], s) == Next(s1);
    assert Exec(front[1], s1) == Next(s2);
    ExecOne(p, front[0], s, s1);
    ExecOne(p, front[1], s1, s2);
    ExecAppend(p, [front[0]], [front[1]], s);
    assert [front[0]] + [front[1]] == front;
    assert front + [JmpR(FLAGS)] == RetWords();
    StubFront(p, m, front, JmpR(FLAGS), s2);
    StubJump(p, s2, FLAGS, m.k);
    RunAdd(s, 2, 1);
    n := 3;
  }

  // jmp r in the program: transfers to a line other than itself.
  lemma RegisterJump(p: Prog, m: Mach, r: Reg)
    requires At(p, m) && m.k < |p.rows| && p.rows[m.k].line == Op(JmpR(r)) && LineStep(p, m).Some?
    ensures Run(m.cpu, 1) == Next(LineStep(p, m).value.cpu) && At(p, LineStep(p, m).value)
  {
    hide Loaded, InsnAt, Total, InsnsAt;
    CodeOf(p, m, Code([JmpR(r)]));
    assert InsnAt(m.cpu.mem, m.cpu.pc, JmpR(r)) by { HeadInsn(m.cpu.mem, m.cpu.pc, JmpR(r)); }
    SearchSound(p, m.cpu.regs[r], 0);
    RunOne(m.cpu, JmpR(r));
  }

  lemma HeadInsn(mem: seq<Byte>, a: nat, i: Insn)
    requires InsnsAt(mem, a, [i])
    ensures InsnAt(mem, a, i)
  {
    hide InsnAt;
    assert InsnAt(mem, a + 4 * 0, [i][0]);
  }

  lemma ZeroSize(p: Prog, m: Mach)
    requires At(p, m) && m.k < |p.rows|
    requires (p.rows[m.k].line.Label? && !(p.rows[m.k].line.sym.Poll? && p.poll)) || p.rows[m.k].line.Note?
    ensures At(p, Mach(m.k + 1, m.cpu)) && Run(m.cpu, 0) == Next(m.cpu)
  {
    hide Loaded, Total;
    AddrNext(p, m.k);
  }

  // The emulator simulates the line machine, line by line.
  lemma StepSimulated(p: Prog, m: Mach) returns (n: nat)
    requires At(p, m) && Served(p) && LineStep(p, m).Some?
    ensures Run(m.cpu, n) == Next(LineStep(p, m).value.cpu) && At(p, LineStep(p, m).value)
    ensures n >= 1 || LineStep(p, m).value.k == m.k + 1
  {
    hide Loaded, ExecAll, InsnsAt, GoTo, Run, Total;
    n := 0;
    match p.rows[m.k].line
    case Label(y) =>
      if y.Poll? && p.poll {
        n := PollStubRuns(p, m);
      } else {
        ZeroSize(p, m);
      }
    case Note => ZeroSize(p, m);
    case Op(i) =>
      if i.JmpR? {
        RegisterJump(p, m, i.c);
        n := 1;
      } else {
        n := StraightLine(p, m, [i]);
      }
    case OpI(op, a, b, k) => n := StraightLine(p, m, [AluI(op, a, b, k)]);
    case OpSym(op, a, b, half, y) =>
      n := StraightLine(p, m, [AluI(op, a, b, HalfOf(half, p.Val(m.k, y).value).value)]);
    case Push(x) => n := StraightLine(p, m, PushWords(x));
    case Pop(x) => n := StraightLine(p, m, PopWords(x));
    case Ret => n := RetRuns(p, m);
    case Jump(y) => n := JumpStub(p, m, y);
    case Branch(cc, y) => n := BranchStub(p, m, cc, y);
    case CallTo(y) => n := CallStubRuns(p, m, y);
  }

  // Any run of the line machine is a run of the emulator on the linked bytes,
  // and an endless one is endless there too: n lines take at least
  // n / (number of lines + 1) instructions.
  lemma {:induction false} RunSimulated(p: Prog, m: Mach, n: nat) returns (steps: nat)
    requires At(p, m) && Served(p) && LineRun(p, m, n).Some?
    ensures Run(m.cpu, steps) == Next(LineRun(p, m, n).value.cpu) && At(p, LineRun(p, m, n).value)
    ensures n <= steps * (|p.rows| + 1) + LineRun(p, m, n).value.k - m.k
    decreases n
  {
    hide LineStep, Loaded, Total, Step;
    if n == 0 {
      steps := 0;
    } else {
      var first := StepSimulated(p, m);
      var m' := LineStep(p, m).value;
      var rest := RunSimulated(p, m', n - 1);
      RunAdd(m.cpu, first, rest);
      steps := first + rest;
      MulDistr(first, rest, |p.rows| + 1);
      if first >= 1 {
        MulLe(1, first, |p.rows| + 1);
      }
    }
  }

  // ---- the contract of __sp_poll can be met ----

  function JustReturned(s: Cpu): Cpu {
    if s.Valid() && Read(s.mem, s.regs[SP], 4).Some? then
      var t := Read(s.mem, s.regs[SP], 4).value;
      s.(regs := s.regs[FLAGS := t][SP := Wrap(s.regs[SP] as int + 4)], pc := t)
    else s
  }

  // An __sp_poll that is a single ret, at line j, meets it under any system.
  lemma ReturnServes(p: Prog, j: nat)
    requires p.Valid() && j < |p.rows| && p.rows[j].line == Ret && (forall s :: p.host.safe(s) == JustReturned(s))
    requires forall k | 0 <= k < |p.rows| && p.rows[k].line.Label? && p.rows[k].line.sym.Poll? :: p.Val(k, SP_POLL) == Some(p.Addr(j))
    ensures Served(p)
  {
    hide ServedAt, Total, Resolve, JustReturned;
    if p.poll {
      forall k | 0 <= k < |p.rows| && p.rows[k].line.Label? && p.rows[k].line.sym.Poll? ensures ServedAt(p, k) {
        ReturnServesAt(p, j, k);
      }
    }
  }

  lemma ReturnServesAt(p: Prog, j: nat, k: nat)
    requires p.Valid() && j < |p.rows| && k < |p.rows| && p.rows[j].line == Ret && p.Val(k, SP_POLL) == Some(p.Addr(j))
    requires forall s :: p.host.safe(s) == JustReturned(s)
    ensures ServedAt(p, k)
  {
    hide Total, Resolve, JustReturned, Returns, Read;
    SearchFinds(p, p.Addr(j), 0, j);
    AddrMono(p, k + 1, |p.rows|);
    forall s: Cpu | s.Valid() && Called(s, p.Addr(j), p.Addr(k + 1)) ensures Returns(p, s) {
      ReturnsHome(p, j, k, s);
    }
  }

  lemma ReturnsHome(p: Prog, j: nat, k: nat, s: Cpu)
    requires p.Valid() && j < |p.rows| && k < |p.rows| && p.rows[j].line == Ret && p.Addr(j) < W && p.Addr(k + 1) < W
    requires s.Valid() && Called(s, p.Addr(j), p.Addr(k + 1)) && p.host.safe(s) == JustReturned(s)
    ensures Returns(p, s)
  {
    hide Total, Read, Loaded, Run;
    SearchFinds(p, p.Addr(k + 1), 0, k + 1);
    if Loaded(p, s.mem) {
      var n := RetRuns(p, Mach(j, s));
    }
  }
}
