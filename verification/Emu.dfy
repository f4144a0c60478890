// The instruction emulator (emu/emu.c), run with no options: no key events,
// clock at zero and full address lines.
module Emu {
  import opened Words
  import opened Isa

  // Everything one instruction can read or change.
  datatype Cpu = Cpu(
    regs: seq<Word>, mem: seq<Byte>, disk: seq<Byte>, settings: seq<Word>,
    pc: nat, la: Word, lb: Word)
  {
    predicate Valid() {
      |regs| == 16 && |settings| == 8 && regs[ZR] == 0
    }
  }

  // Next: the machine goes on.  Halt: a jump to its own address.
  // Fault: 2 is an address error, 3 an unknown opcode.
  datatype Outcome = Next(s: Cpu) | Halt(s: Cpu) | Fault(code: nat, s: Cpu)

  function SetReg(regs: seq<Word>, i: Reg, v: Word): (r: seq<Word>)
    requires |regs| == 16
    ensures |r| == 16
    ensures regs[ZR] == 0 ==> r[ZR] == 0
  {
    if i > 0 then regs[i := v] else regs
  }

  function WidthBytes(w: Width): nat {
    match w case B8 => 1 case B16 => 2 case B32 => 4 case Disk => 4
  }

  // Big-endian reads and writes, with the emulator's bounds checks.
  function Read(m: seq<Byte>, a: nat, n: nat): Option<Word>
    requires n == 1 || n == 2 || n == 4
  {
    if a + n > |m| then None
    else if n == 1 then Some(m[a])
    else if n == 2 then Some(Be32(0, 0, m[a], m[a + 1]))
    else Some(Be32(m[a], m[a + 1], m[a + 2], m[a + 3]))
  }

  function Write(m: seq<Byte>, a: nat, n: nat, v: Word): (r: Option<seq<Byte>>)
    requires n == 1 || n == 2 || n == 4
    ensures r.Some? ==> |r.value| == |m|
  {
    if a + n > |m| then None
    else if n == 1 then Some(m[a := ByteAt(v, 3)])
    else if n == 2 then Some(m[a := ByteAt(v, 2)][a + 1 := ByteAt(v, 3)])
    else Some(m[a := ByteAt(v, 0)][a + 1 := ByteAt(v, 1)][a + 2 := ByteAt(v, 2)][a + 3 := ByteAt(v, 3)])
  }

  function Alu(op: AluOp, x: Word, y: Word): Word {
    match op
    case ANand => BitOp(Nand, x, y)
    case AOr => BitOp(Or, x, y)
    case AAnd => BitOp(And, x, y)
    case ANor => BitOp(Nor, x, y)
    case AXor => BitOp(Xor, x, y)
    case AAdd => Wrap(x + y)
    case ASub => Wrap(x - y)
    case ALsl => Lsl(x, y)
    case ALsr => Lsr(x, y)
    case AAsr => Asr(x, y)
    case AMul => Wrap(x * y)
    case ADiv => UDiv(x, y)
    case AMod => UMod(x, y)
  }

  // Unsigned division; a zero divisor gives zero.
  function UDiv(x: Word, y: Word): Word {
    if y == 0 then 0 else (DivBound(x, y); x / y)
  }

  function UMod(x: Word, y: Word): Word {
    if y == 0 then 0 else x % y
  }

  predicate Holds(cc: Cond, a: Word, b: Word) {
    match cc
    case Je => a == b
    case Jne => a != b
    case Jb => a < b
    case Jae => a >= b
    case Jbe => a <= b
    case Ja => a > b
    case Jl => Signed(a) < Signed(b)
    case Jge => Signed(a) >= Signed(b)
    case Jle => Signed(a) <= Signed(b)
    case Jg => Signed(a) > Signed(b)
  }

  function Goto(s: Cpu, t: Word): Outcome {
    if t == Wrap(s.pc) then Halt(s) else Next(s.(pc := t))
  }

  function Put(s: Cpu, a: Reg, v: Word): Outcome
    requires s.Valid()
  {
    Next(s.(regs := SetReg(s.regs, a, v), pc := s.pc + 4))
  }

  function LoadAt(s: Cpu, w: Width, a: Reg, addr: Word): Outcome
    requires s.Valid()
  {
    match Read(if w.Disk? then s.disk else s.mem, addr, WidthBytes(w))
    case None => Fault(2, s)
    case Some(v) => Put(s, a, v)
  }

  function StoreAt(s: Cpu, w: Width, addr: Word, v: Word): Outcome
    requires s.Valid()
  {
    match Write(if w.Disk? then s.disk else s.mem, addr, WidthBytes(w), v)
    case None => Fault(2, s)
    case Some(m) => Next(if w.Disk? then s.(disk := m, pc := s.pc + 4) else s.(mem := m, pc := s.pc + 4))
  }

  function ScreenAt(s: Cpu, i: Word, v: Word): Outcome
    requires s.Valid()
  {
    if i >= 8 then Fault(2, s) else Next(s.(settings := s.settings[i := v], pc := s.pc + 4))
  }

  function Exec(i: Insn, s: Cpu): (o: Outcome)
    requires s.Valid()
    ensures o.s.Valid() && |o.s.mem| == |s.mem|
    ensures o.Fault? ==> o.code == 2
  {
    match i
    case Nop => Next(s.(pc := s.pc + 4))
    case In(a) => Put(s, a, 0)
    case Out(_) => Next(s.(pc := s.pc + 4))
    case OutI(_) => Next(s.(pc := s.pc + 4))
    case Keyboard(a) => Put(s, a, 0)
    case Screen(b, c) => ScreenAt(s, s.regs[b], s.regs[c])
    case ScreenI(b, n) => ScreenAt(s, s.regs[b], n)
    case Time0(a) => Put(s, a, 0)
    case Time1(a) => Put(s, a, 0)
    case Counter(a) => Put(s, a, Wrap(s.pc))
    case AluR(op, a, b, c) => Put(s, a, Alu(op, s.regs[b], s.regs[c]))
    case AluI(op, a, b, n) => Put(s, a, Alu(op, s.regs[b], n))
    case CmpR(b, c) => Next(s.(la := s.regs[b], lb := s.regs[c], pc := s.pc + 4))
    case CmpI(b, n) => Next(s.(la := s.regs[b], lb := n, pc := s.pc + 4))
    case JmpR(c) => Goto(s, s.regs[c])
    case JmpI(n) => Goto(s, n)
    case Jcc(cc, n) =>
      if !Holds(cc, s.la, s.lb) then Next(s.(pc := s.pc + 4))
      else if n == s.pc then Halt(s)
      else Next(s.(pc := n))
    case LoadR(w, a, c) => LoadAt(s, w, a, s.regs[c])
    case LoadI(w, a, n) => LoadAt(s, w, a, n)
    case StoreR(w, c, b) => StoreAt(s, w, s.regs[c], s.regs[b])
    case StoreI(w, n, b) => StoreAt(s, w, n, s.regs[b])
  }

  // One turn of the fetch-execute loop.
  function Step(s: Cpu): (o: Outcome)
    requires s.Valid()
    ensures o.s.Valid() && |o.s.mem| == |s.mem|
  {
    match Read(s.mem, s.pc, 4)
    case None => Fault(2, s)
    case Some(w) =>
      match Decode(w)
      case None => Fault(3, s)
      case Some(i) => Exec(i, s)
  }

  // At most n turns; Next means the limit was reached.
  function Run(s: Cpu, n: nat): (o: Outcome)
    requires s.Valid()
    ensures o.s.Valid() && |o.s.mem| == |s.mem|
    decreases n
  {
    if n == 0 then Next(s)
    else match Step(s)
      case Next(t) => Run(t, n - 1)
      case Halt(_) => Step(s)
      case Fault(_, _) => Step(s)
  }

  lemma {:induction false} RunAdd(s: Cpu, m: nat, n: nat)
    requires s.Valid() && Run(s, m).Next?
    ensures Run(s, m + n) == Run(Run(s, m).s, n)
    decreases m
  {
    hide Step;
    if m > 0 {
      RunAdd(Step(s).s, m - 1, n);
    }
  }

  // The emulator proper: registers, memory, disk and screen settings are
  // buffers written in place.
  class Emulator {
    const regs: array<Word>
    const mem: array<Byte>
    const disk: array<Byte>
    const settings: array<Word>
    var pc: nat
    var la: Word
    var lb: Word

    ghost predicate Valid()
      reads this, regs
    {
      regs.Length == 16 && settings.Length == 8 && regs != settings && mem != disk && regs[0] == 0
    }

    ghost function View(): Cpu
      reads this, regs, mem, disk, settings
    {
      Cpu(regs[..], mem[..], disk[..], settings[..], pc, la, lb)
    }

    constructor (bin: seq<Byte>, ram: nat, diskSize: nat)
      requires |bin| <= ram
      ensures Valid() && fresh(regs) && fresh(mem) && fresh(disk) && fresh(settings)
      ensures View() == Cpu(seq(16, i => 0), bin + seq(ram - |bin|, i => 0), seq(diskSize, i => 0), seq(8, i => 0), 0, 0, 0)
    {
      regs := new Word[16](_ => 0);
      settings := new Word[8](_ => 0);
      mem := new Byte[ram](i requires 0 <= i => if i < |bin| then bin[i] else 0);
      disk := new Byte[diskSize](_ => 0);
      pc, la, lb := 0, 0, 0;
      new;
      assert regs[..] == seq(16, i => 0);
      assert mem[..] == bin + seq(ram - |bin|, i => 0);
      assert disk[..] == seq(diskSize, i => 0);
      assert settings[..] == seq(8, i => 0);
    }

    method WriteReg(i: Reg, v: Word)
      requires Valid()
      modifies regs
      ensures Valid() && regs[..] == SetReg(old(regs[..]), i, v)
    {
      if i > 0 {
        regs[i] := v;
      }
    }

    // Store v big-endian, or report an address outside the buffer.
    static method Poke(m: array<Byte>, a: nat, n: nat, v: Word) returns (ok: bool)
      requires n == 1 || n == 2 || n == 4
      modifies m
      ensures ok == Write(old(m[..]), a, n, v).Some?
      ensures m[..] == if ok then Write(old(m[..]), a, n, v).value else old(m[..])
    {
      if a + n > m.Length {
        return false;
      }
      if n == 1 {
        m[a] := ByteAt(v, 3);
      } else if n == 2 {
        m[a] := ByteAt(v, 2);
        m[a + 1] := ByteAt(v, 3);
      } else {
        m[a] := ByteAt(v, 0);
        m[a + 1] := ByteAt(v, 1);
        m[a + 2] := ByteAt(v, 2);
        m[a + 3] := ByteAt(v, 3);
      }
      ok := true;
    }

    static method Peek(m: array<Byte>, a: nat, n: nat) returns (v: Option<Word>)
      requires n == 1 || n == 2 || n == 4
      ensures v == Read(m[..], a, n)
    {
      if a + n > m.Length {
        return None;
      }
      if n == 1 {
        v := Some(m[a]);
      } else if n == 2 {
        v := Some(Be32(0, 0, m[a], m[a + 1]));
      } else {
        v := Some(Be32(m[a], m[a + 1], m[a + 2], m[a + 3]));
      }
    }

    // set_reg and the step to the next word.
    method Finish(a: Reg, v: Word)
      requires Valid()
      modifies this, regs
      ensures Valid() && View() == Put(old(View()), a, v).s
    {
      WriteReg(a, v);
      pc := pc + 4;
    }

    method Load(w: Width, a: Reg, addr: Word) returns (fault: nat)
      requires Valid()
      modifies this, regs
      ensures Valid()
      ensures Result(LoadAt(old(View()), w, a, addr), false, fault)
    {
      var v := Peek(if w.Disk? then disk else mem, addr, WidthBytes(w));
      if v.None? {
        return 2;
      }
      Finish(a, v.value);
      fault := 0;
    }

    method Store(w: Width, addr: Word, v: Word) returns (fault: nat)
      requires Valid()
      modifies this, mem, disk
      ensures Valid()
      ensures Result(StoreAt(old(View()), w, addr, v), false, fault)
    {
      var ok := Poke(if w.Disk? then disk else mem, addr, WidthBytes(w), v);
      if !ok {
        assert disk[..] == old(disk[..]) && mem[..] == old(mem[..]);
        return 2;
      }
      pc := pc + 4;
      fault := 0;
    }

    method SetScreen(i: Word, v: Word) returns (fault: nat)
      requires Valid()
      modifies this, settings
      ensures Valid()
      ensures Result(ScreenAt(old(View()), i, v), false, fault)
    {
      if i >= 8 {
        return 2;
      }
      settings[i] := v;
      pc := pc + 4;
      fault := 0;
    }

    // The outcome o, told as "halted", a fault code (0 for none) and the state
    // left in the buffers.
    ghost predicate Result(o: Outcome, halted: bool, fault: nat)
      reads this, regs, mem, disk, settings
    {
      View() == o.s &&
      match o
      case Next(_) => !halted && fault == 0
      case Halt(_) => halted && fault == 0
      case Fault(code, _) => !halted && fault == code
    }

    // jmp and the conditional jumps; a jump to itself stops the machine.
    method Transfer(i: Insn) returns (halted: bool)
      requires Valid() && (i.JmpR? || i.JmpI? || i.Jcc?)
      modifies this`pc
      ensures Valid()
      ensures Result(Exec(i, old(View())), halted, 0)
    {
      hide Holds;
      halted := false;
      if i.Jcc? {
        if !Holds(i.cc, la, lb) {
          pc := pc + 4;
        } else if i.imm == pc {
          halted := true;
        } else {
          pc := i.imm;
        }
      } else {
        var t := if i.JmpR? then regs[i.c] else i.imm;
        if t == Wrap(pc) {
          halted := true;
        } else {
          pc := t;
        }
      }
    }

    // The instructions that read the outside world, which is silent here, and
    // the ones that change nothing.
    method Port(i: Insn)
      requires Valid() && (i.Counter? || i.In? || i.Keyboard? || i.Time0? || i.Time1? || i.Nop? || i.Out? || i.OutI?)
      modifies this, regs
      ensures Valid()
      ensures Result(Exec(i, old(View())), false, 0)
    {
      hide SetReg;
      if i.Nop? || i.Out? || i.OutI? {
        pc := pc + 4;
      } else {
        Finish(i.a, if i.Counter? then Wrap(pc) else 0);
      }
    }

    // The dispatch of one decoded instruction.
    method Dispatch(i: Insn) returns (halted: bool, fault: nat)
      requires Valid()
      modifies this, regs, mem, disk, settings
      ensures Valid()
      ensures Result(Exec(i, old(View())), halted, fault)
    {
      hide Alu, Holds, LoadAt, StoreAt, ScreenAt, SetReg, Goto;
      halted, fault := false, 0;
      match i {
        case AluR(op, a, b, c) => Finish(a, Alu(op, regs[b], regs[c]));
        case AluI(op, a, b, n) => Finish(a, Alu(op, regs[b], n));
        case CmpR(b, c) => la, lb, pc := regs[b], regs[c], pc + 4;
        case CmpI(b, n) => la, lb, pc := regs[b], n, pc + 4;
        case JmpR(_) => halted := Transfer(i);
        case JmpI(_) => halted := Transfer(i);
        case Jcc(_, _) => halted := Transfer(i);
        case LoadR(w, a, c) => fault := Load(w, a, regs[c]);
        case LoadI(w, a, n) => fault := Load(w, a, n);
        case StoreR(w, c, b) => fault := Store(w, regs[c], regs[b]);
        case StoreI(w, n, b) => fault := Store(w, n, regs[b]);
        case Screen(b, c) => fault := SetScreen(regs[b], regs[c]);
        case ScreenI(b, n) => fault := SetScreen(regs[b], n);
        case _ => Port(i);
      }
    }

    // emu_run_ex's loop.  error is 0 after a halt, 1 when the limit is hit,
    // otherwise the fault; the exit code is r1.
    method Execute(limit: nat) returns (error: nat, exitCode: Word)
      requires Valid()
      modifies this, regs, mem, disk, settings
      ensures Valid()
      ensures View() == Run(old(View()), limit).s
      ensures match Run(old(View()), limit)
              case Next(t) => error == 1
              case Halt(t) => error == 0 && exitCode == t.regs[1]
              case Fault(code, t) => error == code
    {
      hide Exec, Decode;
      var n := 0;
      exitCode := 0;
      while n < limit
        invariant 0 <= n <= limit && Valid()
        invariant Run(View(), limit - n) == Run(old(View()), limit)
      {
        var w := Peek(mem, pc, 4);
        if w.None? {
          return 2, 0;
        }
        var i := Decode(w.value);
        if i.None? {
          return 3, 0;
        }
        ghost var before := View();
        var halted, fault := Dispatch(i.value);
        assert Result(Exec(i.value, before), halted, fault);
        assert Step(before) == Exec(i.value, before);
        if fault != 0 {
          return fault, 0;
        }
        if halted {
          return 0, regs[1];
        }
        n := n + 1;
      }
      error := 1;
    }
  }
}
