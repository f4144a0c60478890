// The two-pass assembler (emu/asm.c), on parsed lines.
module Asm {
  import opened Words
  import opened Isa

  // The instructions that take a 16-bit immediate, without the immediate.
  datatype Shape =
    | SAlu(op: AluOp, a: Reg, b: Reg) | SCmp(b: Reg) | SJmp | SJcc(cc: Cond)
    | SLoad(w: Width, a: Reg) | SStore(w: Width, b: Reg) | SOut | SScreen(b: Reg)

  function Fill(s: Shape, n: Imm): Insn {
    match s
    case SAlu(op, a, b) => AluI(op, a, b, n)
    case SCmp(b) => CmpI(b, n)
    case SJmp => JmpI(n)
    case SJcc(cc) => Jcc(cc, n)
    case SLoad(w, a) => LoadI(w, a, n)
    case SStore(w, b) => StoreI(w, n, b)
    case SOut => OutI(n)
    case SScreen(b) => ScreenI(b, n)
  }

  datatype Operand = Num(n: nat) | Ref(name: string)

  datatype AsmLine =
    | Def(name: string)
    | Plain(i: Insn)
    | WithImm(s: Shape, o: Operand)
    | APush(r: Reg) | APop(r: Reg) | ARet | ACall(o: Operand)
    | Data(bytes: seq<Byte>)
    | PadTo(target: nat)

  const MAX_LABELS := 4096

  // ---- the words behind the pseudo-instructions ----

  function PushWords(r: Reg): seq<Insn> {
    [AluI(ASub, SP, SP, 4), StoreR(B32, SP, r)]
  }

  function PopWords(r: Reg): seq<Insn> {
    [LoadR(B32, r, SP), AluI(AAdd, SP, SP, 4)]
  }

  function RetWords(): seq<Insn> {
    [LoadR(B32, FLAGS, SP), AluI(AAdd, SP, SP, 4), JmpR(FLAGS)]
  }

  function CallWords(n: Imm): seq<Insn> {
    [Counter(FLAGS), AluI(AAdd, FLAGS, FLAGS, 20), AluI(ASub, SP, SP, 4), StoreR(B32, SP, FLAGS), JmpI(n)]
  }

  function InsnBytes(insns: seq<Insn>): (s: seq<Byte>)
    ensures |s| == 4 * |insns|
  {
    if |insns| == 0 then [] else WordBytes(Encode(insns[0])) + InsnBytes(insns[1..])
  }

  function Zeros(n: nat): (s: seq<Byte>)
    ensures |s| == n
  {
    seq(n, i => 0)
  }

  // ---- what one line means, once the labels are known ----

  // The number of bytes of a line at offset off, or None if the line cannot be
  // placed there.
  function LineBytes(l: AsmLine, off: nat): Option<nat> {
    match l
    case Def(_) => Some(0)
    case Plain(_) => Some(4)
    case WithImm(_, _) => Some(4)
    case APush(_) => Some(8)
    case APop(_) => Some(8)
    case ARet => Some(12)
    case ACall(_) => Some(20)
    case Data(bytes) => Some(|bytes|)
    case PadTo(target) => if target < off then None else Some(target - off)
  }

  function Value(o: Operand, labels: map<string, nat>): Option<nat> {
    match o
    case Num(n) => Some(n)
    case Ref(name) => if name in labels then Some(labels[name]) else None
  }

  // The operand of a line that has one; 0 for the others.
  function OperandOf(l: AsmLine, labels: map<string, nat>): Option<nat> {
    match l
    case WithImm(_, o) => Value(o, labels)
    case ACall(o) => Value(o, labels)
    case _ => Some(0)
  }

  // The machine words of an instruction line with its operand filled in.
  function Expansion(l: AsmLine, n: Imm): (r: seq<Insn>)
    ensures 4 * |r| == match l
                       case Plain(_) => 4 case WithImm(_, _) => 4 case APush(_) => 8
                       case APop(_) => 8 case ARet => 12 case ACall(_) => 20
                       case _ => 0
  {
    match l
    case Plain(i) => [i]
    case WithImm(s, _) => [Fill(s, n)]
    case APush(r) => PushWords(r)
    case APop(r) => PopWords(r)
    case ARet => RetWords()
    case ACall(_) => CallWords(n)
    case _ => []
  }

  // The encoding of a line at offset off; None is an assembly error.
  function Encoded(l: AsmLine, off: nat, labels: map<string, nat>): (r: Option<seq<Byte>>)
    ensures r.Some? ==> LineBytes(l, off) == Some(|r.value|)
  {
    match l
    case Def(_) => Some([])
    case Data(bytes) => Some(bytes)
    case PadTo(target) => if target < off then None else Some(Zeros(target - off))
    case _ =>
      match OperandOf(l, labels)
      case None => None
      case Some(n) => if n < 0x1_0000 then Some(InsnBytes(Expansion(l, n))) else None
  }

  // ---- the program as a whole ----

  // Offset after the first k lines.
  function Offset(lines: seq<AsmLine>, k: nat): Option<nat>
    requires k <= |lines|
    decreases k
  {
    if k == 0 then Some(0)
    else match Offset(lines, k - 1)
      case None => None
      case Some(off) =>
        match LineBytes(lines[k - 1], off)
        case None => None
        case Some(n) => Some(off + n)
  }

  // The label table after the first k lines: the first definition of a name
  // wins, and a full table is an error.
  function Labels(lines: seq<AsmLine>, k: nat): Option<map<string, nat>>
    requires k <= |lines|
    decreases k
  {
    if k == 0 then Some(map[])
    else match (Labels(lines, k - 1), Offset(lines, k - 1))
      case (Some(m), Some(off)) =>
        (match lines[k - 1]
         case Def(name) =>
           if name in m then Some(m) else if |m| >= MAX_LABELS then None else Some(m[name := off])
         case _ => Some(m))
      case _ => None
  }

  // The bytes of the first k lines.
  function Bytes(lines: seq<AsmLine>, k: nat, labels: map<string, nat>): (r: Option<seq<Byte>>)
    requires k <= |lines|
    ensures r.Some? ==> Offset(lines, k) == Some(|r.value|)
    decreases k
  {
    if k == 0 then Some([])
    else match Bytes(lines, k - 1, labels)
      case None => None
      case Some(s) =>
        match Encoded(lines[k - 1], |s|, labels)
        case None => None
        case Some(e) => Some(s + e)
  }

  // What assembling must produce: the concatenated encodings, with every label
  // resolved to the offset of its definition, if all of it fits in cap bytes.
  function Assembled(lines: seq<AsmLine>, cap: nat): Option<seq<Byte>> {
    match (Labels(lines, |lines|), Offset(lines, |lines|))
    case (Some(labels), Some(size)) => if size > cap then None else Bytes(lines, |lines|, labels)
    case _ => None
  }

  class Assembler {
    var labels: map<string, nat>
    const out: array<Byte>

    constructor (cap: nat)
      ensures out.Length == cap && fresh(out)
    {
      labels := map[];
      out := new Byte[cap](_ => 0);
    }

    // add_label
    method AddLabel(name: string, off: nat) returns (ok: bool)
      modifies this`labels
      ensures ok == (name in old(labels) || |old(labels)| < MAX_LABELS)
      ensures labels == if name in old(labels) || !ok then old(labels) else old(labels)[name := off]
    {
      if name in labels {
        return true;
      }
      if |labels| >= MAX_LABELS {
        return false;
      }
      labels := labels[name := off];
      ok := true;
    }

    // First pass: label definitions and the running offset.
    method FirstPass(lines: seq<AsmLine>) returns (size: Option<nat>)
      modifies this`labels
      ensures size.Some? == (Labels(lines, |lines|).Some? && Offset(lines, |lines|).Some?)
      ensures size.Some? ==> Labels(lines, |lines|) == Some(labels) && Offset(lines, |lines|) == size
    {
      labels := map[];
      var off := 0;
      var k := 0;
      while k < |lines|
        invariant 0 <= k <= |lines|
        invariant Labels(lines, k) == Some(labels) && Offset(lines, k) == Some(off)
      {
        var ok := true;
        if lines[k].Def? {
          ok := AddLabel(lines[k].name, off);
        }
        var n := LineBytes(lines[k], off);
        if !ok || n.None? {
          FailsFrom(lines, k + 1);
          return None;
        }
        off := off + n.value;
        k := k + 1;
      }
      size := Some(off);
    }

    // Second pass: encode into the output buffer.
    method SecondPass(lines: seq<AsmLine>) returns (size: Option<nat>)
      requires Offset(lines, |lines|).Some? && Offset(lines, |lines|).value <= out.Length
      modifies out
      ensures size.Some? == Bytes(lines, |lines|, labels).Some?
      ensures size.Some? ==> size.value <= out.Length && Some(out[..size.value]) == Bytes(lines, |lines|, labels)
    {
      var off := 0;
      var k := 0;
      while k < |lines|
        invariant 0 <= k <= |lines| && 0 <= off <= out.Length
        invariant Bytes(lines, k, labels) == Some(out[..off])
      {
        var e := Encoded(lines[k], off, labels);
        if e.None? {
          BytesFailFrom(lines, k + 1, labels);
          return None;
        }
        assert Bytes(lines, k + 1, labels) == Some(out[..off] + e.value);
        OffsetMonotone(lines, k + 1, |lines|);
        ghost var before := out[..off];
        var j := 0;
        while j < |e.value|
          invariant 0 <= j <= |e.value|
          invariant out[..off] == before && out[off..off + j] == e.value[..j]
        {
          out[off + j] := e.value[j];
          j := j + 1;
        }
        assert out[..off + j] == before + e.value;
        off := off + |e.value|;
        k := k + 1;
      }
      size := Some(off);
    }

    method Assemble(lines: seq<AsmLine>) returns (size: Option<nat>)
      modifies this, out
      ensures size.Some? == Assembled(lines, out.Length).Some?
      ensures size.Some? ==> size.value <= out.Length && Some(out[..size.value]) == Assembled(lines, out.Length)
    {
      size := FirstPass(lines);
      if size.None? || size.value > out.Length {
        return None;
      }
      size := SecondPass(lines);
    }
  }

  lemma {:induction false} FailsFrom(lines: seq<AsmLine>, k: nat)
    requires k <= |lines|
    requires Labels(lines, k).None? || Offset(lines, k).None?
    ensures Labels(lines, |lines|).None? || Offset(lines, |lines|).None?
    decreases |lines| - k
  {
    if k < |lines| {
      FailsFrom(lines, k + 1);
    }
  }

  lemma {:induction false} BytesFailFrom(lines: seq<AsmLine>, k: nat, labels: map<string, nat>)
    requires k <= |lines| && Bytes(lines, k, labels).None?
    ensures Bytes(lines, |lines|, labels).None?
    decreases |lines| - k
  {
    if k < |lines| {
      BytesFailFrom(lines, k + 1, labels);
    }
  }

  lemma {:induction false} OffsetMonotone(lines: seq<AsmLine>, j: nat, k: nat)
    requires j <= k <= |lines| && Offset(lines, k).Some?
    ensures Offset(lines, j).Some? && Offset(lines, j).value <= Offset(lines, k).value
    decreases k
  {
    if j < k {
      OffsetMonotone(lines, j, k - 1);
    }
  }

  // ---- what the two passes guarantee together ----

  // k is the first definition of its label.
  predicate FirstDef(lines: seq<AsmLine>, k: nat) {
    k < |lines| && lines[k].Def? && forall j | 0 <= j < k :: lines[j] != lines[k]
  }

  lemma {:induction false} LabelAt(lines: seq<AsmLine>, k: nat, n: nat)
    requires FirstDef(lines, k) && k < n <= |lines| && Labels(lines, n).Some?
    ensures Offset(lines, k).Some?
    ensures lines[k].name in Labels(lines, n).value
    ensures Labels(lines, n).value[lines[k].name] == Offset(lines, k).value
    decreases n
  {
    if n == k + 1 {
      NotYet(lines, k, k);
    } else {
      LabelAt(lines, k, n - 1);
    }
  }

  lemma {:induction false} NotYet(lines: seq<AsmLine>, k: nat, n: nat)
    requires FirstDef(lines, k) && n <= k && Labels(lines, n).Some?
    ensures lines[k].name !in Labels(lines, n).value
    decreases n
  {
    if n > 0 {
      assert lines[n - 1] != lines[k];
      NotYet(lines, k, n - 1);
    }
  }

  // Assembly succeeds only with every label at the byte position of its first
  // definition: exactly the bytes of the lines before it precede it.
  lemma LabelsAreBytePositions(lines: seq<AsmLine>, cap: nat, k: nat)
    requires Assembled(lines, cap).Some? && FirstDef(lines, k)
    ensures var labels := Labels(lines, |lines|).value;
            && lines[k].name in labels
            && Bytes(lines, k, labels).Some?
            && Bytes(lines, k, labels).value <= Assembled(lines, cap).value
            && labels[lines[k].name] == |Bytes(lines, k, labels).value|
  {
    LabelAt(lines, k, |lines|);
    BytesPrefix(lines, k, |lines|, Labels(lines, |lines|).value);
  }

  lemma {:induction false} BytesPrefix(lines: seq<AsmLine>, j: nat, k: nat, labels: map<string, nat>)
    requires j <= k <= |lines| && Bytes(lines, k, labels).Some?
    ensures Bytes(lines, j, labels).Some? && Bytes(lines, j, labels).value <= Bytes(lines, k, labels).value
    decreases k
  {
    if j < k {
      BytesPrefix(lines, j, k - 1, labels);
    }
  }
}
