// The flat-image linker (symcc/src/link_image.c, sizes from symcc/src/obj.c):
// lay every line out by predicted size, then write stubs of exactly that size.
module Link {
  import opened Words
  import opened Isa
  import opened Asm

  // ---- relocatable objects ----

  // Symbols by the shape of their name: L%d, Lg%d, __sp_poll_L%d, s%d, any
  // other identifier, or a number written where a symbol may stand.
  datatype Sym = Local(n: nat) | User(n: nat) | Poll(n: nat) | Lit(n: nat) | Name(s: string) | Number(v: Word)

  // @name, @hi:name and @lo:name
  datatype Half = D16 | Hi | Lo

  datatype Line =
    | Label(sym: Sym)
    | Note
    | Op(i: Insn)
    | OpI(op: AluOp, a: Reg, b: Reg, n: nat)
    | OpSym(op: AluOp, a: Reg, b: Reg, half: Half, sym: Sym)
    | Push(r: Reg) | Pop(r: Reg) | Ret
    | Jump(sym: Sym) | Branch(cc: Cond, sym: Sym) | CallTo(sym: Sym)
    | U8(byte: Byte) | U16(h: Imm) | U32(w: Word) | U32Ref(sym: Sym, add: Word)
    | Chars(bytes: seq<Byte>)

  datatype Bss = Bss(name: Sym, size: nat)
  datatype Obj = Obj(text: seq<Line>, data: seq<Line>, bss: seq<Bss>, exports: seq<Sym>)

  // obj_line_size
  function ObjLineSize(l: Line): nat {
    match l
    case Label(_) => 0
    case Note => 0
    case Chars(bytes) => |bytes|
    case U8(_) => 1
    case U16(_) => 2
    case U32(_) => 4
    case U32Ref(_, _) => 4
    case Push(_) => 8
    case Pop(_) => 8
    case CallTo(_) => 20
    case Ret => 12
    case _ => 4
  }

  const POLL_BYTES := 60

  // line_size: the predicted size of a text line.
  function LineSize(l: Line, poll: bool): nat {
    match l
    case Label(s) => if s.Poll? && poll then POLL_BYTES else 0
    case Branch(_, _) => 16
    case CallTo(_) => 32
    case Jump(_) => 16
    case _ => ObjLineSize(l)
  }

  // ---- the symbol table ----

  datatype ImageSym = ImageSym(name: Sym, addr: Word, owner: int, exported: bool)

  // Two entries that `add` refuses to hold together.
  predicate Clash(e: ImageSym, f: ImageSym) {
    e.name == f.name && (e.owner == f.owner || (e.exported && f.exported))
  }

  function FirstOwn(syms: seq<ImageSym>, name: Sym, owner: int): Option<Word> {
    if |syms| == 0 then None
    else if syms[0].owner == owner && syms[0].name == name then Some(syms[0].addr)
    else FirstOwn(syms[1..], name, owner)
  }

  function FirstExported(syms: seq<ImageSym>, name: Sym): Option<Word> {
    if |syms| == 0 then None
    else if syms[0].exported && syms[0].name == name then Some(syms[0].addr)
    else FirstExported(syms[1..], name)
  }

  // resolve: a number, else the owner's own definition, else the exported one.
  function Resolve(syms: seq<ImageSym>, name: Sym, owner: int): Option<Word> {
    if name.Number? then Some(name.v)
    else match FirstOwn(syms, name, owner)
      case Some(a) => Some(a)
      case None => FirstExported(syms, name)
  }

  ghost predicate NoClash(syms: seq<ImageSym>) {
    forall i, j | 0 <= i < j < |syms| :: !Clash(syms[i], syms[j])
  }

  lemma {:induction false} FirstOwnIs(syms: seq<ImageSym>, k: nat)
    requires NoClash(syms) && k < |syms|
    ensures FirstOwn(syms, syms[k].name, syms[k].owner) == Some(syms[k].addr)
  {
    if k > 0 {
      assert !Clash(syms[0], syms[k]);
      assert NoClash(syms[1..]) by {
        forall i, j | 0 <= i < j < |syms[1..]| ensures !Clash(syms[1..][i], syms[1..][j]) {
          assert !Clash(syms[i + 1], syms[j + 1]);
        }
      }
      FirstOwnIs(syms[1..], k - 1);
    }
  }

  lemma {:induction false} FirstExportedIs(syms: seq<ImageSym>, k: nat)
    requires NoClash(syms) && k < |syms| && syms[k].exported
    ensures FirstExported(syms, syms[k].name) == Some(syms[k].addr)
  {
    if k > 0 {
      assert !Clash(syms[0], syms[k]);
      assert NoClash(syms[1..]) by {
        forall i, j | 0 <= i < j < |syms[1..]| ensures !Clash(syms[1..][i], syms[1..][j]) {
          assert !Clash(syms[i + 1], syms[j + 1]);
        }
      }
      FirstExportedIs(syms[1..], k - 1);
    }
  }

  lemma {:induction false} NoOwn(syms: seq<ImageSym>, name: Sym, owner: int)
    requires forall e | e in syms :: !(e.owner == owner && e.name == name)
    ensures FirstOwn(syms, name, owner) == None
  {
    if |syms| > 0 {
      NoOwn(syms[1..], name, owner);
    }
  }

  // Every reference finds its definition: an object's own one first, otherwise
  // the unique exported one.
  lemma ResolveFinds(syms: seq<ImageSym>, k: nat, owner: int)
    requires NoClash(syms) && k < |syms| && !syms[k].name.Number?
    requires owner == syms[k].owner
          || (syms[k].exported && forall e | e in syms :: !(e.owner == owner && e.name == syms[k].name))
    ensures Resolve(syms, syms[k].name, owner) == Some(syms[k].addr)
  {
    if owner == syms[k].owner {
      FirstOwnIs(syms, k);
    } else {
      NoOwn(syms, syms[k].name, owner);
      FirstExportedIs(syms, k);
    }
  }

  // ---- layout ----

  datatype Row = Row(owner: nat, line: Line)

  function RowsOf(lines: seq<Line>, owner: nat): (r: seq<Row>)
    ensures |r| == |lines|
  {
    seq(|lines|, i requires 0 <= i < |lines| => Row(owner, lines[i]))
  }

  function TextRows(objs: seq<Obj>, n: nat): seq<Row>
    requires n <= |objs|
  {
    if n == 0 then [] else TextRows(objs, n - 1) + RowsOf(objs[n - 1].text, n - 1)
  }

  function DataRows(objs: seq<Obj>, n: nat): seq<Row>
    requires n <= |objs|
  {
    if n == 0 then [] else DataRows(objs, n - 1) + RowsOf(objs[n - 1].data, n - 1)
  }

  // How a section counts its lines: text lines grow into stubs, data lines do not.
  datatype Section = TextSec(poll: bool) | DataSec

  function SizeIn(sec: Section, l: Line): nat {
    match sec
    case TextSec(poll) => LineSize(l, poll)
    case DataSec => ObjLineSize(l)
  }

  function Total(sec: Section, rows: seq<Row>): nat {
    if |rows| == 0 then 0
    else Total(sec, rows[..|rows| - 1]) + SizeIn(sec, rows[|rows| - 1].line)
  }

  lemma TotalSnoc(sec: Section, rows: seq<Row>, r: Row)
    ensures Total(sec, rows + [r]) == Total(sec, rows) + SizeIn(sec, r.line)
  {
    assert (rows + [r])[..|rows|] == rows;
  }

  lemma {:induction false} TotalAppend(sec: Section, a: seq<Row>, b: seq<Row>)
    ensures Total(sec, a + b) == Total(sec, a) + Total(sec, b)
    decreases |b|
  {
    if |b| == 0 {
      assert a + b == a;
    } else {
      var b' := b[..|b| - 1];
      assert b == b' + [b[|b| - 1]] && a + b == (a + b') + [b[|b| - 1]];
      TotalAppend(sec, a, b');
      TotalSnoc(sec, a + b', b[|b| - 1]);
    }
  }

  lemma TotalPrefix(sec: Section, rows: seq<Row>, k: nat)
    requires k <= |rows|
    ensures Total(sec, rows[..k]) <= Total(sec, rows)
  {
    assert rows == rows[..k] + rows[k..];
    TotalAppend(sec, rows[..k], rows[k..]);
  }

  function A4(x: nat): nat {
    x + (4 - x % 4) % 4
  }

  function Snoc(syms: Option<seq<ImageSym>>, e: ImageSym): Option<seq<ImageSym>> {
    match syms
    case None => None
    case Some(s) => if exists f | f in s :: Clash(f, e) then None else Some(s + [e])
  }

  predicate Exported(objs: seq<Obj>, owner: nat, name: Sym) {
    owner < |objs| && name in objs[owner].exports
  }

  // labels: one entry per label line, at the address its line starts.
  function Scan(objs: seq<Obj>, sec: Section, rows: seq<Row>, base: nat, syms: Option<seq<ImageSym>>): Option<seq<ImageSym>> {
    if |rows| == 0 then syms
    else
      var before := rows[..|rows| - 1];
      var r := rows[|rows| - 1];
      var s := Scan(objs, sec, before, base, syms);
      if r.line.Label? then
        Snoc(s, ImageSym(r.line.sym, Wrap(base + Total(sec, before)), r.owner, Exported(objs, r.owner, r.line.sym)))
      else s
  }

  datatype BssRow = BssRow(owner: nat, bss: Bss)

  function BssOf(bss: seq<Bss>, owner: nat): (r: seq<BssRow>)
    ensures |r| == |bss|
  {
    seq(|bss|, i requires 0 <= i < |bss| => BssRow(owner, bss[i]))
  }

  function BssRows(objs: seq<Obj>, n: nat): seq<BssRow>
    requires n <= |objs|
  {
    if n == 0 then [] else BssRows(objs, n - 1) + BssOf(objs[n - 1].bss, n - 1)
  }

  function BssEnd(rows: seq<BssRow>, base: nat): nat {
    if |rows| == 0 then base else A4(BssEnd(rows[..|rows| - 1], base) + rows[|rows| - 1].bss.size)
  }

  function BssScan(objs: seq<Obj>, rows: seq<BssRow>, base: nat, syms: Option<seq<ImageSym>>): Option<seq<ImageSym>> {
    if |rows| == 0 then syms
    else
      var before := rows[..|rows| - 1];
      var r := rows[|rows| - 1];
      Snoc(BssScan(objs, before, base, syms),
           ImageSym(r.bss.name, Wrap(BssEnd(before, base)), r.owner, Exported(objs, r.owner, r.bss.name)))
  }

  datatype Kind = Kernel | UserImage
  datatype Options = Options(base: Word, limit: Word, branchGate: Word, syscallGate: Word, kind: Kind)

  const SP_POLL := Name("__sp_poll")

  predicate Polling(objs: seq<Obj>, opt: Options) {
    opt.kind.UserImage? && exists i | 0 <= i < |objs| :: SP_POLL in objs[i].exports
  }

  function BaseOf(opt: Options): Word {
    if opt.kind.UserImage? then opt.base else 0x3000
  }

  // Where everything goes.
  datatype Plan = Plan(base: nat, dataBase: nat, loaded: nat, bssBase: nat, bssEnd: nat)

  function PlanOf(objs: seq<Obj>, opt: Options): Plan {
    var base := BaseOf(opt);
    var dataBase := A4(base + Total(TextSec(Polling(objs, opt)), TextRows(objs, |objs|)));
    var loaded := dataBase + Total(DataSec, DataRows(objs, |objs|));
    Plan(base, dataBase, loaded, A4(loaded), BssEnd(BssRows(objs, |objs|), A4(loaded)))
  }

  function Specials(p: Plan, opt: Options): seq<ImageSym> {
    [ImageSym(Name("__bss_start"), Wrap(p.bssBase), -1, true), ImageSym(Name("__bss_end"), Wrap(p.bssEnd), -1, true),
     ImageSym(Name("end"), Wrap(p.bssEnd), -1, true), ImageSym(Name("__syscall_gate"), opt.syscallGate, -1, true)]
  }

  function SnocAll(syms: Option<seq<ImageSym>>, es: seq<ImageSym>): Option<seq<ImageSym>>
    decreases |es|
  {
    if |es| == 0 then syms else SnocAll(Snoc(syms, es[0]), es[1..])
  }

  // The symbol table of the image; None when a name clashes.
  function SymsOf(objs: seq<Obj>, opt: Options): Option<seq<ImageSym>> {
    var p := PlanOf(objs, opt);
    var text := Scan(objs, TextSec(Polling(objs, opt)), TextRows(objs, |objs|), p.base, Some([]));
    var data := Scan(objs, DataSec, DataRows(objs, |objs|), p.dataBase, text);
    var bss := BssScan(objs, BssRows(objs, |objs|), p.bssBase, data);
    SnocAll(bss, Specials(p, opt))
  }

  // The layout stays inside the address window.
  predicate Fits(objs: seq<Obj>, opt: Options) {
    BaseOf(opt) < opt.limit && PlanOf(objs, opt).bssEnd <= opt.limit
  }

  // ---- emission ----

  function HalfOf(half: Half, v: Word): Option<Imm> {
    match half
    case D16 => if v < 0x1_0000 then Some(v) else None
    case Hi => Some(v / 0x1_0000)
    case Lo => Some(v % 0x1_0000)
  }

  const R12: Reg := 12
  const R13: Reg := 13

  // target: load a 32-bit address into r13.
  function Target(addr: Word): (r: seq<Insn>)
    ensures |r| == 3
  {
    [AluI(AOr, R13, ZR, addr / 0x1_0000), AluI(ALsl, R13, R13, 16), AluI(AOr, R13, R13, addr % 0x1_0000)]
  }

  function CallStub(t: Word): (r: seq<Insn>)
    ensures |r| == 8
  {
    [Counter(FLAGS), AluI(AAdd, FLAGS, FLAGS, 32), AluI(ASub, SP, SP, 4), StoreR(B32, SP, FLAGS)]
    + Target(t) + [JmpR(R13)]
  }

  function PollStub(skip: Word, poll: Word, gate: Imm): (r: seq<Insn>)
    ensures |r| == 15
  {
    [AluI(AAdd, R12, R12, 1), AluI(AAnd, R12, R12, 4095), CmpI(R12, 0)] + Target(skip) + [Jcc(Jne, gate)] + CallStub(poll)
  }

  // What a line becomes: instructions, or raw data.
  datatype Emitted = Code(insns: seq<Insn>) | RawBytes(bytes: seq<Byte>)

  function Size(e: Emitted): nat {
    match e case Code(insns) => 4 * |insns| case RawBytes(bytes) => |bytes|
  }

  function ImageBytes(e: Emitted): (s: seq<Byte>)
    ensures |s| == Size(e)
  {
    match e case Code(insns) => InsnBytes(insns) case RawBytes(bytes) => bytes
  }

  // line, with the assembler's own limits on immediates; None is a link error.
  function Emit(r: Row, syms: seq<ImageSym>, poll: bool, gate: Word): Option<Emitted> {
    match r.line
    case Label(s) =>
      if s.Poll? && poll then
        (match (Resolve(syms, s, r.owner), Resolve(syms, SP_POLL, r.owner))
         case (Some(a), Some(t)) =>
           if gate < 0x1_0000 then Some(Code(PollStub(Wrap(a + POLL_BYTES), t, gate))) else None
         case _ => None)
      else Some(Code([]))
    case Note => Some(Code([]))
    case Op(i) => Some(Code([i]))
    case OpI(op, a, b, n) => if n < 0x1_0000 then Some(Code([AluI(op, a, b, n)])) else None
    case OpSym(op, a, b, half, s) =>
      (match Resolve(syms, s, r.owner)
       case None => None
       case Some(v) =>
         match HalfOf(half, v)
         case None => None
         case Some(n) => Some(Code([AluI(op, a, b, n)])))
    case Push(x) => Some(Code(PushWords(x)))
    case Pop(x) => Some(Code(PopWords(x)))
    case Ret => Some(Code(RetWords()))
    case Branch(cc, s) =>
      (match Resolve(syms, s, r.owner)
       case None => None
       case Some(t) => if gate < 0x1_0000 then Some(Code(Target(t) + [Jcc(cc, gate)])) else None)
    case Jump(s) =>
      (match Resolve(syms, s, r.owner)
       case None => None
       case Some(t) => Some(Code(Target(t) + [JmpR(R13)])))
    case CallTo(s) =>
      (match Resolve(syms, s, r.owner)
       case None => None
       case Some(t) => Some(Code(CallStub(t))))
    case U8(b) => Some(RawBytes([b]))
    case U16(h) => Some(RawBytes([h / 256, h % 256]))
    case U32(w) => Some(RawBytes(WordBytes(w)))
    case U32Ref(s, add) =>
      (match Resolve(syms, s, r.owner)
       case None => None
       case Some(v) => Some(RawBytes(WordBytes(Wrap(v + add)))))
    case Chars(bytes) => Some(RawBytes(bytes))
  }

  // A line whose emitted size the section does not predict: stubs in data.
  predicate Expands(l: Line, poll: bool) {
    l.Branch? || l.Jump? || l.CallTo? || (l.Label? && l.sym.Poll? && poll)
  }

  // The prediction is right exactly outside stubs placed in a data section.
  lemma SizeAgrees(sec: Section, r: Row, syms: seq<ImageSym>, poll: bool, gate: Word)
    requires Emit(r, syms, poll, gate).Some?
    requires sec.TextSec? ==> sec.poll == poll
    ensures Size(Emit(r, syms, poll, gate).value) == SizeIn(sec, r.line) <==> sec.TextSec? || !Expands(r.line, poll)
  {
  }

  // ---- the text handed to the assembler ----

  function Plains(insns: seq<Insn>): (r: seq<AsmLine>)
    ensures |r| == |insns|
  {
    seq(|insns|, i requires 0 <= i < |insns| => Plain(insns[i]))
  }

  function ToGate(cc: Cond, gate: Word): AsmLine {
    WithImm(SJcc(cc), Num(gate))
  }

  // line: the assembler lines written for one object line.
  function Lower(r: Row, syms: seq<ImageSym>, poll: bool, gate: Word): Option<seq<AsmLine>> {
    match r.line
    case Label(s) =>
      if s.Poll? && poll then
        (match (Resolve(syms, s, r.owner), Resolve(syms, SP_POLL, r.owner))
         case (Some(a), Some(t)) =>
           Some(Plains([AluI(AAdd, R12, R12, 1), AluI(AAnd, R12, R12, 4095), CmpI(R12, 0)] + Target(Wrap(a + POLL_BYTES)))
                + [ToGate(Jne, gate)] + Plains(CallStub(t)))
         case _ => None)
      else if s == Name("main") then Some([Def("main")])
      else Some([])
    case Note => Some([])
    case Op(i) => Some([Plain(i)])
    case OpI(op, a, b, n) => Some([WithImm(SAlu(op, a, b), Num(n))])
    case OpSym(op, a, b, half, s) =>
      (match Resolve(syms, s, r.owner)
       case None => None
       case Some(v) =>
         match HalfOf(half, v)
         case None => None
         case Some(n) => Some([WithImm(SAlu(op, a, b), Num(n))]))
    case Push(x) => Some([APush(x)])
    case Pop(x) => Some([APop(x)])
    case Ret => Some([ARet])
    case Branch(cc, s) =>
      (match Resolve(syms, s, r.owner)
       case None => None
       case Some(t) => Some(Plains(Target(t)) + [ToGate(cc, gate)]))
    case Jump(s) =>
      (match Resolve(syms, s, r.owner)
       case None => None
       case Some(t) => Some(Plains(Target(t) + [JmpR(R13)])))
    case CallTo(s) =>
      (match Resolve(syms, s, r.owner)
       case None => None
       case Some(t) => Some(Plains(CallStub(t))))
    case U8(b) => Some([Data([b])])
    case U16(h) => Some([Data([h / 256, h % 256])])
    case U32(w) => Some([Data(WordBytes(w))])
    case U32Ref(s, add) =>
      (match Resolve(syms, s, r.owner)
       case None => None
       case Some(v) => Some([Data(WordBytes(Wrap(v + add)))]))
    case Chars(bytes) => Some([Data(bytes)])
  }

  function LowerAll(rows: seq<Row>, syms: seq<ImageSym>, poll: bool, gate: Word): Option<seq<AsmLine>> {
    if |rows| == 0 then Some([])
    else match (LowerAll(rows[..|rows| - 1], syms, poll, gate), Lower(rows[|rows| - 1], syms, poll, gate))
      case (Some(a), Some(b)) => Some(a + b)
      case _ => None
  }

  // pad: zero words, then zero bytes.
  function PadLines(lo: nat, hi: nat): seq<AsmLine>
    requires lo <= hi
    decreases hi - lo
  {
    if lo + 4 <= hi then [Data([0, 0, 0, 0])] + PadLines(lo + 4, hi)
    else if lo < hi then [Data([0])] + PadLines(lo + 1, hi)
    else []
  }

  // The kernel image starts at address zero with the gates and the stop loop.
  function KernelHead(opt: Options, entry: Word): Option<seq<AsmLine>> {
    var gate, sys := opt.branchGate, opt.syscallGate;
    if gate < 4 || sys + 16 > 0x140 then None
    else Some([Plain(JmpI(0x3000))] + PadLines(4, gate) + [Plain(JmpR(R13))]
              + Plains(Target(entry) + [JmpR(R13)]) + PadLines(sys + 16, 0x140)
              + [Def("halt"), Plain(JmpI(0x140))] + PadLines(0x144, 0x3000))
  }

  const KERNEL_ENTRY := Name("sp_syscall_entry")

  function EntryOf(syms: seq<ImageSym>): Word {
    match FirstExported(syms, KERNEL_ENTRY) case Some(a) => a case None => 0x140
  }

  function HeadLines(opt: Options, syms: seq<ImageSym>): Option<seq<AsmLine>> {
    if opt.kind.Kernel? then KernelHead(opt, EntryOf(syms)) else Some([])
  }

  // The whole assembler input of an image whose symbols are known.
  function ImageLines(objs: seq<Obj>, opt: Options, syms: seq<ImageSym>): Option<seq<AsmLine>> {
    var p := PlanOf(objs, opt);
    var poll := Polling(objs, opt);
    var text := TextRows(objs, |objs|);
    var textEnd := p.base + Total(TextSec(poll), text);
    match (HeadLines(opt, syms), LowerAll(text, syms, poll, opt.branchGate),
           LowerAll(DataRows(objs, |objs|), syms, poll, opt.branchGate))
    case (Some(h), Some(t), Some(d)) =>
      Some(h + t + PadLines(textEnd, p.dataBase) + d
           + if opt.kind.Kernel? then PadLines(p.loaded, A4Max(p.loaded, p.bssEnd)) else [])
    case _ => None
  }

  // bssEnd is never below loaded; stated as a maximum so that it is total.
  function A4Max(a: nat, b: nat): (m: nat)
    ensures m >= a && m >= b
  {
    if a < b then b else a
  }

  // ---- the assembler turns those lines into exactly the emitted bytes ----

  // A line whose encoding does not depend on where it stands.
  predicate Closed(l: AsmLine) {
    match l
    case WithImm(_, o) => o.Num?
    case ACall(o) => o.Num?
    case PadTo(_) => false
    case _ => true
  }

  predicate AllClosed(lines: seq<AsmLine>) {
    forall l | l in lines :: Closed(l)
  }

  function Flat(lines: seq<AsmLine>): Option<seq<Byte>> {
    if |lines| == 0 then Some([])
    else match (Flat(lines[..|lines| - 1]), Encoded(lines[|lines| - 1], 0, map[]))
      case (Some(a), Some(b)) => Some(a + b)
      case _ => None
  }

  lemma {:induction false} FlatIsBytes(lines: seq<AsmLine>, k: nat, labels: map<string, nat>)
    requires AllClosed(lines) && k <= |lines|
    ensures Bytes(lines, k, labels) == Flat(lines[..k])
    decreases k
  {
    if k > 0 {
      FlatIsBytes(lines, k - 1, labels);
      assert lines[..k][..k - 1] == lines[..k - 1];
      assert Closed(lines[k - 1]);
    }
  }

  function Join(a: Option<seq<Byte>>, b: Option<seq<Byte>>): Option<seq<Byte>> {
    match (a, b) case (Some(x), Some(y)) => Some(x + y) case _ => None
  }

  lemma {:induction false} FlatAppend(a: seq<AsmLine>, b: seq<AsmLine>)
    ensures Flat(a + b) == Join(Flat(a), Flat(b))
    decreases |b|
  {
    hide Encoded;
    if |b| == 0 {
      assert a + b == a;
      if Flat(a).Some? {
        assert Flat(a).value + [] == Flat(a).value;
      }
    } else {
      var n := |b| - 1;
      assert (a + b)[..|a + b| - 1] == a + b[..n];
      assert (a + b)[|a + b| - 1] == b[n];
      FlatAppend(a, b[..n]);
      if Flat(a).Some? && Flat(b[..n]).Some? && Encoded(b[n], 0, map[]).Some? {
        assert Flat(a).value + (Flat(b[..n]).value + Encoded(b[n], 0, map[]).value)
            == (Flat(a).value + Flat(b[..n]).value) + Encoded(b[n], 0, map[]).value;
      }
    }
  }

  lemma FlatOne(l: AsmLine)
    ensures Flat([l]) == Encoded(l, 0, map[])
  {
    hide Encoded;
    assert [l][..0] == [];
    assert Flat([l][..0]) == Some([]);
    if Encoded(l, 0, map[]).Some? {
      assert [] + Encoded(l, 0, map[]).value == Encoded(l, 0, map[]).value;
    }
  }

  lemma {:induction false} InsnBytesAppend(a: seq<Insn>, b: seq<Insn>)
    ensures InsnBytes(a + b) == InsnBytes(a) + InsnBytes(b)
  {
    hide Encode, WordBytes;
    if |a| == 0 {
      assert a + b == b;
    } else {
      assert (a + b)[0] == a[0] && (a + b)[1..] == a[1..] + b;
      InsnBytesAppend(a[1..], b);
    }
  }

  lemma {:induction false} FlatPlains(insns: seq<Insn>)
    ensures Flat(Plains(insns)) == Some(InsnBytes(insns))
    decreases |insns|
  {
    hide Encode, WordBytes;
    if |insns| > 0 {
      var n := |insns| - 1;
      assert Plains(insns)[..n] == Plains(insns[..n]);
      assert Plains(insns)[n] == Plain(insns[n]);
      FlatPlains(insns[..n]);
      assert insns == insns[..n] + [insns[n]];
      InsnBytesAppend(insns[..n], [insns[n]]);
      assert Encoded(Plain(insns[n]), 0, map[]) == Some(InsnBytes([insns[n]]));
    }
  }

  // One immediate line with a number for an operand.
  lemma FlatImm(s: Shape, n: nat)
    ensures Flat([WithImm(s, Num(n))]) == if n < 0x1_0000 then Some(InsnBytes([Fill(s, n)])) else None
  {
    hide InsnBytes;
    FlatOne(WithImm(s, Num(n)));
  }

  function EmittedBytes(e: Option<Emitted>): Option<seq<Byte>> {
    match e case None => None case Some(x) => Some(ImageBytes(x))
  }

  lemma FlatBranch(front: seq<Insn>, cc: Cond, gate: Word, back: seq<Insn>)
    ensures Flat(Plains(front) + [ToGate(cc, gate)] + Plains(back))
         == if gate < 0x1_0000 then Some(InsnBytes(front + [Jcc(cc, gate)] + back)) else None
  {
    hide InsnBytes, Flat, Plains;
    FlatAppend(Plains(front), [ToGate(cc, gate)]);
    FlatAppend(Plains(front) + [ToGate(cc, gate)], Plains(back));
    FlatPlains(front);
    FlatPlains(back);
    FlatImm(SJcc(cc), gate);
    if gate < 0x1_0000 {
      InsnBytesAppend(front, [Jcc(cc, gate)]);
      InsnBytesAppend(front + [Jcc(cc, gate)], back);
    }
  }

  // Writing a line and assembling it gives the bytes of Emit.
  lemma LowerAssembles(r: Row, syms: seq<ImageSym>, poll: bool, gate: Word)
    requires Lower(r, syms, poll, gate).Some?
    ensures AllClosed(Lower(r, syms, poll, gate).value)
    ensures Flat(Lower(r, syms, poll, gate).value) == EmittedBytes(Emit(r, syms, poll, gate))
  {
    hide InsnBytes, Flat, WordBytes, Resolve, Wrap, CallStub, Target;
    var ls := Lower(r, syms, poll, gate).value;
    match r.line
    case Label(s) =>
      if s.Poll? && poll {
        var t := Resolve(syms, SP_POLL, r.owner).value;
        var front := [AluI(AAdd, R12, R12, 1), AluI(AAnd, R12, R12, 4095), CmpI(R12, 0)]
                     + Target(Wrap(Resolve(syms, s, r.owner).value + POLL_BYTES));
        FlatBranch(front, Jne, gate, CallStub(t));
      } else if s == Name("main") {
        FlatOne(Def("main"));
        FlatPlains([]);
      } else {
        FlatPlains([]);
        assert Plains([]) == [];
      }
    case Note => FlatPlains([]); assert Plains([]) == [];
    case Op(i) => FlatOne(Plain(i));
    case OpI(op, a, b, n) => FlatImm(SAlu(op, a, b), n);
    case OpSym(op, a, b, half, s) => FlatImm(SAlu(op, a, b), HalfOf(half, Resolve(syms, s, r.owner).value).value);
    case Push(x) => FlatOne(APush(x));
    case Pop(x) => FlatOne(APop(x));
    case Ret => FlatOne(ARet);
    case Branch(cc, s) =>
      var t := Resolve(syms, s, r.owner).value;
      FlatBranch(Target(t), cc, gate, []);
      assert Plains([]) == [] && ls + [] == ls;
      assert Target(t) + [Jcc(cc, if gate < 0x1_0000 then gate else 0)] + [] == Target(t) + [Jcc(cc, if gate < 0x1_0000 then gate else 0)];
    case Jump(s) => FlatPlains(Target(Resolve(syms, s, r.owner).value) + [JmpR(R13)]);
    case CallTo(s) => FlatPlains(CallStub(Resolve(syms, s, r.owner).value));
    case U8(b) => FlatOne(Data([b]));
    case U16(h) => FlatOne(ls[0]);
    case U32(w) => FlatOne(ls[0]);
    case U32Ref(s, add) => FlatOne(ls[0]);
    case Chars(bytes) => FlatOne(Data(bytes));
  }
}
