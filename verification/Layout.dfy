// The linker's two passes agree: what the layout predicts is where the bytes
// are (symcc/src/link_image.c).
module Layout {
  import opened Words
  import opened Isa
  import opened Asm
  import opened Link

  // The bytes of a section, row after row.
  function RowsBytes(rows: seq<Row>, syms: seq<ImageSym>, poll: bool, gate: Word): Option<seq<Byte>> {
    if |rows| == 0 then Some([])
    else Join(RowsBytes(rows[..|rows| - 1], syms, poll, gate), EmittedBytes(Emit(rows[|rows| - 1], syms, poll, gate)))
  }

  lemma {:induction false} LowerAllAssembles(rows: seq<Row>, syms: seq<ImageSym>, poll: bool, gate: Word)
    requires LowerAll(rows, syms, poll, gate).Some?
    ensures AllClosed(LowerAll(rows, syms, poll, gate).value)
    ensures Flat(LowerAll(rows, syms, poll, gate).value) == RowsBytes(rows, syms, poll, gate)
    decreases |rows|
  {
    hide Lower, Emit, Flat;
    if |rows| == 0 {
      FlatPlains([]);
      assert Plains([]) == [];
    } else {
      var n := |rows| - 1;
      LowerAllAssembles(rows[..n], syms, poll, gate);
      LowerAssembles(rows[n], syms, poll, gate);
      FlatAppend(LowerAll(rows[..n], syms, poll, gate).value, Lower(rows[n], syms, poll, gate).value);
    }
  }

  // Every row of the section is written at its predicted size.
  predicate Predictable(sec: Section, rows: seq<Row>, poll: bool) {
    && (sec.TextSec? ==> sec.poll == poll)
    && forall r | r in rows :: sec.TextSec? || !Expands(r.line, poll)
  }

  lemma {:induction false} SectionSize(sec: Section, rows: seq<Row>, syms: seq<ImageSym>, poll: bool, gate: Word)
    requires RowsBytes(rows, syms, poll, gate).Some? && Predictable(sec, rows, poll)
    ensures |RowsBytes(rows, syms, poll, gate).value| == Total(sec, rows)
    decreases |rows|
  {
    hide Emit, Expands, SizeIn, ImageBytes;
    if |rows| > 0 {
      var n := |rows| - 1;
      SectionSize(sec, rows[..n], syms, poll, gate);
      SizeAgrees(sec, rows[n], syms, poll, gate);
      assert rows[n] in rows;
    }
  }

  // Row k's bytes, and nothing before them but the rows before it.
  ghost predicate Placed(bytes: seq<Byte>, at: int, e: Option<Emitted>) {
    e.Some? && 0 <= at && at + Size(e.value) <= |bytes| && bytes[at..at + Size(e.value)] == ImageBytes(e.value)
  }

  lemma {:induction false} RowPlaced(sec: Section, rows: seq<Row>, k: nat, syms: seq<ImageSym>, poll: bool, gate: Word)
    requires RowsBytes(rows, syms, poll, gate).Some? && Predictable(sec, rows, poll) && k < |rows|
    ensures Placed(RowsBytes(rows, syms, poll, gate).value, Total(sec, rows[..k]), Emit(rows[k], syms, poll, gate))
    decreases |rows|
  {
    hide Emit, Expands, SizeIn, ImageBytes, Total, Size, Placed, Predictable;
    var n := |rows| - 1;
    PredictablePrefix(sec, rows, n, poll);
    var before := RowsBytes(rows[..n], syms, poll, gate).value;
    var last := Emit(rows[n], syms, poll, gate);
    if k == n {
      SectionSize(sec, rows[..n], syms, poll, gate);
      LastPlaced(before, last);
    } else {
      RowPlaced(sec, rows[..n], k, syms, poll, gate);
      assert rows[..n][..k] == rows[..k];
      Shifted([], before, ImageBytes(last.value), Total(sec, rows[..k]), Emit(rows[k], syms, poll, gate));
      assert [] + before + ImageBytes(last.value) == before + ImageBytes(last.value);
    }
  }

  lemma PredictablePrefix(sec: Section, rows: seq<Row>, n: nat, poll: bool)
    requires Predictable(sec, rows, poll) && n <= |rows|
    ensures Predictable(sec, rows[..n], poll)
  {
  }

  lemma LastPlaced(before: seq<Byte>, e: Option<Emitted>)
    requires e.Some?
    ensures Placed(before + ImageBytes(e.value), |before|, e)
  {
    hide ImageBytes, Size;
    assert (before + ImageBytes(e.value))[|before|..] == ImageBytes(e.value);
  }

  lemma Shifted(a: seq<Byte>, b: seq<Byte>, c: seq<Byte>, at: nat, e: Option<Emitted>)
    requires Placed(b, at, e)
    ensures Placed(a + b + c, |a| + at, e)
  {
    hide ImageBytes, Size;
    var n := Size(e.value);
    assert (a + b + c)[|a| + at..|a| + at + n] == b[at..at + n];
  }

  lemma {:induction false} FlatPad(lo: nat, hi: nat)
    requires lo <= hi
    ensures AllClosed(PadLines(lo, hi))
    ensures Flat(PadLines(lo, hi)).Some? && |Flat(PadLines(lo, hi)).value| == hi - lo
    decreases hi - lo
  {
    hide Flat, Encoded;
    if lo + 4 <= hi {
      FlatPad(lo + 4, hi);
      PadStep([0, 0, 0, 0], PadLines(lo + 4, hi));
    } else if lo < hi {
      FlatPad(lo + 1, hi);
      PadStep([0], PadLines(lo + 1, hi));
    } else {
      FlatPlains([]);
      assert Plains([]) == [];
    }
  }

  lemma PadStep(zeros: seq<Byte>, rest: seq<AsmLine>)
    requires Flat(rest).Some?
    ensures Flat([Data(zeros)] + rest) == Some(zeros + Flat(rest).value)
  {
    hide Flat;
    FlatAppend([Data(zeros)], rest);
    FlatOne(Data(zeros));
  }

  // The low region of a kernel image ends where the program is laid out
  // exactly when the system-call gate directly follows the branch gate.
  lemma KernelHeadSize(opt: Options, entry: Word)
    requires KernelHead(opt, entry).Some?
    ensures AllClosed(KernelHead(opt, entry).value)
    ensures Flat(KernelHead(opt, entry).value).Some?
    ensures |Flat(KernelHead(opt, entry).value).value| == 0x3000 <==> opt.syscallGate == opt.branchGate + 4
  {
    hide Flat, Encoded, InsnBytes, Plains, PadLines, Target;
    var gate, sys := opt.branchGate, opt.syscallGate;
    var a := [Plain(JmpI(0x3000))];
    var b := PadLines(4, gate);
    var c := [Plain(JmpR(R13))];
    var d := Plains(Target(entry) + [JmpR(R13)]);
    var e := PadLines(sys + 16, 0x140);
    var f0, f1 := [Def("halt")], [Plain(JmpI(0x140))];
    var f := [Def("halt"), Plain(JmpI(0x140))];
    var g := PadLines(0x144, 0x3000);
    FlatWord(JmpI(0x3000));
    FlatWord(JmpR(R13));
    FlatWord(JmpI(0x140));
    FlatOne(Def("halt"));
    FlatPad(4, gate);
    FlatPlains(Target(entry) + [JmpR(R13)]);
    FlatPad(sys + 16, 0x140);
    FlatPad(0x144, 0x3000);
    FlatAppend(f0, f1);
    assert f0 + f1 == f;
    assert Encoded(Def("halt"), 0, map[]) == Some([]) by { HaltEmpty(); }
    FlatAppend(a, b);
    FlatAppend(a + b, c);
    FlatAppend(a + b + c, d);
    FlatAppend(a + b + c + d, e);
    FlatAppend(a + b + c + d + e, f);
    FlatAppend(a + b + c + d + e + f, g);
    PlainsClosed(Target(entry) + [JmpR(R13)]);
  }

  lemma HaltEmpty()
    ensures Encoded(Def("halt"), 0, map[]) == Some([])
  {
  }

  lemma FlatWord(i: Insn)
    ensures Flat([Plain(i)]).Some? && |Flat([Plain(i)]).value| == 4
  {
    hide Flat;
    FlatOne(Plain(i));
  }

  lemma PlainsClosed(insns: seq<Insn>)
    ensures AllClosed(Plains(insns))
  {
  }

  // The address of byte 0 of the output.
  function Origin(opt: Options): nat {
    if opt.kind.Kernel? then 0 else opt.base
  }

  ghost predicate Linked(objs: seq<Obj>, opt: Options, syms: seq<ImageSym>, bytes: seq<Byte>) {
    && SymsOf(objs, opt) == Some(syms)
    && ImageLines(objs, opt, syms).Some?
    && Flat(ImageLines(objs, opt, syms).value) == Some(bytes)
    && Predictable(DataSec, DataRows(objs, |objs|), Polling(objs, opt))
    && (opt.kind.Kernel? ==> opt.syscallGate == opt.branchGate + 4)
  }

  // Assembling the linker's text gives the concatenated encodings.
  lemma AssembledIsFlat(lines: seq<AsmLine>, cap: nat)
    requires AllClosed(lines) && Assembled(lines, cap).Some?
    ensures Flat(lines) == Assembled(lines, cap)
  {
    FlatIsBytes(lines, |lines|, Labels(lines, |lines|).value);
    assert lines[..|lines|] == lines;
  }

  function TextSection(objs: seq<Obj>, opt: Options): Section {
    TextSec(Polling(objs, opt))
  }

  lemma A4Grows(x: nat)
    ensures x <= A4(x) && A4(x) % 4 == 0 && A4(x) < x + 4
  {
  }

  // The output is header, text, padding, data and (kernel) zeroed bss.
  lemma ImageParts(objs: seq<Obj>, opt: Options, syms: seq<ImageSym>, bytes: seq<Byte>)
    returns (head: seq<Byte>, text: seq<Byte>, gap: seq<Byte>, data: seq<Byte>, tail: seq<Byte>)
    requires Linked(objs, opt, syms, bytes)
    ensures bytes == head + text + gap + data + tail
    ensures |head| == PlanOf(objs, opt).base - Origin(opt)
    ensures RowsBytes(TextRows(objs, |objs|), syms, Polling(objs, opt), opt.branchGate) == Some(text)
    ensures RowsBytes(DataRows(objs, |objs|), syms, Polling(objs, opt), opt.branchGate) == Some(data)
    ensures |head| + |text| + |gap| == PlanOf(objs, opt).dataBase - Origin(opt)
    ensures |head| + |text| + |gap| + |data| == PlanOf(objs, opt).loaded - Origin(opt)
    ensures opt.kind.UserImage? ==> tail == []
  {
    hide Flat, RowsBytes, LowerAll, PadLines, Total, KernelHead, TextRows, DataRows, BssRows, BssEnd, SymsOf, EntryOf;
    var p := PlanOf(objs, opt);
    var poll := Polling(objs, opt);
    var trows, drows := TextRows(objs, |objs|), DataRows(objs, |objs|);
    var textEnd := p.base + Total(TextSec(poll), trows);
    A4Grows(textEnd);
    var h := HeadLines(opt, syms).value;
    var t := LowerAll(trows, syms, poll, opt.branchGate).value;
    var g := PadLines(textEnd, p.dataBase);
    var d := LowerAll(drows, syms, poll, opt.branchGate).value;
    var z := if opt.kind.Kernel? then PadLines(p.loaded, A4Max(p.loaded, p.bssEnd)) else [];
    FlatAppend(h, t);
    FlatAppend(h + t, g);
    FlatAppend(h + t + g, d);
    FlatAppend(h + t + g + d, z);
    LowerAllAssembles(trows, syms, poll, opt.branchGate);
    LowerAllAssembles(drows, syms, poll, opt.branchGate);
    FlatPad(textEnd, p.dataBase);
    FlatPlains([]);
    assert Plains([]) == [];
    if opt.kind.Kernel? {
      KernelHeadSize(opt, EntryOf(syms));
      FlatPad(p.loaded, A4Max(p.loaded, p.bssEnd));
    }
    head, text, gap, data, tail := Flat(h).value, Flat(t).value, Flat(g).value, Flat(d).value, Flat(z).value;
    SectionSize(TextSec(poll), trows, syms, poll, opt.branchGate);
    SectionSize(DataSec, drows, syms, poll, opt.branchGate);
  }

  // Layout agrees with emission: every line of every object is found, as the
  // bytes it was written as, at the address the layout pass gave it.
  lemma LayoutAgreesWithEmission(objs: seq<Obj>, opt: Options, syms: seq<ImageSym>, bytes: seq<Byte>, k: nat)
    requires Linked(objs, opt, syms, bytes)
    ensures var rows := TextRows(objs, |objs|);
            k < |rows| ==>
              Placed(bytes, PlanOf(objs, opt).base + Total(TextSection(objs, opt), rows[..k]) - Origin(opt),
                     Emit(rows[k], syms, Polling(objs, opt), opt.branchGate))
    ensures var rows := DataRows(objs, |objs|);
            k < |rows| ==>
              Placed(bytes, PlanOf(objs, opt).dataBase + Total(DataSec, rows[..k]) - Origin(opt),
                     Emit(rows[k], syms, Polling(objs, opt), opt.branchGate))
    ensures opt.kind.UserImage? ==> |bytes| == PlanOf(objs, opt).loaded - Origin(opt)
  {
    hide Linked, Emit, RowsBytes, Total, TextRows, DataRows, PlanOf, ImageBytes, Size;
    var head, text, gap, data, tail := ImageParts(objs, opt, syms, bytes);
    var poll := Polling(objs, opt);
    var trows, drows := TextRows(objs, |objs|), DataRows(objs, |objs|);
    if k < |trows| {
      RowPlaced(TextSec(poll), trows, k, syms, poll, opt.branchGate);
      Shifted(head, text, gap + data + tail, Total(TextSec(poll), trows[..k]), Emit(trows[k], syms, poll, opt.branchGate));
      assert head + text + (gap + data + tail) == bytes;
    }
    if k < |drows| {
      DataPredictable(objs, opt, syms, bytes);
      RowPlaced(DataSec, drows, k, syms, poll, opt.branchGate);
      Shifted(head + text + gap, data, tail, Total(DataSec, drows[..k]), Emit(drows[k], syms, poll, opt.branchGate));
    }
  }

  lemma DataPredictable(objs: seq<Obj>, opt: Options, syms: seq<ImageSym>, bytes: seq<Byte>)
    requires Linked(objs, opt, syms, bytes)
    ensures Predictable(DataSec, DataRows(objs, |objs|), Polling(objs, opt))
  {
  }

  // ---- the symbol table holds every label at its line's address ----

  lemma SnocKeeps(syms: Option<seq<ImageSym>>, e: ImageSym)
    requires Snoc(syms, e).Some?
    ensures syms.Some? && syms.value <= Snoc(syms, e).value && e in Snoc(syms, e).value
    ensures NoClash(syms.value) ==> NoClash(Snoc(syms, e).value)
  {
    var s, t := syms.value, Snoc(syms, e).value;
    assert t == s + [e];
    assert t[|s|] == e;
    if NoClash(s) {
      forall i, j | 0 <= i < j < |t| ensures !Clash(t[i], t[j]) {
        if j == |s| {
          assert t[i] in s;
        }
      }
    }
  }

  lemma {:induction false} ScanKeeps(objs: seq<Obj>, sec: Section, rows: seq<Row>, base: nat, syms: Option<seq<ImageSym>>)
    requires Scan(objs, sec, rows, base, syms).Some?
    ensures syms.Some? && syms.value <= Scan(objs, sec, rows, base, syms).value
    ensures NoClash(syms.value) ==> NoClash(Scan(objs, sec, rows, base, syms).value)
    decreases |rows|
  {
    hide Snoc, NoClash, Total, Exported;
    if |rows| > 0 {
      var n := |rows| - 1;
      var s := Scan(objs, sec, rows[..n], base, syms);
      if rows[n].line.Label? {
        SnocKeeps(s, ImageSym(rows[n].line.sym, Wrap(base + Total(sec, rows[..n])), rows[n].owner, Exported(objs, rows[n].owner, rows[n].line.sym)));
      }
      ScanKeeps(objs, sec, rows[..n], base, syms);
    }
  }

  function EntryFor(objs: seq<Obj>, sec: Section, rows: seq<Row>, k: nat, base: nat): ImageSym
    requires k < |rows| && rows[k].line.Label?
  {
    ImageSym(rows[k].line.sym, Wrap(base + Total(sec, rows[..k])), rows[k].owner, Exported(objs, rows[k].owner, rows[k].line.sym))
  }

  lemma {:induction false} ScanHas(objs: seq<Obj>, sec: Section, rows: seq<Row>, k: nat, base: nat, syms: Option<seq<ImageSym>>)
    requires Scan(objs, sec, rows, base, syms).Some? && k < |rows| && rows[k].line.Label?
    ensures EntryFor(objs, sec, rows, k, base) in Scan(objs, sec, rows, base, syms).value
    decreases |rows|
  {
    hide Snoc, NoClash, Total, Exported;
    var n := |rows| - 1;
    var s := Scan(objs, sec, rows[..n], base, syms);
    if k == n {
      SnocKeeps(s, EntryFor(objs, sec, rows, n, base));
    } else {
      if rows[n].line.Label? {
        SnocKeeps(s, EntryFor(objs, sec, rows, n, base));
      }
      ScanHas(objs, sec, rows[..n], k, base, syms);
      assert rows[..n][..k] == rows[..k];
    }
  }

  lemma {:induction false} BssKeeps(objs: seq<Obj>, rows: seq<BssRow>, base: nat, syms: Option<seq<ImageSym>>)
    requires BssScan(objs, rows, base, syms).Some?
    ensures syms.Some? && syms.value <= BssScan(objs, rows, base, syms).value
    ensures NoClash(syms.value) ==> NoClash(BssScan(objs, rows, base, syms).value)
    decreases |rows|
  {
    hide Snoc, NoClash, BssEnd, Exported;
    if |rows| > 0 {
      var n := |rows| - 1;
      SnocKeeps(BssScan(objs, rows[..n], base, syms),
                ImageSym(rows[n].bss.name, Wrap(BssEnd(rows[..n], base)), rows[n].owner, Exported(objs, rows[n].owner, rows[n].bss.name)));
      BssKeeps(objs, rows[..n], base, syms);
    }
  }

  // A bss object's entry: where the objects before it end.
  function BssEntry(objs: seq<Obj>, rows: seq<BssRow>, k: nat, base: nat): ImageSym
    requires k < |rows|
  {
    ImageSym(rows[k].bss.name, Wrap(BssEnd(rows[..k], base)), rows[k].owner, Exported(objs, rows[k].owner, rows[k].bss.name))
  }

  lemma {:induction false} BssHas(objs: seq<Obj>, rows: seq<BssRow>, k: nat, base: nat, syms: Option<seq<ImageSym>>)
    requires BssScan(objs, rows, base, syms).Some? && k < |rows|
    ensures BssEntry(objs, rows, k, base) in BssScan(objs, rows, base, syms).value
    decreases |rows|
  {
    hide Snoc, NoClash, BssEnd, Exported;
    var n := |rows| - 1;
    var s := BssScan(objs, rows[..n], base, syms);
    SnocKeeps(s, BssEntry(objs, rows, n, base));
    if k < n {
      BssHas(objs, rows[..n], k, base, syms);
      assert rows[..n][..k] == rows[..k];
    }
  }

  lemma {:induction false} SnocAllHas(syms: Option<seq<ImageSym>>, es: seq<ImageSym>, k: nat)
    requires SnocAll(syms, es).Some? && k < |es|
    ensures es[k] in SnocAll(syms, es).value
    decreases |es|
  {
    hide Snoc, NoClash;
    SnocAllKeeps(Snoc(syms, es[0]), es[1..]);
    if k == 0 {
      SnocKeeps(syms, es[0]);
      PrefixIn(Snoc(syms, es[0]).value, SnocAll(syms, es).value, es[0]);
    } else {
      SnocAllHas(Snoc(syms, es[0]), es[1..], k - 1);
    }
  }

  lemma {:induction false} SnocAllKeeps(syms: Option<seq<ImageSym>>, es: seq<ImageSym>)
    requires SnocAll(syms, es).Some?
    ensures syms.Some? && syms.value <= SnocAll(syms, es).value
    ensures NoClash(syms.value) ==> NoClash(SnocAll(syms, es).value)
    decreases |es|
  {
    hide Snoc, NoClash;
    if |es| > 0 {
      SnocAllKeeps(Snoc(syms, es[0]), es[1..]);
      SnocKeeps(syms, es[0]);
    }
  }

  // The table has no clashing entries, one entry per label line, holding the
  // address where that line's successor is emitted, one per bss object, and the
  // linker's own.
  lemma SymbolTable(objs: seq<Obj>, opt: Options, syms: seq<ImageSym>)
    requires SymsOf(objs, opt) == Some(syms)
    ensures NoClash(syms)
    ensures var rows := TextRows(objs, |objs|);
            forall k | 0 <= k < |rows| && rows[k].line.Label? ::
              EntryFor(objs, TextSection(objs, opt), rows, k, PlanOf(objs, opt).base) in syms
    ensures var rows := DataRows(objs, |objs|);
            forall k | 0 <= k < |rows| && rows[k].line.Label? ::
              EntryFor(objs, DataSec, rows, k, PlanOf(objs, opt).dataBase) in syms
    ensures var rows := BssRows(objs, |objs|);
            forall k | 0 <= k < |rows| :: BssEntry(objs, rows, k, PlanOf(objs, opt).bssBase) in syms
    ensures forall e | e in Specials(PlanOf(objs, opt), opt) :: e in syms
  {
    hide Scan, BssScan, SnocAll, TextRows, DataRows, BssRows, PlanOf, Specials, Snoc, EntryFor, BssEntry;
    var p := PlanOf(objs, opt);
    var trows, drows, brows := TextRows(objs, |objs|), DataRows(objs, |objs|), BssRows(objs, |objs|);
    var text := Scan(objs, TextSection(objs, opt), trows, p.base, Some([]));
    var data := Scan(objs, DataSec, drows, p.dataBase, text);
    var bss := BssScan(objs, BssRows(objs, |objs|), p.bssBase, data);
    SnocAllKeeps(bss, Specials(p, opt));
    BssKeeps(objs, BssRows(objs, |objs|), p.bssBase, data);
    ScanKeeps(objs, DataSec, drows, p.dataBase, text);
    ScanKeeps(objs, TextSection(objs, opt), trows, p.base, Some([]));
    forall k | 0 <= k < |trows| && trows[k].line.Label?
      ensures EntryFor(objs, TextSection(objs, opt), trows, k, p.base) in syms
    {
      ScanHas(objs, TextSection(objs, opt), trows, k, p.base, Some([]));
      PrefixIn(text.value, syms, EntryFor(objs, TextSection(objs, opt), trows, k, p.base));
    }
    forall k | 0 <= k < |drows| && drows[k].line.Label?
      ensures EntryFor(objs, DataSec, drows, k, p.dataBase) in syms
    {
      ScanHas(objs, DataSec, drows, k, p.dataBase, text);
      PrefixIn(data.value, syms, EntryFor(objs, DataSec, drows, k, p.dataBase));
    }
    forall k | 0 <= k < |brows| ensures BssEntry(objs, brows, k, p.bssBase) in syms {
      BssHas(objs, brows, k, p.bssBase, data);
      PrefixIn(bss.value, syms, BssEntry(objs, brows, k, p.bssBase));
    }
    forall e | e in Specials(p, opt) ensures e in syms {
      var i :| 0 <= i < |Specials(p, opt)| && Specials(p, opt)[i] == e;
      SnocAllHas(bss, Specials(p, opt), i);
    }
  }

  lemma PrefixIn<T>(a: seq<T>, b: seq<T>, e: T)
    requires a <= b && e in a
    ensures e in b
  {
    var i :| 0 <= i < |a| && a[i] == e;
    assert b[i] == e;
  }

  // Object `from` may refer to the entry: it is its own, or it is exported and
  // from defines no such symbol itself.
  ghost predicate Visible(syms: seq<ImageSym>, e: ImageSym, from: int) {
    && !e.name.Number?
    && (from == e.owner || (e.exported && forall f | f in syms :: !(f.owner == from && f.name == e.name)))
  }

  lemma VisibleResolves(syms: seq<ImageSym>, e: ImageSym, from: int)
    requires NoClash(syms) && e in syms && Visible(syms, e, from)
    ensures Resolve(syms, e.name, from) == Some(e.addr)
  {
    hide Resolve, NoClash;
    var i :| 0 <= i < |syms| && syms[i] == e;
    ResolveFinds(syms, i, from);
  }

  // A reference to a text label denotes the address of the labelled line, from
  // its own object always, and from an object with no such symbol of its own
  // when the definition is exported.
  lemma ReferencesFindDefinitions(objs: seq<Obj>, opt: Options, syms: seq<ImageSym>, k: nat, from: int)
    requires SymsOf(objs, opt) == Some(syms) && k < |TextRows(objs, |objs|)| && TextRows(objs, |objs|)[k].line.Label?
    requires Visible(syms, EntryFor(objs, TextSection(objs, opt), TextRows(objs, |objs|), k, PlanOf(objs, opt).base), from)
    ensures var rows := TextRows(objs, |objs|);
            Resolve(syms, rows[k].line.sym, from)
            == Some(Wrap(PlanOf(objs, opt).base + Total(TextSection(objs, opt), rows[..k])))
  {
    hide SymsOf, TextRows, PlanOf, Resolve, Total, NoClash, Visible;
    SymbolTable(objs, opt, syms);
    VisibleResolves(syms, EntryFor(objs, TextSection(objs, opt), TextRows(objs, |objs|), k, PlanOf(objs, opt).base), from);
  }

  // A reference to a data label denotes the place of its line in the data,
  lemma DataReferencesFindDefinitions(objs: seq<Obj>, opt: Options, syms: seq<ImageSym>, k: nat, from: int)
    requires SymsOf(objs, opt) == Some(syms) && k < |DataRows(objs, |objs|)| && DataRows(objs, |objs|)[k].line.Label?
    requires Visible(syms, EntryFor(objs, DataSec, DataRows(objs, |objs|), k, PlanOf(objs, opt).dataBase), from)
    ensures var rows := DataRows(objs, |objs|);
            Resolve(syms, rows[k].line.sym, from) == Some(Wrap(PlanOf(objs, opt).dataBase + Total(DataSec, rows[..k])))
  {
    hide SymsOf, DataRows, PlanOf, Resolve, Total, NoClash, Visible;
    SymbolTable(objs, opt, syms);
    VisibleResolves(syms, EntryFor(objs, DataSec, DataRows(objs, |objs|), k, PlanOf(objs, opt).dataBase), from);
  }

  // and one to a bss object denotes where the objects before it end.
  lemma BssReferencesFindDefinitions(objs: seq<Obj>, opt: Options, syms: seq<ImageSym>, k: nat, from: int)
    requires SymsOf(objs, opt) == Some(syms) && k < |BssRows(objs, |objs|)|
    requires Visible(syms, BssEntry(objs, BssRows(objs, |objs|), k, PlanOf(objs, opt).bssBase), from)
    ensures var rows := BssRows(objs, |objs|);
            Resolve(syms, rows[k].bss.name, from) == Some(Wrap(BssEnd(rows[..k], PlanOf(objs, opt).bssBase)))
  {
    hide SymsOf, BssRows, PlanOf, Resolve, BssEnd, NoClash, Visible;
    SymbolTable(objs, opt, syms);
    VisibleResolves(syms, BssEntry(objs, BssRows(objs, |objs|), k, PlanOf(objs, opt).bssBase), from);
  }

  // The linker's own symbols denote the limits of the bss and the kernel's gate.
  lemma SpecialReferences(objs: seq<Obj>, opt: Options, syms: seq<ImageSym>, e: ImageSym, from: int)
    requires SymsOf(objs, opt) == Some(syms) && e in Specials(PlanOf(objs, opt), opt)
    requires forall f | f in syms :: !(f.owner == from && f.name == e.name)
    ensures Resolve(syms, e.name, from) == Some(e.addr)
  {
    hide SymsOf, PlanOf, Resolve, NoClash;
    SymbolTable(objs, opt, syms);
    VisibleResolves(syms, e, from);
  }

  lemma {:induction false} BssPrefix(rows: seq<BssRow>, base: nat, j: nat, k: nat)
    requires j <= k <= |rows|
    ensures base <= BssEnd(rows[..j], base) <= BssEnd(rows[..k], base)
    decreases k
  {
    if k > 0 {
      assert rows[..k][..k - 1] == rows[..k - 1];
      if j < k { BssPrefix(rows, base, j, k - 1); } else { BssPrefix(rows, base, k - 1, k - 1); }
    }
  }

  lemma BssNext(rows: seq<BssRow>, base: nat, k: nat)
    requires k < |rows|
    ensures BssEnd(rows[..k], base) + rows[k].bss.size <= BssEnd(rows[..k + 1], base)
  {
    assert rows[..k + 1][..k] == rows[..k];
  }

  // No two bss objects overlap,
  lemma BssObjectsApart(objs: seq<Obj>, opt: Options, j: nat, k: nat)
    requires j < k < |BssRows(objs, |objs|)|
    ensures var rows, p := BssRows(objs, |objs|), PlanOf(objs, opt);
            && p.bssBase <= BssEnd(rows[..j], p.bssBase)
            && BssEnd(rows[..j], p.bssBase) + rows[j].bss.size <= BssEnd(rows[..k], p.bssBase)
  {
    hide BssEnd, BssRows;
    var rows, p := BssRows(objs, |objs|), PlanOf(objs, opt);
    BssNext(rows, p.bssBase, j);
    BssPrefix(rows, p.bssBase, j + 1, k);
    BssPrefix(rows, p.bssBase, j, k);
  }

  // and each lies inside the bss, at a word boundary.
  lemma BssObjectInside(objs: seq<Obj>, opt: Options, k: nat)
    requires k < |BssRows(objs, |objs|)|
    ensures var rows, p := BssRows(objs, |objs|), PlanOf(objs, opt);
            && p.bssBase <= BssEnd(rows[..k], p.bssBase) && BssEnd(rows[..k], p.bssBase) % 4 == 0
            && BssEnd(rows[..k], p.bssBase) + rows[k].bss.size <= p.bssEnd
  {
    hide BssEnd, BssRows, TextRows, DataRows, Total, A4;
    var rows, p := BssRows(objs, |objs|), PlanOf(objs, opt);
    assert rows[..|rows|] == rows;
    A4Aligned(p.loaded);
    BssNext(rows, p.bssBase, k);
    BssPrefix(rows, p.bssBase, k, k);
    BssPrefix(rows, p.bssBase, k + 1, |rows|);
    BssAligned(rows[..k], p.bssBase);
  }

  lemma BssAligned(rows: seq<BssRow>, base: nat)
    requires base % 4 == 0
    ensures BssEnd(rows, base) % 4 == 0
  {
    hide A4;
    if |rows| > 0 { A4Aligned(BssEnd(rows[..|rows| - 1], base) + rows[|rows| - 1].bss.size); }
  }

  lemma A4Aligned(x: nat)
    ensures A4(x) % 4 == 0
  {
  }
}
