// symld_link_ex itself: the loops that build the symbol table and the
// assembler text, proved against the layout functions (symcc/src/link_image.c).
module Linker {
  import opened Words
  import opened Isa
  import opened Asm
  import opened Link
  import opened Layout

  // What linking must produce: nothing when the image does not fit, a symbol
  // clashes or a reference fails; otherwise the table and the assembler text.
  function LinkResult(objs: seq<Obj>, opt: Options): Option<(seq<ImageSym>, seq<AsmLine>)> {
    if !Fits(objs, opt) then None
    else match SymsOf(objs, opt)
      case None => None
      case Some(syms) =>
        match ImageLines(objs, opt, syms)
        case None => None
        case Some(lines) => Some((syms, lines))
  }

  // ---- failure is permanent ----

  lemma {:induction false} ScanFails(objs: seq<Obj>, sec: Section, a: seq<Row>, b: seq<Row>, base: nat, syms: Option<seq<ImageSym>>)
    requires Scan(objs, sec, a, base, syms).None?
    ensures Scan(objs, sec, a + b, base, syms).None?
    decreases |b|
  {
    hide Total, Exported;
    if |b| == 0 {
      assert a + b == a;
    } else {
      var n := |b| - 1;
      ScanFails(objs, sec, a, b[..n], base, syms);
      assert (a + b)[..|a + b| - 1] == a + b[..n];
    }
  }

  lemma {:induction false} BssFails(objs: seq<Obj>, a: seq<BssRow>, b: seq<BssRow>, base: nat, syms: Option<seq<ImageSym>>)
    requires BssScan(objs, a, base, syms).None?
    ensures BssScan(objs, a + b, base, syms).None?
    decreases |b|
  {
    hide BssEnd, Exported;
    if |b| == 0 {
      assert a + b == a;
    } else {
      var n := |b| - 1;
      BssFails(objs, a, b[..n], base, syms);
      assert (a + b)[..|a + b| - 1] == a + b[..n];
    }
  }

  lemma {:induction false} LowerFails(a: seq<Row>, b: seq<Row>, syms: seq<ImageSym>, poll: bool, gate: Word)
    requires LowerAll(a, syms, poll, gate).None?
    ensures LowerAll(a + b, syms, poll, gate).None?
    decreases |b|
  {
    hide Lower;
    if |b| == 0 {
      assert a + b == a;
    } else {
      var n := |b| - 1;
      LowerFails(a, b[..n], syms, poll, gate);
      assert (a + b)[..|a + b| - 1] == a + b[..n];
    }
  }

  lemma LowerCut(a: seq<Row>, z: seq<Row>, syms: seq<ImageSym>, poll: bool, gate: Word)
    requires a <= z && LowerAll(a, syms, poll, gate).None?
    ensures LowerAll(z, syms, poll, gate).None?
  {
    hide LowerAll;
    LowerFails(a, z[|a|..], syms, poll, gate);
    assert z == a + z[|a|..];
  }

  lemma LowerNothing(syms: seq<ImageSym>, poll: bool, gate: Word)
    ensures LowerAll([], syms, poll, gate) == Some([])
  {
  }

  lemma {:induction false} BssGrows(a: seq<BssRow>, b: seq<BssRow>, base: nat)
    ensures BssEnd(a, base) <= BssEnd(a + b, base)
    decreases |b|
  {
    if |b| == 0 {
      assert a + b == a;
    } else {
      var n := |b| - 1;
      BssGrows(a, b[..n], base);
      assert (a + b)[..|a + b| - 1] == a + b[..n];
      A4Grows(BssEnd(a + b[..n], base) + b[n].bss.size);
    }
  }

  // A section of the flattened program splits at every object and line.
  lemma {:induction false} TextSplit(objs: seq<Obj>, i: nat)
    requires i <= |objs|
    ensures TextRows(objs, i) <= TextRows(objs, |objs|)
    decreases |objs| - i
  {
    hide RowsOf;
    if i < |objs| {
      TextSplit(objs, i + 1);
    }
  }

  lemma {:induction false} DataSplit(objs: seq<Obj>, i: nat)
    requires i <= |objs|
    ensures DataRows(objs, i) <= DataRows(objs, |objs|)
    decreases |objs| - i
  {
    hide RowsOf;
    if i < |objs| {
      DataSplit(objs, i + 1);
    }
  }

  lemma {:induction false} BssSplit(objs: seq<Obj>, i: nat)
    requires i <= |objs|
    ensures BssRows(objs, i) <= BssRows(objs, |objs|)
    decreases |objs| - i
  {
    hide BssOf;
    if i < |objs| {
      BssSplit(objs, i + 1);
    }
  }

  lemma RowsSnoc(lines: seq<Line>, owner: nat, k: nat)
    requires k < |lines|
    ensures RowsOf(lines, owner)[..k + 1] == RowsOf(lines, owner)[..k] + [Row(owner, lines[k])]
  {
  }

  class Image {
    var syms: seq<ImageSym>
    var out: seq<AsmLine>

    constructor ()
      ensures syms == [] && out == []
    {
      syms, out := [], [];
    }

    // add: append unless the name is already taken.
    method Add(e: ImageSym) returns (ok: bool)
      modifies this`syms
      ensures ok == Snoc(Some(old(syms)), e).Some?
      ensures if ok then Snoc(Some(old(syms)), e) == Some(syms) else syms == old(syms)
    {
      for i := 0 to |syms|
        invariant syms == old(syms)
        invariant forall j | 0 <= j < i :: !Clash(syms[j], e)
      {
        if syms[i].name == e.name && (syms[i].owner == e.owner || (e.exported && syms[i].exported)) {
          assert Clash(syms[i], e);
          return false;
        }
      }
      syms := syms + [e];
      ok := true;
    }

    // resolve: two searches of the table.
    method Find(name: Sym, owner: int) returns (r: Option<Word>)
      ensures r == Resolve(syms, name, owner)
    {
      if name.Number? {
        return Some(name.v);
      }
      var i := 0;
      while i < |syms|
        invariant 0 <= i <= |syms| && FirstOwn(syms[i..], name, owner) == FirstOwn(syms, name, owner)
      {
        if syms[i].owner == owner && syms[i].name == name {
          return Some(syms[i].addr);
        }
        assert syms[i..][1..] == syms[i + 1..];
        i := i + 1;
      }
      i := 0;
      while i < |syms|
        invariant 0 <= i <= |syms| && FirstExported(syms[i..], name) == FirstExported(syms, name)
      {
        if syms[i].exported && syms[i].name == name {
          return Some(syms[i].addr);
        }
        assert syms[i..][1..] == syms[i + 1..];
        i := i + 1;
      }
      r := None;
    }

    // labels: one object's section, whose first line stands at base.
    method Labels(objs: seq<Obj>, sec: Section, lines: seq<Line>, owner: nat, base: nat,
                  ghost prior: seq<Row>, ghost start: nat, ghost init: seq<ImageSym>) returns (ok: bool)
      requires base == start + Total(sec, prior)
      requires Scan(objs, sec, prior, start, Some(init)) == Some(syms)
      modifies this`syms
      ensures ok == Scan(objs, sec, prior + RowsOf(lines, owner), start, Some(init)).Some?
      ensures ok ==> Scan(objs, sec, prior + RowsOf(lines, owner), start, Some(init)) == Some(syms)
    {
      hide Snoc, Total, SizeIn, Exported, RowsOf;
      var pos := base;
      ghost var rows := RowsOf(lines, owner);
      assert prior + rows[..0] == prior;
      for i := 0 to |lines|
        invariant pos == start + Total(sec, prior + rows[..i])
        invariant Scan(objs, sec, prior + rows[..i], start, Some(init)) == Some(syms)
      {
        RowsSnoc(lines, owner, i);
        ghost var r := Row(owner, lines[i]);
        assert prior + rows[..i + 1] == (prior + rows[..i]) + [r];
        TotalSnoc(sec, prior + rows[..i], r);
        ScanSnoc(objs, sec, prior + rows[..i], r, start, Some(init));
        if lines[i].Label? {
          ok := Add(ImageSym(lines[i].sym, Wrap(pos), owner, Exported(objs, owner, lines[i].sym)));
          if !ok {
            ScanFails(objs, sec, prior + rows[..i + 1], rows[i + 1..], start, Some(init));
            assert prior + rows == prior + rows[..i + 1] + rows[i + 1..];
            return false;
          }
        }
        pos := pos + SizeIn(sec, lines[i]);
      }
      assert rows[..|lines|] == rows;
      ok := true;
    }

    // line: write the lines of one section of one object.
    method Lines(lines: seq<Line>, owner: nat, poll: bool, gate: Word, ghost prior: seq<Row>, ghost front: seq<AsmLine>)
      returns (ok: bool)
      requires LowerAll(prior, syms, poll, gate).Some? && out == front + LowerAll(prior, syms, poll, gate).value
      modifies this`out
      ensures ok == LowerAll(prior + RowsOf(lines, owner), syms, poll, gate).Some?
      ensures ok ==> out == front + LowerAll(prior + RowsOf(lines, owner), syms, poll, gate).value
    {
      hide Lower, RowsOf, LowerAll;
      ghost var rows := RowsOf(lines, owner);
      ghost var soFar := LowerAll(prior, syms, poll, gate).value;
      assert prior + rows[..0] == prior;
      for i := 0 to |lines|
        invariant LowerAll(prior + rows[..i], syms, poll, gate) == Some(soFar) && out == front + soFar
      {
        RowsSnoc(lines, owner, i);
        assert prior + rows[..i + 1] == (prior + rows[..i]) + [Row(owner, lines[i])];
        LowerSnoc(prior + rows[..i], Row(owner, lines[i]), syms, poll, gate);
        var l := Lower(Row(owner, lines[i]), syms, poll, gate);
        if l.None? {
          LowerFails(prior + rows[..i + 1], rows[i + 1..], syms, poll, gate);
          assert prior + rows == prior + rows[..i + 1] + rows[i + 1..];
          return false;
        }
        out := out + l.value;
        assert front + (soFar + l.value) == (front + soFar) + l.value;
        soFar := soFar + l.value;
      }
      assert rows[..|lines|] == rows;
      ok := true;
    }

    // pad
    method Pad(lo: nat, hi: nat)
      requires lo <= hi
      modifies this`out
      ensures out == old(out) + PadLines(lo, hi)
    {
      ghost var whole := PadLines(lo, hi);
      ghost var n := 0;
      var pos := lo;
      while pos + 4 <= hi
        invariant lo <= pos <= hi && n <= |whole| && whole[n..] == PadLines(pos, hi) && out == old(out) + whole[..n]
      {
        SplitStep(whole, n, Data([0, 0, 0, 0]), PadLines(pos + 4, hi));
        n := n + 1;
        out := out + [Data([0, 0, 0, 0])];
        pos := pos + 4;
      }
      while pos < hi
        invariant lo <= pos <= hi && hi - pos < 4
        invariant n <= |whole| && whole[n..] == PadLines(pos, hi) && out == old(out) + whole[..n]
      {
        SplitStep(whole, n, Data([0]), PadLines(pos + 1, hi));
        n := n + 1;
        out := out + [Data([0])];
        pos := pos + 1;
      }
    }

    // The advance loop of one section of one object, then its labels.
    method LaySection(objs: seq<Obj>, sec: Section, lines: seq<Line>, owner: nat, pos: nat, limit: nat,
                      ghost prior: seq<Row>, ghost start: nat, ghost init: seq<ImageSym>) returns (ok: bool, end: nat)
      requires pos == start + Total(sec, prior) && pos <= limit
      requires Scan(objs, sec, prior, start, Some(init)) == Some(syms)
      modifies this`syms
      ensures end == start + Total(sec, prior + RowsOf(lines, owner)) || !ok
      ensures ok == (start + Total(sec, prior + RowsOf(lines, owner)) <= limit
                     && Scan(objs, sec, prior + RowsOf(lines, owner), start, Some(init)).Some?)
      ensures ok ==> Scan(objs, sec, prior + RowsOf(lines, owner), start, Some(init)) == Some(syms)
    {
      hide Total, SizeIn, RowsOf;
      end := pos;
      ghost var rows := RowsOf(lines, owner);
      assert prior + rows[..0] == prior;
      for i := 0 to |lines|
        invariant end == start + Total(sec, prior + rows[..i]) && end <= limit && syms == old(syms)
      {
        RowsSnoc(lines, owner, i);
        assert prior + rows[..i + 1] == (prior + rows[..i]) + [Row(owner, lines[i])];
        TotalSnoc(sec, prior + rows[..i], Row(owner, lines[i]));
        if SizeIn(sec, lines[i]) > limit - end {
          assert (prior + rows)[..|prior| + i + 1] == prior + rows[..i + 1];
          TotalPrefix(sec, prior + rows, |prior| + i + 1);
          return false, end;
        }
        end := end + SizeIn(sec, lines[i]);
      }
      assert rows[..|lines|] == rows;
      ok := Labels(objs, sec, lines, owner, pos, prior, start, init);
    }

    method LayText(objs: seq<Obj>, poll: bool, base: nat, limit: nat) returns (ok: bool, pos: nat)
      requires syms == [] && base <= limit
      modifies this`syms
      ensures ok == (base + Total(TextSec(poll), TextRows(objs, |objs|)) <= limit
                     && Scan(objs, TextSec(poll), TextRows(objs, |objs|), base, Some([])).Some?)
      ensures ok ==> pos == base + Total(TextSec(poll), TextRows(objs, |objs|))
      ensures ok ==> Scan(objs, TextSec(poll), TextRows(objs, |objs|), base, Some([])) == Some(syms)
    {
      hide RowsOf, SizeIn, Snoc, Exported;
      var sec := TextSec(poll);
      pos := base;
      for i := 0 to |objs|
        invariant pos == base + Total(sec, TextRows(objs, i)) && pos <= limit
        invariant Scan(objs, sec, TextRows(objs, i), base, Some([])) == Some(syms)
      {
        ok, pos := LaySection(objs, sec, objs[i].text, i, pos, limit, TextRows(objs, i), base, []);
        if !ok {
          TextSplit(objs, i + 1);
          LateFailure(objs, sec, TextRows(objs, i + 1), TextRows(objs, |objs|), base, Some([]));
          return;
        }
      }
      ok := true;
    }

    method LayData(objs: seq<Obj>, base: nat, limit: nat, ghost init: seq<ImageSym>) returns (ok: bool, pos: nat)
      requires syms == init && base <= limit
      modifies this`syms
      ensures ok == (base + Total(DataSec, DataRows(objs, |objs|)) <= limit
                     && Scan(objs, DataSec, DataRows(objs, |objs|), base, Some(init)).Some?)
      ensures ok ==> pos == base + Total(DataSec, DataRows(objs, |objs|))
      ensures ok ==> Scan(objs, DataSec, DataRows(objs, |objs|), base, Some(init)) == Some(syms)
    {
      hide RowsOf, SizeIn, Snoc, Exported;
      pos := base;
      for i := 0 to |objs|
        invariant pos == base + Total(DataSec, DataRows(objs, i)) && pos <= limit
        invariant Scan(objs, DataSec, DataRows(objs, i), base, Some(init)) == Some(syms)
      {
        ok, pos := LaySection(objs, DataSec, objs[i].data, i, pos, limit, DataRows(objs, i), base, init);
        if !ok {
          DataSplit(objs, i + 1);
          LateFailure(objs, DataSec, DataRows(objs, i + 1), DataRows(objs, |objs|), base, Some(init));
          return;
        }
      }
      ok := true;
    }

    // One object's bss list.
    method LayBssOf(objs: seq<Obj>, owner: nat, bss: seq<Bss>, pos: nat, limit: nat,
                    ghost prior: seq<BssRow>, ghost base: nat, ghost init: seq<ImageSym>) returns (ok: bool, end: nat)
      requires pos == BssEnd(prior, base) && pos <= limit
      requires BssScan(objs, prior, base, Some(init)) == Some(syms)
      modifies this`syms
      ensures ok == (BssEnd(prior + BssOf(bss, owner), base) <= limit
                     && BssScan(objs, prior + BssOf(bss, owner), base, Some(init)).Some?)
      ensures ok ==> end == BssEnd(prior + BssOf(bss, owner), base)
      ensures ok ==> BssScan(objs, prior + BssOf(bss, owner), base, Some(init)) == Some(syms)
    {
      hide Snoc, Exported, A4;
      end := pos;
      ghost var rows := BssOf(bss, owner);
      assert prior + rows[..0] == prior;
      for i := 0 to |bss|
        invariant end == BssEnd(prior + rows[..i], base) && end <= limit
        invariant BssScan(objs, prior + rows[..i], base, Some(init)) == Some(syms)
      {
        assert rows[i] == BssRow(owner, bss[i]);
        assert (prior + rows[..i + 1])[..|prior| + i] == prior + rows[..i];
        assert prior + rows == prior + rows[..i + 1] + rows[i + 1..];
        var next := A4(end + bss[i].size);
        A4Grows(end + bss[i].size);
        assert next == BssEnd(prior + rows[..i + 1], base);
        if bss[i].size > limit - end || next > limit {
          BssGrows(prior + rows[..i + 1], rows[i + 1..], base);
          return false, end;
        }
        ok := Add(ImageSym(bss[i].name, Wrap(end), owner, Exported(objs, owner, bss[i].name)));
        if !ok {
          BssFails(objs, prior + rows[..i + 1], rows[i + 1..], base, Some(init));
          return;
        }
        end := next;
      }
      assert rows[..|bss|] == rows;
      ok := true;
    }

    method LayBss(objs: seq<Obj>, base: nat, limit: nat, ghost init: seq<ImageSym>) returns (ok: bool, pos: nat)
      requires syms == init && base <= limit
      modifies this`syms
      ensures ok == (BssEnd(BssRows(objs, |objs|), base) <= limit
                     && BssScan(objs, BssRows(objs, |objs|), base, Some(init)).Some?)
      ensures ok ==> pos == BssEnd(BssRows(objs, |objs|), base)
      ensures ok ==> BssScan(objs, BssRows(objs, |objs|), base, Some(init)) == Some(syms)
    {
      hide BssOf, Snoc, Exported;
      pos := base;
      for i := 0 to |objs|
        invariant pos == BssEnd(BssRows(objs, i), base) && pos <= limit
        invariant BssScan(objs, BssRows(objs, i), base, Some(init)) == Some(syms)
      {
        ok, pos := LayBssOf(objs, i, objs[i].bss, pos, limit, BssRows(objs, i), base, init);
        if !ok {
          BssSplit(objs, i + 1);
          var a, z := BssRows(objs, i + 1), BssRows(objs, |objs|);
          assert z == a + z[|a|..];
          BssGrows(a, z[|a|..], base);
          if BssScan(objs, a, base, Some(init)).None? {
            BssFails(objs, a, z[|a|..], base, Some(init));
          }
          return;
        }
      }
      ok := true;
    }

    method AddAll(es: seq<ImageSym>) returns (ok: bool)
      modifies this`syms
      ensures ok == SnocAll(Some(old(syms)), es).Some?
      ensures ok ==> SnocAll(Some(old(syms)), es) == Some(syms)
    {
      hide Snoc;
      var i := 0;
      while i < |es|
        invariant 0 <= i <= |es| && SnocAll(Some(syms), es[i..]) == SnocAll(Some(old(syms)), es)
      {
        assert es[i..][1..] == es[i + 1..];
        ok := Add(es[i]);
        if !ok {
          SnocAllNone(es[i + 1..]);
          return;
        }
        i := i + 1;
      }
      ok := true;
    }

    // The first half of symld_link_ex: lay out text, data and bss, then the
    // linker's own symbols.
    method LayOut(objs: seq<Obj>, opt: Options) returns (ok: bool)
      requires syms == []
      modifies this`syms
      ensures ok == (Fits(objs, opt) && SymsOf(objs, opt).Some?)
      ensures ok ==> Some(syms) == SymsOf(objs, opt)
    {
      hide Scan, BssScan, Total, TextRows, DataRows, BssRows, BssEnd, Polling, SnocAll, A4, Specials;
      var p := PlanOf(objs, opt);
      PlanOrder(objs, opt);
      var base, poll := BaseOf(opt), Polling(objs, opt);
      if base >= opt.limit {
        return false;
      }
      var pos: nat;
      ok, pos := LayText(objs, poll, base, opt.limit);
      if !ok || A4(pos) > opt.limit {
        ScanNone(objs, DataSec, DataRows(objs, |objs|), p.dataBase);
        BssNone(objs, BssRows(objs, |objs|), p.bssBase);
        SnocAllNone(Specials(p, opt));
        return false;
      }
      ok, pos := LayData(objs, A4(pos), opt.limit, syms);
      if !ok || A4(pos) > opt.limit {
        BssNone(objs, BssRows(objs, |objs|), p.bssBase);
        SnocAllNone(Specials(p, opt));
        return false;
      }
      ok, pos := LayBss(objs, A4(pos), opt.limit, syms);
      if !ok {
        SnocAllNone(Specials(p, opt));
        return false;
      }
      ok := AddAll(Specials(p, opt));
    }

    // The kernel entry: the last exported match, which is the only one.
    method FindEntry() returns (entry: Word)
      requires NoClash(syms)
      ensures entry == EntryOf(syms)
    {
      hide NoClash;
      entry := 0x140;
      ghost var at := -1;
      for k := 0 to |syms|
        invariant -1 <= at < k
        invariant at == -1 ==> entry == 0x140 && forall j | 0 <= j < k :: !(syms[j].exported && syms[j].name == KERNEL_ENTRY)
        invariant at >= 0 ==> syms[at].exported && syms[at].name == KERNEL_ENTRY && entry == syms[at].addr
      {
        if syms[k].exported && syms[k].name == KERNEL_ENTRY {
          entry := syms[k].addr;
          at := k;
        }
      }
      if at >= 0 {
        FirstExportedIs(syms, at);
      } else {
        NoExported(syms, KERNEL_ENTRY);
      }
    }

    method WriteHead(opt: Options) returns (ok: bool)
      requires out == [] && NoClash(syms)
      modifies this`out
      ensures ok == HeadLines(opt, syms).Some?
      ensures ok ==> Some(out) == HeadLines(opt, syms)
    {
      if opt.kind.UserImage? {
        return true;
      }
      var e := FindEntry();
      if opt.branchGate < 4 || opt.syscallGate + 16 > 0x140 {
        return false;
      }
      out := [Plain(JmpI(0x3000))];
      Pad(4, opt.branchGate);
      out := out + [Plain(JmpR(R13))];
      out := out + Plains(Target(e) + [JmpR(R13)]);
      Pad(opt.syscallGate + 16, 0x140);
      out := out + [Def("halt"), Plain(JmpI(0x140))];
      Pad(0x144, 0x3000);
      ok := true;
    }

    // symld_link_ex: the assembler text of the image, or an error.
    method LinkImage(objs: seq<Obj>, opt: Options) returns (ok: bool)
      requires syms == [] && out == []
      modifies this
      ensures ok == LinkResult(objs, opt).Some?
      ensures ok ==> LinkResult(objs, opt) == Some((syms, out))
    {
      hide SymsOf, LowerAll, Total, TextRows, DataRows, BssRows, BssEnd, Polling, A4, HeadLines;
      ok := LayOut(objs, opt);
      if !ok { return; }
      var p, poll := PlanOf(objs, opt), Polling(objs, opt);
      SymbolTable(objs, opt, syms);
      ok := WriteHead(opt);
      if !ok { return; }
      ok := WriteText(objs, poll, opt.branchGate);
      if !ok { return; }
      PlanOrder(objs, opt);
      var textEnd := p.base + Total(TextSec(poll), TextRows(objs, |objs|));
      Pad(textEnd, p.dataBase);
      ok := WriteData(objs, poll, opt.branchGate);
      if !ok { return; }
      assert out + [] == out;
      if opt.kind.Kernel? {
        Pad(p.loaded, A4Max(p.loaded, p.bssEnd));
      }
    }

    method WriteText(objs: seq<Obj>, poll: bool, gate: Word) returns (ok: bool)
      modifies this`out
      ensures ok == LowerAll(TextRows(objs, |objs|), syms, poll, gate).Some?
      ensures ok ==> out == old(out) + LowerAll(TextRows(objs, |objs|), syms, poll, gate).value
    {
      hide RowsOf, Lower, LowerAll;
      LowerNothing(syms, poll, gate);
      for i := 0 to |objs|
        invariant LowerAll(TextRows(objs, i), syms, poll, gate).Some?
        invariant out == old(out) + LowerAll(TextRows(objs, i), syms, poll, gate).value
      {
        ok := Lines(objs[i].text, i, poll, gate, TextRows(objs, i), old(out));
        if !ok {
          TextSplit(objs, i + 1);
          LowerCut(TextRows(objs, i + 1), TextRows(objs, |objs|), syms, poll, gate);
          return;
        }
      }
      ok := true;
    }

    method WriteData(objs: seq<Obj>, poll: bool, gate: Word) returns (ok: bool)
      modifies this`out
      ensures ok == LowerAll(DataRows(objs, |objs|), syms, poll, gate).Some?
      ensures ok ==> out == old(out) + LowerAll(DataRows(objs, |objs|), syms, poll, gate).value
    {
      hide RowsOf, Lower, LowerAll;
      LowerNothing(syms, poll, gate);
      for i := 0 to |objs|
        invariant LowerAll(DataRows(objs, i), syms, poll, gate).Some?
        invariant out == old(out) + LowerAll(DataRows(objs, i), syms, poll, gate).value
      {
        ok := Lines(objs[i].data, i, poll, gate, DataRows(objs, i), old(out));
        if !ok {
          DataSplit(objs, i + 1);
          LowerCut(DataRows(objs, i + 1), DataRows(objs, |objs|), syms, poll, gate);
          return;
        }
      }
      ok := true;
    }
  }

  lemma {:induction false} NoExported(syms: seq<ImageSym>, name: Sym)
    requires forall j | 0 <= j < |syms| :: !(syms[j].exported && syms[j].name == name)
    ensures FirstExported(syms, name) == None
  {
    if |syms| > 0 {
      forall j | 0 <= j < |syms[1..]| ensures !(syms[1..][j].exported && syms[1..][j].name == name) {
        assert syms[1..][j] == syms[j + 1];
      }
      NoExported(syms[1..], name);
    }
  }

  // What the linker writes never depends on the assembler's label table.
  lemma ImageClosed(objs: seq<Obj>, opt: Options, syms: seq<ImageSym>)
    requires ImageLines(objs, opt, syms).Some?
    ensures AllClosed(ImageLines(objs, opt, syms).value)
  {
    hide LowerAll, PadLines, Total, KernelHead, TextRows, DataRows, BssRows, BssEnd, EntryOf, A4Max, A4, Closed;
    var p := PlanOf(objs, opt);
    var poll := Polling(objs, opt);
    PlanOrder(objs, opt);
    LowerAllAssembles(TextRows(objs, |objs|), syms, poll, opt.branchGate);
    LowerAllAssembles(DataRows(objs, |objs|), syms, poll, opt.branchGate);
    FlatPad(p.base + Total(TextSec(poll), TextRows(objs, |objs|)), p.dataBase);
    if opt.kind.Kernel? {
      KernelHeadSize(opt, EntryOf(syms));
      FlatPad(p.loaded, A4Max(p.loaded, p.bssEnd));
    }
  }

  // The user-image file: seven header words, then the image.
  datatype UserFile = UserFile(magic: Word, version: Word, entry: Word, loaded: Word, bss: Word, stack: Word, zero: Word, image: seq<Byte>)

  // A file headed with the layout: 64 KiB of stack, and the address of _start
  // and the sizes relative to the base.
  ghost predicate Made(objs: seq<Obj>, opt: Options, f: UserFile) {
    && opt.kind.UserImage? && LinkResult(objs, opt).Some?
    && f.magic == 0x5350_5831 && f.version == 1 && f.stack == 65536 && f.zero == 0
    && f.loaded == PlanOf(objs, opt).loaded - opt.base
    && f.loaded + f.bss == PlanOf(objs, opt).bssEnd - opt.base
    && Resolve(LinkResult(objs, opt).value.0, Name("_start"), 0) == Some(Wrap(f.entry + opt.base))
  }

  // be32 of each header word, then the image.
  function FileBytes(f: UserFile): seq<Byte> {
    WordBytes(f.magic) + WordBytes(f.version) + WordBytes(f.entry) + WordBytes(f.loaded) + WordBytes(f.bss)
    + WordBytes(f.stack) + WordBytes(f.zero) + f.image
  }

  // symld_link_ex with a binary output: link, assemble into a buffer of the
  // loaded size and head it with the layout.
  method LinkUser(objs: seq<Obj>, opt: Options) returns (file: Option<UserFile>)
    requires opt.kind.UserImage?
    ensures file.Some? ==> LinkResult(objs, opt).Some? && Assembled(LinkResult(objs, opt).value.1, PlanOf(objs, opt).loaded - opt.base) == Some(file.value.image)
    ensures file.Some? && Predictable(DataSec, DataRows(objs, |objs|), Polling(objs, opt)) ==> Linked(objs, opt, LinkResult(objs, opt).value.0, file.value.image)
    ensures file.Some? ==> Made(objs, opt, file.value)
  {
    hide LinkResult, ImageLines, Flat, Assembled, PlanOf, SymsOf, Polling, Predictable, Resolve;
    var image := new Image();
    var ok := image.LinkImage(objs, opt);
    if !ok {
      return None;
    }
    PlanOrder(objs, opt);
    var p := PlanOf(objs, opt);
    PlanInWindow(objs, opt);
    var asm := new Assembler(p.loaded - opt.base);
    var size := asm.Assemble(image.out);
    if size.None? {
      return None;
    }
    var entry := image.Find(Name("_start"), 0);
    if entry.None? {
      return None;
    }
    LinkedFile(objs, opt, p.loaded - opt.base, image.syms, image.out);
    file := Some(UserFile(0x53505831, 1, Wrap(entry.value - opt.base), p.loaded - opt.base, p.bssEnd - p.loaded, 65536, 0,
                          asm.out[..size.value]));
  }

  lemma PlanInWindow(objs: seq<Obj>, opt: Options)
    requires LinkResult(objs, opt).Some? && opt.kind.UserImage?
    ensures PlanOf(objs, opt).base == opt.base && PlanOf(objs, opt).bssEnd < W
  {
  }

  lemma LinkedFile(objs: seq<Obj>, opt: Options, cap: nat, syms: seq<ImageSym>, lines: seq<AsmLine>)
    requires opt.kind.UserImage?
    requires LinkResult(objs, opt) == Some((syms, lines)) && Assembled(lines, cap).Some?
    ensures Predictable(DataSec, DataRows(objs, |objs|), Polling(objs, opt)) ==> Linked(objs, opt, syms, Assembled(lines, cap).value)
  {
    hide Flat, Assembled, PlanOf, SymsOf, Polling, Predictable, ImageLines;
    ImageClosed(objs, opt, syms);
    AssembledIsFlat(lines, cap);
  }

  // An object that overflows or clashes spoils the whole section.
  lemma LateFailure(objs: seq<Obj>, sec: Section, a: seq<Row>, z: seq<Row>, base: nat, syms: Option<seq<ImageSym>>)
    requires a <= z
    ensures Total(sec, a) <= Total(sec, z)
    ensures Scan(objs, sec, a, base, syms).None? ==> Scan(objs, sec, z, base, syms).None?
  {
    hide Total, Scan;
    assert z == a + z[|a|..] && z[..|a|] == a;
    TotalPrefix(sec, z, |a|);
    if Scan(objs, sec, a, base, syms).None? {
      ScanFails(objs, sec, a, z[|a|..], base, syms);
    }
  }

  lemma PlanOrder(objs: seq<Obj>, opt: Options)
    ensures var p := PlanOf(objs, opt);
            p.base + Total(TextSec(Polling(objs, opt)), TextRows(objs, |objs|)) <= p.dataBase <= p.loaded <= p.bssBase <= p.bssEnd
  {
    hide Total, TextRows, DataRows, BssRows;
    var p := PlanOf(objs, opt);
    A4Grows(p.base + Total(TextSec(Polling(objs, opt)), TextRows(objs, |objs|)));
    A4Grows(p.loaded);
    BssGrows([], BssRows(objs, |objs|), p.bssBase);
    assert [] + BssRows(objs, |objs|) == BssRows(objs, |objs|);
  }

  lemma {:induction false} SnocAllNone(es: seq<ImageSym>)
    ensures SnocAll(None, es) == None
    decreases |es|
  {
    if |es| > 0 {
      SnocAllNone(es[1..]);
    }
  }

  lemma ScanNone(objs: seq<Obj>, sec: Section, rows: seq<Row>, base: nat)
    ensures Scan(objs, sec, rows, base, None) == None
  {
    assert [] + rows == rows;
    ScanFails(objs, sec, [], rows, base, None);
  }

  lemma BssNone(objs: seq<Obj>, rows: seq<BssRow>, base: nat)
    ensures BssScan(objs, rows, base, None) == None
  {
    assert [] + rows == rows;
    BssFails(objs, [], rows, base, None);
  }

  lemma LowerSnoc(rows: seq<Row>, r: Row, syms: seq<ImageSym>, poll: bool, gate: Word)
    ensures LowerAll(rows + [r], syms, poll, gate) ==
            match (LowerAll(rows, syms, poll, gate), Lower(r, syms, poll, gate))
            case (Some(a), Some(b)) => Some(a + b)
            case _ => None
  {
    hide Lower;
    assert (rows + [r])[..|rows|] == rows;
  }

  lemma SplitStep<T>(whole: seq<T>, n: nat, x: T, rest: seq<T>)
    requires n <= |whole| && whole[n..] == [x] + rest
    ensures n < |whole| && whole[..n + 1] == whole[..n] + [x] && whole[n + 1..] == rest
  {
    assert whole[n] == whole[n..][0];
    assert whole[n + 1..] == whole[n..][1..];
  }

  lemma ScanSnoc(objs: seq<Obj>, sec: Section, rows: seq<Row>, r: Row, base: nat, syms: Option<seq<ImageSym>>)
    ensures Scan(objs, sec, rows + [r], base, syms) ==
            if r.line.Label? then
              Snoc(Scan(objs, sec, rows, base, syms),
                   ImageSym(r.line.sym, Wrap(base + Total(sec, rows)), r.owner, Exported(objs, r.owner, r.line.sym)))
            else Scan(objs, sec, rows, base, syms)
  {
    hide Snoc, Total, Exported;
    assert (rows + [r])[..|rows|] == rows;
  }
}
