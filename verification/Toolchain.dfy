// The whole chain: C functions compiled, linked, assembled and run by the
// emulator do what they mean.
module Toolchain {
  import opened Words
  import opened Isa
  import opened Emu
  import opened Asm
  import opened Link
  import opened Layout
  import opened Linker
  import opened Machine
  import opened Minic
  import opened Exact
  import opened Codegen
  import opened Gadgets
  import opened Jumps
  import opened Calls
  import opened Frames
  import opened Simulate

  // The functions compiled into one object, and the globals it knows to lie low.
  datatype Unit = Unit(near: set<string>, funcs: seq<Func>)

  ghost predicate Compiled(objs: seq<Obj>, u: nat, unit: Unit) {
    && u < |objs| && objs[u].text == UnitCode(unit.near, unit.funcs, 0).code
    && forall f | f in unit.funcs :: f.unit == u && CompilesStmts(f.body, false, false)
  }

  // In object u the function's name means the function: its own, or an
  // exported one when u defines no such symbol itself.
  ghost predicate Denotes(objs: seq<Obj>, syms: seq<ImageSym>, u: nat, f: Func) {
    f.unit == u || (Exported(objs, f.unit, Name(f.name)) && forall e | e in syms :: !(e.owner == u && e.name == Name(f.name)))
  }

  // The image `bytes` was linked from objects some of which are compiled
  // units, and env names what the linker resolved.
  ghost predicate Built(objs: seq<Obj>, opt: Options, host: Host, units: map<nat, Unit>, env: Env, syms: seq<ImageSym>, bytes: seq<Byte>) {
    && Linked(objs, opt, syms, bytes) && Fits(objs, opt)
    && opt.branchGate + 4 <= BaseOf(opt) && opt.branchGate < 0x1_0000
    && (forall u | u in units :: Compiled(objs, u, units[u]))
    && env.funcs != [] && (forall f | f in env.funcs :: f.unit in units && f in units[f.unit].funcs)
    && (forall d | d in env.defs && env.defs[d] < |env.funcs| ::
          env.funcs[env.defs[d]].name == d.1 && Denotes(objs, syms, d.0, env.funcs[env.defs[d]]))
    && (forall d | d in env.syms :: Resolve(syms, d.1, d.0) == Some(env.syms[d]))
    && (forall r | r in TextRows(objs, |objs|) :: r.line != Chars([]))
    && host.floor <= env.lo && host.floor <= BaseOf(opt)
  }

  // The linked program under the system `host`.
  function ProgOf(objs: seq<Obj>, opt: Options, syms: seq<ImageSym>, host: Host): Prog {
    Prog(TextRows(objs, |objs|), BaseOf(opt), syms, opt.branchGate, Polling(objs, opt), host)
  }

  // ---- where compiled functions stand ----

  lemma {:induction false} TextAt(objs: seq<Obj>, n: nat, u: nat) returns (k: nat)
    requires u < n <= |objs|
    ensures k + |objs[u].text| <= |TextRows(objs, n)|
    ensures forall i | k <= i < k + |objs[u].text| :: TextRows(objs, n)[i] == Row(u, objs[u].text[i - k])
    decreases n
  {
    if u == n - 1 {
      k := |TextRows(objs, n - 1)|;
    } else {
      k := TextAt(objs, n - 1, u);
    }
  }

  lemma {:induction false} FuncInUnit(near: set<string>, funcs: seq<Func>, c: nat, i: nat) returns (k: nat, d: nat)
    requires i < |funcs|
    ensures k + |FuncCode(near, funcs[i], d).code| <= |UnitCode(near, funcs, c).code|
    ensures UnitCode(near, funcs, c).code[k..k + |FuncCode(near, funcs[i], d).code|] == FuncCode(near, funcs[i], d).code
    decreases |funcs|
  {
    hide FuncCode;
    var n := |funcs| - 1;
    var a := UnitCode(near, funcs[..n], c);
    var b := FuncCode(near, funcs[n], a.next);
    if i == n {
      k, d := |a.code|, a.next;
      assert (a.code + b.code)[k..k + |b.code|] == b.code;
    } else {
      k, d := FuncInUnit(near, funcs[..n], c, i);
      var code := FuncCode(near, funcs[i], d).code;
      assert (a.code + b.code)[k..k + |code|] == a.code[k..k + |code|];
    }
  }

  lemma FuncPlaced(objs: seq<Obj>, opt: Options, host: Host, units: map<nat, Unit>, env: Env, syms: seq<ImageSym>, bytes: seq<Byte>, f: Func)
    returns (at: Place)
    requires Built(objs, opt, host, units, env, syms, bytes) && f in env.funcs
    ensures CodeAt(ProgOf(objs, opt, syms, host), f.unit, at.k, FuncCode(units[f.unit].near, f, at.c).code)
  {
    hide Linked, Fits, Polling, FuncCode, UnitCode, TextRows, Denotes;
    var unit := units[f.unit];
    assert Compiled(objs, f.unit, unit);
    var k := TextAt(objs, |objs|, f.unit);
    var i :| 0 <= i < |unit.funcs| && unit.funcs[i] == f;
    var j, c := FuncInUnit(unit.near, unit.funcs, 0, i);
    at := Place(k + j, c);
    var code := FuncCode(unit.near, f, c).code;
    var rows := TextRows(objs, |objs|);
    forall l | 0 <= l < |code| ensures rows[k + j + l] == Row(f.unit, code[l]) {
      assert code[l] == UnitCode(unit.near, unit.funcs, 0).code[j..j + |code|][l];
    }
  }

  ghost predicate AllPlaced(p: Prog, units: map<nat, Unit>, funcs: seq<Func>, place: seq<Place>) {
    && |place| == |funcs|
    && forall i | 0 <= i < |funcs| :: funcs[i].unit in units
         && CodeAt(p, funcs[i].unit, place[i].k, FuncCode(units[funcs[i].unit].near, funcs[i], place[i].c).code)
  }

  lemma PlaceAll(objs: seq<Obj>, opt: Options, host: Host, units: map<nat, Unit>, env: Env, syms: seq<ImageSym>, bytes: seq<Byte>)
    returns (place: seq<Place>)
    requires Built(objs, opt, host, units, env, syms, bytes)
    ensures AllPlaced(ProgOf(objs, opt, syms, host), units, env.funcs, place)
  {
    hide Built, FuncCode, CodeAt, ProgOf;
    place := [];
    while |place| < |env.funcs|
      invariant |place| <= |env.funcs| && AllPlaced(ProgOf(objs, opt, syms, host), units, env.funcs[..|place|], place)
    {
      var f := env.funcs[|place|];
      BuiltUnit(objs, opt, host, units, env, syms, bytes, f);
      var at := FuncPlaced(objs, opt, host, units, env, syms, bytes, f);
      place := place + [at];
    }
    assert env.funcs[..|place|] == env.funcs;
  }

  lemma BuiltUnit(objs: seq<Obj>, opt: Options, host: Host, units: map<nat, Unit>, env: Env, syms: seq<ImageSym>, bytes: seq<Byte>, f: Func)
    requires Built(objs, opt, host, units, env, syms, bytes) && f in env.funcs
    ensures f.unit in units && CompilesStmts(f.body, false, false)
  {
    hide Linked, Fits, Polling, UnitCode, TextRows, Denotes, CompilesStmts;
    assert Compiled(objs, f.unit, units[f.unit]);
  }

  // ---- the world of a linked image ----

  lemma ProgFits(objs: seq<Obj>, opt: Options, host: Host, units: map<nat, Unit>, env: Env, syms: seq<ImageSym>, bytes: seq<Byte>)
    requires Built(objs, opt, host, units, env, syms, bytes)
    ensures var p := ProgOf(objs, opt, syms, host);
            p.Valid() && p.base == PlanOf(objs, opt).base && forall k | 0 <= k <= |p.rows| :: p.Addr(k) < W
    ensures TextSection(objs, opt) == TextSec(Polling(objs, opt))
  {
    hide Linked, UnitCode, Denotes, TextRows, DataRows, BssRows, BssEnd, Total, Polling, Resolve, Compiled;
    var p := ProgOf(objs, opt, syms, host);
    PlanOrder(objs, opt);
    assert p.rows[..|p.rows|] == p.rows;
    forall k | 0 <= k <= |p.rows| ensures p.Addr(k) < W {
      AddrMono(p, k, |p.rows|);
    }
  }

  lemma LabelFound(objs: seq<Obj>, opt: Options, host: Host, units: map<nat, Unit>, env: Env, syms: seq<ImageSym>, bytes: seq<Byte>, k: nat, from: nat)
    requires Built(objs, opt, host, units, env, syms, bytes)
    requires var p := ProgOf(objs, opt, syms, host);
             k < |p.rows| && p.rows[k].line.Label? && !p.rows[k].line.sym.Number?
             && (from == p.rows[k].owner
                 || (Exported(objs, p.rows[k].owner, p.rows[k].line.sym)
                     && forall e | e in syms :: !(e.owner == from && e.name == p.rows[k].line.sym)))
    ensures var p := ProgOf(objs, opt, syms, host); Resolve(syms, p.rows[k].line.sym, from) == Some(p.Addr(k))
  {
    hide Resolve, TextRows, Total, Denotes, Compiled, Fits, Exported, UnitCode, PlanOf, SymsOf, ImageLines, Flat;
    var p := ProgOf(objs, opt, syms, host);
    ProgFits(objs, opt, host, units, env, syms, bytes);
    BuiltLinked(objs, opt, host, units, env, syms, bytes);
    ReferencesFindDefinitions(objs, opt, syms, k, from);
  }

  lemma BuiltLinked(objs: seq<Obj>, opt: Options, host: Host, units: map<nat, Unit>, env: Env, syms: seq<ImageSym>, bytes: seq<Byte>)
    requires Built(objs, opt, host, units, env, syms, bytes)
    ensures Linked(objs, opt, syms, bytes) && SymsOf(objs, opt) == Some(syms)
  {
    hide SymsOf, Polling, ImageLines, Flat, Predictable;
  }

  lemma {:induction false} LowerAllEach(rows: seq<Row>, syms: seq<ImageSym>, poll: bool, gate: Word, k: nat)
    requires RowsBytes(rows, syms, poll, gate).Some? && k < |rows|
    ensures Emit(rows[k], syms, poll, gate).Some?
    decreases |rows|
  {
    hide Emit, ImageBytes;
    if k < |rows| - 1 { LowerAllEach(rows[..|rows| - 1], syms, poll, gate, k); }
  }

  lemma AllEmitted(objs: seq<Obj>, opt: Options, host: Host, units: map<nat, Unit>, env: Env, syms: seq<ImageSym>, bytes: seq<Byte>)
    requires Built(objs, opt, host, units, env, syms, bytes)
    ensures LinesOk(ProgOf(objs, opt, syms, host))
  {
    hide Emit, TextRows, LineSize, RowsBytes, Linked, Fits, Compiled, Denotes, PlanOf, Polling, Resolve;
    BuiltLinked(objs, opt, host, units, env, syms, bytes);
    var head, text, gap, data, tail := ImageParts(objs, opt, syms, bytes);
    var p := ProgOf(objs, opt, syms, host);
    forall k | 0 <= k < |p.rows| ensures Emit(p.rows[k], p.syms, p.poll, p.gate).Some? {
      LowerAllEach(p.rows, syms, p.poll, opt.branchGate, k);
    }
    forall k | 0 <= k < |p.rows| && LineSize(p.rows[k].line, p.poll) == 0 ensures p.rows[k].line.Label? || p.rows[k].line.Note? {
      assert p.rows[k] in p.rows;
      NoSize(p.rows[k].line, p.poll);
    }
  }

  lemma NoSize(l: Line, poll: bool)
    requires LineSize(l, poll) == 0 && l != Chars([])
    ensures l.Label? || l.Note?
  {
  }

  function WorldOf(objs: seq<Obj>, opt: Options, host: Host, units: map<nat, Unit>, env: Env, syms: seq<ImageSym>, place: seq<Place>): World {
    World(ProgOf(objs, opt, syms, host), map u | u in units :: units[u].near, place, env)
  }

  lemma WorldNear(objs: seq<Obj>, opt: Options, host: Host, units: map<nat, Unit>, env: Env, syms: seq<ImageSym>, place: seq<Place>, u: nat)
    requires u in units
    ensures var w := WorldOf(objs, opt, host, units, env, syms, place);
            w.(env := w.env.(unit := u)).Near() == units[u].near
  {
  }

  lemma FuncHead(near: set<string>, f: Func, c: nat)
    ensures |FuncCode(near, f, c).code| > 1 && FuncCode(near, f, c).code[0] == Label(Name(f.name)) && FuncCode(near, f, c).code[1] == Push(R10)
  {
    hide StmtsCode, ParamsCode, FrameCode;
  }

  lemma NamesFound(objs: seq<Obj>, opt: Options, host: Host, units: map<nat, Unit>, env: Env, syms: seq<ImageSym>, bytes: seq<Byte>, place: seq<Place>, d: (nat, string))
    requires Built(objs, opt, host, units, env, syms, bytes) && AllPlaced(ProgOf(objs, opt, syms, host), units, env.funcs, place)
    requires d in env.defs && env.defs[d] < |env.funcs|
    ensures var p := ProgOf(objs, opt, syms, host);
            var k := place[env.defs[d]].k;
            k < |p.rows| && Resolve(syms, Name(d.1), d.0) == Some(p.Addr(k))
  {
    hide Linked, Fits, Compiled, Polling, TextRows, FuncCode, Resolve, Total, Exported;
    var f := env.funcs[env.defs[d]];
    var at := place[env.defs[d]];
    var p := ProgOf(objs, opt, syms, host);
    var code := FuncCode(units[f.unit].near, f, at.c).code;
    FuncHead(units[f.unit].near, f, at.c);
    assert CodeAt(p, f.unit, at.k, code);
    assert p.rows[at.k + 0] == Row(f.unit, code[0]);
    assert Denotes(objs, syms, d.0, f);
    LabelFound(objs, opt, host, units, env, syms, bytes, at.k, d.0);
  }

  // A linked image carries the compiled program: its world is in order.
  lemma BuiltWorld(objs: seq<Obj>, opt: Options, host: Host, units: map<nat, Unit>, env: Env, syms: seq<ImageSym>, bytes: seq<Byte>) returns (w: World)
    requires Built(objs, opt, host, units, env, syms, bytes) && env.meaning.Emitted? && Served(ProgOf(objs, opt, syms, host))
    ensures w.p == ProgOf(objs, opt, syms, host) && w.env == env && Ok(w)
  {
    hide Built, LinesOk, CodeAt, FuncCode, TextRows, Resolve, Total, ProgOf, Served;
    var place := PlaceAll(objs, opt, host, units, env, syms, bytes);
    w := WorldOf(objs, opt, host, units, env, syms, place);
    ProgFits(objs, opt, host, units, env, syms, bytes);
    AllEmitted(objs, opt, host, units, env, syms, bytes);
    WorldLabels(objs, opt, host, units, env, syms, bytes);
    WorldFuncs(objs, opt, host, units, env, syms, bytes, place);
    WorldSyms(objs, opt, host, units, env, syms, bytes, place);
    NotEmpty(objs, opt, host, units, env, syms, bytes, place);
  }

  lemma WorldLabels(objs: seq<Obj>, opt: Options, host: Host, units: map<nat, Unit>, env: Env, syms: seq<ImageSym>, bytes: seq<Byte>)
    requires Built(objs, opt, host, units, env, syms, bytes)
    ensures LabelsOk(ProgOf(objs, opt, syms, host))
  {
    hide Built, TextRows, Resolve, Total, Exported;
    var p := ProgOf(objs, opt, syms, host);
    forall i, k | 0 <= i < |p.rows| && 0 <= k < |p.rows| && p.rows[i].line.Label? && !p.rows[i].line.sym.Number? && p.rows[i].owner == p.rows[k].owner
      ensures p.Val(k, p.rows[i].line.sym) == Some(p.Addr(i))
    {
      LabelFound(objs, opt, host, units, env, syms, bytes, i, p.rows[k].owner);
    }
  }

  lemma WorldFuncs(objs: seq<Obj>, opt: Options, host: Host, units: map<nat, Unit>, env: Env, syms: seq<ImageSym>, bytes: seq<Byte>, place: seq<Place>)
    requires Built(objs, opt, host, units, env, syms, bytes) && AllPlaced(ProgOf(objs, opt, syms, host), units, env.funcs, place)
    ensures FuncsOk(WorldOf(objs, opt, host, units, env, syms, place))
  {
    hide Built, TextRows, Resolve, Total, CodeAt, FuncCode, CompilesStmts;
    var w := WorldOf(objs, opt, host, units, env, syms, place);
    forall f | f in env.funcs ensures CompilesStmts(f.body, false, false) {
      BuiltUnit(objs, opt, host, units, env, syms, bytes, f);
    }
    forall i | 0 <= i < |place|
      ensures CodeAt(w.p, env.funcs[i].unit, place[i].k,
                     FuncCode(w.(env := w.env.(unit := env.funcs[i].unit)).Near(), env.funcs[i], place[i].c).code)
    {
      WorldNear(objs, opt, host, units, env, syms, place, env.funcs[i].unit);
    }
    forall d, k | d in env.defs && 0 <= k < |w.p.rows| && w.p.rows[k].owner == d.0 && env.defs[d] < |place|
      ensures place[env.defs[d]].k <= |w.p.rows| && w.p.Val(k, Name(d.1)) == Some(w.p.Addr(place[env.defs[d]].k))
    {
      NamesFound(objs, opt, host, units, env, syms, bytes, place, d);
    }
  }

  lemma WorldSyms(objs: seq<Obj>, opt: Options, host: Host, units: map<nat, Unit>, env: Env, syms: seq<ImageSym>, bytes: seq<Byte>, place: seq<Place>)
    requires Built(objs, opt, host, units, env, syms, bytes)
    ensures SymsOk(WorldOf(objs, opt, host, units, env, syms, place)) && WorldOf(objs, opt, host, units, env, syms, place).p.host.floor <= env.lo
  {
    hide Linked, Fits, Polling, Compiled, Denotes, TextRows, Resolve;
  }

  lemma NotEmpty(objs: seq<Obj>, opt: Options, host: Host, units: map<nat, Unit>, env: Env, syms: seq<ImageSym>, bytes: seq<Byte>, place: seq<Place>)
    requires Built(objs, opt, host, units, env, syms, bytes) && AllPlaced(ProgOf(objs, opt, syms, host), units, env.funcs, place)
    ensures ProgOf(objs, opt, syms, host).base < ProgOf(objs, opt, syms, host).End()
  {
    hide Linked, Fits, Polling, Compiled, Denotes, TextRows, Resolve, FuncCode, Total;
    var p := ProgOf(objs, opt, syms, host);
    var f, at := env.funcs[0], place[0];
    var code := FuncCode(units[f.unit].near, f, at.c).code;
    FuncHead(units[f.unit].near, f, at.c);
    assert p.rows[at.k + 1] == Row(f.unit, code[1]);
    AddrNext(p, at.k + 1);
    AddrMono(p, at.k + 1, at.k + 2);
  }

  // ---- the image in memory ----

  // The image at its origin, the gate in place, the system below in order.
  ghost predicate InMemory(opt: Options, host: Host, bytes: seq<Byte>, mem: seq<Byte>) {
    && Origin(opt) + |bytes| <= |mem| && mem[Origin(opt)..Origin(opt) + |bytes|] == bytes
    && InsnAt(mem, opt.branchGate, JmpR(R13))
    && host.floor <= |mem| && host.fine(mem[..host.floor])
  }

  lemma {:induction false} InsnBytesAt(insns: seq<Insn>, j: nat)
    requires j < |insns|
    ensures InsnBytes(insns)[4 * j..4 * j + 4] == WordBytes(Encode(insns[j]))
    decreases insns
  {
    hide Encode, WordBytes;
    if j > 0 {
      InsnBytesAt(insns[1..], j - 1);
      assert InsnBytes(insns) == WordBytes(Encode(insns[0])) + InsnBytes(insns[1..]);
      assert InsnBytes(insns)[4 * j..4 * j + 4] == InsnBytes(insns[1..])[4 * (j - 1)..4 * (j - 1) + 4];
    }
  }

  lemma WordIsRead(mem: seq<Byte>, a: nat, w: Word)
    requires a + 4 <= |mem| && mem[a..a + 4] == WordBytes(w)
    ensures Read(mem, a, 4) == Some(w)
  {
    hide Be32, ByteAt;
    Be32RoundTrip(w);
    assert mem[a] == mem[a..a + 4][0] && mem[a + 1] == mem[a..a + 4][1] && mem[a + 2] == mem[a..a + 4][2] && mem[a + 3] == mem[a..a + 4][3];
  }

  lemma SliceOfSlice<T>(s: seq<T>, a: nat, n: nat, i: nat, k: nat)
    requires i <= k <= n && a + n <= |s|
    ensures s[a..a + n][i..k] == s[a + i..a + k]
  {
    var x, y := s[a..a + n][i..k], s[a + i..a + k];
    forall j | 0 <= j < k - i ensures x[j] == y[j] {
      assert s[a..a + n][i + j] == s[a + (i + j)];
    }
  }

  lemma CodeInMemory(mem: seq<Byte>, a: nat, insns: seq<Insn>)
    requires a + 4 * |insns| <= |mem| && mem[a..a + 4 * |insns|] == InsnBytes(insns)
    ensures InsnsAt(mem, a, insns)
  {
    hide Encode, WordBytes, InsnBytes, Read;
    forall j | 0 <= j < |insns| ensures InsnAt(mem, a + 4 * j, insns[j]) {
      InsnBytesAt(insns, j);
      SliceOfSlice(mem, a, 4 * |insns|, 4 * j, 4 * j + 4);
      WordIsRead(mem, a + 4 * j, Encode(insns[j]));
    }
  }

  // The loaded image is the line machine's program, byte for byte.
  lemma ImageLoaded(objs: seq<Obj>, opt: Options, host: Host, units: map<nat, Unit>, env: Env, syms: seq<ImageSym>, bytes: seq<Byte>, mem: seq<Byte>)
    requires Built(objs, opt, host, units, env, syms, bytes) && InMemory(opt, host, bytes, mem)
    ensures Loaded(ProgOf(objs, opt, syms, host), mem)
  {
    hide Built, Linked, TextRows, PlanOf, Emit, Total, RowsBytes, InsnAt, InsnBytes, LineSize;
    var p := ProgOf(objs, opt, syms, host);
    BuiltLinked(objs, opt, host, units, env, syms, bytes);
    ProgFits(objs, opt, host, units, env, syms, bytes);
    AllEmitted(objs, opt, host, units, env, syms, bytes);
    TextInside(objs, opt, host, syms, bytes);
    forall k | 0 <= k < |p.rows| ensures RowLoaded(p, mem, k) {
      LayoutAgreesWithEmission(objs, opt, syms, bytes, k);
      var e := Emit(p.rows[k], syms, p.poll, opt.branchGate).value;
      if e.Code? {
        RowInMemory(opt, host, bytes, mem, p.Addr(k) - Origin(opt), e);
      }
    }
  }

  lemma RowInMemory(opt: Options, host: Host, bytes: seq<Byte>, mem: seq<Byte>, at: int, e: Emitted)
    requires InMemory(opt, host, bytes, mem) && e.Code? && Placed(bytes, at, Some(e))
    ensures InsnsAt(mem, Origin(opt) + at, e.insns)
  {
    hide InsnBytes, InsnAt, InsnsAt;
    var n := 4 * |e.insns|;
    SliceOfSlice(mem, Origin(opt), |bytes|, at, at + n);
    CodeInMemory(mem, Origin(opt) + at, e.insns);
  }

  lemma TextInside(objs: seq<Obj>, opt: Options, host: Host, syms: seq<ImageSym>, bytes: seq<Byte>)
    requires Linked(objs, opt, syms, bytes)
    ensures Origin(opt) <= BaseOf(opt) && ProgOf(objs, opt, syms, host).End() <= Origin(opt) + |bytes|
  {
    hide Linked, TextRows, RowsBytes, Total, DataRows, BssRows, BssEnd, Polling;
    var head, text, gap, data, tail := ImageParts(objs, opt, syms, bytes);
    SectionSize(TextSec(Polling(objs, opt)), TextRows(objs, |objs|), syms, Polling(objs, opt), opt.branchGate);
    assert TextRows(objs, |objs|)[..|TextRows(objs, |objs|)|] == TextRows(objs, |objs|);
  }

  // ---- the theorem ----

  // The emulator stands at a call line of object w.env.unit, the arguments on
  // its stack, its memory standing for the C memory m.
  ghost predicate AtCall(w: World, name: string, vals: seq<Word>, m: Mem, q: int, s: Mach) {
    && Ok(w) && Loaded(w.p, s.cpu.mem) && Inv(w, m, q, s)
    && s.k < |w.p.rows| && w.p.rows[s.k] == Row(w.env.unit, CallTo(Name(name)))
    && ArgsOn(vals, q, s.cpu.mem) && forall i | q <= i < q + 4 * |vals| :: i !in m
  }

  // What the emulator has done when the call is over: control is on the next
  // line, stack pointer and frame base are back, memory is the C memory m',
  // and nothing outside it and the free stack has changed.
  ghost predicate Back(w: World, m: Mem, m': Mem, q: int, s: Mach, t: Cpu)
    requires w.p.Valid() && s.cpu.Valid() && s.k < |w.p.rows|
  {
    && t.Valid() && t.pc == w.p.Addr(s.k + 1) && t.regs[SP] == s.cpu.regs[SP] && t.regs[R10] == s.cpu.regs[R10]
    && m'.Keys == m.Keys && Agrees(w, m', q, t.mem) && Keeps(w, m, q, s.cpu.mem, t.mem)
  }

  lemma AtCallValid(w: World, name: string, vals: seq<Word>, m: Mem, q: int, s: Mach)
    requires AtCall(w, name, vals, m, q, s)
    ensures w.p.Valid() && s.cpu.Valid() && s.k < |w.p.rows| && Machine.At(w.p, s) && 0 <= q
    ensures Served(w.p) && w.env.meaning.Emitted? && Inv(w, m, q, s)
  {
    hide LinesOk, LabelsOk, FuncsOk, SymsOk, Loaded, Served;
  }

  // The call on the line machine.
  lemma CallOnLines(w: World, fuel: nat, name: string, vals: seq<Word>, m: Mem, q: int, s: Mach) returns (n: nat, t: Mach)
    requires AtCall(w, name, vals, m, q, s)
    ensures w.p.Valid() && s.cpu.Valid()
    ensures Sim(w, CallFn(fuel, w.env, name, vals, m, q + 4 * |vals|), m, q, s, n, t, s.k + 1, R1, fuel + 1)
  {
    hide LineRun, LineStep, Total, Ok, Sim, Inv, ArgsOn, CallFn, Body, Loaded;
    AtCallValid(w, name, vals, m, q, s);
    n, t := 0, s;
    var code := [CallTo(Name(name))];
    assert Ahead(w, s, code) by { assert w.p.rows[s.k + 0] == Row(w.env.unit, code[0]); }
    if (w.env.unit, name) in w.env.defs && w.env.defs[(w.env.unit, name)] < |w.env.funcs| {
      var d := w.env.defs[(w.env.unit, name)];
      CallFnIs(w, fuel, name, vals, m, q + 4 * |vals|);
      if Body(fuel, w, w.env.funcs[d], vals, m, q) == Stuck {
        SimStuck(w, m, q, s, n, t, s.k + 1, R1, fuel + 1);
      } else {
        n, t := SimBody(w, fuel, name, d, vals, m, q, s, code);
      }
    } else {
      NotDefined(w, fuel, name, vals, m, q + 4 * |vals|);
      SimStuck(w, m, q, s, n, t, s.k + 1, R1, fuel + 1);
    }
  }

  // Compiled code preserves meaning, of a program that does not depend on the
  // code generator's departures from C: expressions,
  lemma ExprMeansC(w: World, fuel: nat, e: Expr, c: nat, m: Mem, p: int, s: Mach) returns (n: nat, t: Mach)
    requires Compiles(e) && ExactProgram(w.env) && ExactExpr(ScopeOf(w.env), e, Some(WHOLE))
    requires Ok(w) && Inv(w, m, p, s) && Ahead(w, s, ExprCode(w.Near(), e, c).code)
    ensures w.p.Valid() && s.cpu.Valid()
    ensures Sim(w, Eval(fuel, AsC(w.env), e, m, p), m, p, s, n, t, s.k + |ExprCode(w.Near(), e, c).code|, R1, fuel)
  {
    hide Ok, Inv, Ahead, Sim, ExprCode, Eval, ExactExpr, ExactProgram, Compiles;
    OkValid(w);
    InvValid(w, m, p, s);
    Meant(w.env);
    n, t := SimExpr(w, fuel, e, c, m, p, s);
    SameWhole(fuel, AsC(w.env), e, m, p);
  }

  // and statements.
  lemma StmtsMeanC(w: World, fuel: nat, ss: Stmts, result: Ty, tg: Targets, c: nat, m: Mem, p: int, s: Mach, kb: nat, kc: nat)
    returns (n: nat, t: Mach)
    requires CompilesStmts(ss, tg.brk.Some?, tg.cont.Some?) && ExactProgram(w.env) && ExactStmts(ScopeOf(w.env), ss, result)
    requires Ok(w) && Inv(w, m, p, s) && TargetsOk(w, tg, kb, kc) && Ahead(w, s, StmtsCode(w.Near(), ss, tg, c).code)
    ensures w.p.Valid() && s.cpu.Valid()
    ensures SimOut(w, RunStmts(fuel, AsC(w.env), ss, m, p), m, p, s, n, t, s.k + |StmtsCode(w.Near(), ss, tg, c).code|, kb, kc, fuel)
  {
    hide Ok, Inv, Ahead, SimOut, StmtsCode, RunStmts, ExactStmts, ExactProgram, CompilesStmts, TargetsOk, Convert;
    OkValid(w);
    InvValid(w, m, p, s);
    Meant(w.env);
    n, t := SimStmts(w, fuel, ss, tg, c, m, p, s, kb, kc);
    SameStmts(fuel, AsC(w.env), ss, result, m, p);
  }

  lemma Meant(env: Env)
    ensures ExactProgram(AsC(env)) == ExactProgram(env) && ExactProgram(AsEmitted(env)) == ExactProgram(env)
    ensures ScopeOf(AsC(env)) == ScopeOf(env) && env.meaning.Emitted? ==> AsEmitted(AsC(env)) == env
    ensures env.meaning.IsoC? ==> AsC(AsEmitted(env)) == env
  {
    hide ExactStmts;
  }

  // What the code generator makes of a call is what the emulator running the
  // linked image does.
  lemma CallRuns(w: World, fuel: nat, name: string, vals: seq<Word>, m: Mem, q: int, s: Mach) returns (steps: nat)
    requires AtCall(w, name, vals, m, q, s)
    ensures w.p.Valid() && s.cpu.Valid() && s.k < |w.p.rows|
    ensures match CallFn(fuel, w.env, name, vals, m, q + 4 * |vals|)
            case Val(v, m') => Run(s.cpu, steps).Next? && Run(s.cpu, steps).s.regs[R1] == v && Back(w, m, m', q, s, Run(s.cpu, steps).s)
            case Void(m') => Run(s.cpu, steps).Next? && Back(w, m, m', q, s, Run(s.cpu, steps).s)
            case Stuck => true
            case Timeout => Run(s.cpu, steps).Next? && fuel <= steps * (|w.p.rows| + 1) + |w.p.rows|
  {
    hide LineRun, LineStep, Total, Ok, CallFn, Loaded, Run, AtCall, Agrees, Keeps;
    AtCallValid(w, name, vals, m, q, s);
    var n, t := CallOnLines(w, fuel, name, vals, m, q, s);
    var r := CallFn(fuel, w.env, name, vals, m, q + 4 * |vals|);
    steps := 0;
    if !r.Stuck? {
      steps := RunSimulated(w.p, s, n);
    }
  }

  lemma {:induction false} RunPrefix(s: Cpu, n: nat, k: nat)
    requires s.Valid() && Run(s, n).Next? && k <= n
    ensures Run(s, k).Next?
    decreases k
  {
    hide Step;
    if k > 0 { RunPrefix(Step(s).s, n - 1, k - 1); }
  }

  lemma CallMeansC(env: Env, fuel: nat, name: string, vals: seq<Word>, m: Mem, p: int)
    requires env.meaning.Emitted? && ExactProgram(env)
    ensures CallFn(fuel, env, name, vals, m, p) == CallFn(fuel, AsC(env), name, vals, m, p)
  {
    hide CallFn, ExactProgram;
    Meant(env);
    SameCall(fuel, AsC(env), name, vals, m, p);
  }

  // And a call that runs forever in C runs forever on the emulator.
  lemma CallDiverges(w: World, name: string, vals: seq<Word>, m: Mem, p: int, q: int, s: Mach, n: nat)
    requires AtCall(w, name, vals, m, q, s) && p == q + 4 * |vals| && ExactProgram(w.env)
    requires forall fuel: nat :: CallFn(fuel, AsC(w.env), name, vals, m, p).Timeout?
    ensures s.cpu.Valid() && Run(s.cpu, n).Next?
  {
    hide AtCall, CallFn, Run, Back, ExactProgram, Ok, Loaded, Served, LinesOk, Inv;
    var rows := |w.p.rows| + 1;
    var fuel := (n + 1) * rows + rows;
    var steps := CallRuns(w, fuel, name, vals, m, q, s);
    AtCallValid(w, name, vals, m, q, s);
    CallMeansC(w.env, fuel, name, vals, m, p);
    assert CallFn(fuel, AsC(w.env), name, vals, m, p).Timeout?;
    if steps < n {
      MulLe(steps, n, rows);
      MulDistr(n, 1, rows);
      assert false;
    }
    RunPrefix(s.cpu, steps, n);
  }

  // The theorem from end to end: compile each unit, link, load the image, and
  // run, with safe points or without.  Where C gives a call of an exact program
  // a value and a memory, so does the emulator, and control is back on the line
  // after the call.
  lemma LinkedCallRuns(objs: seq<Obj>, opt: Options, host: Host, units: map<nat, Unit>, env: Env, syms: seq<ImageSym>, bytes: seq<Byte>,
                       fuel: nat, name: string, vals: seq<Word>, m: Mem, q: int, s: Mach)
    returns (w: World, steps: nat)
    requires env.meaning.IsoC? && ExactProgram(env)
    requires Built(objs, opt, host, units, env, syms, bytes) && InMemory(opt, host, bytes, s.cpu.mem)
    requires Served(ProgOf(objs, opt, syms, host)) && Inv(WorldOf(objs, opt, host, units, env, syms, []), m, q, s)
    requires s.k < |TextRows(objs, |objs|)| && TextRows(objs, |objs|)[s.k] == Row(env.unit, CallTo(Name(name)))
    requires ArgsOn(vals, q, s.cpu.mem) && forall i | q <= i < q + 4 * |vals| :: i !in m
    ensures w.p == ProgOf(objs, opt, syms, host) && w.env == AsEmitted(env) && AtCall(w, name, vals, m, q, s)
    ensures w.p.Valid() && s.cpu.Valid() && s.k < |w.p.rows|
    ensures match CallFn(fuel, env, name, vals, m, q + 4 * |vals|)
            case Val(v, m') => Run(s.cpu, steps).Next? && Run(s.cpu, steps).s.regs[R1] == v && Back(w, m, m', q, s, Run(s.cpu, steps).s)
            case Void(m') => Run(s.cpu, steps).Next? && Back(w, m, m', q, s, Run(s.cpu, steps).s)
            case Stuck => true
            case Timeout => Run(s.cpu, steps).Next? && fuel <= steps * (|w.p.rows| + 1) + |w.p.rows|
  {
    hide Built, Ok, Loaded, TextRows, Run, CallFn, Back, ArgsOn, Total, InMemory, Agrees, Served, ExactProgram;
    w := LinkedWorld(objs, opt, host, units, env, syms, bytes);
    ImageLoaded(objs, opt, host, units, env, syms, bytes, s.cpu.mem);
    SameWorld(w, WorldOf(objs, opt, host, units, env, syms, []), m, q, s);
    steps := CallRuns(w, fuel, name, vals, m, q, s);
    Meant(env);
    SameCall(fuel, env, name, vals, m, q + 4 * |vals|);
  }

  // The world the emulator runs in: the emitted meaning.
  lemma LinkedWorld(objs: seq<Obj>, opt: Options, host: Host, units: map<nat, Unit>, env: Env, syms: seq<ImageSym>, bytes: seq<Byte>)
    returns (w: World)
    requires Built(objs, opt, host, units, env, syms, bytes) && Served(ProgOf(objs, opt, syms, host))
    ensures w.p == ProgOf(objs, opt, syms, host) && w.env == AsEmitted(env) && Ok(w)
  {
    hide Ok, Linked, Fits, Compiled, TextRows, Served, Denotes, Resolve;
    assert Built(objs, opt, host, units, AsEmitted(env), syms, bytes);
    w := BuiltWorld(objs, opt, host, units, AsEmitted(env), syms, bytes);
  }

  // Agreement does not depend on the meaning.
  lemma SameWorld(w: World, w0: World, m: Mem, q: int, s: Mach)
    requires w.p == w0.p && w.env == AsEmitted(w0.env) && Inv(w0, m, q, s)
    ensures Inv(w, m, q, s)
  {
  }
}
