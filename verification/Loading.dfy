// What the linker writes is what exec starts: the header and image of a linked
// user program pass exec's checks, and the started program stands in the window
// as it was linked.
module Loading {
  import opened Words
  import opened Isa
  import opened Emu
  import opened Link
  import opened Layout
  import opened Linker
  import opened Machine
  import Process
  import Exec
  import R = Rootfs
  import Storage
  import Toolchain

  // The file as exec opens it.
  function OnDisk(f: UserFile): Exec.Opened {
    Exec.Opened(true, true, FileBytes(f), false)
  }

  // Inode k + 1 of an image as exec opens it: the file type and execute bits of
  // its mode, and its contents.
  function OpenedAt(im: seq<Byte>, g: R.Geo, k: nat): Exec.Opened
    requires R.GeoOk(g, |im|) && k < g.ninodes
  {
    var mode := Storage.HalfAt(im, g.base + 32 * k);
    match R.Content(im, g, k + 1)
    case None => Exec.Failed(5)
    case Some(d) => Exec.Opened(Storage.Regular(mode), Storage.MayRun(mode), d, false)
  }

  // A linked program put below /bin of an image is opened as the linker wrote it.
  lemma ImageHoldsProgram(im: seq<Byte>, g: R.Geo, nodes: seq<R.Node>, starts: seq<nat>, k: nat, f: UserFile)
    requires Storage.Made(im, g, nodes, starts) && k < |nodes| && nodes[k].kind == R.Plain(FileBytes(f))
    requires |nodes[k].path| > 1 && nodes[k].path[0] == [98, 105, 110]
    ensures R.GeoOk(g, |im|) && k < g.ninodes && OpenedAt(im, g, k) == OnDisk(f)
  {
    hide Storage.HalfAt, R.Content, R.Complete, R.Marks, R.Geometry, FileBytes, Storage.Regular, Storage.MayRun, R.DataOf;
    Storage.MadeShape(im, g, nodes, starts);
    Storage.BinIsExecutable(im, g, nodes, starts, k);
    R.NodeRead(im, g, nodes, starts, k);
    R.DataIs(nodes, k);
  }

  function HeaderWord(f: UserFile, k: nat): Word
    requires k < 7
  {
    match k
    case 0 => f.magic
    case 1 => f.version
    case 2 => f.entry
    case 3 => f.loaded
    case 4 => f.bss
    case 5 => f.stack
    case _ => f.zero
  }

  lemma WordThere(before: seq<Byte>, w: Word, after: seq<Byte>, b: seq<Byte>)
    requires b == before + WordBytes(w) + after
    ensures |before| + 4 <= |b| && Exec.Get32(b, |before|) == w
  {
    hide Be32, ByteAt;
    var n := |before|;
    assert b[n] == WordBytes(w)[0] && b[n + 1] == WordBytes(w)[1] && b[n + 2] == WordBytes(w)[2] && b[n + 3] == WordBytes(w)[3];
    Be32RoundTrip(w);
  }

  // exec reads the seven words the linker wrote, and the image after them.
  lemma HeaderReadsBack(f: UserFile)
    ensures |FileBytes(f)| == 28 + |f.image| && FileBytes(f)[28..] == f.image
    ensures forall k | 0 <= k < 7 :: Exec.Get32(FileBytes(f), 4 * k) == HeaderWord(f, k)
  {
    hide WordBytes, Exec.Get32;
    var b := FileBytes(f);
    var w0, w1, w2, w3 := WordBytes(f.magic), WordBytes(f.version), WordBytes(f.entry), WordBytes(f.loaded);
    var w4, w5, w6 := WordBytes(f.bss), WordBytes(f.stack), WordBytes(f.zero);
    WordLength(f);
    assert b == [] + w0 + (w1 + w2 + w3 + w4 + w5 + w6 + f.image);
    WordThere([], f.magic, w1 + w2 + w3 + w4 + w5 + w6 + f.image, b);
    assert b == w0 + w1 + (w2 + w3 + w4 + w5 + w6 + f.image);
    WordThere(w0, f.version, w2 + w3 + w4 + w5 + w6 + f.image, b);
    assert b == (w0 + w1) + w2 + (w3 + w4 + w5 + w6 + f.image);
    WordThere(w0 + w1, f.entry, w3 + w4 + w5 + w6 + f.image, b);
    assert b == (w0 + w1 + w2) + w3 + (w4 + w5 + w6 + f.image);
    WordThere(w0 + w1 + w2, f.loaded, w4 + w5 + w6 + f.image, b);
    assert b == (w0 + w1 + w2 + w3) + w4 + (w5 + w6 + f.image);
    WordThere(w0 + w1 + w2 + w3, f.bss, w5 + w6 + f.image, b);
    assert b == (w0 + w1 + w2 + w3 + w4) + w5 + (w6 + f.image);
    WordThere(w0 + w1 + w2 + w3 + w4, f.stack, w6 + f.image, b);
    assert b == (w0 + w1 + w2 + w3 + w4 + w5) + w6 + f.image;
    WordThere(w0 + w1 + w2 + w3 + w4 + w5, f.zero, f.image, b);
    forall k | 0 <= k < 7 ensures Exec.Get32(b, 4 * k) == HeaderWord(f, k) {
      assert k == 0 || k == 1 || k == 2 || k == 3 || k == 4 || k == 5 || k == 6;
    }
  }

  lemma WordLength(f: UserFile)
    ensures |WordBytes(f.magic)| == |WordBytes(f.version)| == |WordBytes(f.entry)| == |WordBytes(f.loaded)| == 4
    ensures |WordBytes(f.bss)| == |WordBytes(f.stack)| == |WordBytes(f.zero)| == 4
  {
  }

  // exec accepts what the linker made exactly when the image was written in
  // full, the entry is an instruction of it, and image and bss, rounded up,
  // leave the 64 KiB the header reserves for the stack.
  lemma LinkedIsExecutable(objs: seq<Obj>, opt: Options, f: UserFile)
    requires Made(objs, opt, f)
    ensures Exec.Executable(OnDisk(f)) <==>
              && |f.image| == f.loaded && f.entry < f.loaded && f.entry % 4 == 0
              && (PlanOf(objs, opt).bssEnd - opt.base + 3) / 4 * 4 <= 0x20_0000 - 65536
  {
    hide PlanOf, LinkResult, FileBytes, Exec.Get32, Resolve;
    HeaderReadsBack(f);
    var b := FileBytes(f);
    assert Exec.Get32(b, 4 * 0) == f.magic && Exec.Get32(b, 4 * 1) == f.version && Exec.Get32(b, 4 * 2) == f.entry;
    assert Exec.Get32(b, 4 * 3) == f.loaded && Exec.Get32(b, 4 * 4) == f.bss && Exec.Get32(b, 4 * 5) == f.stack;
    assert Exec.Get32(b, 4 * 6) == f.zero;
  }

  // The image is written in full unless a data section holds a line whose size
  // the layout mispredicts.
  lemma ImageInFull(objs: seq<Obj>, opt: Options, f: UserFile)
    requires Made(objs, opt, f) && Linked(objs, opt, LinkResult(objs, opt).value.0, f.image)
    ensures |f.image| == f.loaded
  {
    hide Linked, PlanOf, LinkResult, Resolve, TextRows, DataRows, Emit, Total;
    LayoutAgreesWithEmission(objs, opt, LinkResult(objs, opt).value.0, f.image, 0);
  }

  // A started program, for any bytes.
  lemma StartedShape(b: seq<Byte>, m: Process.Image, c: Process.Context, endData: Word, brk: Word, startStack: Word,
                     args: seq<Exec.Text>, envs: seq<Exec.Text>)
    requires Exec.Started(b, m, c, endData, brk, startStack, args, envs)
    ensures 28 <= |b| && |b| - 28 <= |m| && m[..|b| - 28] == b[28..]
    ensures c.pc == 0x20_0000 + Exec.Get32(b, 8) && startStack < c.regs[14]
    ensures endData == brk && brk == 0x20_0000 + Exec.Round4(Exec.Get32(b, 12) + Exec.Get32(b, 16))
    ensures startStack == 0x40_0000 - Exec.Get32(b, 20)
    ensures c.regs == Exec.StartRegs(c.regs[14])
  {
    hide Exec.Get32, Exec.Pointed, Exec.WordAt, Exec.StartRegs, Exec.Round4, Exec.FitsWindow;
  }

  lemma StartedZeros(b: seq<Byte>, m: Process.Image, c: Process.Context, endData: Word, brk: Word, startStack: Word,
                     args: seq<Exec.Text>, envs: seq<Exec.Text>, i: nat)
    requires Exec.Started(b, m, c, endData, brk, startStack, args, envs)
    requires |b| - 28 <= i && 0x20_0000 + i < c.regs[14]
    ensures i < |m| && m[i] == 0
  {
    hide Exec.Get32, Exec.Pointed, Exec.WordAt, Exec.StartRegs, Exec.Round4, Exec.FitsWindow, Exec.Limits, Exec.Program28;
    StartedShape(b, m, c, endData, brk, startStack, args, envs);
    assert Exec.Entered(m, b[28..], c.regs[14], args, envs);
  }

  // The program is at _start, its image stands at the bottom of the window,
  // zeros follow up to the stack, and the break is the end of its bss, rounded up.
  ghost predicate Standing(objs: seq<Obj>, opt: Options, f: UserFile, m: Process.Image, c: Process.Context,
                           endData: Word, brk: Word, startStack: Word) {
    && LinkResult(objs, opt).Some?
    && Resolve(LinkResult(objs, opt).value.0, Name("_start"), 0) == Some(c.pc)
    && |f.image| <= |m| && m[..|f.image|] == f.image
    && (forall i :: |f.image| <= i < |m| && 0x20_0000 + i < c.regs[14] ==> m[i] == 0)
    && endData == brk == 0x20_0000 + (PlanOf(objs, opt).bssEnd - opt.base + 3) / 4 * 4
    && startStack == 0x40_0000 - 65536 && startStack < c.regs[14]
    && forall i :: 0 <= i < 16 && i != 14 ==> c.regs[i] == 0
  }

  // Linked for the user window, a started program stands in it as linked.
  lemma LinkedStarts(objs: seq<Obj>, opt: Options, f: UserFile, m: Process.Image, c: Process.Context,
                     endData: Word, brk: Word, startStack: Word, args: seq<Exec.Text>, envs: seq<Exec.Text>)
    requires Made(objs, opt, f) && opt.base == 0x20_0000
    requires Exec.Started(FileBytes(f), m, c, endData, brk, startStack, args, envs)
    ensures Standing(objs, opt, f, m, c, endData, brk, startStack)
  {
    hide PlanOf, LinkResult, FileBytes, Exec.Get32, Resolve, Exec.Started;
    HeaderReadsBack(f);
    var b := FileBytes(f);
    StartedShape(b, m, c, endData, brk, startStack, args, envs);
    assert Exec.Get32(b, 4 * 2) == f.entry && Exec.Get32(b, 4 * 3) == f.loaded;
    assert Exec.Get32(b, 4 * 4) == f.bss && Exec.Get32(b, 4 * 5) == f.stack;
    forall i | |f.image| <= i < |m| && 0x20_0000 + i < c.regs[14] ensures m[i] == 0 {
      StartedZeros(b, m, c, endData, brk, startStack, args, envs, i);
    }
    assert Wrap(f.entry + opt.base) == c.pc;
    assert f.loaded + f.bss == PlanOf(objs, opt).bssEnd - opt.base;
  }

  // The window is part of the machine's memory, above a system that holds the
  // branch gate.
  ghost predicate Hosting(opt: Options, host: Host, m: Process.Image, mem: seq<Byte>) {
    && 0x40_0000 <= |mem| && mem[0x20_0000..0x40_0000] == m
    && InsnAt(mem, opt.branchGate, JmpR(R13)) && host.floor <= |mem| && host.fine(mem[..host.floor])
  }

  // And then the program is in memory as the compiled functions need it.
  lemma StartedInMemory(objs: seq<Obj>, opt: Options, host: Host, f: UserFile, m: Process.Image, c: Process.Context,
                        endData: Word, brk: Word, startStack: Word, args: seq<Exec.Text>, envs: seq<Exec.Text>, mem: seq<Byte>)
    requires Made(objs, opt, f) && opt.base == 0x20_0000
    requires Exec.Started(FileBytes(f), m, c, endData, brk, startStack, args, envs)
    requires Hosting(opt, host, m, mem)
    ensures Toolchain.InMemory(opt, host, f.image, mem)
  {
    hide PlanOf, LinkResult, FileBytes, Resolve, Exec.Started, InsnAt, Exec.Get32, Exec.StartRegs, Exec.Round4;
    HeaderReadsBack(f);
    StartedShape(FileBytes(f), m, c, endData, brk, startStack, args, envs);
    Within(mem, m, f.image);
  }

  lemma Within(mem: seq<Byte>, m: Process.Image, image: seq<Byte>)
    requires 0x40_0000 <= |mem| && mem[0x20_0000..0x40_0000] == m && |image| <= |m| && m[..|image|] == image
    ensures 0x20_0000 + |image| <= |mem| && mem[0x20_0000..0x20_0000 + |image|] == image
  {
    assert mem[0x20_0000..0x20_0000 + |image|] == mem[0x20_0000..0x40_0000][..|image|];
  }
}
