// exec as a transaction (fs/symexec.c): everything that can fail is staged
// first, then the window, the registers and the break are replaced together.
module Exec {
  import opened Words
  import opened Process

  const ENOEXEC := 8
  const E2BIG := 7
  const EACCES := 13
  const ENAMETOOLONG := 36
  const NR_OPEN := 20
  const MAX_ARGS := 32
  const MAX_STRINGS := 8192
  const MAGIC := 0x5350_5831
  const TOP: Word := SP_USER_BASE + SP_USER_SIZE

  type Text = s: seq<Byte> | 0 !in s

  // ---- user memory ----

  predicate WordAt(m: Image, addr: int, v: Word) {
    && SP_USER_BASE <= addr && addr + 4 <= TOP
    && v == Be32(m[addr - SP_USER_BASE], m[addr + 1 - SP_USER_BASE], m[addr + 2 - SP_USER_BASE], m[addr + 3 - SP_USER_BASE])
  }

  // A null-terminated string.
  predicate TextAt(m: Image, addr: int, s: Text) {
    && SP_USER_BASE <= addr && addr + |s| + 1 <= TOP
    && m[addr - SP_USER_BASE..addr - SP_USER_BASE + |s|] == s && m[addr - SP_USER_BASE + |s|] == 0
  }

  predicate ItemAt(m: Image, list: int, i: int, s: Text, low: int) {
    exists p: Word :: p != 0 && low <= p && WordAt(m, list + 4 * i, p) && TextAt(m, p, s)
  }

  // A null-terminated vector of strings, as exec takes it and as a program finds
  // it; every string is at low or above.
  predicate Vector(m: Image, list: int, strs: seq<Text>, low: int) {
    (forall i :: 0 <= i < |strs| ==> ItemAt(m, list, i, strs[i], low)) && WordAt(m, list + 4 * |strs|, 0)
  }

  // What argv or envp stands for; a null pointer is an empty vector.
  predicate Given(m: Image, list: Word, strs: seq<Text>) {
    if list == 0 then strs == [] else Vector(m, list, strs, 0)
  }

  // The strings one after another, each with its null byte.
  function Joined(strs: seq<Text>): seq<Byte> {
    if strs == [] then [] else Joined(strs[..|strs| - 1]) + strs[|strs| - 1] + [0]
  }

  lemma WordUnique(m: Image, addr: int, v: Word, w: Word)
    requires WordAt(m, addr, v) && WordAt(m, addr, w)
    ensures v == w
  {
  }

  lemma TextUnique(m: Image, addr: int, s: Text, t: Text)
    requires TextAt(m, addr, s) && TextAt(m, addr, t)
    ensures s == t
  {
    NoNulls(m, addr - SP_USER_BASE, s);
    NoNulls(m, addr - SP_USER_BASE, t);
  }

  lemma NoNulls(m: Image, a: nat, t: Text)
    requires a + |t| <= |m| && m[a..a + |t|] == t
    ensures forall i :: a <= i < a + |t| ==> m[i] != 0
  {
    forall i | a <= i < a + |t| ensures m[i] != 0 {
      assert m[a..a + |t|][i - a] == m[i];
      assert t[i - a] in t;
    }
  }

  // A place of a longer vector that is not its end is an item.
  lemma {:induction false} JoinedPrefix(strs: seq<Text>, k: nat)
    requires k <= |strs|
    ensures |Joined(strs[..k])| <= |Joined(strs)|
    decreases |strs| - k
  {
    if k == |strs| {
      assert strs[..k] == strs;
    } else {
      JoinedPrefix(strs, k + 1);
      assert strs[..k + 1][..k] == strs[..k];
    }
  }

  function ReadWord(m: Image, addr: int): (v: Word)
    requires SP_USER_BASE <= addr && addr + 4 <= TOP
    ensures WordAt(m, addr, v)
  {
    var a := addr - SP_USER_BASE;
    Be32(m[a], m[a + 1], m[a + 2], m[a + 3])
  }

  // ---- staging ----

  // One string appended with its null byte; err is 0, -EFAULT or -E2BIG.
  method StageText(m: Image, addr: Word, strings: seq<Byte>, ghost want: Text) returns (err: int, out: seq<Byte>, ghost text: Text)
    requires |strings| <= MAX_STRINGS
    ensures err == 0 || err == -EFAULT || err == -E2BIG
    ensures err == 0 ==> TextAt(m, addr, text) && out == strings + text + [0] && |out| <= MAX_STRINGS
    ensures TextAt(m, addr, want) && |strings| + |want| + 1 <= MAX_STRINGS ==> err == 0
  {
    out, text, err := strings, [], 0;
    var s: Word := addr;
    while true
      invariant s == addr + |text| && out == strings + text && |out| <= MAX_STRINGS
      invariant text != [] ==> SP_USER_BASE <= addr && addr + |text| <= TOP && m[addr - SP_USER_BASE..addr - SP_USER_BASE + |text|] == text
      decreases MAX_STRINGS - |out|
    {
      if |out| == MAX_STRINGS {
        WantLonger(m, addr, text, want);
        return -E2BIG, out, text;
      }
      if !UserRange(s, 1) {
        return -EFAULT, out, text;
      }
      var c := m[s - SP_USER_BASE];
      out := out + [c];
      if c == 0 {
        return;
      }
      ghost var a := addr - SP_USER_BASE;
      assert m[a..a + |text| + 1] == m[a..a + |text|] + [m[a + |text|]];
      text := text + [c];
      s := s + 1;
    }
  }

  // A string found so far without its end is shorter than the whole one.
  lemma WantLonger(m: Image, addr: Word, text: Text, want: Text)
    requires text != [] ==> SP_USER_BASE <= addr && addr + |text| <= TOP && m[addr - SP_USER_BASE..addr - SP_USER_BASE + |text|] == text
    ensures TextAt(m, addr, want) ==> |want| >= |text|
  {
    if text != [] {
      NoNulls(m, addr - SP_USER_BASE, text);
    }
  }

  lemma JoinedMore(strs: seq<Text>, s: Text)
    ensures Joined(strs + [s]) == Joined(strs) + s + [0]
  {
    assert (strs + [s])[..|strs|] == strs;
  }

  lemma WantItem(m: Image, list: Word, strs: seq<Text>, want: seq<Text>, p: Word)
    requires Vector(m, list, want, 0) && |strs| <= |want| && want[..|strs|] == strs && WordAt(m, list + 4 * |strs|, p)
    ensures p == 0 <==> |strs| == |want|
    ensures p != 0 ==> TextAt(m, p, want[|strs|])
  {
    hide TextAt;
    if |strs| < |want| {
      assert ItemAt(m, list, |strs|, want[|strs|], 0);
      var q: Word :| q != 0 && WordAt(m, list + 4 * |strs|, q) && TextAt(m, q, want[|strs|]);
      WordUnique(m, list + 4 * |strs|, p, q);
    } else {
      WordUnique(m, list + 4 * |strs|, p, 0);
    }
  }

  // The wanted vector can be read on.
  lemma WantReadable(m: Image, list: Word, want: seq<Text>, k: nat)
    requires Vector(m, list, want, 0) && k <= |want|
    ensures SP_USER_BASE <= list + 4 * k && list + 4 * k + 4 <= TOP
  {
    hide TextAt;
    if k < |want| {
      assert ItemAt(m, list, k, want[k], 0);
    }
  }

  function OffsetOf(base: nat, strs: seq<Text>, i: nat): nat
    requires i <= |strs|
  {
    base + |Joined(strs[..i])|
  }

  predicate Offsets(offsets: seq<nat>, base: nat, strs: seq<Text>) {
    |offsets| == |strs| && forall i :: 0 <= i < |strs| ==> offsets[i] == OffsetOf(base, strs, i)
  }

  predicate Stageable(m: Image, list: Word, strs: seq<Text>, room: int) {
    Given(m, list, strs) && |strs| <= MAX_ARGS && |Joined(strs)| <= room
  }

  // argv or envp: every string staged and its offset noted.  `want` is any
  // vector the caller's pointer may stand for.
  method StageVector(m: Image, list: Word, strings: seq<Byte>, ghost want: seq<Text>)
    returns (err: int, out: seq<Byte>, offsets: seq<nat>, ghost strs: seq<Text>)
    requires |strings| <= MAX_STRINGS
    ensures err == 0 || err == -EFAULT || err == -E2BIG
    ensures err == 0 ==> Given(m, list, strs) && |strs| <= MAX_ARGS && Offsets(offsets, |strings|, strs)
    ensures err == 0 ==> out == strings + Joined(strs) && |out| <= MAX_STRINGS
    ensures Stageable(m, list, want, MAX_STRINGS - |strings|) ==> err == 0 && strs == want
  {
    hide TextAt, WordAt, ItemAt, Joined, Vector, Offsets, OffsetOf, ReadWord;
    err, out, offsets, strs := 0, strings, [], [];
    NoOffsets(|strings|);
    assert Joined([]) == [] by { JoinedNone(); }
    ghost var hoped := Stageable(m, list, want, MAX_STRINGS - |strings|);
    if list == 0 {
      return;
    }
    var i := 0;
    while i <= MAX_ARGS
      invariant 0 <= i <= MAX_ARGS + 1 && i == |strs| && Offsets(offsets, |strings|, strs) && (i > 0 ==> list + 4 * (i - 1) + 4 <= TOP)
      invariant out == strings + Joined(strs) && |out| <= MAX_STRINGS
      invariant forall j :: 0 <= j < i ==> ItemAt(m, list, j, strs[j], 0)
      invariant hoped ==> i <= |want| && want[..i] == strs
      invariant i <= MAX_ARGS
      decreases MAX_ARGS + 1 - i
    {
      if hoped { WantReadable(m, list, want, i); }
      if !UserRange(list + 4 * i, 4) {
        return -EFAULT, out, offsets, strs;
      }
      var s := ReadWord(m, list + 4 * i);
      if hoped { WantItem(m, list, strs, want, s); }
      if s == 0 {
        assert Vector(m, list, strs, 0) by { VectorMade(m, list, strs); }
        assert hoped ==> want == strs by { if hoped { assert want[..i] == want; } }
        return;
      }
      if i == MAX_ARGS {
        return -E2BIG, out, offsets, strs;
      }
      ghost var next: Text := if hoped then want[i] else [];
      if hoped { RoomFor(strs, want, i); }
      var e, more;
      ghost var text;
      e, more, text := StageText(m, s, out, next);
      if e != 0 {
        return e, out, offsets, strs;
      }
      if hoped { TextUnique(m, s, text, next); }
      JoinedMore(strs, text);
      ItemMade(m, list, i, s, text, 0);
      OffsetMore(offsets, |strings|, strs, text, |out|);
      offsets := offsets + [|out|];
      out := more;
      strs := strs + [text];
      i := i + 1;
    }
  }

  lemma NoOffsets(base: nat)
    ensures Offsets([], base, [])
  {
  }

  lemma JoinedNone()
    ensures Joined([]) == []
  {
  }

  lemma VectorMade(m: Image, list: int, strs: seq<Text>)
    requires (forall j :: 0 <= j < |strs| ==> ItemAt(m, list, j, strs[j], 0)) && WordAt(m, list + 4 * |strs|, 0)
    ensures Vector(m, list, strs, 0)
  {
  }

  lemma ItemMade(m: Image, list: int, i: int, p: Word, s: Text, low: int)
    requires p != 0 && low <= p && WordAt(m, list + 4 * i, p) && TextAt(m, p, s)
    ensures ItemAt(m, list, i, s, low)
  {
  }

  lemma RoomFor(strs: seq<Text>, want: seq<Text>, i: nat)
    requires i < |want| && want[..i] == strs
    ensures |Joined(strs)| + |want[i]| + 1 <= |Joined(want)|
  {
    JoinedPrefix(want, i + 1);
    assert want[..i + 1] == strs + [want[i]];
    JoinedMore(strs, want[i]);
  }

  lemma OffsetMore(offsets: seq<nat>, base: nat, strs: seq<Text>, s: Text, at: nat)
    requires Offsets(offsets, base, strs) && at == base + |Joined(strs)|
    ensures Offsets(offsets + [at], base, strs + [s])
  {
    hide Joined;
    var more := strs + [s];
    forall i | 0 <= i < |more| ensures (offsets + [at])[i] == OffsetOf(base, more, i) {
      assert more[..i] == strs[..i];
      if i == |strs| { assert strs[..i] == strs; }
    }
  }

  // ---- the image file ----

  // bytes is what can be read of the file; a broken one ends in a read error.
  datatype Opened = Failed(error: nat) | Opened(regular: bool, executable: bool, bytes: seq<Byte>, broken: bool)

  function Get32(b: seq<Byte>, i: nat): Word
    requires i + 4 <= |b|
  {
    Be32(b[i], b[i + 1], b[i + 2], b[i + 3])
  }

  function Round4(x: nat): nat {
    (x + 3) / 4 * 4
  }

  // sys_read: what it returns and the bytes it delivers.
  function Delivered(f: Opened, at: nat, count: nat): seq<Byte>
    requires f.Opened?
  {
    if at >= |f.bytes| then [] else if at + count <= |f.bytes| then f.bytes[at..at + count] else f.bytes[at..]
  }

  function ReadResult(f: Opened, at: nat, count: nat): int
    requires f.Opened?
  {
    var d := Delivered(f, at, count);
    if d == [] && count > 0 && f.broken then -1 else |d|
  }

  // A program that fits: its image and bss end below the stack reserve.
  predicate FitsWindow(loaded: Word, bss: Word, stack: Word) {
    16384 <= stack <= SP_USER_SIZE && Round4(loaded + bss) <= SP_USER_SIZE - stack
  }

  predicate Program28(b: seq<Byte>) {
    && 28 <= |b| && Get32(b, 0) == MAGIC && Get32(b, 4) == 1 && Get32(b, 24) == 0
    && Get32(b, 12) != 0 && Get32(b, 8) < Get32(b, 12) && Get32(b, 8) % 4 == 0
    && FitsWindow(Get32(b, 12), Get32(b, 16), Get32(b, 20))
  }

  predicate Executable(f: Opened) {
    && f.Opened? && f.regular && f.executable && !f.broken
    && Program28(f.bytes) && |f.bytes| == 28 + Get32(f.bytes, 12)
  }

  predicate Copies(m: Image, argv: Word, envp: Word, args: seq<Text>, envs: seq<Text>) {
    Stageable(m, argv, args, MAX_STRINGS) && Stageable(m, envp, envs, MAX_STRINGS - |Joined(args)|)
  }

  predicate Free(open: set<nat>) {
    exists fd: nat :: fd < NR_OPEN && fd !in open
  }

  // When exec succeeds, with the vectors it is given.
  predicate Runs(m: Image, open: set<nat>, path: Text, argv: Word, envp: Word, f: Opened, args: seq<Text>, envs: seq<Text>) {
    |path| < 255 && Copies(m, argv, envp, args, envs) && Free(open) && Executable(f)
  }

  // ---- the new window ----

  predicate SameBut(m: Image, m2: Image, lo: int, hi: int) {
    forall i :: 0 <= i < SP_USER_SIZE && !(lo <= SP_USER_BASE + i < hi) ==> m2[i] == m[i]
  }

  // s and a null byte stand at o.
  predicate PieceAt(all: seq<Byte>, o: nat, s: Text) {
    o + |s| < |all| && all[o..o + |s|] == s && all[o + |s|] == 0
  }

  lemma {:induction false} JoinedAt(strs: seq<Text>, i: nat)
    requires i < |strs|
    ensures PieceAt(Joined(strs), |Joined(strs[..i])|, strs[i])
  {
    var n := |strs| - 1;
    if i < n {
      JoinedAt(strs[..n], i);
      assert strs[..n][..i] == strs[..i];
      var o := |Joined(strs[..i])|;
      assert Joined(strs)[o..o + |strs[i]|] == Joined(strs[..n])[o..o + |strs[i]|];
    }
  }

  lemma WordKept(m: Image, m2: Image, lo: int, hi: int, addr: int, v: Word)
    requires WordAt(m, addr, v) && SameBut(m, m2, lo, hi) && (addr + 4 <= lo || hi <= addr)
    ensures WordAt(m2, addr, v)
  {
    hide Be32;
  }

  lemma WordStored(m: Image, addr: Word, v: Word)
    requires UserRange(addr, 4)
    ensures WordAt(StoredWord(m, addr, v), addr, v) && SameBut(m, StoredWord(m, addr, v), addr, addr + 4)
  {
    hide Be32, ByteAt;
    Be32RoundTrip(v);
  }

  // The joined strings stand at n.
  predicate StringsAt(m: Image, n: int, strings: seq<Byte>) {
    && SP_USER_BASE <= n && n + |strings| <= TOP
    && m[n - SP_USER_BASE..n - SP_USER_BASE + |strings|] == strings
  }

  lemma TextFound(m: Image, n: int, before: seq<Byte>, strs: seq<Text>, after: seq<Byte>, i: nat)
    requires StringsAt(m, n, before + Joined(strs) + after) && i < |strs|
    ensures TextAt(m, n + OffsetOf(|before|, strs, i), strs[i])
  {
    hide Joined, PieceAt, StringsAt, TextAt;
    JoinedAt(strs, i);
    PieceWithin(before, Joined(strs), after, |Joined(strs[..i])|, strs[i]);
    PieceStands(m, n, before + Joined(strs) + after, OffsetOf(|before|, strs, i), strs[i]);
  }

  lemma PieceWithin(before: seq<Byte>, x: seq<Byte>, after: seq<Byte>, o: nat, s: Text)
    requires PieceAt(x, o, s)
    ensures PieceAt(before + x + after, |before| + o, s)
  {
    var all, p := before + x + after, |before| + o;
    assert all[p..p + |s|] == x[o..o + |s|];
  }

  lemma PieceStands(m: Image, n: int, all: seq<Byte>, o: nat, s: Text)
    requires StringsAt(m, n, all) && PieceAt(all, o, s)
    ensures TextAt(m, n + o, s)
  {
    var a := n - SP_USER_BASE;
    assert m[a + o..a + o + |s|] == m[a..a + |all|][o..o + |s|];
    assert m[a + o + |s|] == m[a..a + |all|][o + |s|];
  }

  predicate TableAt(m: Image, base: int, n: int, offsets: seq<nat>, k: nat)
    requires k <= |offsets|
  {
    forall i :: 0 <= i < k ==> EntryAt(m, base, n, offsets, i)
  }

  predicate TableDone(m: Image, base: int, n: int, offsets: seq<nat>) {
    TableAt(m, base, n, offsets, |offsets|) && WordAt(m, base + 4 * |offsets|, 0)
  }

  predicate EntryAt(m: Image, base: int, n: int, offsets: seq<nat>, i: nat)
    requires i < |offsets|
  {
    SP_USER_BASE <= n + offsets[i] < TOP && WordAt(m, base + 4 * i, n + offsets[i])
  }

  // A table of pointers to the staged strings, and its null.
  method StoreTable(m: Image, base: Word, n: Word, offsets: seq<nat>) returns (r: Image)
    requires SP_USER_BASE <= base && base + 4 * (|offsets| + 1) <= TOP
    requires forall i :: 0 <= i < |offsets| ==> SP_USER_BASE <= n + offsets[i] < TOP
    ensures TableDone(r, base, n, offsets) && SameBut(m, r, base, base + 4 * (|offsets| + 1))
  {
    hide WordAt, StoredWord;
    r := m;
    var i := 0;
    while i < |offsets|
      invariant 0 <= i <= |offsets| && TableAt(r, base, n, offsets, i) && SameBut(m, r, base, base + 4 * i)
    {
      ghost var before := r;
      WordStored(r, base + 4 * i, n + offsets[i]);
      r := StoredWord(r, base + 4 * i, n + offsets[i]);
      EntriesKept(before, r, base, n, offsets, i, base + 4 * i, base + 4 * i + 4);
      i := i + 1;
    }
    ghost var before := r;
    WordStored(r, base + 4 * i, 0);
    r := StoredWord(r, base + 4 * i, 0);
    EntriesKept(before, r, base, n, offsets, i, base + 4 * i, base + 4 * i + 4);
  }

  lemma EntriesKept(m: Image, m2: Image, base: int, n: int, offsets: seq<nat>, k: nat, lo: int, hi: int)
    requires k <= |offsets| && TableAt(m, base, n, offsets, k) && SameBut(m, m2, lo, hi) && (base + 4 * k <= lo || hi <= base)
    ensures TableAt(m2, base, n, offsets, k)
  {
    hide WordAt, SameBut;
    forall i | 0 <= i < k ensures EntryAt(m2, base, n, offsets, i) {
      assert EntryAt(m, base, n, offsets, i);
      WordKept(m, m2, lo, hi, base + 4 * i, n + offsets[i]);
    }
  }

  lemma VectorFound(m: Image, base: int, n: int, before: seq<Byte>, strs: seq<Text>, after: seq<Byte>, offsets: seq<nat>)
    requires StringsAt(m, n, before + Joined(strs) + after) && Offsets(offsets, |before|, strs)
    requires TableDone(m, base, n, offsets)
    ensures Vector(m, base, strs, n)
  {
    hide WordAt, TextAt, StringsAt;
    forall i | 0 <= i < |strs| ensures ItemAt(m, base, i, strs[i], n) {
      assert EntryAt(m, base, n, offsets, i);
      TextFound(m, n, before, strs, after, i);
      ItemMade(m, base, i, n + offsets[i], strs[i], n);
    }
  }

  // Offsets stay inside the joined strings.
  lemma OffsetsInside(offsets: seq<nat>, base: nat, strs: seq<Text>)
    requires Offsets(offsets, base, strs)
    ensures forall i :: 0 <= i < |offsets| ==> offsets[i] < base + |Joined(strs)|
  {
    forall i | 0 <= i < |offsets| ensures offsets[i] < base + |Joined(strs)| {
      JoinedAt(strs, i);
    }
  }

  // What a new program finds: its image, zeros up to the stack, and argc, argv
  // and envp at the stack pointer.
  predicate Entered(m: Image, image: seq<Byte>, sp: int, args: seq<Text>, envs: seq<Text>) {
    && SP_USER_BASE + |image| <= sp && sp + 12 <= TOP && sp % 4 == 0
    && m[..|image|] == image && (forall i :: |image| <= i < sp - SP_USER_BASE ==> m[i] == 0)
    && |args| <= MAX_ARGS && WordAt(m, sp, |args|) && Pointed(m, sp, sp + 4, args) && Pointed(m, sp, sp + 8, envs)
  }

  // The word at `at` points to a vector that lies, strings and all, above sp.
  predicate Pointed(m: Image, sp: int, at: int, strs: seq<Text>) {
    exists v: Word, low: Word :: sp < v && sp < low && WordAt(m, at, v) && Vector(m, v, strs, low)
  }

  lemma TableKept(m: Image, m2: Image, lo: int, hi: int, base: int, n: int, offsets: seq<nat>)
    requires TableDone(m, base, n, offsets) && SameBut(m, m2, lo, hi) && hi <= base
    ensures TableDone(m2, base, n, offsets)
  {
    hide WordAt, SameBut, TableAt;
    EntriesKept(m, m2, base, n, offsets, |offsets|, lo, hi);
    WordKept(m, m2, lo, hi, base + 4 * |offsets|, 0);
  }

  // Whatever changes between lo and the strings leaves strings, image and the
  // zeros below lo.
  predicate Loaded(m: Image, image: seq<Byte>, limit: int, n: int, strings: seq<Byte>) {
    && SP_USER_BASE + |image| <= limit <= n && StringsAt(m, n, strings) && m[..|image|] == image
    && forall i :: |image| <= i < limit - SP_USER_BASE ==> m[i] == 0
  }

  lemma LoadedKept(m: Image, m2: Image, lo: int, hi: int, image: seq<Byte>, limit: int, n: int, strings: seq<Byte>)
    requires Loaded(m, image, limit, n, strings) && SameBut(m, m2, lo, hi)
    requires SP_USER_BASE + |image| <= lo <= limit && hi <= n
    ensures Loaded(m2, image, lo, n, strings)
  {
    var a := n - SP_USER_BASE;
    assert m2[a..a + |strings|] == m[a..a + |strings|];
    assert m2[..|image|] == m[..|image|];
  }

  lemma LoadedFirst(image: seq<Byte>, n: Word, strings: seq<Byte>)
    requires n == TOP - |strings| && SP_USER_BASE + |image| <= n
    ensures var m := Stored(seq(SP_USER_SIZE, _ => 0), SP_USER_BASE, image);
      Loaded(Stored(m, n, strings), image, n, n, strings)
  {
    var m := Stored(seq(SP_USER_SIZE, _ => 0), SP_USER_BASE, image);
    assert m[..|image|] == image;
    var m2 := Stored(m, n, strings);
    assert m2[..|image|] == m[..|image|];
  }

  method StoreFrame(m: Image, sp: Word, argc: Word, argv: Word, envp: Word) returns (r: Image)
    requires SP_USER_BASE <= sp && sp + 12 <= TOP
    ensures WordAt(r, sp, argc) && WordAt(r, sp + 4, argv) && WordAt(r, sp + 8, envp) && SameBut(m, r, sp, sp + 12)
  {
    hide WordAt, StoredWord;
    WordStored(m, sp, argc);
    r := StoredWord(m, sp, argc);
    ghost var one := r;
    WordStored(r, sp + 4, argv);
    r := StoredWord(r, sp + 4, argv);
    ghost var two := r;
    WordKept(one, two, sp + 4, sp + 8, sp, argc);
    WordStored(r, sp + 8, envp);
    r := StoredWord(r, sp + 8, envp);
    WordKept(two, r, sp + 8, sp + 12, sp, argc);
    WordKept(two, r, sp + 8, sp + 12, sp + 4, argv);
  }

  // Replacing the window: image, strings, the two tables, and the three words.
  method Enter(image: seq<Byte>, strings: seq<Byte>, argOffsets: seq<nat>, envOffsets: seq<nat>,
               ghost args: seq<Text>, ghost envs: seq<Text>)
    returns (m: Image, sp: Word)
    requires |image| + 16384 <= SP_USER_SIZE && |strings| <= MAX_STRINGS && strings == Joined(args) + Joined(envs)
    requires |args| <= MAX_ARGS && |envs| <= MAX_ARGS
    requires Offsets(argOffsets, 0, args) && Offsets(envOffsets, |Joined(args)|, envs)
    ensures Entered(m, image, sp, args, envs) && TOP - 16384 < sp
  {
    hide WordAt, StoredWord, Joined, Vector, TableAt, TableDone, TextAt, Stored, SameBut, StringsAt, OffsetOf;
    var n := TOP - |strings|;
    LoadedFirst(image, n, strings);
    m := Stored(seq(SP_USER_SIZE, _ => 0), SP_USER_BASE, image);
    m := Stored(m, n, strings);
    OffsetsInside(argOffsets, 0, args);
    OffsetsInside(envOffsets, |Joined(args)|, envs);
    ghost var m1 := m;
    var envTable := n / 4 * 4 - 4 * (|envOffsets| + 1);
    m := StoreTable(m, envTable, n, envOffsets);
    ghost var m2 := m;
    LoadedKept(m1, m2, envTable, envTable + 4 * (|envOffsets| + 1), image, n, n, strings);
    var argTable := envTable - 4 * (|argOffsets| + 1);
    m := StoreTable(m, argTable, n, argOffsets);
    ghost var m3 := m;
    LoadedKept(m2, m3, argTable, envTable, image, envTable, n, strings);
    TableKept(m2, m3, argTable, envTable, envTable, n, envOffsets);
    sp := argTable - 12;
    m := StoreFrame(m, sp, |argOffsets|, argTable, envTable);
    LoadedKept(m3, m, sp, argTable, image, argTable, n, strings);
    TableKept(m3, m, sp, argTable, envTable, n, envOffsets);
    TableKept(m3, m, sp, argTable, argTable, n, argOffsets);
    assert strings == [] + Joined(args) + Joined(envs) == Joined(args) + Joined(envs) + [];
    VectorFound(m, argTable, n, [], args, Joined(envs), argOffsets);
    VectorFound(m, envTable, n, Joined(args), envs, [], envOffsets);
  }

  // Both vectors, the environment's strings after the arguments'.
  method StageBoth(m: Image, argv: Word, envp: Word, ghost wantArgs: seq<Text>, ghost wantEnvs: seq<Text>)
    returns (err: int, strings: seq<Byte>, argOffsets: seq<nat>, envOffsets: seq<nat>, ghost args: seq<Text>, ghost envs: seq<Text>)
    ensures err == 0 || err == -EFAULT || err == -E2BIG
    ensures err == 0 ==> Copies(m, argv, envp, args, envs) && strings == Joined(args) + Joined(envs) && |strings| <= MAX_STRINGS
    ensures err == 0 ==> Offsets(argOffsets, 0, args) && Offsets(envOffsets, |Joined(args)|, envs)
    ensures Copies(m, argv, envp, wantArgs, wantEnvs) ==> err == 0 && args == wantArgs && envs == wantEnvs
  {
    hide Given, Joined, Offsets;
    args, envs, envOffsets := [], [], [];
    err, strings, argOffsets, args := StageVector(m, argv, [], wantArgs);
    if err != 0 {
      return;
    }
    assert strings == Joined(args);
    err, strings, envOffsets, envs := StageVector(m, envp, strings, wantEnvs);
  }

  // A new program starts with all registers zero but the stack pointer.
  function StartRegs(sp: Word): (r: Regs)
    ensures r[14] == sp && forall i :: 0 <= i < 16 && i != 14 ==> r[i] == 0
  {
    seq(16, i requires 0 <= i < 16 => if i == 14 then sp else 0)
  }

  class Task {
    var window: Image
    var context: Context
    var endData: Word
    var brk: Word
    var startStack: Word
    var open: set<nat>
    var closeOnExec: set<nat>

    // The first free descriptor; NR_OPEN when there is none.
    method FirstFree() returns (fd: nat)
      ensures fd <= NR_OPEN && (fd == NR_OPEN <==> !Free(open)) && (fd < NR_OPEN ==> fd !in open)
    {
      fd := 0;
      while fd < NR_OPEN
        invariant 0 <= fd <= NR_OPEN && forall i :: 0 <= i < fd ==> i in open
      {
        if fd !in open {
          return;
        }
        fd := fd + 1;
      }
    }

    // The commit point: nothing after it can fail.
    method Commit(b: seq<Byte>, image: seq<Byte>, strings: seq<Byte>, argOffsets: seq<nat>, envOffsets: seq<nat>,
                  ghost args: seq<Text>, ghost envs: seq<Text>)
      requires Program28(b) && |b| == 28 + Get32(b, 12) && image == b[28..]
      requires |strings| <= MAX_STRINGS && strings == Joined(args) + Joined(envs) && |args| <= MAX_ARGS && |envs| <= MAX_ARGS
      requires Offsets(argOffsets, 0, args) && Offsets(envOffsets, |Joined(args)|, envs)
      modifies this
      ensures Started(b, window, context, endData, brk, startStack, args, envs)
      ensures open == old(open) - old(closeOnExec) && closeOnExec == {}
    {
      hide Program28, Limits, Joined, Entered, Get32, Round4, Offsets, StartRegs;
      ProgramFacts(b);
      var entry, loaded, bss, stack := Get32(b, 8), Get32(b, 12), Get32(b, 16), Get32(b, 20);
      var size := loaded as int + bss as int;
      RoundUp(size);
      var sp;
      window, sp := Enter(image, strings, argOffsets, envOffsets, args, envs);
      context := Context(StartRegs(sp), SP_USER_BASE + entry);
      open := open - closeOnExec;
      closeOnExec := {};
      endData := SP_USER_BASE + Round4(size);
      brk := endData;
      startStack := SP_USER_BASE + SP_USER_SIZE - stack;
      LimitsHold(b, endData, startStack);
    }

    // sp_execve.  It succeeds exactly when the file is a program that fits and
    // the two vectors can be copied, and then the new program finds equal copies
    // of them inside its stack reserve; an error changes nothing but the
    // close-on-exec mark of a descriptor that is not open.
    method Execve(path: Text, argv: Word, envp: Word, file: Opened, ghost wantArgs: seq<Text>, ghost wantEnvs: seq<Text>)
      returns (result: int, ghost args: seq<Text>, ghost envs: seq<Text>)
      requires file.Failed? ==> file.error > 0
      modifies this
      ensures result == REPLACED || result < 0
      ensures result < 0 ==> window == old(window) && context == old(context) && open == old(open)
      ensures result < 0 ==> endData == old(endData) && brk == old(brk) && startStack == old(startStack)
      ensures result < 0 ==> closeOnExec * open == old(closeOnExec * open)
      ensures Runs(old(window), old(open), path, argv, envp, file, wantArgs, wantEnvs) ==> result == REPLACED && args == wantArgs && envs == wantEnvs
      ensures result == REPLACED ==> Runs(old(window), old(open), path, argv, envp, file, args, envs)
      ensures result == REPLACED ==> file.Opened? && Started(file.bytes, window, context, endData, brk, startStack, args, envs)
      ensures result == REPLACED ==> open == old(open) - old(closeOnExec) && closeOnExec == {}
    {
      hide Copies, Joined, Entered, Get32, Offsets, Limits, Free, Program28, StartRegs, Executable, Started;
      args, envs := [], [];
      if |path| >= 255 {
        return -ENAMETOOLONG, args, envs;
      }
      var err, strings, argOffsets, envOffsets;
      err, strings, argOffsets, envOffsets, args, envs := StageBoth(window, argv, envp, wantArgs, wantEnvs);
      if err != 0 {
        return err, args, envs;
      }
      CopiesFew(window, argv, envp, args, envs);
      var fd := FirstFree();
      if fd == NR_OPEN {
        return -EINVAL, args, envs;
      }
      closeOnExec := closeOnExec - {fd};
      FailedNot(file);
      if file.Failed? {
        return 0 - file.error, args, envs;
      }
      open := open + {fd};
      var ok, image := ReadImage(file);
      open := open - {fd};
      if !file.regular || !file.executable {
        NotExecutable(file);
        return -EACCES, args, envs;
      }
      if !ok {
        return -ENOEXEC, args, envs;
      }
      ExecutableIs(file);
      Commit(file.bytes, image, strings, argOffsets, envOffsets, args, envs);
      result := REPLACED;
    }
  }

  lemma FailedNot(f: Opened)
    ensures f.Failed? ==> !Executable(f)
  {
    hide Get32;
  }

  lemma NotExecutable(f: Opened)
    requires f.Opened? && (!f.regular || !f.executable)
    ensures !Executable(f)
  {
    hide Get32;
  }

  lemma ExecutableIs(f: Opened)
    requires Executable(f)
    ensures f.Opened? && |f.bytes| >= 28 && Program28(f.bytes) && |f.bytes| == 28 + Get32(f.bytes, 12)
  {
    hide Get32;
  }

  lemma CopiesFew(m: Image, argv: Word, envp: Word, args: seq<Text>, envs: seq<Text>)
    requires Copies(m, argv, envp, args, envs)
    ensures |args| <= MAX_ARGS && |envs| <= MAX_ARGS
  {
    hide Given, Joined;
  }

  lemma RoundUp(x: nat)
    ensures x <= Round4(x) < x + 4 && Round4(x) % 4 == 0
  {
  }

  // What a successful exec leaves: window, registers, break and stack limit.
  predicate Started(b: seq<Byte>, m: Image, c: Context, endData: Word, brk: Word, startStack: Word, args: seq<Text>, envs: seq<Text>) {
    && Program28(b) && Entered(m, b[28..], c.regs[14], args, envs)
    && c.regs == StartRegs(c.regs[14]) && c.pc == SP_USER_BASE + Get32(b, 8)
    && Limits(b, endData, brk, startStack) && brk <= startStack < c.regs[14]
  }

  predicate Limits(b: seq<Byte>, endData: Word, brk: Word, startStack: Word)
    requires Program28(b)
  {
    && endData == brk == SP_USER_BASE + Round4(Get32(b, 12) + Get32(b, 16))
    && startStack == TOP - Get32(b, 20)
  }

  lemma LimitsHold(b: seq<Byte>, endData: Word, startStack: Word)
    requires Program28(b) && endData == SP_USER_BASE + Round4(Get32(b, 12) + Get32(b, 16)) && startStack == TOP - Get32(b, 20)
    ensures Limits(b, endData, endData, startStack)
  {
  }

  lemma ProgramFacts(b: seq<Byte>)
    requires Program28(b)
    ensures |b| >= 28 && Get32(b, 8) < Get32(b, 12) && 16384 <= Get32(b, 20) <= SP_USER_SIZE
    ensures Round4(Get32(b, 12) + Get32(b, 16)) + Get32(b, 20) <= SP_USER_SIZE
  {
    hide Get32, Round4;
  }

  // The header checks and the read of the image; ok exactly for a program.
  method ReadImage(f: Opened) returns (ok: bool, image: seq<Byte>)
    requires f.Opened?
    ensures f.regular && f.executable ==> (ok <==> Executable(f))
    ensures ok && f.regular && f.executable ==> image == f.bytes[28..]
  {
    hide Get32;
    ok, image := false, [];
    var head := Delivered(f, 0, 28);
    if ReadResult(f, 0, 28) != 28 {
      return;
    }
    if Get32(head, 0) != MAGIC || Get32(head, 4) != 1 || Get32(head, 24) != 0 {
      HeadIs(f);
      return;
    }
    HeadIs(f);
    var entry, loaded, bss, stack := Get32(head, 8), Get32(head, 12), Get32(head, 16), Get32(head, 20);
    if loaded == 0 || entry >= loaded || entry % 4 != 0 || stack < 16384 || stack > SP_USER_SIZE {
      return;
    }
    RoundUp(loaded as int + bss as int);
    if loaded > SP_USER_SIZE - stack || bss > SP_USER_SIZE - stack - loaded {
      return;
    }
    if Round4(loaded as int + bss as int) > SP_USER_SIZE - stack {
      return;
    }
    while |image| < loaded
      invariant |image| <= loaded && 28 + |image| <= |f.bytes| && image == f.bytes[28..28 + |image|]
    {
      var got := ReadResult(f, 28 + |image|, loaded - |image|);
      if got <= 0 {
        return;
      }
      image := image + Delivered(f, 28 + |image|, loaded - |image|);
    }
    if ReadResult(f, 28 + loaded, 1) != 0 {
      return;
    }
    ok := true;
  }

  lemma HeadIs(f: Opened)
    requires f.Opened? && |f.bytes| >= 28
    ensures var h := Delivered(f, 0, 28);
      |h| == 28 && forall i :: 0 <= i <= 24 ==> Get32(h, i) == Get32(f.bytes, i)
  {
  }
}