// The root file system image: the writer make_image, the geometry check and the
// independent reader of scripts/mkrootfs.py.
module Rootfs {
  import opened Words

  const BLOCK := 1024
  const NINODES := 128

  type Bytes = seq<Byte>
  type Name = seq<Byte>

  // ---- big-endian fields ----

  function Half(x: nat): Bytes
    requires x < 0x1_0000
  {
    [x / 256, x % 256]
  }

  function Quad(x: nat): Bytes
    requires x < W
  {
    Half(x / 0x1_0000) + Half(x % 0x1_0000)
  }

  function Halves(vals: seq<nat>): (r: Bytes)
    requires forall v :: v in vals ==> v < 0x1_0000
    ensures |r| == 2 * |vals|
  {
    seq(2 * |vals|, i requires 0 <= i < 2 * |vals| => HalfByte(vals, i))
  }

  function HalfByte(vals: seq<nat>, i: nat): Byte
    requires (forall v :: v in vals ==> v < 0x1_0000) && i < 2 * |vals|
  {
    assert vals[i / 2] in vals;
    if i % 2 == 0 then vals[i / 2] / 256 else vals[i / 2] % 256
  }

  function U16(s: Bytes, p: nat): nat
    requires p + 2 <= |s|
  {
    (s[p] as int) * 256 + s[p + 1] as int
  }

  function U32(s: Bytes, p: nat): nat
    requires p + 4 <= |s|
  {
    U16(s, p) * 0x1_0000 + U16(s, p + 2)
  }

  lemma QuadRead(x: nat)
    requires x < W
    ensures |Quad(x)| == 4 && U32(Quad(x), 0) == x
  {
  }

  lemma HalfRead(x: nat)
    requires x < 0x1_0000
    ensures U16(Half(x), 0) == x
  {
  }

  lemma HalvesRead(vals: seq<nat>, j: nat)
    requires (forall v :: v in vals ==> v < 0x1_0000) && j < |vals|
    ensures U16(Halves(vals), 2 * j) == vals[j]
  {
    var r := Halves(vals);
    assert r[2 * j] == HalfByte(vals, 2 * j) && r[2 * j + 1] == HalfByte(vals, 2 * j + 1);
    assert (2 * j + 1) / 2 == j && (2 * j + 1) % 2 == 1;
    assert vals[j] in vals;
  }

  // ---- regions of an image ----

  predicate Same(im: Bytes, im2: Bytes, a: int, b: int) {
    |im| == |im2| && forall i :: 0 <= i < |im| && a <= i < b ==> im2[i] == im[i]
  }

  // im2 is im with d at p.
  predicate Put(im: Bytes, im2: Bytes, p: nat, d: Bytes) {
    && p + |d| <= |im| == |im2| && im2[p..p + |d|] == d
    && (forall i :: 0 <= i < |im| && !(p <= i < p + |d|) ==> im2[i] == im[i])
  }

  function Patch(im: Bytes, p: nat, d: Bytes): (r: Bytes)
    requires p + |d| <= |im|
    ensures Put(im, r, p, d)
  {
    im[..p] + d + im[p + |d|..]
  }

  // Nothing but zeros from a to b.
  predicate Blank(im: Bytes, a: int, b: int) {
    forall i :: 0 <= i < |im| && a <= i < b ==> im[i] == 0
  }

  lemma BlankKept(im: Bytes, im2: Bytes, a: int, b: int)
    requires Blank(im, a, b) && Same(im, im2, a, b)
    ensures Blank(im2, a, b)
  {
  }

  lemma BlankLess(im: Bytes, a: int, b: int, c: int, d: int)
    requires Blank(im, a, b) && a <= c && d <= b
    ensures Blank(im, c, d)
  {
  }

  lemma SliceAt(im: Bytes, p: nat, d: Bytes, j: nat)
    requires p + |d| <= |im| && im[p..p + |d|] == d && j < |d|
    ensures im[p + j] == d[j]
  {
    assert im[p..p + |d|][j] == im[p + j];
  }

  lemma U16At(im: Bytes, p: nat, d: Bytes, j: nat)
    requires p + |d| <= |im| && im[p..p + |d|] == d && j + 2 <= |d|
    ensures U16(im, p + j) == U16(d, j)
  {
    SliceAt(im, p, d, j);
    SliceAt(im, p, d, j + 1);
  }

  // ---- the reader ----

  datatype Geo = Geo(ninodes: nat, nzones: nat, imaps: nat, zmaps: nat, first: nat, base: nat)

  function Geometry(im: Bytes): (g: Option<Geo>)
    ensures g.Some? ==> GeoOk(g.value, |im|)
  {
    if |im| < BLOCK + 18 then None
    else
      var ninodes, nzones, imaps, zmaps := U16(im, BLOCK), U16(im, BLOCK + 2), U16(im, BLOCK + 4), U16(im, BLOCK + 6);
      var first, shift, magic := U16(im, BLOCK + 8), U16(im, BLOCK + 10), U16(im, BLOCK + 16);
      var base := (2 + imaps + zmaps) * BLOCK;
      if magic != 0x137f || shift != 0 || !(1 <= imaps <= 8) || !(1 <= zmaps <= 8) || !(0 < ninodes <= 128) then None
      else if !(base + (ninodes * 32 + BLOCK - 1) / BLOCK * BLOCK <= first * BLOCK < nzones * BLOCK <= |im|) then None
      else if zmaps * 8192 < nzones - first + 1 then None
      else Some(Geo(ninodes, nzones, imaps, zmaps, first, base))
  }

  predicate GeoOk(g: Geo, size: nat) {
    && 0 < g.ninodes <= 128 && g.base + 32 * g.ninodes <= g.first * BLOCK
    && g.first < g.nzones && g.nzones * BLOCK <= size
  }

  // One entry of a table zone.
  function TableAt(im: Bytes, g: Geo, zone: nat, index: nat): Option<nat> {
    if !(g.first <= zone < g.nzones) || zone * BLOCK + index * 2 + 2 > |im| then None
    else Some(U16(im, zone * BLOCK + index * 2))
  }

  predicate HasInode(im: Bytes, g: Geo, n: nat) {
    1 <= n <= g.ninodes && g.base + 32 * n <= |im|
  }

  function SizeField(im: Bytes, g: Geo, n: nat): nat
    requires HasInode(im, g, n)
  {
    U32(im, g.base + 32 * (n - 1) + 4)
  }

  function ZoneField(im: Bytes, g: Geo, n: nat, j: nat): nat
    requires HasInode(im, g, n) && j < 9
  {
    U16(im, g.base + 32 * (n - 1) + 14 + 2 * j)
  }

  // The zone of a file's block: direct, through the table, or through the table
  // of tables.
  function ZoneOf(im: Bytes, g: Geo, n: nat, b: nat): Option<nat>
    requires HasInode(im, g, n)
  {
    if b < 7 then Some(ZoneField(im, g, n, b))
    else if b < 519 then TableAt(im, g, ZoneField(im, g, n, 7), b - 7)
    else
      match TableAt(im, g, ZoneField(im, g, n, 8), (b - 519) / 512)
      case None => None
      case Some(t) => TableAt(im, g, t, (b - 519) % 512)
  }

  function BlocksOf(size: nat): nat {
    (size + BLOCK - 1) / BLOCK
  }

  // The first b blocks of a file.
  function Blocks(im: Bytes, g: Geo, n: nat, b: nat): Option<Bytes>
    requires HasInode(im, g, n) && g.nzones * BLOCK <= |im|
  {
    if b == 0 then Some([])
    else match Blocks(im, g, n, b - 1)
      case None => None
      case Some(out) =>
        match ZoneOf(im, g, n, b - 1)
        case None => None
        case Some(z) => if g.first <= z < g.nzones then Some(out + im[z * BLOCK..(z + 1) * BLOCK]) else None
  }

  function Content(im: Bytes, g: Geo, n: nat): Option<Bytes>
    requires GeoOk(g, |im|)
  {
    if !(1 <= n <= g.ninodes) then None
    else
      var size := SizeField(im, g, n);
      match Blocks(im, g, n, BlocksOf(size))
      case None => None
      case Some(out) => Some(if size <= |out| then out[..size] else out)
  }

  // A stored name without its padding.
  function Stripped(s: Bytes): Bytes {
    if s == [] || s[|s| - 1] != 0 then s else Stripped(s[..|s| - 1])
  }

  predicate Tail(s: Bytes, i: nat) {
    i < |s| && 0x80 <= s[i] < 0xC0
  }

  // A well-formed UTF-8 string (section 4 of RFC 3629).
  predicate Utf8(s: Bytes) {
    s == [] || (
      var c := s[0];
      if c < 0x80 then Utf8(s[1..])
      else if 0xC2 <= c < 0xE0 then Tail(s, 1) && Utf8(s[2..])
      else if 0xE0 <= c < 0xF0 then
        Tail(s, 1) && Tail(s, 2) && (c == 0xE0 ==> s[1] >= 0xA0) && (c == 0xED ==> s[1] < 0xA0) && Utf8(s[3..])
      else if 0xF0 <= c < 0xF5 then
        Tail(s, 1) && Tail(s, 2) && Tail(s, 3) && (c == 0xF0 ==> s[1] >= 0x90) && (c == 0xF4 ==> s[1] < 0x90) && Utf8(s[4..])
      else false)
  }

  lemma {:induction false} AsciiUtf8(s: Bytes)
    requires forall c :: c in s ==> c < 0x80
    ensures Utf8(s)
  {
    if s != [] {
      assert s[0] in s;
      assert forall c :: c in s[1..] ==> c in s;
      AsciiUtf8(s[1..]);
    }
  }

  // The inode number of the first entry with this name, from offset off on; 0
  // when there is none.  A name that does not decode stops the search.
  function Lookup(dir: Bytes, name: Name, off: nat): Option<nat>
    decreases |dir| - off
  {
    if off >= |dir| then Some(0)
    else if off + 16 > |dir| then None
    else if !Utf8(Stripped(dir[off + 2..off + 16])) then None
    else if Stripped(dir[off + 2..off + 16]) == name then Some(U16(dir, off))
    else Lookup(dir, name, off + 16)
  }

  // The file at the first k components of a path.
  function Walk(im: Bytes, g: Geo, parts: seq<Name>, k: nat): Option<nat>
    requires GeoOk(g, |im|) && k <= |parts|
  {
    if k == 0 then Some(1)
    else match Walk(im, g, parts, k - 1)
      case None => None
      case Some(n) =>
        match Content(im, g, n)
        case None => None
        case Some(dir) =>
          match Lookup(dir, parts[k - 1], 0)
          case None => None
          case Some(found) => if found == 0 then None else Some(found)
  }

  // What read_file returns; None for every exception.
  function FileAt(im: Bytes, parts: seq<Name>): Option<Bytes> {
    match Geometry(im)
    case None => None
    case Some(g) =>
      match Walk(im, g, parts, |parts|)
      case None => None
      case Some(n) => Content(im, g, n)
  }

  method ReadContent(im: Bytes, g: Geo, n: nat) returns (r: Option<Bytes>)
    requires GeoOk(g, |im|)
    ensures r == Content(im, g, n)
  {
    hide ZoneOf, U32;
    if !(1 <= n <= g.ninodes) {
      return None;
    }
    var size := SizeField(im, g, n);
    var out := [];
    var b := 0;
    while b < BlocksOf(size)
      invariant 0 <= b <= BlocksOf(size) && Blocks(im, g, n, b) == Some(out)
    {
      var z := ZoneOf(im, g, n, b);
      if z.None? || !(g.first <= z.value < g.nzones) {
        BlocksFail(im, g, n, b + 1, BlocksOf(size));
        return None;
      }
      out := out + im[z.value * BLOCK..(z.value + 1) * BLOCK];
      b := b + 1;
    }
    return Some(if size <= |out| then out[..size] else out);
  }

  lemma {:induction false} BlocksFail(im: Bytes, g: Geo, n: nat, b: nat, c: nat)
    requires HasInode(im, g, n) && g.nzones * BLOCK <= |im| && b <= c && Blocks(im, g, n, b).None?
    ensures Blocks(im, g, n, c).None?
    decreases c - b
  {
    hide ZoneOf;
    if b < c {
      BlocksFail(im, g, n, b, c - 1);
    }
  }

  method ReadFile(im: Bytes, parts: seq<Name>) returns (r: Option<Bytes>)
    ensures r == FileAt(im, parts)
  {
    hide Geometry, Content, Lookup;
    var g := Geometry(im);
    if g.None? {
      return None;
    }
    var number, k := 1, 0;
    while k < |parts|
      invariant 0 <= k <= |parts| && Walk(im, g.value, parts, k) == Some(number)
    {
      var dir := ReadContent(im, g.value, number);
      if dir.None? {
        WalkFails(im, g.value, parts, k + 1);
        return None;
      }
      var found := ReadEntry(dir.value, parts[k]);
      if found.None? || found.value == 0 {
        WalkFails(im, g.value, parts, k + 1);
        return None;
      }
      number := found.value;
      k := k + 1;
    }
    r := ReadContent(im, g.value, number);
  }

  lemma {:induction false} WalkFails(im: Bytes, g: Geo, parts: seq<Name>, k: nat)
    requires GeoOk(g, |im|) && k <= |parts| && Walk(im, g, parts, k).None?
    ensures Walk(im, g, parts, |parts|).None?
    decreases |parts| - k
  {
    hide Content, Lookup;
    if k < |parts| {
      WalkFails(im, g, parts, k + 1);
    }
  }

  method ReadEntry(dir: Bytes, name: Name) returns (r: Option<nat>)
    ensures r == Lookup(dir, name, 0)
  {
    hide Stripped;
    var off := 0;
    while off < |dir|
      invariant Lookup(dir, name, 0) == Lookup(dir, name, off)
    {
      if off + 16 > |dir| {
        return None;
      }
      if !Utf8(Stripped(dir[off + 2..off + 16])) {
        return None;
      }
      if Stripped(dir[off + 2..off + 16]) == name {
        return Some(U16(dir, off));
      }
      off := off + 16;
    }
    r := Some(0);
  }

  // ---- the nodes of an image ----

  // parts has neither empty components nor "."; ".." may stand in it.  A path
  // with exactly two leading slashes, which make_image puts under a second root
  // that read_file never looks in, is not one of these.
  datatype Path = Path(absolute: bool, parts: seq<Name>)
  datatype File = File(path: Path, data: Bytes)
  datatype Kind = Dir | Plain(data: Bytes) | Device
  datatype Node = Node(path: seq<Name>, kind: Kind)

  const DOT: Name := [46]
  const DOTDOT: Name := [46, 46]
  const BIN: Name := [98, 105, 110]
  const DEV: Name := [100, 101, 118]
  const ETC: Name := [101, 116, 99]
  const TMP: Name := [116, 109, 112]
  const TTY0: Name := [116, 116, 121, 48]

  function Up(p: seq<Name>): seq<Name> {
    if p == [] then [] else p[..|p| - 1]
  }

  // The place of a path among the nodes; their number when it is not there.
  function Find(nodes: seq<Node>, path: seq<Name>): (i: nat)
    ensures i <= |nodes| && (i < |nodes| ==> nodes[i].path == path)
    ensures forall j :: 0 <= j < i ==> nodes[j].path != path
  {
    if nodes == [] then 0
    else
      var i := Find(nodes[..|nodes| - 1], path);
      if i < |nodes| - 1 || nodes[|nodes| - 1].path == path then i else |nodes|
  }

  // nodes[path] = kind, keeping the order of the keys.
  function SetNode(nodes: seq<Node>, path: seq<Name>, kind: Kind): seq<Node> {
    var i := Find(nodes, path);
    if i < |nodes| then nodes[i := Node(path, kind)] else nodes + [Node(path, kind)]
  }

  function AddDir(nodes: seq<Node>, path: seq<Name>): seq<Node> {
    if Find(nodes, path) < |nodes| then nodes else nodes + [Node(path, Dir)]
  }

  // The directories above a path, from the root down.
  function AddParents(nodes: seq<Node>, parts: seq<Name>, k: nat): seq<Node>
    requires k <= |parts|
  {
    if k == 0 then nodes else AddDir(AddParents(nodes, parts, k - 1), parts[..k - 1])
  }

  function AddFile(nodes: seq<Node>, f: File): seq<Node> {
    var parts := f.path.parts;
    SetNode(AddParents(nodes, parts, |parts|), parts, Plain(f.data))
  }

  function Fixed(): seq<Node> {
    [Node([], Dir), Node([BIN], Dir), Node([DEV], Dir), Node([ETC], Dir), Node([TMP], Dir)]
  }

  function Collected(files: seq<File>): seq<Node> {
    if files == [] then Fixed() else AddFile(Collected(files[..|files| - 1]), files[|files| - 1])
  }

  function NodesOf(files: seq<File>): seq<Node> {
    SetNode(Collected(files), [DEV, TTY0], Device)
  }

  // ---- directories ----

  // j hangs in directory k.
  predicate ChildOf(nodes: seq<Node>, k: nat, j: nat)
    requires k < |nodes| && j < |nodes|
  {
    nodes[j].path != [] && Up(nodes[j].path) == nodes[k].path
  }

  datatype Entry = Entry(ino: nat, name: Name)

  function Last(p: seq<Name>): Name {
    if p == [] then DOT else p[|p| - 1]
  }

  function Children(nodes: seq<Node>, k: nat, j: nat): (r: seq<Entry>)
    requires k < |nodes| && j <= |nodes|
    ensures forall e :: e in r ==> e.ino <= |nodes|
  {
    if j == 0 then []
    else Children(nodes, k, j - 1) + if ChildOf(nodes, k, j - 1) then [Entry(j, Last(nodes[j - 1].path))] else []
  }

  function Listing(nodes: seq<Node>, k: nat): (r: seq<Entry>)
    requires k < |nodes|
    ensures forall e :: e in r ==> e.ino <= |nodes| + 1
  {
    [Entry(k + 1, DOT), Entry(Find(nodes, Up(nodes[k].path)) + 1, DOTDOT)] + Children(nodes, k, |nodes|)
  }

  function Padded(name: Name): (r: Bytes)
    ensures |r| == 14
  {
    seq(14, i requires 0 <= i < 14 => if i < |name| then name[i] else 0)
  }

  function Packed(e: Entry): (r: Bytes)
    requires e.ino < 0x1_0000
    ensures |r| == 16
  {
    Half(e.ino) + Padded(e.name)
  }

  function DirBytes(list: seq<Entry>): (r: Bytes)
    requires forall e :: e in list ==> e.ino < 0x1_0000
    ensures |r| == 16 * |list|
  {
    if list == [] then [] else DirBytes(list[..|list| - 1]) + Packed(list[|list| - 1])
  }

  predicate NameFits(name: Name) {
    |name| <= 14 && forall c :: c in name ==> c < 128
  }

  predicate NamesFit(list: seq<Entry>) {
    forall e :: e in list ==> NameFits(e.name)
  }

  // A stored name reads back unless it ends in a null byte.
  predicate Clean(name: Name) {
    |name| <= 14 && (forall c :: c in name ==> c < 128) && (name == [] || name[|name| - 1] != 0)
  }

  lemma {:induction false} StripZeros(name: Name, k: nat)
    requires Clean(name) && |name| + k <= 14
    ensures Stripped(Padded(name)[..|name| + k]) == name
  {
    var s := Padded(name)[..|name| + k];
    if k == 0 {
      assert s == name;
    } else {
      assert s[|s| - 1] == 0;
      assert s[..|s| - 1] == Padded(name)[..|name| + (k - 1)];
      StripZeros(name, k - 1);
    }
  }

  lemma NameReadBack(name: Name)
    requires Clean(name)
    ensures Stripped(Padded(name)) == name
  {
    StripZeros(name, 14 - |name|);
    assert Padded(name)[..14] == Padded(name);
  }

  lemma {:induction false} EntryAt(list: seq<Entry>, i: nat)
    requires (forall e :: e in list ==> e.ino < 0x1_0000) && i < |list|
    ensures DirBytes(list)[16 * i..16 * i + 16] == Packed(list[i])
  {
    hide Packed;
    var n := |list| - 1;
    if i < n {
      EntryAt(list[..n], i);
      assert DirBytes(list)[16 * i..16 * i + 16] == DirBytes(list[..n])[16 * i..16 * i + 16];
    }
  }

  predicate NoneNamed(list: seq<Entry>, name: Name, i: nat, j: nat) {
    forall k :: i <= k < j && k < |list| ==> list[k].name != name
  }

  // Searching a packed directory finds the entry of that name.
  lemma {:induction false} LookupFinds(list: seq<Entry>, name: Name, i: nat, j: nat)
    requires (forall e :: e in list ==> e.ino < 0x1_0000 && Clean(e.name)) && i <= j < |list|
    requires list[j].name == name && NoneNamed(list, name, i, j)
    ensures Lookup(DirBytes(list), name, 16 * i) == Some(list[j].ino)
    decreases j - i
  {
    hide Packed, Stripped, Clean;
    var dir := DirBytes(list);
    EntryAt(list, i);
    assert list[i] in list;
    PackedParts(dir, 16 * i, list[i]);
    CleanUtf8(list[i].name);
    if i < j {
      LookupFinds(list, name, i + 1, j);
    }
  }

  lemma CleanUtf8(name: Name)
    requires Clean(name)
    ensures Utf8(name)
  {
    AsciiUtf8(name);
  }

  lemma PackedParts(dir: Bytes, off: nat, e: Entry)
    requires off + 16 <= |dir| && e.ino < 0x1_0000 && Clean(e.name) && dir[off..off + 16] == Packed(e)
    ensures U16(dir, off) == e.ino && Stripped(dir[off + 2..off + 16]) == e.name
  {
    hide Stripped;
    NameReadBack(e.name);
    U16At(dir, off, Packed(e), 0);
    assert dir[off + 2..off + 16] == dir[off..off + 16][2..16] == Padded(e.name);
  }

  // ---- valid, non-conflicting paths make a tree ----

  predicate ValidName(c: Name) {
    c != [] && c != DOT && c != DOTDOT && 0 !in c
  }

  predicate FixedDir(p: seq<Name>) {
    p == [] || p == [BIN] || p == [DEV] || p == [ETC] || p == [TMP]
  }

  predicate GoodPath(p: Path) {
    && p.absolute && (forall c :: c in p.parts ==> ValidName(c))
    && !FixedDir(p.parts) && !([DEV, TTY0] <= p.parts)
  }

  predicate Clash(f: File, g: File) {
    f.path.parts <= g.path.parts
  }

  // No file stands where a directory, the terminal or another file must stand.
  predicate NonConflicting(files: seq<File>) {
    && (forall i :: 0 <= i < |files| ==> GoodPath(files[i].path))
    && (forall i, j :: 0 <= i < |files| && 0 <= j < |files| && Clash(files[i], files[j]) ==> i == j)
  }

  predicate Apart(nodes: seq<Node>) {
    forall i, j :: 0 <= i < |nodes| && 0 <= j < |nodes| && nodes[i].path == nodes[j].path ==> i == j
  }

  predicate HasDir(nodes: seq<Node>, p: seq<Name>) {
    Find(nodes, p) < |nodes| && nodes[Find(nodes, p)].kind == Dir
  }

  predicate HasFile(nodes: seq<Node>, p: seq<Name>, d: Bytes) {
    Find(nodes, p) < |nodes| && nodes[Find(nodes, p)].kind == Plain(d)
  }

  predicate Hangs(nodes: seq<Node>, x: Node) {
    x.path != [] ==> HasDir(nodes, Up(x.path)) && ValidName(Last(x.path))
  }

  // Every node but the root hangs from a directory, and no two share a path.
  predicate Tree(nodes: seq<Node>) {
    && nodes != [] && nodes[0] == Node([], Dir) && Apart(nodes)
    && (forall i :: 0 <= i < |nodes| ==> Hangs(nodes, nodes[i]))
  }

  lemma FindAt(nodes: seq<Node>, i: nat)
    requires Apart(nodes) && i < |nodes|
    ensures Find(nodes, nodes[i].path) == i
  {
  }

  lemma FindGrown(nodes: seq<Node>, x: Node, p: seq<Name>)
    ensures Find(nodes, p) < |nodes| ==> Find(nodes + [x], p) == Find(nodes, p)
    ensures Find(nodes, p) == |nodes| && x.path == p ==> Find(nodes + [x], p) == |nodes|
  {
    assert (nodes + [x])[..|nodes|] == nodes;
  }

  lemma KeptGrown(nodes: seq<Node>, x: Node)
    ensures forall p :: HasDir(nodes, p) ==> HasDir(nodes + [x], p)
    ensures forall p, d :: HasFile(nodes, p, d) ==> HasFile(nodes + [x], p, d)
  {
    hide Find;
    forall p ensures HasDir(nodes, p) ==> HasDir(nodes + [x], p) {
      FindGrown(nodes, x, p);
    }
    forall p, d ensures HasFile(nodes, p, d) ==> HasFile(nodes + [x], p, d) {
      FindGrown(nodes, x, p);
    }
  }

  lemma TreeGrown(nodes: seq<Node>, x: Node)
    requires Tree(nodes) && Find(nodes, x.path) == |nodes| && Hangs(nodes, x)
    ensures Tree(nodes + [x])
    ensures forall p :: HasDir(nodes, p) ==> HasDir(nodes + [x], p)
    ensures forall p, d :: HasFile(nodes, p, d) ==> HasFile(nodes + [x], p, d)
    ensures x.kind == Dir ==> HasDir(nodes + [x], x.path)
    ensures x.kind.Plain? ==> HasFile(nodes + [x], x.path, x.kind.data)
  {
    hide Find, HasDir, HasFile, ValidName;
    var more := nodes + [x];
    KeptGrown(nodes, x);
    NewThere(nodes, x);
    forall i | 0 <= i < |more| ensures Hangs(more, more[i]) {
      if i < |nodes| { assert Hangs(nodes, nodes[i]); }
    }
  }

  lemma NewThere(nodes: seq<Node>, x: Node)
    requires Find(nodes, x.path) == |nodes|
    ensures x.kind == Dir ==> HasDir(nodes + [x], x.path)
    ensures x.kind.Plain? ==> HasFile(nodes + [x], x.path, x.kind.data)
  {
    hide Find;
    FindGrown(nodes, x, x.path);
  }

  // Where a path prefix of the first n files may lead.
  predicate Above(files: seq<File>, n: nat, p: seq<Name>) {
    exists f :: 0 <= f < n && f < |files| && Under(p, files[f])
  }

  predicate Under(p: seq<Name>, f: File) {
    p < f.path.parts
  }

  predicate Is(x: Node, f: File) {
    x == Node(f.path.parts, Plain(f.data))
  }

  predicate Explained(files: seq<File>, m: nat, n: nat, x: Node) {
    match x.kind
    case Dir => FixedDir(x.path) || Above(files, m, x.path)
    case Plain(_) => exists f :: 0 <= f < n && f < |files| && Is(x, files[f])
    case Device => false
  }

  // The nodes after n files, with directories for the first m.
  predicate Built(files: seq<File>, m: nat, n: nat, nodes: seq<Node>) {
    && n <= m <= |files| && Tree(nodes) && HasDir(nodes, [DEV])
    && (forall i :: 0 <= i < |nodes| ==> Explained(files, m, n, nodes[i]))
    && (forall f :: 0 <= f < n ==> HasFile(nodes, files[f].path.parts, files[f].data))
  }

  lemma FixedBuilt(files: seq<File>)
    ensures Built(files, 0, 0, Fixed())
  {
    var nodes := Fixed();
    assert Apart(nodes) by {
      forall i | 0 <= i < |nodes| ensures i > 0 ==> |nodes[i].path| == 1 {
      }
      assert BIN[0] == 98 && DEV[0] == 100 && ETC[0] == 101 && TMP[0] == 116;
      forall i, j | 0 < i < |nodes| && 0 < j < |nodes| && nodes[i].path == nodes[j].path ensures i == j {
        assert nodes[i].path[0][0] == nodes[j].path[0][0];
      }
    }
    FindAt(nodes, 0);
    FindAt(nodes, 2);
    assert Up([BIN]) == Up([DEV]) == Up([ETC]) == Up([TMP]) == [];
    forall i | 0 <= i < |nodes| ensures Hangs(nodes, nodes[i]) && Explained(files, 0, 0, nodes[i]) {
    }
  }

  lemma BuiltMore(files: seq<File>, m: nat, n: nat, nodes: seq<Node>)
    requires Built(files, m, n, nodes) && m < |files|
    ensures Built(files, m + 1, n, nodes)
  {
    hide Tree, HasDir, HasFile;
    forall i | 0 <= i < |nodes| ensures Explained(files, m + 1, n, nodes[i]) {
      assert Explained(files, m, n, nodes[i]);
    }
  }

  // A node on the way to file n, or at it, is a directory and not the file itself.
  lemma OnTheWay(files: seq<File>, n: nat, x: Node)
    requires NonConflicting(files) && n < |files| && Explained(files, n + 1, n, x) && x.path <= files[n].path.parts
    ensures x.kind == Dir && x.path != files[n].path.parts
  {
    assert GoodPath(files[n].path);
    forall f | 0 <= f < |files| ensures Clash(files[f], files[n]) || Clash(files[n], files[f]) ==> f == n {
    }
  }

  lemma {:induction false} ParentsBuilt(files: seq<File>, n: nat, nodes: seq<Node>, k: nat)
    requires NonConflicting(files) && n < |files| && Built(files, n + 1, n, nodes) && k <= |files[n].path.parts|
    ensures var more := AddParents(nodes, files[n].path.parts, k);
      Built(files, n + 1, n, more) && (k > 0 ==> HasDir(more, files[n].path.parts[..k - 1]))
  {
    hide Find, HasDir, HasFile, Tree, ValidName, NonConflicting, Clash;
    var parts := files[n].path.parts;
    if k > 0 {
      ParentsBuilt(files, n, nodes, k - 1);
      var before := AddParents(nodes, parts, k - 1);
      var p := parts[..k - 1];
      var i := Find(before, p);
      if i < |before| {
        OnTheWay(files, n, before[i]);
        DirIsThere(before, p);
      } else {
        var x := Node(p, Dir);
        WayHangs(files, n, before, k);
        TreeGrown(before, x);
        assert Explained(files, n + 1, n, x) by { assert Under(p, files[n]); }
      }
    }
  }

  lemma DirIsThere(nodes: seq<Node>, p: seq<Name>)
    requires Find(nodes, p) < |nodes| && nodes[Find(nodes, p)].kind == Dir
    ensures HasDir(nodes, p)
  {
  }

  lemma WayHangs(files: seq<File>, n: nat, nodes: seq<Node>, k: nat)
    requires NonConflicting(files) && n < |files| && 0 < k <= |files[n].path.parts|
    requires k > 1 ==> HasDir(nodes, files[n].path.parts[..k - 2])
    ensures Hangs(nodes, Node(files[n].path.parts[..k - 1], Dir))
  {
    hide HasDir, ValidName;
    var parts := files[n].path.parts;
    assert GoodPath(files[n].path);
    if k > 1 {
      assert Up(parts[..k - 1]) == parts[..k - 2];
      assert Last(parts[..k - 1]) == parts[k - 2];
    }
  }

  lemma FileBuilt(files: seq<File>, n: nat, nodes: seq<Node>)
    requires NonConflicting(files) && n < |files| && Built(files, n, n, nodes)
    ensures Built(files, n + 1, n + 1, AddFile(nodes, files[n]))
  {
    hide Find, HasDir, HasFile, Tree, ValidName, Clash, FixedDir, NonConflicting;
    var f := files[n];
    var parts := f.path.parts;
    BuiltMore(files, n, n, nodes);
    ParentsBuilt(files, n, nodes, |parts|);
    var before := AddParents(nodes, parts, |parts|);
    var i := Find(before, parts);
    if i < |before| {
      OnTheWay(files, n, before[i]);
      assert false;
    }
    var x := Node(parts, Plain(f.data));
    FileHangs(files, n, before);
    TreeGrown(before, x);
    var more := before + [x];
    forall j | 0 <= j < |more| ensures Explained(files, n + 1, n + 1, more[j]) {
      if j < |before| {
        assert Explained(files, n + 1, n, before[j]);
      } else {
        assert Is(x, files[n]);
      }
    }
  }

  lemma FileHangs(files: seq<File>, n: nat, nodes: seq<Node>)
    requires NonConflicting(files) && n < |files|
    requires files[n].path.parts != [] ==> HasDir(nodes, files[n].path.parts[..|files[n].path.parts| - 1])
    ensures Hangs(nodes, Node(files[n].path.parts, Plain(files[n].data)))
  {
    hide HasDir, ValidName;
    assert GoodPath(files[n].path);
  }

  lemma {:induction false} CollectedBuilt(files: seq<File>, n: nat)
    requires NonConflicting(files) && n <= |files|
    ensures Built(files, n, n, Collected(files[..n]))
  {
    hide Built, NonConflicting, AddFile, Fixed;
    if n == 0 {
      FixedBuilt(files);
    } else {
      CollectedBuilt(files, n - 1);
      FileBuilt(files, n - 1, Collected(files[..n - 1]));
      assert files[..n][..n - 1] == files[..n - 1];
    }
  }

  // The nodes form a tree in which every file is where its path says.
  lemma NodesTree(files: seq<File>)
    requires NonConflicting(files)
    ensures Tree(NodesOf(files))
    ensures forall f :: 0 <= f < |files| ==> HasFile(NodesOf(files), files[f].path.parts, files[f].data)
  {
    hide Find, HasDir, HasFile, Tree, ValidName, Clash;
    CollectedBuilt(files, |files|);
    assert files[..|files|] == files;
    var nodes := Collected(files);
    var p := [DEV, TTY0];
    var i := Find(nodes, p);
    if i < |nodes| {
      TerminalFree(files, nodes[i]);
      assert false;
    }
    assert Hangs(nodes, Node(p, Device)) by { TerminalHangs(nodes); }
    TreeGrown(nodes, Node(p, Device));
  }

  lemma TerminalFree(files: seq<File>, x: Node)
    requires NonConflicting(files) && Explained(files, |files|, |files|, x)
    ensures x.path != [DEV, TTY0]
  {
    forall f | 0 <= f < |files| ensures !([DEV, TTY0] <= files[f].path.parts) {
      assert GoodPath(files[f].path);
    }
  }

  lemma TerminalHangs(nodes: seq<Node>)
    requires HasDir(nodes, [DEV])
    ensures Hangs(nodes, Node([DEV, TTY0], Device))
  {
    hide HasDir;
    assert Up([DEV, TTY0]) == [DEV] && Last([DEV, TTY0]) == TTY0;
  }

  // ---- where a file's zones are ----

  function Tables(nb: nat): nat {
    if nb > 519 then (nb - 519 + 511) / 512 else 0
  }

  // The zones a file of this size takes: its blocks, then its tables.
  function Need(size: nat): nat {
    var nb := BlocksOf(size);
    nb + (if nb > 7 then 1 else 0) + if nb > 519 then Tables(nb) + 1 else 0
  }

  function Chunk(d: Bytes, b: nat): (r: Bytes)
    requires b < BlocksOf(|d|)
    ensures |r| <= BLOCK && 0 < |r| && BLOCK * b + |r| <= |d|
    ensures b + 1 < BlocksOf(|d|) ==> |r| == BLOCK
    ensures b + 1 == BlocksOf(|d|) ==> BLOCK * b + |r| == |d|
  {
    d[BLOCK * b..if BLOCK * (b + 1) <= |d| then BLOCK * (b + 1) else |d|]
  }

  predicate Stored(im: Bytes, p: nat, d: Bytes) {
    p + |d| <= |im| && im[p..p + |d|] == d
  }

  predicate ChunkAt(im: Bytes, d: Bytes, s: nat, b: nat) {
    b < BlocksOf(|d|) && Stored(im, BLOCK * (s + b), Chunk(d, b))
  }

  // Entry j of zone z is v + j.
  predicate EntryIs(im: Bytes, z: nat, v: nat, j: nat) {
    BLOCK * z + 2 * j + 2 <= |im| && U16(im, BLOCK * z + 2 * j) == v + j
  }

  // Zone z is a table of the n numbers from v on, then zeros.
  predicate TableHas(im: Bytes, z: nat, v: nat, n: nat) {
    && n <= 512 && (forall j: nat :: j < n ==> EntryIs(im, z, v, j))
    && BLOCK * (z + 1) <= |im| && Blank(im, BLOCK * z + 2 * n, BLOCK * (z + 1))
  }

  predicate FieldIs(im: Bytes, base: nat, ino: nat, j: nat, v: nat) {
    0 < ino && base + 32 * ino <= |im| && j < 9 && U16(im, base + 32 * (ino - 1) + 14 + 2 * j) == v
  }

  predicate DirectIs(im: Bytes, base: nat, ino: nat, s: nat, b: nat) {
    FieldIs(im, base, ino, b, s + b)
  }

  function Min(a: int, b: int): int {
    if a <= b then a else b
  }

  // Inode ino is a file of contents d whose zones start at zone s.
  predicate Holds(im: Bytes, base: nat, ino: nat, d: Bytes, s: nat) {
    var nb := BlocksOf(|d|);
    && 0 < ino && base + 32 * ino <= |im| && U32(im, base + 32 * (ino - 1) + 4) == |d|
    && (forall b: nat :: b < Min(nb, 7) ==> DirectIs(im, base, ino, s, b))
    && (forall b: nat :: b < nb ==> ChunkAt(im, d, s, b))
    && (nb > 7 ==> FieldIs(im, base, ino, 7, s + nb) && TableHas(im, s + nb, s + 7, Min(nb, 519) - 7))
    && (nb > 519 ==> FieldIs(im, base, ino, 8, s + nb + 1 + Tables(nb)) && Indirect(im, s, nb))
    && (forall b: nat :: nb <= b < 7 && 0 < b ==> FieldIs(im, base, ino, b, 0))
    && (nb <= 7 ==> FieldIs(im, base, ino, 7, 0)) && (nb <= 519 ==> FieldIs(im, base, ino, 8, 0))
  }

  // Inode ino has this mode and link count, and an empty one this device in its
  // first zone.
  predicate Typed(im: Bytes, base: nat, ino: nat, mode: nat, links: Byte, d: Bytes, device: nat) {
    && 0 < ino && base + 32 * ino <= |im| && U16(im, base + 32 * (ino - 1)) == mode
    && im[base + 32 * (ino - 1) + 13] == links
    && (d == [] ==> FieldIs(im, base, ino, 0, device))
  }

  // The tables of a large file, and the table of them.
  predicate Indirect(im: Bytes, s: nat, nb: nat)
    requires nb > 519
  {
    && TableHas(im, s + nb + 1 + Tables(nb), s + nb + 1, Tables(nb))
    && forall k: nat :: k < Tables(nb) ==> Inner(im, s, nb, k)
  }

  predicate Inner(im: Bytes, s: nat, nb: nat, k: nat)
    requires nb > 519 && k < Tables(nb)
  {
    TableHas(im, s + nb + 1 + k, s + 519 + 512 * k, Min(512, nb - 519 - 512 * k))
  }

  // ---- reading it back ----

  lemma TablesCover(nb: nat, b: nat)
    requires 519 <= b < nb
    ensures (b - 519) / 512 < Tables(nb) && b - 519 == 512 * ((b - 519) / 512) + (b - 519) % 512
    ensures (b - 519) % 512 < Min(512, nb - 519 - 512 * ((b - 519) / 512))
  {
  }

  lemma FarZone(im: Bytes, g: Geo, n: nat, s: nat, nb: nat, b: nat)
    requires HasInode(im, g, n) && 519 <= b < nb && Indirect(im, s, nb)
    requires FieldIs(im, g.base, n, 8, s + nb + 1 + Tables(nb))
    requires g.first <= s && s + nb + 2 + Tables(nb) <= g.nzones && g.nzones * BLOCK <= |im|
    ensures ZoneOf(im, g, n, b) == Some(s + b)
  {
    hide U16, Tables;
    var k, j := (b - 519) / 512, (b - 519) % 512;
    TablesCover(nb, b);
    assert Inner(im, s, nb, k);
    assert EntryIs(im, s + nb + 1 + Tables(nb), s + nb + 1, k);
    assert EntryIs(im, s + nb + 1 + k, s + 519 + 512 * k, j);
  }

  lemma ZoneFound(im: Bytes, g: Geo, n: nat, d: Bytes, s: nat, b: nat)
    requires HasInode(im, g, n) && Holds(im, g.base, n, d, s) && b < BlocksOf(|d|)
    requires g.first <= s && s + Need(|d|) <= g.nzones && g.nzones * BLOCK <= |im|
    ensures ZoneOf(im, g, n, b) == Some(s + b)
  {
    hide ChunkAt, U16, Indirect, Tables, BlocksOf;
    var nb := BlocksOf(|d|);
    if b < 7 {
      assert DirectIs(im, g.base, n, s, b);
    } else if b < 519 {
      assert EntryIs(im, s + nb, s + 7, b - 7);
    } else {
      FarZone(im, g, n, s, nb, b);
    }
  }

  lemma {:induction false} BlocksRead(im: Bytes, g: Geo, n: nat, d: Bytes, s: nat, b: nat)
    requires HasInode(im, g, n) && Holds(im, g.base, n, d, s) && b <= BlocksOf(|d|)
    requires g.first <= s && s + Need(|d|) <= g.nzones && g.nzones * BLOCK <= |im|
    ensures Blocks(im, g, n, b).Some?
    ensures var out := Blocks(im, g, n, b).value;
      |out| == BLOCK * b && out[..Min(|out|, |d|)] == d[..Min(|out|, |d|)]
  {
    hide Holds, ZoneOf, Need, BlocksOf;
    if b > 0 {
      BlocksRead(im, g, n, d, s, b - 1);
      ZoneFound(im, g, n, d, s, b - 1);
      ChunkOf(im, g.base, n, d, s, b - 1);
      NeedBlocks(|d|);
      var z := s + (b - 1);
      ChunkJoined(d, b - 1, Blocks(im, g, n, b - 1).value, im[z * BLOCK..(z + 1) * BLOCK]) by {
        SliceHead(im, z * BLOCK, BLOCK, |Chunk(d, b - 1)|);
      }
    }
  }

  lemma SliceHead(im: Bytes, p: nat, n: nat, k: nat)
    requires k <= n && p + n <= |im|
    ensures im[p..p + n][..k] == im[p..p + k]
  {
  }

  // One more block read: its first bytes are the next chunk.
  lemma ChunkJoined(d: Bytes, b: nat, before: Bytes, more: Bytes)
    requires b < BlocksOf(|d|) && |before| == BLOCK * b && |more| == BLOCK && more[..|Chunk(d, b)|] == Chunk(d, b)
    requires before[..Min(|before|, |d|)] == d[..Min(|before|, |d|)]
    ensures var out := before + more; out[..Min(|out|, |d|)] == d[..Min(|out|, |d|)]
  {
    var c, out := Chunk(d, b), before + more;
    assert Min(|before|, |d|) == |before| && before[..|before|] == before;
    assert Min(|out|, |d|) == BLOCK * b + |c|;
    assert d[..BLOCK * b + |c|] == d[..BLOCK * b] + c;
    assert out[..BLOCK * b + |c|] == before + c;
  }

  lemma NeedBlocks(size: nat)
    ensures BlocksOf(size) <= Need(size)
  {
  }

  lemma ChunkOf(im: Bytes, base: nat, ino: nat, d: Bytes, s: nat, b: nat)
    requires Holds(im, base, ino, d, s) && b < BlocksOf(|d|)
    ensures Stored(im, BLOCK * (s + b), Chunk(d, b))
  {
    assert ChunkAt(im, d, s, b);
  }

  // A stored file reads back byte for byte, whatever its size.
  lemma ContentRead(im: Bytes, g: Geo, n: nat, d: Bytes, s: nat)
    requires GeoOk(g, |im|) && 1 <= n <= g.ninodes && Holds(im, g.base, n, d, s)
    requires g.first <= s && s + Need(|d|) <= g.nzones
    ensures Content(im, g, n) == Some(d)
  {
    BlocksRead(im, g, n, d, s, BlocksOf(|d|));
    assert SizeField(im, g, n) == |d|;
    var out := Blocks(im, g, n, BlocksOf(|d|)).value;
    assert |out| >= |d|;
    assert out[..|d|] == d[..|d|] == d;
  }

  // ---- finding a path ----

  function DataOf(nodes: seq<Node>, k: nat): Bytes
    requires k < |nodes| < 0x8000
  {
    match nodes[k].kind
    case Dir => DirBytes(Listing(nodes, k))
    case Plain(d) => d
    case Device => []
  }

  lemma {:induction false} ChildrenAre(nodes: seq<Node>, k: nat, n: nat, e: Entry)
    requires k < |nodes| && n <= |nodes| && e in Children(nodes, k, n)
    ensures 0 < e.ino <= n && ChildOf(nodes, k, e.ino - 1) && e.name == Last(nodes[e.ino - 1].path)
  {
    if n > 0 && e in Children(nodes, k, n - 1) {
      ChildrenAre(nodes, k, n - 1, e);
    }
  }

  lemma {:induction false} ChildListed(nodes: seq<Node>, k: nat, n: nat, j: nat)
    requires k < |nodes| && j < n <= |nodes| && ChildOf(nodes, k, j)
    ensures Entry(j + 1, Last(nodes[j].path)) in Children(nodes, k, n)
  {
    if j < n - 1 {
      ChildListed(nodes, k, n - 1, j);
    }
  }

  function Named(list: seq<Entry>, name: Name): (i: nat)
    ensures i <= |list| && (i < |list| ==> list[i].name == name) && NoneNamed(list, name, 0, i)
    ensures (exists e :: e in list && e.name == name) ==> i < |list|
  {
    if list == [] then 0
    else
      var i := Named(list[..|list| - 1], name);
      if i < |list| - 1 || list[|list| - 1].name == name then i else |list|
  }

  lemma SamePath(p: seq<Name>, q: seq<Name>)
    requires p != [] && q != [] && Up(p) == Up(q) && Last(p) == Last(q)
    ensures p == q
  {
    assert p == Up(p) + [Last(p)] && q == Up(q) + [Last(q)];
  }

  lemma ListingClean(nodes: seq<Node>, k: nat)
    requires Tree(nodes) && k < |nodes| < 0x8000 && NamesFit(Listing(nodes, k))
    ensures forall e :: e in Listing(nodes, k) ==> e.ino < 0x1_0000 && Clean(e.name)
  {
    hide Find, HasDir;
    forall e | e in Listing(nodes, k) ensures Clean(e.name) {
      if e in Children(nodes, k, |nodes|) {
        ChildrenAre(nodes, k, |nodes|, e);
        assert Hangs(nodes, nodes[e.ino - 1]);
      }
    }
  }

  // A directory's data leads to each of its children.
  lemma ChildFound(nodes: seq<Node>, k: nat, j: nat)
    requires Tree(nodes) && k < |nodes| < 0x8000 && j < |nodes| && ChildOf(nodes, k, j) && NamesFit(Listing(nodes, k))
    ensures Lookup(DirBytes(Listing(nodes, k)), Last(nodes[j].path), 0) == Some(j + 1)
  {
    hide Find, Lookup, DirBytes, HasDir, NamesFit, Clean;
    var list, name := Listing(nodes, k), Last(nodes[j].path);
    ListingClean(nodes, k);
    ChildListed(nodes, k, |nodes|, j);
    assert Entry(j + 1, name) in list;
    var i := Named(list, name);
    assert Hangs(nodes, nodes[j]);
    var e := list[i];
    assert e.name == name;
    if e in Children(nodes, k, |nodes|) {
      ChildrenAre(nodes, k, |nodes|, e);
      SamePath(nodes[e.ino - 1].path, nodes[j].path);
    }
    LookupFinds(list, name, 0, i);
  }

  // And to itself and its parent.
  lemma DotsFound(nodes: seq<Node>, k: nat)
    requires Tree(nodes) && k < |nodes| < 0x8000 && NamesFit(Listing(nodes, k))
    ensures Lookup(DirBytes(Listing(nodes, k)), [46], 0) == Some(k + 1)
    ensures Lookup(DirBytes(Listing(nodes, k)), [46, 46], 0) == Some(Find(nodes, Up(nodes[k].path)) + 1)
  {
    hide Find, Lookup, DirBytes, HasDir, NamesFit, Clean, Children, Tree;
    ListingClean(nodes, k);
    LookupFinds(Listing(nodes, k), [46], 0, 0);
    LookupFinds(Listing(nodes, k), [46, 46], 0, 1);
  }

  // Every prefix of a path among the nodes is a directory.
  lemma {:induction false} PrefixIsDir(nodes: seq<Node>, parts: seq<Name>, k: nat)
    requires Tree(nodes) && Find(nodes, parts) < |nodes| && k < |parts|
    ensures HasDir(nodes, parts[..k])
    decreases |parts| - k
  {
    hide Find;
    var p := parts[..k + 1];
    if k + 1 < |parts| {
      PrefixIsDir(nodes, parts, k + 1);
    } else {
      assert p == parts;
    }
    assert Hangs(nodes, nodes[Find(nodes, p)]);
    assert Up(p) == parts[..k];
  }

  // The image holds every node, in disjoint ranges of zones.
  predicate Complete(im: Bytes, g: Geo, nodes: seq<Node>, starts: seq<nat>) {
    && GeoOk(g, |im|) && g.ninodes == NINODES && |nodes| <= 127 && |starts| == |nodes| + 1
    && starts[0] == g.first && starts[|nodes|] <= g.nzones
    && forall k: nat :: k < |nodes| ==> NodeHeld(im, g.base, nodes, starts, k)
  }

  predicate NodeHeld(im: Bytes, base: nat, nodes: seq<Node>, starts: seq<nat>, k: nat)
    requires k < |nodes| < 0x8000 && |starts| > k + 1
  {
    && Holds(im, base, k + 1, DataOf(nodes, k), starts[k])
    && Typed(im, base, k + 1, ModeOf(nodes[k]), LinksOf(nodes[k]), DataOf(nodes, k), DeviceOf(nodes[k]))
    && starts[k + 1] == starts[k] + Need(|DataOf(nodes, k)|)
    && (nodes[k].kind == Dir ==> NamesFit(Listing(nodes, k)))
  }

  lemma {:induction false} StartsRise(im: Bytes, g: Geo, nodes: seq<Node>, starts: seq<nat>, j: nat, k: nat)
    requires Complete(im, g, nodes, starts) && j <= k <= |nodes|
    ensures starts[j] <= starts[k]
    decreases k - j
  {
    hide Holds, Need, DataOf, NamesFit, Typed;
    if j < k {
      StartsRise(im, g, nodes, starts, j, k - 1);
      assert NodeHeld(im, g.base, nodes, starts, k - 1);
    }
  }

  lemma NodeRead(im: Bytes, g: Geo, nodes: seq<Node>, starts: seq<nat>, k: nat)
    requires Complete(im, g, nodes, starts) && k < |nodes|
    ensures Content(im, g, k + 1) == Some(DataOf(nodes, k))
  {
    hide Holds, Content, Need, DataOf, NamesFit, Typed;
    assert NodeHeld(im, g.base, nodes, starts, k);
    StartsRise(im, g, nodes, starts, 0, k);
    StartsRise(im, g, nodes, starts, k + 1, |nodes|);
    ContentRead(im, g, k + 1, DataOf(nodes, k), starts[k]);
  }

  // In the image, `.` of a directory is the directory and `..` the one it hangs
  // in, the root's being itself.
  lemma DirDots(im: Bytes, g: Geo, nodes: seq<Node>, starts: seq<nat>, k: nat)
    requires Complete(im, g, nodes, starts) && Tree(nodes) && k < |nodes| && nodes[k].kind == Dir
    ensures Content(im, g, k + 1).Some?
    ensures Lookup(Content(im, g, k + 1).value, [46], 0) == Some(k + 1)
    ensures exists f: nat :: f < |nodes| && nodes[f].path == Up(nodes[k].path) && Lookup(Content(im, g, k + 1).value, [46, 46], 0) == Some(f + 1)
  {
    hide Holds, Content, Need, DataOf, NamesFit, Typed, Tree, Listing, Lookup;
    NodeRead(im, g, nodes, starts, k);
    DataIs(nodes, k);
    assert NodeHeld(im, g.base, nodes, starts, k);
    DotsFound(nodes, k);
    var f := Find(nodes, Up(nodes[k].path));
    UpThere(nodes, k);
    assert nodes[f].path == Up(nodes[k].path) && Lookup(Content(im, g, k + 1).value, [46, 46], 0) == Some(f + 1);
  }

  lemma UpThere(nodes: seq<Node>, k: nat)
    requires Tree(nodes) && k < |nodes|
    ensures Find(nodes, Up(nodes[k].path)) < |nodes|
  {
    hide Find;
    assert Hangs(nodes, nodes[k]);
    if nodes[k].path == [] { RootFirst(nodes); }
  }

  // From a directory's inode to its child's.
  lemma OneDown(im: Bytes, g: Geo, nodes: seq<Node>, starts: seq<nat>, i: nat, j: nat)
    requires Complete(im, g, nodes, starts) && Tree(nodes) && i < |nodes| && j < |nodes|
    requires nodes[i].kind == Dir && ChildOf(nodes, i, j)
    ensures Content(im, g, i + 1).Some? && Lookup(Content(im, g, i + 1).value, Last(nodes[j].path), 0) == Some(j + 1)
  {
    hide Find, Content, Lookup, NodeHeld, Children, NamesFit, Listing, Tree;
    NodeRead(im, g, nodes, starts, i);
    DirNames(im, g, nodes, starts, i);
    ChildFound(nodes, i, j);
  }

  // The node at each prefix of a path, and the step to the next one.
  lemma PrefixStep(nodes: seq<Node>, parts: seq<Name>, k: nat)
    requires Tree(nodes) && Find(nodes, parts) < |nodes| && k < |parts|
    ensures var i, j := Find(nodes, parts[..k]), Find(nodes, parts[..k + 1]);
      i < |nodes| && j < |nodes| && nodes[i].kind == Dir && ChildOf(nodes, i, j) && Last(nodes[j].path) == parts[k]
  {
    hide Find, Tree;
    PrefixIsDir(nodes, parts, k);
    if k + 1 < |parts| { PrefixIsDir(nodes, parts, k + 1); } else { assert parts[..k + 1] == parts; }
    assert Up(parts[..k + 1]) == parts[..k] && Last(parts[..k + 1]) == parts[k];
  }

  lemma RootFirst(nodes: seq<Node>)
    requires Tree(nodes)
    ensures Find(nodes, []) == 0 && nodes != []
  {
    hide Find;
    FindAt(nodes, 0);
  }

  lemma {:induction false} Walked(im: Bytes, g: Geo, nodes: seq<Node>, starts: seq<nat>, parts: seq<Name>, k: nat)
    requires Complete(im, g, nodes, starts) && Tree(nodes) && Find(nodes, parts) < |nodes| && k <= |parts|
    ensures GeoOk(g, |im|) && Walk(im, g, parts, k) == Some(Find(nodes, parts[..k]) + 1)
    ensures Find(nodes, parts[..k]) < |nodes|
  {
    hide Find, Content, Lookup, NodeHeld, Tree, ChildOf;
    if k == 0 {
      assert parts[..0] == [];
      RootFirst(nodes);
    } else {
      Walked(im, g, nodes, starts, parts, k - 1);
      PrefixStep(nodes, parts, k - 1);
      OneDown(im, g, nodes, starts, Find(nodes, parts[..k - 1]), Find(nodes, parts[..k]));
    }
  }

  lemma DirNames(im: Bytes, g: Geo, nodes: seq<Node>, starts: seq<nat>, k: nat)
    requires Complete(im, g, nodes, starts) && k < |nodes| && nodes[k].kind == Dir
    ensures NamesFit(Listing(nodes, k))
  {
    hide Holds, Need, NamesFit;
    assert NodeHeld(im, g.base, nodes, starts, k);
  }

  // So every file is read back from a complete image.
  lemma FileReadBack(im: Bytes, g: Geo, nodes: seq<Node>, starts: seq<nat>, parts: seq<Name>, d: Bytes)
    requires Geometry(im) == Some(g) && Complete(im, g, nodes, starts) && Tree(nodes) && HasFile(nodes, parts, d)
    ensures FileAt(im, parts) == Some(d)
  {
    hide Find, Content, Complete, Walk, Geometry, Tree;
    Walked(im, g, nodes, starts, parts, |parts|);
    assert parts[..|parts|] == parts;
    NodeRead(im, g, nodes, starts, Find(nodes, parts));
  }

  // ---- bitmap bits ----

  // Bit k of a byte.
  predicate ByteBit(b: nat, k: nat) {
    if k == 0 then b % 2 == 1 else ByteBit(b / 2, k - 1)
  }

  function WithBit(b: Byte, k: nat): Byte
    requires k < 8
  {
    Pow2Values();
    Bits(Or, b, Pow2(k), 8)
  }

  lemma {:induction false} OrOneBit(b: nat, k: nat, j: nat, n: nat)
    requires k < n && j < n && b < Pow2(n)
    ensures ByteBit(Bits(Or, b, Pow2(k), n), j) <==> (j == k || ByteBit(b, j))
  {
    var x := Bits(Or, b, Pow2(k), n);
    if j > 0 {
      if k == 0 {
        BitsOrZeroRight(b / 2, n - 1);
      } else {
        OrOneBit(b / 2, k - 1, j - 1, n - 1);
      }
    }
  }

  lemma WithBitOne(b: Byte, k: nat, j: nat)
    requires k < 8 && j < 8
    ensures ByteBit(WithBit(b, k), j) <==> (j == k || ByteBit(b, j))
  {
    Pow2Values();
    OrOneBit(b, k, j, 8);
  }

  predicate BitSet(im: Bytes, block: nat, n: nat) {
    BLOCK * block + n / 8 < |im| && ByteBit(im[BLOCK * block + n / 8], n % 8)
  }

  lemma BitOne(im: Bytes, block: nat, n: nat, m: nat)
    requires BLOCK * block + n / 8 < |im|
    ensures var p := BLOCK * block + n / 8;
      BitSet(im[p := WithBit(im[p], n % 8)], block, m) <==> (m == n || BitSet(im, block, m))
  {
    hide ByteBit, WithBit;
    WithBitOne(im[BLOCK * block + n / 8], n % 8, m % 8);
    assert n == 8 * (n / 8) + n % 8 && m == 8 * (m / 8) + m % 8;
  }

  // Of the first `limit` bits, exactly the first `count` are set.
  predicate BitsUpTo(im: Bytes, block: nat, limit: nat, count: nat) {
    forall n: nat :: n < limit ==> (BitSet(im, block, n) <==> n < count)
  }

  lemma BitAdded(im: Bytes, block: nat, limit: nat, count: nat)
    requires BitsUpTo(im, block, limit, count) && count < limit && BLOCK * block + count / 8 < |im|
    ensures var p := BLOCK * block + count / 8;
      BitsUpTo(im[p := WithBit(im[p], count % 8)], block, limit, count + 1)
  {
    hide BitSet, WithBit;
    var p := BLOCK * block + count / 8;
    var im2 := im[p := WithBit(im[p], count % 8)];
    forall n: nat | n < limit ensures BitSet(im2, block, n) <==> n < count + 1 {
      BitOne(im, block, count, n);
    }
  }

  lemma BitsSame(im: Bytes, im2: Bytes, block: nat, limit: nat, count: nat, a: int, b: int)
    requires BitsUpTo(im, block, limit, count) && Same(im, im2, a, b)
    requires a <= BLOCK * block && 8 * (b - BLOCK * block) >= limit
    ensures BitsUpTo(im2, block, limit, count)
  {
    hide ByteBit;
    forall n: nat | n < limit ensures BitSet(im2, block, n) <==> BitSet(im, block, n) {
    }
  }

  // ---- frames ----

  // Outside the bitmaps and the zones from s on, nothing changed.
  predicate Grown(im: Bytes, im2: Bytes, base: nat, s: nat) {
    Same(im, im2, 0, 3 * BLOCK) && Same(im, im2, base, BLOCK * s)
  }

  lemma GrownThen(a: Bytes, b: Bytes, c: Bytes, base: nat, s: nat, s2: nat)
    requires Grown(a, b, base, s) && Grown(b, c, base, s2) && s <= s2
    ensures Grown(a, c, base, s)
  {
  }

  lemma StoredSame(im: Bytes, im2: Bytes, p: nat, d: Bytes, a: int, b: int)
    requires Stored(im, p, d) && Same(im, im2, a, b) && a <= p && p + |d| <= b
    ensures Stored(im2, p, d)
  {
    assert im2[p..p + |d|] == im[p..p + |d|];
  }

  predicate Chunks(im: Bytes, d: Bytes, s: nat, n: nat) {
    forall b: nat :: b < n ==> ChunkAt(im, d, s, b)
  }

  lemma ChunksKept(im: Bytes, im2: Bytes, d: Bytes, s: nat, n: nat, a: int, z: nat)
    requires Chunks(im, d, s, n) && Same(im, im2, a, BLOCK * z) && a <= BLOCK * s && s + n <= z
    ensures Chunks(im2, d, s, n)
  {
    hide Chunk, BlocksOf, Same, Stored;
    forall b: nat | b < n ensures ChunkAt(im2, d, s, b) {
      assert ChunkAt(im, d, s, b);
      StoredSame(im, im2, BLOCK * (s + b), Chunk(d, b), a, BLOCK * z);
    }
  }

  lemma TableKept(im: Bytes, im2: Bytes, t: nat, v: nat, n: nat, a: int, b: int)
    requires TableHas(im, t, v, n) && Same(im, im2, a, b) && a <= BLOCK * t && BLOCK * (t + 1) <= b
    ensures TableHas(im2, t, v, n)
  {
    hide Blank;
    SameMid(im, im2, a, b, BLOCK * t + 2 * n, BLOCK * (t + 1));
    BlankKept(im, im2, BLOCK * t + 2 * n, BLOCK * (t + 1));
    forall j: nat | j < n ensures EntryIs(im2, t, v, j) {
      assert EntryIs(im, t, v, j);
    }
  }

  lemma SameMid(im: Bytes, im2: Bytes, a: int, b: int, c: int, d: int)
    requires Same(im, im2, a, b) && a <= c && d <= b
    ensures Same(im, im2, c, d)
  {
  }

  function From(v: nat, n: nat): (r: seq<nat>)
    ensures |r| == n && forall j :: 0 <= j < n ==> r[j] == v + j
  {
    seq(n, i requires 0 <= i < n => v + i)
  }

  lemma TableStored(im: Bytes, z: nat, v: nat, n: nat)
    requires v + n <= 0x1_0000 && n <= 512 && Stored(im, BLOCK * z, Halves(From(v, n)))
    requires BLOCK * (z + 1) <= |im| && Blank(im, BLOCK * z + 2 * n, BLOCK * (z + 1))
    ensures TableHas(im, z, v, n)
  {
    hide Halves, U16, Blank;
    forall j: nat | j < n ensures EntryIs(im, z, v, j) {
      U16At(im, BLOCK * z, Halves(From(v, n)), 2 * j);
      HalvesRead(From(v, n), j);
    }
  }

  lemma AllBlank(im: Bytes, im2: Bytes, a: int, b: int)
    requires (forall i :: 0 <= i < |im| ==> im[i] == 0) && Same(im, im2, a, b)
    ensures Blank(im2, a, b)
  {
  }

  // A block written, and one byte below it.
  lemma OneBlock(im: Bytes, mid: Bytes, im2: Bytes, base: nat, n: nat, data: Bytes, p: nat, v: Byte)
    requires Put(im, mid, BLOCK * n, data) && 3 * BLOCK <= p < base <= BLOCK * n && p < |mid| && im2 == mid[p := v]
    ensures Grown(im, im2, base, n) && Same(im, im2, BLOCK * n + |data|, |im|) && Same(mid, im2, base, |im|)
    ensures Stored(mid, BLOCK * n, data) && |mid| == |im| == |im2| && Same(im, mid, 0, BLOCK * n)
  {
  }

  // What is blank from p on stays so after the n bytes at p, in the block there
  // and beyond it.
  lemma BlankRest(im: Bytes, im2: Bytes, p: int, n: nat, b: int)
    requires Blank(im, p, b) && Same(im, im2, p + n, b) && n <= BLOCK && p + BLOCK <= b
    ensures Blank(im2, p + n, p + BLOCK) && Blank(im2, p + BLOCK, b)
  {
  }

  class Writer {
    const nzones: nat
    const zmaps: nat
    const first: nat
    var image: Bytes
    var next: nat

    ghost predicate Sized()
      reads this
    {
      && 1024 <= nzones <= 65535 && zmaps == (nzones + 8191) / 8192 && first == zmaps + 7
      && |image| == BLOCK * nzones
    }

    // The zone bitmap marks exactly the zones given out, and its first bit; the
    // others are blank.
    ghost predicate Valid()
      reads this
    {
      && Sized() && first <= next <= nzones && BitsUpTo(image, 3, 8192 * zmaps, next - first + 1)
      && Blank(image, BLOCK * next, BLOCK * nzones)
    }

    ghost function Base(): nat {
      BLOCK * (3 + zmaps)
    }

    // An empty image: superblock, and the first bit of each bitmap.
    constructor (n: nat)
      requires 1024 <= n <= 65535
      ensures Valid() && nzones == n && next == first && zmaps == ZMaps(n)
      ensures BitsUpTo(image, 2, 8192, 1) && Stored(image, BLOCK, Superblock(n)) && Blank(image, Base(), BLOCK * first)
    {
      hide BitsUpTo, WithBit, Blank;
      nzones := n;
      zmaps := ZMaps(n);
      first := ZMaps(n) + 7;
      next := ZMaps(n) + 7;
      var blank := seq(BLOCK * n, _ => 0);
      image := Patch(blank, BLOCK, Superblock(n));
      new;
      NoBits(blank, 2, 8192);
      NoBits(blank, 3, 8192 * zmaps);
      BitsSame(blank, image, 2, 8192, 0, 2 * BLOCK, BLOCK * n);
      BitsSame(blank, image, 3, 8192 * zmaps, 0, 2 * BLOCK, BLOCK * n);
      BitAdded(image, 2, 8192, 0);
      ghost var first0 := image;
      Bit(2, 0);
      BitsSame(first0, image, 3, 8192 * zmaps, 0, 3 * BLOCK, BLOCK * n);
      BitAdded(image, 3, 8192 * zmaps, 0);
      ghost var second := image;
      Bit(3, 0);
      BitsSame(second, image, 2, 8192, 1, 0, 3 * BLOCK);
      StoredSame(Patch(blank, BLOCK, Superblock(n)), image, BLOCK, Superblock(n), 0, 2 * BLOCK);
      AllBlank(blank, image, Base(), BLOCK * n);
      BlankLess(image, Base(), BLOCK * n, Base(), BLOCK * first);
      BlankLess(image, Base(), BLOCK * n, BLOCK * next, BLOCK * n);
    }

    method Bit(block: nat, n: nat)
      requires BLOCK * block + n / 8 < |image|
      modifies this`image
      ensures var p := BLOCK * block + n / 8; image == old(image)[p := WithBit(old(image)[p], n % 8)]
    {
      var p := BLOCK * block + n / 8;
      image := image[p := WithBit(image[p], n % 8)];
    }

    // The next zone, holding data; an error when the disk is full or data is
    // more than a block.
    method Alloc(data: Bytes) returns (z: Option<nat>)
      requires Valid()
      modifies this
      ensures z.None? <==> old(next) == nzones || |data| > BLOCK
      ensures z.Some? ==> Valid() && z.value == old(next) && next == old(next) + 1
      ensures z.Some? ==> Grown(old(image), image, Base(), z.value) && Stored(image, BLOCK * z.value, data)
      ensures z.Some? ==> Blank(image, BLOCK * z.value + |data|, BLOCK * (z.value + 1))
    {
      hide BitSet, WithBit, BitsUpTo, Blank, Grown, Same, Put, Stored;
      var n := next;
      next := next + 1;
      if n >= nzones || |data| > BLOCK {
        return None;
      }
      z := Some(n);
      image := Patch(image, BLOCK * n, data);
      ghost var before := image;
      OneBlock(old(image), before, before, Base(), n, data, BLOCK * 3, before[BLOCK * 3]);
      BitsSame(old(image), image, 3, 8192 * zmaps, n - first + 1, 0, BLOCK * n);
      BitAdded(image, 3, 8192 * zmaps, n - first + 1);
      Bit(3, n - first + 1);
      ghost var p := BLOCK * 3 + (n - first + 1) / 8;
      OneBlock(old(image), before, image, Base(), n, data, p, image[p]);
      StoredSame(before, image, BLOCK * n, data, Base(), BLOCK * nzones);
      BlankRest(old(image), image, BLOCK * n, |data|, BLOCK * nzones);
    }

    // All the blocks of a file, in consecutive zones.
    method WriteBlocks(d: Bytes) returns (blocks: Option<seq<nat>>)
      requires Valid()
      modifies this
      ensures blocks.None? <==> old(next) + BlocksOf(|d|) > nzones
      ensures blocks.Some? ==> Valid() && next == old(next) + BlocksOf(|d|) && blocks.value == From(old(next), BlocksOf(|d|))
      ensures blocks.Some? ==> Grown(old(image), image, Base(), old(next)) && Chunks(image, d, old(next), BlocksOf(|d|))
    {
      hide BitsUpTo, Stored, Chunk, Blank;
      var s, i, zs := next, 0, [];
      ghost var b := 0;
      while i < |d|
        invariant 0 <= b <= BlocksOf(|d|) && i == BLOCK * b && Valid() && next == s + b && zs == From(s, b)
        invariant Grown(old(image), image, Base(), s) && Chunks(image, d, s, b)
        decreases |d| - i
      {
        ghost var before := image;
        assert b < BlocksOf(|d|);
        var c := d[i..if i + BLOCK <= |d| then i + BLOCK else |d|];
        assert c == Chunk(d, b) by { ChunkIs(d, b); }
        var z := Alloc(c);
        if z.None? {
          return None;
        }
        GrownThen(old(image), before, image, Base(), s, s + b);
        ChunksKept(before, image, d, s, b, Base(), s + b);
        zs := zs + [z.value];
        i := i + BLOCK;
        b := b + 1;
      }
      blocks := Some(zs);
    }

    method WriteTable(values: seq<nat>, ghost v: nat) returns (z: Option<nat>)
      requires Valid() && values == From(v, |values|) && v + |values| <= 0x1_0000
      modifies this
      ensures z.None? <==> old(next) == nzones || |values| > 512
      ensures z.Some? ==> Valid() && z.value == old(next) && next == old(next) + 1
      ensures z.Some? ==> Grown(old(image), image, Base(), z.value) && TableHas(image, z.value, v, |values|)
    {
      hide BitsUpTo, Stored, Halves, TableHas, Blank;
      z := Alloc(Halves(values));
      if z.Some? {
        TableStored(image, z.value, v, |values|);
      }
    }

    // The tables of a large file's blocks past the first 519, then the table of
    // those tables.
    method WriteIndirect(blocks: seq<nat>, s: nat) returns (z: Option<nat>)
      requires Valid() && |blocks| > 519 && blocks == From(s, |blocks|) && next == s + |blocks| + 1
      requires first <= s
      modifies this
      ensures var nb := |blocks|; z.None? <==> s + nb + 2 + Tables(nb) > nzones
      ensures var nb := |blocks|; z.Some? ==> Valid() && next == s + nb + 2 + Tables(nb) && z.value == s + nb + 1 + Tables(nb)
      ensures var nb := |blocks|; z.Some? ==> Grown(old(image), image, Base(), s + nb + 1) && Indirect(image, s, nb)
    {
      hide BitsUpTo, TableHas, Blank;
      var nb, i, tables := |blocks|, 519, [];
      ghost var k := 0;
      while i < nb
        invariant 0 <= k <= Tables(nb) && i == 519 + 512 * k && Valid() && next == s + nb + 1 + k && tables == From(s + nb + 1, k)
        invariant Grown(old(image), image, Base(), s + nb + 1) && Inners(image, s, nb, k)
        decreases nb - i
      {
        ghost var before := image;
        var values := blocks[i..if i + 512 <= nb then i + 512 else nb];
        assert values == From(s + i, |values|);
        var t := WriteTable(values, s + i);
        if t.None? {
          return None;
        }
        GrownThen(old(image), before, image, Base(), s + nb + 1, s + nb + 1 + k);
        InnersKept(before, image, s, nb, k, Base());
        assert Inner(image, s, nb, k);
        tables := tables + [t.value];
        i := i + 512;
        k := k + 1;
      }
      ghost var before := image;
      z := WriteTable(tables, s + nb + 1);
      if z.Some? {
        GrownThen(old(image), before, image, Base(), s + nb + 1, s + nb + 1 + k);
        InnersKept(before, image, s, nb, k, Base());
      }
    }

    // A file's blocks and tables; zones are the nine zone numbers.
    method WriteData(d: Bytes) returns (zones: Option<seq<nat>>)
      requires Valid()
      modifies this
      ensures zones.None? <==> old(next) + Need(|d|) > nzones
      ensures zones.Some? ==> Valid() && next == old(next) + Need(|d|)
      ensures zones.Some? ==> Grown(old(image), image, Base(), old(next)) && ZonesFor(image, d, old(next), zones.value)
    {
      hide BitsUpTo, TableHas, Indirect, Chunks, BlocksOf, Blank;
      var s, nb := next, BlocksOf(|d|);
      var blocks := WriteBlocks(d);
      if blocks.None? {
        NeedBlocks(|d|);
        return None;
      }
      var zs := seq(9, i requires 0 <= i < 9 => if i < 7 && i < nb then blocks.value[i] else 0);
      ghost var before := image;
      if nb > 7 {
        var values := blocks.value[7..if nb > 519 then 519 else nb];
        assert values == From(s + 7, |values|);
        var t := WriteTable(values, s + 7);
        if t.None? {
          return None;
        }
        GrownThen(old(image), before, image, Base(), s, s + nb);
        ChunksKept(before, image, d, s, nb, Base(), s + nb);
        zs := zs[7 := t.value];
      }
      ghost var middle := image;
      if nb > 519 {
        var t := WriteIndirect(blocks.value, s);
        if t.None? {
          return None;
        }
        GrownThen(old(image), middle, image, Base(), s, s + nb + 1);
        ChunksKept(middle, image, d, s, nb, Base(), s + nb + 1);
        TableKept(middle, image, s + nb, s + 7, 512, Base(), BLOCK * (s + nb + 1));
        zs := zs[8 := t.value];
      }
      zones := Some(zs);
    }

    method PackInode(ino: nat, mode: nat, links: Byte, d: Bytes, device: nat, ghost s: nat, zones: seq<nat>)
      requires Valid() && 0 < ino <= 127 && BitsUpTo(image, 2, 8192, ino + 1)
      requires mode < 0x1_0000 && device < 0x1_0000 && (device != 0 ==> d == [])
      requires ZonesFor(image, d, s, zones) && first <= s && s + Need(|d|) == next
      modifies this`image
      ensures Valid() && BitsUpTo(image, 2, 8192, ino + 1) && Holds(image, Base(), ino, d, s)
      ensures Typed(image, Base(), ino, mode, links, d, device)
      ensures Same(old(image), image, 0, Base() + 32 * (ino - 1)) && Same(old(image), image, BLOCK * first, BLOCK * next)
      ensures Same(old(image), image, Base() + 32 * ino, BLOCK * first)
    {
      hide BitsUpTo, Holds, ZonesFor, Need, Record, Typed, Blank;
      ZonesSmall(image, d, s, zones);
      var zs := if device != 0 then zones[0 := device] else zones;
      assert forall z :: z in zs ==> z == device || z in zones;
      var p := BLOCK * (3 + zmaps) + 32 * (ino - 1);
      image := Patch(image, p, Record(mode, |d|, links, zs));
      BitsSame(old(image), image, 2, 8192, ino + 1, 0, 3 * BLOCK);
      BitsSame(old(image), image, 3, 8192 * zmaps, next - first + 1, 0, Base());
      Recorded(old(image), image, Base(), ino, mode, d, links, s, zones, zs, device);
      BlankKept(old(image), image, BLOCK * next, BLOCK * nzones);
    }

    // One inode: its bit, its data and its record.
    method WriteNode(ino: nat, mode: nat, links: Byte, d: Bytes, device: nat) returns (ok: bool)
      requires Valid() && 0 < ino <= 127 && BitsUpTo(image, 2, 8192, ino)
      requires mode < 0x1_0000 && device < 0x1_0000 && (device != 0 ==> d == [])
      modifies this
      ensures ok <==> old(next) + Need(|d|) <= nzones
      ensures ok ==> Valid() && next == old(next) + Need(|d|) && BitsUpTo(image, 2, 8192, ino + 1)
      ensures ok ==> Holds(image, Base(), ino, d, old(next)) && Same(old(image), image, 0, 2 * BLOCK)
      ensures ok ==> Same(old(image), image, Base(), Base() + 32 * (ino - 1))
      ensures ok ==> Same(old(image), image, BLOCK * first, BLOCK * old(next))
      ensures ok ==> Typed(image, Base(), ino, mode, links, d, device) && Same(old(image), image, Base() + 32 * ino, BLOCK * first)
    {
      hide BitsUpTo, Holds, ZonesFor, Need, WithBit, Record, Typed, Blank;
      var s := next;
      BitAdded(image, 2, 8192, ino);
      Bit(2, ino);
      BitsSame(old(image), image, 3, 8192 * zmaps, next - first + 1, 3 * BLOCK, BLOCK * nzones);
      BlankKept(old(image), image, BLOCK * next, BLOCK * nzones);
      ghost var before := image;
      var zones := WriteData(d);
      if zones.None? {
        return false;
      }
      BitsSame(before, image, 2, 8192, ino + 1, 2 * BLOCK, 3 * BLOCK);
      PackInode(ino, mode, links, d, device, s, zones.value);
      ok := true;
    }
  }

  lemma ChunkIs(d: Bytes, b: nat)
    requires b < BlocksOf(|d|)
    ensures d[BLOCK * b..if BLOCK * b + BLOCK <= |d| then BLOCK * b + BLOCK else |d|] == Chunk(d, b)
  {
  }

  predicate Inners(im: Bytes, s: nat, nb: nat, n: nat)
    requires nb > 519 && n <= Tables(nb)
  {
    forall k: nat :: k < n ==> Inner(im, s, nb, k)
  }

  lemma InnersKept(im: Bytes, im2: Bytes, s: nat, nb: nat, n: nat, base: nat)
    requires nb > 519 && n <= Tables(nb) && Inners(im, s, nb, n)
    requires Same(im, im2, base, BLOCK * (s + nb + 1 + n)) && base <= BLOCK * s
    ensures Inners(im2, s, nb, n)
  {
    hide TableHas, Same;
    forall k: nat | k < n ensures Inner(im2, s, nb, k) {
      assert Inner(im, s, nb, k);
      TableKept(im, im2, s + nb + 1 + k, s + 519 + 512 * k, Min(512, nb - 519 - 512 * k), base, BLOCK * (s + nb + 1 + n));
    }
  }

  // The zone numbers of a file of contents d stored from zone s on.
  predicate ZonesFor(im: Bytes, d: Bytes, s: nat, zones: seq<nat>) {
    var nb := BlocksOf(|d|);
    && |zones| == 9 && (forall b: nat :: b < Min(nb, 7) ==> zones[b] == s + b) && Chunks(im, d, s, nb)
    && (forall b: nat :: nb <= b < 7 ==> zones[b] == 0)
    && (if nb > 7 then zones[7] == s + nb && TableHas(im, s + nb, s + 7, Min(nb, 519) - 7) else zones[7] == 0)
    && (if nb > 519 then zones[8] == s + nb + 1 + Tables(nb) && Indirect(im, s, nb) else zones[8] == 0)
  }

  function Record(mode: nat, size: nat, links: Byte, zones: seq<nat>): (r: Bytes)
    requires mode < 0x1_0000 && size < W && |zones| == 9 && forall z :: z in zones ==> z < 0x1_0000
    ensures |r| == 32
  {
    Half(mode) + Half(0) + Quad(size) + Quad(0) + [0, links] + Halves(zones)
  }

  lemma RecordFields(im: Bytes, p: nat, mode: nat, size: nat, links: Byte, zones: seq<nat>)
    requires mode < 0x1_0000 && size < W && |zones| == 9 && forall z :: z in zones ==> z < 0x1_0000
    requires Stored(im, p, Record(mode, size, links, zones))
    ensures U16(im, p) == mode && U32(im, p + 4) == size && im[p + 13] == links
    ensures forall j :: 0 <= j < 9 ==> U16(im, p + 14 + 2 * j) == zones[j]
  {
    hide U16, Halves, Quad;
    var r := Record(mode, size, links, zones);
    QuadRead(size);
    assert r[4..8] == Quad(size) && r[14..32] == Halves(zones) && r[0..2] == Half(mode);
    assert r[13] == links;
    SliceAt(im, p, r, 13);
    U16At(r, 0, Half(mode), 0);
    U16At(im, p, r, 0);
    HalfRead(mode);
    U16At(r, 4, Quad(size), 0);
    U16At(r, 4, Quad(size), 2);
    U16At(im, p, r, 4);
    U16At(im, p, r, 6);
    forall j | 0 <= j < 9 ensures U16(im, p + 14 + 2 * j) == zones[j] {
      U16At(im, p, r, 14 + 2 * j);
      U16At(r, 14, Halves(zones), 2 * j);
      HalvesRead(zones, j);
    }
  }

  // What was written below zone `limit` fits the fields of a record.
  lemma ZonesSmall(im: Bytes, d: Bytes, s: nat, zones: seq<nat>)
    requires ZonesFor(im, d, s, zones) && s + Need(|d|) <= 65535
    ensures |d| < W && |zones| == 9 && forall z :: z in zones ==> z < 0x1_0000
  {
  }

  // The record makes the stored zones a file.
  lemma Recorded(im: Bytes, im2: Bytes, base: nat, ino: nat, mode: nat, d: Bytes, links: Byte, s: nat,
                 zones: seq<nat>, zs: seq<nat>, device: nat)
    requires ZonesFor(im, d, s, zones) && mode < 0x1_0000 && |d| < W && 0 < ino
    requires |zs| == 9 && (forall z :: z in zs ==> z < 0x1_0000) && (device != 0 ==> d == [])
    requires zs == if device != 0 then zones[0 := device] else zones
    requires base + 32 * ino <= BLOCK * s && BLOCK * (s + Need(|d|)) <= |im|
    requires Put(im, im2, base + 32 * (ino - 1), Record(mode, |d|, links, zs))
    ensures Holds(im2, base, ino, d, s) && Typed(im2, base, ino, mode, links, d, device)
  {
    hide U16, Record, TableHas, Indirect, Tables;
    var nb := BlocksOf(|d|);
    var p := base + 32 * (ino - 1);
    RecordFields(im2, p, mode, |d|, links, zs);
    assert Same(im, im2, BLOCK * s, |im|);
    NeedParts(|d|);
    PartsKept(im, im2, d, s, zones);
    forall b: nat | b < Min(nb, 7) ensures DirectIs(im2, base, ino, s, b) {
      assert zs[b] == zones[b] == s + b;
    }
    forall b: nat | nb <= b < 7 && 0 < b ensures FieldIs(im2, base, ino, b, 0) {
      assert zs[b] == zones[b] == 0;
    }
    assert zs[7] == zones[7] && zs[8] == zones[8];
    assert nb <= 7 ==> FieldIs(im2, base, ino, 7, 0);
    assert nb <= 519 ==> FieldIs(im2, base, ino, 8, 0);
    if d == [] { assert nb == 0 && zs[0] == device; }
  }

  lemma NeedParts(size: nat)
    ensures var nb := BlocksOf(size); nb <= Need(size) && (nb > 7 ==> nb + 1 <= Need(size)) && (nb > 519 ==> nb + 2 + Tables(nb) <= Need(size))
  {
  }

  // Data and tables stay when only what is below zone s changes.
  lemma PartsKept(im: Bytes, im2: Bytes, d: Bytes, s: nat, zones: seq<nat>)
    requires ZonesFor(im, d, s, zones) && Same(im, im2, BLOCK * s, |im|) && BLOCK * (s + Need(|d|)) <= |im|
    ensures ZonesFor(im2, d, s, zones)
  {
    hide TableHas, Same, Chunks, BlocksOf, Tables, Need;
    var nb := BlocksOf(|d|);
    NeedParts(|d|);
    ChunksSame(im, im2, d, s);
    if nb > 7 { TableKept(im, im2, s + nb, s + 7, Min(nb, 519) - 7, BLOCK * s, |im|); }
    if nb > 519 { IndirectKept(im, im2, s, nb, BLOCK * s, |im|); }
  }

  lemma ChunksSame(im: Bytes, im2: Bytes, d: Bytes, s: nat)
    requires Chunks(im, d, s, BlocksOf(|d|)) && Same(im, im2, BLOCK * s, |im|) && BLOCK * (s + Need(|d|)) <= |im|
    ensures Chunks(im2, d, s, BlocksOf(|d|))
  {
    hide BlocksOf, Need;
    NeedBlocks(|d|);
    SameLess(im, im2, BLOCK * s, |im|, BLOCK * (s + BlocksOf(|d|)));
    ChunksKept(im, im2, d, s, BlocksOf(|d|), BLOCK * s, s + BlocksOf(|d|));
  }

  lemma SameLess(im: Bytes, im2: Bytes, a: int, b: int, c: int)
    requires Same(im, im2, a, b) && c <= b
    ensures Same(im, im2, a, c)
  {
  }

  lemma TablesBound(nb: nat, k: nat)
    requires nb > 519 && k < Tables(nb)
    ensures 512 * k < nb - 519
  {
  }

  lemma IndirectKept(im: Bytes, im2: Bytes, s: nat, nb: nat, a: int, b: int)
    requires nb > 519 && Indirect(im, s, nb) && Same(im, im2, a, b)
    requires a <= BLOCK * (s + nb + 1) && BLOCK * (s + nb + 2 + Tables(nb)) <= b
    ensures Indirect(im2, s, nb)
  {
    hide TableHas, Same, Tables;
    TableKept(im, im2, s + nb + 1 + Tables(nb), s + nb + 1, Tables(nb), a, b);
    forall k: nat | k < Tables(nb) ensures Inner(im2, s, nb, k) {
      assert Inner(im, s, nb, k);
      TablesBound(nb, k);
      TableKept(im, im2, s + nb + 1 + k, s + 519 + 512 * k, Min(512, nb - 519 - 512 * k), a, b);
    }
  }

  // ---- make_image ----

  // The total of what the first k nodes take.
  function Used(nodes: seq<Node>, k: nat): nat
    requires k <= |nodes| < 0x8000
  {
    if k == 0 then 0 else Used(nodes, k - 1) + Need(|DataOf(nodes, k - 1)|)
  }

  predicate Allowed(p: Path) {
    p.absolute && DOTDOT !in p.parts
  }

  predicate Listable(nodes: seq<Node>, k: nat)
    requires k < |nodes|
  {
    nodes[k].kind == Dir ==> NamesFit(Listing(nodes, k))
  }

  function ZMaps(nzones: nat): nat {
    (nzones + 8191) / 8192
  }

  // When make_image succeeds.
  predicate Makeable(files: seq<File>, size: nat) {
    var nodes := NodesOf(files);
    && size % BLOCK == 0 && 1024 <= size / BLOCK <= 65535
    && (forall f :: 0 <= f < |files| ==> Allowed(files[f].path))
    && |nodes| <= 127 && (forall k: nat :: k < |nodes| ==> Listable(nodes, k))
    && ZMaps(size / BLOCK) + 7 + Used(nodes, |nodes|) <= size / BLOCK
  }

  function Superblock(nzones: nat): (r: Bytes)
    requires 1024 <= nzones <= 65535
    ensures |r| == 18
  {
    var z := ZMaps(nzones);
    Half(NINODES) + Half(nzones) + Half(1) + Half(z) + Half(z + 7) + Half(0) + Quad(0x1008_1c00) + Half(0x137f)
  }

  // The geometry the superblock states is accepted.
  lemma GeometryRead(im: Bytes, nzones: nat)
    requires 1024 <= nzones <= 65535 && |im| == BLOCK * nzones && Stored(im, BLOCK, Superblock(nzones))
    ensures Geometry(im) == Some(Geo(NINODES, nzones, 1, ZMaps(nzones), ZMaps(nzones) + 7, BLOCK * (3 + ZMaps(nzones))))
  {
    hide U16;
    var r, z := Superblock(nzones), ZMaps(nzones);
    forall j: nat | j + 2 <= 18 ensures U16(im, BLOCK + j) == U16(r, j) {
      U16At(im, BLOCK, r, j);
    }
    SuperblockFields(nzones);
  }

  lemma SuperblockFields(nzones: nat)
    requires 1024 <= nzones <= 65535
    ensures var r, z := Superblock(nzones), ZMaps(nzones);
      && U16(r, 0) == NINODES && U16(r, 2) == nzones && U16(r, 4) == 1 && U16(r, 6) == z && U16(r, 8) == z + 7
      && U16(r, 10) == 0 && U16(r, 16) == 0x137f
  {
  }

  method AddParentDirs(nodes: seq<Node>, parts: seq<Name>) returns (r: seq<Node>)
    ensures r == AddParents(nodes, parts, |parts|)
  {
    hide Find;
    r := nodes;
    var k := 0;
    while k < |parts|
      invariant 0 <= k <= |parts| && r == AddParents(nodes, parts, k)
    {
      if Find(r, parts[..k]) == |r| {
        r := r + [Node(parts[..k], Dir)];
      }
      k := k + 1;
    }
  }

  method CollectNodes(files: seq<File>) returns (r: Option<seq<Node>>)
    ensures r.None? <==> exists f :: 0 <= f < |files| && !Allowed(files[f].path)
    ensures r.Some? ==> r.value == NodesOf(files)
  {
    hide SetNode, AddParents, Allowed;
    var nodes := Fixed();
    var n := 0;
    assert files[..0] == [];
    while n < |files|
      invariant 0 <= n <= |files| && nodes == Collected(files[..n])
      invariant forall f :: 0 <= f < n ==> Allowed(files[f].path)
    {
      var path := files[n].path;
      if !path.absolute || DOTDOT in path.parts {
        assert !Allowed(path) by { NotAllowed(path); }
        return None;
      }
      assert Allowed(path) by { IsAllowed(path); }
      nodes := AddParentDirs(nodes, path.parts);
      nodes := SetNode(nodes, path.parts, Plain(files[n].data));
      assert files[..n + 1][..n] == files[..n];
      n := n + 1;
    }
    assert files[..n] == files;
    return Some(SetNode(nodes, [DEV, TTY0], Device));
  }

  lemma NotAllowed(p: Path)
    requires !p.absolute || DOTDOT in p.parts
    ensures !Allowed(p)
  {
  }

  lemma IsAllowed(p: Path)
    requires p.absolute && DOTDOT !in p.parts
    ensures Allowed(p)
  {
  }

  // struct.pack of every entry; an error for a name that is too long or not ASCII.
  method PackDir(list: seq<Entry>) returns (r: Option<Bytes>)
    requires forall e :: e in list ==> e.ino < 0x1_0000
    ensures r.None? <==> !NamesFit(list)
    ensures r.Some? ==> r.value == DirBytes(list)
  {
    hide NameFits, Packed;
    var out, i := [], 0;
    while i < |list|
      invariant 0 <= i <= |list| && out == DirBytes(list[..i]) && forall j :: 0 <= j < i ==> NameFits(list[j].name)
    {
      if !NameFits(list[i].name) {
        assert list[i] in list;
        return None;
      }
      assert list[..i + 1][..i] == list[..i];
      out := out + Packed(list[i]);
      i := i + 1;
    }
    assert list[..i] == list;
    return Some(out);
  }

  lemma {:induction false} ZeroBit(k: nat)
    ensures !ByteBit(0, k)
  {
    if k > 0 {
      ZeroBit(k - 1);
    }
  }

  lemma NoBits(im: Bytes, block: nat, limit: nat)
    requires forall i :: 0 <= i < |im| ==> im[i] == 0
    ensures BitsUpTo(im, block, limit, 0)
  {
    hide ByteBit;
    forall n: nat | n < limit ensures !BitSet(im, block, n) {
      ZeroBit(n % 8);
    }
  }

  // A file stays when its record, and the zones below z, stay.
  lemma HoldsKept(im: Bytes, im2: Bytes, base: nat, ino: nat, d: Bytes, s: nat, first: nat, z: nat)
    requires Holds(im, base, ino, d, s) && first <= s && s + Need(|d|) <= z
    requires Same(im, im2, base, base + 32 * ino) && Same(im, im2, BLOCK * first, BLOCK * z)
    ensures Holds(im2, base, ino, d, s)
  {
    hide TableHas, Indirect, Tables, ChunkAt, BlocksOf, Need;
    var nb := BlocksOf(|d|);
    var p := base + 32 * (ino - 1);
    NeedParts(|d|);
    assert Chunks(im, d, s, nb);
    ChunksKept(im, im2, d, s, nb, BLOCK * first, z);
    if nb > 7 { TableKept(im, im2, s + nb, s + 7, Min(nb, 519) - 7, BLOCK * first, BLOCK * z); }
    if nb > 519 { IndirectKept(im, im2, s, nb, BLOCK * first, BLOCK * z); }
    forall b: nat | b < Min(nb, 7) ensures DirectIs(im2, base, ino, s, b) {
      assert DirectIs(im, base, ino, s, b);
    }
    forall b: nat | nb <= b < 7 && 0 < b ensures FieldIs(im2, base, ino, b, 0) {
      assert FieldIs(im, base, ino, b, 0);
    }
  }

  lemma TypedKept(im: Bytes, im2: Bytes, base: nat, ino: nat, mode: nat, links: Byte, d: Bytes, device: nat)
    requires Typed(im, base, ino, mode, links, d, device) && Same(im, im2, base, base + 32 * ino)
    ensures Typed(im2, base, ino, mode, links, d, device)
  {
  }

  // Node k of the n written ones is held, in zones of its own.
  predicate Owned(im: Bytes, base: nat, nodes: seq<Node>, starts: seq<nat>, n: nat, k: nat) {
    && k < n < |starts| && n <= |nodes| < 0x8000
    && NodeHeld(im, base, nodes, starts, k) && starts[k + 1] <= starts[n] && starts[0] <= starts[k]
  }

  predicate HeldUpTo(im: Bytes, base: nat, nodes: seq<Node>, starts: seq<nat>, n: nat) {
    |starts| == n + 1 && forall k: nat :: k < n ==> Owned(im, base, nodes, starts, n, k)
  }

  lemma HeldMore(im: Bytes, im2: Bytes, base: nat, nodes: seq<Node>, starts: seq<nat>, n: nat)
    requires n < |nodes| < 0x8000 && HeldUpTo(im, base, nodes, starts, n)
    requires Same(im, im2, base, base + 32 * n) && Same(im, im2, BLOCK * starts[0], BLOCK * starts[n])
    requires Holds(im2, base, n + 1, DataOf(nodes, n), starts[n]) && Listable(nodes, n)
    requires Typed(im2, base, n + 1, ModeOf(nodes[n]), LinksOf(nodes[n]), DataOf(nodes, n), DeviceOf(nodes[n]))
    ensures HeldUpTo(im2, base, nodes, starts + [starts[n] + Need(|DataOf(nodes, n)|)], n + 1)
  {
    hide Holds, Need, DataOf, NamesFit, Listing, Same, Typed, ModeOf;
    var more := starts + [starts[n] + Need(|DataOf(nodes, n)|)];
    if n > 0 { assert Owned(im, base, nodes, starts, n, n - 1); }
    var n2 := n + 1;
    forall k: nat | k < n2 ensures Owned(im2, base, nodes, more, n2, k) {
      if k < n {
        assert Owned(im, base, nodes, starts, n, k);
        SameLess(im, im2, base, base + 32 * n, base + 32 * (k + 1));
        HoldsKept(im, im2, base, k + 1, DataOf(nodes, k), starts[k], starts[0], starts[n]);
        TypedKept(im, im2, base, k + 1, ModeOf(nodes[k]), LinksOf(nodes[k]), DataOf(nodes, k), DeviceOf(nodes[k]));
      }
    }
  }

  // The state of the writer after k nodes.
  ghost predicate Written(w: Writer, nodes: seq<Node>, starts: seq<nat>, k: nat)
    reads w
  {
    && w.Valid() && w.zmaps == ZMaps(w.nzones) && k <= |nodes| <= 127
    && HeldUpTo(w.image, w.Base(), nodes, starts, k) && starts[0] == w.first && starts[k] == w.next
    && w.next == w.first + Used(nodes, k) && (forall j: nat :: j < k ==> Listable(nodes, j))
    && BitsUpTo(w.image, 2, 8192, k + 1) && Stored(w.image, BLOCK, Superblock(w.nzones))
    && Blank(w.image, w.Base() + 32 * k, BLOCK * w.first)
  }

  // One turn of the loop over the nodes.
  method WriteOne(w: Writer, nodes: seq<Node>, ghost starts: seq<nat>, k: nat) returns (ok: bool, ghost more: seq<nat>)
    requires k < |nodes| && Written(w, nodes, starts, k)
    modifies w
    ensures ok <==> Listable(nodes, k) && w.first + Used(nodes, k + 1) <= w.nzones
    ensures ok ==> Written(w, nodes, more, k + 1)
  {
    hide Holds, Need, DataOf, NamesFit, Listing, BitsUpTo, Stored, Superblock, Blank, Typed;
    more := starts;
    var d: Option<Bytes> := Some([]);
    match nodes[k].kind {
      case Dir => d := PackDir(Listing(nodes, k));
      case Plain(data) => d := Some(data);
      case Device =>
    }
    if d.None? {
      return false, more;
    }
    DataIs(nodes, k);
    ghost var before := w.image;
    ok := w.WriteNode(k + 1, ModeOf(nodes[k]), LinksOf(nodes[k]), d.value, DeviceOf(nodes[k]));
    if ok {
      HeldMore(before, w.image, w.Base(), nodes, starts, k);
      StoredSame(before, w.image, BLOCK, Superblock(w.nzones), 0, 2 * BLOCK);
      BlankLess(before, w.Base() + 32 * k, BLOCK * w.first, w.Base() + 32 * (k + 1), BLOCK * w.first);
      BlankKept(before, w.image, w.Base() + 32 * (k + 1), BLOCK * w.first);
      more := starts + [starts[k] + Need(|d.value|)];
    }
  }

  method WriteAll(w: Writer, nodes: seq<Node>) returns (ok: bool, ghost starts: seq<nat>)
    requires Written(w, nodes, [w.first], 0)
    modifies w
    ensures ok <==> (forall k: nat :: k < |nodes| ==> Listable(nodes, k)) && w.first + Used(nodes, |nodes|) <= w.nzones
    ensures ok ==> Written(w, nodes, starts, |nodes|)
  {
    hide Written, Listable, Used;
    starts := [w.first];
    var k := 0;
    ok := true;
    WrittenFits(w, nodes, starts, 0);
    while k < |nodes|
      invariant 0 <= k <= |nodes| && Written(w, nodes, starts, k) && |nodes| <= 127
    {
      ok, starts := WriteOne(w, nodes, starts, k);
      if !ok {
        UsedGrows(nodes, k + 1, |nodes|);
        return;
      }
      k := k + 1;
    }
    WrittenFits(w, nodes, starts, k);
  }

  lemma WrittenFits(w: Writer, nodes: seq<Node>, starts: seq<nat>, k: nat)
    requires Written(w, nodes, starts, k)
    ensures k <= |nodes| <= 127 && w.first + Used(nodes, k) <= w.nzones && forall j: nat :: j < k ==> Listable(nodes, j)
  {
    hide HeldUpTo, BitsUpTo, Stored, Superblock, Used, Listable, Blank;
  }

  // A finished writer holds a complete image with exact bitmaps.
  lemma Finished(w: Writer, nodes: seq<Node>, starts: seq<nat>)
    requires nodes != [] && Written(w, nodes, starts, |nodes|)
    ensures Geometry(w.image).Some? && |w.image| == BLOCK * w.nzones
    ensures Complete(w.image, Geometry(w.image).value, nodes, starts) && Marks(w.image, Geometry(w.image).value, nodes, starts)
  {
    hide Holds, Need, DataOf, BitsUpTo, Geometry, Stored, Superblock, NamesFit, Listing, Used, Blank, Typed;
    GeometryRead(w.image, w.nzones);
    assert Owned(w.image, w.Base(), nodes, starts, |nodes|, |nodes| - 1);
    forall k: nat | k < |nodes| ensures NodeHeld(w.image, w.Base(), nodes, starts, k) {
      assert Owned(w.image, w.Base(), nodes, starts, |nodes|, k);
    }
  }

  lemma NodesThere(files: seq<File>)
    ensures NodesOf(files) != []
  {
  }

  // The writer and the reader undo each other: an image is made exactly when the
  // files fit, its geometry is accepted, its nodes own disjoint ranges of zones
  // that together are the marked ones, and with valid, non-conflicting paths
  // every file reads back byte for byte.
  method MakeImage(files: seq<File>, size: nat) returns (r: Option<Bytes>, ghost starts: seq<nat>)
    ensures r.Some? <==> Makeable(files, size)
    ensures r.Some? ==> |r.value| == size && Geometry(r.value).Some? && Complete(r.value, Geometry(r.value).value, NodesOf(files), starts)
    ensures r.Some? ==> Marks(r.value, Geometry(r.value).value, NodesOf(files), starts)
    ensures r.Some? && NonConflicting(files) ==> forall f :: 0 <= f < |files| ==> FileAt(r.value, files[f].path.parts) == Some(files[f].data)
  {
    hide NodesOf, Geometry, FileAt, NonConflicting, Allowed, Listable, Complete, Marks, HasFile, Tree;
    starts := [];
    if size % BLOCK != 0 || !(1024 <= size / BLOCK <= 65535) {
      return None, starts;
    }
    var collected := CollectNodes(files);
    if collected.None? {
      return None, starts;
    }
    var nodes := collected.value;
    NodesThere(files);
    if |nodes| > 127 {
      return None, starts;
    }
    var w := new Writer(size / BLOCK);
    var ok;
    ok, starts := WriteAll(w, nodes);
    if !ok {
      return None, starts;
    }
    r := Some(w.image);
    Finished(w, nodes, starts);
    if NonConflicting(files) {
      NodesTree(files);
      forall f | 0 <= f < |files| ensures FileAt(w.image, files[f].path.parts) == Some(files[f].data) {
        FileReadBack(w.image, Geometry(w.image).value, nodes, starts, files[f].path.parts, files[f].data);
      }
    }
  }

  // The bitmaps mark exactly the inodes and the zones in use, and the other
  // inodes are blank.
  predicate Marks(im: Bytes, g: Geo, nodes: seq<Node>, starts: seq<nat>) {
    && |starts| == |nodes| + 1 && g.first <= starts[|nodes|] && g.imaps == 1
    && Blank(im, g.base + 32 * |nodes|, BLOCK * g.first)
    && BitsUpTo(im, 2, 8192, |nodes| + 1) && BitsUpTo(im, 3, 8192 * g.zmaps, starts[|nodes|] - g.first + 1)
  }

  function ModeOf(n: Node): (mode: nat)
    ensures mode < 0x1_0000
  {
    match n.kind
    case Dir => 0x41ED
    case Plain(_) => if |n.path| > 1 && n.path[0] == BIN then 0x81ED else 0x81A4
    case Device => 0x21B6
  }

  function LinksOf(n: Node): Byte {
    if n.kind == Dir then 2 else 1
  }

  function DeviceOf(n: Node): nat {
    if n.kind == Device then 0x400 else 0
  }

  lemma DataIs(nodes: seq<Node>, k: nat)
    requires k < |nodes| < 0x8000
    ensures nodes[k].kind == Dir ==> DataOf(nodes, k) == DirBytes(Listing(nodes, k))
    ensures nodes[k].kind.Plain? ==> DataOf(nodes, k) == nodes[k].kind.data
    ensures nodes[k].kind == Device ==> DataOf(nodes, k) == []
  {
  }

  lemma {:induction false} UsedGrows(nodes: seq<Node>, j: nat, k: nat)
    requires j <= k <= |nodes| < 0x8000
    ensures Used(nodes, j) <= Used(nodes, k)
    decreases k - j
  {
    hide Need, DataOf;
    if j < k {
      UsedGrows(nodes, j, k - 1);
    }
  }
}