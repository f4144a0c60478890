// The kernel's view of an image that mkrootfs makes: its inodes, zones and zone
// bitmap form a sound file system, in which the block map finds every block of
// every file.
module Storage {
  import opened Words
  import opened Rootfs
  import B = BlockMap
  import Emu

  // ---- the image as the kernel reads it ----

  // A halfword as the machine loads it: what the writer's struct.pack put there.
  function HalfAt(im: Bytes, p: nat): (h: B.Half)
    requires p + 2 <= |im|
    ensures h == U16(im, p)
  {
    Emu.Read(im, p, 2).value
  }

  // A block as 512 halfwords.
  function HalvesAt(im: Bytes, z: nat): (t: B.Table)
    requires BLOCK * (z + 1) <= |im|
  {
    seq(512, i requires 0 <= i < 512 => HalfAt(im, BLOCK * z + 2 * i))
  }

  function BitsOf(b: Byte): bv8 {
    (if ByteBit(b, 0) then 1 else 0) | (if ByteBit(b, 1) then 2 else 0) | (if ByteBit(b, 2) then 4 else 0)
    | (if ByteBit(b, 3) then 8 else 0) | (if ByteBit(b, 4) then 16 else 0) | (if ByteBit(b, 5) then 32 else 0)
    | (if ByteBit(b, 6) then 64 else 0) | (if ByteBit(b, 7) then 128 else 0)
  }

  function BitmapAt(im: Bytes, block: nat): (m: B.Bitmap)
    requires BLOCK * (block + 1) <= |im|
  {
    seq(1024, i requires 0 <= i < 1024 => BitsOf(im[BLOCK * block + i]))
  }

  const S_IFREG := 8
  const S_IFDIR := 4

  // The record of inode n + 1.  A device's first zone field is its number, so
  // its zones are none.
  function InodeAt(im: Bytes, g: Geo, n: nat): B.Inode
    requires g.base + 32 * (n + 1) <= |im|
  {
    var file := HalfAt(im, g.base + 32 * n) / 4096 in {S_IFREG, S_IFDIR};
    B.Inode(file, seq(9, j requires 0 <= j < 9 => if file then HalfAt(im, g.base + 32 * n + 14 + 2 * j) else 0))
  }

  function Mounted(im: Bytes, g: Geo): B.Fs
    requires GeoOk(g, |im|) && BLOCK * (2 + g.imaps + g.zmaps) <= |im|
  {
    B.Fs(g.first,
         seq<B.Bitmap>(g.zmaps, i requires 0 <= i < g.zmaps => BitmapAt(im, 2 + g.imaps + i)),
         seq(g.nzones, z requires 0 <= z < g.nzones => HalvesAt(im, z)),
         seq(g.ninodes, n requires 0 <= n < g.ninodes => InodeAt(im, g, n)))
  }

  // What make_image promises of an image with these nodes.
  ghost predicate Made(im: Bytes, g: Geo, nodes: seq<Node>, starts: seq<nat>) {
    Geometry(im) == Some(g) && Complete(im, g, nodes, starts) && Marks(im, g, nodes, starts)
  }

  lemma MadeShape(im: Bytes, g: Geo, nodes: seq<Node>, starts: seq<nat>)
    requires Made(im, g, nodes, starts)
    ensures GeoOk(g, |im|) && g.imaps == 1 && g.ninodes == 128 && |nodes| <= 127 && |starts| == |nodes| + 1
    ensures BLOCK * (3 + g.zmaps) == g.base && g.base + 32 * 128 <= BLOCK * g.first && 3 <= g.first < g.nzones < 0x1_0000
    ensures BLOCK * g.nzones <= |im| && g.nzones - g.first + 1 <= 8192 * g.zmaps
    ensures g.first <= starts[|nodes|] <= g.nzones && starts[0] == g.first
  {
    hide NodeHeld, BitsUpTo, Blank;
  }

  // ---- tables ----

  lemma BlankHalf(im: Bytes, a: int, b: int, p: nat)
    requires Blank(im, a, b) && a <= p && p + 2 <= b && p + 2 <= |im|
    ensures U16(im, p) == 0
  {
  }

  lemma EntryOfTable(im: Bytes, g: Geo, z: nat, v: nat, n: nat, i: nat)
    requires GeoOk(g, |im|) && BLOCK * (2 + g.imaps + g.zmaps) <= |im|
    requires TableHas(im, z, v, n) && 0 < z < g.nzones && i < 512
    ensures B.Entry(Mounted(im, g), z, i) == if i < n then v + i else 0
  {
    hide U16, HalfAt, Blank, BitmapAt, InodeAt;
    assert Mounted(im, g).disk[z] == HalvesAt(im, z);
    if i < n {
      assert EntryIs(im, z, v, i);
    } else {
      BlankHalf(im, BLOCK * z + 2 * n, BLOCK * (z + 1), BLOCK * z + 2 * i);
    }
  }

  // ---- where the zones of a file hang ----

  // The zone, counted from the file's first, at a place of the tree of a file of
  // nb blocks: the blocks in order, then the table, the inner tables, and the
  // table of those.
  function Offset(nb: nat, p: B.Path): Option<nat>
    requires B.Exists(p)
  {
    match p
    case Direct(i) => if i < nb then Some(i) else None
    case Ind => if nb > 7 then Some(nb) else None
    case IndAt(i) => if 7 + i < nb then Some(7 + i) else None
    case Dind => if nb > 519 then Some(nb + 1 + Tables(nb)) else None
    case DindAt(i) => if i < Tables(nb) then Some(nb + 1 + i) else None
    case Leaf(i, j) => if 519 + 512 * i + j < nb then Some(519 + 512 * i + j) else None
  }

  lemma OffsetWithin(size: nat, p: B.Path)
    requires B.Exists(p) && Offset(BlocksOf(size), p).Some?
    ensures Offset(BlocksOf(size), p).value < Need(size)
  {
    hide BlocksOf;
  }

  lemma OffsetApart(nb: nat, p: B.Path, q: B.Path)
    requires B.Exists(p) && B.Exists(q) && Offset(nb, p).Some? && Offset(nb, p) == Offset(nb, q)
    ensures p == q
  {
    hide Tables;
    LeafApart(p, q);
  }

  lemma LeafApart(p: B.Path, q: B.Path)
    requires B.Exists(p) && B.Exists(q)
    ensures p.Leaf? && q.Leaf? && 512 * p.i + p.j == 512 * q.i + q.j ==> p == q
  {
  }

  function ZoneAt(s: nat, nb: nat, p: B.Path): nat
    requires B.Exists(p)
  {
    match Offset(nb, p)
    case None => 0
    case Some(o) => s + o
  }

  lemma ModeFile(n: Node)
    ensures ModeOf(n) / 4096 in {S_IFREG, S_IFDIR} <==> n.kind != Device
  {
  }

  // The nine zone numbers of a stored file.
  lemma RootZones(im: Bytes, g: Geo, nodes: seq<Node>, starts: seq<nat>, k: nat, j: nat)
    requires Made(im, g, nodes, starts) && k < |nodes| && j < 9
    ensures GeoOk(g, |im|) && g.base + 32 * (k + 1) <= |im| && BLOCK * (2 + g.imaps + g.zmaps) <= |im|
    ensures InodeAt(im, g, k).zones[j] == ZoneAt(starts[k], BlocksOf(|DataOf(nodes, k)|), if j < 7 then B.Direct(j) else if j == 7 then B.Ind else B.Dind)
    ensures InodeAt(im, g, k).file <==> nodes[k].kind != Device
  {
    hide U16, HalfAt, Indirect, TableHas, ChunkAt, BlocksOf, Tables, Geometry, Marks, ModeOf, NamesFit, Listing, U32;
    MadeShape(im, g, nodes, starts);
    assert NodeHeld(im, g.base, nodes, starts, k);
    ModeFile(nodes[k]);
    var d, s := DataOf(nodes, k), starts[k];
    var nb := BlocksOf(|d|);
    NoBlocks(d);
    if nodes[k].kind == Device {
      assert d == [];
    } else if j < 7 && j < nb {
      assert DirectIs(im, g.base, k + 1, s, j);
    } else if j < 7 && 0 < j {
      assert FieldIs(im, g.base, k + 1, j, 0);
    }
  }

  lemma NoBlocks(d: Bytes)
    ensures BlocksOf(|d|) == 0 <==> d == []
  {
  }

  // Where the file's zones lie.
  lemma NodeRange(im: Bytes, g: Geo, nodes: seq<Node>, starts: seq<nat>, k: nat)
    requires Made(im, g, nodes, starts) && k < |nodes|
    ensures |starts| == |nodes| + 1 && |nodes| <= 127
    ensures g.first <= starts[k] && starts[k] + Need(|DataOf(nodes, k)|) == starts[k + 1] <= starts[|nodes|] <= g.nzones
    ensures Holds(im, g.base, k + 1, DataOf(nodes, k), starts[k])
  {
    hide Holds, Need, DataOf, NamesFit, Typed, Geometry, Marks;
    MadeShape(im, g, nodes, starts);
    assert NodeHeld(im, g.base, nodes, starts, k);
    StartsRise(im, g, nodes, starts, 0, k);
    StartsRise(im, g, nodes, starts, k + 1, |nodes|);
  }

  lemma EntryOfNone(im: Bytes, g: Geo, i: nat)
    requires GeoOk(g, |im|) && BLOCK * (2 + g.imaps + g.zmaps) <= |im| && i < 512
    ensures B.Entry(Mounted(im, g), 0, i) == 0
  {
  }

  lemma RootAt(im: Bytes, g: Geo, n: nat, p: B.Path)
    requires GeoOk(g, |im|) && BLOCK * (2 + g.imaps + g.zmaps) <= |im| && n < g.ninodes && B.Exists(p)
    ensures g.base + 32 * (n + 1) <= |im|
    ensures var z := InodeAt(im, g, n).zones;
            B.At(Mounted(im, g), n, p) == match p
              case Direct(i) => z[i]
              case Ind => z[7]
              case Dind => z[8]
              case IndAt(i) => B.Entry(Mounted(im, g), z[7], i)
              case DindAt(i) => B.Entry(Mounted(im, g), z[8], i)
              case Leaf(i, j) => B.Entry(Mounted(im, g), B.Entry(Mounted(im, g), z[8], i), j)
  {
    hide B.Entry, InodeAt, HalvesAt, BitmapAt;
  }

  // Every place of a stored file's tree holds the zone the layout gives it.
  lemma PlaceFilled(im: Bytes, g: Geo, nodes: seq<Node>, starts: seq<nat>, k: nat, p: B.Path)
    requires Made(im, g, nodes, starts) && k < |nodes| && B.Exists(p)
    ensures GeoOk(g, |im|) && BLOCK * (2 + g.imaps + g.zmaps) <= |im| && |starts| == |nodes| + 1 && k < g.ninodes
    ensures B.At(Mounted(im, g), k, p) == ZoneAt(starts[k], BlocksOf(|DataOf(nodes, k)|), p)
  {
    hide Made, Mounted, B.At, B.Entry, Holds, BlocksOf, Tables, DataOf, InodeAt, TableHas, Need;
    MadeShape(im, g, nodes, starts);
    NodeRange(im, g, nodes, starts, k);
    RootAt(im, g, k, p);
    var nb, s := BlocksOf(|DataOf(nodes, k)|), starts[k];
    RootZones(im, g, nodes, starts, k, match p case Direct(i) => i case Ind => 7 case IndAt(_) => 7 case _ => 8);
    NeedParts(|DataOf(nodes, k)|);
    match p
    case IndAt(i) =>
      if nb > 7 {
        HeldTable(im, g.base, k + 1, DataOf(nodes, k), s);
        EntryOfTable(im, g, s + nb, s + 7, Min(nb, 519) - 7, i);
      } else {
        EntryOfNone(im, g, i);
      }
    case DindAt(i) =>
      if nb > 519 {
        HeldTables(im, g.base, k + 1, DataOf(nodes, k), s, i);
        EntryOfTable(im, g, s + nb + 1 + Tables(nb), s + nb + 1, Tables(nb), i);
      } else {
        FewTables(nb);
        EntryOfNone(im, g, i);
      }
    case Leaf(i, j) =>
      if nb > 519 {
        LeafFilled(im, g, k + 1, DataOf(nodes, k), s, i, j);
      } else {
        EntryOfNone(im, g, i);
        EntryOfNone(im, g, j);
      }
    case _ =>
  }

  lemma LeafFilled(im: Bytes, g: Geo, ino: nat, d: Bytes, s: nat, i: nat, j: nat)
    requires GeoOk(g, |im|) && BLOCK * (2 + g.imaps + g.zmaps) <= |im| && i < 512 && j < 512
    requires Holds(im, g.base, ino, d, s) && BlocksOf(|d|) > 519 && 0 < g.first <= s && s + Need(|d|) <= g.nzones
    ensures var nb, fs := BlocksOf(|d|), Mounted(im, g);
            B.Entry(fs, B.Entry(fs, s + nb + 1 + Tables(nb), i), j) == ZoneAt(s, nb, B.Leaf(i, j))
  {
    hide Mounted, B.Entry, Holds, BlocksOf, Tables, TableHas, Need;
    var nb := BlocksOf(|d|);
    NeedParts(|d|);
    TablesAbove(nb, i);
    HeldTables(im, g.base, ino, d, s, i);
    EntryOfTable(im, g, s + nb + 1 + Tables(nb), s + nb + 1, Tables(nb), i);
    if i < Tables(nb) {
      EntryOfTable(im, g, s + nb + 1 + i, s + 519 + 512 * i, Min(512, nb - 519 - 512 * i), j);
    } else {
      EntryOfNone(im, g, j);
    }
  }

  lemma HeldTable(im: Bytes, base: nat, ino: nat, d: Bytes, s: nat)
    requires Holds(im, base, ino, d, s) && BlocksOf(|d|) > 7
    ensures TableHas(im, s + BlocksOf(|d|), s + 7, Min(BlocksOf(|d|), 519) - 7)
  {
    hide TableHas, Indirect, BlocksOf;
  }

  lemma HeldTables(im: Bytes, base: nat, ino: nat, d: Bytes, s: nat, i: nat)
    requires Holds(im, base, ino, d, s) && BlocksOf(|d|) > 519
    ensures var nb := BlocksOf(|d|);
            TableHas(im, s + nb + 1 + Tables(nb), s + nb + 1, Tables(nb)) &&
            (i < Tables(nb) ==> TableHas(im, s + nb + 1 + i, s + 519 + 512 * i, Min(512, nb - 519 - 512 * i)))
  {
    hide TableHas, BlocksOf, Tables;
    var nb := BlocksOf(|d|);
    if i < Tables(nb) { assert Inner(im, s, nb, i); }
  }

  lemma FewTables(nb: nat)
    ensures nb <= 519 ==> Tables(nb) == 0
  {
  }

  lemma TablesAbove(nb: nat, i: nat)
    ensures nb > 519 ==> (i < Tables(nb) <==> 519 + 512 * i < nb)
  {
  }

  // An inode that was not written has no zones.
  lemma PlaceEmpty(im: Bytes, g: Geo, nodes: seq<Node>, starts: seq<nat>, n: nat, p: B.Path)
    requires Made(im, g, nodes, starts) && |nodes| <= n < 128 && B.Exists(p)
    ensures GeoOk(g, |im|) && BLOCK * (2 + g.imaps + g.zmaps) <= |im| && n < g.ninodes
    ensures B.At(Mounted(im, g), n, p) == 0
  {
    hide Complete, Geometry, Mounted, B.At, B.Entry, BitsUpTo, Blank, U16, HalfAt;
    MadeShape(im, g, nodes, starts);
    RootAt(im, g, n, p);
    BlankHalf(im, g.base + 32 * |nodes|, BLOCK * g.first, g.base + 32 * n);
    match p {
      case IndAt(i) => EntryOfNone(im, g, i);
      case DindAt(i) => EntryOfNone(im, g, i);
      case Leaf(i, j) => EntryOfNone(im, g, i); EntryOfNone(im, g, j);
      case _ =>
    }
  }

  // ---- the bitmap ----

  lemma MaskedBit(b: Byte, k: nat)
    requires k < 8
    ensures BitsOf(b) & B.Mask(k) != 0 <==> ByteBit(b, k)
  {
    hide ByteBit;
  }

  lemma BitPlace(n: nat)
    ensures n / 8 == 1024 * (n / 8192) + n % 8192 / 8 && n % 8 == n % 8192 % 8 && n % 8192 / 8 < 1024
  {
  }

  lemma BitmapBit(im: Bytes, g: Geo, q: nat, r: nat)
    requires GeoOk(g, |im|) && BLOCK * (2 + g.imaps + g.zmaps) <= |im| && g.imaps == 1 && q < g.zmaps && r < 8192
    ensures B.BitOf(Mounted(im, g).zmap[q], r) <==> ByteBit(im[BLOCK * (3 + q) + r / 8], r % 8)
  {
    hide ByteBit, BitsOf, B.Mask, HalvesAt, InodeAt;
    MaskedBit(im[BLOCK * (3 + q) + r / 8], r % 8);
    assert Mounted(im, g).zmap[q] == BitmapAt(im, 3 + q);
  }

  // Exactly the zones of the files are marked.
  lemma MarkedExact(im: Bytes, g: Geo, nodes: seq<Node>, starts: seq<nat>, z: nat)
    requires Made(im, g, nodes, starts)
    ensures GeoOk(g, |im|) && BLOCK * (2 + g.imaps + g.zmaps) <= |im| && |starts| == |nodes| + 1
    ensures B.Marked(Mounted(im, g), z) <==> g.first <= z < starts[|nodes|]
  {
    hide Complete, Geometry, ByteBit, Blank, B.BitOf, BitmapAt, HalvesAt, InodeAt;
    MadeShape(im, g, nodes, starts);
    if g.first <= z < g.nzones {
      var n := z - g.first + 1;
      BitPlace(n);
      BitmapBit(im, g, n / 8192, n % 8192);
      assert BitSet(im, 3, n) <==> n < starts[|nodes|] - g.first + 1;
    }
  }

  // ---- the file system is sound ----

  lemma PlaceZone(im: Bytes, g: Geo, nodes: seq<Node>, starts: seq<nat>, n: nat, p: B.Path)
    requires Made(im, g, nodes, starts) && n < 128 && B.Exists(p)
    ensures GeoOk(g, |im|) && BLOCK * (2 + g.imaps + g.zmaps) <= |im| && n < g.ninodes && |starts| == |nodes| + 1
    ensures var z := B.At(Mounted(im, g), n, p);
            z != 0 ==>
              && n < |nodes| && starts[n] <= z < starts[n + 1] && g.first <= z < starts[|nodes|]
              && Offset(BlocksOf(|DataOf(nodes, n)|), p) == Some(z - starts[n])
  {
    hide Made, Mounted, B.At, BlocksOf, DataOf, Need, Offset, Holds;
    MadeShape(im, g, nodes, starts);
    if n < |nodes| {
      PlaceFilled(im, g, nodes, starts, n, p);
      NodeRange(im, g, nodes, starts, n);
      if Offset(BlocksOf(|DataOf(nodes, n)|), p).Some? { OffsetWithin(|DataOf(nodes, n)|, p); }
    } else {
      PlaceEmpty(im, g, nodes, starts, n, p);
    }
  }

  lemma StartsApart(im: Bytes, g: Geo, nodes: seq<Node>, starts: seq<nat>, n: nat, m: nat, z: nat)
    requires Made(im, g, nodes, starts) && |starts| == |nodes| + 1 && n < |nodes| && m < |nodes|
    requires starts[n] <= z < starts[n + 1] && starts[m] <= z < starts[m + 1]
    ensures n == m
  {
    hide Complete, Marks, Geometry;
    if n < m {
      StartsRise(im, g, nodes, starts, n + 1, m);
    } else if m < n {
      StartsRise(im, g, nodes, starts, m + 1, n);
    }
  }

  lemma PlacesApart(im: Bytes, g: Geo, nodes: seq<Node>, starts: seq<nat>, n: nat, p: B.Path, m: nat, q: B.Path)
    requires Made(im, g, nodes, starts) && n < 128 && B.Exists(p) && m < 128 && B.Exists(q)
    ensures GeoOk(g, |im|) && BLOCK * (2 + g.imaps + g.zmaps) <= |im| && 128 == g.ninodes
    ensures B.At(Mounted(im, g), n, p) != 0 && B.At(Mounted(im, g), n, p) == B.At(Mounted(im, g), m, q) ==> n == m && p == q
  {
    hide Made, B.At, BlocksOf, DataOf, Offset, HalvesAt, BitmapAt, InodeAt, Need, B.Entry, Holds;
    MadeShape(im, g, nodes, starts);
    PlaceZone(im, g, nodes, starts, n, p);
    PlaceZone(im, g, nodes, starts, m, q);
    var z := B.At(Mounted(im, g), n, p);
    if z != 0 && z == B.At(Mounted(im, g), m, q) {
      StartsApart(im, g, nodes, starts, n, m, z);
      OffsetApart(BlocksOf(|DataOf(nodes, n)|), p, q);
    }
  }

  // What mkrootfs makes, the kernel finds in order: no zone hangs in two places,
  // and all are marked.
  lemma MountedSound(im: Bytes, g: Geo, nodes: seq<Node>, starts: seq<nat>)
    requires Made(im, g, nodes, starts)
    ensures GeoOk(g, |im|) && BLOCK * (2 + g.imaps + g.zmaps) <= |im|
    ensures B.Sound(Mounted(im, g))
  {
    hide Made, B.At, B.Marked, BlocksOf, DataOf, Offset, BitmapAt, HalvesAt, InodeAt;
    MadeShape(im, g, nodes, starts);
    var fs := Mounted(im, g);
    forall n, p | B.Within(fs, n, p) ensures B.ZoneOk(fs, n, p) {
      PlaceZone(im, g, nodes, starts, n, p);
      if B.At(fs, n, p) != 0 { MarkedExact(im, g, nodes, starts, B.At(fs, n, p)); }
    }
    forall n, p, m, q | B.Within(fs, n, p) && B.Within(fs, m, q) ensures B.Apart(fs, n, p, m, q) {
      PlacesApart(im, g, nodes, starts, n, p, m, q);
    }
  }

  // The place of a file's zone.
  function PlaceOf(nb: nat, o: nat): B.Path {
    if o < 7 && o < nb then B.Direct(o)
    else if o < 519 && o < nb then B.IndAt(o - 7)
    else if o < nb then B.Leaf((o - 519) / 512, (o - 519) % 512)
    else if o == nb then B.Ind
    else if o < nb + 1 + Tables(nb) then B.DindAt(o - nb - 1)
    else B.Dind
  }

  lemma PlaceOffset(size: nat, o: nat)
    requires o < Need(size) && BlocksOf(size) <= B.BLOCKS
    ensures B.Exists(PlaceOf(BlocksOf(size), o)) && Offset(BlocksOf(size), PlaceOf(BlocksOf(size), o)) == Some(o)
  {
    hide BlocksOf;
  }

  lemma {:induction false} OwnerOf(im: Bytes, g: Geo, nodes: seq<Node>, starts: seq<nat>, z: nat, k: nat) returns (n: nat)
    requires Made(im, g, nodes, starts) && |starts| == |nodes| + 1 && k <= |nodes| && g.first <= z < starts[k]
    ensures n < k && starts[n] <= z < starts[n + 1]
  {
    hide Complete, Marks, Geometry;
    MadeShape(im, g, nodes, starts);
    if z >= starts[k - 1] { n := k - 1; } else { n := OwnerOf(im, g, nodes, starts, z, k - 1); }
  }

  ghost predicate Held(fs: B.Fs, z: nat) {
    exists n, p :: B.Within(fs, n, p) && B.At(fs, n, p) == z
  }

  // And no zone is marked that nothing holds.
  lemma NothingLeaks(im: Bytes, g: Geo, nodes: seq<Node>, starts: seq<nat>, z: nat)
    requires Made(im, g, nodes, starts)
    ensures GeoOk(g, |im|) && BLOCK * (2 + g.imaps + g.zmaps) <= |im|
    ensures B.Marked(Mounted(im, g), z) ==> Held(Mounted(im, g), z)
  {
    hide Made, B.At, B.Marked, BlocksOf, DataOf, Offset, PlaceOf, Need, BitmapAt, HalvesAt, InodeAt, Holds, B.Entry;
    MadeShape(im, g, nodes, starts);
    MarkedExact(im, g, nodes, starts, z);
    var fs := Mounted(im, g);
    if B.Marked(fs, z) {
      var n := OwnerOf(im, g, nodes, starts, z, |nodes|);
      NodeRange(im, g, nodes, starts, n);
      var size := |DataOf(nodes, n)|;
      NeedBlocks(size);
      var p := PlaceOf(BlocksOf(size), z - starts[n]);
      PlaceOffset(size, z - starts[n]);
      PlaceFilled(im, g, nodes, starts, n, p);
      assert ZoneAt(starts[n], BlocksOf(size), p) == z;
      assert B.Within(fs, n, p) && B.At(fs, n, p) == z;
    }
  }

  // ---- every block is found ----

  lemma BlockOffset(nb: nat, b: nat)
    requires b < B.BLOCKS
    ensures Offset(nb, B.Place(b)) == if b < nb then Some(b) else None
  {
    hide Tables;
  }

  // The zone the block map gives for block b of a file holds the b-th 1024 bytes
  // of its data; past the end there is none.
  lemma BlockFound(im: Bytes, g: Geo, nodes: seq<Node>, starts: seq<nat>, k: nat, b: nat)
    requires Made(im, g, nodes, starts) && k < |nodes| && b < B.BLOCKS
    ensures GeoOk(g, |im|) && BLOCK * (2 + g.imaps + g.zmaps) <= |im| && k < g.ninodes
    ensures var z, d := B.Bmap(Mounted(im, g), k, b), DataOf(nodes, k);
            if b < BlocksOf(|d|) then z > 0 && Stored(im, BLOCK * z, Chunk(d, b)) else z == 0
  {
    hide Made, Mounted, B.At, BlocksOf, DataOf, Need, Offset, Holds, B.Place;
    MadeShape(im, g, nodes, starts);
    PlaceFilled(im, g, nodes, starts, k, B.Place(b));
    NodeRange(im, g, nodes, starts, k);
    BlockOffset(BlocksOf(|DataOf(nodes, k)|), b);
    if b < BlocksOf(|DataOf(nodes, k)|) { ChunkOf(im, g.base, k + 1, DataOf(nodes, k), starts[k], b); }
  }

  // bmap on a mounted image.
  method FindBlock(fs: B.FileSystem, ghost im: Bytes, ghost g: Geo, ghost nodes: seq<Node>, ghost starts: seq<nat>, k: nat, b: nat) returns (z: int)
    requires Made(im, g, nodes, starts) && k < |nodes| && b < B.BLOCKS
    requires GeoOk(g, |im|) && BLOCK * (2 + g.imaps + g.zmaps) <= |im| && fs.View() == Mounted(im, g)
    modifies fs
    ensures fs.View() == old(fs.View())
    ensures b < BlocksOf(|DataOf(nodes, k)|) ==> z > 0 && Stored(im, BLOCK * z, Chunk(DataOf(nodes, k), b))
    ensures b >= BlocksOf(|DataOf(nodes, k)|) ==> z == 0
  {
    hide Made, B.Sound, DataOf, BlocksOf, B.Bmap;
    MountedSound(im, g, nodes, starts);
    BlockFound(im, g, nodes, starts, k, b);
    z := fs.MapBlock(k, b, false);
  }

  // ---- modes ----

  // S_ISREG, and one of the bits 0111.
  predicate Regular(mode: nat) {
    mode / 4096 == S_IFREG
  }

  predicate MayRun(mode: nat) {
    mode / 64 % 2 == 1 || mode / 8 % 2 == 1 || mode % 2 == 1
  }

  // Among the files exactly those below /bin are executable.
  lemma BinIsExecutable(im: Bytes, g: Geo, nodes: seq<Node>, starts: seq<nat>, k: nat)
    requires Made(im, g, nodes, starts) && k < |nodes| && nodes[k].kind.Plain?
    ensures GeoOk(g, |im|) && g.base + 32 * (k + 1) <= |im|
    ensures var mode := HalfAt(im, g.base + 32 * k);
            Regular(mode) && (MayRun(mode) <==> |nodes[k].path| > 1 && nodes[k].path[0] == [98, 105, 110])
  {
    hide U16, HalfAt, Holds, Geometry, Marks, DataOf, NamesFit, Listing, Need;
    MadeShape(im, g, nodes, starts);
    assert NodeHeld(im, g.base, nodes, starts, k);
  }
}
