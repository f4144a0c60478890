// The block map of inodes over the zone bitmap: direct, indirect and double
// indirect zones (fs/inode.c, fs/bitmap.c, fs/truncate.c).  Blocks are 512
// halfwords; the device is synchronous and never fails.
module BlockMap {
  import opened Words

  type Half = x: nat | x < 0x1_0000
  type Table = t: seq<Half> | |t| == 512 witness seq(512, _ => 0)
  type Zones = z: seq<Half> | |z| == 9 witness seq(9, _ => 0)
  type Bitmap = m: seq<bv8> | |m| == 1024 witness seq(1024, _ => 0)

  function Zero(): Table {
    seq(512, _ => 0)
  }
  const BLOCKS := 7 + 512 + 512 * 512

  // files are regular files and directories; zones are the nine zone numbers.
  datatype Inode = Inode(file: bool, zones: Zones)

  // first and |disk| bound the data zones; zmap is the zone bitmap's blocks.
  datatype Fs = Fs(first: nat, zmap: seq<Bitmap>, disk: seq<Table>, inodes: seq<Inode>)

  // ---- bitmap bits ----

  function Mask(k: nat): bv8
    requires k < 8
  {
    if k == 0 then 1 else if k == 1 then 2 else if k == 2 then 4 else if k == 3 then 8
    else if k == 4 then 16 else if k == 5 then 32 else if k == 6 then 64 else 128
  }

  lemma MaskSets(b: bv8, k: nat, j: nat)
    requires k < 8 && j < 8
    ensures ((b | Mask(k)) & Mask(j) != 0) <==> (j == k || b & Mask(j) != 0)
    ensures ((b & !Mask(k)) & Mask(j) != 0) <==> (j != k && b & Mask(j) != 0)
  {
  }

  function BitOf(m: Bitmap, bit: nat): bool
    requires bit < 8192
  {
    m[bit / 8] & Mask(bit % 8) != 0
  }

  // Zone numbers in the data area whose bit the bitmap has.
  predicate Covered(s: Fs, z: nat) {
    s.first <= z < |s.disk| && (z - s.first + 1) / 8192 < |s.zmap|
  }

  predicate Marked(s: Fs, z: nat) {
    Covered(s, z) && BitOf(s.zmap[(z - s.first + 1) / 8192], (z - s.first + 1) % 8192)
  }

  function SetAt(m: Bitmap, i: nat, k: nat): Bitmap
    requires i < 1024 && k < 8
  {
    m[i := m[i] | Mask(k)]
  }

  function ClearAt(m: Bitmap, i: nat, k: nat): Bitmap
    requires i < 1024 && k < 8
  {
    m[i := m[i] & !Mask(k)]
  }

  lemma AtOne(m: Bitmap, i: nat, k: nat, j: nat, l: nat)
    requires i < 1024 && k < 8 && j < 1024 && l < 8
    ensures (SetAt(m, i, k)[j] & Mask(l) != 0) <==> (m[j] & Mask(l) != 0 || (i == j && k == l))
    ensures (ClearAt(m, i, k)[j] & Mask(l) != 0) <==> (m[j] & Mask(l) != 0 && !(i == j && k == l))
  {
    hide Mask;
    MaskSets(m[i], k, l);
  }

  function SetBit(m: Bitmap, bit: nat): Bitmap
    requires bit < 8192
  {
    SetAt(m, bit / 8, bit % 8)
  }

  function ClearBit(m: Bitmap, bit: nat): Bitmap
    requires bit < 8192
  {
    ClearAt(m, bit / 8, bit % 8)
  }

  // Which bitmap block, and which bit of it, stands for a zone.
  function MapOf(s: Fs, z: nat): int {
    (z - s.first + 1) / 8192
  }

  function BitIn(s: Fs, z: nat): nat {
    (z - s.first + 1) % 8192
  }

  function SetMark(s: Fs, z: nat): Fs
    requires Covered(s, z)
  {
    s.(zmap := s.zmap[MapOf(s, z) := SetBit(s.zmap[MapOf(s, z)], BitIn(s, z))])
  }

  // Out-of-range zones are ignored.
  function ClearMark(s: Fs, z: nat): Fs {
    if !Covered(s, z) then s
    else s.(zmap := s.zmap[MapOf(s, z) := ClearBit(s.zmap[MapOf(s, z)], BitIn(s, z))])
  }

  // A bit set or cleared is that zone's and no other's, across all the blocks
  // of the bitmap.
  lemma MarkOne(s: Fs, z: nat, x: nat)
    ensures Covered(s, z) ==> Marked(SetMark(s, z), x) == (Marked(s, x) || x == z)
    ensures Marked(ClearMark(s, z), x) == (Marked(s, x) && x != z)
  {
    hide BitOf, SetBit, ClearBit;
    if Covered(s, z) && Covered(s, x) {
      BitOne(s.zmap[MapOf(s, z)], BitIn(s, z), BitIn(s, x));
      SameBit(z - s.first + 1, x - s.first + 1);
    }
  }

  lemma BitOne(m: Bitmap, b: nat, c: nat)
    requires b < 8192 && c < 8192
    ensures BitOf(SetBit(m, b), c) == (BitOf(m, c) || b == c)
    ensures BitOf(ClearBit(m, b), c) == (BitOf(m, c) && b != c)
  {
    hide Mask, SetAt, ClearAt;
    AtOne(m, b / 8, b % 8, c / 8, c % 8);
  }

  lemma SameBit(a: nat, b: nat)
    ensures a / 8192 == b / 8192 && a % 8192 == b % 8192 ==> a == b
  {
  }

  // ---- the tree of an inode ----

  datatype Path = Direct(i: nat) | Ind | IndAt(i: nat) | Dind | DindAt(i: nat) | Leaf(i: nat, j: nat)

  predicate Exists(p: Path) {
    match p
    case Direct(i) => i < 7
    case Ind => true
    case IndAt(i) => i < 512
    case Dind => true
    case DindAt(i) => i < 512
    case Leaf(i, j) => i < 512 && j < 512
  }

  // A zone table's entry; zone 0 has none.
  function Entry(s: Fs, z: nat, i: nat): Half
    requires i < 512
  {
    if 0 < z < |s.disk| then s.disk[z][i] else 0
  }

  // The zone at a place of inode n's tree, 0 when there is none.
  function At(s: Fs, n: nat, p: Path): Half
    requires n < |s.inodes| && Exists(p)
  {
    var z := s.inodes[n].zones;
    match p
    case Direct(i) => z[i]
    case Ind => z[7]
    case Dind => z[8]
    case IndAt(i) => Entry(s, z[7], i)
    case DindAt(i) => Entry(s, z[8], i)
    case Leaf(i, j) => Entry(s, Entry(s, z[8], i), j)
  }

  predicate Within(s: Fs, n: nat, p: Path) {
    n < |s.inodes| && Exists(p)
  }

  // Zones are in range and marked.
  predicate ZoneOk(s: Fs, n: nat, p: Path)
    requires Within(s, n, p)
  {
    At(s, n, p) != 0 ==> Marked(s, At(s, n, p))
  }

  predicate Apart(s: Fs, n: nat, p: Path, m: nat, q: Path)
    requires Within(s, n, p) && Within(s, m, q)
  {
    At(s, n, p) != 0 && At(s, n, p) == At(s, m, q) ==> n == m && p == q
  }

  // All places of all inodes hold different, marked zones.
  ghost predicate Sound(s: Fs) {
    && 0 < s.first && |s.disk| <= 0x1_0000
    && (forall n, p | Within(s, n, p) :: ZoneOk(s, n, p))
    && (forall n, p, m, q | Within(s, n, p) && Within(s, m, q) :: Apart(s, n, p, m, q))
  }

  // Where a block of a file hangs.
  function Place(block: nat): (p: Path)
    requires block < BLOCKS
    ensures Exists(p)
  {
    if block < 7 then Direct(block)
    else if block < 7 + 512 then IndAt(block - 7)
    else Leaf((block - 519) / 512, (block - 519) % 512)
  }

  lemma PlaceInjective(a: nat, b: nat)
    requires a < BLOCKS && b < BLOCKS && Place(a) == Place(b)
    ensures a == b
  {
  }

  // bmap: the zone of a block, 0 for a hole.
  function Bmap(s: Fs, n: nat, block: nat): Half
    requires n < |s.inodes| && block < BLOCKS
  {
    At(s, n, Place(block))
  }

  // ---- allocating one zone ----

  // Inode n's place p, whose table exists, is made to hold zone z.
  function Linked(s: Fs, n: nat, p: Path, z: Half): Fs
    requires Within(s, n, p)
  {
    match p
    case Direct(i) => SetZone(s, n, i, z)
    case Ind => SetZone(s, n, 7, z)
    case Dind => SetZone(s, n, 8, z)
    case IndAt(i) => Rewritten(s, s.inodes[n].zones[7], i, z)
    case DindAt(i) => Rewritten(s, s.inodes[n].zones[8], i, z)
    case Leaf(i, j) => Rewritten(s, Entry(s, s.inodes[n].zones[8], i), j, z)
  }

  function SetZone(s: Fs, n: nat, i: nat, z: Half): Fs
    requires n < |s.inodes| && i < 9
  {
    s.(inodes := s.inodes[n := Inode(s.inodes[n].file, s.inodes[n].zones[i := z])])
  }

  function Rewritten(s: Fs, t: nat, i: nat, z: Half): Fs
    requires i < 512
  {
    if 0 < t < |s.disk| then s.(disk := s.disk[t := s.disk[t][i := z]]) else s
  }

  // The table holding a place's entry; 0 for the inode's own places.
  function Parent(s: Fs, n: nat, p: Path): Half
    requires Within(s, n, p)
  {
    match p
    case IndAt(_) => At(s, n, Ind)
    case DindAt(_) => At(s, n, Dind)
    case Leaf(i, _) => At(s, n, DindAt(i))
    case _ => 0
  }

  predicate InTable(p: Path) {
    p.IndAt? || p.DindAt? || p.Leaf?
  }

  // new_block's zone z, marked, zeroed and linked.
  function Allocated(s: Fs, n: nat, p: Path, z: Half): Fs
    requires Within(s, n, p) && Covered(s, z)
  {
    Linked(Zeroed(SetMark(s, z), z), n, p, z)
  }

  function Zeroed(s: Fs, z: nat): Fs
    requires z < |s.disk|
  {
    s.(disk := s.disk[z := Zero()])
  }

  predicate CanAllocate(s: Fs, n: nat, p: Path, z: nat) {
    && Within(s, n, p) && At(s, n, p) == 0 && (InTable(p) ==> Parent(s, n, p) != 0)
    && z < 0x1_0000 && Covered(s, z) && !Marked(s, z)
  }

  lemma MarkedRange(s: Fs, z: nat)
    requires Marked(s, z) && 0 < s.first
    ensures 0 < z < |s.disk| && Covered(s, z)
  {
  }

  // The entry of its table that a place is.
  function Index(p: Path): nat
    requires InTable(p)
  {
    if p.Leaf? then p.j else p.i
  }

  // Entries of tables: only place p's changes.
  lemma AllocatedEntry(s: Fs, n: nat, p: Path, z: Half, t: nat, i: nat)
    requires Sound(s) && CanAllocate(s, n, p, z) && i < 512
    requires t == 0 || Marked(s, t)
    ensures Entry(Allocated(s, n, p, z), t, i)
         == if InTable(p) && t == Parent(s, n, p) && i == Index(p) then z else Entry(s, t, i)
  {
    hide Marked, Apart, SetBit, MapOf, BitIn;
    if t != 0 { MarkedRange(s, t); }
    ParentMarked(s, n, p);
    if InTable(p) { MarkedRange(s, Parent(s, n, p)); }
    if p.Leaf? {
      assert ZoneOk(s, n, Dind);
      MarkedRange(s, At(s, n, Dind));
    }
  }

  lemma ParentMarked(s: Fs, n: nat, p: Path)
    requires Sound(s) && Within(s, n, p)
    ensures Parent(s, n, p) != 0 ==> Marked(s, Parent(s, n, p))
  {
    hide Marked, Apart;
    match p
    case IndAt(_) => assert ZoneOk(s, n, Ind);
    case DindAt(_) => assert ZoneOk(s, n, Dind);
    case Leaf(i, _) => assert ZoneOk(s, n, DindAt(i));
    case _ =>
  }

  lemma PlaceMarked(s: Fs, n: nat, p: Path)
    requires Sound(s) && Within(s, n, p)
    ensures At(s, n, p) != 0 ==> Marked(s, At(s, n, p))
  {
    hide Marked, Apart, At;
    assert ZoneOk(s, n, p);
  }

  lemma AllocatedRoots(s: Fs, n: nat, p: Path, z: Half, m: nat, q: Path)
    requires CanAllocate(s, n, p, z) && Within(s, m, q) && !InTable(q)
    ensures Within(Allocated(s, n, p, z), m, q)
    ensures At(Allocated(s, n, p, z), m, q) == if m == n && q == p then z else At(s, m, q)
  {
    hide Marked, SetBit, MapOf, BitIn, Covered;
  }

  // Nothing hangs from the new zone: it was zeroed.
  lemma AllocatedZero(s: Fs, n: nat, p: Path, z: Half, i: nat)
    requires Sound(s) && CanAllocate(s, n, p, z) && i < 512
    ensures Entry(Allocated(s, n, p, z), z, i) == 0
  {
    hide Marked, SetBit, MapOf, BitIn, Apart;
    ParentMarked(s, n, p);
    if InTable(p) { MarkedRange(s, Parent(s, n, p)); }
  }

  // One allocation changes exactly one place of one inode's tree.
  lemma AllocatedAt(s: Fs, n: nat, p: Path, z: Half, m: nat, q: Path)
    requires Sound(s) && CanAllocate(s, n, p, z) && Within(s, m, q)
    ensures Within(Allocated(s, n, p, z), m, q)
    ensures At(Allocated(s, n, p, z), m, q) == if m == n && q == p then z else At(s, m, q)
  {
    hide Marked, Allocated, Entry, CanAllocate, Sound;
    AllocatedSame(s, n, p, z, m);
    match q
    case Direct(_) => AllocatedRoots(s, n, p, z, m, q);
    case Ind => AllocatedRoots(s, n, p, z, m, q);
    case Dind => AllocatedRoots(s, n, p, z, m, q);
    case IndAt(i) =>
      AllocatedRoots(s, n, p, z, m, Ind);
      AllocatedChild(s, n, p, z, m, Ind, q, i);
    case DindAt(i) =>
      AllocatedRoots(s, n, p, z, m, Dind);
      AllocatedChild(s, n, p, z, m, Dind, q, i);
    case Leaf(i, j) =>
      AllocatedRoots(s, n, p, z, m, Dind);
      AllocatedChild(s, n, p, z, m, Dind, DindAt(i), i);
      AllocatedChild(s, n, p, z, m, DindAt(i), q, j);
  }

  lemma AllocatedSame(s: Fs, n: nat, p: Path, z: Half, m: nat)
    requires CanAllocate(s, n, p, z)
    ensures |Allocated(s, n, p, z).inodes| == |s.inodes| && |Allocated(s, n, p, z).disk| == |s.disk| && Allocated(s, n, p, z).first == s.first
  {
    hide Marked, SetBit, MapOf, BitIn;
  }

  // The entry i of the table at place up, which is place q.
  predicate ChildOf(up: Path, q: Path, i: nat) {
    || (up.Ind? && q == IndAt(i)) || (up.Dind? && q == DindAt(i)) || (up.DindAt? && q == Leaf(up.i, i))
  }

  lemma AllocatedChild(s: Fs, n: nat, p: Path, z: Half, m: nat, up: Path, q: Path, i: nat)
    requires Sound(s) && CanAllocate(s, n, p, z) && Within(s, m, q) && Within(s, m, up) && ChildOf(up, q, i)
    requires m < |Allocated(s, n, p, z).inodes|
    requires At(Allocated(s, n, p, z), m, up) == if m == n && up == p then z else At(s, m, up)
    ensures At(Allocated(s, n, p, z), m, q) == if m == n && q == p then z else At(s, m, q)
  {
    hide Marked, Allocated, Entry, Apart;
    var t := At(s, m, up);
    ChildEntry(s, m, up, q, i);
    ChildEntry(Allocated(s, n, p, z), m, up, q, i);
    EntryZero(s, i);
    if m == n && up == p {
      AllocatedZero(s, n, p, z, i);
    } else {
      PlaceMarked(s, m, up);
      AllocatedEntry(s, n, p, z, t, i);
      EntryZero(Allocated(s, n, p, z), i);
      if InTable(p) { SameTable(s, n, p, m, up, q, i); }
    }
  }

  lemma EntryZero(s: Fs, i: nat)
    requires i < 512
    ensures Entry(s, 0, i) == 0
  {
  }

  lemma ChildEntry(s: Fs, m: nat, up: Path, q: Path, i: nat)
    requires Within(s, m, q) && Within(s, m, up) && ChildOf(up, q, i)
    ensures i < 512 && At(s, m, q) == Entry(s, At(s, m, up), i)
  {
  }

  // Two places in one table entry are one place.
  lemma SameTable(s: Fs, n: nat, p: Path, m: nat, up: Path, q: Path, i: nat)
    requires Sound(s) && Within(s, n, p) && InTable(p) && Parent(s, n, p) != 0
    requires Within(s, m, q) && Within(s, m, up) && ChildOf(up, q, i)
    ensures At(s, m, up) == Parent(s, n, p) && i == Index(p) ==> m == n && q == p
  {
    hide Marked, At, ZoneOk;
    var above := match p case IndAt(_) => Ind case DindAt(_) => Dind case Leaf(k, _) => DindAt(k) case _ => Ind;
    assert Parent(s, n, p) == At(s, n, above);
    assert Apart(s, n, above, m, up);
  }

  // The whole tree stays sound.
  lemma AllocatedSound(s: Fs, n: nat, p: Path, z: Half)
    requires Sound(s) && CanAllocate(s, n, p, z)
    ensures Sound(Allocated(s, n, p, z))
  {
    hide Marked, Allocated, At;
    var t := Allocated(s, n, p, z);
    AllocatedSame(s, n, p, z, n);
    forall m, q | Within(t, m, q) ensures ZoneOk(t, m, q) {
      AllocatedAt(s, n, p, z, m, q);
      AllocatedMarks(s, n, p, z, At(t, m, q));
      PlaceMarked(s, m, q);
    }
    forall m, q, l, r | Within(t, m, q) && Within(t, l, r) ensures Apart(t, m, q, l, r) {
      AllocatedAt(s, n, p, z, m, q);
      AllocatedAt(s, n, p, z, l, r);
      PlaceMarked(s, m, q);
      PlaceMarked(s, l, r);
      assert Apart(s, m, q, l, r);
    }
  }

  lemma AllocatedMarks(s: Fs, n: nat, p: Path, z: Half, x: nat)
    requires CanAllocate(s, n, p, z)
    ensures Marked(Allocated(s, n, p, z), x) == (Marked(s, x) || x == z)
  {
    hide SetBit, MapOf, BitIn, BitOf;
    MarkOne(s, z, x);
  }

  // ---- one step of _bmap ----

  ghost predicate Full(s: Fs) {
    forall z: nat | Covered(s, z) :: Marked(s, z)
  }

  predicate DataKept(s: Fs, t: Fs, m: nat, b: nat)
    requires m < |s.inodes| && b < BLOCKS
  {
    var z := Bmap(s, m, b);
    0 < z < |s.disk| ==> z < |t.disk| && t.disk[z] == s.disk[z]
  }

  predicate PlaceKept(s: Fs, t: Fs, m: nat, q: Path)
    requires Within(s, m, q)
  {
    Within(t, m, q) && At(t, m, q) == At(s, m, q)
  }

  // From s to t at most inode n's place p was filled, with a fresh zeroed zone;
  // it is still empty only when no zone is free.
  ghost predicate Extends(s: Fs, t: Fs, n: nat, p: Path)
    requires Within(s, n, p)
  {
    && Sound(t) && |t.inodes| == |s.inodes| && |t.disk| == |s.disk| && t.first == s.first && |t.zmap| == |s.zmap|
    && Within(t, n, p) && (At(s, n, p) != 0 ==> t == s)
    && (forall m, q | Within(s, m, q) && !(m == n && q == p) :: PlaceKept(s, t, m, q))
    && (forall m, b | 0 <= m < |s.inodes| && 0 <= b < BLOCKS :: DataKept(s, t, m, b))
    && (At(t, n, p) == 0 ==> t == s && Full(s))
    && (At(s, n, p) == 0 && At(t, n, p) != 0 ==> !Marked(s, At(t, n, p)) && t.disk[At(t, n, p)] == Zero())
    && (forall x | Marked(s, x) :: Marked(t, x))
  }

  lemma ExtendsSame(s: Fs, n: nat, p: Path)
    requires Sound(s) && Within(s, n, p) && (At(s, n, p) != 0 || Full(s))
    ensures Extends(s, s, n, p)
  {
    hide Marked, At, Covered;
    PlaceMarked(s, n, p);
  }

  lemma ExtendsAllocated(s: Fs, n: nat, p: Path, z: Half)
    requires Sound(s) && CanAllocate(s, n, p, z)
    ensures Extends(s, Allocated(s, n, p, z), n, p)
  {
    hide Marked, At, Allocated, DataKept, Zero;
    var t := Allocated(s, n, p, z);
    AllocatedSame(s, n, p, z, n);
    AllocatedMaps(s, n, p, z);
    AllocatedSound(s, n, p, z);
    AllocatedAt(s, n, p, z, n, p);
    AllocatedBlank(s, n, p, z);
    forall m, q | Within(s, m, q) && !(m == n && q == p) ensures PlaceKept(s, t, m, q) {
      AllocatedSame(s, n, p, z, m);
      AllocatedAt(s, n, p, z, m, q);
    }
    forall m, b | 0 <= m < |s.inodes| && 0 <= b < BLOCKS ensures DataKept(s, t, m, b) {
      AllocatedData(s, n, p, z, m, b);
    }
    forall x | Marked(s, x) ensures Marked(t, x) {
      AllocatedMarks(s, n, p, z, x);
    }
  }

  lemma AllocatedMaps(s: Fs, n: nat, p: Path, z: Half)
    requires Sound(s) && CanAllocate(s, n, p, z)
    ensures |Allocated(s, n, p, z).zmap| == |s.zmap| && 0 < z
  {
    hide Marked, SetBit, BitIn;
  }

  lemma AllocatedBlank(s: Fs, n: nat, p: Path, z: Half)
    requires Sound(s) && CanAllocate(s, n, p, z)
    ensures 0 < z < |s.disk| && z < |Allocated(s, n, p, z).disk| && Allocated(s, n, p, z).disk[z] == Zero()
  {
    hide Marked, SetBit, MapOf, BitIn, Apart;
    ParentMarked(s, n, p);
    if InTable(p) { MarkedRange(s, Parent(s, n, p)); }
    if p.Leaf? {
      assert ZoneOk(s, n, Dind);
      if At(s, n, Dind) != 0 { MarkedRange(s, At(s, n, Dind)); }
    }
  }

  // Data blocks are neither tables nor fresh.
  lemma AllocatedData(s: Fs, n: nat, p: Path, z: Half, m: nat, b: nat)
    requires Sound(s) && CanAllocate(s, n, p, z) && m < |s.inodes| && b < BLOCKS
    ensures DataKept(s, Allocated(s, n, p, z), m, b)
  {
    hide Marked, SetBit, MapOf, BitIn;
    var x := Bmap(s, m, b);
    PlaceMarked(s, m, Place(b));
    if x != 0 {
      MarkedRange(s, x);
      if InTable(p) {
        NotATable(s, n, p, m, b);
        if p.Leaf? {
          PlaceMarked(s, n, Dind);
          if At(s, n, Dind) != 0 { MarkedRange(s, At(s, n, Dind)); }
        }
      }
    }
  }

  lemma NotATable(s: Fs, n: nat, p: Path, m: nat, b: nat)
    requires Sound(s) && Within(s, n, p) && InTable(p) && m < |s.inodes| && b < BLOCKS && Bmap(s, m, b) != 0
    ensures Bmap(s, m, b) != Parent(s, n, p)
  {
    hide Marked, ZoneOk;
    var above := match p case IndAt(_) => Ind case DindAt(_) => Dind case Leaf(k, _) => DindAt(k) case _ => Ind;
    assert Apart(s, m, Place(b), n, above);
  }

  // From s to t nothing but inode n's block `block` was mapped, and no block
  // in use lost its contents.
  ghost predicate Grew(s: Fs, t: Fs, n: nat, block: nat) {
    && Sound(t) && |t.inodes| == |s.inodes| && |t.disk| == |s.disk| && n < |s.inodes| && block < BLOCKS
    && (forall m, b | 0 <= m < |s.inodes| && 0 <= b < BLOCKS :: DataKept(s, t, m, b))
    && (forall m, b | 0 <= m < |s.inodes| && 0 <= b < BLOCKS && !(m == n && b == block) :: Bmap(t, m, b) == Bmap(s, m, b))
    && (forall x | Marked(s, x) :: Marked(t, x))
  }

  lemma GrewSame(s: Fs, n: nat, block: nat)
    requires Sound(s) && n < |s.inodes| && block < BLOCKS
    ensures Grew(s, s, n, block)
  {
    hide Marked, At, Sound, Place;
  }

  // Only interior places and the block's own are filled on its way.
  predicate OnTheWay(p: Path, block: nat)
    requires block < BLOCKS
  {
    p == Place(block) || p.Ind? || p.Dind? || p.DindAt?
  }

  lemma GrewStep(s: Fs, t: Fs, u: Fs, n: nat, block: nat, p: Path)
    requires Grew(s, t, n, block) && Within(t, n, p) && OnTheWay(p, block) && Extends(t, u, n, p)
    requires Bmap(t, n, block) == Bmap(s, n, block)
    ensures Grew(s, u, n, block)
    ensures p != Place(block) ==> Bmap(u, n, block) == Bmap(s, n, block)
  {
    hide Marked, At, Covered, Sound, Full, Zero, Place;
    forall m, b | 0 <= m < |s.inodes| && 0 <= b < BLOCKS
      ensures DataKept(s, u, m, b) && (!(m == n && Place(b) == p) ==> Bmap(u, m, b) == Bmap(t, m, b))
    {
      assert DataKept(s, t, m, b) && DataKept(t, u, m, b);
      if !(m == n && Place(b) == p) { assert PlaceKept(t, u, m, Place(b)); }
      DataThen(s, t, u, m, b, n, block);
    }
    forall b | 0 <= b < BLOCKS && b != block ensures Place(b) != p {
      DataPlace(b);
      if Place(b) == Place(block) { PlaceInjective(b, block); }
    }
  }

  lemma DataPlace(b: nat)
    requires b < BLOCKS
    ensures !Place(b).Ind? && !Place(b).Dind? && !Place(b).DindAt?
  {
  }

  lemma DataThen(s: Fs, t: Fs, u: Fs, m: nat, b: nat, n: nat, block: nat)
    requires m < |s.inodes| == |t.inodes| && b < BLOCKS && |s.disk| == |t.disk| && DataKept(s, t, m, b) && DataKept(t, u, m, b)
    requires !(m == n && b == block) ==> Bmap(t, m, b) == Bmap(s, m, b)
    requires m == n && b == block ==> Bmap(t, n, block) == Bmap(s, n, block)
    ensures DataKept(s, u, m, b)
  {
  }

  // ---- freeing ----

  predicate HoldsAt(s: Fs, t: nat, x: nat, i: nat) {
    i < 512 && x != 0 && Entry(s, t, i) == x
  }

  predicate Holds(s: Fs, t: nat, x: nat) {
    exists i | 0 <= i < 512 :: HoldsAt(s, t, x, i)
  }

  predicate Valid(s: Fs, z: nat) {
    s.first <= z < |s.disk|
  }

  // What free_ind frees: a valid table and its entries.
  predicate UnderInd(s: Fs, t: nat, x: nat) {
    Valid(s, t) && (x == t || Holds(s, t, x))
  }

  predicate UnderDindAt(s: Fs, t: nat, x: nat, i: nat) {
    i < 512 && Entry(s, t, i) != 0 && UnderInd(s, Entry(s, t, i), x)
  }

  predicate UnderDind(s: Fs, t: nat, x: nat) {
    Valid(s, t) && (x == t || exists i | 0 <= i < 512 :: UnderDindAt(s, t, x, i))
  }

  predicate OwnedAt(s: Fs, n: nat, p: Path, x: nat) {
    Within(s, n, p) && x != 0 && At(s, n, p) == x
  }

  // Zone x is somewhere in inode n's tree, tables included.
  ghost predicate Owned(s: Fs, n: nat, x: nat) {
    exists p :: OwnedAt(s, n, p, x)
  }

  lemma OwnedBy(s: Fs, n: nat, p: Path, x: nat)
    requires OwnedAt(s, n, p, x)
    ensures Owned(s, n, x)
  {
  }

  // t is s with some bitmap bits cleared.
  ghost predicate SameButBits(s: Fs, t: Fs) {
    t.(zmap := s.zmap) == s && |t.zmap| == |s.zmap|
  }

  // truncate's frees, put together, are the inode's tree.
  lemma TreeIsOwned(s: Fs, n: nat, x: nat)
    requires Sound(s) && n < |s.inodes|
    ensures var z := s.inodes[n].zones;
            Owned(s, n, x) <==> ((exists i | 0 <= i < 7 :: z[i] == x && x != 0) || UnderInd(s, z[7], x) || UnderDind(s, z[8], x))
  {
    hide Marked, Apart;
    if Owned(s, n, x) {
      var p :| OwnedAt(s, n, p, x);
      OwnedDown(s, n, p, x);
    }
    OwnedUp(s, n, x);
  }

  lemma RangeOf(s: Fs, n: nat, p: Path)
    requires Sound(s) && Within(s, n, p) && At(s, n, p) != 0
    ensures Valid(s, At(s, n, p))
  {
    hide Apart, At;
    assert ZoneOk(s, n, p);
  }

  lemma OwnedDown(s: Fs, n: nat, p: Path, x: nat)
    requires Sound(s) && OwnedAt(s, n, p, x)
    ensures var z := s.inodes[n].zones;
            (exists i | 0 <= i < 7 :: z[i] == x && x != 0) || UnderInd(s, z[7], x) || UnderDind(s, z[8], x)
  {
    hide Marked, Apart, ZoneOk;
    var z := s.inodes[n].zones;
    match p
    case Direct(i) => assert z[i] == x;
    case Ind => RangeOf(s, n, Ind);
    case Dind => RangeOf(s, n, Dind);
    case IndAt(i) =>
      RangeOf(s, n, Ind);
      assert HoldsAt(s, z[7], x, i);
    case DindAt(i) =>
      RangeOf(s, n, Dind);
      RangeOf(s, n, p);
      assert UnderDindAt(s, z[8], x, i);
    case Leaf(i, j) =>
      RangeOf(s, n, Dind);
      RangeOf(s, n, DindAt(i));
      assert HoldsAt(s, Entry(s, z[8], i), x, j);
      assert UnderDindAt(s, z[8], x, i);
  }

  lemma OwnedUp(s: Fs, n: nat, x: nat)
    requires Sound(s) && n < |s.inodes|
    ensures var z := s.inodes[n].zones;
            (exists i | 0 <= i < 7 :: z[i] == x && x != 0) || UnderInd(s, z[7], x) || UnderDind(s, z[8], x) ==> Owned(s, n, x)
  {
    hide Marked, Apart, ZoneOk;
    var z := s.inodes[n].zones;
    if i :| 0 <= i < 7 && z[i] == x && x != 0 {
      OwnedBy(s, n, Direct(i), x);
    }
    if UnderInd(s, z[7], x) {
      if x == z[7] {
        OwnedBy(s, n, Ind, x);
      } else {
        var i :| 0 <= i < 512 && HoldsAt(s, z[7], x, i);
        OwnedBy(s, n, IndAt(i), x);
      }
    }
    if UnderDind(s, z[8], x) {
      if x == z[8] {
        OwnedBy(s, n, Dind, x);
      } else {
        var i :| 0 <= i < 512 && UnderDindAt(s, z[8], x, i);
        if x == Entry(s, z[8], i) {
          OwnedBy(s, n, DindAt(i), x);
        } else {
          var j :| 0 <= j < 512 && HoldsAt(s, Entry(s, z[8], i), x, j);
          OwnedBy(s, n, Leaf(i, j), x);
        }
      }
    }
  }

  function Emptied(s: Fs, n: nat): Fs
    requires n < |s.inodes|
  {
    s.(inodes := s.inodes[n := Inode(s.inodes[n].file, NoZones())])
  }

  function NoZones(): Zones {
    seq(9, _ => 0)
  }

  // With the tree's bits cleared and the inode emptied, all is sound again.
  lemma EmptiedSound(s: Fs, t: Fs, n: nat)
    requires Sound(s) && n < |s.inodes| && SameButBits(s, t)
    requires forall x :: Marked(t, x) <==> Marked(s, x) && !Owned(s, n, x)
    ensures Sound(Emptied(t, n))
    ensures forall q | Within(s, n, q) :: At(Emptied(t, n), n, q) == 0
    ensures forall m, q | Within(s, m, q) && m != n :: At(Emptied(t, n), m, q) == At(s, m, q)
  {
    hide Marked, Owned;
    var u := Emptied(t, n);
    forall m, q | Within(s, m, q) ensures At(u, m, q) == if m == n then 0 else At(s, m, q) {
      EmptiedAt(s, t, n, m, q);
    }
    forall m, q | Within(u, m, q) ensures ZoneOk(u, m, q) {
      assert ZoneOk(s, m, q);
      if m != n && At(s, m, q) != 0 { NotOwned(s, n, m, q); }
      EmptiedMarks(t, n, At(u, m, q));
    }
    forall m, q, l, r | Within(u, m, q) && Within(u, l, r) ensures Apart(u, m, q, l, r) {
      assert Apart(s, m, q, l, r);
    }
  }

  lemma EmptiedMarks(t: Fs, n: nat, x: nat)
    requires n < |t.inodes|
    ensures Marked(Emptied(t, n), x) == Marked(t, x)
  {
  }

  lemma EmptiedAt(s: Fs, t: Fs, n: nat, m: nat, q: Path)
    requires n < |s.inodes| && SameButBits(s, t) && Within(s, m, q)
    ensures At(Emptied(t, n), m, q) == if m == n then 0 else At(s, m, q)
  {
    EntryZero(s, 0);
  }

  lemma NotOwned(s: Fs, n: nat, m: nat, q: Path)
    requires Sound(s) && n < |s.inodes| && Within(s, m, q) && m != n && At(s, m, q) != 0
    ensures !Owned(s, n, At(s, m, q))
  {
    hide Marked, ZoneOk;
    forall p | Within(s, n, p) ensures !OwnedAt(s, n, p, At(s, m, q)) {
      assert Apart(s, n, p, m, q);
    }
  }

  // ---- the file system's operations ----

  class FileSystem {
    const first: nat
    var zmap: seq<Bitmap>
    var disk: seq<Table>
    var inodes: seq<Inode>

    ghost function View(): Fs
      reads this
    {
      Fs(first, zmap, disk, inodes)
    }

    // The lowest free zone, marked and zeroed; 0 when there is none.
    method NewBlock() returns (z: nat)
      requires 0 < first && |disk| <= 0x1_0000
      modifies this`zmap, this`disk
      ensures z == 0 ==> View() == old(View()) && Full(View())
      ensures z != 0 ==> z < 0x1_0000 && Covered(old(View()), z) && !Marked(old(View()), z)
      ensures z != 0 ==> View() == Zeroed(SetMark(old(View()), z), z) && forall x | first <= x < z :: Marked(old(View()), x)
    {
      hide Mask, SetBit;
      z := first;
      while z < |disk|
        invariant first <= z && View() == old(View())
        invariant forall x | first <= x < z :: Marked(View(), x)
        decreases |disk| - z
      {
        var bit := z - first + 1;
        var index := bit / 8192;
        if index >= |zmap| { return 0; }
        bit := bit % 8192;
        if zmap[index][bit / 8] & Mask(bit % 8) == 0 {
          zmap := zmap[index := SetBit(zmap[index], bit)];
          disk := disk[z := Zero()];
          return;
        }
        z := z + 1;
      }
      z := 0;
    }

    method FreeBlock(z: nat)
      modifies this`zmap
      ensures View() == ClearMark(old(View()), z)
    {
      hide Mask, ClearBit;
      if z < first || z >= |disk| { return; }
      var bit := z - first + 1;
      var index := bit / 8192;
      bit := bit % 8192;
      if index >= |zmap| { return; }
      zmap := zmap[index := ClearBit(zmap[index], bit)];
    }

    method ValidZone(z: nat) returns (ok: bool)
      ensures ok == (z == 0 || Valid(View(), z))
    {
      ok := z == 0 || first <= z < |disk|;
    }

    // Fill one of the inode's own zones if it is empty.
    method EnsureZone(n: nat, i: nat, ghost p: Path)
      requires n < |inodes| && i < 9 && Sound(View()) && Within(View(), n, p)
      requires p == (if i < 7 then Direct(i) else if i == 7 then Ind else Dind)
      modifies this`zmap, this`disk, this`inodes
      ensures Extends(old(View()), View(), n, p) && inodes[n].zones[i] == At(View(), n, p)
    {
      hide Marked, Covered, SetBit, BitIn, MapOf, Extends, Sound, Full, Zero;
      SoundRange(View());
      if inodes[n].zones[i] == 0 {
        var z := NewBlock();
        if z != 0 {
          ExtendsAllocated(old(View()), n, p, z);
          inodes := inodes[n := Inode(inodes[n].file, inodes[n].zones[i := z])];
          return;
        }
      }
      ExtendsSame(View(), n, p);
    }

    lemma SoundRange(s: Fs)
      requires Sound(s)
      ensures 0 < s.first && |s.disk| <= 0x1_0000
    {
    }

    // Read table t's entry i, filling it first if it is empty and create is set.
    method EnsureEntry(n: nat, t: nat, i: nat, create: bool, ghost p: Path) returns (z: nat)
      requires n < |inodes| && i < 512 && Sound(View()) && Within(View(), n, p) && InTable(p) && Index(p) == i
      requires t == Parent(View(), n, p) != 0
      modifies this`zmap, this`disk
      ensures z == At(View(), n, p)
      ensures !create ==> View() == old(View())
      ensures create ==> Extends(old(View()), View(), n, p)
    {
      hide Marked, Covered, SetBit, BitIn, MapOf, Extends, Sound, Full, Zero;
      SoundRange(View());
      ParentMarked(View(), n, p);
      MarkedRange(View(), t);
      TableEntry(View(), n, p);
      z := disk[t][i];
      if create && z == 0 {
        z := NewBlock();
        if z != 0 {
          ghost var s := old(View());
          ExtendsAllocated(s, n, p, z);
          AllocatedAt(s, n, p, z, n, p);
          FreshTable(s, n, p, z);
          disk := disk[t := disk[t][i := z]];
          return;
        }
      }
      if create { ExtendsSame(View(), n, p); }
    }

    lemma TableEntry(s: Fs, n: nat, p: Path)
      requires Within(s, n, p) && InTable(p)
      ensures At(s, n, p) == Entry(s, Parent(s, n, p), Index(p))
    {
    }

    lemma FreshTable(s: Fs, n: nat, p: Path, z: Half)
      requires Sound(s) && CanAllocate(s, n, p, z) && InTable(p)
      ensures var t := Zeroed(SetMark(s, z), z);
              var k := Parent(s, n, p);
              0 < k < |s.disk| && Allocated(s, n, p, z) == t.(disk := t.disk[k := t.disk[k][Index(p) := z]])
    {
      hide Marked, SetBit, MapOf, BitIn, Apart;
      ParentMarked(s, n, p);
      MarkedRange(s, Parent(s, n, p));
      if p.Leaf? {
        assert ZoneOk(s, n, Dind);
        if At(s, n, Dind) != 0 { MarkedRange(s, At(s, n, Dind)); }
      }
    }

    // _bmap: the zone of a block, created on demand; -1 for a damaged tree.
    method MapBlock(n: nat, block: nat, create: bool) returns (r: int)
      requires n < |inodes| && block < BLOCKS && Sound(View())
      modifies this`zmap, this`disk, this`inodes
      ensures Sound(View()) && n < |inodes| && r == Bmap(View(), n, block)
      ensures !create ==> View() == old(View())
      ensures create ==> Grew(old(View()), View(), n, block)
      // a block that was mapped stays as it is; a new one reads as zeros
      ensures create && old(Bmap(View(), n, block)) != 0 ==> r == old(Bmap(View(), n, block))
      ensures create && old(Bmap(View(), n, block)) == 0 && r != 0 ==> !Marked(old(View()), r) && r < |disk| && disk[r] == Zero()
      ensures create && r == 0 ==> Full(View())
    {
      hide Marked, Covered, SetBit, BitIn, MapOf, Extends, Sound, Full, Zero, At, Grew, Parent;
      ghost var s := View();
      GrewSame(s, n, block);
      if block < 7 {
        if create {
          EnsureZone(n, block, Direct(block));
          Last(s, s, View(), n, block);
        }
        Roots(View(), n);
        r := Checked(n, Direct(block), inodes[n].zones[block]);
      } else if block < 7 + 512 {
        if create {
          EnsureZone(n, 7, Ind);
          GrewStep(s, s, View(), n, block, Ind);
          GrewFacts(s, View(), n, block);
          if inodes[n].zones[7] == 0 { EmptyFull(s, View(), n, Ind, true); }
        }
        Roots(View(), n);
        r := MapEntry(n, inodes[n].zones[7], block - 7, create, s, block);
      } else {
        if create {
          EnsureZone(n, 8, Dind);
          GrewStep(s, s, View(), n, block, Dind);
          GrewFacts(s, View(), n, block);
        }
        var i := (block - 519) / 512;
        ghost var t := View();
        var z := inodes[n].zones[8];
        Roots(t, n);
        if z == 0 {
          Childless(t, n, Dind, DindAt(i), i);
          Childless(t, n, DindAt(i), Place(block), (block - 519) % 512);
          EmptyFull(s, t, n, Dind, create);
          return 0;
        }
        RangeOf(t, n, Dind);
        z := EnsureEntry(n, z, i, create, DindAt(i));
        if create {
          GrewStep(s, t, View(), n, block, DindAt(i));
          GrewFacts(s, View(), n, block);
        }
        Roots(View(), n);
        if z == 0 {
          Childless(View(), n, DindAt(i), Place(block), (block - 519) % 512);
          EmptyFull(t, View(), n, DindAt(i), create);
          return 0;
        }
        r := MapEntry(n, z, (block - 519) % 512, create, s, block);
      }
    }

    // The last table on the way, and the block's entry in it.
    method MapEntry(n: nat, t: nat, i: nat, create: bool, ghost s: Fs, block: nat) returns (r: int)
      requires n < |inodes| && block < BLOCKS && Sound(View()) && InTable(Place(block)) && Index(Place(block)) == i && i < 512
      requires t == Parent(View(), n, Place(block))
      requires create ==> Grew(s, View(), n, block) && Bmap(View(), n, block) == Bmap(s, n, block)
      requires create && t == 0 ==> Full(View())
      modifies this`zmap, this`disk
      ensures Sound(View()) && r == Bmap(View(), n, block)
      ensures !create ==> View() == old(View())
      ensures create ==> Grew(s, View(), n, block)
      ensures create && Bmap(s, n, block) != 0 ==> r == Bmap(s, n, block)
      ensures create && Bmap(s, n, block) == 0 && r != 0 ==> !Marked(s, r) && r < |disk| && disk[r] == Zero()
      ensures create && r == 0 ==> Full(View())
    {
      hide Marked, Covered, SetBit, BitIn, MapOf, Extends, Sound, Full, Zero, At, Grew, Parent;
      var z := t;
      if t == 0 {
        NoEntry(View(), n, block);
        return 0;
      }
      z := EnsureEntry(n, t, i, create, Place(block));
      if create { Last(s, old(View()), View(), n, block); }
      r := Checked(n, Place(block), z);
    }

    // valid_zone on a place of a sound tree never fails.
    method Checked(n: nat, ghost p: Path, z: nat) returns (r: int)
      requires Sound(View()) && Within(View(), n, p) && z == At(View(), n, p)
      ensures r == z
    {
      hide Marked, Apart, At;
      if z != 0 { RangeOf(View(), n, p); }
      var ok := ValidZone(z);
      r := if ok then z else -1;
    }

    lemma GrewFacts(s: Fs, t: Fs, n: nat, block: nat)
      requires Grew(s, t, n, block)
      ensures Sound(t) && n < |t.inodes|
    {
    }

    lemma Roots(s: Fs, n: nat)
      requires n < |s.inodes|
      ensures At(s, n, Ind) == s.inodes[n].zones[7] && At(s, n, Dind) == s.inodes[n].zones[8]
      ensures forall i | 0 <= i < 7 :: At(s, n, Direct(i)) == s.inodes[n].zones[i]
      ensures forall b | 7 <= b < 519 :: InTable(Place(b)) && Index(Place(b)) == b - 7
      ensures forall b | 519 <= b < BLOCKS :: InTable(Place(b)) && Index(Place(b)) == (b - 519) % 512
      ensures forall b | 7 <= b < 519 :: Parent(s, n, Place(b)) == s.inodes[n].zones[7]
      ensures forall b | 519 <= b < BLOCKS :: Parent(s, n, Place(b)) == At(s, n, DindAt((b - 519) / 512))
      ensures forall i | 0 <= i < 512 :: Parent(s, n, DindAt(i)) == s.inodes[n].zones[8]
    {
    }

    lemma Childless(s: Fs, n: nat, up: Path, q: Path, i: nat)
      requires Within(s, n, up) && Within(s, n, q) && ChildOf(up, q, i) && At(s, n, up) == 0
      ensures At(s, n, q) == 0
    {
    }

    lemma NoEntry(s: Fs, n: nat, block: nat)
      requires n < |s.inodes| && block < BLOCKS && InTable(Place(block)) && Parent(s, n, Place(block)) == 0
      ensures Bmap(s, n, block) == 0
    {
    }

    lemma EmptyFull(s: Fs, t: Fs, n: nat, p: Path, create: bool)
      requires create ==> Within(s, n, p) && Extends(s, t, n, p) && At(t, n, p) == 0
      ensures create ==> Full(t)
    {
      hide Sound, Marked, Covered, Full;
    }

    // The block's own place filled last.
    lemma Last(s: Fs, t: Fs, u: Fs, n: nat, block: nat)
      requires Grew(s, t, n, block) && n < |t.inodes| && Extends(t, u, n, Place(block)) && Bmap(t, n, block) == Bmap(s, n, block)
      ensures Grew(s, u, n, block) && n < |u.inodes| && Sound(u)
      ensures Bmap(s, n, block) != 0 ==> Bmap(u, n, block) == Bmap(s, n, block)
      ensures var r := Bmap(u, n, block);
              && (Bmap(s, n, block) == 0 && r != 0 ==> !Marked(s, r) && r < |u.disk| && u.disk[r] == Zero())
              && (r == 0 ==> Full(u))
    {
      hide Sound, Marked, Covered, Full, At, Zero, Place, OnTheWay;
      assert OnTheWay(Place(block), block) by { Own(block); }
      GrewStep(s, t, u, n, block, Place(block));
      if Bmap(u, n, block) != 0 { InRange(u, n, block); }
    }

    lemma Own(block: nat)
      requires block < BLOCKS
      ensures OnTheWay(Place(block), block)
    {
    }

    lemma InRange(s: Fs, n: nat, block: nat)
      requires Sound(s) && n < |s.inodes| && block < BLOCKS && Bmap(s, n, block) != 0
      ensures Bmap(s, n, block) < |s.disk|
    {
      hide Marked, Apart, At;
      RangeOf(s, n, Place(block));
    }

    // ---- truncate ----

    // Clear the bits of z and of the entries of the table in it.
    method FreeInd(z: nat)
      requires 0 < first
      modifies this`zmap
      ensures SameButBits(old(View()), View())
      ensures forall x | 0 <= x :: Marked(View(), x) <==> Marked(old(View()), x) && !UnderInd(old(View()), z, x)
    {
      hide Marked, ClearMark, HoldsAt, Entry;
      if z < first || z >= |disk| { return; }
      ghost var s := View();
      var i := 0;
      while i < 512
        invariant 0 <= i <= 512 && SameButBits(s, View())
        invariant forall x | 0 <= x :: Marked(View(), x) <==> Marked(s, x) && !HoldsBefore(s, z, x, i)
      {
        ghost var u := View();
        EntryOf(s, z, i);
        if disk[z][i] != 0 {
          FreeBlock(disk[z][i]);
          Cleared(u, disk[z][i]);
        }
        OneMore(s, z, i);
        i := i + 1;
      }
      ghost var u := View();
      FreeBlock(z);
      Cleared(u, z);
      AllHeld(s, z);
    }

    method FreeDind(z: nat)
      requires 0 < first
      modifies this`zmap
      ensures SameButBits(old(View()), View())
      ensures forall x | 0 <= x :: Marked(View(), x) <==> Marked(old(View()), x) && !UnderDind(old(View()), z, x)
    {
      hide Marked, ClearMark, UnderInd, Entry;
      if z < first || z >= |disk| { return; }
      ghost var s := View();
      var i := 0;
      while i < 512
        invariant 0 <= i <= 512 && SameButBits(s, View())
        invariant forall x | 0 <= x :: Marked(View(), x) <==> Marked(s, x) && !DindBefore(s, z, x, i)
      {
        ghost var u := View();
        EntryOf(s, z, i);
        if disk[z][i] != 0 {
          FreeInd(disk[z][i]);
          UnderSame(s, u, disk[z][i]);
        }
        OneMoreDind(s, z, i);
        i := i + 1;
      }
      ghost var u := View();
      FreeBlock(z);
      Cleared(u, z);
      AllDind(s, z);
    }

    // Exactly the inode's tree is given back, tables included.
    method Truncate(n: nat)
      requires n < |inodes| && Sound(View())
      modifies this`zmap, this`inodes
      ensures !old(inodes[n]).file ==> View() == old(View())
      ensures Sound(View()) && |inodes| == |old(inodes)| && disk == old(disk)
      ensures old(inodes[n]).file ==>
                forall x | 0 <= x :: Marked(View(), x) <==> Marked(old(View()), x) && !Owned(old(View()), n, x)
      ensures old(inodes[n]).file ==> forall q | Within(old(View()), n, q) :: At(View(), n, q) == 0
      ensures forall m, q | Within(old(View()), m, q) && m != n :: At(View(), m, q) == At(old(View()), m, q)
    {
      hide Marked, ClearMark, UnderInd, UnderDind, Entry, At, Sound, Owned;
      if !inodes[n].file { return; }
      ghost var s := View();
      SoundRange(s);
      assert s.inodes == s.inodes[n := s.inodes[n]] && ZonesFrom(s.inodes[n].zones, 0) == s.inodes[n].zones;
      var i := 0;
      while i < 7
        invariant 0 <= i <= 7 && |inodes| == |s.inodes| && inodes == s.inodes[n := Inode(true, ZonesFrom(s.inodes[n].zones, i))]
        invariant disk == s.disk && |zmap| == |s.zmap|
        invariant forall x | 0 <= x :: Marked(View(), x) <==> Marked(s, x) && !exists k | 0 <= k < i :: s.inodes[n].zones[k] == x && x != 0
      {
        if inodes[n].zones[i] != 0 {
          ghost var u := View();
          FreeBlock(inodes[n].zones[i]);
          Cleared(u, inodes[n].zones[i]);
          ghost var v := View();
          inodes := inodes[n := Inode(inodes[n].file, inodes[n].zones[i := 0])];
          InodesIgnored(v, View());
        }
        assert ZonesFrom(s.inodes[n].zones, i + 1) == ZonesFrom(s.inodes[n].zones, i)[i := 0];
        assert inodes[n].zones == ZonesFrom(s.inodes[n].zones, i + 1);
        assert inodes == s.inodes[n := inodes[n]];
        i := i + 1;
      }
      ghost var u := View();
      FreeInd(inodes[n].zones[7]);
      UnderSame(s, u, inodes[n].zones[7]);
      ghost var v := View();
      FreeDind(inodes[n].zones[8]);
      UnderSame(s, v, inodes[n].zones[8]);
      ghost var w := View();
      inodes := inodes[n := Inode(inodes[n].file, inodes[n].zones[7 := 0][8 := 0])];
      assert ZonesFrom(s.inodes[n].zones, 7)[7 := 0][8 := 0] == NoZones();
      InodesIgnored(w, View());
      FinishTruncate(s, w, n);
      assert View() == Emptied(s.(zmap := zmap), n);
    }
  }

  // The zone list with the first i entries cleared.
  function ZonesFrom(z: Zones, i: nat): Zones
    requires i <= 9
  {
    seq(9, k requires 0 <= k < 9 => if k < i then 0 else z[k])
  }

  predicate HoldsBefore(s: Fs, t: nat, x: nat, n: nat) {
    exists i | 0 <= i < n :: HoldsAt(s, t, x, i)
  }

  predicate DindBefore(s: Fs, t: nat, x: nat, n: nat) {
    exists i | 0 <= i < n :: UnderDindAt(s, t, x, i)
  }

  lemma EntryOf(s: Fs, z: nat, i: nat)
    requires 0 < s.first <= z < |s.disk| && i < 512
    ensures Entry(s, z, i) == s.disk[z][i]
  {
  }

  lemma Cleared(s: Fs, z: nat)
    ensures SameButBits(s, ClearMark(s, z))
    ensures forall x | 0 <= x :: Marked(ClearMark(s, z), x) == (Marked(s, x) && x != z)
  {
    hide Marked, ClearBit, BitIn;
    forall x | 0 <= x ensures Marked(ClearMark(s, z), x) == (Marked(s, x) && x != z) {
      MarkOne(s, z, x);
    }
  }

  lemma OneMore(s: Fs, t: nat, i: nat)
    requires i < 512
    ensures forall x | 0 <= x :: HoldsBefore(s, t, x, i + 1) <==> HoldsBefore(s, t, x, i) || (x != 0 && Entry(s, t, i) == x)
  {
    hide Entry;
    forall x: nat ensures HoldsBefore(s, t, x, i + 1) <==> HoldsBefore(s, t, x, i) || (x != 0 && Entry(s, t, i) == x) {
      if x != 0 && Entry(s, t, i) == x { assert HoldsAt(s, t, x, i); }
    }
  }

  lemma OneMoreDind(s: Fs, t: nat, i: nat)
    requires i < 512
    ensures forall x | 0 <= x :: DindBefore(s, t, x, i + 1) <==> DindBefore(s, t, x, i) || UnderDindAt(s, t, x, i)
  {
    hide Entry, UnderInd;
  }

  lemma AllHeld(s: Fs, t: nat)
    ensures forall x | 0 <= x :: HoldsBefore(s, t, x, 512) == Holds(s, t, x)
  {
    hide HoldsAt;
  }

  lemma AllDind(s: Fs, t: nat)
    ensures Valid(s, t) ==> forall x | 0 <= x :: (DindBefore(s, t, x, 512) || x == t) == UnderDind(s, t, x)
  {
    hide UnderDindAt;
  }

  // What hangs from a zone does not depend on the bitmap or the inodes.
  lemma UnderSame(s: Fs, u: Fs, t: nat)
    requires u.disk == s.disk && u.first == s.first
    ensures forall x | 0 <= x :: UnderInd(u, t, x) == UnderInd(s, t, x)
    ensures forall x | 0 <= x :: UnderDind(u, t, x) == UnderDind(s, t, x)
  {
    forall x, i, t: nat ensures HoldsAt(u, t, x, i) == HoldsAt(s, t, x, i) {
    }
    forall x: nat, t: nat ensures UnderInd(u, t, x) == UnderInd(s, t, x) {
      UnderIndSame(s, u, t, x);
    }
    forall x: nat ensures UnderDind(u, t, x) == UnderDind(s, t, x) {
      UnderDindSame(s, u, t, x);
    }
  }

  lemma UnderIndSame(s: Fs, u: Fs, t: nat, x: nat)
    requires u.disk == s.disk && u.first == s.first
    ensures UnderInd(u, t, x) == UnderInd(s, t, x)
  {
    forall i | 0 <= i < 512 ensures HoldsAt(u, t, x, i) == HoldsAt(s, t, x, i) {
    }
  }

  lemma UnderDindSame(s: Fs, u: Fs, t: nat, x: nat)
    requires u.disk == s.disk && u.first == s.first
    ensures UnderDind(u, t, x) == UnderDind(s, t, x)
  {
    hide UnderInd;
    forall i | 0 <= i < 512 ensures UnderDindAt(u, t, x, i) == UnderDindAt(s, t, x, i) {
      UnderIndSame(s, u, Entry(s, t, i), x);
    }
  }

  lemma InodesIgnored(s: Fs, t: Fs)
    requires t == s.(inodes := t.inodes)
    ensures forall x | 0 <= x :: Marked(t, x) == Marked(s, x)
  {
  }

  // The zones truncate gives back.
  predicate FreedBy(s: Fs, z: Zones, x: nat) {
    (exists k | 0 <= k < 7 :: z[k] == x && x != 0) || UnderInd(s, z[7], x) || UnderDind(s, z[8], x)
  }

  // w has the direct zones', the table's and the double table's bits cleared.
  lemma FinishTruncate(s: Fs, w: Fs, n: nat)
    requires Sound(s) && n < |s.inodes| && w.disk == s.disk && w.first == s.first && |w.zmap| == |s.zmap|
    requires forall x | 0 <= x :: Marked(w, x) <==> Marked(s, x) && !FreedBy(s, s.inodes[n].zones, x)
    ensures var t := s.(zmap := w.zmap);
            && Sound(Emptied(t, n))
            && (forall x | 0 <= x :: Marked(Emptied(t, n), x) <==> Marked(s, x) && !Owned(s, n, x))
            && (forall q | Within(s, n, q) :: At(Emptied(t, n), n, q) == 0)
            && (forall m, q | Within(s, m, q) && m != n :: At(Emptied(t, n), m, q) == At(s, m, q))
  {
    hide Marked, UnderInd, UnderDind, Owned, At, Sound;
    var t := s.(zmap := w.zmap);
    InodesIgnored(w, t);
    forall x: nat ensures Marked(t, x) <==> Marked(s, x) && !Owned(s, n, x) {
      TreeIsOwned(s, n, x);
    }
    EmptiedSound(s, t, n);
    InodesIgnored(t, Emptied(t, n));
  }
}
