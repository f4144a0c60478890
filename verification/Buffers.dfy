// The buffer cache (fs/buffer.c) over the synchronous disk
// (kernel/blk_drv/symdisk.c, ll_rw_blk.c).  A buffer head is kept in two parallel
// sequences: what it holds (info) and how it is threaded (links).  Pointers are
// indices, and -1 is the null pointer.
module Buffers {
  import opened Words

  const NR_HASH := 307
  const MAJOR := 3
  const DISK := 0x300
  const BLOCKS := 0x8000
  const DISK_WORDS := 256 * BLOCKS

  type Data = d: seq<Byte> | |d| == 1024 witness seq(1024, _ => 0)
  type Number = n: nat | n < 0x8000_0000

  datatype Info = Info(dev: Word, block: Number, uptodate: bool, dirty: bool, count: Byte, data: Data)
  datatype Links = Links(prev: int, next: int, prevFree: int, nextFree: int)

  function HashOf(dev: Word, block: Number): (h: nat)
    ensures h < NR_HASH
  {
    BitOp(Xor, dev, block) % NR_HASH
  }

  // ---- the disk: big-endian words against the bytes of a block ----

  function WordOf(d: Data, k: nat): Word
    requires k < 256
  {
    Be32(d[4 * k], d[4 * k + 1], d[4 * k + 2], d[4 * k + 3])
  }

  function ByteOf(words: seq<Word>, b: nat, i: nat): Byte
    requires |words| == DISK_WORDS && b < BLOCKS && i < 1024
  {
    ByteAt(words[256 * b + i / 4], i % 4)
  }

  function BlockAt(words: seq<Word>, b: nat): Data
    requires |words| == DISK_WORDS && b < BLOCKS
  {
    seq(1024, i requires 0 <= i < 1024 => ByteOf(words, b, i))
  }

  lemma BytesBack(b0: Byte, b1: Byte, b2: Byte, b3: Byte)
    ensures ByteAt(Be32(b0, b1, b2, b3), 0) == b0 && ByteAt(Be32(b0, b1, b2, b3), 1) == b1
    ensures ByteAt(Be32(b0, b1, b2, b3), 2) == b2 && ByteAt(Be32(b0, b1, b2, b3), 3) == b3
  {
    var w := Be32(b0, b1, b2, b3);
    DivModUnique(w, 0x100_0000, b0, b1 * 0x1_0000 + b2 * 0x100 + b3);
    DivModUnique(w, 0x1_0000, b0 * 0x100 + b1, b2 * 0x100 + b3);
    DivModUnique(b0 * 0x100 + b1, 0x100, b0, b1);
    DivModUnique(w, 0x100, b0 * 0x1_0000 + b1 * 0x100 + b2, b3);
    DivModUnique(b0 * 0x1_0000 + b1 * 0x100 + b2, 0x100, b0 * 0x100 + b1, b2);
  }

  lemma WordBytes(d: Data, k: nat, m: nat)
    requires k < 256 && m < 4
    ensures ByteAt(WordOf(d, k), m) == d[4 * k + m]
  {
    hide ByteAt, Be32;
    BytesBack(d[4 * k], d[4 * k + 1], d[4 * k + 2], d[4 * k + 3]);
  }

  // words holds d in block b, and was elsewhere.
  predicate Wrote(was: seq<Word>, words: seq<Word>, b: nat, d: Data, n: nat)
    requires |was| == |words| == DISK_WORDS && b < BLOCKS && n <= 256
  {
    && (forall k :: 0 <= k < n ==> words[256 * b + k] == WordOf(d, k))
    && (forall j :: 0 <= j < DISK_WORDS && !(256 * b <= j < 256 * b + n) ==> words[j] == was[j])
  }

  // A block written is read back byte for byte, and no other block changes.
  lemma WroteBlock(was: seq<Word>, words: seq<Word>, b: nat, d: Data)
    requires |was| == |words| == DISK_WORDS && b < BLOCKS && Wrote(was, words, b, d, 256)
    ensures BlockAt(words, b) == d
    ensures forall c: nat :: c < BLOCKS && c != b ==> BlockAt(words, c) == BlockAt(was, c)
  {
    hide ByteAt, WordOf;
    forall i | 0 <= i < 1024 ensures ByteOf(words, b, i) == d[i] {
      var k := i / 4;
      assert words[256 * b + k] == WordOf(d, k);
      WordBytes(d, k, i % 4);
    }
    assert BlockAt(words, b) == d;
    forall c: nat | c < BLOCKS && c != b ensures BlockAt(words, c) == BlockAt(was, c) {
      forall i | 0 <= i < 1024 ensures ByteOf(words, c, i) == ByteOf(was, c, i) {
        var j := 256 * c + i / 4;
        assert !(256 * b <= j < 256 * b + 256);
        assert words[j] == was[j];
      }
    }
  }

  // ---- what the cache and the disk hold together ----

  // The requests disk_request accepts.
  predicate InRange(dev: int, block: int) {
    dev == DISK && 0 <= block < BLOCKS
  }

  predicate Key(info: seq<Info>, i: int, dev: int, block: int) {
    0 <= i < |info| && info[i].dev == dev && info[i].block == block
  }

  predicate Holds(info: seq<Info>, i: int, b: int) {
    Key(info, i, DISK, b) && info[i].uptodate
  }

  ghost function Current(info: seq<Info>, words: seq<Word>, b: nat): Data
    requires |words| == DISK_WORDS && b < BLOCKS
  {
    if exists i :: Holds(info, i, b) then
      var i :| Holds(info, i, b); info[i].data
    else BlockAt(words, b)
  }

  // The disk a user of the cache sees.
  ghost function View(info: seq<Info>, words: seq<Word>): (v: seq<Data>)
    requires |words| == DISK_WORDS
    ensures |v| == BLOCKS
    ensures forall b :: 0 <= b < BLOCKS ==> v[b] == Current(info, words, b)
  {
    seq(BLOCKS, b requires 0 <= b < BLOCKS => Current(info, words, b))
  }

  predicate SameKey(info: seq<Info>, i: int, j: int)
    requires 0 <= i < |info| && 0 <= j < |info|
  {
    info[i].dev != 0 && info[i].dev == info[j].dev && info[i].block == info[j].block
  }

  predicate Unique(info: seq<Info>) {
    forall i, j :: 0 <= i < |info| && 0 <= j < |info| && SameKey(info, i, j) ==> i == j
  }

  predicate Sane(a: Info) {
    (a.dev == 0 || a.dev / 256 == MAJOR) && (a.dirty ==> a.uptodate) && (a.uptodate ==> a.dev != 0)
  }

  predicate Fits(a: Info, words: seq<Word>)
    requires |words| == DISK_WORDS
  {
    a.uptodate && !a.dirty && InRange(a.dev, a.block) ==> a.data == BlockAt(words, a.block)
  }

  // Every buffer is sane, and a clean one equals the disk.
  predicate Coherent(info: seq<Info>, words: seq<Word>)
    requires |words| == DISK_WORDS
  {
    forall i :: 0 <= i < |info| ==> Sane(info[i]) && Fits(info[i], words)
  }

  lemma CurrentHeld(info: seq<Info>, words: seq<Word>, i: int, b: nat)
    requires |words| == DISK_WORDS && b < BLOCKS && Unique(info) && Holds(info, i, b)
    ensures Current(info, words, b) == info[i].data
  {
    hide BlockAt, Unique;
    var j :| Holds(info, j, b) && Current(info, words, b) == info[j].data;
    assert Holds(info, j, b);
    assert Key(info, j, DISK, b);
    Apart(info, i, j);
  }

  lemma UniqueKey(info: seq<Info>, i: nat, dev: Word, block: Number)
    requires Unique(info) && Key(info, i, dev, block) && dev != 0
    ensures forall j :: Key(info, j, dev, block) ==> j == i
  {
    forall j | Key(info, j, dev, block) ensures j == i {
      Apart(info, i, j);
    }
  }

  lemma Apart(info: seq<Info>, i: int, j: int)
    requires Unique(info) && 0 <= i < |info| && 0 <= j < |info| && info[i].dev != 0
    ensures info[i].dev == info[j].dev && info[i].block == info[j].block ==> i == j
  {
    if info[i].dev == info[j].dev && info[i].block == info[j].block {
      assert SameKey(info, i, j);
    }
  }

  // Changing one buffer, and the disk under its block at most, changes what is
  // seen of that block at most.
  lemma OnlyBlock(info: seq<Info>, words: seq<Word>, i: int, a: Info, words2: seq<Word>, b: nat)
    requires |words| == |words2| == DISK_WORDS && b < BLOCKS && 0 <= i < |info|
    requires Unique(info) && Unique(info[i := a]) && BlockAt(words, b) == BlockAt(words2, b)
    requires !Holds(info, i, b) && !Holds(info[i := a], i, b)
    ensures Current(info[i := a], words2, b) == Current(info, words, b)
  {
    hide BlockAt;
    var info2 := info[i := a];
    forall j ensures Holds(info2, j, b) == Holds(info, j, b) {
    }
    if j :| Holds(info, j, b) {
      CurrentHeld(info, words, j, b);
      CurrentHeld(info2, words2, j, b);
    }
  }

  lemma UniqueKept(info: seq<Info>, i: int, a: Info)
    requires 0 <= i < |info| && Unique(info)
    requires a.dev == info[i].dev && a.block == info[i].block
    ensures Unique(info[i := a])
  {
    var info2 := info[i := a];
    forall j, k | 0 <= j < |info2| && 0 <= k < |info2| && SameKey(info2, j, k) ensures j == k {
      assert SameKey(info, j, k);
    }
  }

  // A buffer's count does not matter to what is seen.
  lemma CountUnseen(info: seq<Info>, words: seq<Word>, i: int, n: Byte)
    requires |words| == DISK_WORDS && 0 <= i < |info| && Unique(info) && Coherent(info, words)
    ensures Unique(info[i := info[i].(count := n)]) && Coherent(info[i := info[i].(count := n)], words)
    ensures View(info[i := info[i].(count := n)], words) == View(info, words)
  {
    hide BlockAt;
    var a := info[i].(count := n);
    UniqueKept(info, i, a);
    forall b | 0 <= b < BLOCKS ensures Current(info[i := a], words, b) == Current(info, words, b) {
      if Holds(info, i, b) {
        assert Holds(info[i := a], i, b);
        CurrentHeld(info, words, i, b);
        CurrentHeld(info[i := a], words, i, b);
      } else {
        OnlyBlock(info, words, i, a, words, b);
      }
    }
  }

  predicate DiskAfter(words: seq<Word>, words2: seq<Word>, block: nat, d: Data)
    requires |words| == |words2| == DISK_WORDS && block < BLOCKS
  {
    && BlockAt(words2, block) == d
    && (forall c: nat :: c < BLOCKS && c != block ==> BlockAt(words2, c) == BlockAt(words, c))
  }

  // A write-back moves a buffer's data to the disk without changing what is seen.
  lemma WriteBackUnseen(info: seq<Info>, words: seq<Word>, i: int, words2: seq<Word>)
    requires |words| == |words2| == DISK_WORDS && 0 <= i < |info|
    requires Unique(info) && Coherent(info, words) && info[i].dirty
    requires if InRange(info[i].dev, info[i].block) then DiskAfter(words, words2, info[i].block, info[i].data) else words2 == words
    ensures Unique(info[i := Flushed(info[i])]) && Coherent(info[i := Flushed(info[i])], words2)
    ensures View(info[i := Flushed(info[i])], words2) == View(info, words)
  {
    hide BlockAt;
    var a := Flushed(info[i]);
    var info2 := info[i := a];
    UniqueKept(info, i, a);
    forall j | 0 <= j < |info2| ensures Sane(info2[j]) && Fits(info2[j], words2) {
      if j != i && info[j].uptodate && !info[j].dirty && InRange(info[j].dev, info[j].block) {
        Apart(info, i, j);
      }
    }
    forall b | 0 <= b < BLOCKS ensures Current(info2, words2, b) == Current(info, words, b) {
      if Holds(info, i, b) {
        assert Holds(info2, i, b);
        CurrentHeld(info, words, i, b);
        CurrentHeld(info2, words2, i, b);
      } else {
        OnlyBlock(info, words, i, a, words2, b);
      }
    }
  }

  // A clean buffer can be given to another block without changing what is seen.
  lemma EvictUnseen(info: seq<Info>, words: seq<Word>, i: int, dev: Word, block: Number)
    requires |words| == DISK_WORDS && 0 <= i < |info| && Unique(info) && Coherent(info, words)
    requires !info[i].dirty && dev / 256 == MAJOR && forall j :: !Key(info, j, dev, block)
    ensures Unique(info[i := Taken(info[i], dev, block)]) && Coherent(info[i := Taken(info[i], dev, block)], words)
    ensures View(info[i := Taken(info[i], dev, block)], words) == View(info, words)
  {
    hide BlockAt;
    var a := Taken(info[i], dev, block);
    var info2 := info[i := a];
    forall j, k | 0 <= j < |info2| && 0 <= k < |info2| && SameKey(info2, j, k) ensures j == k {
      assert Key(info, j, dev, block) == Key(info, k, dev, block) == false;
      if j != i && k != i {
        Apart(info, j, k);
      }
    }
    forall b | 0 <= b < BLOCKS ensures Current(info2, words, b) == Current(info, words, b) {
      if Holds(info, i, b) {
        CurrentHeld(info, words, i, b);
        assert Fits(info[i], words);
        forall j ensures !Holds(info2, j, b) {
          if 0 <= j < |info| {
            Apart(info, i, j);
          }
        }
      } else {
        OnlyBlock(info, words, i, a, words, b);
      }
    }
  }

  // Filling a stale buffer from the disk does not change what is seen.
  lemma ReadUnseen(info: seq<Info>, words: seq<Word>, i: int, a: Info)
    requires |words| == DISK_WORDS && 0 <= i < |info| && Unique(info) && Coherent(info, words)
    requires !info[i].uptodate && info[i].dev != 0 && a == Fetched(info[i], words)
    ensures Unique(info[i := a]) && Coherent(info[i := a], words)
    ensures View(info[i := a], words) == View(info, words)
  {
    hide BlockAt;
    var info2 := info[i := a];
    UniqueKept(info, i, a);
    forall b | 0 <= b < BLOCKS ensures Current(info2, words, b) == Current(info, words, b) {
      if Holds(info2, i, b) {
        CurrentHeld(info2, words, i, b);
        forall j ensures !Holds(info, j, b) {
          if 0 <= j < |info| {
            Apart(info, i, j);
          }
        }
      } else {
        OnlyBlock(info, words, i, a, words, b);
      }
    }
  }

  // New contents are seen at that block, and only there.
  lemma StoreSeen(info: seq<Info>, words: seq<Word>, i: int, d: Data)
    requires |words| == DISK_WORDS && 0 <= i < |info| && Unique(info) && Coherent(info, words) && info[i].dev != 0
    ensures Unique(info[i := Filled(info[i], d)]) && Coherent(info[i := Filled(info[i], d)], words)
    ensures View(info[i := Filled(info[i], d)], words) == Stored(View(info, words), info[i].dev, info[i].block, d)
  {
    hide BlockAt;
    var a := Filled(info[i], d);
    var info2 := info[i := a];
    UniqueKept(info, i, a);
    var v := Stored(View(info, words), info[i].dev, info[i].block, d);
    forall b | 0 <= b < BLOCKS ensures Current(info2, words, b) == v[b] {
      if Key(info, i, DISK, b) {
        assert Holds(info2, i, b);
        CurrentHeld(info2, words, i, b);
      } else {
        OnlyBlock(info, words, i, a, words, b);
      }
    }
  }

  // The plain disk after a write; a write outside it is lost.
  function Stored(v: seq<Data>, dev: int, block: int, d: Data): (r: seq<Data>)
    requires |v| == BLOCKS
    ensures |r| == BLOCKS
  {
    if InRange(dev, block) then v[block := d] else v
  }

  // ---- what the operations do to one buffer ----

  function Flushed(a: Info): Info {
    a.(dirty := false, uptodate := InRange(a.dev, a.block))
  }

  function Fetched(a: Info, words: seq<Word>): Info
    requires |words| == DISK_WORDS
  {
    if InRange(a.dev, a.block) then a.(dirty := false, uptodate := true, data := BlockAt(words, a.block))
    else a.(dirty := false, uptodate := false)
  }

  function Taken(a: Info, dev: Word, block: Number): Info {
    Info(dev, block, false, false, 1, a.data)
  }

  // The reference count is one byte.
  function Used(a: Info): Info {
    a.(count := (a.count + 1) % 256)
  }

  function Filled(a: Info, d: Data): Info {
    a.(dirty := true, uptodate := true, data := d)
  }

  function Synced(a: Info, dev: int): Info {
    if a.dev == dev && a.dirty then Flushed(a) else a
  }

  function SyncedAll(info: seq<Info>, dev: int): (r: seq<Info>)
    ensures |r| == |info|
    ensures forall i :: 0 <= i < |r| ==> r[i] == Synced(info[i], dev)
  {
    seq(|info|, i requires 0 <= i < |info| => Synced(info[i], dev))
  }

  // ---- threads: hash chains and the free ring ----

  predicate Distinct(s: seq<nat>) {
    forall i, j :: 0 <= i < j < |s| ==> s[i] != s[j]
  }

  function After(s: seq<nat>, k: int): int {
    if 0 <= k + 1 < |s| then s[k + 1] else -1
  }

  function Before(s: seq<nat>, k: int): int {
    if 0 <= k - 1 < |s| then s[k - 1] else -1
  }

  function Around(n: nat, k: int): int {
    if k + 1 == n then 0 else k + 1
  }

  function Back(n: nat, k: int): int {
    if k == 0 then n - 1 else k - 1
  }

  predicate ChainLink(links: seq<Links>, c: seq<nat>, k: int) {
    && 0 <= k < |c| && c[k] < |links|
    && links[c[k]].next == After(c, k) && links[c[k]].prev == Before(c, k)
  }

  predicate RingLink(links: seq<Links>, r: seq<nat>, k: int) {
    && 0 <= k < |r| && r[k] < |links|
    && links[r[k]].nextFree == r[Around(|r|, k)] && links[r[k]].prevFree == r[Back(|r|, k)]
  }

  predicate Chained(links: seq<Links>, c: seq<nat>) {
    Distinct(c) && forall k :: 0 <= k < |c| ==> ChainLink(links, c, k)
  }

  predicate Ringed(links: seq<Links>, r: seq<nat>) {
    Distinct(r) && forall k :: 0 <= k < |r| ==> RingLink(links, r, k)
  }

  function Drop(s: seq<nat>, k: nat): (r: seq<nat>)
    requires k < |s|
    ensures |r| == |s| - 1
    ensures forall j :: 0 <= j < |r| ==> r[j] == s[if j < k then j else j + 1]
  {
    s[..k] + s[k + 1..]
  }

  function Find(s: seq<nat>, x: nat): (k: nat)
    requires x in s
    ensures k < |s| && s[k] == x
  {
    if s[0] == x then 0 else 1 + Find(s[1..], x)
  }

  // The sequence without its first x.
  function Without(s: seq<nat>, x: nat): seq<nat> {
    if x in s then Drop(s, Find(s, x)) else s
  }

  // b_next->b_prev and b_prev->b_next bypass x.
  function Unhooked(l: seq<Links>, x: nat): (r: seq<Links>)
    requires x < |l|
    ensures |r| == |l|
  {
    var l1 := if 0 <= l[x].next < |l| then l[l[x].next := l[l[x].next].(prev := l[x].prev)] else l;
    if 0 <= l1[x].prev < |l1| then l1[l1[x].prev := l1[l1[x].prev].(next := l1[x].next)] else l1
  }

  function Hooked(l: seq<Links>, first: int, x: nat): (r: seq<Links>)
    requires x < |l|
    ensures |r| == |l|
  {
    var l1 := l[x := l[x].(prev := -1, next := first)];
    if 0 <= first < |l1| then l1[first := l1[first].(prev := x)] else l1
  }

  // b_prev_free->b_next_free and b_next_free->b_prev_free bypass x.
  function Unringed(l: seq<Links>, x: nat): (r: seq<Links>)
    requires x < |l|
    ensures |r| == |l|
  {
    var p := l[x].prevFree;
    var l1 := if 0 <= p < |l| then l[p := l[p].(nextFree := l[x].nextFree)] else l;
    var n := l1[x].nextFree;
    if 0 <= n < |l1| then l1[n := l1[n].(prevFree := l1[x].prevFree)] else l1
  }

  // x goes just before the head f.
  function Inringed(l: seq<Links>, f: int, x: nat): (r: seq<Links>)
    requires x < |l| && 0 <= f < |l|
    ensures |r| == |l|
  {
    var l1 := l[x := l[x].(nextFree := f, prevFree := l[f].prevFree)];
    var p := l1[f].prevFree;
    var l2 := if 0 <= p < |l1| then l1[p := l1[p].(nextFree := x)] else l1;
    l2[f := l2[f].(prevFree := x)]
  }

  predicate SameHash(l: seq<Links>, l2: seq<Links>) {
    |l| == |l2| && forall i :: 0 <= i < |l| ==> l2[i].next == l[i].next && l2[i].prev == l[i].prev
  }

  predicate SameFree(l: seq<Links>, l2: seq<Links>) {
    |l| == |l2| && forall i :: 0 <= i < |l| ==> l2[i].nextFree == l[i].nextFree && l2[i].prevFree == l[i].prevFree
  }

  // Outside c, the hash threads are the same.
  predicate SameBut(l: seq<Links>, l2: seq<Links>, c: seq<nat>) {
    |l| == |l2| && forall i :: 0 <= i < |l| && i !in c ==> l2[i].next == l[i].next && l2[i].prev == l[i].prev
  }

  lemma DropDistinct(s: seq<nat>, k: nat)
    requires k < |s| && Distinct(s)
    ensures Distinct(Drop(s, k)) && s[k] !in Drop(s, k)
    ensures forall x :: x in s && x != s[k] ==> x in Drop(s, k)
    ensures forall x :: x in Drop(s, k) ==> x in s
  {
    var r := Drop(s, k);
    forall x | x in s && x != s[k] ensures x in r {
      var j :| 0 <= j < |s| && s[j] == x;
      assert r[if j < k then j else j - 1] == x;
    }
  }

  lemma ChainDropped(l: seq<Links>, c: seq<nat>, k: nat)
    requires k < |c| && Chained(l, c)
    ensures c[k] < |l| && Chained(Unhooked(l, c[k]), Drop(c, k))
    ensures SameBut(l, Unhooked(l, c[k]), c) && SameFree(l, Unhooked(l, c[k]))
  {
    assert ChainLink(l, c, k);
    var x, l2, d := c[k], Unhooked(l, c[k]), Drop(c, k);
    DropDistinct(c, k);
    if k > 0 { assert ChainLink(l, c, k - 1); }
    if k + 1 < |c| { assert ChainLink(l, c, k + 1); }
    forall j | 0 <= j < |d| ensures ChainLink(l2, d, j) {
      assert ChainLink(l, c, if j < k then j else j + 1);
    }
  }

  lemma ChainPushed(l: seq<Links>, c: seq<nat>, x: nat)
    requires Chained(l, c) && x < |l| && x !in c
    ensures Chained(Hooked(l, Head(c), x), [x] + c)
    ensures SameBut(l, Hooked(l, Head(c), x), [x] + c) && SameFree(l, Hooked(l, Head(c), x))
  {
    var l2, d := Hooked(l, Head(c), x), [x] + c;
    if c != [] { assert ChainLink(l, c, 0); }
    forall j | 0 <= j < |d| ensures ChainLink(l2, d, j) {
      if j > 0 { assert ChainLink(l, c, j - 1); }
    }
  }

  function Head(c: seq<nat>): int {
    if c == [] then -1 else c[0]
  }

  lemma At(s: seq<nat>, i: int, j: int)
    requires Distinct(s) && 0 <= i < |s| && 0 <= j < |s|
    ensures s[i] == s[j] ==> i == j
  {
  }

  // Only p's forward and n's backward free pointer change: they meet.
  predicate Meet(l: seq<Links>, l2: seq<Links>, p: int, n: int) {
    && |l| == |l2|
    && (forall i :: 0 <= i < |l| ==> l2[i].nextFree == if i == p then n else l[i].nextFree)
    && (forall i :: 0 <= i < |l| ==> l2[i].prevFree == if i == n then p else l[i].prevFree)
  }

  lemma UnringedIs(l: seq<Links>, x: nat, p: int, n: int)
    requires x < |l| && p == l[x].prevFree && n == l[x].nextFree && 0 <= p < |l| && 0 <= n < |l|
    requires p == x <==> n == x
    ensures SameHash(l, Unringed(l, x)) && Meet(l, Unringed(l, x), p, n)
    ensures p == x ==> Unringed(l, x) == l
  {
  }

  lemma RingMeets(l: seq<Links>, l2: seq<Links>, r: seq<nat>, k: nat, j: nat)
    requires k < |r| && j < |r| - 1 && Distinct(r) && Meet(l, l2, r[Back(|r|, k)], r[Around(|r|, k)])
    requires RingLink(l, r, if j < k then j else j + 1)
    ensures RingLink(l2, Drop(r, k), j)
  {
    hide Distinct;
    var i, d := if j < k then j else j + 1, Drop(r, k);
    At(r, i, Around(|r|, k));
    At(r, i, Back(|r|, k));
    assert d[j] == r[i] < |l|;
    if i == Back(|r|, k) {
      assert r[Around(|r|, k)] == d[Around(|d|, j)];
    } else {
      assert r[Around(|r|, i)] == d[Around(|d|, j)];
    }
    if i == Around(|r|, k) {
      assert r[Back(|r|, k)] == d[Back(|d|, j)];
    } else {
      assert r[Back(|r|, i)] == d[Back(|d|, j)];
    }
  }

  lemma RingDropped(l: seq<Links>, r: seq<nat>, k: nat)
    requires k < |r| && Ringed(l, r)
    ensures r[k] < |l| && Ringed(Unringed(l, r[k]), Drop(r, k)) && SameHash(l, Unringed(l, r[k]))
    ensures Unringed(l, r[k])[r[k]].nextFree == r[Around(|r|, k)]
    ensures |r| == 1 ==> Unringed(l, r[k]) == l
  {
    hide Distinct, Unringed, Meet;
    assert RingLink(l, r, k);
    var x, l2, d := r[k], Unringed(l, r[k]), Drop(r, k);
    DropDistinct(r, k);
    assert RingLink(l, r, Around(|r|, k)) && RingLink(l, r, Back(|r|, k));
    At(r, k, Around(|r|, k));
    At(r, k, Back(|r|, k));
    UnringedIs(l, x, r[Back(|r|, k)], r[Around(|r|, k)]);
    assert l2[x].nextFree == r[Around(|r|, k)] by {
      MeetAt(l, l2, r[Back(|r|, k)], r[Around(|r|, k)], x);
    }
    forall j | 0 <= j < |d| ensures RingLink(l2, d, j) {
      RingMeets(l, l2, r, k, j);
    }
  }

  lemma MeetAt(l: seq<Links>, l2: seq<Links>, p: int, n: int, i: nat)
    requires Meet(l, l2, p, n) && i < |l|
    ensures |l| == |l2| && l2[i].nextFree == if i == p then n else l[i].nextFree
  {
  }

  lemma RingAppended(l: seq<Links>, r: seq<nat>, x: nat)
    requires Ringed(l, r) && x < |l| && x !in r && r != []
    ensures r[0] < |l| && Ringed(Inringed(l, r[0], x), r + [x]) && SameHash(l, Inringed(l, r[0], x))
  {
    assert RingLink(l, r, 0);
    assert RingLink(l, r, |r| - 1);
    var l2, d := Inringed(l, r[0], x), r + [x];
    forall j | 0 <= j < |d| ensures RingLink(l2, d, j) {
      if j < |r| { assert RingLink(l, r, j); }
    }
  }

  // ---- the threads of every buffer but x (-1: of every buffer) ----

  predicate Member(info: seq<Info>, m: int, q: int, x: int) {
    0 <= m < |info| && m != x && info[m].dev != 0 && HashOf(info[m].dev, info[m].block) == q
  }

  predicate Bucket(info: seq<Info>, links: seq<Links>, first: int, c: seq<nat>, q: int, x: int) {
    first == Head(c) && Chained(links, c) && forall m :: m in c ==> Member(info, m, q, x)
  }

  predicate Hung(info: seq<Info>, links: seq<Links>, chains: seq<seq<nat>>, i: int)
    requires 0 <= i < |info| == |links| && |chains| == NR_HASH
  {
    if info[i].dev == 0 then links[i].next == links[i].prev == -1
    else i in chains[HashOf(info[i].dev, info[i].block)]
  }

  // Chain q holds exactly the buffers with a device whose key hashes to q.
  predicate Hashed(info: seq<Info>, links: seq<Links>, table: seq<int>, chains: seq<seq<nat>>, x: int) {
    && |links| == |info| && |table| == |chains| == NR_HASH
    && (forall q :: 0 <= q < NR_HASH ==> Bucket(info, links, table[q], chains[q], q, x))
    && (forall i :: 0 <= i < |info| && i != x ==> Hung(info, links, chains, i))
  }

  // The ring holds every buffer but x once.
  predicate Free(links: seq<Links>, freeList: int, ring: seq<nat>, x: int) {
    && Ringed(links, ring)
    && x !in ring && (forall i :: 0 <= i < |links| && i != x ==> i in ring)
    && (if ring != [] then freeList == ring[0] else 0 <= freeList == x < |links| && links[x].nextFree == links[x].prevFree == x)
  }

  lemma OfBucket(info: seq<Info>, links: seq<Links>, first: int, c: seq<nat>, q: int, x: int, m: nat)
    requires Bucket(info, links, first, c, q, x)
    ensures m in c ==> Member(info, m, q, x)
  {
  }

  lemma BucketFrame(info: seq<Info>, links: seq<Links>, links2: seq<Links>, first: int, c: seq<nat>, q: int,
                    x: int, x2: int, c0: seq<nat>)
    requires Bucket(info, links, first, c, q, x) && SameBut(links, links2, c0)
    requires x2 !in c && forall m :: m in c ==> m !in c0
    ensures Bucket(info, links2, first, c, q, x2)
  {
    forall k | 0 <= k < |c| ensures ChainLink(links2, c, k) {
      assert ChainLink(links, c, k) && c[k] in c;
    }
    forall m | m in c ensures Member(info, m, q, x2) {
      assert Member(info, m, q, x);
    }
  }

  function TableWithout(table: seq<int>, links: seq<Links>, q: nat, x: nat): seq<int>
    requires q < |table| && x < |links|
  {
    if table[q] == x then table[q := links[x].next] else table
  }

  lemma TableRemoved(info: seq<Info>, links: seq<Links>, table: seq<int>, chains: seq<seq<nat>>, x: nat, q: nat)
    requires Hashed(info, links, table, chains, -1) && x < |info| && q == HashOf(info[x].dev, info[x].block)
    ensures Hashed(info, Unhooked(links, x), TableWithout(table, links, q, x), chains[q := Without(chains[q], x)], x)
    ensures SameFree(links, Unhooked(links, x))
  {
    hide Chained, ChainLink, HashOf, Drop;
    var c, links2 := chains[q], Unhooked(links, x);
    var table2, chains2 := TableWithout(table, links, q, x), chains[q := Without(c, x)];
    assert Bucket(info, links, table[q], c, q, -1) && Hung(info, links, chains, x);
    if info[x].dev == 0 {
      assert links2 == links;
      OfBucket(info, links, table[q], c, q, -1, x);
      assert table2 == table;
      forall p | 0 <= p < NR_HASH ensures Bucket(info, links2, table2[p], chains2[p], p, x) {
        assert Bucket(info, links, table[p], chains[p], p, -1);
        OfBucket(info, links, table[p], chains[p], p, -1, x);
        BucketFrame(info, links, links2, table[p], chains[p], p, -1, x, []);
      }
      forall i | 0 <= i < |info| && i != x ensures Hung(info, links2, chains2, i) {
        assert Hung(info, links, chains, i);
      }
    } else {
      var k := Find(c, x);
      ChainDropped(links, c, k);
      DropDistinct(c, k) by { ChainedIs(links, c); }
      HeadDropped(links, c, k);
      forall p | 0 <= p < NR_HASH ensures Bucket(info, links2, table2[p], chains2[p], p, x) {
        assert Bucket(info, links, table[p], chains[p], p, -1);
        if p == q {
          forall m | m in Drop(c, k) ensures Member(info, m, q, x) {
            assert Member(info, m, q, -1);
          }
        } else {
          forall m | m in chains[p] ensures m !in c && m != x {
            assert Member(info, m, p, -1);
            OfBucket(info, links, table[q], c, q, -1, m);
          }
          BucketFrame(info, links, links2, table[p], chains[p], p, -1, x, c);
          assert table[p] != x;
        }
      }
      forall i | 0 <= i < |info| && i != x ensures Hung(info, links2, chains2, i) {
        assert Hung(info, links, chains, i);
        if info[i].dev == 0 {
          OfBucket(info, links, table[q], c, q, -1, i);
        }
      }
    }
  }

  lemma ChainedIs(links: seq<Links>, c: seq<nat>)
    requires Chained(links, c)
    ensures Distinct(c)
  {
  }

  // Dropping the first of a chain makes its successor the head.
  lemma HeadDropped(links: seq<Links>, c: seq<nat>, k: nat)
    requires k < |c| && Chained(links, c)
    ensures c[k] < |links|
    ensures Head(Drop(c, k)) == if Head(c) == c[k] then links[c[k]].next else Head(c)
  {
    assert ChainLink(links, c, k);
    assert Head(c) == c[k] ==> k == 0;
  }

  function HookedOrLoose(links: seq<Links>, first: int, x: nat, dev: Word): (r: seq<Links>)
    requires x < |links|
    ensures |r| == |links|
  {
    if dev == 0 then links[x := links[x].(prev := -1, next := -1)] else Hooked(links, first, x)
  }

  lemma TableInserted(info: seq<Info>, links: seq<Links>, table: seq<int>, chains: seq<seq<nat>>, x: nat, q: nat)
    requires Hashed(info, links, table, chains, x) && x < |info| && q == HashOf(info[x].dev, info[x].block)
    ensures var dev := info[x].dev;
      Hashed(info, HookedOrLoose(links, table[q], x, dev), if dev == 0 then table else table[q := x],
        if dev == 0 then chains else chains[q := [x] + chains[q]], -1)
    ensures SameFree(links, HookedOrLoose(links, table[q], x, info[x].dev))
  {
    hide Chained, ChainLink, HashOf;
    var c, dev := chains[q], info[x].dev;
    var links2 := HookedOrLoose(links, table[q], x, dev);
    var table2 := if dev == 0 then table else table[q := x];
    var chains2 := if dev == 0 then chains else chains[q := [x] + c];
    assert Bucket(info, links, table[q], c, q, x);
    OfBucket(info, links, table[q], c, q, x, x);
    if dev != 0 { ChainPushed(links, c, x); }
    forall p | 0 <= p < NR_HASH ensures Bucket(info, links2, table2[p], chains2[p], p, -1) {
      assert Bucket(info, links, table[p], chains[p], p, x);
      if p == q && dev != 0 {
        forall m | m in chains2[p] ensures Member(info, m, q, -1) {
          if m != x { assert Member(info, m, q, x); }
        }
      } else {
        forall m | m in chains[p] ensures m != x && (dev != 0 ==> m !in c) {
          assert Member(info, m, p, x);
          OfBucket(info, links, table[q], c, q, x, m);
        }
        BucketFrame(info, links, links2, table[p], chains[p], p, x, -1, if dev == 0 then [x] else [x] + c);
      }
    }
    forall i | 0 <= i < |info| ensures Hung(info, links2, chains2, i) {
      if i != x {
        assert Hung(info, links, chains, i);
        OfBucket(info, links, table[q], c, q, x, i);
      }
    }
  }

  lemma HashedFrame(info: seq<Info>, info2: seq<Info>, links: seq<Links>, links2: seq<Links>, table: seq<int>,
                    chains: seq<seq<nat>>, x: int)
    requires Hashed(info, links, table, chains, x) && SameHash(links, links2) && |info2| == |info|
    requires forall i :: 0 <= i < |info| && i != x ==> info2[i].dev == info[i].dev && info2[i].block == info[i].block
    ensures Hashed(info2, links2, table, chains, x)
  {
    hide HashOf;
    forall q | 0 <= q < NR_HASH ensures Bucket(info2, links2, table[q], chains[q], q, x) {
      assert Bucket(info, links, table[q], chains[q], q, x);
      forall m | m in chains[q] ensures Member(info2, m, q, x) {
        assert Member(info, m, q, x);
      }
      forall k | 0 <= k < |chains[q]| ensures ChainLink(links2, chains[q], k) {
        assert ChainLink(links, chains[q], k);
      }
    }
    forall i | 0 <= i < |info| && i != x ensures Hung(info2, links2, chains, i) {
      assert Hung(info, links, chains, i);
    }
  }

  lemma FreeFrame(links: seq<Links>, links2: seq<Links>, freeList: int, ring: seq<nat>, x: int)
    requires Free(links, freeList, ring, x) && SameFree(links, links2)
    ensures Free(links2, freeList, ring, x)
  {
    forall k | 0 <= k < |ring| ensures RingLink(links2, ring, k) {
      assert RingLink(links, ring, k);
    }
  }

  lemma FreeRemoved(links: seq<Links>, freeList: int, ring: seq<nat>, x: nat)
    requires Free(links, freeList, ring, -1) && x < |links|
    ensures Free(Unringed(links, x), if freeList == x then Unringed(links, x)[x].nextFree else freeList, Without(ring, x), x)
    ensures 0 <= links[x].prevFree < |links| && 0 <= links[x].nextFree < |links| && SameHash(links, Unringed(links, x))
  {
    hide Unringed, SameHash;
    assert x in ring;
    var k := Find(ring, x);
    assert RingLink(links, ring, k);
    assert RingLink(links, ring, Around(|ring|, k)) && RingLink(links, ring, Back(|ring|, k));
    RingDropped(links, ring, k);
    DropDistinct(ring, k);
    assert freeList == x ==> k == 0;
  }

  lemma FreeInserted(links: seq<Links>, freeList: int, ring: seq<nat>, x: nat)
    requires Free(links, freeList, ring, x) && x < |links|
    ensures 0 <= freeList < |links| && 0 <= links[freeList].prevFree < |links|
    ensures Free(Inringed(links, freeList, x), freeList, ring + [x], -1) && SameHash(links, Inringed(links, freeList, x))
  {
    if ring == [] {
      var l2 := Inringed(links, freeList, x);
      assert ring + [x] == [x] && RingLink(l2, [x], 0);
    } else {
      assert RingLink(links, ring, 0);
      assert RingLink(links, ring, |ring| - 1);
      RingAppended(links, ring, x);
    }
  }

  // Hash pointers are null or buffers.
  lemma HookBounds(info: seq<Info>, links: seq<Links>, table: seq<int>, chains: seq<seq<nat>>, x: nat)
    requires Hashed(info, links, table, chains, -1) && x < |info|
    ensures -1 <= links[x].next < |links| && -1 <= links[x].prev < |links|
  {
    hide HashOf;
    assert Hung(info, links, chains, x);
    if info[x].dev != 0 {
      var q := HashOf(info[x].dev, info[x].block);
      var c := chains[q];
      assert Bucket(info, links, table[q], c, q, -1);
      var k := Find(c, x);
      assert ChainLink(links, c, k);
      if k > 0 { assert ChainLink(links, c, k - 1); }
      if k + 1 < |c| { assert ChainLink(links, c, k + 1); }
    }
  }

  lemma HeadBounds(info: seq<Info>, links: seq<Links>, table: seq<int>, chains: seq<seq<nat>>, x: int, q: nat)
    requires Hashed(info, links, table, chains, x) && q < NR_HASH
    ensures |links| == |info| && |chains| == |table| == NR_HASH && -1 <= table[q] < |links|
    ensures table[q] == Head(chains[q]) && forall k :: 0 <= k < |chains[q]| ==> ChainLink(links, chains[q], k)
    ensures Distinct(chains[q])
  {
    assert Bucket(info, links, table[q], chains[q], q, x);
    if chains[q] != [] { assert ChainLink(links, chains[q], 0); }
  }

  lemma KeyChained(info: seq<Info>, links: seq<Links>, table: seq<int>, chains: seq<seq<nat>>, i: nat)
    requires Hashed(info, links, table, chains, -1) && i < |info| && info[i].dev != 0
    ensures |chains| == NR_HASH && i in chains[HashOf(info[i].dev, info[i].block)]
  {
    assert Hung(info, links, chains, i);
  }

  // The threads buffer_init makes.
  lemma FreshThreads(info: seq<Info>, links: seq<Links>, table: seq<int>, chains: seq<seq<nat>>, ring: seq<nat>)
    requires |links| == |info| > 0 && |table| == NR_HASH
    requires forall i :: 0 <= i < |info| ==> info[i].dev == 0 && links[i].prev == links[i].next == -1
    requires forall i :: 0 <= i < |info| ==> links[i].prevFree == Back(|info|, i) && links[i].nextFree == Around(|info|, i)
    requires forall q :: 0 <= q < NR_HASH ==> table[q] == -1
    requires |chains| == NR_HASH && forall q :: 0 <= q < NR_HASH ==> chains[q] == []
    requires |ring| == |info| && forall k :: 0 <= k < |ring| ==> ring[k] == k
    ensures Hashed(info, links, table, chains, -1) && Free(links, 0, ring, -1)
  {
    hide HashOf;
    forall q | 0 <= q < NR_HASH ensures Bucket(info, links, table[q], chains[q], q, -1) {
    }
    forall i | 0 <= i < |info| ensures i in ring {
      assert ring[i] == i;
    }
  }

  // ---- a session on the plain disk ----

  datatype Op = Read(block: Number) | Write(block: Number, data: Data) | Sync

  function Apply(v: seq<Data>, op: Op): (r: seq<Data>)
    requires |v| == BLOCKS
    ensures |r| == BLOCKS
  {
    if op.Write? then Stored(v, DISK, op.block, op.data) else v
  }

  function PlainDisk(v: seq<Data>, ops: seq<Op>): (r: seq<Data>)
    requires |v| == BLOCKS
    ensures |r| == BLOCKS
  {
    if ops == [] then v else Apply(PlainDisk(v, ops[..|ops| - 1]), ops[|ops| - 1])
  }

  function PlainReads(v: seq<Data>, ops: seq<Op>): seq<Data>
    requires |v| == BLOCKS
  {
    if ops == [] then []
    else
      var before, op := ops[..|ops| - 1], ops[|ops| - 1];
      PlainReads(v, before) + if op.Read? && op.block < BLOCKS then [PlainDisk(v, before)[op.block]] else []
  }

  predicate SameCounts(info: seq<Info>, info2: seq<Info>) {
    |info2| == |info| && forall i :: 0 <= i < |info| ==> info2[i].count == info[i].count
  }

  // ---- choosing a victim ----

  // Clean unreferenced buffers come first, then dirty ones, each in ring order.
  predicate Worse(a: Info, b: Info) {
    a.count > 0 || (a.dirty && !b.dirty)
  }

  predicate Victim(info: seq<Info>, ring: seq<nat>, p: nat) {
    && p < |ring| && (forall k :: 0 <= k < |ring| ==> ring[k] < |info|)
    && info[ring[p]].count == 0
    && (forall k :: 0 <= k < p ==> Worse(info[ring[k]], info[ring[p]]))
    && (info[ring[p]].dirty ==> forall k :: 0 <= k < |ring| ==> info[ring[k]].count > 0 || info[ring[k]].dirty)
  }

  // Synchronised buffers are clean; the others of their data stay.
  lemma SyncedKeys(info: seq<Info>, dev: int)
    ensures forall i :: 0 <= i < |info| ==> SyncedAll(info, dev)[i].dev == info[i].dev && SyncedAll(info, dev)[i].block == info[i].block
    ensures forall i :: 0 <= i < |info| ==> SyncedAll(info, dev)[i].count == info[i].count && SyncedAll(info, dev)[i].data == info[i].data
    ensures forall i :: 0 <= i < |info| && info[i].dev == dev ==> !SyncedAll(info, dev)[i].dirty
  {
  }

  lemma SaneAt(info: seq<Info>, words: seq<Word>, i: int)
    requires |words| == DISK_WORDS && Coherent(info, words) && 0 <= i < |info|
    ensures Sane(info[i])
  {
  }

  // What a buffer keeps while others are taken: it may only have been written out.
  predicate Undisturbed(a: Info, b: Info) {
    && b.dev == a.dev && b.block == a.block && b.count == a.count && b.data == a.data
    && (b.dirty ==> a.dirty) && (InRange(a.dev, a.block) ==> b.uptodate == a.uptodate)
  }

  lemma SyncedUndisturbed(info: seq<Info>, words: seq<Word>, dev: int)
    requires |words| == DISK_WORDS && Coherent(info, words)
    ensures forall i :: 0 <= i < |info| ==> Undisturbed(info[i], SyncedAll(info, dev)[i])
  {
    hide BlockAt;
    forall i | 0 <= i < |info| ensures Undisturbed(info[i], SyncedAll(info, dev)[i]) {
      assert Sane(info[i]);
    }
  }

  // Once the disk's buffers are clean, the disk itself holds what is seen.
  lemma CleanIsDisk(info: seq<Info>, words: seq<Word>)
    requires |words| == DISK_WORDS && Coherent(info, words)
    requires forall i :: 0 <= i < |info| && info[i].dev == DISK ==> !info[i].dirty
    ensures forall b :: 0 <= b < BLOCKS ==> BlockAt(words, b) == View(info, words)[b]
  {
    hide BlockAt;
    forall b | 0 <= b < BLOCKS ensures BlockAt(words, b) == Current(info, words, b) {
      if exists i :: Holds(info, i, b) {
        var i :| Holds(info, i, b) && Current(info, words, b) == info[i].data;
        assert Holds(info, i, b);
        assert Fits(info[i], words);
      }
    }
  }

  class Cache {
    const disk: array<Word>
    var info: seq<Info>
    var links: seq<Links>
    var table: seq<int>
    var freeList: int
    ghost var chains: seq<seq<nat>>
    ghost var ring: seq<nat>

    // Every buffer but hx is in its hash chain, and every one but fx in the ring.
    ghost predicate Threaded(hx: int, fx: int)
      reads this
    {
      Hashed(info, links, table, chains, hx) && Free(links, freeList, ring, fx)
    }

    ghost predicate Wired(x: int)
      reads this
    {
      Threaded(x, x)
    }

    // x left its chain.
    ghost predicate Freed(was: seq<seq<nat>>, x: nat)
      requires x < |info|
      reads this
    {
      var q := HashOf(info[x].dev, info[x].block);
      |was| == NR_HASH && chains == was[q := Without(was[q], x)]
    }

    // x is the first of its chain, if it has a device.
    ghost predicate Chosen(was: seq<seq<nat>>, x: nat)
      requires x < |info|
      reads this
    {
      var q := HashOf(info[x].dev, info[x].block);
      |was| == NR_HASH && chains == if info[x].dev == 0 then was else was[q := [x] + was[q]]
    }

    ghost predicate Valid()
      reads this, disk
    {
      && |info| > 0 && disk.Length == DISK_WORDS
      && Unique(info) && Coherent(info, disk[..]) && Wired(-1)
    }

    // The disk as read through the cache.
    ghost function Seen(): (v: seq<Data>)
      requires disk.Length == DISK_WORDS
      reads this, disk
      ensures |v| == BLOCKS
    {
      View(info, disk[..])
    }

    // A cache of |raw| buffers over memory that held raw.
    constructor (raw: seq<Info>, words: array<Word>)
      requires |raw| > 0 && words.Length == DISK_WORDS
      ensures Valid() && disk == words && |info| == |raw|
      ensures forall b :: 0 <= b < BLOCKS ==> Seen()[b] == BlockAt(words[..], b)
      ensures |ring| == |raw| && forall k :: 0 <= k < |ring| ==> ring[k] == k
      ensures forall i :: 0 <= i < |info| ==> info[i].dev == 0 && info[i].count == 0 && !info[i].dirty && !info[i].uptodate
    {
      hide BlockAt, HashOf;
      disk := words;
      info := raw;
      links := seq(|raw|, _ => Links(0, 0, 0, 0));
      table := seq(NR_HASH, _ => 0);
      freeList := 0;
      chains := seq(NR_HASH, _ => []);
      ring := seq(|raw|, i => i);
      new;
      var h := 0;
      while h < |raw|
        invariant 0 <= h <= |raw| == |info| == |links| && disk == words && |table| == NR_HASH
        invariant |chains| == NR_HASH && forall q :: 0 <= q < NR_HASH ==> chains[q] == []
        invariant |ring| == |raw| && forall k :: 0 <= k < |ring| ==> ring[k] == k
        invariant forall i :: 0 <= i < h ==> info[i] == raw[i].(dev := 0, dirty := false, count := 0, uptodate := false)
        invariant forall i :: 0 <= i < h ==> links[i] == Links(-1, -1, i - 1, i + 1)
      {
        info := info[h := raw[h].(dev := 0, dirty := false, count := 0, uptodate := false)];
        links := links[h := Links(-1, -1, h - 1, h + 1)];
        h := h + 1;
      }
      h := h - 1;
      freeList := 0;
      links := links[freeList := links[freeList].(prevFree := h)];
      links := links[h := links[h].(nextFree := freeList)];
      var i := 0;
      while i < NR_HASH
        modifies this`table
        invariant 0 <= i <= NR_HASH == |table| && disk == words
        invariant forall j :: 0 <= j < i ==> table[j] == -1
      {
        table := table[i := -1];
        i := i + 1;
      }
      FreshThreads(info, links, table, chains, ring);
      forall b | 0 <= b < BLOCKS ensures Current(info, disk[..], b) == BlockAt(disk[..], b) {
        assert forall j :: !Holds(info, j, b);
      }
    }

    method RemoveFromHash(x: nat)
      requires Threaded(-1, -1) && x < |info|
      modifies this`links, this`table, this`chains
      ensures Threaded(x, -1) && Freed(old(chains), x)
    {
      hide Hashed, Free, HashOf, Without, SameFree;
      var q := HashOf(info[x].dev, info[x].block);
      HeadBounds(info, links, table, chains, -1, q);
      HookBounds(info, links, table, chains, x);
      TableRemoved(info, links, table, chains, x, q);
      ghost var links0 := links;
      if links[x].next != -1 {
        links := links[links[x].next := links[links[x].next].(prev := links[x].prev)];
      }
      if links[x].prev != -1 {
        links := links[links[x].prev := links[links[x].prev].(next := links[x].next)];
      }
      assert links == Unhooked(links0, x);
      if table[q] == x {
        table := table[q := links[x].next];
      }
      chains := chains[q := Without(chains[q], x)];
      FreeFrame(links0, links, freeList, ring, -1);
    }

    method RemoveFromFree(x: nat)
      requires Threaded(x, -1) && x < |info|
      modifies this`links, this`freeList, this`ring
      ensures Threaded(x, x) && ring == Without(old(ring), x)
    {
      hide Hashed, Free, Without, SameHash;
      HeadBounds(info, links, table, chains, x, 0);
      FreeRemoved(links, freeList, ring, x);
      ghost var links1 := links;
      links := links[links[x].prevFree := links[links[x].prevFree].(nextFree := links[x].nextFree)];
      links := links[links[x].nextFree := links[links[x].nextFree].(prevFree := links[x].prevFree)];
      assert links == Unringed(links1, x);
      HashedFrame(info, info, links1, links, table, chains, x);
      if freeList == x {
        freeList := links[x].nextFree;
      }
      ring := Without(ring, x);
    }

    method RemoveFromQueues(x: nat)
      requires Wired(-1) && x < |info|
      modifies this`links, this`table, this`freeList, this`chains, this`ring
      ensures Wired(x) && Freed(old(chains), x) && ring == Without(old(ring), x)
    {
      RemoveFromHash(x);
      RemoveFromFree(x);
    }

    method InsertIntoFree(x: nat)
      requires Threaded(x, x) && x < |info|
      modifies this`links, this`ring
      ensures Threaded(x, -1) && ring == old(ring) + [x]
    {
      hide Hashed, Free, SameHash;
      HeadBounds(info, links, table, chains, x, 0);
      FreeInserted(links, freeList, ring, x);
      ghost var links0 := links;
      links := links[x := links[x].(nextFree := freeList)];
      links := links[x := links[x].(prevFree := links[freeList].prevFree)];
      links := links[links[freeList].prevFree := links[links[freeList].prevFree].(nextFree := x)];
      links := links[freeList := links[freeList].(prevFree := x)];
      assert links == Inringed(links0, freeList, x);
      ring := ring + [x];
      HashedFrame(info, info, links0, links, table, chains, x);
    }

    // The source stores through the next buffer's link without the test made
    // here, so through a null pointer exactly when the buffer has a device and its
    // chain was empty.
    method InsertIntoHash(x: nat)
      requires Threaded(x, -1) && x < |info|
      modifies this`links, this`table, this`chains
      ensures Threaded(-1, -1) && Chosen(old(chains), x)
    {
      hide Hashed, Free, HashOf, SameFree;
      var q := HashOf(info[x].dev, info[x].block);
      HeadBounds(info, links, table, chains, x, q);
      TableInserted(info, links, table, chains, x, q);
      ghost var links1, first := links, table[q];
      links := links[x := links[x].(prev := -1)];
      links := links[x := links[x].(next := -1)];
      if info[x].dev != 0 {
        links := links[x := links[x].(next := table[q])];
        table := table[q := x];
        if links[x].next != -1 {
          links := links[links[x].next := links[links[x].next].(prev := x)];
        }
        chains := chains[q := [x] + chains[q]];
      }
      assert links == HookedOrLoose(links1, first, x, info[x].dev);
      FreeFrame(links1, links, freeList, ring, -1);
    }

    method InsertIntoQueues(x: nat)
      requires Wired(x) && x < |info|
      modifies this`links, this`table, this`chains, this`ring
      ensures Wired(-1) && Chosen(old(chains), x) && ring == old(ring) + [x]
    {
      InsertIntoFree(x);
      InsertIntoHash(x);
    }

    // The buffer with this key, or null when there is none.
    method FindBuffer(dev: Word, block: Number) returns (r: int)
      requires Wired(-1) && dev != 0
      ensures r != -1 ==> Key(info, r, dev, block)
      ensures r == -1 ==> forall i :: !Key(info, i, dev, block)
    {
      hide HashOf, Hashed, Free;
      var q := HashOf(dev, block);
      HeadBounds(info, links, table, chains, -1, q);
      ghost var c := chains[q];
      ghost var k := 0;
      r := table[q];
      while r != -1
        invariant 0 <= k <= |c| && r == After(c, k - 1)
        invariant forall j :: 0 <= j < k ==> !Key(info, c[j], dev, block)
        decreases |c| - k
      {
        assert ChainLink(links, c, k);
        if info[r].dev == dev && info[r].block == block {
          return;
        }
        r := links[r].next;
        k := k + 1;
      }
      forall i ensures !Key(info, i, dev, block) {
        if Key(info, i, dev, block) {
          KeyChained(info, links, table, chains, i);
        }
      }
    }

    // The synchronous write of one buffer.
    method WriteBlock(i: nat)
      requires i < |info| && disk.Length == DISK_WORDS && InRange(info[i].dev, info[i].block)
      modifies disk
      ensures DiskAfter(old(disk[..]), disk[..], info[i].block, info[i].data)
    {
      hide BlockAt, ByteAt, WordOf;
      var b, d := info[i].block, info[i].data;
      var k := 0;
      while k < 256
        invariant 0 <= k <= 256 && Wrote(old(disk[..]), disk[..], b, d, k)
      {
        ghost var was := disk[..];
        disk[256 * b + k] := WordOf(d, k);
        assert disk[..] == was[256 * b + k := WordOf(d, k)];
        k := k + 1;
      }
      WroteBlock(old(disk[..]), disk[..], b, d);
    }

    // The synchronous read of one block.
    method ReadBlock(i: nat)
      requires i < |info| && disk.Length == DISK_WORDS && InRange(info[i].dev, info[i].block)
      modifies this`info
      ensures info == old(info)[i := old(info[i]).(data := BlockAt(disk[..], old(info[i].block)))]
    {
      hide ByteAt;
      var b, k := info[i].block, 0;
      while k < 256
        invariant 0 <= k <= 256 && |info| == |old(info)|
        invariant info == old(info)[i := old(info[i]).(data := info[i].data)]
        invariant forall j :: 0 <= j < 4 * k ==> info[i].data[j] == ByteOf(disk[..], b, j)
      {
        var w, d := disk[256 * b + k], info[i].data;
        d := d[4 * k := ByteAt(w, 0)][4 * k + 1 := ByteAt(w, 1)][4 * k + 2 := ByteAt(w, 2)][4 * k + 3 := ByteAt(w, 3)];
        info := info[i := info[i].(data := d)];
        k := k + 1;
      }
      assert info[i].data == BlockAt(disk[..], b);
    }

    method LlRwWrite(i: nat)
      requires Valid() && i < |info| && info[i].dev != 0
      modifies this`info, disk
      ensures Valid() && Seen() == old(Seen())
      ensures info == old(info)[i := Synced(old(info[i]), old(info[i].dev))]
    {
      hide BlockAt, Hashed, Free, HashOf, Unique, Coherent;
      if !info[i].dirty {
        return;
      }
      info := info[i := info[i].(dirty := false)];
      var ok := InRange(info[i].dev, info[i].block);
      if ok {
        WriteBlock(i);
      }
      info := info[i := info[i].(uptodate := ok)];
      assert info == old(info)[i := Flushed(old(info[i]))];
      WriteBackUnseen(old(info), old(disk[..]), i, disk[..]);
      HashedFrame(old(info), info, links, links, table, chains, -1);
    }

    method LlRwRead(i: nat)
      requires Valid() && i < |info| && info[i].dev != 0
      modifies this`info
      ensures Valid() && Seen() == old(Seen())
      ensures info == old(info)[i := if old(info[i].uptodate) then old(info[i]) else Fetched(old(info[i]), disk[..])]
    {
      hide BlockAt, Hashed, Free, HashOf, Unique, Coherent;
      if info[i].uptodate {
        return;
      }
      info := info[i := info[i].(dirty := false)];
      var ok := InRange(info[i].dev, info[i].block);
      if ok {
        ReadBlock(i);
      }
      info := info[i := info[i].(uptodate := ok)];
      ReadUnseen(old(info), disk[..], i, info[i]);
      assert info == old(info)[i := info[i]];
      HashedFrame(old(info), info, links, links, table, chains, -1);
    }

    // One of the two passes of sync_dev.
    method FlushDev(dev: Word)
      requires Valid() && dev != 0
      modifies this`info, disk
      ensures Valid() && Seen() == old(Seen()) && info == SyncedAll(old(info), dev)
    {
      hide BlockAt, Hashed, Free, HashOf, Unique, Coherent, View;
      var i := 0;
      while i < |info|
        invariant 0 <= i <= |info| == |old(info)| && Valid() && Seen() == old(Seen())
        invariant forall j :: 0 <= j < |info| ==> info[j] == if j < i then Synced(old(info)[j], dev) else old(info)[j]
      {
        if info[i].dev == dev {
          if info[i].dirty {
            LlRwWrite(i);
          }
        }
        i := i + 1;
      }
    }

    // Every buffer of the device is written out, and nothing seen changes.
    method SyncDev(dev: Word)
      requires Valid() && dev != 0
      modifies this`info, disk
      ensures Valid() && Seen() == old(Seen()) && info == SyncedAll(old(info), dev)
      ensures dev == DISK ==> forall b :: 0 <= b < BLOCKS ==> BlockAt(disk[..], b) == Seen()[b]
    {
      hide BlockAt, Hashed, Free, HashOf, Unique, Coherent, View;
      FlushDev(dev);
      ghost var once := info;
      SyncedKeys(old(info), dev);
      FlushDev(dev);
      assert info == once;
      if dev == DISK {
        CleanIsDisk(info, disk[..]);
      }
    }

    method GetHashTable(dev: Word, block: Number) returns (r: int)
      requires Valid() && dev != 0
      modifies this`info
      ensures Valid() && Seen() == old(Seen())
      ensures r != -1 ==> Key(info, r, dev, block) && |info| == |old(info)| && info == old(info)[r := Used(old(info)[r])]
      ensures r == -1 ==> info == old(info) && forall i :: !Key(info, i, dev, block)
    {
      hide BlockAt, Hashed, Free, HashOf, Unique, Coherent, View;
      r := FindBuffer(dev, block);
      if r != -1 {
        CountUnseen(info, disk[..], r, (info[r].count + 1) % 256);
        info := info[r := Used(info[r])];
        HashedFrame(old(info), info, links, links, table, chains, -1);
      }
    }

    // The first clean unreferenced buffer of the ring, or else its first
    // unreferenced one; null when every buffer is referenced.
    method Choose() returns (r: int, ghost p: nat)
      requires Valid()
      ensures r != -1 ==> Victim(info, ring, p) && r == ring[p]
      ensures r == -1 ==> forall i :: 0 <= i < |info| ==> info[i].count > 0
    {
      hide BlockAt, Hashed, HashOf, Unique, Coherent, Distinct;
      HeadBounds(info, links, table, chains, -1, 0);
      assert 0 in ring;
      forall k | 0 <= k < |ring| ensures ring[k] < |info| {
        assert RingLink(links, ring, k);
      }
      r, p := -1, 0;
      var tmp := freeList;
      ghost var k := 0;
      while true
        invariant 0 <= k < |ring| && tmp == ring[k]
        invariant r == -1 ==> forall j :: 0 <= j < k ==> info[ring[j]].count > 0
        invariant r != -1 ==> p < k && r == ring[p] && info[r].count == 0 && info[r].dirty
        invariant r != -1 ==> forall j :: 0 <= j < p ==> info[ring[j]].count > 0
        invariant r != -1 ==> forall j :: 0 <= j < k ==> info[ring[j]].count > 0 || info[ring[j]].dirty
        decreases |ring| - k
      {
        if info[tmp].count == 0 {
          if r == -1 || (!info[tmp].dirty && info[r].dirty) {
            r, p := tmp, k;
            if !info[tmp].dirty {
              return;
            }
          }
        }
        assert RingLink(links, ring, k);
        tmp := links[tmp].nextFree;
        if tmp == freeList {
          At(ring, 0, Around(|ring|, k));
          k := k + 1;
          break;
        }
        k := k + 1;
      }
      if r == -1 {
        forall i | 0 <= i < |info| ensures info[i].count > 0 {
          var j := Find(ring, i);
          assert j < k;
        }
      }
    }

    // x is given to another block; it goes to the end of the ring and the front
    // of its new chain.
    method Reassign(x: nat, dev: Word, block: Number)
      requires Valid() && x < |info| && info[x].count == 0 && !info[x].dirty
      requires dev / 256 == MAJOR && forall i :: !Key(info, i, dev, block)
      modifies this
      ensures Valid() && Seen() == old(Seen())
      ensures info == old(info)[x := Taken(old(info)[x], dev, block)]
      ensures ring == Without(old(ring), x) + [x]
    {
      hide BlockAt, Hashed, Free, HashOf, Unique, Coherent, View, Without;
      EvictUnseen(info, disk[..], x, dev, block);
      info := info[x := info[x].(count := 1, dirty := false, uptodate := false)];
      HashedFrame(old(info), info, links, links, table, chains, -1);
      RemoveFromQueues(x);
      ghost var before := info;
      info := info[x := info[x].(dev := dev, block := block)];
      assert info == old(info)[x := Taken(old(info)[x], dev, block)];
      HashedFrame(before, info, links, links, table, chains, x);
      InsertIntoQueues(x);
    }

    // The buffer of this block, now referenced.  On a miss it is an unreferenced
    // buffer, written out before it is taken when it was dirty; every other
    // buffer keeps its block, its data and its count.
    method GetBlk(dev: Word, block: Number) returns (r: int)
      requires Valid() && dev / 256 == MAJOR
      requires (exists i :: Key(info, i, dev, block)) || exists i :: 0 <= i < |info| && info[i].count == 0
      modifies this, disk
      ensures Valid() && Seen() == old(Seen())
      ensures |info| == |old(info)| && Key(info, r, dev, block)
      ensures Key(old(info), r, dev, block) ==> info == old(info)[r := Used(old(info)[r])] && disk[..] == old(disk[..])
      ensures !Key(old(info), r, dev, block) ==> Missed(old(info), old(ring), r, dev, block) && old(info)[r].count == 0
      ensures forall i :: 0 <= i < |info| && i != r ==> Undisturbed(old(info)[i], info[i])
    {
      hide BlockAt, Hashed, Free, HashOf, Unique, Coherent, View;
      r := GetHashTable(dev, block);
      if r != -1 {
        return;
      }
      ghost var p;
      r, p := Choose();
      ghost var info0, ring0 := info, ring;
      SyncedUndisturbed(info, disk[..], info[r].dev);
      if info[r].dirty {
        SaneAt(info, disk[..], r);
        SyncDev(info[r].dev);
        SyncedKeys(info0, info0[r].dev);
        forall i ensures !Key(info, i, dev, block) {
          assert Key(info, i, dev, block) == Key(info0, i, dev, block);
        }
      }
      Reassign(r, dev, block);
      assert Victim(info0, ring0, p);
    }

    // A miss: the state after the victim r of the ring was taken.
    ghost predicate Missed(was: seq<Info>, wasRing: seq<nat>, r: int, dev: Word, block: Number)
      reads this
    {
      && 0 <= r < |was| && (forall i :: !Key(was, i, dev, block))
      && (exists p: nat :: Victim(was, wasRing, p) && wasRing[p] == r)
      && info == (if was[r].dirty then SyncedAll(was, was[r].dev) else was)[r := Taken(was[r], dev, block)]
      && ring == Without(wasRing, r) + [r]
    }

    method BRelse(x: nat)
      requires Valid() && x < |info| && info[x].count > 0
      modifies this`info
      ensures Valid() && Seen() == old(Seen())
      ensures info == old(info)[x := old(info)[x].(count := old(info)[x].count - 1)]
    {
      hide BlockAt, Hashed, Free, HashOf, Unique, Coherent, View;
      CountUnseen(info, disk[..], x, info[x].count - 1);
      info := info[x := info[x].(count := info[x].count - 1)];
      HashedFrame(old(info), info, links, links, table, chains, -1);
    }

    lemma SeenHeld(i: nat)
      requires Valid() && i < |info| && info[i].uptodate && InRange(info[i].dev, info[i].block)
      ensures Seen()[info[i].block] == info[i].data
    {
      hide BlockAt, Unique;
      assert Holds(info, i, info[i].block);
      CurrentHeld(info, disk[..], i, info[i].block);
    }

    // A referenced buffer with the block's latest contents.  It is null exactly
    // when the block is outside the disk and not held by an up-to-date buffer,
    // and then nothing more is referenced.  g is the buffer it went through.
    method BRead(dev: Word, block: Number) returns (r: int, ghost g: nat)
      requires Valid() && dev / 256 == MAJOR
      requires (exists i :: Key(info, i, dev, block)) || exists i :: 0 <= i < |info| && info[i].count == 0
      requires forall i :: Key(info, i, dev, block) ==> info[i].count < 255
      modifies this, disk
      ensures Valid() && Seen() == old(Seen()) && |info| == |old(info)|
      ensures r == -1 || r == g
      ensures Key(info, g, dev, block) && (r != -1 <==> info[g].uptodate)
      ensures r == -1 <==> !InRange(dev, block) && forall i :: Key(old(info), i, dev, block) ==> !old(info)[i].uptodate
      ensures info[g].count == old(info)[g].count + (if r == -1 then 0 else 1)
      ensures InRange(dev, block) ==> info[g].data == Seen()[block]
      ensures forall i :: 0 <= i < |info| && i != g ==> Undisturbed(old(info)[i], info[i])
    {
      hide BlockAt, Hashed, Free, HashOf, Unique, Coherent, View;
      r := GetBlk(dev, block);
      g := r;
      if Key(old(info), r, dev, block) {
        UniqueKey(old(info), r, dev, block);
      }
      ghost var got := info;
      if !info[r].uptodate {
        LlRwRead(r);
      }
      if info[r].uptodate {
        if InRange(dev, block) {
          SeenHeld(r);
        }
        return;
      }
      BRelse(r);
      r := -1;
    }

    // New contents for a referenced buffer, as new_block and file_write leave it.
    method Store(x: nat, d: Data)
      requires Valid() && x < |info| && info[x].count > 0 && info[x].dev != 0
      modifies this`info
      ensures Valid() && info == old(info)[x := Filled(old(info)[x], d)]
      ensures Seen() == Stored(old(Seen()), info[x].dev, info[x].block, d)
    {
      hide BlockAt, Hashed, Free, HashOf, Unique, Coherent, View;
      StoreSeen(info, disk[..], x, d);
      info := info[x := info[x].(data := d, dirty := true, uptodate := true)];
      HashedFrame(old(info), info, links, links, table, chains, -1);
    }

    // One read, write or sync, as file_read, file_write and sync_dev do them.
    method Serve(op: Op) returns (out: seq<Data>)
      requires Valid() && (exists i :: 0 <= i < |info| && info[i].count == 0)
      requires forall i :: 0 <= i < |info| ==> info[i].count < 255
      modifies this, disk
      ensures Valid() && Seen() == Apply(old(Seen()), op) && SameCounts(old(info), info)
      ensures out == if op.Read? && op.block < BLOCKS then [old(Seen())[op.block]] else []
    {
      hide BlockAt, Hashed, Free, HashOf, Unique, Coherent, View;
      out := [];
      if op.Sync? {
        SyncDev(DISK);
        SyncedKeys(old(info), DISK);
        return;
      }
      var x, g := BRead(DISK, op.block);
      if x != -1 {
        if op.Write? {
          Store(x, op.data);
        } else if op.block < BLOCKS {
          out := [info[x].data];
        }
        BRelse(x);
      }
    }

    // Any sequence of operations reads what it would read from the plain disk,
    // and leaves to see what it would leave there.
    method Session(ops: seq<Op>) returns (out: seq<Data>)
      requires Valid() && (exists i :: 0 <= i < |info| && info[i].count == 0)
      requires forall i :: 0 <= i < |info| ==> info[i].count < 255
      modifies this, disk
      ensures Valid() && SameCounts(old(info), info)
      ensures out == PlainReads(old(Seen()), ops) && Seen() == PlainDisk(old(Seen()), ops)
    {
      hide BlockAt, Hashed, Free, HashOf, Unique, Coherent, View, Apply, Threaded;
      out := [];
      var k := 0;
      assert ops[..0] == [];
      while k < |ops|
        invariant 0 <= k <= |ops| && Valid() && SameCounts(old(info), info)
        invariant out == PlainReads(old(Seen()), ops[..k]) && Seen() == PlainDisk(old(Seen()), ops[..k])
      {
        var more := Serve(ops[k]);
        out := out + more;
        assert ops[..k + 1][..k] == ops[..k];
        k := k + 1;
      }
      assert ops[..k] == ops;
    }
  }
}
