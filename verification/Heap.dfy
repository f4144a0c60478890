// The native heap: a doubly linked list of blocks in address order, free ones
// also threaded through 32 size bins, merged eagerly and split on allocation
// (user/native/heap.c).  Pointers are addresses; 0 is the null pointer.
module Heap {
  import opened Words

  // sizeof(HeapBlock)
  const HEADER := 24

  datatype Block = Block(size: nat, avail: bool, next: nat, prev: nat, fnext: nat, fprev: nat)

  type Headers = map<nat, Block>

  // ---- bin_index ----

  function Log2(n: nat): nat
  {
    if n <= 1 then 0 else 1 + Log2(n / 2)
  }

  lemma {:induction false} Log2Mono(a: nat, b: nat)
    requires a <= b
    ensures Log2(a) <= Log2(b)
  {
    if a > 1 { Log2Mono(a / 2, b / 2); }
  }

  lemma {:induction false} Log2Bound(n: nat, k: nat)
    requires n < Pow2(k) && k > 0
    ensures Log2(n) < k
  {
    if n > 1 {
      Log2Bound(n / 2, k - 1);
    }
  }

  // ---- the physical list ----

  function End(h: Headers, a: nat): nat
    requires a in h
  {
    a + HEADER + h[a].size
  }

  ghost predicate BlockOk(h: Headers, bs: seq<nat>, i: nat, top: nat)
    requires i < |bs|
  {
    && bs[i] in h && 0 < bs[i] && End(h, bs[i]) <= top
    && h[bs[i]].size >= 8 && h[bs[i]].size % 8 == 0
    && h[bs[i]].next == (if i + 1 < |bs| then bs[i + 1] else 0)
    && h[bs[i]].prev == (if i > 0 then bs[i - 1] else 0)
  }

  ghost predicate Before(h: Headers, bs: seq<nat>, i: nat, j: nat)
    requires i < |bs| && j < |bs|
  {
    bs[i] in h && End(h, bs[i]) <= bs[j]
  }

  // bs is every block, in address order, doubly linked and non-overlapping.
  ghost predicate Phys(h: Headers, bs: seq<nat>, tail: nat, top: nat) {
    && (forall a | a in h :: a in bs)
    && (forall i | 0 <= i < |bs| :: BlockOk(h, bs, i, top))
    && (forall i, j | 0 <= i < j < |bs| :: Before(h, bs, i, j))
    && tail == (if bs == [] then 0 else bs[|bs| - 1])
  }

  // Headers and payloads together.
  function Bytes(h: Headers, bs: seq<nat>): nat {
    if bs == [] then 0
    else (if bs[0] in h then HEADER + h[bs[0]].size else 0) + Bytes(h, bs[1..])
  }

  lemma {:induction false} BytesAppend(h: Headers, a: seq<nat>, b: seq<nat>)
    ensures Bytes(h, a + b) == Bytes(h, a) + Bytes(h, b)
  {
    if a == [] {
      assert a + b == b;
    } else {
      BytesAppend(h, a[1..], b);
      assert (a + b)[1..] == a[1..] + b;
    }
  }

  lemma {:induction false} BytesSame(h: Headers, g: Headers, bs: seq<nat>)
    requires forall a | a in bs :: a in h && a in g && h[a].size == g[a].size
    ensures Bytes(h, bs) == Bytes(g, bs)
  {
    if bs != [] { BytesSame(h, g, bs[1..]); }
  }

  // No two contiguous blocks are both free.
  ghost predicate Coalesced(h: Headers, bs: seq<nat>) {
    forall i | 0 < i < |bs| :: bs[i] in h && bs[i - 1] in h ==> !(h[bs[i - 1]].avail && h[bs[i]].avail && End(h, bs[i - 1]) == bs[i])
  }

  // ---- the bins ----

  ghost predicate Linked(h: Headers, c: seq<nat>, j: nat, k: nat)
    requires j < |c|
  {
    && c[j] in h && 0 < c[j] && h[c[j]].avail && Log2(h[c[j]].size) == k
    && h[c[j]].fnext == (if j + 1 < |c| then c[j + 1] else 0)
    && h[c[j]].fprev == (if j > 0 then c[j - 1] else 0)
  }

  ghost predicate Chain(h: Headers, c: seq<nat>, k: nat) {
    && (forall j | 0 <= j < |c| :: Linked(h, c, j, k))
    && (forall i, j | 0 <= i < j < |c| :: c[i] != c[j])
  }

  function First(c: seq<nat>): nat {
    if c == [] then 0 else c[0]
  }

  // The bins hold exactly the available blocks, each once, by size class.
  ghost predicate Binned(h: Headers, bins: seq<nat>, chains: seq<seq<nat>>) {
    && |bins| == 32 && |chains| == 32
    && (forall k | 0 <= k < 32 :: Chain(h, chains[k], k) && bins[k] == First(chains[k]))
    && (forall a | a in h && h[a].avail :: Log2(h[a].size) < 32 && a in chains[Log2(h[a].size)])
  }

  // ---- allocations ----

  // The live allocations by header address, with their sizes.
  function Live(h: Headers): map<nat, nat> {
    map a | a in h && !h[a].avail :: h[a].size
  }

  predicate InPayload(live: map<nat, nat>, a: nat, x: nat) {
    a in live && a + HEADER <= x < a + HEADER + live[a]
  }

  // What is at y in e is what is at x in d.
  predicate SameByte(d: map<nat, Byte>, x: nat, e: map<nat, Byte>, y: nat) {
    (x in d <==> y in e) && (x in d ==> d[x] == e[y])
  }

  // The payload bytes of these allocations are untouched.
  ghost predicate Kept(live: map<nat, nat>, d: map<nat, Byte>, e: map<nat, Byte>) {
    forall a, x | InPayload(live, a, x) :: SameByte(d, x, e, x)
  }

  predicate CopiedAt(d: map<nat, Byte>, p: nat, e: map<nat, Byte>, r: nat, i: nat) {
    SameByte(d, p + i, e, r + i)
  }

  // The n bytes at r in e are the n bytes at p in d.
  ghost predicate Copied(d: map<nat, Byte>, p: nat, e: map<nat, Byte>, r: nat, n: nat) {
    forall i | 0 <= i < n :: CopiedAt(d, p, e, r, i)
  }

  // Two states differing only in which blocks are free and how they are binned.
  ghost predicate SameShape(h: Headers, g: Headers) {
    h.Keys == g.Keys && forall a | a in h :: h[a].size == g[a].size && h[a].next == g[a].next && h[a].prev == g[a].prev
  }

  lemma PhysSame(h: Headers, g: Headers, bs: seq<nat>, tail: nat, top: nat)
    requires Phys(h, bs, tail, top) && SameShape(h, g)
    ensures Phys(g, bs, tail, top) && Bytes(g, bs) == Bytes(h, bs)
  {
    forall a | a in bs ensures a in h {
      var i :| 0 <= i < |bs| && bs[i] == a;
      assert BlockOk(h, bs, i, top);
    }
    BytesSame(h, g, bs);
    forall i | 0 <= i < |bs| ensures BlockOk(g, bs, i, top) {
      assert BlockOk(h, bs, i, top);
    }
    forall i, j | 0 <= i < j < |bs| ensures Before(g, bs, i, j) {
      assert Before(h, bs, i, j) && BlockOk(h, bs, i, top);
    }
  }

  lemma At(h: Headers, bs: seq<nat>, tail: nat, top: nat, a: nat) returns (i: nat)
    requires Phys(h, bs, tail, top) && a in h
    ensures i < |bs| && bs[i] == a && BlockOk(h, bs, i, top)
  {
    i :| 0 <= i < |bs| && bs[i] == a;
  }

  // Distinct blocks do not overlap.
  lemma Apart(h: Headers, bs: seq<nat>, tail: nat, top: nat, a: nat, b: nat)
    requires Phys(h, bs, tail, top) && a in h && b in h && a != b
    ensures End(h, a) <= b || End(h, b) <= a
  {
    var i := At(h, bs, tail, top, a);
    var j := At(h, bs, tail, top, b);
    if i < j { assert Before(h, bs, i, j); } else { assert Before(h, bs, j, i); }
  }

  lemma KeptThen(live: map<nat, nat>, d: map<nat, Byte>, e: map<nat, Byte>, f: map<nat, Byte>)
    requires Kept(live, d, e) && Kept(live, e, f)
    ensures Kept(live, d, f)
  {
    forall a, x | InPayload(live, a, x) ensures SameByte(d, x, f, x) {
      assert SameByte(d, x, e, x) && SameByte(e, x, f, x);
    }
  }

  lemma KeptLess(live: map<nat, nat>, less: map<nat, nat>, d: map<nat, Byte>, e: map<nat, Byte>)
    requires Kept(live, d, e) && forall a | a in less :: a in live && less[a] <= live[a]
    ensures Kept(less, d, e)
  {
    forall a, x | InPayload(less, a, x) ensures SameByte(d, x, e, x) {
      assert InPayload(live, a, x);
    }
  }

  // A header write overwrites the bytes the header occupies.
  function Overwritten(d: map<nat, Byte>, a: nat): map<nat, Byte> {
    map x | x in d && !(a <= x < a + HEADER) :: d[x]
  }

  // Headers are disjoint from live payloads.
  lemma HeaderKeeps(h: Headers, bs: seq<nat>, tail: nat, top: nat, a: nat, d: map<nat, Byte>)
    requires Phys(h, bs, tail, top) && a in h
    ensures Kept(Live(h), d, Overwritten(d, a))
  {
    forall b, x | InPayload(Live(h), b, x) ensures SameByte(d, x, Overwritten(d, a), x) {
      if b != a { Apart(h, bs, tail, top, a, b); }
    }
  }

  // ---- the free lists ----

  // insert_free: b becomes the head of its bin.
  function Inserted(h: Headers, head: nat, b: nat): Headers
    requires b in h && (head != 0 ==> head in h)
  {
    var g := h[b := h[b].(avail := true, fprev := 0, fnext := head)];
    if head != 0 then g[head := g[head].(fprev := b)] else g
  }

  lemma InsertedLinks(h: Headers, c: seq<nat>, b: nat, k: nat)
    requires Chain(h, c, k) && b in h && 0 < b && !h[b].avail && Log2(h[b].size) == k
    ensures First(c) != 0 ==> First(c) in h
    ensures Chain(Inserted(h, First(c), b), [b] + c, k)
  {
    hide Log2;
    if c != [] { assert Linked(h, c, 0, k); }
    var g := Inserted(h, First(c), b);
    forall j | 0 <= j < |[b] + c| ensures Linked(g, [b] + c, j, k) {
      if j > 0 { assert Linked(h, c, j - 1, k); }
    }
    forall i, j | 0 <= i < j < |[b] + c| ensures ([b] + c)[i] != ([b] + c)[j] {
      assert Linked(h, c, j - 1, k);
    }
  }

  // A chain none of whose blocks is rewritten is still one.
  lemma ChainSame(h: Headers, g: Headers, c: seq<nat>, k: nat)
    requires Chain(h, c, k) && forall a | a in c :: a in h ==> a in g && g[a] == h[a]
    ensures Chain(g, c, k)
  {
    hide Log2;
    forall j | 0 <= j < |c| ensures Linked(g, c, j, k) {
      assert Linked(h, c, j, k);
    }
  }

  lemma InChain(h: Headers, c: seq<nat>, k: nat, a: nat) returns (j: nat)
    requires Chain(h, c, k) && a in c
    ensures j < |c| && c[j] == a && Linked(h, c, j, k)
  {
    j :| 0 <= j < |c| && c[j] == a;
  }

  lemma InsertBinned(h: Headers, bins: seq<nat>, chains: seq<seq<nat>>, b: nat, k: nat)
    requires Binned(h, bins, chains) && b in h && 0 < b && !h[b].avail && k == Log2(h[b].size) < 32
    ensures bins[k] != 0 ==> bins[k] in h
    ensures Binned(Inserted(h, bins[k], b), bins[k := b], chains[k := [b] + chains[k]])
  {
    hide Log2;
    var c := chains[k];
    InsertedLinks(h, c, b, k);
    var g := Inserted(h, bins[k], b);
    var bins', chains' := bins[k := b], chains[k := [b] + c];
    forall l | 0 <= l < 32 ensures Chain(g, chains'[l], l) && bins'[l] == First(chains'[l]) {
      if l != k {
        assert Chain(h, chains[l], l);
        forall a | a in chains[l] ensures a in h ==> a in g && g[a] == h[a] {
          var j := InChain(h, chains[l], l, a);
          if c != [] { assert Linked(h, c, 0, k); }
        }
        ChainSame(h, g, chains[l], l);
      }
    }
    forall a | a in g && g[a].avail ensures Log2(g[a].size) < 32 && a in chains'[Log2(g[a].size)] {
      assert a == b || (a in h && h[a].avail && h[a].size == g[a].size);
    }
  }

  // remove_free: b leaves its bin.
  function Unlinked(h: Headers, b: nat): Headers
    requires b in h && (h[b].fprev != 0 ==> h[b].fprev in h) && (h[b].fnext != 0 ==> h[b].fnext in h)
  {
    var p, n := h[b].fprev, h[b].fnext;
    var g := if p != 0 then h[p := h[p].(fnext := n)] else h;
    var f := if n != 0 then g[n := g[n].(fprev := p)] else g;
    f[b := f[b].(fnext := 0, fprev := 0, avail := false)]
  }

  function Without(c: seq<nat>, j: nat): seq<nat>
    requires j < |c|
  {
    c[..j] + c[j + 1..]
  }

  lemma UnlinkedChain(h: Headers, c: seq<nat>, k: nat, j: nat)
    requires Chain(h, c, k) && j < |c|
    ensures var b := c[j];
            && b in h && (h[b].fprev != 0 ==> h[b].fprev in h) && (h[b].fnext != 0 ==> h[b].fnext in h)
            && Chain(Unlinked(h, b), Without(c, j), k)
            && First(Without(c, j)) == if h[b].fprev != 0 then First(c) else h[b].fnext
  {
    hide Log2;
    var b := c[j];
    assert Linked(h, c, j, k);
    if j > 0 { assert Linked(h, c, j - 1, k); }
    if j + 1 < |c| { assert Linked(h, c, j + 1, k); }
    var g, d := Unlinked(h, b), Without(c, j);
    forall i | 0 <= i < |d| ensures Linked(g, d, i, k) {
      var i' := if i < j then i else i + 1;
      assert d[i] == c[i'];
      assert Linked(h, c, i', k);
    }
    forall i, l | 0 <= i < l < |d| ensures d[i] != d[l] {
      var i', l' := if i < j then i else i + 1, if l < j then l else l + 1;
      assert d[i] == c[i'] && d[l] == c[l'];
    }
  }

  lemma UnlinkShape(h: Headers, b: nat)
    requires b in h && (h[b].fprev != 0 ==> h[b].fprev in h && h[b].fprev != b) && (h[b].fnext != 0 ==> h[b].fnext in h && h[b].fnext != b)
    requires (h[b].fprev != 0 ==> h[h[b].fprev].avail) && (h[b].fnext != 0 ==> h[h[b].fnext].avail)
    ensures SameShape(h, Unlinked(h, b)) && b in Unlinked(h, b) && !Unlinked(h, b)[b].avail
    ensures Live(Unlinked(h, b)) == Live(h)[b := h[b].size]
    ensures forall a | a in h && a != b :: Unlinked(h, b)[a].avail == h[a].avail
    ensures forall a | a in h && a != b && a != h[b].fprev && a != h[b].fnext :: Unlinked(h, b)[a] == h[a]
  {
  }

  // Chains of other size classes do not notice.
  lemma UnlinkOthers(h: Headers, bins: seq<nat>, chains: seq<seq<nat>>, b: nat, k: nat, j: nat, l: nat)
    requires Binned(h, bins, chains) && k < 32 && j < |chains[k]| && chains[k][j] == b && l < 32 && l != k
    ensures b in h && (h[b].fprev != 0 ==> h[b].fprev in h) && (h[b].fnext != 0 ==> h[b].fnext in h)
    ensures Chain(Unlinked(h, b), chains[l], l)
  {
    hide Log2;
    NeighboursFree(h, chains[k], k, j);
    assert Chain(h, chains[l], l) && Linked(h, chains[k], j, k);
    UnlinkShape(h, b);
    forall a | a in chains[l] ensures a in h ==> a in Unlinked(h, b) && Unlinked(h, b)[a] == h[a] {
      var i := InChain(h, chains[l], l, a);
    }
    ChainSame(h, Unlinked(h, b), chains[l], l);
  }

  lemma StillIn(c: seq<nat>, j: nat, a: nat)
    requires j < |c| && a in c && a != c[j]
    ensures a in Without(c, j)
  {
    var i :| 0 <= i < |c| && c[i] == a;
    assert Without(c, j)[if i < j then i else i - 1] == a;
  }

  lemma RemoveBinned(h: Headers, bins: seq<nat>, chains: seq<seq<nat>>, b: nat) returns (k: nat, j: nat)
    requires Binned(h, bins, chains) && b in h && h[b].avail
    ensures k == Log2(h[b].size) < 32 && j < |chains[k]| && chains[k][j] == b
    ensures (h[b].fprev != 0 ==> h[b].fprev in h) && (h[b].fnext != 0 ==> h[b].fnext in h)
    ensures Binned(Unlinked(h, b), if h[b].fprev != 0 then bins else bins[k := h[b].fnext], chains[k := Without(chains[k], j)])
    ensures SameShape(h, Unlinked(h, b)) && b in Unlinked(h, b) && !Unlinked(h, b)[b].avail
    ensures Live(Unlinked(h, b)) == Live(h)[b := h[b].size]
    ensures forall a | a in h && a != b :: Unlinked(h, b)[a].avail == h[a].avail
  {
    hide Log2, Unlinked, Chain, Without;
    k := Log2(h[b].size);
    j := InChain(h, chains[k], k, b);
    NeighboursFree(h, chains[k], k, j);
    UnlinkedChain(h, chains[k], k, j);
    UnlinkShape(h, b);
    var chains' := chains[k := Without(chains[k], j)];
    forall l | 0 <= l < 32 ensures Chain(Unlinked(h, b), chains'[l], l) {
      if l != k { UnlinkOthers(h, bins, chains, b, k, j, l); }
    }
    forall a | a in h && a != b && h[a].avail ensures a in chains'[Log2(h[a].size)] {
      if Log2(h[a].size) == k { StillIn(chains[k], j, a); }
    }
  }

  // The list neighbours of a free block are free blocks of its size class.
  lemma NeighboursFree(h: Headers, c: seq<nat>, k: nat, j: nat)
    requires Chain(h, c, k) && j < |c|
    ensures var b := c[j];
            && b in h
            && (h[b].fprev != 0 ==> h[b].fprev in h && h[h[b].fprev].avail && Log2(h[h[b].fprev].size) == k && h[b].fprev != b)
            && (h[b].fnext != 0 ==> h[b].fnext in h && h[h[b].fnext].avail && Log2(h[h[b].fnext].size) == k && h[b].fnext != b)
  {
    hide Log2;
    assert Linked(h, c, j, k);
    if j > 0 { assert Linked(h, c, j - 1, k); }
    if j + 1 < |c| { assert Linked(h, c, j + 1, k); }
  }

  lemma InsertShape(h: Headers, head: nat, b: nat)
    requires b in h && (head != 0 ==> head in h && h[head].avail) && !h[b].avail
    ensures SameShape(h, Inserted(h, head, b))
    ensures Live(Inserted(h, head, b)) == Live(h) - {b}
  {
  }

  // ---- joining and splitting ----

  // join_next: b takes over its physical successor.
  function Joined(h: Headers, b: nat): Headers
    requires b in h && h[b].next in h && (h[h[b].next].next != 0 ==> h[h[b].next].next in h)
  {
    var n := h[b].next;
    var g := h[b := h[b].(size := h[b].size + HEADER + h[n].size, next := h[n].next)];
    (if h[n].next != 0 then g[h[n].next := g[h[n].next].(prev := b)] else g) - {n}
  }

  lemma JoinParts(h: Headers, bs: seq<nat>, tail: nat, top: nat, b: nat, i: nat)
    requires Phys(h, bs, tail, top) && b in h && i < |bs| && bs[i] == b && h[b].next != 0
    ensures i + 1 < |bs| && bs[i + 1] == h[b].next && h[b].next in h
    ensures h[h[b].next].next == (if i + 2 < |bs| then bs[i + 2] else 0)
    ensures h[h[b].next].next != 0 <==> i + 2 < |bs|
    ensures h[h[b].next].next != 0 ==> h[h[b].next].next in h
  {
    assert BlockOk(h, bs, i, top);
    assert BlockOk(h, bs, i + 1, top);
    if i + 2 < |bs| { assert BlockOk(h, bs, i + 2, top); }
  }

  // Where the l-th block of the list without its j-th was.
  function Skip(l: nat, j: nat): nat {
    if l < j then l else l + 1
  }

  lemma WithoutAt(c: seq<nat>, j: nat)
    requires j < |c|
    ensures |Without(c, j)| == |c| - 1 && forall l | 0 <= l < |c| - 1 :: Without(c, j)[l] == c[Skip(l, j)]
  {
  }

  lemma JoinedBlock(h: Headers, bs: seq<nat>, tail: nat, top: nat, b: nat, i: nat, l: nat)
    requires Phys(h, bs, tail, top) && b in h && i < |bs| && bs[i] == b && h[b].next != 0 && End(h, b) == h[b].next
    requires l < |bs| - 1
    ensures i + 1 < |bs| && bs[i + 1] == h[b].next && h[b].next in h && (h[h[b].next].next != 0 ==> h[h[b].next].next in h)
    ensures BlockOk(Joined(h, b), Without(bs, i + 1), l, top)
    ensures End(Joined(h, b), Without(bs, i + 1)[l]) == End(h, bs[if l == i then i + 1 else Skip(l, i + 1)])
  {
    JoinParts(h, bs, tail, top, b, i);
    WithoutAt(bs, i + 1);
    var l' := Skip(l, i + 1);
    assert BlockOk(h, bs, l', top) && BlockOk(h, bs, i + 1, top);
    DistinctAt(h, bs, tail, top, l', i + 1);
    DistinctAt(h, bs, tail, top, l', i);
    if i + 2 < |bs| { DistinctAt(h, bs, tail, top, l', i + 2); }
  }

  lemma JoinPhys(h: Headers, bs: seq<nat>, tail: nat, top: nat, b: nat, i: nat)
    requires Phys(h, bs, tail, top) && b in h && i < |bs| && bs[i] == b && h[b].next != 0 && End(h, b) == h[b].next
    ensures i + 1 < |bs| && bs[i + 1] == h[b].next && h[b].next in h && (h[h[b].next].next != 0 ==> h[h[b].next].next in h)
    ensures Phys(Joined(h, b), Without(bs, i + 1), if h[h[b].next].next != 0 then tail else b, top)
  {
    hide BlockOk, End, Without;
    JoinParts(h, bs, tail, top, b, i);
    WithoutAt(bs, i + 1);
    var g, ds := Joined(h, b), Without(bs, i + 1);
    assert ds[|ds| - 1] == bs[Skip(|ds| - 1, i + 1)];
    forall a | a in g ensures a in ds {
      StillIn(bs, i + 1, a);
    }
    forall l | 0 <= l < |ds| ensures BlockOk(g, ds, l, top) {
      JoinedBlock(h, bs, tail, top, b, i, l);
    }
    forall l, m | 0 <= l < m < |ds| ensures Before(g, ds, l, m) {
      JoinedBlock(h, bs, tail, top, b, i, l);
      JoinedIn(h, bs, tail, top, b, i, l);
      assert Before(h, bs, if l == i then i + 1 else Skip(l, i + 1), Skip(m, i + 1));
    }
  }

  lemma JoinedIn(h: Headers, bs: seq<nat>, tail: nat, top: nat, b: nat, i: nat, l: nat)
    requires Phys(h, bs, tail, top) && b in h && i < |bs| && bs[i] == b && h[b].next != 0 && End(h, b) == h[b].next && l < |bs| - 1
    ensures h[b].next in h && (h[h[b].next].next != 0 ==> h[h[b].next].next in h) && i + 1 < |bs|
    ensures Without(bs, i + 1)[l] in Joined(h, b)
  {
    JoinedBlock(h, bs, tail, top, b, i, l);
  }

  lemma DistinctAt(h: Headers, bs: seq<nat>, tail: nat, top: nat, i: nat, j: nat)
    requires Phys(h, bs, tail, top) && i < |bs| && j < |bs|
    ensures bs[i] == bs[j] ==> i == j
  {
    if i < j { assert Before(h, bs, i, j); }
    if j < i { assert Before(h, bs, j, i); }
  }

  lemma SplitSum(h: Headers, bs: seq<nat>, i: nat)
    requires i < |bs|
    ensures Bytes(h, bs) == Bytes(h, bs[..i]) + Bytes(h, [bs[i]]) + Bytes(h, bs[i + 1..])
  {
    assert bs == bs[..i] + ([bs[i]] + bs[i + 1..]);
    BytesAppend(h, bs[..i], [bs[i]] + bs[i + 1..]);
    BytesAppend(h, [bs[i]], bs[i + 1..]);
  }

  lemma JoinLive(h: Headers, b: nat)
    requires b in h && h[b].next in h && (h[h[b].next].next != 0 ==> h[h[b].next].next in h) && h[b].next != b
    requires !h[b].avail && !h[h[b].next].avail && h[h[b].next].next != b && h[h[b].next].next != h[b].next
    ensures b in Joined(h, b) && Joined(h, b)[b].size == h[b].size + HEADER + h[h[b].next].size && !Joined(h, b)[b].avail
    ensures Live(Joined(h, b)) == (Live(h) - {h[b].next})[b := h[b].size + HEADER + h[h[b].next].size]
    ensures Joined(h, b).Keys == h.Keys - {h[b].next}
    ensures forall a | a in Joined(h, b) :: Joined(h, b)[a].avail == h[a].avail && (a != b ==> Joined(h, b)[a].size == h[a].size)
    ensures forall a | a in Joined(h, b) :: Joined(h, b)[a].fnext == h[a].fnext && Joined(h, b)[a].fprev == h[a].fprev
  {
  }

  // Bins only look at the free blocks.
  lemma BinnedSame(h: Headers, g: Headers, bins: seq<nat>, chains: seq<seq<nat>>)
    requires Binned(h, bins, chains)
    requires forall a | a in h && h[a].avail :: a in g && g[a].avail && g[a].size == h[a].size && g[a].fnext == h[a].fnext && g[a].fprev == h[a].fprev
    requires forall a | a in g && g[a].avail :: a in h && h[a].avail
    ensures Binned(g, bins, chains)
  {
    hide Log2;
    forall k | 0 <= k < 32 ensures Chain(g, chains[k], k) {
      assert Chain(h, chains[k], k);
      forall j | 0 <= j < |chains[k]| ensures Linked(g, chains[k], j, k) {
        assert Linked(h, chains[k], j, k);
      }
    }
  }

  lemma BytesTwo(h: Headers, bs: seq<nat>, i: nat)
    requires i + 1 < |bs|
    ensures Bytes(h, bs) == Bytes(h, bs[..i]) + Bytes(h, [bs[i]]) + Bytes(h, [bs[i + 1]]) + Bytes(h, bs[i + 2..])
  {
    hide Bytes;
    SplitSum(h, bs, i);
    assert bs[i + 1..] == [bs[i + 1]] + bs[i + 2..];
    BytesAppend(h, [bs[i + 1]], bs[i + 2..]);
  }

  lemma BytesWithout(h: Headers, bs: seq<nat>, i: nat)
    requires i + 1 < |bs|
    ensures Bytes(h, Without(bs, i + 1)) == Bytes(h, bs[..i]) + Bytes(h, [bs[i]]) + Bytes(h, bs[i + 2..])
  {
    hide Bytes;
    assert bs[..i + 1] == bs[..i] + [bs[i]];
    BytesAppend(h, bs[..i + 1], bs[i + 2..]);
    BytesAppend(h, bs[..i], [bs[i]]);
  }

  lemma JoinBytes(h: Headers, bs: seq<nat>, tail: nat, top: nat, b: nat, i: nat)
    requires Phys(h, bs, tail, top) && b in h && i < |bs| && bs[i] == b && h[b].next != 0 && End(h, b) == h[b].next
    requires !h[b].avail && h[b].next in h && !h[h[b].next].avail && (h[h[b].next].next != 0 ==> h[h[b].next].next in h)
    ensures i + 1 < |bs| && Bytes(Joined(h, b), Without(bs, i + 1)) == Bytes(h, bs)
  {
    hide BlockOk, Joined;
    JoinParts(h, bs, tail, top, b, i);
    JoinPhys(h, bs, tail, top, b, i);
    Loops(h, bs, tail, top, b, i);
    JoinLive(h, b);
    var g, n := Joined(h, b), h[b].next;
    BytesTwo(h, bs, i);
    BytesWithout(g, bs, i);
    forall a | a in bs[..i] || a in bs[i + 2..] ensures a in h && a in g && h[a].size == g[a].size {
      var l :| 0 <= l < |bs| && bs[l] == a && l != i && l != i + 1;
      DistinctAt(h, bs, tail, top, l, i);
      DistinctAt(h, bs, tail, top, l, i + 1);
      InHeaders(h, bs, tail, top, l);
    }
    BytesSame(h, g, bs[..i]);
    BytesSame(h, g, bs[i + 2..]);
  }

  lemma InHeaders(h: Headers, bs: seq<nat>, tail: nat, top: nat, i: nat)
    requires Phys(h, bs, tail, top) && i < |bs|
    ensures bs[i] in h && 0 < bs[i] && End(h, bs[i]) <= top
  {
    assert BlockOk(h, bs, i, top);
  }

  // Neighbours in the list are different blocks.
  lemma Loops(h: Headers, bs: seq<nat>, tail: nat, top: nat, b: nat, i: nat)
    requires Phys(h, bs, tail, top) && b in h && i < |bs| && bs[i] == b && h[b].next != 0
    ensures h[b].next in h && h[b].next != b && h[h[b].next].next != b && h[h[b].next].next != h[b].next
  {
    JoinParts(h, bs, tail, top, b, i);
    DistinctAt(h, bs, tail, top, i, i + 1);
    if i + 2 < |bs| {
      DistinctAt(h, bs, tail, top, i, i + 2);
      DistinctAt(h, bs, tail, top, i + 1, i + 2);
    }
    InHeaders(h, bs, tail, top, i);
    InHeaders(h, bs, tail, top, i + 1);
  }

  // split_block: the tail of b becomes a block of its own.
  function SplitAt(h: Headers, b: nat, size: nat): Headers
    requires b in h && size + HEADER <= h[b].size && (h[b].next != 0 ==> h[b].next in h)
  {
    var n := b + HEADER + size;
    var g := h[n := Block(h[b].size - size - HEADER, false, h[b].next, b, 0, 0)];
    var f := if h[b].next != 0 then g[h[b].next := g[h[b].next].(prev := n)] else g;
    f[b := f[b].(next := n, size := size)]
  }

  function With(bs: seq<nat>, i: nat, n: nat): seq<nat>
    requires i < |bs|
  {
    bs[..i + 1] + [n] + bs[i + 1..]
  }

  lemma SplitFresh(h: Headers, bs: seq<nat>, tail: nat, top: nat, b: nat, i: nat, size: nat)
    requires Phys(h, bs, tail, top) && i < |bs| && bs[i] == b && b in h && size + HEADER + 8 <= h[b].size
    ensures h[b].next == (if i + 1 < |bs| then bs[i + 1] else 0) && (h[b].next != 0 ==> h[b].next in h) && h[b].next != b
    ensures h[b].next != 0 <==> i + 1 < |bs|
    ensures var n := b + HEADER + size; n !in h && forall l | 0 <= l < |bs| :: bs[l] != n
  {
    var n := b + HEADER + size;
    assert BlockOk(h, bs, i, top);
    if i + 1 < |bs| { assert BlockOk(h, bs, i + 1, top); DistinctAt(h, bs, tail, top, i, i + 1); }
    forall l | 0 <= l < |bs| ensures bs[l] != n {
      InHeaders(h, bs, tail, top, l);
      if l < i { assert Before(h, bs, l, i); }
      if l > i { assert Before(h, bs, i, l); }
    }
  }

  // Where the l-th block of the list with one more after its i-th was; the new
  // one counts as the i-th.
  function Back(l: nat, i: nat): nat {
    if l <= i then l else l - 1
  }

  lemma WithAt(bs: seq<nat>, i: nat, n: nat, l: nat)
    requires i < |bs| && l <= |bs|
    ensures |With(bs, i, n)| == |bs| + 1 && With(bs, i, n)[l] == if l <= i then bs[l] else if l == i + 1 then n else bs[l - 1]
  {
  }

  // What the split leaves of each block.
  lemma SplitFields(h: Headers, b: nat, size: nat)
    requires b in h && size + HEADER + 8 <= h[b].size && (h[b].next != 0 ==> h[b].next in h) && h[b].next != b && b + HEADER + size !in h
    ensures var g, n := SplitAt(h, b, size), b + HEADER + size;
            && n in g && g[n] == Block(h[b].size - size - HEADER, false, h[b].next, b, 0, 0)
            && b in g && g[b] == h[b].(next := n, size := size)
            && (h[b].next != 0 ==> h[b].next in g && g[h[b].next] == h[h[b].next].(prev := n))
            && forall a | a in h && a != b && a != h[b].next :: a in g && g[a] == h[a]
  {
  }

  lemma SplitBlockOk(h: Headers, bs: seq<nat>, tail: nat, top: nat, b: nat, i: nat, size: nat, l: nat)
    requires Phys(h, bs, tail, top) && i < |bs| && bs[i] == b && b in h && size + HEADER + 8 <= h[b].size && size >= 8 && size % 8 == 0
    requires l <= |bs| && (h[b].next != 0 ==> h[b].next in h)
    ensures |With(bs, i, b + HEADER + size)| == |bs| + 1 && BlockOk(SplitAt(h, b, size), With(bs, i, b + HEADER + size), l, top)
    ensures bs[Back(l, i)] in h && End(SplitAt(h, b, size), With(bs, i, b + HEADER + size)[l]) <= End(h, bs[Back(l, i)])
  {
    hide With, SplitAt;
    SplitFresh(h, bs, tail, top, b, i, size);
    SplitFields(h, b, size);
    var n, l' := b + HEADER + size, Back(l, i);
    WithAt(bs, i, n, l);
    if l > 0 { WithAt(bs, i, n, l - 1); }
    if l < |bs| { WithAt(bs, i, n, l + 1); }
    assert BlockOk(h, bs, l', top) && BlockOk(h, bs, i, top);
    DistinctAt(h, bs, tail, top, l', i);
    if i + 1 < |bs| { DistinctAt(h, bs, tail, top, l', i + 1); }
  }

  lemma SplitPhys(h: Headers, bs: seq<nat>, tail: nat, top: nat, b: nat, i: nat, size: nat)
    requires Phys(h, bs, tail, top) && i < |bs| && bs[i] == b && b in h && size + HEADER + 8 <= h[b].size && size >= 8 && size % 8 == 0
    ensures h[b].next != 0 ==> h[b].next in h
    ensures Phys(SplitAt(h, b, size), With(bs, i, b + HEADER + size), if h[b].next != 0 then tail else b + HEADER + size, top)
  {
    hide BlockOk, End;
    SplitFresh(h, bs, tail, top, b, i, size);
    var n := b + HEADER + size;
    var g, ds := SplitAt(h, b, size), With(bs, i, n);
    forall a | a in g ensures a in ds {
      if a != n {
        var l :| 0 <= l < |bs| && bs[l] == a;
        assert ds[if l <= i then l else l + 1] == a;
      } else {
        assert ds[i + 1] == n;
      }
    }
    forall l | 0 <= l < |ds| ensures BlockOk(g, ds, l, top) {
      SplitBlockOk(h, bs, tail, top, b, i, size, l);
    }
    forall l, m | 0 <= l < m < |ds| ensures Before(g, ds, l, m) {
      SplitBlockOk(h, bs, tail, top, b, i, size, l);
      SplitOrder(h, bs, tail, top, b, i, size, l, m);
    }
  }

  lemma SplitOrder(h: Headers, bs: seq<nat>, tail: nat, top: nat, b: nat, i: nat, size: nat, l: nat, m: nat)
    requires Phys(h, bs, tail, top) && i < |bs| && bs[i] == b && b in h && size + HEADER + 8 <= h[b].size && size >= 8 && size % 8 == 0
    requires l < m <= |bs| && (h[b].next != 0 ==> h[b].next in h)
    ensures Before(SplitAt(h, b, size), With(bs, i, b + HEADER + size), l, m)
  {
    SplitBlockOk(h, bs, tail, top, b, i, size, l);
    SplitFresh(h, bs, tail, top, b, i, size);
    if Back(l, i) < Back(m, i) { assert Before(h, bs, Back(l, i), Back(m, i)); }
  }

  lemma SplitLive(h: Headers, b: nat, size: nat)
    requires b in h && size + HEADER <= h[b].size && (h[b].next != 0 ==> h[b].next in h) && h[b].next != b && b + HEADER + size !in h && !h[b].avail
    ensures var n := b + HEADER + size;
            var g := SplitAt(h, b, size);
            && g.Keys == h.Keys + {n} && g[n].size == h[b].size - size - HEADER && !g[n].avail && g[b].size == size && !g[b].avail
            && Live(g) == Live(h)[b := size][n := h[b].size - size - HEADER]
            && forall a | a in h && a != b :: g[a].avail == h[a].avail && g[a].size == h[a].size && g[a].fnext == h[a].fnext && g[a].fprev == h[a].fprev
  {
  }

  lemma BytesWith(h: Headers, bs: seq<nat>, i: nat, n: nat)
    requires i < |bs|
    ensures Bytes(h, With(bs, i, n)) == Bytes(h, bs[..i]) + Bytes(h, [bs[i]]) + Bytes(h, [n]) + Bytes(h, bs[i + 1..])
  {
    hide Bytes;
    assert bs[..i + 1] == bs[..i] + [bs[i]];
    BytesAppend(h, bs[..i + 1] + [n], bs[i + 1..]);
    BytesAppend(h, bs[..i + 1], [n]);
    BytesAppend(h, bs[..i], [bs[i]]);
  }

  lemma SplitBytes(h: Headers, bs: seq<nat>, tail: nat, top: nat, b: nat, i: nat, size: nat)
    requires Phys(h, bs, tail, top) && i < |bs| && bs[i] == b && b in h && size + HEADER + 8 <= h[b].size && size >= 8 && size % 8 == 0 && !h[b].avail
    ensures h[b].next != 0 ==> h[b].next in h
    ensures Bytes(SplitAt(h, b, size), With(bs, i, b + HEADER + size)) == Bytes(h, bs)
  {
    hide BlockOk, SplitAt;
    SplitFresh(h, bs, tail, top, b, i, size);
    SplitLive(h, b, size);
    var n := b + HEADER + size;
    var g, ds := SplitAt(h, b, size), With(bs, i, n);
    SplitSum(h, bs, i);
    BytesWith(g, bs, i, n);
    forall a | a in bs[..i] || a in bs[i + 1..] ensures a in h && a in g && h[a].size == g[a].size {
      var l :| 0 <= l < |bs| && bs[l] == a && l != i;
      DistinctAt(h, bs, tail, top, l, i);
      InHeaders(h, bs, tail, top, l);
    }
    BytesSame(h, g, bs[..i]);
    BytesSame(h, g, bs[i + 1..]);
  }

  // ---- coalescing ----

  ghost predicate PrevClear(h: Headers, b: nat)
    requires b in h
  {
    h[b].prev != 0 ==> h[b].prev in h && !(h[h[b].prev].avail && End(h, h[b].prev) == b)
  }

  ghost predicate NextClear(h: Headers, b: nat)
    requires b in h
  {
    h[b].next != 0 ==> h[b].next in h && !(h[h[b].next].avail && End(h, b) == h[b].next)
  }

  // A free block has no contiguous free neighbour.
  lemma FreeIsClear(h: Headers, bs: seq<nat>, tail: nat, top: nat, b: nat)
    requires Phys(h, bs, tail, top) && Coalesced(h, bs) && b in h && h[b].avail
    ensures PrevClear(h, b) && NextClear(h, b)
  {
    var i := At(h, bs, tail, top, b);
    if i > 0 { InHeaders(h, bs, tail, top, i - 1); }
    if i + 1 < |bs| { InHeaders(h, bs, tail, top, i + 1); assert bs[i + 1 - 1] == b; }
  }

  lemma CoalescedLess(h: Headers, g: Headers, bs: seq<nat>)
    requires Coalesced(h, bs) && SameShape(h, g) && forall a | a in h && g[a].avail :: h[a].avail
    ensures Coalesced(g, bs)
  {
  }

  lemma CoalescedInsert(h: Headers, g: Headers, bs: seq<nat>, tail: nat, top: nat, b: nat)
    requires Phys(h, bs, tail, top) && Coalesced(h, bs) && SameShape(h, g) && b in h && PrevClear(h, b) && NextClear(h, b)
    requires forall a | a in h && a != b && g[a].avail :: h[a].avail
    ensures Coalesced(g, bs)
  {
    var i := At(h, bs, tail, top, b);
    forall j | 0 < j < |bs| && bs[j] in g && bs[j - 1] in g
      ensures !(g[bs[j - 1]].avail && g[bs[j]].avail && End(g, bs[j - 1]) == bs[j])
    {
      assert BlockOk(h, bs, j, top) && BlockOk(h, bs, j - 1, top);
    }
  }

  lemma CoalescedJoin(h: Headers, bs: seq<nat>, tail: nat, top: nat, b: nat, i: nat)
    requires Phys(h, bs, tail, top) && Coalesced(h, bs) && i < |bs| && bs[i] == b && b in h && h[b].next != 0 && End(h, b) == h[b].next
    requires !h[b].avail && h[b].next in h && !h[h[b].next].avail && (h[h[b].next].next != 0 ==> h[h[b].next].next in h)
    ensures i + 1 < |bs| && Coalesced(Joined(h, b), Without(bs, i + 1))
  {
    hide BlockOk, Joined;
    JoinParts(h, bs, tail, top, b, i);
    Loops(h, bs, tail, top, b, i);
    JoinLive(h, b);
    WithoutAt(bs, i + 1);
    var g, ds := Joined(h, b), Without(bs, i + 1);
    forall j | 0 < j < |ds| && ds[j] in g && ds[j - 1] in g
      ensures !(g[ds[j - 1]].avail && g[ds[j]].avail && End(g, ds[j - 1]) == ds[j])
    {
      if ds[j - 1] != b && ds[j] != b {
        assert Skip(j, i + 1) == Skip(j - 1, i + 1) + 1;
        assert bs[Skip(j, i + 1) - 1] == ds[j - 1];
      }
    }
  }

  lemma CoalescedSplit(h: Headers, bs: seq<nat>, tail: nat, top: nat, b: nat, i: nat, size: nat)
    requires Phys(h, bs, tail, top) && Coalesced(h, bs) && i < |bs| && bs[i] == b && b in h && size + HEADER + 8 <= h[b].size && !h[b].avail
    ensures h[b].next != 0 ==> h[b].next in h
    ensures Coalesced(SplitAt(h, b, size), With(bs, i, b + HEADER + size))
  {
    hide BlockOk, SplitAt;
    SplitFresh(h, bs, tail, top, b, i, size);
    SplitLive(h, b, size);
    var g, ds := SplitAt(h, b, size), With(bs, i, b + HEADER + size);
    forall j | 0 < j < |ds| && ds[j] in g && ds[j - 1] in g
      ensures !(g[ds[j - 1]].avail && g[ds[j]].avail && End(g, ds[j - 1]) == ds[j])
    {
      if j <= i {
        assert ds[j] == bs[j] && ds[j - 1] == bs[j - 1];
      } else if j > i + 2 {
        assert ds[j] == bs[j - 1] && ds[j - 1] == bs[j - 2];
      }
    }
  }

  // ---- requests ----

  // size > ~0u - 7 - sizeof(HeapBlock)
  predicate TooBig(size: Word) {
    size > W - 1 - 7 - HEADER
  }

  // A request rounded up to eight bytes; zero asks for one byte.
  function Want(size: Word): nat {
    ((if size == 0 then 1 else size) + 7) / 8 * 8
  }

  lemma WantOk(size: Word)
    ensures Want(size) >= 8 && Want(size) % 8 == 0 && size <= Want(size) < size + 9
  {
  }

  predicate NoFit(h: Headers, want: nat) {
    forall a | a in h && h[a].avail :: h[a].size < want
  }

  // No new block for this request: it is absurd, or nothing free fits and the
  // break may not move.
  predicate Exhausted(h: Headers, size: Word, brk: nat, limit: nat) {
    TooBig(size) || (NoFit(h, Want(size)) && brk + HEADER + Want(size) > limit)
  }

  // b becomes large enough together with the free block right after it.
  predicate MergeFits(h: Headers, b: nat, want: nat)
    requires b in h
  {
    var n := h[b].next;
    n in h && n != 0 && h[n].avail && n == End(h, b) && h[b].size + HEADER + h[n].size >= want
  }

  // b is the last block, right below the break, and the break may move far enough.
  predicate GrowFits(h: Headers, b: nat, brk: nat, limit: nat, want: nat)
    requires b in h
  {
    h[b].next == 0 && brk == End(h, b) && b + HEADER + want <= limit
  }

  // size bytes fit where b is.
  predicate Stays(h: Headers, b: nat, size: Word, brk: nat, limit: nat)
    requires b in h
  {
    size <= h[b].size || (!TooBig(size) && (MergeFits(h, b, Want(size)) || GrowFits(h, b, brk, limit, Want(size))))
  }

  // size bytes fit neither where b is nor anywhere else.
  predicate Stuck(h: Headers, b: nat, size: Word, brk: nat, limit: nat)
    requires b in h
  {
    !Stays(h, b, size, brk, limit) && Exhausted(h, size, brk, limit)
  }

  // b is a new live allocation of at least want bytes; the others stay.
  predicate Fresh(h: Headers, g: Headers, b: nat, want: nat) {
    b !in Live(h) && b in g && !g[b].avail && g[b].size >= want && Live(g) == Live(h)[b := g[b].size]
  }

  lemma PhysTop(h: Headers, bs: seq<nat>, tail: nat, top: nat, more: nat)
    requires Phys(h, bs, tail, top) && top <= more
    ensures Phys(h, bs, tail, more)
  {
    forall i | 0 <= i < |bs| ensures BlockOk(h, bs, i, more) {
      assert BlockOk(h, bs, i, top);
    }
  }

  function Appended(h: Headers, tail: nat, b: nat, size: nat): Headers
    requires tail != 0 ==> tail in h
  {
    var g := h[b := Block(size, false, 0, tail, 0, 0)];
    if tail != 0 then g[tail := g[tail].(next := b)] else g
  }

  lemma TailIn(h: Headers, bs: seq<nat>, tail: nat, top: nat)
    requires Phys(h, bs, tail, top)
    ensures tail != 0 ==> bs != [] && tail in h && bs[|bs| - 1] == tail
    ensures tail == 0 ==> bs == []
    ensures top !in h && forall i | 0 <= i < |bs| :: bs[i] != top
  {
    if bs != [] { InHeaders(h, bs, tail, top, |bs| - 1); }
    forall i | 0 <= i < |bs| ensures bs[i] != top {
      InHeaders(h, bs, tail, top, i);
    }
  }

  lemma AppendPhys(h: Headers, bs: seq<nat>, tail: nat, top: nat, size: nat)
    requires Phys(h, bs, tail, top) && 0 < top && size >= 8 && size % 8 == 0
    ensures (tail != 0 ==> tail in h) && top !in h
    ensures Phys(Appended(h, tail, top, size), bs + [top], top, top + HEADER + size)
  {
    TailIn(h, bs, tail, top);
    var g, ds, more := Appended(h, tail, top, size), bs + [top], top + HEADER + size;
    forall i | 0 <= i < |ds| ensures BlockOk(g, ds, i, more) {
      if i < |bs| {
        assert BlockOk(h, bs, i, top);
        DistinctAt(h, bs, tail, top, i, |bs| - 1);
      }
    }
    forall i, j | 0 <= i < j < |ds| ensures Before(g, ds, i, j) {
      assert BlockOk(h, bs, i, top);
      if j < |bs| { assert Before(h, bs, i, j); }
    }
  }

  lemma AppendRest(h: Headers, bins: seq<nat>, chains: seq<seq<nat>>, bs: seq<nat>, tail: nat, top: nat, size: nat)
    requires Phys(h, bs, tail, top) && Binned(h, bins, chains) && Coalesced(h, bs)
    ensures (tail != 0 ==> tail in h) && top !in h
    ensures var g := Appended(h, tail, top, size);
            && Binned(g, bins, chains) && Coalesced(g, bs + [top]) && Live(g) == Live(h)[top := size]
            && Bytes(g, bs + [top]) == Bytes(h, bs) + HEADER + size && (tail != 0 ==> tail != top)
  {
    hide BlockOk;
    TailIn(h, bs, tail, top);
    var g := Appended(h, tail, top, size);
    BinnedSame(h, g, bins, chains);
    BytesAppend(g, bs, [top]);
    forall a | a in bs ensures a in h && a in g && h[a].size == g[a].size {
      var i :| 0 <= i < |bs| && bs[i] == a;
      InHeaders(h, bs, tail, top, i);
    }
    BytesSame(h, g, bs);
  }

  // ---- bookkeeping of live allocations ----

  lemma KeptGrown(live: map<nat, nat>, b: nat, size: nat, d: map<nat, Byte>, e: map<nat, Byte>)
    requires b !in live && Kept(live[b := size], d, e)
    ensures Kept(live, d, e)
  {
    KeptLess(live[b := size], live, d, e);
  }

  // Allocations other than b, which was not live, are kept.
  lemma KeptPart(live: map<nat, nat>, now: map<nat, nat>, b: nat, d: map<nat, Byte>, e: map<nat, Byte>)
    requires b !in live && Kept(now, d, e) && forall a | a in live :: a in now && now[a] == live[a]
    ensures Kept(live, d, e)
  {
    KeptLess(now, live, d, e);
  }

  lemma TakeLive(live: map<nat, nat>, b: nat, m: nat, n: nat)
    ensures live[b := m][b := n] == live[b := n]
  {
  }

  lemma NotLive(h: Headers, b: nat)
    requires b !in h || h[b].avail
    ensures b !in Live(h)
  {
  }

  lemma InLive(h: Headers, b: nat)
    requires b in Live(h)
    ensures b in h && !h[b].avail && Live(h)[b] == h[b].size
  {
  }

  lemma ClearSame(h: Headers, g: Headers, b: nat)
    requires b in h && NextClear(h, b) && SameShape(h, g) && forall a | a in h && a != b :: g[a].avail == h[a].avail
    requires h[b].next != b
    ensures NextClear(g, b)
  {
  }

  // b's allocation is now c's, and c has taken up at least one more.
  predicate Merged(before: map<nat, nat>, after: map<nat, nat>, b: nat, c: nat) {
    && b in before && c in after && (c == b || c !in before)
    && (forall a | a in before && a != b :: a in after && after[a] == before[a])
    && (forall a | a in after && a != c :: a in before && a != b)
    && (c == b ==> after[b] >= before[b])
  }

  lemma MergeLive(live: map<nat, nat>, mid: map<nat, nat>, after: map<nat, nat>, b: nat, c: nat)
    requires b in live && c !in live && c in mid && c in after
    requires mid == live[c := mid[c]] && after == (mid - {b})[c := after[c]]
    ensures Merged(live, after, b, c)
    ensures forall a | a in live :: a in mid && mid[a] == live[a]
  {
  }

  lemma MergeNextLive(live: map<nat, nat>, mid: map<nat, nat>, after: map<nat, nat>, b: nat, n: nat)
    requires b in live && n !in live && b != n && n in mid && b in after && after[b] >= live[b]
    requires mid == live[n := mid[n]] && after == (mid - {n})[b := after[b]]
    ensures Merged(live, after, b, b)
    ensures forall a | a in live :: a in mid && mid[a] == live[a]
  {
  }

  lemma FreeLive(live: map<nat, nat>, l: map<nat, nat>, m: map<nat, nat>, after: map<nat, nat>, b: nat, c: nat)
    requires Merged(live, l, b, c) && Merged(l, m, c, c) && after == m - {c}
    ensures after == live - {b}
    ensures forall a | a in after :: a in live && a in l && a in m && after[a] == live[a] == l[a] == m[a]
  {
  }

  // b's allocation became c's, of at least size bytes; the rest is as it was.
  predicate Resized(before: map<nat, nat>, after: map<nat, nat>, b: nat, c: nat, size: nat) {
    c in after && after[c] >= size && after == (before - {b})[c := after[c]] && (c == b || c !in before)
  }

  lemma ResizedFresh(h: Headers, g: Headers, b: nat, want: nat, size: nat)
    requires Fresh(h, g, b, want) && want >= size
    ensures Resized(Live(h), Live(g), b, b, size)
  {
  }

  lemma ResizedAs(before: map<nat, nat>, after: map<nat, nat>, b: nat, n: nat, size: nat)
    requires after == before[b := n] && n >= size
    ensures Resized(before, after, b, b, size)
  {
  }

  lemma FreshSizes(h: Headers, g: Headers, b: nat, want: nat)
    requires Fresh(h, g, b, want)
    ensures forall a | a in Live(h) :: a in g && Live(h)[a] <= g[a].size
  {
    forall a | a in Live(h) ensures a in g && Live(h)[a] <= g[a].size {
      assert a in Live(g) && Live(g)[a] == Live(h)[a];
    }
  }

  lemma FreshLive(h: Headers, g: Headers, c: nat, want: nat, b: nat)
    requires Fresh(h, g, c, want) && b in Live(h)
    ensures b in g && g[b].size == h[b].size && b != c && b in Live(g) && Live(g)[b] == Live(h)[b] && g[c].size >= want && c in g
  {
    assert b in Live(g) && Live(g)[b] == Live(h)[b];
  }

  lemma SplitKeeps(live: map<nat, nat>, mid: map<nat, nat>, after: map<nat, nat>, b: nat, d: map<nat, Byte>, e: map<nat, Byte>)
    requires Merged(live, mid, b, b) && b in after && after == mid[b := after[b]] && after[b] >= live[b] && Kept(after, d, e)
    ensures Kept(live, d, e) && after == live[b := after[b]]
  {
    KeptLess(after, live, d, e);
  }

  lemma MoveLive(live: map<nat, nat>, mid: map<nat, nat>, after: map<nat, nat>, b: nat, c: nat, size: nat)
    requires b in live && c !in live && c in mid && mid == live[c := mid[c]] && mid[c] >= size && after == mid - {b}
    ensures Resized(live, after, b, c, size) && c in after
    ensures forall a | a in live - {b} :: a in after && after[a] == live[a]
  {
  }

  lemma CopiedNone(d: map<nat, Byte>, p: nat, e: map<nat, Byte>, r: nat)
    ensures Copied(d, p, e, r, 0)
  {
  }

  lemma CopiedOne(d0: map<nat, Byte>, p: nat, d: map<nat, Byte>, e: map<nat, Byte>, r: nat, i: nat)
    requires Copied(d0, p, d, r, i) && SameByte(d0, p + i, d, p + i) && SameByte(d, p + i, e, r + i)
    requires forall y: nat :: y != r + i ==> SameByte(d, y, e, y)
    ensures Copied(d0, p, e, r, i + 1)
  {
    forall k | 0 <= k < i + 1 ensures CopiedAt(d0, p, e, r, k) {
      if k < i { assert CopiedAt(d0, p, d, r, k) && SameByte(d, r + k, e, r + k); }
    }
  }

  // Kept bytes are a copy of themselves.
  lemma CopiedSelf(live: map<nat, nat>, b: nat, d: map<nat, Byte>, e: map<nat, Byte>)
    requires b in live && Kept(live, d, e)
    ensures Copied(d, b + HEADER, e, b + HEADER, live[b])
  {
    var p := b + HEADER;
    forall i | 0 <= i < live[b] ensures CopiedAt(d, p, e, p, i) {
      assert InPayload(live, b, p + i);
    }
  }

  lemma CopiedKept(live: map<nat, nat>, b: nat, d: map<nat, Byte>, d1: map<nat, Byte>, d2: map<nat, Byte>, r: nat)
    requires b in live && Kept(live, d, d1) && Copied(d1, b + HEADER, d2, r, live[b])
    ensures Copied(d, b + HEADER, d2, r, live[b])
  {
    var p := b + HEADER;
    forall i | 0 <= i < live[b] ensures CopiedAt(d, p, d2, r, i) {
      assert InPayload(live, b, p + i);
      assert CopiedAt(d1, p, d2, r, i);
    }
  }

  lemma CopiedThen(live: map<nat, nat>, d: map<nat, Byte>, p: nat, e: map<nat, Byte>, f: map<nat, Byte>, c: nat, n: nat)
    requires c in live && n <= live[c] && Kept(live, e, f) && Copied(d, p, e, c + HEADER, n)
    ensures Copied(d, p, f, c + HEADER, n)
  {
    var r := c + HEADER;
    forall i | 0 <= i < n ensures CopiedAt(d, p, f, r, i) {
      assert InPayload(live, c, r + i);
      assert CopiedAt(d, p, e, r, i);
    }
  }

  lemma ProductFits(count: Word, size: Word)
    ensures count * size >= 0
    ensures size != 0 ==> (count > (W - 1) / size <==> count * size > W - 1)
    ensures size == 0 ==> count * size == 0
  {
    if size != 0 {
      QuotientTimes(W - 1, size);
      QuotientFits((W - 1) / size, count, size, W - 1);
    }
  }

  lemma QuotientTimes(n: nat, d: nat)
    requires d > 0
    ensures n / d * d <= n < (n / d + 1) * d
  {
    assert n == d * (n / d) + n % d;
  }

  lemma QuotientFits(q: nat, count: nat, size: nat, n: nat)
    requires q * size <= n < (q + 1) * size
    ensures count > q <==> count * size > n
    ensures count * size >= 0
  {
    if count > q { MulLe(q + 1, count, size); } else { MulLe(count, q, size); }
  }

  // The last block grown to the break.
  lemma GrowPhys(h: Headers, bs: seq<nat>, tail: nat, top: nat, b: nat, size: nat)
    requires Phys(h, bs, tail, top) && b in h && h[b].next == 0 && End(h, b) == top && h[b].size <= size && size % 8 == 0
    ensures Phys(h[b := h[b].(size := size)], bs, tail, b + HEADER + size)
    ensures bs != [] && bs[|bs| - 1] == b
  {
    var i := At(h, bs, tail, top, b);
    if i + 1 < |bs| { InHeaders(h, bs, tail, top, i + 1); }
    var g, more := h[b := h[b].(size := size)], b + HEADER + size;
    forall j | 0 <= j < |bs| ensures BlockOk(g, bs, j, more) {
      assert BlockOk(h, bs, j, top);
      DistinctAt(h, bs, tail, top, i, j);
    }
    forall j, k | 0 <= j < k < |bs| ensures Before(g, bs, j, k) {
      assert Before(h, bs, j, k);
      DistinctAt(h, bs, tail, top, i, j);
    }
  }

  lemma GrowRest(h: Headers, bins: seq<nat>, chains: seq<seq<nat>>, bs: seq<nat>, tail: nat, top: nat, b: nat, size: nat)
    requires Phys(h, bs, tail, top) && Binned(h, bins, chains) && Coalesced(h, bs) && b in h && !h[b].avail && h[b].size <= size
    requires bs != [] && bs[|bs| - 1] == b
    ensures var g := h[b := h[b].(size := size)];
            && Binned(g, bins, chains) && Coalesced(g, bs) && Live(g) == Live(h)[b := size]
            && Bytes(g, bs) == Bytes(h, bs) + (size - h[b].size)
  {
    hide BlockOk;
    var g := h[b := h[b].(size := size)];
    var i := |bs| - 1;
    BinnedSame(h, g, bins, chains);
    SplitSum(h, bs, i);
    SplitSum(g, bs, i);
    forall a | a in bs[..i] ensures a in h && a in g && h[a].size == g[a].size {
      var l :| 0 <= l < i && bs[l] == a;
      DistinctAt(h, bs, tail, top, l, i);
      InHeaders(h, bs, tail, top, l);
    }
    BytesSame(h, g, bs[..i]);
  }

  // ---- the heap ----

  class Heap {
    var hdr: Headers
    var tail: nat
    var bins: seq<nat>
    // the program break, and how far it may move
    var brk: nat
    const limit: nat
    // payload bytes that have been written
    var data: map<nat, Byte>
    // every block in address order; every bin's list; bytes obtained so far
    ghost var blocks: seq<nat>
    ghost var chains: seq<seq<nat>>
    ghost var granted: nat

    ghost predicate Sound()
      reads this
    {
      && Phys(hdr, blocks, tail, brk) && Binned(hdr, bins, chains)
      && granted == Bytes(hdr, blocks) && 0 < brk <= limit < W
    }

    ghost predicate Valid()
      reads this
    {
      Sound() && Coalesced(hdr, blocks)
    }

    constructor (start: nat, limit: nat)
      requires 0 < start <= limit < W
      ensures Valid() && Live(hdr) == map[] && granted == 0 && brk == start && this.limit == limit
    {
      hdr, tail, bins, brk, data := map[], 0, seq(32, _ => 0), start, map[];
      blocks, chains, granted := [], seq(32, _ => []), 0;
      this.limit := limit;
    }

    method BinIndex(size: nat) returns (index: nat)
      ensures index == Log2(size)
    {
      index := 0;
      var n := size;
      while n > 1
        invariant index + Log2(n) == Log2(size)
      {
        n := n / 2;
        index := index + 1;
      }
    }

    // One header rewritten in place.
    method Put(a: nat, b: Block)
      modifies this`hdr, this`data
      ensures hdr == old(hdr)[a := b] && data == Overwritten(old(data), a)
    {
      hdr := hdr[a := b];
      data := Overwritten(data, a);
    }

    lemma SmallBin(b: nat)
      requires Sound() && b in hdr
      ensures Log2(hdr[b].size) < 32 && 0 < b
    {
      var i := At(hdr, blocks, tail, brk, b);
      assert Pow2(32) == W by { Pow2Values(); }
      Log2Bound(hdr[b].size, 32);
    }

    method InsertFree(b: nat)
      requires Sound() && b in hdr && !hdr[b].avail
      modifies this`hdr, this`data, this`bins, this`chains
      ensures Sound() && SameShape(old(hdr), hdr) && hdr[b].avail
      ensures forall a | a in hdr && a != b :: hdr[a].avail == old(hdr)[a].avail
      ensures Live(hdr) == old(Live(hdr)) - {b}
      ensures Kept(old(Live(hdr)), old(data), data)
    {
      hide Phys, Binned, Log2, Live, Kept, Bytes, Overwritten;
      SmallBin(b);
      var index := BinIndex(hdr[b].size);
      SizeOfBins();
      var head := bins[index];
      InsertBinned(hdr, bins, chains, b, index);
      HeadFree(index);
      InsertShape(hdr, head, b);
      PhysSame(hdr, Inserted(hdr, head, b), blocks, tail, brk);
      HeaderKeeps(hdr, blocks, tail, brk, b, data);
      Put(b, hdr[b].(avail := true, fprev := 0, fnext := head));
      if head != 0 {
        HeaderKeeps(old(hdr), blocks, tail, brk, head, data);
        KeptThen(Live(old(hdr)), old(data), data, Overwritten(data, head));
        Put(head, hdr[head].(fprev := b));
      }
      bins := bins[index := b];
      chains := chains[index := [b] + chains[index]];
    }

    lemma SizeOfBins()
      requires Sound()
      ensures |bins| == 32 == |chains|
    {
    }

    lemma HeadFree(k: nat)
      requires Sound() && k < 32
      ensures |bins| == 32 && (bins[k] != 0 ==> bins[k] in hdr && hdr[bins[k]].avail)
    {
      if chains[k] != [] {
        assert Chain(hdr, chains[k], k);
        assert Linked(hdr, chains[k], 0, k);
      }
    }

    method RemoveFree(b: nat)
      requires Sound() && b in hdr && hdr[b].avail
      modifies this`hdr, this`data, this`bins, this`chains
      ensures Sound() && SameShape(old(hdr), hdr) && b in hdr && !hdr[b].avail
      ensures forall a | a in old(hdr) && a != b :: hdr[a].avail == old(hdr)[a].avail
      ensures Live(hdr) == old(Live(hdr))[b := old(hdr)[b].size]
      ensures Kept(old(Live(hdr)), old(data), data)
    {
      hide Phys, Binned, Log2, Live, Kept, Bytes, Overwritten, Without;
      ghost var k, j := RemoveBinned(hdr, bins, chains, b);
      PhysSame(hdr, Unlinked(hdr, b), blocks, tail, brk);
      SizeOfBins();
      var p, n := hdr[b].fprev, hdr[b].fnext;
      KeptSelf(Live(hdr), data);
      if p != 0 {
        HeaderKeeps(old(hdr), blocks, tail, brk, p, data);
        Put(p, hdr[p].(fnext := n));
      } else {
        var index := BinIndex(hdr[b].size);
        bins := bins[index := n];
      }
      if n != 0 {
        HeaderKeeps(old(hdr), blocks, tail, brk, n, data);
        KeptThen(Live(old(hdr)), old(data), data, Overwritten(data, n));
        Put(n, hdr[n].(fprev := p));
      }
      HeaderKeeps(old(hdr), blocks, tail, brk, b, data);
      KeptThen(Live(old(hdr)), old(data), data, Overwritten(data, b));
      Put(b, hdr[b].(fnext := 0, fprev := 0, avail := false));
      chains := chains[k := Without(chains[k], j)];
    }

    // join_next: contiguous, both out of the bins.
    method JoinNext(b: nat)
      requires Sound() && b in hdr && !hdr[b].avail && hdr[b].next != 0 && End(hdr, b) == hdr[b].next
      requires hdr[b].next in hdr && !hdr[hdr[b].next].avail
      modifies this`hdr, this`data, this`tail, this`blocks
      ensures Sound() && b in hdr && !hdr[b].avail
      ensures var n := old(hdr)[b].next;
              && End(hdr, b) == End(old(hdr), n) && hdr[b].next == old(hdr)[n].next && hdr[b].prev == old(hdr)[b].prev
              && hdr.Keys == old(hdr).Keys - {n} && n != b
              && Live(hdr) == (old(Live(hdr)) - {n})[b := hdr[b].size]
      ensures hdr[b].size == old(hdr)[b].size + HEADER + old(hdr)[old(hdr)[b].next].size
      ensures forall a | a in hdr && a != b :: hdr[a].avail == old(hdr)[a].avail && hdr[a].size == old(hdr)[a].size
      ensures old(Coalesced(hdr, blocks)) ==> Coalesced(hdr, blocks)
      ensures Kept(old(Live(hdr)), old(data), data)
    {
      hide Phys, Binned, Log2, Live, Kept, Bytes, Overwritten, Without, Coalesced;
      ghost var i := At(hdr, blocks, tail, brk, b);
      JoinPhys(hdr, blocks, tail, brk, b, i);
      JoinBytes(hdr, blocks, tail, brk, b, i);
      Loops(hdr, blocks, tail, brk, b, i);
      JoinLive(hdr, b);
      BinnedSame(hdr, Joined(hdr, b), bins, chains);
      if Coalesced(hdr, blocks) { CoalescedJoin(hdr, blocks, tail, brk, b, i); }
      var n := hdr[b].next;
      var after := hdr[n].next;
      HeaderKeeps(hdr, blocks, tail, brk, b, data);
      Put(b, hdr[b].(size := hdr[b].size + HEADER + hdr[n].size, next := after));
      if after != 0 {
        HeaderKeeps(old(hdr), blocks, tail, brk, after, data);
        KeptThen(Live(old(hdr)), old(data), data, Overwritten(data, after));
        Put(after, hdr[after].(prev := b));
      } else {
        tail := b;
      }
      hdr := hdr - {n};
      blocks := Without(blocks, i + 1);
    }

    // split_block: what b does not need becomes a free block.
    method SplitBlock(b: nat, size: nat)
      requires Valid() && b in hdr && !hdr[b].avail && 8 <= size <= hdr[b].size && size % 8 == 0 && NextClear(hdr, b)
      modifies this`hdr, this`data, this`tail, this`bins, this`blocks, this`chains
      ensures Valid() && b in hdr && !hdr[b].avail && size <= hdr[b].size <= old(hdr)[b].size
      ensures hdr[b].size < size + HEADER + 8
      ensures Live(hdr) == old(Live(hdr))[b := hdr[b].size]
      ensures Kept(Live(hdr), old(data), data)
    {
      hide Phys, Binned, Log2, Live, Kept, Bytes, Overwritten, With, Coalesced;
      LiveHas(hdr, b);
      if hdr[b].size - size < HEADER + 8 {
        KeptSelf(Live(hdr), data);
        return;
      }
      ghost var i := At(hdr, blocks, tail, brk, b);
      SplitFresh(hdr, blocks, tail, brk, b, i, size);
      SplitPhys(hdr, blocks, tail, brk, b, i, size);
      SplitBytes(hdr, blocks, tail, brk, b, i, size);
      SplitLive(hdr, b, size);
      CoalescedSplit(hdr, blocks, tail, brk, b, i, size);
      BinnedSame(hdr, SplitAt(hdr, b, size), bins, chains);
      ghost var g, ds, top := SplitAt(hdr, b, size), With(blocks, i, b + HEADER + size), brk;
      ghost var tail' := if hdr[b].next != 0 then tail else b + HEADER + size;
      var n := b + HEADER + size;
      Put(n, Block(hdr[b].size - size - HEADER, false, hdr[b].next, b, 0, 0));
      HeaderKeeps(g, ds, tail', top, n, old(data));
      if hdr[n].next != 0 {
        HeaderKeeps(g, ds, tail', top, hdr[n].next, data);
        KeptThen(Live(g), old(data), data, Overwritten(data, hdr[n].next));
        Put(hdr[n].next, hdr[hdr[n].next].(prev := n));
      } else {
        tail := n;
      }
      HeaderKeeps(g, ds, tail', top, b, data);
      KeptThen(Live(g), old(data), data, Overwritten(data, b));
      Put(b, hdr[b].(next := n, size := size));
      blocks := ds;
      ClearAfterSplit(old(hdr), g, b, n);
      ghost var d := data;
      InsertFree(n);
      CoalescedInsert(g, hdr, blocks, tail, brk, n);
      KeptThen(Live(g), old(data), d, data);
      SplitResult(old(hdr), g, hdr, b, n, size);
      KeptLess(Live(g), Live(hdr), old(data), data);
    }

    // heap_break: the break's old value, or 0 when it may not move that far.
    method HeapBreak(n: nat, grow: bool) returns (r: nat)
      requires Valid()
      modifies this`brk
      ensures Valid()
      ensures !grow ==> r == brk == old(brk)
      ensures grow ==> (r == 0 <==> old(brk) + n > limit) && (r == 0 ==> brk == old(brk)) && (r != 0 ==> r == old(brk) && brk == r + n)
    {
      hide Binned, Coalesced, Bytes;
      if !grow { return brk; }
      if n > W - 1 - brk || brk + n > limit { return 0; }
      PhysTop(hdr, blocks, tail, brk, brk + n);
      r := brk;
      brk := brk + n;
    }

    // Someone else may move the break up.
    method ForeignGrowth(n: nat)
      requires Valid() && brk + n <= limit
      modifies this`brk
      ensures Valid() && brk == old(brk) + n
    {
      var _ := HeapBreak(n, true);
    }

    // First fit, from the request's own bin upwards.
    method FindFree(want: nat) returns (b: nat)
      requires Valid() && want > 0
      ensures b == 0 ==> NoFit(hdr, want)
      ensures b != 0 ==> b in hdr && hdr[b].avail && hdr[b].size >= want
    {
      hide Phys, Log2, Coalesced, Bytes;
      var index := BinIndex(want);
      SizeOfBins();
      forall a | a in hdr && hdr[a].avail && Log2(hdr[a].size) < index ensures hdr[a].size < want {
        if hdr[a].size >= want { Log2Mono(want, hdr[a].size); }
      }
      while index < 32
        invariant forall a | a in hdr && hdr[a].avail && Log2(hdr[a].size) < index :: hdr[a].size < want
      {
        b := bins[index];
        ghost var c, j := chains[index], 0;
        assert Chain(hdr, c, index);
        if c != [] { assert Linked(hdr, c, 0, index); }
        while b != 0
          invariant 0 <= j <= |c| && b == (if j < |c| then c[j] else 0) && (b == 0 ==> j == |c|)
          invariant forall l | 0 <= l < j :: c[l] in hdr && hdr[c[l]].size < want
          decreases |c| - j
        {
          assert Linked(hdr, c, j, index);
          if hdr[b].size >= want { return; }
          b := hdr[b].fnext;
          j := j + 1;
          if j < |c| { assert Linked(hdr, c, j, index); }
        }
        forall a | a in hdr && hdr[a].avail && Log2(hdr[a].size) < index + 1 ensures hdr[a].size < want {
          if Log2(hdr[a].size) == index {
            var l := InChain(hdr, c, index, a);
          }
        }
        index := index + 1;
      }
      b := 0;
      NoneFits(want, index);
    }

    lemma NoneFits(want: nat, index: nat)
      requires Valid() && index >= 32 && forall a | a in hdr && hdr[a].avail && Log2(hdr[a].size) < index :: hdr[a].size < want
      ensures NoFit(hdr, want)
    {
    }

    // A fresh block at the old break becomes the tail.
    method Append(b: nat, size: nat, ghost top: nat)
      requires b == top && Phys(hdr, blocks, tail, top) && Binned(hdr, bins, chains) && Coalesced(hdr, blocks)
      requires 0 < top && brk == top + HEADER + size <= limit < W && size >= 8 && size % 8 == 0 && granted == Bytes(hdr, blocks)
      modifies this`hdr, this`data, this`tail, this`blocks, this`granted
      ensures Valid() && b !in old(hdr) && b in hdr && !hdr[b].avail && hdr[b].size == size
      ensures Live(hdr) == old(Live(hdr))[b := size] && granted == old(granted) + HEADER + size
      ensures Kept(old(Live(hdr)), old(data), data)
    {
      hide Phys, Binned, Log2, Live, Kept, Bytes, Overwritten, Coalesced;
      AppendPhys(hdr, blocks, tail, top, size);
      ghost var g := Appended(hdr, tail, b, size);
      NotLive(hdr, b);
      AppendRest(hdr, bins, chains, blocks, tail, top, size);
      var last := tail;
      Put(b, Block(size, false, 0, last, 0, 0));
      HeaderKeeps(g, blocks + [b], b, brk, b, old(data));
      if last != 0 {
        HeaderKeeps(g, blocks + [b], b, brk, last, data);
        KeptThen(Live(g), old(data), data, Overwritten(data, last));
        Put(last, hdr[last].(next := b));
      }
      KeptGrown(old(Live(hdr)), b, size, old(data), data);
      tail := b;
      blocks := blocks + [b];
      granted := granted + HEADER + size;
    }

    method Malloc(size: Word) returns (p: nat)
      requires Valid()
      modifies this
      ensures Valid()
      // it fails exactly when the request is absurd, or nothing free fits and the break may not move
      ensures p == 0 <==> Exhausted(old(hdr), size, old(brk), limit)
      ensures p == 0 ==> hdr == old(hdr) && data == old(data) && brk == old(brk)
      ensures p != 0 ==> p > HEADER && Fresh(old(hdr), hdr, p - HEADER, Want(size))
      ensures Kept(old(Live(hdr)), old(data), data)
      // the break moves only when no free block is large enough
      ensures brk != old(brk) ==> NoFit(old(hdr), Want(size)) && brk == old(brk) + HEADER + Want(size)
      ensures granted - old(granted) == brk - old(brk)
    {
      hide Phys, Binned, Log2, Live, Kept, Bytes, Coalesced, NextClear, PrevClear;
      KeptSelf(Live(hdr), data);
      WantOk(size);
      if TooBig(size) { return 0; }
      var want := Want(size);
      var b := FindFree(want);
      if b != 0 {
        FreeIsClear(hdr, blocks, tail, brk, b);
        NotLive(hdr, b);
        PrevIn(b);
        RemoveFree(b);
        CoalescedLess(old(hdr), hdr, blocks);
        ClearSame(old(hdr), hdr, b);
        ghost var d, l := data, Live(hdr);
        SplitBlock(b, want);
        KeptPart(old(Live(hdr)), Live(hdr), b, d, data);
        KeptThen(old(Live(hdr)), old(data), d, data);
        BlockAddress(b);
        p := b + HEADER;
        TakeLive(old(Live(hdr)), b, old(hdr)[b].size, hdr[b].size);
        return;
      }
      b := HeapBreak(HEADER + want, true);
      if b == 0 { return 0; }
      Append(b, want, b);
      NotLive(old(hdr), b);
      p := b + HEADER;
    }

    lemma BlockAddress(b: nat)
      requires Valid() && b in hdr
      ensures 0 < b
    {
      hide Binned, Coalesced, Bytes;
      var i := At(hdr, blocks, tail, brk, b);
    }

    // Merge with contiguous free neighbours, then into the bins.
    method Free(p: nat)
      requires Valid() && (p == 0 || (p > HEADER && p - HEADER in Live(hdr)))
      modifies this
      ensures Valid() && brk == old(brk) && granted == old(granted)
      ensures Live(hdr) == old(Live(hdr)) - {p - HEADER}
      ensures Kept(Live(hdr), old(data), data)
    {
      hide Phys, Binned, Log2, Live, Kept, Bytes, Coalesced, NextClear, PrevClear;
      KeptSelf(Live(hdr), data);
      if p == 0 { return; }
      var b := p - HEADER;
      InLive(hdr, b);
      b := MergePrev(b);
      ghost var d, l := data, Live(hdr);
      MergeNext(b);
      ghost var d2 := data;
      ghost var h := hdr;
      InsertFree(b);
      CoalescedInsert(h, hdr, blocks, tail, brk, b);
      FreeLive(old(Live(hdr)), l, Live(h), Live(hdr), p - HEADER, b);
      KeptLess(old(Live(hdr)), Live(hdr), old(data), d);
      KeptLess(l, Live(hdr), d, d2);
      KeptLess(Live(h), Live(hdr), d2, data);
      KeptThen(Live(hdr), old(data), d, d2);
      KeptThen(Live(hdr), old(data), d2, data);
    }

    // b, or the free block before it grown over it.
    method MergePrev(b: nat) returns (c: nat)
      requires Valid() && b in hdr && !hdr[b].avail
      modifies this
      ensures Valid() && c in hdr && !hdr[c].avail && PrevClear(hdr, c) && brk == old(brk) && granted == old(granted)
      ensures Merged(old(Live(hdr)), Live(hdr), b, c)
      ensures Kept(old(Live(hdr)), old(data), data)
    {
      hide Phys, Binned, Log2, Live, Kept, Bytes, Coalesced, NextClear;
      KeptSelf(Live(hdr), data);
      PrevIn(b);
      LiveHas(hdr, b);
      var prev := hdr[b].prev;
      if prev == 0 || !hdr[prev].avail || End(hdr, prev) != b {
        return b;
      }
      FreeIsClear(hdr, blocks, tail, brk, prev);
      PrevOfPrev(b);
      NotLive(hdr, prev);
      c := prev;
      RemoveFree(c);
      CoalescedLess(old(hdr), hdr, blocks);
      ghost var d, l, h := data, Live(hdr), hdr;
      JoinNext(c);
      KeptLess(l, old(Live(hdr)), d, data);
      KeptThen(old(Live(hdr)), old(data), d, data);
      MergeLive(old(Live(hdr)), l, Live(hdr), b, c);
    }

    // The links around a block are what they should be.
    lemma PrevIn(b: nat)
      requires Valid() && b in hdr
      ensures hdr[b].prev != 0 ==> hdr[b].prev in hdr && hdr[hdr[b].prev].next == b && hdr[b].prev != b
      ensures hdr[b].next != 0 ==> hdr[b].next in hdr && hdr[hdr[b].next].prev == b && hdr[b].next != b
    {
      hide Binned, Coalesced, Bytes;
      var i := At(hdr, blocks, tail, brk, b);
      if i > 0 {
        InHeaders(hdr, blocks, tail, brk, i - 1);
        assert BlockOk(hdr, blocks, i - 1, brk);
        DistinctAt(hdr, blocks, tail, brk, i - 1, i);
      }
      if i + 1 < |blocks| {
        InHeaders(hdr, blocks, tail, brk, i + 1);
        assert BlockOk(hdr, blocks, i + 1, brk);
        DistinctAt(hdr, blocks, tail, brk, i, i + 1);
      }
    }

    lemma PrevOfPrev(b: nat)
      requires Valid() && b in hdr && hdr[b].prev != 0
      ensures hdr[b].prev in hdr && hdr[hdr[b].prev].prev != b && hdr[hdr[b].prev].prev != hdr[b].prev
    {
      hide Binned, Coalesced, Bytes;
      var i := At(hdr, blocks, tail, brk, b);
      InHeaders(hdr, blocks, tail, brk, i - 1);
      InHeaders(hdr, blocks, tail, brk, i);
      assert BlockOk(hdr, blocks, i - 1, brk);
      if i > 1 {
        DistinctAt(hdr, blocks, tail, brk, i - 2, i);
        DistinctAt(hdr, blocks, tail, brk, i - 2, i - 1);
      }
    }

    method MergeNext(b: nat)
      requires Valid() && b in hdr && !hdr[b].avail
      modifies this
      ensures Valid() && b in hdr && !hdr[b].avail && NextClear(hdr, b) && brk == old(brk) && granted == old(granted)
      ensures old(PrevClear(hdr, b)) ==> PrevClear(hdr, b)
      ensures var n := old(hdr)[b].next;
              n != 0 && n in old(hdr) && old(hdr)[n].avail && End(old(hdr), b) == n ==>
                hdr[b].size == old(hdr)[b].size + HEADER + old(hdr)[n].size
      ensures Merged(old(Live(hdr)), Live(hdr), b, b) && hdr[b].size >= old(hdr)[b].size
      ensures Kept(old(Live(hdr)), old(data), data)
    {
      hide Phys, Binned, Log2, Live, Kept, Bytes, Coalesced;
      KeptSelf(Live(hdr), data);
      LiveHas(hdr, b);
      PrevIn(b);
      var n := hdr[b].next;
      if n == 0 || !hdr[n].avail || End(hdr, b) != n {
        return;
      }
      FreeIsClear(hdr, blocks, tail, brk, n);
      PrevIn(n);
      NotLive(hdr, n);
      TwoPrev(b);
      RemoveFree(n);
      CoalescedLess(old(hdr), hdr, blocks);
      ghost var d, l := data, Live(hdr);
      JoinNext(b);
      KeptLess(l, old(Live(hdr)), d, data);
      KeptThen(old(Live(hdr)), old(data), d, data);
      MergeNextLive(old(Live(hdr)), l, Live(hdr), b, n);
    }

    lemma TwoPrev(b: nat)
      requires Valid() && b in hdr && hdr[b].next != 0
      ensures hdr[b].prev != hdr[b].next && hdr[b].prev != b
      ensures hdr[b].next in hdr && hdr[hdr[b].next].next != b && hdr[hdr[b].next].next != hdr[b].next
    {
      hide Binned, Coalesced, Bytes;
      var i := At(hdr, blocks, tail, brk, b);
      InHeaders(hdr, blocks, tail, brk, i);
      InHeaders(hdr, blocks, tail, brk, i + 1);
      Loops(hdr, blocks, tail, brk, b, i);
      if i > 0 {
        DistinctAt(hdr, blocks, tail, brk, i - 1, i + 1);
        DistinctAt(hdr, blocks, tail, brk, i - 1, i);
      }
    }

    // A byte of an allocation's payload written, or copied from elsewhere.
    method SetByte(x: nat, v: Byte)
      modifies this`data
      ensures data == old(data)[x := v]
    {
      data := data[x := v];
    }

    method CopyByte(from: nat, x: nat)
      modifies this`data
      ensures forall y :: y != x ==> SameByte(old(data), y, data, y)
      ensures SameByte(old(data), from, data, x)
    {
      if from in data { data := data[x := data[from]]; } else { data := data - {x}; }
    }

    method ZeroBytes(p: nat, n: nat)
      modifies this`data
      ensures forall x | p <= x < p + n :: x in data && data[x] == 0
      ensures forall x: nat | !(p <= x < p + n) :: SameByte(old(data), x, data, x)
    {
      for i := 0 to n
        invariant forall x | p <= x < p + i :: x in data && data[x] == 0
        invariant forall x: nat | !(p <= x < p + i) :: SameByte(old(data), x, data, x)
      {
        ghost var d := data;
        SetByte(p + i, 0);
        forall x: nat | !(p <= x < p + i + 1) ensures SameByte(old(data), x, data, x) {
          assert SameByte(old(data), x, d, x);
        }
      }
    }

    // Writing b's payload leaves every other allocation alone.
    lemma PayloadKeeps(live: map<nat, nat>, b: nat, n: nat, d: map<nat, Byte>, e: map<nat, Byte>)
      requires Valid() && b in hdr && b !in live && n <= hdr[b].size
      requires forall a | a in live :: a in hdr && live[a] <= hdr[a].size
      requires forall x: nat | !(b + HEADER <= x < b + HEADER + n) :: SameByte(d, x, e, x)
      ensures Kept(live, d, e)
    {
      hide Phys, Binned, Coalesced, Bytes;
      forall a, x | InPayload(live, a, x) ensures SameByte(d, x, e, x) {
        Apart(hdr, blocks, tail, brk, a, b);
      }
    }

    method Calloc(count: Word, size: Word) returns (p: nat)
      requires Valid()
      modifies this
      ensures Valid()
      // it fails exactly when the product overflows or malloc has nothing
      ensures p == 0 <==> count * size >= W || Exhausted(old(hdr), count * size, old(brk), limit)
      ensures p == 0 ==> Live(hdr) == old(Live(hdr))
      ensures p != 0 ==> count * size < W && p > HEADER && Fresh(old(hdr), hdr, p - HEADER, Want(count * size))
      ensures p != 0 ==> forall x | p <= x < p + count * size :: x in data && data[x] == 0
      ensures Kept(old(Live(hdr)), old(data), data)
    {
      hide Phys, Binned, Log2, Bytes, Coalesced, Kept, Want, SameByte;
      KeptSelf(Live(hdr), data);
      ProductFits(count, size);
      if size != 0 && count > (W - 1) / size { return 0; }
      var n := count * size;
      p := Malloc(n);
      if p == 0 { return; }
      WantOk(n);
      ghost var d := data;
      ZeroBytes(p, n);
      FreshSizes(old(hdr), hdr, p - HEADER, Want(n));
      PayloadKeeps(old(Live(hdr)), p - HEADER, n, d, data);
      KeptThen(old(Live(hdr)), old(data), d, data);
    }

    // The copy loop of realloc: n bytes, between disjoint places.
    method CopyBytes(p: nat, out: nat, n: nat)
      requires p + n <= out || out + n <= p
      modifies this`data
      ensures forall x: nat | !(out <= x < out + n) :: SameByte(old(data), x, data, x)
      ensures Copied(old(data), p, data, out, n)
    {
      hide Copied;
      CopiedNone(data, p, data, out);
      for i := 0 to n
        invariant forall x: nat | !(out <= x < out + i) :: SameByte(old(data), x, data, x)
        invariant Copied(old(data), p, data, out, i)
      {
        ghost var d := data;
        CopyByte(p + i, out + i);
        forall x: nat | !(out <= x < out + i + 1) ensures SameByte(old(data), x, data, x) {
          assert SameByte(old(data), x, d, x) && SameByte(d, x, data, x);
        }
        CopiedOne(old(data), p, d, data, out, i);
      }
    }

    // Room at the break: the last block grows where it is.
    method GrowLast(b: nat, size: nat) returns (ok: bool)
      requires Valid() && b in hdr && !hdr[b].avail && hdr[b].next == 0 && brk == End(hdr, b) && hdr[b].size <= size && size % 8 == 0
      modifies this
      ensures Valid()
      ensures !ok ==> hdr == old(hdr) && data == old(data) && brk == old(brk) && granted == old(granted)
      ensures ok <==> b + HEADER + size <= limit
      ensures ok ==> b in hdr && !hdr[b].avail && hdr[b].size == size && Live(hdr) == old(Live(hdr))[b := size]
      ensures ok ==> Kept(old(Live(hdr)), old(data), data) && granted - old(granted) == brk - old(brk)
    {
      hide Phys, Binned, Log2, Live, Kept, Bytes, Overwritten, Coalesced;
      ghost var top := brk;
      GrowPhys(hdr, blocks, tail, top, b, size);
      GrowRest(hdr, bins, chains, blocks, tail, top, b, size);
      ghost var g := hdr[b := hdr[b].(size := size)];
      var r := HeapBreak(size - hdr[b].size, true);
      if r == 0 { return false; }
      granted := granted + (size - hdr[b].size);
      HeaderKeeps(old(hdr), blocks, tail, brk, b, data) by { PhysTop(old(hdr), blocks, tail, top, brk); }
      Put(b, hdr[b].(size := size));
      ok := true;
    }

    method Realloc(p: nat, size: Word) returns (r: nat)
      requires Valid() && (p == 0 || (p > HEADER && p - HEADER in Live(hdr)))
      modifies this
      ensures Valid()
      ensures p != 0 && size == 0 ==> r == 0 && Live(hdr) == old(Live(hdr)) - {p - HEADER} && Kept(Live(hdr), old(data), data)
      // a failure changes nothing live
      ensures r == 0 && (p == 0 || size != 0) ==> Live(hdr) == old(Live(hdr)) && Kept(old(Live(hdr)), old(data), data)
      // success keeps the old contents and every other allocation
      ensures r != 0 ==> r > HEADER && Resized(old(Live(hdr)), Live(hdr), if p == 0 then r - HEADER else p - HEADER, r - HEADER, size)
      ensures r != 0 ==> Kept(old(Live(hdr)) - {if p == 0 then r - HEADER else p - HEADER}, old(data), data)
      ensures r != 0 && p != 0 ==> Copied(old(data), p, data, r, old(Live(hdr))[p - HEADER])
      // it fails exactly when the size fits neither where the block is nor anywhere else
      ensures p == 0 ==> (r == 0 <==> Exhausted(old(hdr), size, old(brk), limit))
      ensures p != 0 && size != 0 ==> (r == 0 <==> Stuck(old(hdr), p - HEADER, size, old(brk), limit))
      // and moves the allocation only when it must
      ensures p != 0 && size != 0 && Stays(old(hdr), p - HEADER, size, old(brk), limit) ==> r == p
      ensures p != 0 && 0 < size <= old(hdr)[p - HEADER].size ==> hdr == old(hdr) && data == old(data)
    {
      hide Phys, Binned, Log2, Bytes, Overwritten, Coalesced, Kept, Copied, NextClear, PrevClear, Live;
      KeptSelf(Live(hdr), data);
      WantOk(size);
      if p == 0 {
        r := Malloc(size);
        if r != 0 {
          ResizedFresh(old(hdr), hdr, r - HEADER, Want(size), size);
          KeptLess(old(Live(hdr)), old(Live(hdr)) - {r - HEADER}, old(data), data);
        }
        return;
      }
      if size == 0 {
        Free(p);
        return 0;
      }
      var b := p - HEADER;
      InLive(hdr, b);
      BlockAddress(b);
      if size <= hdr[b].size {
        CopiedSelf(Live(hdr), b, data, data);
        LiveHas(hdr, b);
        ResizedAs(Live(hdr), Live(hdr), b, hdr[b].size, size);
        KeptLess(Live(hdr), Live(hdr) - {b}, data, data);
        return p;
      }
      if TooBig(size) { return 0; }
      r := ResizeInPlace(b, Want(size));
      if r == 0 {
        r := Move(p, size);
      } else {
        ResizedAs(old(Live(hdr)), Live(hdr), b, hdr[b].size, size);
        CopiedSelf(old(Live(hdr)), b, old(data), data);
        KeptLess(old(Live(hdr)), old(Live(hdr)) - {b}, old(data), data);
      }
    }

    // Into a free block right after b, or at the break; 0 when neither is possible.
    method ResizeInPlace(b: nat, aligned: nat) returns (r: nat)
      requires Valid() && b in hdr && !hdr[b].avail && hdr[b].size <= aligned && aligned % 8 == 0 && aligned >= 8
      modifies this
      ensures Valid()
      ensures r == 0 ==> hdr == old(hdr) && data == old(data) && brk == old(brk) && granted == old(granted)
      ensures r != 0 <==> MergeFits(old(hdr), b, aligned) || GrowFits(old(hdr), b, old(brk), limit, aligned)
      ensures r != 0 ==> r == b + HEADER && b in hdr && hdr[b].size >= aligned && Live(hdr) == old(Live(hdr))[b := hdr[b].size]
      ensures r != 0 ==> Kept(old(Live(hdr)), old(data), data)
    {
      hide Phys, Binned, Log2, Bytes, Overwritten, Coalesced, Kept, NextClear, PrevClear, Live;
      KeptSelf(Live(hdr), data);
      PrevIn(b);
      LiveHas(hdr, b);
      var next := hdr[b].next;
      if next != 0 && hdr[next].avail && End(hdr, b) == next && hdr[b].size + HEADER + hdr[next].size >= aligned {
        MergeNext(b);
        ghost var d, l := data, Live(hdr);
        SplitBlock(b, aligned);
        SplitKeeps(old(Live(hdr)), l, Live(hdr), b, d, data);
        KeptThen(old(Live(hdr)), old(data), d, data);
        return b + HEADER;
      }
      if next == 0 {
        var top := HeapBreak(0, false);
        if top == End(hdr, b) {
          var ok := GrowLast(b, aligned);
          if ok { return b + HEADER; }
        }
      }
      r := 0;
    }

    // A new allocation, the contents copied, the old one freed.
    method Move(p: nat, size: Word) returns (out: nat)
      requires Valid() && p > HEADER && p - HEADER in Live(hdr) && Live(hdr)[p - HEADER] < size
      modifies this
      ensures Valid()
      ensures out == 0 <==> Exhausted(old(hdr), size, old(brk), limit)
      ensures out == 0 ==> Live(hdr) == old(Live(hdr)) && Kept(old(Live(hdr)), old(data), data)
      ensures out != 0 ==> out > HEADER && Resized(old(Live(hdr)), Live(hdr), p - HEADER, out - HEADER, size)
      ensures out != 0 ==> Kept(old(Live(hdr)) - {p - HEADER}, old(data), data)
      ensures out != 0 ==> Copied(old(data), p, data, out, old(Live(hdr))[p - HEADER])
    {
      hide Phys, Binned, Log2, Bytes, Overwritten, Coalesced, Kept, Copied, Live, Want, SameByte;
      KeptSelf(Live(hdr), data);
      WantOk(size);
      ghost var b := p - HEADER;
      InLive(hdr, b);
      var n := hdr[p - HEADER].size;
      out := Malloc(size);
      if out == 0 { return; }
      ghost var c, d1, l1 := out - HEADER, data, Live(hdr);
      FreshSizes(old(hdr), hdr, c, Want(size));
      FreshLive(old(hdr), hdr, c, Want(size), b);
      ApartPayloads(b, c);
      CopyBytes(p, out, n);
      ghost var d2 := data;
      PayloadKeeps(old(Live(hdr)), c, n, d1, d2);
      CopiedKept(old(Live(hdr)), b, old(data), d1, d2, out);
      Free(p);
      MoveLive(old(Live(hdr)), l1, Live(hdr), b, c, size);
      CopiedThen(Live(hdr), old(data), p, d2, data, c, n);
      KeptThen(old(Live(hdr)), old(data), d1, d2);
      KeptLess(old(Live(hdr)), old(Live(hdr)) - {b}, old(data), d2);
      KeptLess(Live(hdr), old(Live(hdr)) - {b}, d2, data);
      KeptThen(old(Live(hdr)) - {b}, old(data), d2, data);
    }

    lemma ApartPayloads(b: nat, c: nat)
      requires Valid() && b in hdr && c in hdr && b != c
      ensures End(hdr, b) <= c || End(hdr, c) <= b
    {
      hide Phys, Binned, Coalesced, Bytes;
      Apart(hdr, blocks, tail, brk, b, c);
    }
  }

  lemma KeptSelf(live: map<nat, nat>, d: map<nat, Byte>)
    ensures Kept(live, d, d)
  {
  }

  lemma LiveHas(h: Headers, b: nat)
    requires b in h && !h[b].avail
    ensures Live(h)[b := h[b].size] == Live(h)
  {
  }

  lemma ClearAfterSplit(h: Headers, g: Headers, b: nat, n: nat)
    requires b in h && n !in h && NextClear(h, b) && h[b].next != n && !h[b].avail
    requires b in g && n in g && !g[b].avail && g[n].prev == b && g[n].next == h[b].next && End(g, n) == End(h, b)
    requires forall a | a in h && a != b :: a in g && g[a].avail == h[a].avail
    ensures PrevClear(g, n) && NextClear(g, n)
  {
  }

  lemma SplitResult(h: Headers, g: Headers, f: Headers, b: nat, n: nat, size: nat)
    requires b in h && n !in h && !h[b].avail && b in g && n in g
    requires Live(g) == Live(h)[b := size][n := g[n].size] && Live(f) == Live(g) - {n}
    ensures Live(f) == Live(h)[b := size]
    ensures forall a | a in Live(f) :: a in Live(g) && Live(f)[a] == Live(g)[a]
  {
    assert n !in Live(h);
  }
}
