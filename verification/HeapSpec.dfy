/**
 The best-fit heap: what its blocks and its free list are, and how they are laid
 out in memory.

 A block starts with two words, `next` and `prev`, which chain all blocks in
 address order; the low bit of `next` marks a block in use.  A free block holds
 two more words in its payload, `nf` and `pf`, which chain the free blocks.  The
 chain of blocks starts with a head sentinel and ends with a tail sentinel.
*/
module HeapSpec {
  import opened Chains

  const HEADER := 8
  const MBLK := 16

  // ----- blocks and free list -----

  /** A block with its header: `size` bytes from `at` on. */
  datatype Block = Block(at: Addr, size: int, used: bool)

  /** The blocks fill the range from a to e without gap or overlap. */
  ghost predicate Tiles(bs: seq<Block>, a: Addr, e: Addr) {
    if bs == [] then a == e
    else bs[0].at == a && bs[0].size >= MBLK && bs[0].size % 8 == 0 && Tiles(bs[1..], a + bs[0].size, e)
  }

  ghost function FreeAddrs(bs: seq<Block>): set<Addr> {
    if bs == [] then {} else (if bs[0].used then {} else {bs[0].at}) + FreeAddrs(bs[1..])
  }

  ghost predicate NoFreeNeighbours(bs: seq<Block>) {
    |bs| > 1 ==> (bs[0].used || bs[1].used) && NoFreeNeighbours(bs[1..])
  }

  /** The heap as its client may rely on it. */
  ghost predicate Good(bs: seq<Block>, fl: seq<Addr>, lo: Addr, hi: Addr) {
    && 0 < lo && lo % 8 == 0 && hi % 8 == 0 && lo + 3 * MBLK <= hi < 0x8000_0000
    && Tiles(bs, lo + MBLK, hi - MBLK)
    && NoFreeNeighbours(bs)
    && NoDup(fl) && Elems(fl) == FreeAddrs(bs)
  }

  // ----- memory -----

  datatype Mem = Mem(next: map<Addr, int>, prev: map<Addr, int>, nf: map<Addr, int>, pf: map<Addr, int>)

  function Marked(b: Block): int {
    b.at + b.size + if b.used then 1 else 0
  }

  function LastAt(prev: Addr, bs: seq<Block>): Addr {
    if bs == [] then prev else bs[|bs| - 1].at
  }

  /** The `next` and `prev` words of the blocks. */
  ghost predicate Chained(m: Mem, prev: Addr, bs: seq<Block>)
    decreases |bs|
  {
    bs != [] ==> At(m.next, bs[0].at) == Marked(bs[0]) && At(m.prev, bs[0].at) == prev && Chained(m, bs[0].at, bs[1..])
  }

  /** The `nf` and `pf` words of a stretch of the free list between prev and nxt. */
  ghost predicate FreeChained(m: Mem, prev: Addr, l: seq<Addr>, nxt: Addr) {
    Linked(m.nf, m.pf, prev, l, nxt)
  }

  /** Nothing outside the heap was ever written. */
  ghost predicate InHeap(m: Mem, lo: Addr, hi: Addr) {
    forall a :: a in m.next || a in m.prev || a in m.nf || a in m.pf ==> lo <= a <= hi - MBLK
  }

  /** The chain of blocks with its sentinels, the head at lo and the tail at hi - MBLK. */
  ghost predicate Phys(m: Mem, bs: seq<Block>, lo: Addr, hi: Addr) {
    && At(m.next, lo) == lo + MBLK && At(m.prev, lo) == NULL
    && Chained(m, lo, bs)
    && At(m.next, hi - MBLK) == NULL && At(m.prev, hi - MBLK) == LastAt(lo, bs)
  }

  /** The memory holds the heap; the head sentinel also heads the free list. */
  ghost predicate Holds(m: Mem, bs: seq<Block>, fl: seq<Addr>, lo: Addr, hi: Addr) {
    Phys(m, bs, lo, hi) && FreeChained(m, NULL, [lo] + fl, NULL) && InHeap(m, lo, hi)
  }

  ghost predicate Rep(m: Mem, bs: seq<Block>, fl: seq<Addr>, lo: Addr, hi: Addr) {
    Good(bs, fl, lo, hi) && Holds(m, bs, fl, lo, hi)
  }

  /** The memory holds some heap. */
  ghost predicate Inv(m: Mem, lo: Addr, hi: Addr) {
    exists bs, fl :: Rep(m, bs, fl, lo, hi)
  }

  // ----- facts about blocks -----

  lemma {:induction false} TilesSplit(a: seq<Block>, b: seq<Block>, from: Addr, to: Addr)
    requires Tiles(a + b, from, to)
    ensures exists mid :: Tiles(a, from, mid) && Tiles(b, mid, to)
  {
    if a == [] {
      assert a + b == b;
      assert Tiles(a, from, from);
    } else {
      assert (a + b)[1..] == a[1..] + b;
      TilesSplit(a[1..], b, from + a[0].size, to);
      var mid :| Tiles(a[1..], from + a[0].size, mid) && Tiles(b, mid, to);
      assert Tiles(a, from, mid);
    }
  }

  lemma {:induction false} TilesJoin(a: seq<Block>, b: seq<Block>, from: Addr, mid: Addr, to: Addr)
    requires Tiles(a, from, mid) && Tiles(b, mid, to)
    ensures Tiles(a + b, from, to)
  {
    if a == [] {
      assert a + b == b;
    } else {
      assert (a + b)[1..] == a[1..] + b;
      TilesJoin(a[1..], b, from + a[0].size, mid, to);
    }
  }

  /** Every block lies in the range, at least 16 bytes before its end. */
  lemma {:induction false} TilesRange(bs: seq<Block>, from: Addr, to: Addr)
    requires Tiles(bs, from, to)
    ensures from <= to && (bs != [] ==> from + MBLK <= to)
    ensures forall b :: b in bs ==> from <= b.at && b.at + b.size <= to && b.size >= MBLK
  {
    if bs != [] {
      TilesRange(bs[1..], from + bs[0].size, to);
    }
  }

  /** Every block of an aligned range is aligned. */
  lemma {:induction false} TilesAligned(bs: seq<Block>, from: Addr, to: Addr, b: Block)
    requires Tiles(bs, from, to) && from % 8 == 0 && b in bs
    ensures b.at % 8 == 0 && b.size % 8 == 0
  {
    if b != bs[0] {
      TilesAligned(bs[1..], from + bs[0].size, to, b);
    }
  }

  lemma {:induction false} FreeAddrsConcat(a: seq<Block>, b: seq<Block>)
    ensures FreeAddrs(a + b) == FreeAddrs(a) + FreeAddrs(b)
  {
    if a == [] {
      assert a + b == b;
    } else {
      assert (a + b)[1..] == a[1..] + b;
      FreeAddrsConcat(a[1..], b);
    }
  }

  lemma {:induction false} FreeAddrsAre(bs: seq<Block>, x: Addr)
    ensures x in FreeAddrs(bs) <==> exists b :: b in bs && b.at == x && !b.used
  {
    if bs != [] {
      FreeAddrsAre(bs[1..], x);
      if x in FreeAddrs(bs) {
        if x in FreeAddrs(bs[1..]) {
          var b :| b in bs[1..] && b.at == x && !b.used;
          assert b in bs;
        } else {
          assert bs[0] in bs;
        }
      }
      if b :| b in bs && b.at == x && !b.used {
        assert b == bs[0] || b in bs[1..];
      }
    }
  }

  lemma {:induction false} NeighboursSplit(a: seq<Block>, b: seq<Block>)
    ensures NoFreeNeighbours(a + b) <==>
      NoFreeNeighbours(a) && NoFreeNeighbours(b) && (a != [] && b != [] ==> a[|a| - 1].used || b[0].used)
  {
    if a == [] {
      assert a + b == b;
    } else {
      assert (a + b)[1..] == a[1..] + b;
      NeighboursSplit(a[1..], b);
    }
  }

  // ----- facts about memory -----

  lemma {:induction false} ChainedSplit(m: Mem, prev: Addr, a: seq<Block>, b: seq<Block>)
    ensures Chained(m, prev, a + b) <==> Chained(m, prev, a) && Chained(m, LastAt(prev, a), b)
    decreases |a|
  {
    if a == [] {
      assert a + b == b;
    } else {
      assert (a + b)[1..] == a[1..] + b;
      ChainedSplit(m, a[0].at, a[1..], b);
    }
  }

  lemma {:induction false} ChainedAgree(m: Mem, m': Mem, prev: Addr, bs: seq<Block>)
    requires Chained(m, prev, bs)
    requires forall b :: b in bs ==> At(m'.next, b.at) == At(m.next, b.at) && At(m'.prev, b.at) == At(m.prev, b.at)
    ensures Chained(m', prev, bs)
    decreases |bs|
  {
    if bs != [] {
      assert bs[0] in bs;
      ChainedAgree(m, m', bs[0].at, bs[1..]);
    }
  }

  lemma {:induction false} FreeChainedAgree(m: Mem, m': Mem, prev: Addr, l: seq<Addr>, nxt: Addr)
    requires FreeChained(m, prev, l, nxt)
    requires forall a :: a in l ==> At(m'.nf, a) == At(m.nf, a) && At(m'.pf, a) == At(m.pf, a)
    ensures FreeChained(m', prev, l, nxt)
  {
    LinkedAgree(m.nf, m.pf, m'.nf, m'.pf, prev, l, nxt);
  }

  // ----- operations on the free list -----

  /** n takes the place of b. */
  function ReplaceFree(m: Mem, b: Addr, n: Addr): Mem {
    var before, after := At(m.pf, b), At(m.nf, b);
    var nf1 := m.nf[n := after];
    var pf1 := m.pf[n := before];
    var nf2 := if before != NULL then nf1[before := n] else nf1;
    var pf2 := if At(nf2, n) != NULL then pf1[At(nf2, n) := n] else pf1;
    m.(nf := nf2, pf := pf2)
  }

  /** b leaves the list. */
  function UnlinkFree(m: Mem, b: Addr): Mem {
    var nf1 := if At(m.pf, b) != NULL then m.nf[At(m.pf, b) := At(m.nf, b)] else m.nf;
    var pf1 := if At(nf1, b) != NULL then m.pf[At(nf1, b) := At(m.pf, b)] else m.pf;
    m.(nf := nf1, pf := pf1)
  }

  lemma {:induction false} ReplaceFreeChains(m: Mem, a: seq<Addr>, b: Addr, v: seq<Addr>, n: Addr)
    requires FreeChained(m, NULL, a + [b] + v, NULL) && NoDup(a + [b] + v) && a != []
    requires NULL !in a && NULL !in v && n !in a && n !in v && n != NULL
    ensures FreeChained(ReplaceFree(m, b, n), NULL, a + [n] + v, NULL)
  {
    LinkedAt(m.nf, m.pf, NULL, a, b, v, NULL);
    NoDupSplit(a + [b], v);
    NoDupSplit(a, [b]);
    var last := a[|a| - 1];
    assert last in a;
    var m1 := m.(nf := m.nf[n := At(m.nf, b)], pf := m.pf[n := At(m.pf, b)]);
    FreeChainedAgree(m, m1, NULL, a, b);
    FreeChainedAgree(m, m1, b, v, NULL);
    LinkNext(m1.nf, m1.pf, NULL, a, b, n);
    var m2 := m1.(nf := m1.nf[last := n]);
    FreeChainedAgree(m1, m2, b, v, NULL);
    var m3 := m2;
    if v != [] {
      assert v[0] in v;
      LinkPrev(m2.nf, m2.pf, b, v, NULL, n);
      m3 := m2.(pf := m2.pf[v[0] := n]);
      FreeChainedAgree(m2, m3, NULL, a, n);
    }
    assert ReplaceFree(m, b, n) == m3;
    assert [n][1..] == [];
    LinkedSplit(m3.nf, m3.pf, NULL, a, [n], FirstOr(v, NULL));
    LinkedSplit(m3.nf, m3.pf, NULL, a + [n], v, NULL);
  }

  lemma {:induction false} UnlinkFreeChains(m: Mem, a: seq<Addr>, b: Addr, v: seq<Addr>)
    requires FreeChained(m, NULL, a + [b] + v, NULL) && NoDup(a + [b] + v) && a != []
    requires NULL !in a && NULL !in v
    ensures FreeChained(UnlinkFree(m, b), NULL, a + v, NULL)
  {
    LinkedAt(m.nf, m.pf, NULL, a, b, v, NULL);
    NoDupSplit(a + [b], v);
    NoDupSplit(a, [b]);
    var last := a[|a| - 1];
    assert last in a;
    LinkNext(m.nf, m.pf, NULL, a, b, FirstOr(v, NULL));
    var m1 := m.(nf := m.nf[last := FirstOr(v, NULL)]);
    FreeChainedAgree(m, m1, b, v, NULL);
    var m2 := m1;
    if v != [] {
      assert v[0] in v;
      LinkPrev(m1.nf, m1.pf, b, v, NULL, last);
      m2 := m1.(pf := m1.pf[v[0] := last]);
      FreeChainedAgree(m1, m2, NULL, a, v[0]);
    }
    assert last != b;
    assert UnlinkFree(m, b) == m2;
    LinkedSplit(m2.nf, m2.pf, NULL, a, v, NULL);
  }

  /** b becomes the first of the list after the head sentinel; the list must not be empty if `guarded` is false. */
  function PushFree(m: Mem, lo: Addr, b: Addr, guarded: bool): Mem {
    var nf1 := m.nf[b := At(m.nf, lo)];
    var pf1 := m.pf[b := lo];
    var pf2 := if guarded && At(nf1, b) == NULL then pf1 else pf1[At(nf1, b) := b];
    m.(nf := nf1[lo := b], pf := pf2)
  }

  lemma {:induction false} PushFreeChains(m: Mem, lo: Addr, fl: seq<Addr>, b: Addr, guarded: bool)
    requires FreeChained(m, NULL, [lo] + fl, NULL) && NoDup([lo] + fl)
    requires NULL !in fl && b !in fl && b != lo && lo != NULL
    requires guarded || fl != []
    ensures FreeChained(PushFree(m, lo, b, guarded), NULL, [lo] + ([b] + fl), NULL)
  {
    assert ([lo] + fl)[1..] == fl && ([lo] + ([b] + fl))[1..] == [b] + fl && ([b] + fl)[1..] == fl;
    var m1 := m.(nf := m.nf[b := At(m.nf, lo)], pf := m.pf[b := lo]);
    FreeChainedAgree(m, m1, lo, fl, NULL);
    var m2 := m1;
    if fl != [] {
      assert fl[0] in fl;
      LinkPrev(m1.nf, m1.pf, lo, fl, NULL, b);
      m2 := m1.(pf := m1.pf[fl[0] := b]);
    }
    var m3 := m2.(nf := m2.nf[lo := b]);
    assert PushFree(m, lo, b, guarded) == m3;
    FreeChainedAgree(m2, m3, b, fl, NULL);
  }
}
