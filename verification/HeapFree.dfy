/**
 Freeing a block: what the code does to memory, when that leaves a heap, and why
 it leaves none in the other cases.
*/
module HeapFree {
  import opened Arith
  import opened Chains
  import opened HeapSpec

  function ClearMark(next: int): int {
    next - next % 2
  }

  function IsFree(m: Mem, p: Addr): bool {
    At(m.next, p) != 0 && At(m.next, p) % 2 == 0
  }

  // ----- the code -----

  /** The chain of blocks skips n, the block after b. */
  function SkipNext(m: Mem, b: Addr, n: Addr): Mem {
    var after := At(m.next, n);
    m.(next := m.next[b := after], prev := if after != NULL then m.prev[after := b] else m.prev)
  }

  /** b leaves the free list, on the assumption that p is next to it there. */
  function UnlinkNextTo(m: Mem, b: Addr, p: Addr): Mem {
    if At(m.nf, b) == p then
      var pf1 := m.pf[p := At(m.pf, b)];
      m.(pf := pf1, nf := if At(pf1, p) != NULL then m.nf[At(pf1, p) := p] else m.nf)
    else
      var nf1 := m.nf[p := At(m.nf, b)];
      m.(nf := nf1, pf := if At(nf1, p) != NULL then m.pf[At(nf1, p) := p] else m.pf)
  }

  /** The memory after the block at b is freed. */
  function FreeMem(m: Mem, head: Addr, b: Addr): Mem {
    var m0 := m.(next := m.next[b := ClearMark(At(m.next, b))]);
    var n := At(m0.next, b);
    var mFree := n != NULL && IsFree(m0, n);
    var m1 := if mFree then ReplaceFree(SkipNext(m0, b, n), n, b) else m0;
    var p := At(m1.prev, b);
    if IsFree(m1, p) then
      if p == head then PushFree(m1, head, b, true)
      else
        var m2 := SkipNext(m1, p, b);
        if mFree then UnlinkNextTo(m2, b, p) else m2
    else if mFree then m1
    else PushFree(m1, head, b, false)
  }

  // ----- the cases -----

  ghost predicate NextFree(y: seq<Block>) {
    y != [] && !y[0].used
  }

  ghost predicate PrevFree(x: seq<Block>) {
    x != [] && !x[|x| - 1].used
  }

  ghost predicate Adjacent(fl: seq<Addr>, p: Addr, n: Addr) {
    exists i :: 0 <= i < |fl| - 1 && ((fl[i] == p && fl[i + 1] == n) || (fl[i] == n && fl[i + 1] == p))
  }

  /**
   When freeing the block between x and y leaves a heap: if the next block is
   free, this one is not the first; if both neighbours are free, they are next to
   each other in the free list; if neither is and this one is not the first, the
   free list is not empty.
  */
  ghost predicate FreeSafe(x: seq<Block>, y: seq<Block>, fl: seq<Addr>) {
    if NextFree(y) then x != [] && (PrevFree(x) ==> Adjacent(fl, x[|x| - 1].at, y[0].at))
    else x == [] || PrevFree(x) || fl != []
  }

  ghost function Renamed(fl: seq<Addr>, a: Addr, to: Addr): seq<Addr> {
    if fl == [] then [] else [if fl[0] == a then to else fl[0]] + Renamed(fl[1..], a, to)
  }

  /** The blocks after the free: the block and its free neighbours are one. */
  ghost function FreedBlocks(x: seq<Block>, b: Block, y: seq<Block>): seq<Block> {
    var tail := if NextFree(y) then y[1..] else y;
    var size := b.size + if NextFree(y) then y[0].size else 0;
    if PrevFree(x) then
      var p := x[|x| - 1];
      x[..|x| - 1] + [Block(p.at, p.size + size, false)] + tail
    else x + [Block(b.at, size, false)] + tail
  }

  ghost function FreedList(x: seq<Block>, b: Block, y: seq<Block>, fl: seq<Addr>): seq<Addr> {
    if NextFree(y) then
      if PrevFree(x) then Without(fl, y[0].at) else Renamed(fl, y[0].at, b.at)
    else if PrevFree(x) then fl
    else [b.at] + fl
  }

  lemma {:induction false} RenamedSplit(u: seq<Addr>, a: Addr, v: seq<Addr>, to: Addr)
    requires a !in u && a !in v
    ensures Renamed(u + [a] + v, a, to) == u + [to] + v
  {
    if u == [] {
      assert u + [a] + v == [a] + v;
      assert ([a] + v)[1..] == v;
      RenamedAway(v, a, to);
    } else {
      assert (u + [a] + v)[1..] == u[1..] + [a] + v;
      RenamedSplit(u[1..], a, v, to);
    }
  }

  lemma {:induction false} RenamedAway(v: seq<Addr>, a: Addr, to: Addr)
    requires a !in v
    ensures Renamed(v, a, to) == v
  {
    if v != [] {
      RenamedAway(v[1..], a, to);
    }
  }

  // ----- steps on the chain of blocks -----

  /** Where the blocks around b lie. */
  lemma {:induction false} Around(x: seq<Block>, b: Block, y: seq<Block>, lo: Addr, hi: Addr)
    requires Tiles(x + [b] + y, lo + MBLK, hi - MBLK)
    ensures Tiles(x, lo + MBLK, b.at) && Tiles(y, b.at + b.size, hi - MBLK) && b.size >= MBLK && b.size % 8 == 0
    ensures forall c :: c in x ==> lo + MBLK <= c.at && c.at + MBLK <= b.at
    ensures forall c :: c in y ==> b.at + b.size <= c.at && c.at + MBLK <= hi - MBLK
    ensures lo + MBLK <= b.at && b.at + b.size <= hi - MBLK
    ensures y != [] ==> y[0].at == b.at + b.size
    ensures y == [] ==> b.at + b.size == hi - MBLK
    ensures x == [] ==> b.at == lo + MBLK
  {
    TilesSplit(x + [b], y, lo + MBLK, hi - MBLK);
    var mid :| Tiles(x + [b], lo + MBLK, mid) && Tiles(y, mid, hi - MBLK);
    TilesSplit(x, [b], lo + MBLK, mid);
    var mid' :| Tiles(x, lo + MBLK, mid') && Tiles([b], mid', mid);
    assert [b][1..] == [];
    TilesRange(x, lo + MBLK, b.at);
    TilesRange(y, mid, hi - MBLK);
  }

  /** What memory says of one block. */
  lemma {:induction false} PhysAt(m: Mem, x: seq<Block>, b: Block, y: seq<Block>, lo: Addr, hi: Addr)
    requires Phys(m, x + [b] + y, lo, hi)
    ensures Chained(m, lo, x) && Chained(m, b.at, y)
    ensures At(m.next, b.at) == Marked(b) && At(m.prev, b.at) == LastAt(lo, x)
    ensures x != [] ==> At(m.next, x[|x| - 1].at) == Marked(x[|x| - 1])
    ensures y != [] ==> At(m.next, y[0].at) == Marked(y[0])
  {
    ChainedSplit(m, lo, x + [b], y);
    ChainedSplit(m, lo, x, [b]);
    if x != [] {
      assert x == x[..|x| - 1] + [x[|x| - 1]];
      ChainedSplit(m, lo, x[..|x| - 1], [x[|x| - 1]]);
    }
  }

  lemma {:induction false} PhysFrom(m: Mem, x: seq<Block>, b: Block, y: seq<Block>, lo: Addr, hi: Addr)
    requires Chained(m, lo, x) && Chained(m, b.at, y)
    requires At(m.next, b.at) == Marked(b) && At(m.prev, b.at) == LastAt(lo, x)
    requires At(m.next, lo) == lo + MBLK && At(m.prev, lo) == NULL
    requires At(m.next, hi - MBLK) == NULL && At(m.prev, hi - MBLK) == LastAt(b.at, y)
    ensures Phys(m, x + [b] + y, lo, hi)
  {
    assert [b][1..] == [];
    ChainedSplit(m, lo, x + [b], y);
    ChainedSplit(m, lo, x, [b]);
  }

  /** The mark of a block changes. */
  lemma {:induction false} Remark(m: Mem, x: seq<Block>, b: Block, y: seq<Block>, lo: Addr, hi: Addr, used: bool)
    requires Tiles(x + [b] + y, lo + MBLK, hi - MBLK) && Phys(m, x + [b] + y, lo, hi)
    ensures var b' := b.(used := used); Phys(m.(next := m.next[b.at := Marked(b')]), x + [b'] + y, lo, hi)
  {
    Around(x, b, y, lo, hi);
    PhysAt(m, x, b, y, lo, hi);
    var b' := b.(used := used);
    var m' := m.(next := m.next[b.at := Marked(b')]);
    ChainedAgree(m, m', lo, x);
    ChainedAgree(m, m', b.at, y);
    PhysFrom(m', x, b', y, lo, hi);
  }

  lemma {:induction false} AbsorbTiles(x: seq<Block>, b: Block, n: Block, y: seq<Block>, from: Addr, to: Addr)
    requires Tiles(x + [b] + ([n] + y), from, to)
    ensures Tiles(x + [Block(b.at, b.size + n.size, false)] + y, from, to)
  {
    assert x + [b] + ([n] + y) == x + ([b] + ([n] + y));
    TilesSplit(x, [b] + ([n] + y), from, to);
    assert ([b] + ([n] + y))[1..] == [n] + y && ([n] + y)[1..] == y;
    var c := Block(b.at, b.size + n.size, false);
    assert ([c] + y)[1..] == y;
    TilesJoin(x, [c] + y, from, b.at, to);
    assert x + ([c] + y) == x + [c] + y;
  }

  /** The block after n, or the tail sentinel, is told that b is now before it. */
  lemma {:induction false} BackLink(m: Mem, n: Addr, y: seq<Block>, after: Addr, lo: Addr, hi: Addr, b: Addr)
    requires Chained(m, n, y) && Tiles(y, after, hi - MBLK)
    requires At(m.prev, hi - MBLK) == LastAt(n, y)
    ensures var m' := m.(prev := m.prev[after := b]);
      Chained(m', b, y) && At(m'.prev, hi - MBLK) == LastAt(b, y)
  {
    TilesRange(y, after, hi - MBLK);
    if y != [] {
      TilesRange(y[1..], after + y[0].size, hi - MBLK);
      ChainedAgree(m, m.(prev := m.prev[after := b]), y[0].at, y[1..]);
    }
  }

  /** A free block takes in the free block after it. */
  lemma {:induction false} Absorb(m: Mem, x: seq<Block>, b: Block, n: Block, y: seq<Block>, lo: Addr, hi: Addr)
    requires Tiles(x + [b] + ([n] + y), lo + MBLK, hi - MBLK) && Phys(m, x + [b] + ([n] + y), lo, hi)
    requires !b.used && !n.used && lo > 0
    ensures Phys(SkipNext(m, b.at, n.at), x + [Block(b.at, b.size + n.size, false)] + y, lo, hi)
  {
    hide Tiles;
    Around(x, b, [n] + y, lo, hi);
    PhysAt(m, x, b, [n] + y, lo, hi);
    assert ([n] + y)[1..] == y;
    TilesRange(y, n.at + n.size, hi - MBLK);
    var c := Block(b.at, b.size + n.size, false);
    var after := n.at + n.size;
    var m1 := m.(prev := m.prev[after := b.at]);
    BackLink(m, n.at, y, after, lo, hi, b.at);
    ChainedAgree(m, m1, lo, x);
    var m2 := m1.(next := m1.next[b.at := after]);
    ChainedAgree(m1, m2, lo, x);
    ChainedAgree(m1, m2, b.at, y);
    assert SkipNext(m, b.at, n.at) == m2;
    PhysFrom(m2, x, c, y, lo, hi);
  }

  /** Free list entries are block addresses; a block in use is not among them. */
  lemma {:induction false} FreeListFacts(x: seq<Block>, b: Block, y: seq<Block>, fl: seq<Addr>, lo: Addr, hi: Addr)
    requires Good(x + [b] + y, fl, lo, hi)
    ensures b.at in fl <==> !b.used
    ensures forall a :: a in fl ==> lo + MBLK <= a && a + MBLK <= hi - MBLK
  {
    var bs := x + [b] + y;
    Around(x, b, y, lo, hi);
    forall a | a in fl ensures lo + MBLK <= a && a + MBLK <= hi - MBLK {
      assert a in Elems(fl);
      FreeAddrsAre(bs, a);
      TilesRange(bs, lo + MBLK, hi - MBLK);
    }
    FreeAddrsAre(bs, b.at);
    assert b in bs;
    assert b.at in fl <==> b.at in Elems(fl);
    if c :| c in bs && c.at == b.at && !c.used {
      assert c in x || c == b || c in y;
    }
  }

  /** A block is replaced in the free list by another one. */
  lemma {:induction false} RenamedKeeps(fl: seq<Addr>, a: Addr, to: Addr)
    requires NoDup(fl) && a in fl && to !in fl
    ensures NoDup(Renamed(fl, a, to)) && Elems(Renamed(fl, a, to)) == Elems(fl) - {a} + {to}
  {
    var u, v := SplitAt(fl, a);
    RenamedSplit(u, a, v, to);
    NoDupSplit(u + [to], v);
    NoDupSplit(u, [to]);
    assert [to][1..] == [];
    assert forall z :: z in u + [to] + v <==> z in u || z == to || z in v;
    assert forall z :: z in fl <==> z in u || z == a || z in v;
  }

  /** Two blocks merge, the result is free. */
  lemma {:induction false} MergeFacts(x: seq<Block>, b: Block, n: Block, y: seq<Block>)
    ensures FreeAddrs(x + [b] + ([n] + y)) ==
      FreeAddrs(x) + (if b.used then {} else {b.at}) + (if n.used then {} else {n.at}) + FreeAddrs(y)
  {
    FreeAddrsConcat(x + [b], [n] + y);
    FreeAddrsConcat(x, [b]);
    FreeAddrsConcat([n], y);
    assert [b][1..] == [] && [n][1..] == [];
  }

  lemma {:induction false} OneFacts(x: seq<Block>, b: Block, y: seq<Block>)
    ensures FreeAddrs(x + [b] + y) == FreeAddrs(x) + (if b.used then {} else {b.at}) + FreeAddrs(y)
    ensures NoFreeNeighbours(x + [b] + y) <==>
      && NoFreeNeighbours(x) && NoFreeNeighbours(y)
      && (b.used || (!PrevFree(x) && !NextFree(y)))
  {
    FreeAddrsConcat(x + [b], y);
    FreeAddrsConcat(x, [b]);
    assert [b][1..] == [];
    NeighboursSplit(x + [b], y);
    NeighboursSplit(x, [b]);
  }

  lemma {:induction false} FreeAddrsRange(bs: seq<Block>, from: Addr, to: Addr)
    requires Tiles(bs, from, to)
    ensures forall a :: a in FreeAddrs(bs) ==> from <= a < to
  {
    if bs != [] {
      TilesRange(bs, from, to);
      FreeAddrsRange(bs[1..], from + bs[0].size, to);
    }
  }

  /** Neither neighbour is free. */
  lemma {:induction false} FreedGoodAlone(x: seq<Block>, b: Block, y: seq<Block>, fl: seq<Addr>, lo: Addr, hi: Addr)
    requires Good(x + [b] + y, fl, lo, hi) && b.used && !NextFree(y) && !PrevFree(x)
    ensures Good(x + [b.(used := false)] + y, [b.at] + fl, lo, hi)
  {
    var c := b.(used := false);
    FreeListFacts(x, b, y, fl, lo, hi);
    OneFacts(x, b, y);
    OneFacts(x, c, y);
    AddsOne(x, b, c, y, lo + MBLK, hi - MBLK);
    assert ([b.at] + fl)[1..] == fl;
    assert Elems([b.at] + fl) == {b.at} + Elems(fl);
  }

  /** Tiling does not depend on marks. */
  lemma {:induction false} AddsOne(x: seq<Block>, b: Block, c: Block, y: seq<Block>, from: Addr, to: Addr)
    requires Tiles(x + [b] + y, from, to) && c.at == b.at && c.size == b.size
    ensures Tiles(x + [c] + y, from, to)
  {
    assert x + [b] + y == x + ([b] + y) && x + [c] + y == x + ([c] + y);
    TilesSplit(x, [b] + y, from, to);
    assert ([b] + y)[1..] == y && ([c] + y)[1..] == y;
    TilesJoin(x, [c] + y, from, b.at, to);
  }

  lemma {:induction false} NextNeighbours(x: seq<Block>, b: Block, n: Block, y: seq<Block>, c: Block)
    requires NoFreeNeighbours(x + [b] + ([n] + y)) && !n.used && !PrevFree(x)
    ensures NoFreeNeighbours(x + [c] + y)
  {
    assert x + [b] + ([n] + y) == (x + [b]) + [n] + y;
    OneFacts(x, b, [n] + y);
    OneFacts(x + [b], n, y);
    OneFacts(x, c, y);
  }

  lemma {:induction false} NextFreeAddrs(x: seq<Block>, b: Block, n: Block, y: seq<Block>, c: Block, from: Addr,
                                         to: Addr)
    requires Tiles(x + [b] + ([n] + y), from, to) && b.used && !n.used && c.at == b.at && !c.used
    ensures FreeAddrs(x + [c] + y) == FreeAddrs(x + [b] + ([n] + y)) - {n.at} + {b.at}
  {
    MergeFacts(x, b, n, y);
    OneFacts(x, c, y);
    assert x + [b] + ([n] + y) == x + ([b] + ([n] + y));
    TilesSplit(x, [b] + ([n] + y), from, to);
    assert ([b] + ([n] + y))[1..] == [n] + y && ([n] + y)[1..] == y;
    assert Tiles([n] + y, b.at + b.size, to);
    FreeAddrsRange(x, from, b.at);
    FreeAddrsRange(y, n.at + n.size, to);
  }

  /** Only the next block, n, is free. */
  lemma {:induction false} FreedGoodNext(x: seq<Block>, b: Block, n: Block, y: seq<Block>, fl: seq<Addr>, lo: Addr,
                                         hi: Addr)
    requires Good(x + [b] + ([n] + y), fl, lo, hi) && b.used && !n.used && !PrevFree(x)
    ensures Good(x + [Block(b.at, b.size + n.size, false)] + y, Renamed(fl, n.at, b.at), lo, hi)
  {
    var c := Block(b.at, b.size + n.size, false);
    FreeListFacts(x, b, [n] + y, fl, lo, hi);
    assert x + [b] + ([n] + y) == (x + [b]) + [n] + y;
    FreeListFacts(x + [b], n, y, fl, lo, hi);
    NextNeighbours(x, b, n, y, c);
    NextFreeAddrs(x, b, n, y, c, lo + MBLK, hi - MBLK);
    AbsorbTiles(x, b, n, y, lo + MBLK, hi - MBLK);
    RenamedKeeps(fl, n.at, b.at);
  }

  /** Only the block before, p, is free. */
  lemma {:induction false} FreedGoodPrev(x: seq<Block>, p: Block, b: Block, y: seq<Block>, fl: seq<Addr>, lo: Addr,
                                         hi: Addr)
    requires Good(x + [p] + ([b] + y), fl, lo, hi) && b.used && !p.used && !NextFree(y)
    ensures Good(x + [Block(p.at, p.size + b.size, false)] + y, fl, lo, hi)
  {
    var c := Block(p.at, p.size + b.size, false);
    OneFacts(x, p, [b] + y);
    assert x + [p] + ([b] + y) == (x + [p]) + [b] + y;
    OneFacts(x + [p], b, y);
    OneFacts(x, c, y);
    MergeFacts(x, p, b, y);
    AbsorbTiles(x, p, b, y, lo + MBLK, hi - MBLK);
  }

  lemma {:induction false} BothTiles(x: seq<Block>, p: Block, b: Block, n: Block, y: seq<Block>, from: Addr, to: Addr)
    requires Tiles(x + [p] + ([b] + ([n] + y)), from, to)
    ensures Tiles(x + [Block(p.at, p.size + b.size + n.size, false)] + y, from, to)
  {
    AbsorbTiles(x, p, b, [n] + y, from, to);
    AbsorbTiles(x, Block(p.at, p.size + b.size, false), n, y, from, to);
  }

  lemma {:induction false} BothNeighbours(x: seq<Block>, p: Block, b: Block, n: Block, y: seq<Block>, d: Block)
    requires NoFreeNeighbours(x + [p] + ([b] + ([n] + y))) && !p.used && !n.used
    ensures NoFreeNeighbours(x + [d] + y)
  {
    OneFacts(x, p, [b] + ([n] + y));
    assert x + [p] + ([b] + ([n] + y)) == (x + [p] + [b]) + [n] + y;
    OneFacts(x + [p] + [b], n, y);
    OneFacts(x, d, y);
  }

  lemma {:induction false} BothFree(x: seq<Block>, p: Block, b: Block, n: Block, y: seq<Block>, d: Block, from: Addr,
                                    to: Addr)
    requires Tiles(x + [p] + ([b] + ([n] + y)), from, to) && b.used && !p.used && !n.used && d.at == p.at && !d.used
    ensures FreeAddrs(x + [d] + y) == FreeAddrs(x + [p] + ([b] + ([n] + y))) - {n.at}
  {
    MergeFacts(x, p, b, [n] + y);
    FreeAddrsConcat([n], y);
    assert [n][1..] == [];
    OneFacts(x, d, y);
    assert x + [p] + ([b] + ([n] + y)) == x + ([p] + ([b] + ([n] + y)));
    TilesSplit(x, [p] + ([b] + ([n] + y)), from, to);
    assert ([p] + ([b] + ([n] + y)))[1..] == [b] + ([n] + y) && ([b] + ([n] + y))[1..] == [n] + y
      && ([n] + y)[1..] == y;
    assert Tiles([b] + ([n] + y), p.at + p.size, to);
    assert Tiles([n] + y, b.at + b.size, to);
    FreeAddrsRange(x, from, p.at);
    FreeAddrsRange(y, n.at + n.size, to);
  }

  /** Both neighbours are free. */
  lemma {:induction false} FreedGoodBoth(x: seq<Block>, p: Block, b: Block, n: Block, y: seq<Block>, fl: seq<Addr>,
                                         lo: Addr, hi: Addr)
    requires Good(x + [p] + ([b] + ([n] + y)), fl, lo, hi) && b.used && !p.used && !n.used
    ensures Good(x + [Block(p.at, p.size + b.size + n.size, false)] + y, Without(fl, n.at), lo, hi)
  {
    var d := Block(p.at, p.size + b.size + n.size, false);
    BothTiles(x, p, b, n, y, lo + MBLK, hi - MBLK);
    BothNeighbours(x, p, b, n, y, d);
    BothFree(x, p, b, n, y, d, lo + MBLK, hi - MBLK);
    assert x + [p] + ([b] + ([n] + y)) == (x + [p] + [b]) + [n] + y;
    FreeListFacts(x + [p] + [b], n, y, fl, lo, hi);
    WithoutKeeps(fl, n.at);
  }

  lemma {:induction false} FreedGoodBehindFree(x: seq<Block>, p: Block, b: Block, y: seq<Block>, fl: seq<Addr>,
                                               lo: Addr, hi: Addr)
    requires Good(x + [p] + ([b] + y), fl, lo, hi) && b.used && !p.used
    ensures Good(FreedBlocks(x + [p], b, y), FreedList(x + [p], b, y, fl), lo, hi)
  {
    assert (x + [p])[..|x|] == x;
    if NextFree(y) {
      assert y == [y[0]] + y[1..];
      FreedGoodBoth(x, p, b, y[0], y[1..], fl, lo, hi);
    } else {
      FreedGoodPrev(x, p, b, y, fl, lo, hi);
    }
  }

  /** Freeing a block in use, seen as blocks, always gives a heap again. */
  lemma {:induction false} FreedGood(x: seq<Block>, b: Block, y: seq<Block>, fl: seq<Addr>, lo: Addr, hi: Addr)
    requires Good(x + [b] + y, fl, lo, hi) && b.used
    ensures Good(FreedBlocks(x, b, y), FreedList(x, b, y, fl), lo, hi)
  {
    if PrevFree(x) {
      var x', p := x[..|x| - 1], x[|x| - 1];
      assert x == x' + [p];
      assert x + [b] + y == x' + [p] + ([b] + y);
      FreedGoodBehindFree(x', p, b, y, fl, lo, hi);
    } else if NextFree(y) {
      assert y == [y[0]] + y[1..];
      FreedGoodNext(x, b, y[0], y[1..], fl, lo, hi);
    } else {
      FreedGoodAlone(x, b, y, fl, lo, hi);
    }
  }

  // ----- the free in memory -----

  function Unmarked(m: Mem, b: Addr): Mem {
    m.(next := m.next[b := ClearMark(At(m.next, b))])
  }

  /** The memory once the next block, if it is free, has been taken in. */
  ghost function AfterNext(m: Mem, b: Addr, y: seq<Block>): Mem {
    var m0 := Unmarked(m, b);
    if NextFree(y) then ReplaceFree(SkipNext(m0, b, y[0].at), y[0].at, b) else m0
  }

  /** The mark in the low bit of an even address. */
  lemma {:induction false} MarkBit(at: int, size: int)
    requires at % 8 == 0 && size % 8 == 0
    ensures (at + size) % 2 == 0 && (at + size + 1) % 2 == 1
  {
    var a, b := at / 8, size / 8;
    assert at == 8 * a && size == 8 * b;
    DivUnique(at + size, 2, 4 * a + 4 * b, 0);
    DivUnique(at + size + 1, 2, 4 * a + 4 * b, 1);
  }

  lemma {:induction false} MarkOfBlock(bs: seq<Block>, b: Block, lo: Addr, to: Addr)
    requires 0 < lo && lo % 8 == 0 && Tiles(bs, lo + MBLK, to) && b in bs
    ensures b.at > 0 && b.size > 0
    ensures ClearMark(Marked(b)) == b.at + b.size && Marked(b) != 0 && (Marked(b) % 2 == 0 <==> !b.used)
  {
    assert (lo + MBLK) % 8 == 0;
    TilesAligned(bs, lo + MBLK, to, b);
    TilesRange(bs, lo + MBLK, to);
    MarkBit(b.at, b.size);
  }

  lemma {:induction false} SentinelMarks(m: Mem, bs: seq<Block>, lo: Addr, hi: Addr)
    requires 0 < lo && lo % 8 == 0 && Phys(m, bs, lo, hi)
    ensures IsFree(m, lo) && !IsFree(m, hi - MBLK)
  {
    hide Chained;
    assert lo + MBLK == 2 * (4 * (lo / 8) + MBLK / 2);
  }

  /** What the code reads before it changes anything. */
  lemma {:induction false} FreeMemReads(m: Mem, x: seq<Block>, b: Block, y: seq<Block>, lo: Addr, hi: Addr)
    requires 0 < lo && lo % 8 == 0 && Tiles(x + [b] + y, lo + MBLK, hi - MBLK) && Phys(m, x + [b] + y, lo, hi) && b.used
    ensures ClearMark(At(m.next, b.at)) == b.at + b.size && At(m.prev, b.at) == LastAt(lo, x)
    ensures IsFree(m, b.at + b.size) <==> NextFree(y)
    ensures y != [] ==> y[0].at == b.at + b.size
    ensures NextFree(y) ==> At(m.next, y[0].at) == y[0].at + y[0].size > y[0].at
    ensures IsFree(m, LastAt(lo, x)) <==> x == [] || PrevFree(x)
    ensures lo <= LastAt(lo, x) < b.at && b.size > 0 && (LastAt(lo, x) == lo <==> x == [])
  {
    hide Tiles;
    hide Phys;
    hide Chained;
    Around(x, b, y, lo, hi);
    PhysAt(m, x, b, y, lo, hi);
    var bs := x + [b] + y;
    SentinelMarks(m, bs, lo, hi);
    MarkOfBlock(bs, b, lo, hi - MBLK);
    if x != [] {
      assert x[|x| - 1] in x;
      MarkOfBlock(bs, x[|x| - 1], lo, hi - MBLK);
    }
    if y != [] {
      assert y[0] in y;
      MarkOfBlock(bs, y[0], lo, hi - MBLK);
    }
  }

  /** The branches the code takes are those its comments name. */
  lemma {:induction false} FreeMemCases(m: Mem, x: seq<Block>, b: Block, y: seq<Block>, lo: Addr, hi: Addr)
    requires 0 < lo && lo % 8 == 0 && Tiles(x + [b] + y, lo + MBLK, hi - MBLK) && Phys(m, x + [b] + y, lo, hi) && b.used
    ensures var m1 := AfterNext(m, b.at, y);
      FreeMem(m, lo, b.at) ==
        if x == [] then PushFree(m1, lo, b.at, true)
        else if PrevFree(x) then
          var m2 := SkipNext(m1, x[|x| - 1].at, b.at);
          if NextFree(y) then UnlinkNextTo(m2, b.at, x[|x| - 1].at) else m2
        else if NextFree(y) then m1
        else PushFree(m1, lo, b.at, false)
  {
    FreeMemReads(m, x, b, y, lo, hi);
    var m0 := Unmarked(m, b.at);
    var n := b.at + b.size;
    assert At(m0.next, b.at) == n && At(m0.next, n) == At(m.next, n);
    assert IsFree(m0, n) <==> NextFree(y);
    var m1 := AfterNext(m, b.at, y);
    assert At(m1.prev, b.at) == LastAt(lo, x);
    assert At(m1.next, LastAt(lo, x)) == At(m.next, LastAt(lo, x));
  }

  /** Taking the mark off keeps the chain of blocks and the free list. */
  lemma {:induction false} UnmarkStep(m: Mem, x: seq<Block>, b: Block, y: seq<Block>, fl: seq<Addr>, lo: Addr, hi: Addr)
    requires Rep(m, x + [b] + y, fl, lo, hi) && b.used
    ensures Holds(Unmarked(m, b.at), x + [b.(used := false)] + y, fl, lo, hi)
  {
    Around(x, b, y, lo, hi);
    PhysAt(m, x, b, y, lo, hi);
    FreeMemReads(m, x, b, y, lo, hi);
    Remark(m, x, b, y, lo, hi, false);
    FreeChainedAgree(m, Unmarked(m, b.at), NULL, [lo] + fl, NULL);
  }

  /** The free block n, which is not the first of the heap, is replaced in the free list by b. */
  lemma {:induction false} RenameStep(m: Mem, fl: seq<Addr>, n: Addr, b: Addr, lo: Addr, hi: Addr)
    requires FreeChained(m, NULL, [lo] + fl, NULL) && InHeap(m, lo, hi)
    requires NoDup(fl) && n in fl && b !in fl && 0 < lo < b && b <= hi - MBLK
    requires forall a :: a in fl ==> lo < a && a <= hi - MBLK
    ensures FreeChained(ReplaceFree(m, n, b), NULL, [lo] + Renamed(fl, n, b), NULL)
      && InHeap(ReplaceFree(m, n, b), lo, hi)
  {
    hide FreeChained;
    hide InHeap;
    hide NoDup;
    hide ReplaceFree;
    hide Renamed;
    var u, v := SplitAt(fl, n);
    RenamedSplit(u, n, v, b);
    var a := [lo] + u;
    assert [lo] + fl == a + [n] + v && [lo] + Renamed(fl, n, b) == a + [b] + v;
    assert ([lo] + fl)[1..] == fl;
    assert forall z :: z in u || z in v ==> z in fl;
    ReplaceFreeChains(m, a, n, v, b);
    ReplaceInHeap(m, a, n, v, b, lo, hi);
  }

  /** Taking in the next block keeps the chain of blocks, and b takes its place in the free list. */
  lemma {:induction false} NextStep(m: Mem, x: seq<Block>, b: Block, n: Block, y: seq<Block>, fl: seq<Addr>, lo: Addr,
                                    hi: Addr)
    requires Tiles(x + [b] + ([n] + y), lo + MBLK, hi - MBLK) && 0 < lo
    requires NoDup(fl) && n.at in fl && b.at !in fl && !n.used && !b.used
    requires forall a :: a in fl ==> lo < a && a <= hi - MBLK
    requires Holds(m, x + [b] + ([n] + y), fl, lo, hi)
    ensures Holds(ReplaceFree(SkipNext(m, b.at, n.at), n.at, b.at), x + [Block(b.at, b.size + n.size, false)] + y,
                  Renamed(fl, n.at, b.at), lo, hi)
  {
    Absorb(m, x, b, n, y, lo, hi);
    var m1 := SkipNext(m, b.at, n.at);
    FreeChainedAgree(m, m1, NULL, [lo] + fl, NULL);
    Around(x, b, [n] + y, lo, hi);
    SkipInHeap(m, x, b, n, y, lo, hi);
    RenameStep(m1, fl, n.at, b.at, lo, hi);
    var m2 := ReplaceFree(m1, n.at, b.at);
    ChainedAgree(m1, m2, lo, x + [Block(b.at, b.size + n.size, false)] + y);
  }

  lemma {:induction false} SkipInHeap(m: Mem, x: seq<Block>, b: Block, n: Block, y: seq<Block>, lo: Addr, hi: Addr)
    requires Tiles(x + [b] + ([n] + y), lo + MBLK, hi - MBLK) && Phys(m, x + [b] + ([n] + y), lo, hi)
    requires InHeap(m, lo, hi) && !n.used
    ensures InHeap(SkipNext(m, b.at, n.at), lo, hi)
  {
    Around(x, b, [n] + y, lo, hi);
    PhysAt(m, x, b, [n] + y, lo, hi);
    assert ([n] + y)[1..] == y;
    TilesRange(y, n.at + n.size, hi - MBLK);
  }

  lemma {:induction false} ReplaceInHeap(m: Mem, a: seq<Addr>, n: Addr, v: seq<Addr>, b: Addr, lo: Addr, hi: Addr)
    requires FreeChained(m, NULL, a + [n] + v, NULL) && a != [] && InHeap(m, lo, hi)
    requires forall z :: z in a || z in v || z == b ==> lo <= z <= hi - MBLK
    requires NULL !in a && NULL !in v && b !in a && b != NULL
    ensures InHeap(ReplaceFree(m, n, b), lo, hi)
  {
    LinkedAt(m.nf, m.pf, NULL, a, n, v, NULL);
    assert a[|a| - 1] in a;
    if v != [] { assert v[0] in v; }
  }

  /** b goes to the front of the free list. */
  lemma {:induction false} PushStep(m: Mem, bs: seq<Block>, fl: seq<Addr>, b: Addr, lo: Addr, hi: Addr, guarded: bool)
    requires Holds(m, bs, fl, lo, hi) && NoDup(fl) && b !in fl && 0 < lo < b <= hi - MBLK
    requires forall a :: a in fl ==> lo < a && a <= hi - MBLK
    requires guarded || fl != []
    ensures Holds(PushFree(m, lo, b, guarded), bs, [b] + fl, lo, hi)
  {
    assert ([lo] + fl)[1..] == fl;
    assert At(m.nf, lo) == FirstOr(fl, NULL);
    if fl != [] { assert fl[0] in fl; }
    PushFreeChains(m, lo, fl, b, guarded);
    ChainedAgree(m, PushFree(m, lo, b, guarded), lo, bs);
  }

  /** p takes in b, the block after it; the free list is not touched. */
  lemma {:induction false} PrevStep(m: Mem, x: seq<Block>, p: Block, b: Block, y: seq<Block>, fl: seq<Addr>, lo: Addr,
                                    hi: Addr)
    requires Tiles(x + [p] + ([b] + y), lo + MBLK, hi - MBLK) && 0 < lo && !p.used && !b.used
    requires Holds(m, x + [p] + ([b] + y), fl, lo, hi)
    ensures Holds(SkipNext(m, p.at, b.at), x + [Block(p.at, p.size + b.size, false)] + y, fl, lo, hi)
  {
    Absorb(m, x, p, b, y, lo, hi);
    SkipInHeap(m, x, p, b, y, lo, hi);
    FreeChainedAgree(m, SkipNext(m, p.at, b.at), NULL, [lo] + fl, NULL);
  }

  /** With p right next to b in the free list, the code unlinks b. */
  lemma {:induction false} UnlinkNextToIs(m: Mem, a: seq<Addr>, b: Addr, v: seq<Addr>, p: Addr)
    requires FreeChained(m, NULL, a + [b] + v, NULL) && a != [] && b !in a && b !in v
    requires NULL !in a && NULL !in v && p != NULL && NoDup(a + [b] + v)
    requires (v != [] && v[0] == p) || a[|a| - 1] == p
    ensures UnlinkNextTo(m, b, p) == UnlinkFree(m, b)
  {
    LinkedAt(m.nf, m.pf, NULL, a, b, v, NULL);
    var last := a[|a| - 1];
    assert last in a && At(m.pf, b) == last;
    if v != [] { assert v[0] in v; }
    if At(m.nf, b) == p {
      assert UnlinkFree(m, b) == m.(nf := m.nf[last := p], pf := m.pf[p := last]);
    } else {
      assert last == p && At(m.nf[p := At(m.nf, b)], b) == At(m.nf, b);
    }
  }

  lemma {:induction false} UnlinkStep(m: Mem, bs: seq<Block>, fl: seq<Addr>, b: Addr, p: Addr, lo: Addr, hi: Addr)
    requires Holds(m, bs, fl, lo, hi) && NoDup(fl) && b in fl && Adjacent(fl, p, b) && 0 < lo
    requires forall a :: a in fl ==> lo < a && a <= hi - MBLK
    ensures Holds(UnlinkNextTo(m, b, p), bs, Without(fl, b), lo, hi)
  {
    hide NoDup;
    var u, v := SplitAt(fl, b);
    WithoutSplit(u, b, v);
    NextToSplit(fl, u, b, v, p);
    UnlinkAt(m, u, b, v, p, lo, hi);
    ChainedAgree(m, UnlinkNextTo(m, b, p), lo, bs);
  }

  lemma {:induction false} UnlinkAt(m: Mem, u: seq<Addr>, b: Addr, v: seq<Addr>, p: Addr, lo: Addr, hi: Addr)
    requires FreeChained(m, NULL, [lo] + (u + [b] + v), NULL) && NoDup(u + [b] + v) && InHeap(m, lo, hi) && 0 < lo
    requires (v != [] && v[0] == p) || (u != [] && u[|u| - 1] == p)
    requires forall a :: a in u + [b] + v ==> lo < a && a <= hi - MBLK
    ensures FreeChained(UnlinkNextTo(m, b, p), NULL, [lo] + (u + v), NULL) && InHeap(UnlinkNextTo(m, b, p), lo, hi)
  {
    var a := [lo] + u;
    assert [lo] + (u + [b] + v) == a + [b] + v && [lo] + (u + v) == a + v;
    assert forall z :: z in u || z == b || z in v ==> z in u + [b] + v;
    NoDupSplit([lo], u + [b] + v);
    assert [lo][1..] == [];
    NoDupSplit(a + [b], v);
    NoDupSplit(a, [b]);
    UnlinkNextToIs(m, a, b, v, p);
    UnlinkFreeChains(m, a, b, v);
    UnlinkInHeap(m, a, b, v, lo, hi);
  }

  lemma {:induction false} UnlinkInHeap(m: Mem, a: seq<Addr>, b: Addr, v: seq<Addr>, lo: Addr, hi: Addr)
    requires FreeChained(m, NULL, a + [b] + v, NULL) && a != [] && InHeap(m, lo, hi)
    requires forall z :: z in a || z in v ==> lo <= z <= hi - MBLK
    requires NULL !in a && NULL !in v && b !in a
    ensures InHeap(UnlinkFree(m, b), lo, hi)
  {
    LinkedAt(m.nf, m.pf, NULL, a, b, v, NULL);
    assert a[|a| - 1] in a;
    if v != [] { assert v[0] in v; }
  }

  lemma {:induction false} NextToSplit(fl: seq<Addr>, u: seq<Addr>, b: Addr, v: seq<Addr>, p: Addr)
    requires fl == u + [b] + v && b !in u && b !in v && Adjacent(fl, p, b)
    ensures p in fl
    ensures (v != [] && v[0] == p) || (u != [] && u[|u| - 1] == p)
  {
    var i :| 0 <= i < |fl| - 1 && ((fl[i] == p && fl[i + 1] == b) || (fl[i] == b && fl[i + 1] == p));
    forall j | 0 <= j < |fl| ensures fl[j] == b ==> j == |u| {
      assert fl[j] == if j < |u| then u[j] else if j == |u| then b else v[j - |u| - 1];
    }
  }

  lemma {:induction false} RenamedIn(fl: seq<Addr>, n: Addr, b: Addr, a: Addr)
    requires a in Renamed(fl, n, b)
    ensures a == b || a in fl
  {
    if fl != [] && a in Renamed(fl[1..], n, b) {
      RenamedIn(fl[1..], n, b, a);
    }
  }

  /** Renaming keeps who stands next to whom. */
  lemma {:induction false} RenamedAdjacent(fl: seq<Addr>, p: Addr, n: Addr, b: Addr)
    requires NoDup(fl) && n in fl && b !in fl && p != n && Adjacent(fl, p, n)
    ensures Adjacent(Renamed(fl, n, b), p, b)
  {
    var u, v := SplitAt(fl, n);
    RenamedSplit(u, n, v, b);
    NextToSplit(fl, u, n, v, p);
    var r := u + [b] + v;
    if v != [] && v[0] == p {
      assert r[|u|] == b && r[|u| + 1] == p;
    } else {
      assert r[|u| - 1] == p && r[|u|] == b;
    }
  }

  lemma {:induction false} RenamedThenWithout(fl: seq<Addr>, n: Addr, b: Addr)
    requires NoDup(fl) && n in fl && b !in fl
    ensures Without(Renamed(fl, n, b), b) == Without(fl, n)
  {
    var u, v := SplitAt(fl, n);
    RenamedSplit(u, n, v, b);
    assert forall z :: z in u || z in v ==> z in fl;
    WithoutSplit(u, n, v);
    WithoutSplit(u, b, v);
  }

  // ----- the free keeps the heap, in memory -----

  lemma {:induction false} FreeAtFront(m: Mem, b: Block, y: seq<Block>, fl: seq<Addr>, lo: Addr, hi: Addr)
    requires Rep(m, [b] + y, fl, lo, hi) && b.used && !NextFree(y)
    ensures Holds(FreeMem(m, lo, b.at), [b.(used := false)] + y, [b.at] + fl, lo, hi)
  {
    assert [] + [b] + y == [b] + y && [] + [b.(used := false)] + y == [b.(used := false)] + y;
    FreeMemCases(m, [], b, y, lo, hi);
    UnmarkStep(m, [], b, y, fl, lo, hi);
    FreeListFacts([], b, y, fl, lo, hi);
    Around([], b, y, lo, hi);
    PushStep(Unmarked(m, b.at), [b.(used := false)] + y, fl, b.at, lo, hi, true);
  }

  lemma {:induction false} FreeBetweenUsed(m: Mem, x: seq<Block>, b: Block, y: seq<Block>, fl: seq<Addr>, lo: Addr,
                                           hi: Addr)
    requires Rep(m, x + [b] + y, fl, lo, hi) && b.used && !NextFree(y) && !PrevFree(x) && x != [] && fl != []
    ensures Holds(FreeMem(m, lo, b.at), x + [b.(used := false)] + y, [b.at] + fl, lo, hi)
  {
    FreeMemCases(m, x, b, y, lo, hi);
    UnmarkStep(m, x, b, y, fl, lo, hi);
    FreeListFacts(x, b, y, fl, lo, hi);
    Around(x, b, y, lo, hi);
    PushStep(Unmarked(m, b.at), x + [b.(used := false)] + y, fl, b.at, lo, hi, false);
  }

  /** The memory after the next block n was taken in. */
  lemma {:induction false} AfterNextHolds(m: Mem, x: seq<Block>, b: Block, n: Block, y: seq<Block>, fl: seq<Addr>,
                                          lo: Addr, hi: Addr)
    requires Rep(m, x + [b] + ([n] + y), fl, lo, hi) && b.used && !n.used
    ensures Holds(AfterNext(m, b.at, [n] + y), x + [Block(b.at, b.size + n.size, false)] + y, Renamed(fl, n.at, b.at),
      lo, hi)
    ensures n.at in fl && b.at !in fl
  {
    UnmarkStep(m, x, b, [n] + y, fl, lo, hi);
    FreeListFacts(x, b, [n] + y, fl, lo, hi);
    assert x + [b] + ([n] + y) == (x + [b]) + [n] + y;
    FreeListFacts(x + [b], n, y, fl, lo, hi);
    var c := b.(used := false);
    AddsOne(x, b, c, [n] + y, lo + MBLK, hi - MBLK);
    NextStep(Unmarked(m, b.at), x, c, n, y, fl, lo, hi);
  }

  lemma {:induction false} FreeBeforeFree(m: Mem, x: seq<Block>, b: Block, n: Block, y: seq<Block>, fl: seq<Addr>,
                                          lo: Addr, hi: Addr)
    requires Rep(m, x + [b] + ([n] + y), fl, lo, hi) && b.used && !n.used && !PrevFree(x) && x != []
    ensures Holds(FreeMem(m, lo, b.at), x + [Block(b.at, b.size + n.size, false)] + y, Renamed(fl, n.at, b.at), lo, hi)
  {
    FreeMemCases(m, x, b, [n] + y, lo, hi);
    AfterNextHolds(m, x, b, n, y, fl, lo, hi);
  }

  lemma {:induction false} FreeBehindFree(m: Mem, x: seq<Block>, p: Block, b: Block, y: seq<Block>, fl: seq<Addr>,
                                          lo: Addr, hi: Addr)
    requires Rep(m, x + [p] + [b] + y, fl, lo, hi) && b.used && !p.used && !NextFree(y)
    ensures Holds(FreeMem(m, lo, b.at), x + [Block(p.at, p.size + b.size, false)] + y, fl, lo, hi)
  {
    FreeMemCases(m, x + [p], b, y, lo, hi);
    UnmarkStep(m, x + [p], b, y, fl, lo, hi);
    var c := b.(used := false);
    AddsOne(x + [p], b, c, y, lo + MBLK, hi - MBLK);
    assert x + [p] + [c] + y == x + [p] + ([c] + y);
    PrevStep(Unmarked(m, b.at), x, p, c, y, fl, lo, hi);
  }

  /** The free list between the two merges. */
  lemma {:induction false} BetweenList(fl: seq<Addr>, p: Addr, n: Addr, b: Addr, lo: Addr, hi: Addr)
    requires NoDup(fl) && n in fl && b !in fl && p != n && Adjacent(fl, p, n) && lo < b <= hi - MBLK
    requires forall a :: a in fl ==> lo < a && a <= hi - MBLK
    ensures var fl1 := Renamed(fl, n, b);
      && NoDup(fl1) && b in fl1 && Adjacent(fl1, p, b) && Without(fl1, b) == Without(fl, n)
      && (forall a :: a in fl1 ==> lo < a && a <= hi - MBLK)
  {
    var fl1 := Renamed(fl, n, b);
    RenamedKeeps(fl, n, b);
    RenamedAdjacent(fl, p, n, b);
    RenamedThenWithout(fl, n, b);
    forall a | a in fl1 ensures lo < a && a <= hi - MBLK {
      RenamedIn(fl, n, b, a);
    }
    assert b in Elems(fl1);
  }

  lemma {:induction false} BetweenMerged(m: Mem, x: seq<Block>, p: Block, b: Block, n: Block, y: seq<Block>,
                                         fl: seq<Addr>, lo: Addr, hi: Addr)
    requires Rep(m, x + [p] + [b] + ([n] + y), fl, lo, hi) && b.used && !p.used && !n.used
    ensures n.at in fl && b.at !in fl && p.at != n.at && lo < b.at <= hi - MBLK && 0 < lo && NoDup(fl)
    ensures forall a :: a in fl ==> lo < a && a <= hi - MBLK
    ensures Holds(SkipNext(AfterNext(m, b.at, [n] + y), p.at, b.at),
                  x + [Block(p.at, p.size + b.size + n.size, false)] + y, Renamed(fl, n.at, b.at), lo, hi)
  {
    hide NoDup;
    hide Holds;
    hide SkipNext;
    var x', c := x + [p], Block(b.at, b.size + n.size, false);
    AfterNextHolds(m, x', b, n, y, fl, lo, hi);
    AbsorbTiles(x', b, n, y, lo + MBLK, hi - MBLK);
    assert x' + [c] + y == x + [p] + ([c] + y);
    PrevStep(AfterNext(m, b.at, [n] + y), x, p, c, y, Renamed(fl, n.at, b.at), lo, hi);
    FreeListFacts(x', b, [n] + y, fl, lo, hi);
    Around(x', b, [n] + y, lo, hi);
    assert p in x';
  }

  lemma {:induction false} FreeBetweenFree(m: Mem, x: seq<Block>, p: Block, b: Block, n: Block, y: seq<Block>,
                                           fl: seq<Addr>, lo: Addr, hi: Addr)
    requires Rep(m, x + [p] + [b] + ([n] + y), fl, lo, hi) && b.used && !p.used && !n.used && Adjacent(fl, p.at, n.at)
    ensures Holds(FreeMem(m, lo, b.at), x + [Block(p.at, p.size + b.size + n.size, false)] + y, Without(fl, n.at), lo,
      hi)
  {
    FreeMemCases(m, x + [p], b, [n] + y, lo, hi);
    BetweenMerged(m, x, p, b, n, y, fl, lo, hi);
    BetweenList(fl, p.at, n.at, b.at, lo, hi);
    UnlinkStep(SkipNext(AfterNext(m, b.at, [n] + y), p.at, b.at),
      x + [Block(p.at, p.size + b.size + n.size, false)] + y,
               Renamed(fl, n.at, b.at), b.at, p.at, lo, hi);
  }

  lemma {:induction false} FreeKeepsBehindFree(m: Mem, x: seq<Block>, p: Block, b: Block, y: seq<Block>, fl: seq<Addr>,
                                               lo: Addr, hi: Addr)
    requires Rep(m, x + [p] + [b] + y, fl, lo, hi) && b.used && !p.used && FreeSafe(x + [p], y, fl)
    ensures Holds(FreeMem(m, lo, b.at), FreedBlocks(x + [p], b, y), FreedList(x + [p], b, y, fl), lo, hi)
  {
    BehindFreeBlocks(x, p, b, y, fl);
    if NextFree(y) {
      assert y == [y[0]] + y[1..];
      FreeBetweenFree(m, x, p, b, y[0], y[1..], fl, lo, hi);
    } else {
      FreeBehindFree(m, x, p, b, y, fl, lo, hi);
    }
  }

  lemma {:induction false} BehindFreeBlocks(x: seq<Block>, p: Block, b: Block, y: seq<Block>, fl: seq<Addr>)
    requires !p.used
    ensures NextFree(y) ==>
      && FreedBlocks(x + [p], b, y) == x + [Block(p.at, p.size + b.size + y[0].size, false)] + y[1..]
      && FreedList(x + [p], b, y, fl) == Without(fl, y[0].at)
    ensures !NextFree(y) ==>
      FreedBlocks(x + [p], b, y) == x + [Block(p.at, p.size + b.size, false)] + y && FreedList(x + [p], b, y, fl) == fl
  {
    assert (x + [p])[..|x|] == x;
  }

  lemma {:induction false} FreeKeepsOther(m: Mem, x: seq<Block>, b: Block, y: seq<Block>, fl: seq<Addr>, lo: Addr,
                                          hi: Addr)
    requires Rep(m, x + [b] + y, fl, lo, hi) && b.used && !PrevFree(x) && FreeSafe(x, y, fl)
    ensures Holds(FreeMem(m, lo, b.at), FreedBlocks(x, b, y), FreedList(x, b, y, fl), lo, hi)
  {
    if NextFree(y) {
      assert y == [y[0]] + y[1..];
      FreeBeforeFree(m, x, b, y[0], y[1..], fl, lo, hi);
    } else if x == [] {
      assert x + [b] + y == [b] + y && x + [b.(used := false)] + y == [b.(used := false)] + y;
      FreeAtFront(m, b, y, fl, lo, hi);
    } else {
      FreeBetweenUsed(m, x, b, y, fl, lo, hi);
    }
  }

  /** In the safe cases the code frees exactly as the blocks say. */
  lemma {:induction false} FreeKeeps(m: Mem, x: seq<Block>, b: Block, y: seq<Block>, fl: seq<Addr>, lo: Addr, hi: Addr)
    requires Rep(m, x + [b] + y, fl, lo, hi) && b.used && FreeSafe(x, y, fl)
    ensures Rep(FreeMem(m, lo, b.at), FreedBlocks(x, b, y), FreedList(x, b, y, fl), lo, hi)
  {
    FreedGood(x, b, y, fl, lo, hi);
    if PrevFree(x) {
      assert x == x[..|x| - 1] + [x[|x| - 1]];
      FreeKeepsBehindFree(m, x[..|x| - 1], x[|x| - 1], b, y, fl, lo, hi);
    } else {
      FreeKeepsOther(m, x, b, y, fl, lo, hi);
    }
  }
}
