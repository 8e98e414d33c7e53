/**
 Allocation: what taking a free block does to memory, and what the client gets.
*/
module HeapAlloc {
  import opened Chains
  import opened HeapSpec
  import opened HeapFree

  /** The request rounded up to a multiple of 8. */
  function Rounded(size: int): (r: int)
    ensures r % 8 == 0 && size <= r < size + 8
  {
    size + 7 - (size + 7) % 8
  }

  /** The payload of a block. */
  function Payload(b: Block): int {
    b.size - HEADER
  }

  // ----- the code -----

  /** The block at b becomes one of `need` bytes of payload, the rest a block of its own. */
  function SplitMem(m: Mem, b: Addr, need: int): Mem {
    var n := b + HEADER + need;
    var after := At(m.next, b);
    var m1 := m.(next := m.next[n := after][b := n],
                 prev := if after != NULL then m.prev[n := b][after := n] else m.prev[n := b]);
    ReplaceFree(m1, b, n)
  }

  function SetMark(next: int): int {
    if next % 2 == 0 then next + 1 else next
  }

  /** The memory after the free block at b, of payload bsize, was taken for a request of `need` bytes. */
  function TakeMem(m: Mem, b: Addr, bsize: int, need: int): Mem {
    var m1 := if bsize - need >= MBLK then SplitMem(m, b, need) else UnlinkFree(m, b);
    m1.(next := m1.next[b := SetMark(At(m1.next, b))])
  }

  // ----- the blocks -----

  ghost predicate Splits(b: Block, need: int) {
    Payload(b) - need >= MBLK
  }

  ghost function TakenBlocks(x: seq<Block>, b: Block, y: seq<Block>, need: int): seq<Block> {
    if Splits(b, need) then
      x + [Block(b.at, HEADER + need, true), Block(b.at + HEADER + need, Payload(b) - need, false)] + y
    else x + [b.(used := true)] + y
  }

  ghost function TakenList(fl: seq<Addr>, b: Block, need: int): seq<Addr> {
    if Splits(b, need) then Renamed(fl, b.at, b.at + HEADER + need) else Without(fl, b.at)
  }

  lemma {:induction false} SplitTiles(x: seq<Block>, b: Block, y: seq<Block>, c: Block, n: Block, from: Addr, to: Addr)
    requires Tiles(x + [b] + y, from, to)
    requires c.at == b.at && n.at == c.at + c.size && c.size + n.size == b.size
    requires c.size >= MBLK && n.size >= MBLK && c.size % 8 == 0 && n.size % 8 == 0
    ensures Tiles(x + [c] + ([n] + y), from, to)
  {
    assert x + [b] + y == x + ([b] + y) && x + [c] + ([n] + y) == x + ([c] + ([n] + y));
    TilesSplit(x, [b] + y, from, to);
    assert ([b] + y)[1..] == y && ([n] + y)[1..] == y && ([c] + ([n] + y))[1..] == [n] + y;
    assert Tiles([n] + y, n.at, to);
    TilesJoin(x, [c] + ([n] + y), from, b.at, to);
  }

  /** Splitting a free block keeps the heap good. */
  lemma {:induction false} SplitGood(x: seq<Block>, b: Block, y: seq<Block>, c: Block, n: Block, fl: seq<Addr>,
                                     lo: Addr, hi: Addr)
    requires Good(x + [b] + y, fl, lo, hi) && !b.used
    requires c.at == b.at && n.at == c.at + c.size && c.size + n.size == b.size && c.used && !n.used
    requires c.size >= MBLK && n.size >= MBLK && c.size % 8 == 0 && n.size % 8 == 0
    ensures Good(x + [c] + ([n] + y), Renamed(fl, b.at, n.at), lo, hi)
    ensures b.at in fl && n.at !in fl && lo < n.at <= hi - MBLK && lo < b.at
  {
    SplitTiles(x, b, y, c, n, lo + MBLK, hi - MBLK);
    FreeListFacts(x, b, y, fl, lo, hi);
    Around(x, b, y, lo, hi);
    FreeAddrsRange(x, lo + MBLK, b.at);
    FreeAddrsRange(y, b.at + b.size, hi - MBLK);
    OneFacts(x, b, y);
    assert n.at !in fl by {
      assert n.at in fl <==> n.at in Elems(fl);
    }
    RenamedKeeps(fl, b.at, n.at);
    MergeFacts(x, c, n, y);
    SplitNeighbours(x, b, y, c, n);
  }

  lemma {:induction false} SplitNeighbours(x: seq<Block>, b: Block, y: seq<Block>, c: Block, n: Block)
    requires NoFreeNeighbours(x + [b] + y) && !b.used && c.used
    ensures NoFreeNeighbours(x + [c] + ([n] + y))
  {
    OneFacts(x, b, y);
    OneFacts([], n, y);
    assert [] + [n] + y == [n] + y;
    OneFacts(x, c, [n] + y);
  }

  /** Taking a free block whole keeps the heap good. */
  lemma {:induction false} WholeGood(x: seq<Block>, b: Block, y: seq<Block>, fl: seq<Addr>, lo: Addr, hi: Addr)
    requires Good(x + [b] + y, fl, lo, hi) && !b.used
    ensures Good(x + [b.(used := true)] + y, Without(fl, b.at), lo, hi)
    ensures b.at in fl && lo < b.at
  {
    var c := b.(used := true);
    FreeListFacts(x, b, y, fl, lo, hi);
    Around(x, b, y, lo, hi);
    OneFacts(x, b, y);
    OneFacts(x, c, y);
    AddsOne(x, b, c, y, lo + MBLK, hi - MBLK);
    WithoutKeeps(fl, b.at);
    FreeAddrsRange(x, lo + MBLK, b.at);
    FreeAddrsRange(y, b.at + b.size, hi - MBLK);
  }

  // ----- memory -----

  /** Words outside the range of a stretch of blocks may change. */
  lemma {:induction false} ChainedOutside(m: Mem, m': Mem, prev: Addr, bs: seq<Block>, from: Addr, to: Addr)
    requires Chained(m, prev, bs) && Tiles(bs, from, to)
    requires forall a :: from <= a < to ==> At(m'.next, a) == At(m.next, a) && At(m'.prev, a) == At(m.prev, a)
    ensures Chained(m', prev, bs)
  {
    TilesRange(bs, from, to);
    ChainedAgree(m, m', prev, bs);
  }

  /** The words after a new block n was put into the chain behind the block b. */
  function Inserted(m: Mem, b: Addr, n: Addr, after: Addr): Mem {
    m.(next := m.next[n := after][b := n], prev := m.prev[n := b][after := n])
  }

  lemma {:induction false} InsertedBefore(m: Mem, x: seq<Block>, b: Addr, n: Addr, after: Addr, lo: Addr)
    requires Chained(m, lo, x) && Tiles(x, lo + MBLK, b) && b < n < after
    ensures Chained(Inserted(m, b, n, after), lo, x)
  {
    ChainedOutside(m, Inserted(m, b, n, after), lo, x, lo + MBLK, b);
  }

  lemma {:induction false} InsertedAfter(m: Mem, y: seq<Block>, b: Addr, n: Addr, after: Addr, lo: Addr, hi: Addr)
    requires Chained(m, b, y) && Tiles(y, after, hi - MBLK) && At(m.prev, hi - MBLK) == LastAt(b, y) && b < n < after
    ensures var m' := Inserted(m, b, n, after); Chained(m', n, y) && At(m'.prev, hi - MBLK) == LastAt(n, y)
  {
    BackLink(m, b, y, after, lo, hi, n);
    TilesRange(y, after, hi - MBLK);
    ChainedOutside(m.(prev := m.prev[after := n]), Inserted(m, b, n, after), n, y, after, hi - MBLK);
  }

  /** A new block n is put into the chain behind b. */
  lemma {:induction false} SplitPhys(m: Mem, x: seq<Block>, b: Block, y: seq<Block>, c: Block, n: Block, lo: Addr,
                                     hi: Addr)
    requires Tiles(x + [b] + y, lo + MBLK, hi - MBLK) && Phys(m, x + [b] + y, lo, hi) && 0 < lo
    requires c.at == b.at && n.at == c.at + c.size && c.size + n.size == b.size && !b.used && !c.used && !n.used
    requires c.size >= MBLK && n.size >= MBLK
    ensures Phys(Inserted(m, b.at, n.at, b.at + b.size), x + [c] + ([n] + y), lo, hi)
  {
    hide Tiles;
    Around(x, b, y, lo, hi);
    PhysAt(m, x, b, y, lo, hi);
    var m1 := Inserted(m, b.at, n.at, b.at + b.size);
    InsertedBefore(m, x, b.at, n.at, b.at + b.size, lo);
    InsertedAfter(m, y, b.at, n.at, b.at + b.size, lo, hi);
    assert ([n] + y)[1..] == y && Chained(m1, c.at, [n] + y);
    assert LastAt(c.at, [n] + y) == LastAt(n.at, y);
    PhysFrom(m1, x, c, [n] + y, lo, hi);
  }

  lemma {:induction false} SplitKeeps(m: Mem, x: seq<Block>, b: Block, y: seq<Block>, c: Block, n: Block,
                                      fl: seq<Addr>, lo: Addr, hi: Addr)
    requires Tiles(x + [b] + y, lo + MBLK, hi - MBLK) && Holds(m, x + [b] + y, fl, lo, hi) && 0 < lo && NoDup(fl)
    requires c.at == b.at && n.at == c.at + c.size && c.size + n.size == b.size && !b.used && !c.used && !n.used
    requires c.size >= MBLK && n.size >= MBLK
    requires b.at in fl && n.at !in fl && forall a :: a in fl ==> lo < a && a <= hi - MBLK
    ensures Holds(SplitMem(m, b.at, c.size - HEADER), x + [c] + ([n] + y), Renamed(fl, b.at, n.at), lo, hi)
  {
    Around(x, b, y, lo, hi);
    PhysAt(m, x, b, y, lo, hi);
    var after := b.at + b.size;
    var m1 := Inserted(m, b.at, n.at, after);
    SplitPhys(m, x, b, y, c, n, lo, hi);
    FreeChainedAgree(m, m1, NULL, [lo] + fl, NULL);
    assert InHeap(m1, lo, hi);
    RenameStep(m1, fl, b.at, n.at, lo, hi);
    assert SplitMem(m, b.at, c.size - HEADER) == ReplaceFree(m1, b.at, n.at);
    ChainedAgree(m1, ReplaceFree(m1, b.at, n.at), lo, x + [c] + ([n] + y));
  }

  /** Setting the mark of a free block. */
  lemma {:induction false} MarkStep(m: Mem, x: seq<Block>, b: Block, y: seq<Block>, fl: seq<Addr>, lo: Addr, hi: Addr)
    requires Tiles(x + [b] + y, lo + MBLK, hi - MBLK) && Holds(m, x + [b] + y, fl, lo, hi) && 0 < lo && lo % 8 == 0
      && !b.used
    ensures Holds(m.(next := m.next[b.at := SetMark(At(m.next, b.at))]), x + [b.(used := true)] + y, fl, lo, hi)
  {
    hide Tiles;
    Around(x, b, y, lo, hi);
    PhysAt(m, x, b, y, lo, hi);
    assert b in x + [b] + y;
    MarkOfBlock(x + [b] + y, b, lo, hi - MBLK);
    Remark(m, x, b, y, lo, hi, true);
    FreeChainedAgree(m, m.(next := m.next[b.at := b.at + b.size + 1]), NULL, [lo] + fl, NULL);
  }

  lemma {:induction false} WholeKeeps(m: Mem, bs: seq<Block>, b: Addr, fl: seq<Addr>, lo: Addr, hi: Addr)
    requires Holds(m, bs, fl, lo, hi) && NoDup(fl) && b in fl && 0 < lo
    requires forall a :: a in fl ==> lo < a && a <= hi - MBLK
    ensures Holds(UnlinkFree(m, b), bs, Without(fl, b), lo, hi)
  {
    var u, v := SplitAt(fl, b);
    WithoutSplit(u, b, v);
    WholeUnlinked(m, u, b, v, lo, hi);
    ChainedAgree(m, UnlinkFree(m, b), lo, bs);
  }

  lemma {:induction false} WholeUnlinked(m: Mem, u: seq<Addr>, b: Addr, v: seq<Addr>, lo: Addr, hi: Addr)
    requires FreeChained(m, NULL, [lo] + (u + [b] + v), NULL) && NoDup(u + [b] + v) && InHeap(m, lo, hi) && 0 < lo
    requires forall a :: a in u + [b] + v ==> lo < a && a <= hi - MBLK
    ensures FreeChained(UnlinkFree(m, b), NULL, [lo] + (u + v), NULL) && InHeap(UnlinkFree(m, b), lo, hi)
  {
    var a := [lo] + u;
    assert [lo] + (u + [b] + v) == a + [b] + v && [lo] + (u + v) == a + v;
    assert forall z :: z in u || z == b || z in v ==> z in u + [b] + v;
    NoDupSplit([lo], u + [b] + v);
    assert [lo][1..] == [];
    NoDupSplit(a + [b], v);
    NoDupSplit(a, [b]);
    UnlinkFreeChains(m, a, b, v);
    UnlinkInHeap(m, a, b, v, lo, hi);
  }

  lemma {:induction false} TakeSplitHolds(m: Mem, x: seq<Block>, b: Block, y: seq<Block>, c: Block, n: Block,
                                          fl: seq<Addr>, lo: Addr, hi: Addr)
    requires Tiles(x + [b] + y, lo + MBLK, hi - MBLK) && Holds(m, x + [b] + y, fl, lo, hi) && 0 < lo && lo % 8 == 0
      && NoDup(fl)
    requires c.at == b.at && n.at == c.at + c.size && c.size + n.size == b.size && !b.used && !c.used && !n.used
    requires c.size >= MBLK && n.size >= MBLK && c.size % 8 == 0 && n.size % 8 == 0
    requires b.at in fl && n.at !in fl && forall a :: a in fl ==> lo < a && a <= hi - MBLK
    ensures var m1 := SplitMem(m, b.at, c.size - HEADER);
      Holds(m1.(next := m1.next[b.at := SetMark(At(m1.next, b.at))]), x + [c.(used := true)] + ([n] + y),
        Renamed(fl, b.at, n.at), lo, hi)
  {
    SplitKeeps(m, x, b, y, c, n, fl, lo, hi);
    SplitTiles(x, b, y, c, n, lo + MBLK, hi - MBLK);
    MarkStep(SplitMem(m, b.at, c.size - HEADER), x, c, [n] + y, Renamed(fl, b.at, n.at), lo, hi);
  }

  lemma {:induction false} TakeSplitGood(x: seq<Block>, b: Block, y: seq<Block>, fl: seq<Addr>, need: int, lo: Addr,
                                         hi: Addr)
    requires Good(x + [b] + y, fl, lo, hi) && !b.used
    requires need >= 8 && need % 8 == 0 && Splits(b, need)
    ensures Good(TakenBlocks(x, b, y, need), TakenList(fl, b, need), lo, hi)
    ensures b.at in fl && b.at + HEADER + need !in fl && b.size % 8 == 0
  {
    hide Good;
    hide TakenBlocks;
    hide TakenList;
    var c, n := Block(b.at, HEADER + need, true), Block(b.at + HEADER + need, Payload(b) - need, false);
    GoodAligned(x, b, y, fl, lo, hi);
    SplitGood(x, b, y, c, n, fl, lo, hi);
    SplitBlocksAre(x, b, y, fl, need);
  }

  lemma {:induction false} GoodAligned(x: seq<Block>, b: Block, y: seq<Block>, fl: seq<Addr>, lo: Addr, hi: Addr)
    requires Good(x + [b] + y, fl, lo, hi)
    ensures b.size % 8 == 0
  {
    assert b in x + [b] + y;
    TilesAligned(x + [b] + y, lo + MBLK, hi - MBLK, b);
  }

  lemma {:induction false} SplitBlocksAre(x: seq<Block>, b: Block, y: seq<Block>, fl: seq<Addr>, need: int)
    requires Splits(b, need)
    ensures var c, n := Block(b.at, HEADER + need, true), Block(b.at + HEADER + need, Payload(b) - need, false);
      TakenBlocks(x, b, y, need) == x + [c] + ([n] + y) && TakenList(fl, b, need) == Renamed(fl, b.at, n.at)
  {
  }

  lemma {:induction false} TakeSplitMem(m: Mem, x: seq<Block>, b: Block, y: seq<Block>, fl: seq<Addr>, need: int,
                                        lo: Addr, hi: Addr)
    requires Rep(m, x + [b] + y, fl, lo, hi) && !b.used
    requires need >= 8 && need % 8 == 0 && Splits(b, need)
    requires b.at in fl && b.at + HEADER + need !in fl && b.size % 8 == 0
    ensures Holds(TakeMem(m, b.at, Payload(b), need), TakenBlocks(x, b, y, need), TakenList(fl, b, need), lo, hi)
  {
    hide Holds;
    var c, n := Block(b.at, HEADER + need, false), Block(b.at + HEADER + need, Payload(b) - need, false);
    FreeListFacts(x, b, y, fl, lo, hi);
    TakeSplitHolds(m, x, b, y, c, n, fl, lo, hi);
    assert x + [c.(used := true)] + ([n] + y) == TakenBlocks(x, b, y, need);
  }

  lemma {:induction false} TakeSplit(m: Mem, x: seq<Block>, b: Block, y: seq<Block>, fl: seq<Addr>, need: int,
                                     lo: Addr, hi: Addr)
    requires Rep(m, x + [b] + y, fl, lo, hi) && !b.used
    requires need >= 8 && need % 8 == 0 && Splits(b, need)
    ensures Rep(TakeMem(m, b.at, Payload(b), need), TakenBlocks(x, b, y, need), TakenList(fl, b, need), lo, hi)
  {
    TakeSplitGood(x, b, y, fl, need, lo, hi);
    TakeSplitMem(m, x, b, y, fl, need, lo, hi);
  }

  lemma {:induction false} TakeWhole(m: Mem, x: seq<Block>, b: Block, y: seq<Block>, fl: seq<Addr>, need: int,
                                     lo: Addr, hi: Addr)
    requires Rep(m, x + [b] + y, fl, lo, hi) && !b.used && !Splits(b, need)
    ensures Rep(TakeMem(m, b.at, Payload(b), need), TakenBlocks(x, b, y, need), TakenList(fl, b, need), lo, hi)
  {
    WholeGood(x, b, y, fl, lo, hi);
    FreeListFacts(x, b, y, fl, lo, hi);
    WholeKeeps(m, x + [b] + y, b.at, fl, lo, hi);
    MarkStep(UnlinkFree(m, b.at), x, b, y, Without(fl, b.at), lo, hi);
  }

  /** Taking a free block leaves a heap in which it, or its first part, is in use. */
  lemma {:induction false} TakeKeeps(m: Mem, x: seq<Block>, b: Block, y: seq<Block>, fl: seq<Addr>, need: int,
                                     lo: Addr, hi: Addr)
    requires Rep(m, x + [b] + y, fl, lo, hi) && !b.used && need >= 8 && need % 8 == 0
    ensures Rep(TakeMem(m, b.at, Payload(b), need), TakenBlocks(x, b, y, need), TakenList(fl, b, need), lo, hi)
  {
    if Splits(b, need) {
      TakeSplit(m, x, b, y, fl, need, lo, hi);
    } else {
      TakeWhole(m, x, b, y, fl, need, lo, hi);
    }
  }
}
