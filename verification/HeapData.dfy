/**
 What clients keep in their payloads: writing there leaves the heap alone, and the
 heap leaves there alone what was written.
*/
module HeapData {
  import opened Chains
  import opened HeapSpec
  import opened HeapFree
  import opened HeapAlloc

  predicate InPayload(c: Block, a: Addr) {
    c.at + HEADER <= a < c.at + c.size
  }

  /** The words of a heap block at `a` that lie outside the payload of c are the same. */
  ghost predicate OnlyPayload(m: Mem, m': Mem, c: Block) {
    && (forall a :: !InPayload(c, a) ==> At(m'.next, a) == At(m.next, a))
    && (forall a :: !InPayload(c, a + 4) ==> At(m'.prev, a) == At(m.prev, a))
    && (forall a :: !InPayload(c, a + 8) ==> At(m'.nf, a) == At(m.nf, a))
    && (forall a :: !InPayload(c, a + 12) ==> At(m'.pf, a) == At(m.pf, a))
    && (forall a :: a in m'.next || a in m'.prev || a in m'.nf || a in m'.pf ==>
         a in m.next || a in m.prev || a in m.nf || a in m.pf || c.at - 4 <= a < c.at + c.size)
  }

  /** Those that lie in the payload of c are the same. */
  ghost predicate SamePayload(m: Mem, m': Mem, c: Block) {
    && (forall a :: InPayload(c, a) ==> At(m'.next, a) == At(m.next, a))
    && (forall a :: InPayload(c, a + 4) ==> At(m'.prev, a) == At(m.prev, a))
    && (forall a :: InPayload(c, a + 8) ==> At(m'.nf, a) == At(m.nf, a))
    && (forall a :: InPayload(c, a + 12) ==> At(m'.pf, a) == At(m.pf, a))
  }

  // ----- where the other blocks lie -----

  /** Two blocks of the heap do not overlap. */
  lemma {:induction false} BlocksApart(bs: seq<Block>, from: Addr, to: Addr, c: Block, d: Block)
    requires Tiles(bs, from, to) && c in bs && d in bs && c != d
    ensures c.at + c.size <= d.at || d.at + d.size <= c.at
  {
    TilesRange(bs, from, to);
    TilesRange(bs[1..], from + bs[0].size, to);
    if c in bs[1..] && d in bs[1..] {
      BlocksApart(bs[1..], from + bs[0].size, to, c, d);
    }
  }

  /** A whole block header with its two free list words at `a` lies outside c, or there is none. */
  predicate Outside(c: Block, a: Addr) {
    a == NULL || a + MBLK <= c.at || c.at + c.size <= a
  }

  /** So it does for a block other than c, and what follows such a block is c or outside c. */
  lemma {:induction false} OtherOutside(bs: seq<Block>, from: Addr, to: Addr, c: Block, d: Block)
    requires Tiles(bs, from, to) && c in bs && d in bs && c != d
    ensures Outside(c, d.at) && (d.at + d.size == c.at || Outside(c, d.at + d.size))
    decreases |bs|
  {
    BlocksApart(bs, from, to, c, d);
    TilesRange(bs, from, to);
    if d == bs[0] {
      TilesRange(bs[1..], from + d.size, to);
      if bs[1..] != [] && c != bs[1] {
        BlocksApart(bs[1..], from + d.size, to, c, bs[1]);
      }
    } else if c != bs[0] {
      OtherOutside(bs[1..], from + bs[0].size, to, c, d);
    }
  }

  lemma {:induction false} SentinelsOutside(bs: seq<Block>, lo: Addr, hi: Addr, c: Block)
    requires Tiles(bs, lo + MBLK, hi - MBLK) && c in bs
    ensures Outside(c, lo) && Outside(c, hi - MBLK)
  {
    TilesRange(bs, lo + MBLK, hi - MBLK);
  }

  /** The cells of the free list lie outside a used block. */
  lemma {:induction false} CellsOutside(bs: seq<Block>, fl: seq<Addr>, lo: Addr, hi: Addr, c: Block)
    requires Good(bs, fl, lo, hi) && c in bs && c.used
    ensures Outside(c, lo) && forall a :: a in fl ==> Outside(c, a)
  {
    SentinelsOutside(bs, lo, hi, c);
    forall a | a in fl ensures Outside(c, a) {
      assert a in Elems(fl);
      FreeAddrsAre(bs, a);
      var d :| d in bs && d.at == a && !d.used;
      OtherOutside(bs, lo + MBLK, hi - MBLK, c, d);
    }
  }

  // ----- a client writes -----

  /** A client may write what it likes into the payload of a block that it has. */
  lemma {:induction false} WriteKeeps(m: Mem, m': Mem, bs: seq<Block>, fl: seq<Addr>, lo: Addr, hi: Addr, c: Block)
    requires Rep(m, bs, fl, lo, hi) && c in bs && c.used && OnlyPayload(m, m', c)
    ensures Rep(m', bs, fl, lo, hi)
  {
    CellsOutside(bs, fl, lo, hi, c);
    SentinelsOutside(bs, lo, hi, c);
    TilesRange(bs, lo + MBLK, hi - MBLK);
    assert Phys(m', bs, lo, hi) by {
      forall d | d in bs ensures At(m'.next, d.at) == At(m.next, d.at) && At(m'.prev, d.at) == At(m.prev, d.at) {
        if d != c {
          OtherOutside(bs, lo + MBLK, hi - MBLK, c, d);
        }
      }
      ChainedAgree(m, m', lo, bs);
    }
    FreeChainedAgree(m, m', NULL, [lo] + fl, NULL);
  }

  // ----- the heap writes -----

  lemma {:induction false} SameTwice(m: Mem, m1: Mem, m2: Mem, c: Block)
    requires SamePayload(m, m1, c) && SamePayload(m1, m2, c)
    ensures SamePayload(m, m2, c)
  {
  }

  /** A word of a header. */
  lemma {:induction false} HeaderWritten(m: Mem, a: Addr, v: int, c: Block)
    requires (a == c.at || Outside(c, a)) && a >= 0 && c.at > 0
    ensures SamePayload(m, m.(next := m.next[a := v]), c) && SamePayload(m, m.(prev := m.prev[a := v]), c)
  {
  }

  /** The cells next to one of the free list lie outside c, if all of them do. */
  lemma {:induction false} NeighboursOutside(m: Mem, prev: Addr, l: seq<Addr>, a: Addr, c: Block)
    requires FreeChained(m, prev, l, NULL) && a in l && Outside(c, prev) && forall z :: z in l ==> Outside(c, z)
    ensures Outside(c, At(m.pf, a)) && Outside(c, At(m.nf, a))
    decreases |l|
  {
    assert forall z :: z in l[1..] ==> z in l;
    assert l[1..] != [] ==> FirstOr(l[1..], NULL) in l;
    if a != l[0] {
      NeighboursOutside(m, l[0], l[1..], a, c);
    }
  }

  lemma {:induction false} SkipLeaves(m: Mem, b: Addr, n: Addr, c: Block)
    requires Outside(c, b) && (At(m.next, n) == c.at || Outside(c, At(m.next, n))) && c.at > 0 && b >= 0
      && At(m.next, n) >= 0
    ensures SamePayload(m, SkipNext(m, b, n), c)
  {
    var after := At(m.next, n);
    var m1 := m.(next := m.next[b := after]);
    HeaderWritten(m, b, after, c);
    HeaderWritten(m1, after, b, c);
    SameTwice(m, m1, m1.(prev := m1.prev[after := b]), c);
  }

  lemma {:induction false} ReplaceLeaves(m: Mem, b: Addr, n: Addr, c: Block)
    requires Outside(c, n) && Outside(c, At(m.pf, b)) && Outside(c, At(m.nf, b)) && c.at > MBLK
    ensures SamePayload(m, ReplaceFree(m, b, n), c)
  {
  }

  lemma {:induction false} PushLeaves(m: Mem, lo: Addr, b: Addr, guarded: bool, c: Block)
    requires Outside(c, b) && Outside(c, lo) && Outside(c, At(m.nf, lo)) && c.at > MBLK
    ensures SamePayload(m, PushFree(m, lo, b, guarded), c)
  {
  }

  lemma {:induction false} UnlinkNextToLeaves(m: Mem, b: Addr, p: Addr, c: Block)
    requires Outside(c, p) && Outside(c, At(m.pf, b)) && Outside(c, At(m.nf, b)) && c.at > MBLK
    ensures SamePayload(m, UnlinkNextTo(m, b, p), c)
  {
  }

  lemma {:induction false} UnlinkLeaves(m: Mem, b: Addr, c: Block)
    requires Outside(c, At(m.pf, b)) && Outside(c, At(m.nf, b)) && c.at > MBLK
    ensures SamePayload(m, UnlinkFree(m, b), c)
  {
  }

  // ----- an allocation -----

  lemma {:induction false} TwoHeadersWritten(m: Mem, n: Addr, after: Addr, b: Addr, c: Block)
    requires Outside(c, b) && Outside(c, n) && c.at > MBLK && b > 0 && n > 0 && after >= 0
    requires after == c.at || Outside(c, after)
    ensures SamePayload(m, m.(next := m.next[n := after][b := n],
                              prev := if after != NULL then m.prev[n := b][after := n] else m.prev[n := b]), c)
  {
    var m1 := m.(next := m.next[n := after]);
    var m2 := m1.(next := m1.next[b := n]);
    var m3 := m2.(prev := m2.prev[n := b]);
    HeaderWritten(m, n, after, c);
    HeaderWritten(m1, b, n, c);
    HeaderWritten(m2, n, b, c);
    HeaderWritten(m3, after, n, c);
    hide SamePayload;
    SameTwice(m, m1, m2, c);
    SameTwice(m, m2, m3, c);
    SameTwice(m, m3, m3.(prev := m3.prev[after := n]), c);
  }

  lemma {:induction false} SplitLeaves(m: Mem, b: Addr, need: int, c: Block)
    requires Outside(c, b) && Outside(c, b + HEADER + need) && c.at > MBLK && b > 0 && need >= 0
    requires At(m.next, b) >= 0 && (At(m.next, b) == c.at || Outside(c, At(m.next, b)))
    requires Outside(c, At(m.pf, b)) && Outside(c, At(m.nf, b))
    ensures SamePayload(m, SplitMem(m, b, need), c)
  {
    hide SamePayload;
    var n, after := b + HEADER + need, At(m.next, b);
    var m1 := m.(next := m.next[n := after][b := n],
                 prev := if after != NULL then m.prev[n := b][after := n] else m.prev[n := b]);
    TwoHeadersWritten(m, n, after, b, c);
    ReplaceLeaves(m1, b, n, c);
    SameTwice(m, m1, SplitMem(m, b, need), c);
  }

  /** An allocation leaves the payloads of the used blocks alone. */
  lemma {:induction false} TakeLeaves(m: Mem, x: seq<Block>, b: Block, y: seq<Block>, fl: seq<Addr>, need: int,
                                      lo: Addr, hi: Addr, c: Block)
    requires Rep(m, x + [b] + y, fl, lo, hi) && !b.used && 0 <= need <= Payload(b) && c in x + [b] + y && c.used
    ensures SamePayload(m, TakeMem(m, b.at, Payload(b), need), c)
  {
    hide SamePayload;
    var bs := x + [b] + y;
    assert b in bs;
    CellsOutside(bs, fl, lo, hi, c);
    OtherOutside(bs, lo + MBLK, hi - MBLK, c, b);
    TilesRange(bs, lo + MBLK, hi - MBLK);
    FreeListFacts(x, b, y, fl, lo, hi);
    NeighboursOutside(m, NULL, [lo] + fl, b.at, c);
    PhysAt(m, x, b, y, lo, hi);
    BlocksApart(bs, lo + MBLK, hi - MBLK, c, b);
    var m1 := if Payload(b) - need >= MBLK then SplitMem(m, b.at, need) else UnlinkFree(m, b.at);
    if Payload(b) - need >= MBLK {
      SplitLeaves(m, b.at, need, c);
    } else {
      UnlinkLeaves(m, b.at, c);
    }
    HeaderWritten(m1, b.at, SetMark(At(m1.next, b.at)), c);
    SameTwice(m, m1, TakeMem(m, b.at, Payload(b), need), c);
  }

  // ----- a free -----

  /** The memory once the next block, if it is free, has been taken in, and its free list. */
  ghost function ListAfterNext(b: Addr, y: seq<Block>, fl: seq<Addr>): seq<Addr> {
    if NextFree(y) then Renamed(fl, y[0].at, b) else fl
  }

  lemma {:induction false} AfterNextLeaves(m: Mem, x: seq<Block>, b: Block, y: seq<Block>, fl: seq<Addr>, lo: Addr,
                                           hi: Addr, c: Block)
    requires Rep(m, x + [b] + y, fl, lo, hi) && b.used && c in x + [b] + y && c.used && c != b
    ensures SamePayload(m, AfterNext(m, b.at, y), c)
  {
    hide SamePayload;
    var bs := x + [b] + y;
    assert b in bs;
    CellsOutside(bs, fl, lo, hi, c);
    OtherOutside(bs, lo + MBLK, hi - MBLK, c, b);
    TilesRange(bs, lo + MBLK, hi - MBLK);
    FreeMemReads(m, x, b, y, lo, hi);
    var m0 := Unmarked(m, b.at);
    HeaderWritten(m, b.at, ClearMark(At(m.next, b.at)), c);
    if NextFree(y) {
      var n := y[0];
      assert n in bs && y == [n] + y[1..];
      OtherOutside(bs, lo + MBLK, hi - MBLK, c, n);
      AfterNextHolds(m, x, b, n, y[1..], fl, lo, hi);
      NeighboursOutside(m, NULL, [lo] + fl, n.at, c);
      SkipLeaves(m0, b.at, n.at, c);
      var m1 := SkipNext(m0, b.at, n.at);
      ReplaceLeaves(m1, n.at, b.at, c);
      SameTwice(m, m0, m1, c);
      SameTwice(m, m1, AfterNext(m, b.at, y), c);
    }
  }

  /** The free list then. */
  lemma {:induction false} AfterNextList(m: Mem, x: seq<Block>, b: Block, y: seq<Block>, fl: seq<Addr>, lo: Addr,
                                         hi: Addr, c: Block)
    requires Rep(m, x + [b] + y, fl, lo, hi) && b.used && c in x + [b] + y && c.used && c != b
    ensures var m1, l := AfterNext(m, b.at, y), ListAfterNext(b.at, y, fl);
      && FreeChained(m1, NULL, [lo] + l, NULL) && (NextFree(y) ==> b.at in l)
      && (forall a :: a in [lo] + l ==> Outside(c, a))
  {
    hide Outside;
    hide Linked;
    hide Renamed;
    var bs := x + [b] + y;
    assert b in bs;
    CellsOutside(bs, fl, lo, hi, c);
    OtherOutside(bs, lo + MBLK, hi - MBLK, c, b);
    FreeMemReads(m, x, b, y, lo, hi);
    if NextFree(y) {
      var n := y[0];
      assert y == [n] + y[1..];
      AfterNextHolds(m, x, b, n, y[1..], fl, lo, hi);
      RenamedKeeps(fl, n.at, b.at);
      forall a | a in Renamed(fl, n.at, b.at) ensures Outside(c, a) {
        RenamedIn(fl, n.at, b.at, a);
      }
    }
  }

  /** What follows b then. */
  lemma {:induction false} AfterNextFollows(m: Mem, x: seq<Block>, b: Block, y: seq<Block>, fl: seq<Addr>, lo: Addr,
                                            hi: Addr, c: Block)
    requires Rep(m, x + [b] + y, fl, lo, hi) && b.used && c in x + [b] + y && c.used && c != b
    ensures var m1 := AfterNext(m, b.at, y);
      At(m1.next, b.at) > 0 && (At(m1.next, b.at) == c.at || Outside(c, At(m1.next, b.at)))
  {
    var bs := x + [b] + y;
    assert b in bs;
    OtherOutside(bs, lo + MBLK, hi - MBLK, c, b);
    TilesRange(bs, lo + MBLK, hi - MBLK);
    FreeMemReads(m, x, b, y, lo, hi);
    if NextFree(y) {
      var n := y[0];
      assert n in bs && y == [n] + y[1..];
      OtherOutside(bs, lo + MBLK, hi - MBLK, c, n);
    }
  }

  /** A free leaves the payloads of the other used blocks alone. */
  lemma {:induction false} FreeLeaves(m: Mem, x: seq<Block>, b: Block, y: seq<Block>, fl: seq<Addr>, lo: Addr,
                                      hi: Addr, c: Block)
    requires Rep(m, x + [b] + y, fl, lo, hi) && b.used && c in x + [b] + y && c.used && c != b
    ensures SamePayload(m, FreeMem(m, lo, b.at), c)
  {
    hide SamePayload;
    var bs, m1, l := x + [b] + y, AfterNext(m, b.at, y), ListAfterNext(b.at, y, fl);
    assert b in bs;
    TilesRange(bs, lo + MBLK, hi - MBLK);
    OtherOutside(bs, lo + MBLK, hi - MBLK, c, b);
    FreeMemCases(m, x, b, y, lo, hi);
    AfterNextLeaves(m, x, b, y, fl, lo, hi, c);
    AfterNextList(m, x, b, y, fl, lo, hi, c);
    AfterNextFollows(m, x, b, y, fl, lo, hi, c);
    if PrevFree(x) {
      var p := x[|x| - 1];
      assert p in bs;
      OtherOutside(bs, lo + MBLK, hi - MBLK, c, p);
      MergeLeaves(m, m1, l, b, p, NextFree(y), lo, c);
    } else if x == [] || !NextFree(y) {
      NeighboursOutside(m1, NULL, [lo] + l, lo, c);
      PushLeaves(m1, lo, b.at, x == [], c);
      SameTwice(m, m1, FreeMem(m, lo, b.at), c);
    }
  }

  lemma {:induction false} MergeLeaves(m: Mem, m1: Mem, l: seq<Addr>, b: Block, p: Block, both: bool, lo: Addr,
                                       c: Block)
    requires SamePayload(m, m1, c) && FreeChained(m1, NULL, [lo] + l, NULL) && (both ==> b.at in l)
    requires (forall a :: a in [lo] + l ==> Outside(c, a)) && Outside(c, p.at) && p.at > 0 && c.at > MBLK
    requires At(m1.next, b.at) > 0 && (At(m1.next, b.at) == c.at || Outside(c, At(m1.next, b.at)))
    ensures var m2 := SkipNext(m1, p.at, b.at); SamePayload(m, if both then UnlinkNextTo(m2, b.at, p.at) else m2, c)
  {
    hide SamePayload;
    var m2 := SkipNext(m1, p.at, b.at);
    SkipLeaves(m1, p.at, b.at, c);
    SameTwice(m, m1, m2, c);
    if both {
      NeighboursOutside(m1, NULL, [lo] + l, b.at, c);
      UnlinkNextToLeaves(m2, b.at, p.at, c);
      SameTwice(m, m2, UnlinkNextTo(m2, b.at, p.at), c);
    }
  }
}
