/**
 Freeing in the cases the code does not handle: the memory then holds no heap at
 all, so the conditions of `FreeSafe` are exactly those under which a free works.
 Likewise for an allocation, with `TakeSafe`.
*/
module HeapBreak {
  import opened Chains
  import opened HeapSpec
  import opened HeapFree
  import opened HeapAlloc

  // ----- what a well-formed free list forces -----

  /** Following `nf` from prev, the addresses w come one after the other. */
  ghost predicate Walk(m: Mem, prev: Addr, w: seq<Addr>)
    decreases |w|
  {
    w != [] ==> At(m.nf, prev) == w[0] && w[0] != NULL && Walk(m, w[0], w[1..])
  }

  /** A free list starts with whatever `nf` leads to. */
  lemma {:induction false} WalkIsPrefix(m: Mem, before: Addr, prev: Addr, l: seq<Addr>, w: seq<Addr>)
    requires FreeChained(m, before, [prev] + l, NULL) && Walk(m, prev, w)
    ensures w <= l
    decreases |w|
  {
    assert ([prev] + l)[1..] == l;
    if w != [] {
      assert l != [] && l[0] == w[0];
      assert [l[0]] + l[1..] == l;
      WalkIsPrefix(m, prev, l[0], l[1..], w[1..]);
      assert w == [w[0]] + w[1..];
    }
  }

  /** No free list passes the same address twice. */
  lemma {:induction false} NoWalkInCircles(m: Mem, fl: seq<Addr>, lo: Addr, w: seq<Addr>)
    requires FreeChained(m, NULL, [lo] + fl, NULL) && Walk(m, lo, w)
    requires |w| >= 2 && w[0] == w[|w| - 1]
    ensures !NoDup(fl)
  {
    WalkIsPrefix(m, NULL, lo, fl, w);
    assert fl[|w| - 1] in fl[1..];
  }

  lemma {:induction false} WalkSegment(m: Mem, prev: Addr, u: seq<Addr>, nxt: Addr)
    requires FreeChained(m, prev, u, nxt) && nxt != NULL && NULL !in u && u != []
    ensures Walk(m, u[0], u[1..] + [nxt])
    decreases |u|
  {
    if |u| > 1 {
      WalkSegment(m, u[0], u[1..], nxt);
      assert (u[1..] + [nxt])[1..] == u[1..][1..] + [nxt];
    } else {
      assert u[1..] == [] && [nxt][1..] == [];
    }
  }

  lemma {:induction false} WalkAgree(m: Mem, m': Mem, prev: Addr, w: seq<Addr>)
    requires Walk(m, prev, w) && w != []
    requires At(m'.nf, prev) == At(m.nf, prev) && forall a :: a in w[..|w| - 1] ==> At(m'.nf, a) == At(m.nf, a)
    ensures Walk(m', prev, w)
    decreases |w|
  {
    if |w| > 1 {
      assert w[0] in w[..|w| - 1];
      assert w[1..][..|w| - 2] == w[..|w| - 1][1..];
      WalkAgree(m, m', w[0], w[1..]);
    }
  }

  /** Back and forth again: the cell before s leads to s. */
  lemma {:induction false} BackAndForth(m: Mem, prev: Addr, l: seq<Addr>, nxt: Addr, s: Addr)
    requires FreeChained(m, prev, l, nxt) && s in l && s != l[0]
    ensures At(m.nf, At(m.pf, s)) == s
    decreases |l|
  {
    assert FreeChained(m, l[0], l[1..], nxt);
    if s == l[1] {
      assert l[1..][0] == s;
    } else {
      assert s in l[1..];
      BackAndForth(m, l[0], l[1..], nxt, s);
    }
  }

  /** What a cell of the list leads to is on the list. */
  lemma {:induction false} LeadsOn(m: Mem, prev: Addr, l: seq<Addr>, nxt: Addr, a: Addr)
    requires FreeChained(m, prev, l, nxt) && a in l
    ensures At(m.nf, a) == nxt || At(m.nf, a) in l[1..]
    decreases |l|
  {
    if a != l[0] {
      LeadsOn(m, l[0], l[1..], nxt, a);
    } else if |l| > 1 {
      assert l[1..][0] in l[1..];
    }
  }

  // ----- the first block, with the next one free -----

  lemma {:induction false} WalkPushed(m: Mem, u: seq<Addr>, b: Addr, v: seq<Addr>, lo: Addr)
    requires FreeChained(m, NULL, [lo] + (u + [b] + v), NULL) && NULL !in u + [b] + v && lo != NULL
    requires lo !in u + [b] + v && b !in u
    ensures Walk(PushFree(m, lo, b, true), lo, [b] + u + [b])
  {
    var fl, m', w := u + [b] + v, PushFree(m, lo, b, true), [b] + u + [b];
    assert ([lo] + fl)[1..] == fl;
    if u == [] {
      assert fl[0] == b;
      assert w == [b, b] && w[1..] == [b] && [b][1..] == [];
    } else {
      assert fl == u + ([b] + v) && fl[0] == u[0];
      LinkedSplit(m.nf, m.pf, lo, u, [b] + v, NULL);
      assert forall z :: z in u ==> z in fl;
      WalkSegment(m, lo, u, b);
      var w2 := u[1..] + [b];
      assert w2[..|w2| - 1] == u[1..];
      assert u[0] in u;
      WalkAgree(m, m', u[0], w2);
      assert w[1..] == u + [b] && (u + [b])[1..] == w2;
    }
  }

  lemma {:induction false} PushTwice(m: Mem, fl: seq<Addr>, b: Addr, lo: Addr, hi: Addr)
    requires FreeChained(m, NULL, [lo] + fl, NULL) && NoDup([lo] + fl) && b in fl && NULL !in fl && lo != NULL
    ensures forall fl' :: FreeChained(PushFree(m, lo, b, true), NULL, [lo] + fl', NULL) ==> !NoDup(fl')
  {
    hide FreeChained;
    hide PushFree;
    hide Walk;
    assert ([lo] + fl)[1..] == fl;
    var u, v := SplitAt(fl, b);
    NoDupSplit([lo], fl);
    NoDupSplit(u + [b], v);
    NoDupSplit(u, [b]);
    WalkPushed(m, u, b, v, lo);
    var m', w := PushFree(m, lo, b, true), [b] + u + [b];
    forall fl' | FreeChained(m', NULL, [lo] + fl', NULL) ensures !NoDup(fl') {
      NoWalkInCircles(m', fl', lo, w);
    }
  }

  lemma {:induction false} FirstBeforeFreeBreaks(m: Mem, b: Block, n: Block, y: seq<Block>, fl: seq<Addr>, lo: Addr,
                                                 hi: Addr)
    requires Rep(m, [b] + ([n] + y), fl, lo, hi) && b.used && !n.used
    ensures !Inv(FreeMem(m, lo, b.at), lo, hi)
  {
    assert [] + [b] + ([n] + y) == [b] + ([n] + y);
    FreeMemCases(m, [], b, [n] + y, lo, hi);
    AfterNextHolds(m, [], b, n, y, fl, lo, hi);
    FreeListFacts([], b, [n] + y, fl, lo, hi);
    Around([], b, [n] + y, lo, hi);
    var fl1 := Renamed(fl, n.at, b.at);
    RenamedKeeps(fl, n.at, b.at);
    forall a | a in fl1 ensures lo < a {
      RenamedIn(fl, n.at, b.at, a);
    }
    assert b.at in Elems(fl1);
    assert ([lo] + fl1)[1..] == fl1;
    PushTwice(AfterNext(m, b.at, [n] + y), fl1, b.at, lo, hi);
  }

  // ----- both neighbours used, nothing free -----

  lemma {:induction false} NothingFreeBreaks(m: Mem, x: seq<Block>, b: Block, y: seq<Block>, lo: Addr, hi: Addr)
    requires Rep(m, x + [b] + y, [], lo, hi) && b.used && x != [] && !PrevFree(x) && !NextFree(y)
    ensures !Inv(FreeMem(m, lo, b.at), lo, hi)
  {
    FreeMemCases(m, x, b, y, lo, hi);
    Around(x, b, y, lo, hi);
    var m0 := Unmarked(m, b.at);
    assert ([lo] + [])[1..] == [];
    assert At(m0.nf, lo) == NULL;
    assert NULL in PushFree(m0, lo, b.at, false).pf;
  }

  lemma {:induction false} PushOnEmpty(m: Mem, lo: Addr, b: Addr)
    requires FreeChained(m, NULL, [lo], NULL) && lo != NULL && b != NULL && b != lo
    ensures FreeChained(PushFree(m, lo, b, false), NULL, [lo, b], NULL) && NULL in PushFree(m, lo, b, false).pf
  {
    var m' := PushFree(m, lo, b, false);
    assert [lo, b][1..] == [b] && [b][1..] == [] && [lo][1..] == [];
    assert At(m.nf, lo) == NULL && At(m.pf, lo) == NULL;
    assert FreeChained(m', lo, [b], NULL);
  }

  /**
   All that is wrong then is that a word at null was written: blocks and free list
   are as they should be.
  */
  lemma {:induction false} OnlyNullIsWritten(m: Mem, x: seq<Block>, b: Block, y: seq<Block>, lo: Addr, hi: Addr)
    requires Rep(m, x + [b] + y, [], lo, hi) && b.used && x != [] && !PrevFree(x) && !NextFree(y)
    ensures var m' := FreeMem(m, lo, b.at);
      && Phys(m', FreedBlocks(x, b, y), lo, hi) && FreeChained(m', NULL, [lo, b.at], NULL)
      && NULL in m'.pf && forall a :: a != NULL && (a in m'.next || a in m'.prev || a in m'.nf || a in m'.pf) ==>
        lo <= a <= hi - MBLK
  {
    hide FreeMem;
    hide Chained;
    hide Unmarked;
    hide PushFree;
    hide FreeChained;
    hide Phys;
    FreeMemCases(m, x, b, y, lo, hi);
    UnmarkStep(m, x, b, y, [], lo, hi);
    Around(x, b, y, lo, hi);
    PushedOnEmpty(Unmarked(m, b.at), FreedBlocks(x, b, y), lo, hi, b.at);
  }

  lemma {:induction false} PushedOnEmpty(m: Mem, bs: seq<Block>, lo: Addr, hi: Addr, b: Addr)
    requires Holds(m, bs, [], lo, hi) && 0 < lo < b <= hi - MBLK
    ensures var m' := PushFree(m, lo, b, false);
      && Phys(m', bs, lo, hi) && FreeChained(m', NULL, [lo, b], NULL)
      && NULL in m'.pf && forall a :: a != NULL && (a in m'.next || a in m'.prev || a in m'.nf || a in m'.pf) ==>
        lo <= a <= hi - MBLK
  {
    hide FreeChained;
    hide Chained;
    assert [lo] + [] == [lo];
    PushOnEmpty(m, lo, b);
    ChainedAgree(m, PushFree(m, lo, b, false), lo, bs);
  }

  // ----- both neighbours free, apart in the free list -----

  /** The words of memory determine the blocks. */
  lemma {:induction false} BlocksAreUnique(m: Mem, prev: Addr, bs: seq<Block>, bs': seq<Block>, from: Addr, to: Addr)
    requires Tiles(bs, from, to) && Tiles(bs', from, to) && from % 8 == 0
    requires Chained(m, prev, bs) && Chained(m, prev, bs')
    ensures bs == bs'
    decreases |bs|
  {
    TilesRange(bs, from, to);
    TilesRange(bs', from, to);
    if bs != [] {
      FirstIsUnique(m, prev, bs, bs', from, to);
      BlocksAreUnique(m, bs[0].at, bs[1..], bs'[1..], from + bs[0].size, to);
      assert bs == [bs[0]] + bs[1..] && bs' == [bs'[0]] + bs'[1..];
    }
  }

  lemma {:induction false} FirstIsUnique(m: Mem, prev: Addr, bs: seq<Block>, bs': seq<Block>, from: Addr, to: Addr)
    requires Tiles(bs, from, to) && Tiles(bs', from, to) && from % 8 == 0 && bs != [] && bs' != []
    requires Chained(m, prev, bs) && Chained(m, prev, bs')
    ensures bs[0] == bs'[0]
  {
    assert Marked(bs[0]) == Marked(bs'[0]);
    SameMark(bs[0], bs'[0]);
  }

  lemma {:induction false} SameMark(a: Block, b: Block)
    requires a.at == b.at && a.at % 8 == 0 && a.size % 8 == 0 && b.size % 8 == 0 && Marked(a) == Marked(b)
    ensures a == b
  {
    MarkBit(a.at, a.size);
    MarkBit(b.at, b.size);
  }

  lemma {:induction false} LastLeadsOut(m: Mem, prev: Addr, l: seq<Addr>, nxt: Addr)
    requires FreeChained(m, prev, l, nxt) && l != []
    ensures At(m.nf, l[|l| - 1]) == nxt
    decreases |l|
  {
    if |l| > 1 {
      LastLeadsOut(m, l[0], l[1..], nxt);
    }
  }

  /** p stands after b: what stood before b still leads to b. */
  lemma {:induction false} PAfter(m: Mem, u: seq<Addr>, b: Addr, v: seq<Addr>, p: Addr, lo: Addr, fl': seq<Addr>)
    requires FreeChained(m, NULL, [lo] + u + [b] + v, NULL) && p !in [lo] + u && p != NULL && b != NULL
    requires v != [] ==> v[0] != p
    requires FreeChained(UnlinkNextTo(m, b, p), NULL, [lo] + fl', NULL)
    requires forall z :: z in u ==> z in fl'
    ensures b in fl'
  {
    var m' := UnlinkNextTo(m, b, p);
    var a := [lo] + u;
    LinkedAt(m.nf, m.pf, NULL, a, b, v, NULL);
    LastLeadsOut(m, NULL, a, b);
    var before := a[|a| - 1];
    assert before in a;
    assert At(m'.nf, before) == b;
    LeadsOn(m', NULL, [lo] + fl', NULL, before);
    assert ([lo] + fl')[1..] == fl';
  }

  /** After the code's unlinking of b next to p, which is not next to b, no free list has these members. */
  lemma {:induction false} ApartInList(m: Mem, fl: seq<Addr>, b: Addr, p: Addr, lo: Addr, fl': seq<Addr>)
    requires FreeChained(m, NULL, [lo] + fl, NULL) && NoDup([lo] + fl) && b in fl && p in fl && b != p
      && !Adjacent(fl, p, b)
    requires NULL !in fl && lo != NULL
    ensures FreeChained(UnlinkNextTo(m, b, p), NULL, [lo] + fl', NULL) ==> Elems(fl') != Elems(fl) - {b}
  {
    assert ([lo] + fl)[1..] == fl;
    var u, v := SplitAt(fl, b);
    NotFirstAfter(fl, u, b, v, p);
    assert [lo] + fl == [lo] + u + [b] + v;
    if Elems(fl') == Elems(fl) - {b} && FreeChained(UnlinkNextTo(m, b, p), NULL, [lo] + fl', NULL) {
      assert forall z :: z in fl' <==> z in Elems(fl');
      assert forall z :: z in fl <==> z in Elems(fl);
      assert forall z :: z in u ==> z in fl && z != b;
      if p !in u {
        PAfter(m, u, b, v, p, lo, fl');
        assert false;
      } else {
        PBefore(m, u, b, v, p, lo, fl');
        assert false;
      }
    }
  }

  lemma {:induction false} NotFirstAfter(fl: seq<Addr>, u: seq<Addr>, b: Addr, v: seq<Addr>, p: Addr)
    requires fl == u + [b] + v && !Adjacent(fl, p, b)
    ensures v != [] ==> v[0] != p
    ensures u != [] ==> u[|u| - 1] != p
  {
    if v != [] {
      assert fl[|u|] == b && fl[|u| + 1] == v[0];
    }
    if u != [] {
      assert fl[|u| - 1] == u[|u| - 1] && fl[|u|] == b;
    }
  }

  lemma {:induction false} LinkedBack(next: map<Addr, int>, prev: map<Addr, int>, before: Addr, l: seq<Addr>,
                                      after: Addr)
    requires Linked(next, prev, before, l, after) && l != []
    ensures At(prev, l[0]) == before
  {
  }

  lemma {:induction false} PBefore(m: Mem, u: seq<Addr>, b: Addr, v: seq<Addr>, p: Addr, lo: Addr, fl': seq<Addr>)
    requires FreeChained(m, NULL, [lo] + u + [b] + v, NULL) && NoDup([lo] + u + [b] + v) && p in u
    requires u[|u| - 1] != p && (v != [] ==> v[0] != p) && p != NULL
    requires forall z :: z in u ==> z in fl' && z != lo && z != NULL
    ensures !FreeChained(UnlinkNextTo(m, b, p), NULL, [lo] + fl', NULL)
  {
    hide Linked;
    var i :| 0 <= i < |u| && u[i] == p;
    var s := u[i + 1];
    var m' := UnlinkNextTo(m, b, p);
    var a := [lo] + u;
    LinkedAt(m.nf, m.pf, NULL, a, b, v, NULL);
    var front, back := [lo] + u[..i + 1], u[i + 1..] + [b] + v;
    assert [lo] + u + [b] + v == front + back;
    LinkedSplit(m.nf, m.pf, NULL, front, back, NULL);
    assert back[0] == s && LastOr(NULL, front) == p;
    LinkedBack(m.nf, m.pf, p, back, NULL);
    NoDupSplit(a + [b], v);
    NoDupSplit(a, [b]);
    assert s in u && s in a && s in a + [b];
    assert At(m'.nf, p) == FirstOr(v, NULL) && (v != [] ==> v[0] in v);
    assert At(m'.pf, s) == p;
    assert At(m'.nf, p) != s;
    if FreeChained(m', NULL, [lo] + fl', NULL) {
      BackAndForth(m', NULL, [lo] + fl', NULL, s);
      assert false;
    }
  }

  lemma {:induction false} RenamedBack(fl: seq<Addr>, n: Addr, b: Addr)
    requires NoDup(fl) && n in fl && b !in fl
    ensures Renamed(Renamed(fl, n, b), b, n) == fl && NoDup(Renamed(fl, n, b)) && b in Renamed(fl, n, b)
      && n !in Renamed(fl, n, b)
    ensures Elems(Renamed(fl, n, b)) == Elems(fl) - {n} + {b}
  {
    var u, v := SplitAt(fl, n);
    RenamedSplit(u, n, v, b);
    assert forall z :: z in u || z in v ==> z in fl;
    RenamedSplit(u, b, v, n);
    RenamedKeeps(fl, n, b);
    assert b in Elems(Renamed(fl, n, b)) && n !in Elems(Renamed(fl, n, b));
  }

  lemma {:induction false} FreeBetweenApartBreaks(m: Mem, x: seq<Block>, p: Block, b: Block, n: Block, y: seq<Block>,
                                                  fl: seq<Addr>, lo: Addr, hi: Addr)
    requires Rep(m, x + [p] + [b] + ([n] + y), fl, lo, hi) && b.used && !p.used && !n.used && !Adjacent(fl, p.at, n.at)
    ensures !Inv(FreeMem(m, lo, b.at), lo, hi)
  {
    hide Adjacent;
    hide FreeMem;
    hide SkipNext;
    hide AfterNext;
    FreeMemCases(m, x + [p], b, [n] + y, lo, hi);
    BetweenMerged(m, x, p, b, n, y, fl, lo, hi);
    var bs1 := x + [Block(p.at, p.size + b.size + n.size, false)] + y;
    assert x + [p] + [b] + ([n] + y) == x + [p] + ([b] + ([n] + y));
    FreedGoodBoth(x, p, b, n, y, fl, lo, hi);
    WithoutKeeps(fl, n.at);
    FreeListFacts(x, p, [b] + ([n] + y), fl, lo, hi);
    var m2 := SkipNext(AfterNext(m, b.at, [n] + y), p.at, b.at);
    forall bs', fl' ensures !Rep(FreeMem(m, lo, b.at), bs', fl', lo, hi) {
      NoOtherHeap(m2, bs1, fl, p.at, n.at, b.at, bs', fl', lo, hi);
    }
  }

  lemma {:induction false} NoOtherHeap(m: Mem, bs: seq<Block>, fl: seq<Addr>, p: Addr, n: Addr, b: Addr,
                                       bs': seq<Block>, fl': seq<Addr>, lo: Addr, hi: Addr)
    requires 0 < lo && lo % 8 == 0 && Tiles(bs, lo + MBLK, hi - MBLK) && FreeAddrs(bs) == Elems(fl) - {n}
    requires Holds(m, bs, Renamed(fl, n, b), lo, hi)
    requires NoDup(fl) && n in fl && p in fl && b !in fl && p != n && lo < b && !Adjacent(fl, p, n)
    requires forall a :: a in fl ==> lo < a && a <= hi - MBLK
    ensures !Rep(UnlinkNextTo(m, b, p), bs', fl', lo, hi)
  {
    hide FreeAddrs;
    hide Renamed;
    var m' := UnlinkNextTo(m, b, p);
    ChainedAgree(m, m', lo, bs);
    assert (lo + MBLK) % 8 == 0;
    ApartRenamed(fl, p, n, b, lo);
    ApartInList(m, Renamed(fl, n, b), b, p, lo, fl');
    if Rep(m', bs', fl', lo, hi) {
      BlocksAreUnique(m', lo, bs, bs', lo + MBLK, hi - MBLK);
      assert false;
    }
  }

  lemma {:induction false} ApartRenamed(fl: seq<Addr>, p: Addr, n: Addr, b: Addr, lo: Addr)
    requires NoDup(fl) && n in fl && p in fl && b !in fl && p != n && 0 < lo < b && !Adjacent(fl, p, n)
    requires forall a :: a in fl ==> lo < a
    ensures var fl1 := Renamed(fl, n, b);
      && NoDup([lo] + fl1) && b in fl1 && p in fl1 && b != p && !Adjacent(fl1, p, b) && NULL !in fl1
      && Elems(fl1) - {b} == Elems(fl) - {n}
  {
    var fl1 := Renamed(fl, n, b);
    RenamedBack(fl, n, b);
    assert p in Elems(fl1);
    if Adjacent(fl1, p, b) {
      RenamedAdjacent(fl1, p, b, n);
    }
    forall a | a in fl1 ensures lo < a {
      RenamedIn(fl, n, b, a);
    }
    assert ([lo] + fl1)[1..] == fl1;
  }

  // ----- exactly when a free works -----

  lemma {:induction false} UnsafeBreaks(m: Mem, x: seq<Block>, b: Block, y: seq<Block>, fl: seq<Addr>, lo: Addr,
                                        hi: Addr)
    requires Rep(m, x + [b] + y, fl, lo, hi) && b.used && !FreeSafe(x, y, fl)
    ensures !Inv(FreeMem(m, lo, b.at), lo, hi)
  {
    if !NextFree(y) {
      NothingFreeBreaks(m, x, b, y, lo, hi);
    } else {
      assert y == [y[0]] + y[1..];
      if x == [] {
        assert x + [b] + y == [b] + ([y[0]] + y[1..]);
        FirstBeforeFreeBreaks(m, b, y[0], y[1..], fl, lo, hi);
      } else {
        assert x == x[..|x| - 1] + [x[|x| - 1]];
        FreeBetweenApartBreaks(m, x[..|x| - 1], x[|x| - 1], b, y[0], y[1..], fl, lo, hi);
      }
    }
  }

  /** The memory after a free holds a heap exactly in the safe cases, and then the heap it should. */
  lemma {:induction false} FreeExactly(m: Mem, x: seq<Block>, b: Block, y: seq<Block>, fl: seq<Addr>, lo: Addr,
                                       hi: Addr)
    requires Rep(m, x + [b] + y, fl, lo, hi) && b.used
    ensures Inv(FreeMem(m, lo, b.at), lo, hi) <==> FreeSafe(x, y, fl)
    ensures FreeSafe(x, y, fl) ==> Rep(FreeMem(m, lo, b.at), FreedBlocks(x, b, y), FreedList(x, b, y, fl), lo, hi)
  {
    if FreeSafe(x, y, fl) {
      FreeKeeps(m, x, b, y, fl, lo, hi);
    } else {
      UnsafeBreaks(m, x, b, y, fl, lo, hi);
    }
  }

  // ----- a request of zero bytes -----

  /** Blocks that are chained in memory up to some place are the first ones of every heap there. */
  lemma {:induction false} FirstBlocksAreUnique(m: Mem, prev: Addr, x: seq<Block>, bs: seq<Block>, from: Addr,
                                                mid: Addr, to: Addr)
    returns (rest: seq<Block>)
    requires Tiles(x, from, mid) && Tiles(bs, from, to) && from % 8 == 0 && mid < to
    requires Chained(m, prev, x) && Chained(m, prev, bs)
    ensures Tiles(rest, mid, to) && rest != [] && Chained(m, LastAt(prev, x), rest)
    decreases |x|
  {
    TilesRange(x, from, mid);
    if x == [] {
      rest := bs;
    } else {
      SameMark(x[0], bs[0]);
      rest := FirstBlocksAreUnique(m, x[0].at, x[1..], bs[1..], from + x[0].size, mid, to);
    }
  }

  lemma {:induction false} ZeroSplit(m: Mem, x: seq<Block>, b: Block, y: seq<Block>, fl: seq<Addr>, lo: Addr, hi: Addr)
    requires Rep(m, x + [b] + y, fl, lo, hi) && !b.used && Splits(b, 0)
    ensures var m' := TakeMem(m, b.at, Payload(b), 0);
      Chained(m', lo, x) && At(m'.next, b.at) == b.at + HEADER + 1
    ensures Tiles(x, lo + MBLK, b.at) && b.at < hi - MBLK
  {
    Around(x, b, y, lo, hi);
    PhysAt(m, x, b, y, lo, hi);
    assert b in x + [b] + y;
    TilesAligned(x + [b] + y, lo + MBLK, hi - MBLK, b);
    MarkBit(b.at, HEADER);
    ChainedAgree(m, TakeMem(m, b.at, Payload(b), 0), lo, x);
  }

  /**
   A block taken for a request that rounds to nothing, if it is split, is of eight
   bytes, too small for the words of the free list: memory holds no heap any more.
   (Its own `next` and the words of the blocks before it tell, whatever overlaps behind.)
  */
  lemma {:induction false} ZeroSplitBreaks(m: Mem, x: seq<Block>, b: Block, y: seq<Block>, fl: seq<Addr>, lo: Addr,
                                           hi: Addr)
    requires Rep(m, x + [b] + y, fl, lo, hi) && !b.used && Splits(b, 0)
    ensures !Inv(TakeMem(m, b.at, Payload(b), 0), lo, hi)
  {
    var m' := TakeMem(m, b.at, Payload(b), 0);
    ZeroSplit(m, x, b, y, fl, lo, hi);
    hide TakeMem;
    forall bs', fl' ensures !Rep(m', bs', fl', lo, hi) {
      if Rep(m', bs', fl', lo, hi) {
        var rest := FirstBlocksAreUnique(m', lo, x, bs', lo + MBLK, b.at, hi - MBLK);
        assert false;
      }
    }
  }

  ghost predicate TakeSafe(b: Block, need: int) {
    need > 0 || !Splits(b, need)
  }

  /** Taking a block for a request leaves a heap exactly if the request is not empty or the block is not split. */
  lemma {:induction false} TakeExactly(m: Mem, x: seq<Block>, b: Block, y: seq<Block>, fl: seq<Addr>, need: int,
                                       lo: Addr, hi: Addr)
    requires Rep(m, x + [b] + y, fl, lo, hi) && !b.used && need >= 0 && need % 8 == 0
    ensures Inv(TakeMem(m, b.at, Payload(b), need), lo, hi) <==> TakeSafe(b, need)
    ensures TakeSafe(b, need) ==>
      Rep(TakeMem(m, b.at, Payload(b), need), TakenBlocks(x, b, y, need), TakenList(fl, b, need), lo, hi)
  {
    hide Rep;
    hide TakeMem;
    hide TakenBlocks;
    if need > 0 {
      TakeKeeps(m, x, b, y, fl, need, lo, hi);
    } else if Splits(b, 0) {
      ZeroSplitBreaks(m, x, b, y, fl, lo, hi);
    } else {
      TakeWhole(m, x, b, y, fl, 0, lo, hi);
    }
  }
}
