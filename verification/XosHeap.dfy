/**
 The heap as an object: initialisation, allocation and free on the words of memory.
*/
module XosHeap {
  import opened Chains
  import opened HeapSpec
  import opened HeapFree
  import opened HeapBreak
  import opened HeapAlloc

  /** The largest request whose rounding does not overflow a signed 32-bit number. */
  const MAX_REQUEST := 0x7fff_fff8

  function MblkSize(m: Mem, a: Addr): int {
    ClearMark(At(m.next, a)) - a - HEADER
  }

  /** A free block in memory. */
  lemma {:induction false} FreeBlockInMemory(m: Mem, bs: seq<Block>, fl: seq<Addr>, lo: Addr, hi: Addr, a: Addr)
    returns (x: seq<Block>, b: Block, y: seq<Block>)
    requires Rep(m, bs, fl, lo, hi) && a in fl
    ensures bs == x + [b] + y && b.at == a && !b.used
    ensures MblkSize(m, a) == Payload(b) < 0x7fff_ffff && lo < a
  {
    assert a in Elems(fl);
    x, b, y := ListedBlock(bs, a);
    PhysAt(m, x, b, y, lo, hi);
    Around(x, b, y, lo, hi);
    MarkOfBlock(bs, b, lo, hi - MBLK);
  }

  lemma {:induction false} ListedBlock(bs: seq<Block>, a: Addr) returns (x: seq<Block>, b: Block, y: seq<Block>)
    requires a in FreeAddrs(bs)
    ensures bs == x + [b] + y && b.at == a && !b.used && b in bs
  {
    hide FreeAddrs;
    FreeAddrsAre(bs, a);
    b :| b in bs && b.at == a && !b.used;
    var i :| 0 <= i < |bs| && bs[i] == b;
    x, y := bs[..i], bs[i + 1..];
  }

  /** Every free block is on the free list, with its size in memory. */
  lemma {:induction false} FreeBlockIsListed(m: Mem, bs: seq<Block>, fl: seq<Addr>, lo: Addr, hi: Addr, b: Block)
    requires Rep(m, bs, fl, lo, hi) && b in bs && !b.used
    ensures b.at in fl && MblkSize(m, b.at) == Payload(b)
  {
    FreeAddrsAre(bs, b.at);
    assert b.at in Elems(fl);
    var i :| 0 <= i < |bs| && bs[i] == b;
    assert bs == bs[..i] + [b] + bs[i + 1..];
    PhysAt(m, bs[..i], b, bs[i + 1..], lo, hi);
    MarkOfBlock(bs, b, lo, hi - MBLK);
  }

  /** The best fit among the addresses seen so far: the first of the smallest that are large enough. */
  ghost predicate BestOf(m: Mem, done: seq<Addr>, need: int, fit: Addr, fitSize: int) {
    if fit == NULL then fitSize == 0x7fff_ffff && forall a :: a in done ==> MblkSize(m, a) <= need
    else
      && fit in done && fitSize == MblkSize(m, fit) > need
      && (forall a :: a in done && MblkSize(m, a) > need ==> fitSize <= MblkSize(m, a))
      && First(m, done, need, fit)
  }

  /** What is listed before fit is too small or larger than it. */
  ghost predicate First(m: Mem, l: seq<Addr>, need: int, fit: Addr) {
    l != [] && l[0] != fit ==>
      && (MblkSize(m, l[0]) > need ==> MblkSize(m, l[0]) > MblkSize(m, fit))
      && First(m, l[1..], need, fit)
  }

  lemma {:induction false} FirstAppend(m: Mem, l: seq<Addr>, more: seq<Addr>, need: int, fit: Addr)
    requires First(m, l, need, fit) && fit in l
    ensures First(m, l + more, need, fit)
  {
    assert (l + more)[1..] == l[1..] + more;
    if l[0] != fit {
      FirstAppend(m, l[1..], more, need, fit);
    }
  }

  lemma {:induction false} FirstNew(m: Mem, l: seq<Addr>, need: int, fit: Addr)
    requires forall a :: a in l && MblkSize(m, a) > need ==> MblkSize(m, a) > MblkSize(m, fit)
    ensures First(m, l + [fit], need, fit)
  {
    if l != [] {
      assert (l + [fit])[1..] == l[1..] + [fit];
      FirstNew(m, l[1..], need, fit);
    }
  }

  lemma {:induction false} BestStep(m: Mem, done: seq<Addr>, a: Addr, need: int, fit: Addr, fitSize: int)
    requires BestOf(m, done, need, fit, fitSize) && a != NULL && MblkSize(m, a) < 0x7fff_ffff
    ensures var s := MblkSize(m, a);
      if s > need && s < fitSize then BestOf(m, done + [a], need, a, s) else BestOf(m, done + [a], need, fit, fitSize)
  {
    var s := MblkSize(m, a);
    if s > need && s < fitSize {
      FirstNew(m, done, need, a);
    } else if fit != NULL {
      FirstAppend(m, done, [a], need, fit);
    }
  }

  /** The search has seen `done` and stands at the first of `rest`. */
  ghost predicate SearchAt(m: Mem, fl: seq<Addr>, before: Addr, done: seq<Addr>, rest: seq<Addr>, at: Addr,
                           need: int, fit: Addr, fitSize: int)
  {
    && fl == done + rest && at == FirstOr(rest, NULL)
    && FreeChained(m, before, rest, NULL)
    && BestOf(m, done, need, fit, fitSize)
  }

  lemma {:induction false} SearchStart(m: Mem, bs: seq<Block>, fl: seq<Addr>, lo: Addr, hi: Addr, need: int)
    requires Rep(m, bs, fl, lo, hi)
    ensures SearchAt(m, fl, lo, [], fl, At(m.nf, lo), need, NULL, 0x7fff_ffff)
  {
    assert ([lo] + fl)[1..] == fl;
  }

  lemma {:induction false} SearchStep(m: Mem, bs: seq<Block>, fl: seq<Addr>, lo: Addr, hi: Addr,
                                      before: Addr, done: seq<Addr>, rest: seq<Addr>, need: int, fit: Addr,
                                      fitSize: int)
    requires Rep(m, bs, fl, lo, hi)
    requires SearchAt(m, fl, before, done, rest, FirstOr(rest, NULL), need, fit, fitSize) && FirstOr(rest, NULL) != NULL
    ensures var a := rest[0];
      var s := MblkSize(m, a);
      if s > need && s < fitSize then SearchAt(m, fl, a, done + [a], rest[1..], At(m.nf, a), need, a, s)
      else SearchAt(m, fl, a, done + [a], rest[1..], At(m.nf, a), need, fit, fitSize)
  {
    assert rest[0] in fl;
    var x, b, y := FreeBlockInMemory(m, bs, fl, lo, hi, rest[0]);
    BestStep(m, done, rest[0], need, fit, fitSize);
  }

  lemma {:induction false} SearchEnd(m: Mem, bs: seq<Block>, fl: seq<Addr>, lo: Addr, hi: Addr,
                                     before: Addr, done: seq<Addr>, rest: seq<Addr>, need: int, fit: Addr, fitSize: int)
    requires Rep(m, bs, fl, lo, hi)
    requires SearchAt(m, fl, before, done, rest, NULL, need, fit, fitSize)
    ensures done == fl
  {
    if rest != [] {
      assert rest[0] in fl;
      var x, b, y := FreeBlockInMemory(m, bs, fl, lo, hi, rest[0]);
    }
  }

  /** The memory that initialisation writes. */
  function InitMem(start: Addr, size: int): Mem {
    var mb, tail := start + MBLK, start + size - MBLK;
    Mem(map[start := mb, mb := tail, tail := NULL],
        map[start := NULL, mb := start, tail := mb],
        map[start := mb, mb := NULL],
        map[start := NULL, mb := start])
  }

  lemma {:induction false} InitHolds(start: Addr, size: int)
    requires 0 < start && start % 8 == 0 && size % 8 == 0 && size >= 3 * MBLK && start + size < 0x8000_0000
    ensures Rep(InitMem(start, size), [Block(start + MBLK, size - 2 * MBLK, false)], [start + MBLK], start,
      start + size)
  {
    var b := Block(start + MBLK, size - 2 * MBLK, false);
    assert [b][1..] == [] && [start + MBLK][1..] == [];
    var m := InitMem(start, size);
    assert FreeChained(m, start, [start + MBLK], NULL);
    assert ([start] + [start + MBLK])[1..] == [start + MBLK];
    assert Elems([start + MBLK]) == {start + MBLK};
  }

  // ----- which block serves a request -----

  ghost predicate NoneFits(bs: seq<Block>, size: int) {
    forall b :: b in bs && !b.used ==> Payload(b) <= Rounded(size)
  }

  /** What precedes b on the free list is too small for the request or larger than b. */
  ghost predicate FirstSmallest(bs: seq<Block>, fl: seq<Addr>, size: int, b: Block) {
    forall c :: c in bs && !c.used && Payload(c) > Rounded(size) ==>
      Payload(b) < Payload(c) || (Payload(b) == Payload(c) && Position(fl, b.at) <= Position(fl, c.at))
  }

  ghost function Position(fl: seq<Addr>, a: Addr): nat {
    if fl == [] || fl[0] == a then 0 else 1 + Position(fl[1..], a)
  }

  /** The block between x and y serves the request: the first of the smallest that are larger. */
  ghost predicate Served(bs: seq<Block>, fl: seq<Addr>, size: int, x: seq<Block>, b: Block, y: seq<Block>) {
    bs == x + [b] + y && !b.used && Payload(b) > Rounded(size) && FirstSmallest(bs, fl, size, b)
  }

  lemma {:induction false} FirstByPosition(m: Mem, l: seq<Addr>, need: int, fit: Addr, a: Addr)
    requires First(m, l, need, fit) && fit in l
    requires a in l && need < MblkSize(m, a) <= MblkSize(m, fit)
    ensures Position(l, fit) <= Position(l, a)
  {
    if l[0] != fit {
      FirstByPosition(m, l[1..], need, fit, a);
    }
  }

  lemma {:induction false} NothingFits(m: Mem, bs: seq<Block>, fl: seq<Addr>, lo: Addr, hi: Addr, size: int, fit: Addr,
                                       fitSize: int)
    requires Rep(m, bs, fl, lo, hi) && BestOf(m, fl, Rounded(size), fit, fitSize)
    ensures fit == NULL <==> NoneFits(bs, size)
  {
    if fit == NULL {
      forall b | b in bs && !b.used ensures Payload(b) <= Rounded(size) {
        FreeBlockIsListed(m, bs, fl, lo, hi, b);
      }
    } else {
      var x, b, y := FreeBlockInMemory(m, bs, fl, lo, hi, fit);
      assert b in bs;
    }
  }

  lemma {:induction false} BestServes(m: Mem, bs: seq<Block>, fl: seq<Addr>, lo: Addr, hi: Addr, size: int,
                                      x: seq<Block>, b: Block, y: seq<Block>)
    requires Rep(m, bs, fl, lo, hi) && bs == x + [b] + y && !b.used
    requires b.at != NULL && BestOf(m, fl, Rounded(size), b.at, Payload(b))
    ensures Served(bs, fl, size, x, b, y)
  {
    forall c | c in bs && !c.used && Payload(c) > Rounded(size)
      ensures Payload(b) < Payload(c) || (Payload(b) == Payload(c) && Position(fl, b.at) <= Position(fl, c.at))
    {
      FreeBlockIsListed(m, bs, fl, lo, hi, c);
      if Payload(b) >= Payload(c) {
        FirstByPosition(m, fl, Rounded(size), b.at, c.at);
      }
    }
  }

  /** What a free leaves in memory m. */
  ghost predicate FreedMemory(m: Mem, x: seq<Block>, b: Block, y: seq<Block>, fl: seq<Addr>, lo: Addr, hi: Addr) {
    && (Inv(m, lo, hi) <==> FreeSafe(x, y, fl))
    && (FreeSafe(x, y, fl) ==> Rep(m, FreedBlocks(x, b, y), FreedList(x, b, y, fl), lo, hi))
  }

  lemma {:induction false} FreeOutcome(m: Mem, bs: seq<Block>, x: seq<Block>, b: Block, y: seq<Block>, fl: seq<Addr>,
                                       lo: Addr, hi: Addr)
    requires Rep(m, bs, fl, lo, hi) && bs == x + [b] + y && b.used
    ensures FreedMemory(FreeMem(m, lo, b.at), x, b, y, fl, lo, hi) && b.at != lo
  {
    FreeExactly(m, x, b, y, fl, lo, hi);
    Around(x, b, y, lo, hi);
  }

  /** What an allocation from b leaves in memory m. */
  ghost predicate TakenMemory(m: Mem, x: seq<Block>, b: Block, y: seq<Block>, fl: seq<Addr>, need: int, lo: Addr,
                              hi: Addr) {
    && (Inv(m, lo, hi) <==> TakeSafe(b, need))
    && (TakeSafe(b, need) ==> Rep(m, TakenBlocks(x, b, y, need), TakenList(fl, b, need), lo, hi))
  }

  lemma {:induction false} TakeOutcome(m: Mem, bs: seq<Block>, x: seq<Block>, b: Block, y: seq<Block>, fl: seq<Addr>,
                                       need: int, lo: Addr, hi: Addr)
    requires Rep(m, bs, fl, lo, hi) && bs == x + [b] + y && !b.used && need >= 0 && need % 8 == 0
    ensures TakenMemory(TakeMem(m, b.at, Payload(b), need), x, b, y, fl, need, lo, hi)
  {
    hide Rep;
    hide TakeMem;
    TakeExactly(m, x, b, y, fl, need, lo, hi);
  }

  class Heap {
    var next: map<Addr, int>
    var prev: map<Addr, int>
    var nf: map<Addr, int>
    var pf: map<Addr, int>
    var head: Addr

    ghost var hi: Addr
    ghost var blocks: seq<Block>
    ghost var fl: seq<Addr>

    function Memory(): Mem
      reads this
    {
      Mem(next, prev, nf, pf)
    }

    ghost predicate Valid()
      reads this
    {
      Rep(Memory(), blocks, fl, head, hi)
    }

    constructor (start: Addr, size: int)
      requires 0 < start && start % 8 == 0 && size % 8 == 0 && size >= 3 * MBLK && start + size < 0x8000_0000
      ensures Valid() && head == start && hi == start + size
      ensures blocks == [Block(start + MBLK, size - 2 * MBLK, false)] && fl == [start + MBLK]
    {
      var mb, tail := start + MBLK, start + size - MBLK;
      head := start;
      next := map[start := mb, mb := tail, tail := NULL];
      prev := map[start := NULL, mb := start, tail := mb];
      nf := map[start := mb, mb := NULL];
      pf := map[start := NULL, mb := start];
      hi, blocks, fl := start + size, [Block(start + MBLK, size - 2 * MBLK, false)], [start + MBLK];
      InitHolds(start, size);
    }

    /** The block a request is served from: the first of the smallest free blocks larger than it, or null. */
    method FindFit(need: int) returns (fit: Addr, fitSize: int)
      requires Valid()
      ensures BestOf(Memory(), fl, need, fit, fitSize)
    {
      hide Rep;
      var m := At(nf, head);
      fit, fitSize := NULL, 0x7fff_ffff;
      ghost var before, done, rest := head, [], fl;
      SearchStart(Memory(), blocks, fl, head, hi, need);
      while m != NULL
        invariant SearchAt(Memory(), fl, before, done, rest, m, need, fit, fitSize)
        decreases |rest|
      {
        SearchStep(Memory(), blocks, fl, head, hi, before, done, rest, need, fit, fitSize);
        var bsize := ClearMark(At(next, m)) - m - HEADER;
        if bsize > need {
          if bsize < fitSize {
            fitSize := bsize;
            fit := m;
          }
        }
        before, done, rest := m, done + [m], rest[1..];
        m := At(nf, m);
      }
      SearchEnd(Memory(), blocks, fl, head, hi, before, done, rest, need, fit, fitSize);
    }

    /**
     Serve a request: null exactly if no free block is larger than the rounded
     request, and else the payload of the first of the smallest such blocks.
    */
    method Malloc(size: int) returns (ptr: Addr, ghost x: seq<Block>, ghost b: Block, ghost y: seq<Block>)
      requires Valid() && -8 < size <= MAX_REQUEST
      modifies this
      ensures head == old(head) && hi == old(hi)
      ensures ptr == NULL <==> NoneFits(old(blocks), size)
      ensures ptr == NULL ==> Memory() == old(Memory()) && blocks == old(blocks) && fl == old(fl)
      ensures ptr != NULL ==> Served(old(blocks), old(fl), size, x, b, y) && ptr == b.at + HEADER
      ensures ptr != NULL ==> TakenMemory(Memory(), x, b, y, old(fl), Rounded(size), head, hi)
      ensures ptr != NULL ==>
        blocks == TakenBlocks(x, b, y, Rounded(size)) && fl == TakenList(old(fl), b, Rounded(size))
      ensures Valid() <==> ptr == NULL || TakeSafe(b, Rounded(size))
    {
      hide TakenBlocks;
      var need := Rounded(size);
      var fit, fitSize := FindFit(need);
      NothingFits(Memory(), blocks, fl, head, hi, size, fit, fitSize);
      if fit == NULL {
        ptr, x, b, y := NULL, [], Block(0, 0, false), [];
        return;
      }
      x, b, y := FreeBlockInMemory(Memory(), blocks, fl, head, hi, fit);
      BestServes(Memory(), blocks, fl, head, hi, size, x, b, y);
      TakeOutcome(Memory(), blocks, x, b, y, fl, need, head, hi);
      Take(fit, fitSize, need);
      blocks, fl := TakenBlocks(x, b, y, need), TakenList(fl, b, need);
      ptr := fit + HEADER;
    }

    /** The writes of an allocation from the free block m. */
    method Take(m: Addr, bsize: int, need: int)
      modifies `next, `prev, `nf, `pf
      ensures Memory() == TakeMem(old(Memory()), m, bsize, need)
    {
      if bsize - need >= MBLK {
        var n := m + HEADER + need;
        var after := At(next, m);
        next := next[n := after];
        prev := prev[n := m];
        if after != NULL {
          prev := prev[after := n];
        }
        next := next[m := n];
        var nextFree, prevFree := At(nf, m), At(pf, m);
        nf := nf[n := nextFree];
        pf := pf[n := prevFree];
        if prevFree != NULL {
          nf := nf[prevFree := n];
        }
        if At(nf, n) != NULL {
          pf := pf[At(nf, n) := n];
        }
      } else {
        if At(pf, m) != NULL {
          nf := nf[At(pf, m) := At(nf, m)];
        }
        if At(nf, m) != NULL {
          pf := pf[At(nf, m) := At(pf, m)];
        }
      }
      next := next[m := SetMark(At(next, m))];
    }

    /**
     Give the block behind ptr back.  The memory holds a heap afterwards exactly
     in the safe cases, and then the block is one with its free neighbours.
    */
    method Free(ptr: Addr, ghost x: seq<Block>, ghost b: Block, ghost y: seq<Block>)
      requires Valid() && blocks == x + [b] + y && b.used && ptr == b.at + HEADER
      modifies `next, `prev, `nf, `pf, `blocks, `fl
      ensures head == old(head) && hi == old(hi)
      ensures FreedMemory(Memory(), x, b, y, old(fl), head, hi)
      ensures blocks == FreedBlocks(x, b, y) && fl == FreedList(x, b, y, old(fl))
      ensures Valid() <==> FreeSafe(x, y, old(fl))
    {
      FreeOutcome(Memory(), blocks, x, b, y, fl, head, hi);
      Release(ptr - HEADER);
      blocks, fl := FreedBlocks(x, b, y), FreedList(x, b, y, fl);
    }

    /** The next block n is merged into m, which takes its place on the free list. */
    method MergeNext(m: Addr, n: Addr)
      modifies `next, `prev, `nf, `pf
      ensures Memory() == ReplaceFree(SkipNext(old(Memory()), m, n), n, m)
    {
      var after := At(next, n);
      next := next[m := after];
      if after != NULL {
        prev := prev[after := m];
      }
      var nextFree, prevFree := At(nf, n), At(pf, n);
      nf := nf[m := nextFree];
      pf := pf[m := prevFree];
      if prevFree != NULL {
        nf := nf[prevFree := m];
      }
      if At(nf, m) != NULL {
        pf := pf[At(nf, m) := m];
      }
    }

    /** m is merged into the previous block p; if m is on the free list it leaves it. */
    method MergePrev(p: Addr, m: Addr, mFree: bool)
      modifies `next, `prev, `nf, `pf
      ensures var m2 := SkipNext(old(Memory()), p, m); Memory() == if mFree then UnlinkNextTo(m2, m, p) else m2
    {
      var after := At(next, m);
      next := next[p := after];
      if after != NULL {
        prev := prev[after := p];
      }
      if mFree {
        if At(nf, m) == p {
          pf := pf[p := At(pf, m)];
          if At(pf, p) != NULL {
            nf := nf[At(pf, p) := p];
          }
        } else {
          nf := nf[p := At(nf, m)];
          if At(nf, p) != NULL {
            pf := pf[At(nf, p) := p];
          }
        }
      }
    }

    /** m becomes the first free block; `guarded` tells whether a second one may be missing. */
    method PushFirst(m: Addr, guarded: bool)
      requires m != head
      modifies `nf, `pf
      ensures Memory() == PushFree(old(Memory()), head, m, guarded)
    {
      nf := nf[m := At(nf, head)];
      pf := pf[m := head];
      if guarded {
        nf := nf[head := m];
        if At(nf, m) != NULL {
          pf := pf[At(nf, m) := m];
        }
      } else {
        pf := pf[At(nf, m) := m];
        nf := nf[head := m];
      }
    }

    /** The writes of a free of the block m. */
    method Release(m: Addr)
      requires m != head
      modifies `next, `prev, `nf, `pf
      ensures Memory() == FreeMem(old(Memory()), head, m)
    {
      next := next[m := ClearMark(At(next, m))];
      var n := At(next, m);
      var mFree := n != NULL && IsFree(Memory(), n);
      if mFree {
        MergeNext(m, n);
      }
      var p := At(prev, m);
      if IsFree(Memory(), p) {
        if p == head {
          PushFirst(m, true);
        } else {
          MergePrev(p, m, mFree);
        }
      } else if !mFree {
        PushFirst(m, false);
      }
    }
  }
}
