/**
 What a client of the heap may rely on over whole runs of allocations and frees.
*/
module HeapRuns {
  import opened Chains
  import opened HeapSpec
  import opened HeapFree
  import opened HeapBreak
  import opened HeapAlloc
  import opened HeapData
  import opened XosHeap

  datatype State = State(m: Mem, bs: seq<Block>, fl: seq<Addr>)

  /**
   A request that is answered with null changes nothing, and so has no step.  In
   between, a client may write into the payload of a block that is in use.
  */
  datatype Op = Alloc(size: int) | Free(at: Addr) | Write(at: Addr)

  ghost predicate Step(s: State, op: Op, s': State, lo: Addr) {
    match op
    case Alloc(size) => 0 < size <= MAX_REQUEST && exists x, b, y :: Allocates(s, size, x, b, y, s')
    case Free(at) => exists x, b: Block, y :: b.at == at && Frees(s, x, b, y, s', lo)
    case Write(at) => s'.bs == s.bs && s'.fl == s.fl && exists b: Block :: b.at == at && Writes(s, b, s')
  }

  ghost predicate Writes(s: State, b: Block, s': State) {
    b in s.bs && b.used && OnlyPayload(s.m, s'.m, b)
  }

  ghost predicate Allocates(s: State, size: int, x: seq<Block>, b: Block, y: seq<Block>, s': State) {
    var need := Rounded(size);
    && Served(s.bs, s.fl, size, x, b, y)
    && s' == State(TakeMem(s.m, b.at, Payload(b), need), TakenBlocks(x, b, y, need), TakenList(s.fl, b, need))
  }

  /** A free in a safe case. */
  ghost predicate Frees(s: State, x: seq<Block>, b: Block, y: seq<Block>, s': State, lo: Addr) {
    && s.bs == x + [b] + y && b.used && FreeSafe(x, y, s.fl)
    && s' == State(FreeMem(s.m, lo, b.at), FreedBlocks(x, b, y), FreedList(x, b, y, s.fl))
  }

  ghost predicate Run(ss: seq<State>, ops: seq<Op>, lo: Addr)
    decreases |ops|
  {
    && |ss| == |ops| + 1
    && (ops != [] ==> Step(ss[0], ops[0], ss[1], lo) && Run(ss[1..], ops[1..], lo))
  }

  ghost function Bytes(bs: seq<Block>): int {
    if bs == [] then 0 else bs[0].size + Bytes(bs[1..])
  }

  lemma {:induction false} BytesOfTiles(bs: seq<Block>, from: Addr, to: Addr)
    requires Tiles(bs, from, to)
    ensures Bytes(bs) == to - from
  {
    if bs != [] {
      BytesOfTiles(bs[1..], from + bs[0].size, to);
    }
  }

  // ----- one step -----

  lemma {:induction false} RoundedRequest(size: int)
    requires size > 0
    ensures Rounded(size) >= 8
  {
  }

  lemma {:induction false} StepKeeps(s: State, op: Op, s': State, lo: Addr, hi: Addr)
    requires Rep(s.m, s.bs, s.fl, lo, hi) && Step(s, op, s', lo)
    ensures Rep(s'.m, s'.bs, s'.fl, lo, hi)
  {
    match op
    case Alloc(size) =>
      var x, b, y :| Allocates(s, size, x, b, y, s');
      RoundedRequest(size);
      TakeKeeps(s.m, x, b, y, s.fl, Rounded(size), lo, hi);
    case Free(at) =>
      var x, b: Block, y :| b.at == at && Frees(s, x, b, y, s', lo);
      FreeKeeps(s.m, x, b, y, s.fl, lo, hi);
    case Write(at) =>
      var b: Block :| b.at == at && Writes(s, b, s');
      WriteKeeps(s.m, s'.m, s.bs, s.fl, lo, hi, b);
  }

  /** A used block stays where it is until it is freed. */
  lemma {:induction false} UsedStays(s: State, op: Op, s': State, lo: Addr, c: Block)
    requires Step(s, op, s', lo) && c in s.bs && c.used && op != Free(c.at)
    ensures c in s'.bs
  {
    match op
    case Alloc(size) =>
      var x, b, y :| Allocates(s, size, x, b, y, s');
      assert c in x || c in y;
    case Free(at) =>
      var x, b: Block, y :| b.at == at && Frees(s, x, b, y, s', lo);
      assert c in x || c in y;
      FreedKeepsOthers(x, b, y, c);
    case Write(at) =>
  }

  lemma {:induction false} FreedKeepsOthers(x: seq<Block>, b: Block, y: seq<Block>, c: Block)
    requires (c in x || c in y) && c.used
    ensures c in FreedBlocks(x, b, y)
  {
    if c in x {
      assert PrevFree(x) ==> c in x[..|x| - 1];
    } else {
      assert NextFree(y) ==> c in y[1..];
    }
  }

  // ----- payloads -----

  /**
   The bytes handed to a client lie in the heap and belong to nobody else: not to
   another block, not to a header, not to a sentinel.
  */
  lemma {:induction false} ClientBytes(bs: seq<Block>, fl: seq<Addr>, lo: Addr, hi: Addr, c: Block, byte: Addr)
    requires Good(bs, fl, lo, hi) && c in bs && c.at + HEADER <= byte < c.at + HEADER + Payload(c)
    ensures lo + MBLK + HEADER <= byte < hi - MBLK
    ensures forall d :: d in bs && d != c ==> !(d.at <= byte < d.at + d.size)
    ensures forall d :: d in bs ==> !(d.at <= byte < d.at + HEADER)
  {
    TilesRange(bs, lo + MBLK, hi - MBLK);
    forall d | d in bs && d != c
      ensures c.at + c.size <= d.at || d.at + d.size <= c.at
    {
      BlocksApart(bs, lo + MBLK, hi - MBLK, c, d);
    }
  }

  /**
   An allocation hands out an aligned payload of at least the requested size that
   was free before; all used blocks stay, and nothing else becomes used.
  */
  lemma {:induction false} AllocationServes(s: State, size: int, x: seq<Block>, b: Block, y: seq<Block>, s': State,
                                            lo: Addr, hi: Addr)
    returns (c: Block)
    requires Good(s.bs, s.fl, lo, hi) && 0 < size <= MAX_REQUEST && Allocates(s, size, x, b, y, s')
    ensures c in s'.bs && c.used && c.at == b.at && (c.at + HEADER) % 8 == 0
    ensures size <= Payload(c) && c.size <= b.size
    ensures forall d :: d in s'.bs && d.used <==> d == c || (d in s.bs && d.used)
    ensures forall d :: d in s.bs && d.used ==> c.at + c.size <= d.at || d.at + d.size <= c.at
  {
    var need := Rounded(size);
    RoundedRequest(size);
    c := if Splits(b, need) then Block(b.at, HEADER + need, true) else b.(used := true);
    TakenUsed(x, b, y, need, c);
    assert b in s.bs;
    FreeIsApart(s.bs, s.fl, lo, hi, b);
  }

  lemma {:induction false} LargerThanRounded(b: Block, size: int)
    requires b.size % 8 == 0
    ensures Payload(b) > Rounded(size) <==> b.size >= size + 16
  {
  }

  /**
   A request finds no block exactly if no free one has 16 bytes more: one whose payload
   would just hold it is passed over.
  */
  lemma {:induction false} NoneFitsExactly(bs: seq<Block>, fl: seq<Addr>, lo: Addr, hi: Addr, size: int)
    requires Good(bs, fl, lo, hi)
    ensures NoneFits(bs, size) <==> forall b :: b in bs && !b.used ==> b.size < size + 16
  {
    hide Rounded;
    hide Payload;
    forall b | b in bs && !b.used ensures Payload(b) <= Rounded(size) <==> b.size < size + 16 {
      TilesAligned(bs, lo + MBLK, hi - MBLK, b);
      LargerThanRounded(b, size);
    }
  }

  /**
   What serves a request is a free block of least size among those with 16 bytes more.  If
   it has 16 bytes more than the block handed out needs, these stay a free block behind it;
   and else it is handed out whole.
  */
  lemma {:induction false} AllocationTakes(s: State, size: int, x: seq<Block>, b: Block, y: seq<Block>, s': State,
                                           lo: Addr, hi: Addr)
    returns (needed: int)
    requires Good(s.bs, s.fl, lo, hi) && 0 < size <= MAX_REQUEST && Allocates(s, size, x, b, y, s')
    ensures b in s.bs && !b.used && b.size >= size + 16
    ensures forall d :: d in s.bs && !d.used && d.size >= size + 16 ==> b.size <= d.size
    ensures needed % 8 == 0 && size + 8 <= needed < size + 16
    ensures s'.bs ==
      if b.size - needed >= 16 then x + [Block(b.at, needed, true), Block(b.at + needed, b.size - needed, false)] + y
      else x + [Block(b.at, b.size, true)] + y
  {
    hide Tiles;
    hide NoFreeNeighbours;
    hide Position;
    hide TakeMem;
    hide TakenList;
    needed := HEADER + Rounded(size);
    hide Rounded;
    assert b in s.bs;
    TilesAligned(s.bs, lo + MBLK, hi - MBLK, b);
    LargerThanRounded(b, size);
    forall d | d in s.bs && !d.used && d.size >= size + 16 ensures b.size <= d.size {
      TilesAligned(s.bs, lo + MBLK, hi - MBLK, d);
      LargerThanRounded(d, size);
    }
  }

  lemma {:induction false} FreeIsApart(bs: seq<Block>, fl: seq<Addr>, lo: Addr, hi: Addr, b: Block)
    requires Good(bs, fl, lo, hi) && b in bs && !b.used
    ensures (b.at + HEADER) % 8 == 0
    ensures forall d :: d in bs && d.used ==> b.at + b.size <= d.at || d.at + d.size <= b.at
  {
    TilesAligned(bs, lo + MBLK, hi - MBLK, b);
    forall d | d in bs && d.used ensures b.at + b.size <= d.at || d.at + d.size <= b.at {
      BlocksApart(bs, lo + MBLK, hi - MBLK, b, d);
    }
  }

  lemma {:induction false} TakenUsed(x: seq<Block>, b: Block, y: seq<Block>, need: int, c: Block)
    requires !b.used && c == if Splits(b, need) then Block(b.at, HEADER + need, true) else b.(used := true)
    ensures c in TakenBlocks(x, b, y, need)
    ensures forall d :: d in TakenBlocks(x, b, y, need) && d.used <==> d == c || (d in x + [b] + y && d.used)
  {
    var n := Block(b.at + HEADER + need, Payload(b) - need, false);
    assert forall d :: d in x + [b] + y <==> d in x || d == b || d in y;
    if Splits(b, need) {
      assert forall d :: d in x + [c, n] + y <==> d in x || d == c || d == n || d in y;
    } else {
      assert forall d :: d in x + [c] + y <==> d in x || d == c || d in y;
    }
  }

  // ----- runs -----

  /** Every state of a run is a heap in which no byte is lost. */
  lemma {:induction false} RunKeeps(ss: seq<State>, ops: seq<Op>, lo: Addr, hi: Addr, i: nat)
    requires Run(ss, ops, lo) && Rep(ss[0].m, ss[0].bs, ss[0].fl, lo, hi) && i < |ss|
    ensures Rep(ss[i].m, ss[i].bs, ss[i].fl, lo, hi) && Bytes(ss[i].bs) == hi - lo - 2 * MBLK
    decreases |ops|
  {
    BytesOfTiles(ss[0].bs, lo + MBLK, hi - MBLK);
    if i > 0 {
      StepKeeps(ss[0], ops[0], ss[1], lo, hi);
      RunKeeps(ss[1..], ops[1..], lo, hi, i - 1);
    }
  }

  /** A payload stays its client's from the allocation until the free. */
  lemma {:induction false} PayloadStays(ss: seq<State>, ops: seq<Op>, lo: Addr, c: Block)
    requires Run(ss, ops, lo) && c in ss[0].bs && c.used && Free(c.at) !in ops
    ensures c in ss[|ops|].bs
    decreases |ops|
  {
    if ops != [] {
      assert ops[0] in ops;
      UsedStays(ss[0], ops[0], ss[1], lo, c);
      PayloadStays(ss[1..], ops[1..], lo, c);
    }
  }

  /** A call, or a write into another block, leaves a client's payload alone. */
  lemma {:induction false} ContentsStayInStep(s: State, op: Op, s': State, lo: Addr, hi: Addr, c: Block)
    requires Rep(s.m, s.bs, s.fl, lo, hi) && Step(s, op, s', lo)
    requires c in s.bs && c.used && op != Free(c.at) && op != Write(c.at)
    ensures SamePayload(s.m, s'.m, c)
  {
    hide SamePayload;
    match op
    case Alloc(size) =>
      var x, b, y :| Allocates(s, size, x, b, y, s');
      RoundedRequest(size);
      TakeLeaves(s.m, x, b, y, s.fl, Rounded(size), lo, hi, c);
    case Free(at) =>
      var x, b: Block, y :| b.at == at && Frees(s, x, b, y, s', lo);
      FreeLeaves(s.m, x, b, y, s.fl, lo, hi, c);
    case Write(at) =>
      var b: Block :| b.at == at && Writes(s, b, s');
      BlocksApart(s.bs, lo + MBLK, hi - MBLK, b, c);
      OtherWritten(s.m, s'.m, b, c);
  }

  lemma {:induction false} OtherWritten(m: Mem, m': Mem, b: Block, c: Block)
    requires OnlyPayload(m, m', b) && (b.at + b.size <= c.at || c.at + c.size <= b.at)
    ensures SamePayload(m, m', c)
  {
  }

  /** What a client has written into its payload stays there until it writes there again or gives the block back. */
  lemma {:induction false} ContentsStay(ss: seq<State>, ops: seq<Op>, lo: Addr, hi: Addr, c: Block)
    requires Run(ss, ops, lo) && Rep(ss[0].m, ss[0].bs, ss[0].fl, lo, hi)
    requires c in ss[0].bs && c.used && Free(c.at) !in ops && Write(c.at) !in ops
    ensures SamePayload(ss[0].m, ss[|ops|].m, c)
    decreases |ops|
  {
    hide Step;
    hide Rep;
    if ops != [] {
      assert ops[0] in ops && forall op :: op in ops[1..] ==> op in ops;
      ContentsStayInStep(ss[0], ops[0], ss[1], lo, hi, c);
      StepKeeps(ss[0], ops[0], ss[1], lo, hi);
      UsedStays(ss[0], ops[0], ss[1], lo, c);
      ContentsStay(ss[1..], ops[1..], lo, hi, c);
      SameTwice(ss[0].m, ss[1].m, ss[|ops|].m, c);
    }
  }

  /** Once everything is given back the heap is a single free block again, and memory reads as after initialisation. */
  lemma {:induction false} AllFreedIsFresh(m: Mem, bs: seq<Block>, fl: seq<Addr>, lo: Addr, hi: Addr)
    requires Rep(m, bs, fl, lo, hi) && forall b :: b in bs ==> !b.used
    ensures bs == [Block(lo + MBLK, hi - lo - 2 * MBLK, false)] && fl == [lo + MBLK]
    ensures At(m.nf, lo) == lo + MBLK == At(m.next, lo) && At(m.nf, lo + MBLK) == NULL
    ensures At(m.next, lo + MBLK) == hi - MBLK && At(m.prev, hi - MBLK) == lo + MBLK
  {
    assert bs != [];
    NoNeighbours(bs);
    assert bs == [bs[0]] && bs[1..] == [] && bs[0] in bs;
    assert Tiles(bs[1..], bs[0].at + bs[0].size, hi - MBLK);
    assert FreeAddrs(bs) == {lo + MBLK};
    SingleList(fl, lo + MBLK);
    assert ([lo] + fl)[1..] == fl && fl[1..] == [];
    assert FreeChained(m, lo, fl, NULL);
    MarkOfBlock(bs, bs[0], lo, hi - MBLK);
  }

  lemma {:induction false} NoNeighbours(bs: seq<Block>)
    requires NoFreeNeighbours(bs)
    ensures |bs| <= 1 || bs[0].used || bs[1].used
  {
  }

  lemma {:induction false} SingleList(fl: seq<Addr>, a: Addr)
    requires NoDup(fl) && Elems(fl) == {a}
    ensures fl == [a]
  {
    assert a in Elems(fl);
    assert forall x :: x in fl ==> x in Elems(fl);
    OneOnly(fl, a);
  }

  lemma {:induction false} OneOnly(fl: seq<Addr>, a: Addr)
    requires NoDup(fl) && forall x :: x in fl ==> x == a
    ensures |fl| <= 1
  {
    if fl != [] {
      var rest := fl[1..];
      assert forall x :: x in rest ==> x in fl;
      assert fl[0] in fl;
      assert fl[0] == a && a !in rest;
      assert rest == [] || FirstOr(rest, a) in rest;
      assert |rest| == 0;
    }
  }

  // ----- the first block of a fresh heap -----

  /**
   On a fresh heap a request that splits the block, followed by giving it back,
   leaves memory in which no heap can be read any more: the block is put on the
   free list twice.
  */
  lemma {:induction false} FreshFreeBreaks(start: Addr, size: int, request: int)
    requires 0 < start && start % 8 == 0 && size % 8 == 0 && start + size < 0x8000_0000
    requires 0 < request <= MAX_REQUEST && Rounded(request) + 4 * MBLK - HEADER <= size
    ensures var m := InitMem(start, size);
      var b := start + MBLK;
      var taken := TakeMem(m, b, size - 2 * MBLK - HEADER, Rounded(request));
      && Inv(m, start, start + size) && Inv(taken, start, start + size)
      && !Inv(FreeMem(taken, start, b), start, start + size)
  {
    var hi, b, need := start + size, Block(start + MBLK, size - 2 * MBLK, false), Rounded(request);
    RoundedRequest(request);
    InitHolds(start, size);
    assert [] + [b] + [] == [b];
    TakeKeeps(InitMem(start, size), [], b, [], [start + MBLK], need, start, hi);
    var c, n := Block(b.at, HEADER + need, true), Block(b.at + HEADER + need, Payload(b) - need, false);
    assert TakenBlocks([], b, [], need) == [] + [c] + [n];
    UnsafeBreaks(TakeMem(InitMem(start, size), b.at, Payload(b), need), [], c, [n], TakenList([start + MBLK], b, need),
      start, hi);
  }
}
