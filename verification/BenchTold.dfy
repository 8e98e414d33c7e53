/**
 What the list benchmark returns and leaves in the result record, told item by
 item and round by round: which items are found, what each round adds, how the
 list moves, and how often the other routines are called.
*/
module BenchTold {
  import opened MergeSortSpec
  import opened BenchSpec
  import opened Sequences

  // ----- one round of the search -----

  /** The index looked for in round i: a signed 16-bit counter that stands still once it is negative. */
  function SoughtIdx(finderIdx: int, i: nat): int {
    if finderIdx < 0 then finderIdx else if finderIdx + i <= 0x7fff then finderIdx + i else -0x8000
  }

  /** Item d has the index, or, where the index is negative, the low byte that is looked for. */
  predicate Sought(d: Data, idx: int, low: bv16) {
    (idx >= 0 && d.idx == idx) || (idx < 0 && d.data16 & 0xff == low)
  }

  ghost predicate FirstAt<K>(l: seq<Cell<K>>, at: nat, idx: int, low: bv16) {
    at < |l| && Sought(l[at].data, idx, low) && forall j :: 0 <= j < at ==> !Sought(l[j].data, idx, low)
  }

  ghost predicate Nowhere<K>(l: seq<Cell<K>>, idx: int, low: bv16) {
    forall c :: c in l ==> !Sought(c.data, idx, low)
  }

  /** The list is turned round, and the cell that then follows the found one is put in second place. */
  ghost predicate MovedBy<T>(l: seq<T>, l': seq<T>, at: nat)
    requires at < |l|
  {
    var n := |l|;
    && |l'| == n && l'[0] == l[n - 1]
    && (at == 0 ==> forall k :: 0 < k < n ==> l'[k] == l[n - 1 - k])
    && (at > 0 ==>
       && n > 1 && l'[1] == l[at - 1]
       && (forall k :: 1 < k <= n - at ==> l'[k] == l[n - k])
       && (forall k :: n - at < k < n ==> l'[k] == l[n - 1 - k]))
  }

  /** One round: whether something is found, whether the round counts a bit, and where the cells go. */
  ghost predicate Round<K>(l: seq<Cell<K>>, l': seq<Cell<K>>, idx: int, low: bv16, hit: bool, extra: bool)
    requires |l| >= 2
  {
    && (hit <==> exists c :: c in l && Sought(c.data, idx, low))
    && if hit then exists at :: FirstAt(l, at, idx, low) && HitRound(l, l', at, extra) else MissRound(l, l', extra)
  }

  predicate FoundBit(d: bv16) { d & 0x1 != 0 && d & 0x200 != 0 }

  predicate MissBit(d: bv16) { d & 0x100 != 0 }

  /** Bit 9 of the found item is counted if its bit 0 is set. */
  ghost predicate HitRound<K>(l: seq<Cell<K>>, l': seq<Cell<K>>, at: nat, extra: bool)
    requires at < |l|
  {
    (extra <==> FoundBit(l[at].data.data16)) && MovedBy(l, l', at)
  }

  /** Without a hit, bit 8 of the item that is then the second one. */
  ghost predicate MissRound<K>(l: seq<Cell<K>>, l': seq<Cell<K>>, extra: bool)
    requires |l| >= 2
  {
    && (extra <==> MissBit(l[|l| - 2].data.data16))
    && |l'| == |l| && forall k :: 0 <= k < |l| ==> l'[k] == l[|l| - 1 - k]
  }

  function Low(i: int): bv16 {
    (i % 0x100) as bv16
  }

  lemma {:induction false} FindsFirst<K>(l: seq<Cell<K>>, probe: Probe)
    ensures var at := FindAt(l, probe);
      if at < |l| then FirstAt(l, at, probe.idx, probe.data16) else at == |l| && Nowhere(l, probe.idx, probe.data16)
  {
    if l != [] && !Matches(l[0].data, probe) {
      FindsFirst(l[1..], probe);
      var at := FindAt(l[1..], probe);
      forall j | 0 <= j < at + 1 && j < |l| ensures !Sought(l[j].data, probe.idx, probe.data16) {
        if j > 0 { assert l[j] == l[1..][j - 1] && l[1..][j - 1] in l[1..]; }
      }
    }
  }

  lemma {:induction false} RelinkMoves<T>(l: seq<T>, at: nat)
    requires at < |l| && |l| >= 2
    ensures MovedBy(l, Relink(Reversed(l), |l| - 1 - at), at)
  {
    var r, n, f := Reversed(l), |l|, |l| - 1 - at;
    forall k | 0 <= k < n ensures Relink(r, f)[k] == l[n - 1 - RelinkFrom(n, f, k)] {
      RelinkAt(r, f, k);
    }
  }

  lemma {:induction false} FoundBits(d: bv16)
    ensures (if d & 1 != 0 then (d >> 9) & 1 else 0) == if d & 0x1 != 0 && d & 0x200 != 0 then 1 else 0
  {
  }

  lemma {:induction false} MissedBits(d: bv16)
    ensures (d >> 8) & 1 == if d & 0x100 != 0 then 1 else 0
  {
  }

  lemma {:induction false} FoundCounts(t: Tally, d: bv16)
    ensures CountFound(t, d) == Tally(t.found + 1, t.missed, if FoundBit(d) then t.retval + 1 else t.retval)
  {
    FoundBits(d);
    if FoundBit(d) {
      assert (if d & 1 != 0 then (d >> 9) & 1 else 0) == 1;
    } else {
      assert (if d & 1 != 0 then (d >> 9) & 1 else 0) == 0;
      assert t.retval + 0 == t.retval;
    }
  }

  lemma {:induction false} MissedCounts(t: Tally, d: bv16)
    ensures CountMissed(t, d) == Tally(t.found, t.missed + 1, if MissBit(d) then t.retval + 1 else t.retval)
  {
    MissedBits(d);
  }

  /** What a round makes of the probe and the tally. */
  ghost predicate Counted(st: Search, st': Search, i: nat, hit: bool, extra: bool) {
    var t := st.tally;
    && st'.probe == Probe(NextIdx(st.probe.idx), Low(i))
    && st'.tally.found == (if hit then t.found + 1 else t.found)
    && st'.tally.missed == (if hit then t.missed else t.missed + 1)
    && st'.tally.retval == (if extra then t.retval + 1 else t.retval)
  }

  lemma {:induction false} HitMoves<K>(st: Search<K>, i: nat, at: nat)
    requires |st.l| >= 2 && at == FindAt(st.l, RoundProbe(st.probe, i)) < |st.l|
    ensures Round(st.l, SearchStep(st, i).l, st.probe.idx, Low(i), true, FoundBit(st.l[at].data.data16))
  {
    hide MovedBy;
    hide Relink;
    hide CountFound;
    hide CountMissed;
    hide FoundBit;
    hide Sought;
    var l := st.l;
    FindsFirst(l, RoundProbe(st.probe, i));
    RelinkMoves(l, at);
    assert l[at] in l && HitRound(l, SearchStep(st, i).l, at, FoundBit(l[at].data.data16));
  }

  lemma {:induction false} HitCounts<K>(st: Search<K>, i: nat, at: nat)
    requires |st.l| >= 2 && at == FindAt(st.l, RoundProbe(st.probe, i)) < |st.l|
    ensures Counted(st, SearchStep(st, i), i, true, FoundBit(st.l[at].data.data16))
  {
    hide Relink;
    hide Reversed;
    hide FindAt;
    hide CountFound;
    hide CountMissed;
    hide FoundBit;
    SearchStepIs(st.l, st.probe, st.tally, i, at);
    FoundCounts(st.tally, st.l[at].data.data16);
  }

  lemma {:induction false} HitTold<K>(st: Search<K>, i: nat) returns (extra: bool)
    requires |st.l| >= 2 && FindAt(st.l, RoundProbe(st.probe, i)) < |st.l|
    ensures Round(st.l, SearchStep(st, i).l, st.probe.idx, Low(i), true, extra)
    ensures Counted(st, SearchStep(st, i), i, true, extra)
  {
    hide SearchStep;
    hide Round;
    hide Counted;
    hide FindAt;
    var at := FindAt(st.l, RoundProbe(st.probe, i));
    extra := FoundBit(st.l[at].data.data16);
    HitMoves(st, i, at);
    HitCounts(st, i, at);
  }

  lemma {:induction false} MissMoves<K>(st: Search<K>, i: nat)
    requires |st.l| >= 2 && FindAt(st.l, RoundProbe(st.probe, i)) >= |st.l|
    ensures Round(st.l, SearchStep(st, i).l, st.probe.idx, Low(i), false, MissBit(st.l[|st.l| - 2].data.data16))
  {
    hide CountFound;
    hide CountMissed;
    hide MissBit;
    hide Sought;
    FindsFirst(st.l, RoundProbe(st.probe, i));
    assert MissRound(st.l, SearchStep(st, i).l, MissBit(st.l[|st.l| - 2].data.data16));
  }

  lemma {:induction false} MissCounts<K>(st: Search<K>, i: nat)
    requires |st.l| >= 2 && FindAt(st.l, RoundProbe(st.probe, i)) >= |st.l|
    ensures Counted(st, SearchStep(st, i), i, false, MissBit(st.l[|st.l| - 2].data.data16))
  {
    hide Relink;
    hide CountFound;
    hide CountMissed;
    hide MissBit;
    hide Sought;
    FindsFirst(st.l, RoundProbe(st.probe, i));
    SearchStepIs(st.l, st.probe, st.tally, i, |st.l|);
    MissedCounts(st.tally, st.l[|st.l| - 2].data.data16);
  }

  lemma {:induction false} MissTold<K>(st: Search<K>, i: nat) returns (extra: bool)
    requires |st.l| >= 2 && FindAt(st.l, RoundProbe(st.probe, i)) >= |st.l|
    ensures Round(st.l, SearchStep(st, i).l, st.probe.idx, Low(i), false, extra)
    ensures Counted(st, SearchStep(st, i), i, false, extra)
  {
    hide SearchStep;
    hide Round;
    hide Counted;
    hide FindAt;
    extra := MissBit(st.l[|st.l| - 2].data.data16);
    MissMoves(st, i);
    MissCounts(st, i);
  }

  // ----- all rounds -----

  /** How many entries are b, as a sixteen-bit number. */
  function Count(bs: seq<bool>, b: bool): bv16 {
    if bs == [] then 0
    else if bs[|bs| - 1] == b then Count(bs[..|bs| - 1], b) + 1
    else Count(bs[..|bs| - 1], b)
  }

  lemma {:induction false} CountOneMore(bs: seq<bool>, b: bool, last: bool)
    ensures Count(bs + [last], b) == if last == b then Count(bs, b) + 1 else Count(bs, b)
  {
    assert (bs + [last])[..|bs + [last]| - 1] == bs;
  }

  /** The rounds from the first one on: the list before and after each, which had a hit, and which counted a bit. */
  datatype Story<K> = Story(ls: seq<seq<Cell<K>>>, hits: seq<bool>, extras: seq<bool>)

  ghost predicate Told<K>(story: Story<K>, finderIdx: int) {
    var n := |story.hits|;
    && |story.ls| == n + 1 && |story.extras| == n
    && forall i :: 0 <= i < n ==>
       && |story.ls[i]| >= 2
       && Round(story.ls[i], story.ls[i + 1], SoughtIdx(finderIdx, i), Low(i), story.hits[i], story.extras[i])
  }

  /** The search has come as far as the story. */
  ghost predicate CameTo<K>(st: Search<K>, story: Story<K>, finderIdx: int) {
    var n := |story.hits|;
    && |story.ls| == n + 1 && st.l == story.ls[n] && |st.l| >= 2
    && st.probe == Probe(SoughtIdx(finderIdx, n), if n > 0 then Low(n - 1) else 0)
    && st.tally == Tally(Count(story.hits, true), Count(story.hits, false), Count(story.extras, true))
  }

  lemma {:induction false} OneMoreRound<K>(story: Story<K>, finderIdx: int, l: seq<Cell<K>>, hit: bool, extra: bool)
    returns (longer: Story<K>)
    requires Told(story, finderIdx) && |story.ls[|story.hits|]| >= 2
    requires var n := |story.hits|; Round(story.ls[n], l, SoughtIdx(finderIdx, n), Low(n), hit, extra)
    ensures Told(longer, finderIdx)
    ensures longer == Story(story.ls + [l], story.hits + [hit], story.extras + [extra])
  {
    hide Round;
    longer := Story(story.ls + [l], story.hits + [hit], story.extras + [extra]);
  }

  lemma {:induction false} CameToNow<K>(st: Search<K>, story: Story<K>, finderIdx: int)
    requires CameTo(st, story, finderIdx)
    ensures |story.ls| == |story.hits| + 1 && |st.l| >= 2 && st.l == story.ls[|story.hits|]
    ensures st.probe.idx == SoughtIdx(finderIdx, |story.hits|)
  {
  }

  lemma {:induction false} RoundTold<K>(st: Search<K>, story: Story<K>, finderIdx: int) returns (longer: Story<K>)
    requires -0x8000 <= finderIdx <= 0x7fff && Told(story, finderIdx) && CameTo(st, story, finderIdx)
    ensures Told(longer, finderIdx) && CameTo(SearchStep(st, |story.hits|), longer, finderIdx)
    ensures |longer.hits| == |story.hits| + 1 && longer.ls[0] == story.ls[0]
  {
    hide Round;
    hide Told;
    hide Count;
    hide Counted;
    hide SearchStep;
    hide FindAt;
    CameToNow(st, story, finderIdx);
    var i, hit, extra := |story.hits|, FindAt(st.l, RoundProbe(st.probe, |story.hits|)) < |st.l|, false;
    if hit {
      extra := HitTold(st, i);
    } else {
      extra := MissTold(st, i);
    }
    longer := OneMoreRound(story, finderIdx, SearchStep(st, i).l, hit, extra);
    StillCounts(st, SearchStep(st, i), story, longer, finderIdx, hit, extra);
  }

  lemma {:induction false} StillCounts<K>(st: Search<K>, st': Search<K>, story: Story<K>, longer: Story<K>,
                                          finderIdx: int, hit: bool, extra: bool)
    requires -0x8000 <= finderIdx <= 0x7fff && CameTo(st, story, finderIdx) && |st'.l| == |st.l|
    requires longer == Story(story.ls + [st'.l], story.hits + [hit], story.extras + [extra])
    requires Counted(st, st', |story.hits|, hit, extra)
    ensures CameTo(st', longer, finderIdx)
  {
    hide Count;
    hide Low;
    CountOneMore(story.hits, true, hit);
    CountOneMore(story.hits, false, hit);
    CountOneMore(story.extras, true, extra);
  }

  lemma {:induction false} RoundsTold<K>(st: Search<K>, story: Story<K>, finderIdx: int, n: int)
    returns (whole: Story<K>)
    requires -0x8000 <= finderIdx <= 0x7fff && Told(story, finderIdx) && CameTo(st, story, finderIdx)
    ensures Told(whole, finderIdx) && CameTo(SearchLoop(st, |story.hits|, n), whole, finderIdx)
    ensures |whole.hits| == (if |story.hits| < n then n else |story.hits|) && whole.ls[0] == story.ls[0]
    decreases n - |story.hits|
  {
    hide Told;
    hide CameTo;
    hide SearchStep;
    CameToNow(st, story, finderIdx);
    if |story.hits| < n {
      var longer := RoundTold(st, story, finderIdx);
      whole := RoundsTold(SearchStep(st, |story.hits|), longer, finderIdx, n);
    } else {
      whole := story;
    }
  }

  // ----- the checksum runs -----

  /** A checksum routine called n times, each time with the same word and what the call before gave. */
  function Again(crc16: (bv16, bv16) -> bv16, word: bv16, n: nat, crc: bv16): bv16 {
    if n == 0 then crc else crc16(word, Again(crc16, word, n - 1, crc))
  }

  lemma {:induction false} AgainFirst(crc16: (bv16, bv16) -> bv16, word: bv16, n: nat, crc: bv16)
    ensures Again(crc16, word, n + 1, crc) == Again(crc16, word, n, crc16(word, crc))
  {
    if n > 0 {
      AgainFirst(crc16, word, n - 1, crc);
    }
  }

  lemma {:induction false} CrcTimesIs(word: bv16, n: nat, crc: bv16, env: Routines)
    ensures CrcTimes(word, n, crc, env) == Again(env.crc16, word, n, crc)
  {
    if n > 0 {
      CrcTimesIs(word, n - 1, env.crc16(word, crc), env);
      AgainFirst(env.crc16, word, n - 1, crc);
    }
  }

  /** The first checksum run starts at the sought item of the list without its second cell, or else behind the head. */
  ghost predicate StartsAt<K>(mid: seq<Cell<K>>, at: nat, idx: int, low: bv16)
    requires |mid| >= 3
  {
    var shorter := [mid[0]] + mid[2..];
    FirstAt(shorter, at, idx, low) || (Nowhere(shorter, idx, low) && at == 1)
  }

  lemma {:induction false} RunWhileRemoved<K>(mid: seq<Cell<K>>, probe: Probe, crc: bv16, env: Routines)
    returns (at: nat)
    requires |mid| >= 3
    ensures at < |mid| - 1 && StartsAt(mid, at, probe.idx, probe.data16)
    ensures CrcWhileRemoved(mid, probe, crc, env)
      == Again(env.crc16, mid[0].data.data16, |mid| - 1 - at, crc)
  {
    hide Sought;
    hide FindAt;
    hide Again;
    hide CrcTimes;
    var shorter := Removed(mid);
    assert shorter == [mid[0]] + mid[2..];
    FindsFirst(shorter, probe);
    at := if FindAt(shorter, probe) < |shorter| then FindAt(shorter, probe) else 1;
    CrcTimesIs(mid[0].data.data16, |mid| - 1 - at, crc, env);
  }

  /** The bits counted, 4 for each round with a hit, less 1 for each round without. */
  function SearchSum(bits: bv16, hits: bv16, misses: bv16): bv16 {
    bits + hits * 4 - misses
  }

  /** What the rounds of the search add up to. */
  function SearchTotal(hits: seq<bool>, extras: seq<bool>): bv16 {
    SearchSum(Count(extras, true), Count(hits, true), Count(hits, false))
  }

  lemma {:induction false} CreditedIs(bits: bv16, hits: bv16, misses: bv16)
    ensures Credited(bits, hits, misses) == SearchSum(bits, hits, misses)
  {
    assert Credited(bits, hits, misses) == bits + hits * 4 - misses;
  }

  lemma {:induction false} TotalOfTally<K>(st: Search<K>, story: Story<K>, finderIdx: int)
    requires CameTo(st, story, finderIdx)
    ensures TallyTotal(st.tally) == SearchTotal(story.hits, story.extras)
  {
    hide Count;
    hide SearchSum;
    hide Credited;
    CreditedIs(st.tally.retval, st.tally.found, st.tally.missed);
  }

  lemma {:induction false} TailRun<K>(l: seq<Cell<K>>, crc: bv16, env: Routines)
    requires l != []
    ensures CrcOfTail(l, crc, env) == Again(env.crc16, l[0].data.data16, |l| - 1, crc)
  {
    hide Again;
    CrcTimesIs(l[0].data.data16, |l| - 1, crc, env);
  }

  lemma {:induction false} SearchTold<K>(l: seq<Cell<K>>, seed3: int, finderIdx: int)
    returns (story: Story<K>)
    requires |l| >= 3 && -0x8000 <= finderIdx <= 0x7fff
    ensures Told(story, finderIdx) && story.ls[0] == l && |story.hits| == if seed3 > 0 then seed3 else 0
    ensures CameTo(SearchLoop(Search(l, Probe(finderIdx, 0), Tally(0, 0, 0)), 0, seed3), story, finderIdx)
  {
    var st, start := Search(l, Probe(finderIdx, 0), Tally(0, 0, 0)), Story([l], [], []);
    story := RoundsTold(st, start, finderIdx, seed3);
  }

  /**
   The benchmark told: the rounds of the search, what they add up to, the list that
   the first checksum run is made over with its second cell removed, and how often
   the checksum routine is called, each time with the word of the head.
  */
  lemma {:induction false} BenchTold<K>(l: seq<Cell<K>>, seed3: int, finderIdx: int, res: Res, env: Routines)
    returns (story: Story<K>, mid: seq<Cell<K>>, at: nat)
    requires |l| >= 3 && -0x8000 <= finderIdx <= 0x7fff
    ensures Told(story, finderIdx) && story.ls[0] == l && |story.hits| == if seed3 > 0 then seed3 else 0
    ensures mid == if finderIdx > 0 then Sort(story.ls[|story.hits|], CmpComplex(env), res).cells
                   else story.ls[|story.hits|]
    ensures |mid| == |l| && at < |l| - 1
    ensures StartsAt(mid, at, SoughtIdx(finderIdx, |story.hits|), if seed3 > 0 then Low(seed3 - 1) else 0)
    ensures var b := BenchList(l, seed3, finderIdx, res, env);
      b.retval == Again(env.crc16, b.l[0].data.data16, |l| - 1,
        Again(env.crc16, mid[0].data.data16, |l| - 1 - at, SearchTotal(story.hits, story.extras)))
  {
    hide SearchLoop;
    hide Told;
    hide Sort;
    hide TallyTotal;
    hide SearchTotal;
    hide CrcWhileRemoved;
    hide CrcOfTail;
    hide StartsAt;
    hide Again;
    hide Low;
    story := SearchTold(l, seed3, finderIdx);
    var st := SearchLoop(Search(l, Probe(finderIdx, 0), Tally(0, 0, 0)), 0, seed3);
    var sorted := SortedByData(st.l, finderIdx, res, env);
    mid := sorted.cells;
    TotalOfTally(st, story, finderIdx);
    at := RunWhileRemoved(mid, st.probe, TallyTotal(st.tally), env);
    var crc := CrcWhileRemoved(mid, st.probe, TallyTotal(st.tally), env);
    var final := Sort(mid, CmpIdx(true), sorted.s);
    TailRun(final.cells, crc, env);
    BenchListInSteps(l, seed3, finderIdx, res, env, st, sorted, crc, final, CrcOfTail(final.cells, crc, env));
  }

  /** With a checksum routine that returns what it is given, the benchmark returns what its search adds up to. */
  lemma {:induction false} ReturnsTheTotal<K>(l: seq<Cell<K>>, seed3: int, finderIdx: int, res: Res, env: Routines)
    returns (story: Story<K>)
    requires |l| >= 3 && -0x8000 <= finderIdx <= 0x7fff
    requires forall word, crc :: env.crc16(word, crc) == crc
    ensures Told(story, finderIdx) && story.ls[0] == l && |story.hits| == if seed3 > 0 then seed3 else 0
    ensures BenchList(l, seed3, finderIdx, res, env).retval == SearchTotal(story.hits, story.extras)
  {
    hide Told;
    hide SearchTotal;
    hide BenchList;
    var mid, at;
    story, mid, at := BenchTold(l, seed3, finderIdx, res, env);
    var total := SearchTotal(story.hits, story.extras);
    NothingDone(env.crc16, mid[0].data.data16, |l| - 1 - at, total);
    NothingDone(env.crc16, BenchList(l, seed3, finderIdx, res, env).l[0].data.data16, |l| - 1, total);
  }

  lemma {:induction false} NothingDone(crc16: (bv16, bv16) -> bv16, word: bv16, n: nat, crc: bv16)
    requires forall w, c :: crc16(w, c) == c
    ensures Again(crc16, word, n, crc) == crc
  {
    if n > 0 {
      NothingDone(crc16, word, n - 1, crc);
    }
  }

  // ----- the items that are calculated -----

  lemma {:induction false} Spread(data: bv16)
    ensures var x := (data >> 3) & 0xf;
      var dtype := x | (x << 4);
      dtype == x * 0x11 && (if dtype < 0x22 then 0x22 else dtype) == (if x < 2 then 0x22 else x * 0x11)
  {
  }

  lemma {:induction false} NewLowByte(data: bv16, val: bv16)
    requires val & 0x7f == val
    ensures var d := (data & 0xff00) | 0x80 | val; d >> 8 == data >> 8 && d & 0xff == 0x80 + val
  {
  }

  lemma {:induction false} MaskedTwice(out: bv16)
    ensures (out & 0x7f) & 0x7f == out & 0x7f
  {
  }

  /** A cached item answers for itself. */
  lemma {:induction false} CachedAnswers(data: bv16, res: Res, env: Routines)
    requires data & 0x80 != 0
    ensures CalcFunc(data, res, env) == Calc(data & 0x7f, data, res)
  {
  }

  /** What an item that is not cached is answered by: type 0 by the state routine, type 1 by the matrix routine. */
  function Answer(data: bv16, crc: bv16, env: Routines): bv16 {
    var x := (data >> 3) & 0xf;
    if data & 0x7 == 0 then env.state(if x < 2 then 0x22 else x * 0x11, crc)
    else if data & 0x7 == 1 then env.matrix(x * 0x11, crc)
    else data
  }

  /**
   An item that is not cached is answered by one routine, which sees the checksum so far; the
   checksum takes the whole answer in, the first nonzero answer of each routine is recorded, and
   the low seven bits are cached.
  */
  lemma {:induction false} UncachedAnswers(data: bv16, res: Res, env: Routines)
    requires data & 0x80 == 0
    ensures var c, out := CalcFunc(data, res, env), Answer(data, res.crc, env);
      && c.val == out & 0x7f && c.data16 >> 8 == data >> 8 && c.data16 & 0xff == 0x80 + c.val
      && c.res.crc == env.crc16(out, res.crc)
      && c.res.crcstate == (if data & 0x7 == 0 && res.crcstate == 0 then out else res.crcstate)
      && c.res.crcmatrix == if data & 0x7 == 1 && res.crcmatrix == 0 then out else res.crcmatrix
  {
    Spread(data);
    var out := Answer(data, res.crc, env);
    MaskedTwice(out);
    NewLowByte(data, out & 0x7f);
  }

  /** A comparison by data calculates its first item before its second. */
  lemma {:induction false} FirstBeforeSecond(a: Data, b: Data, res: Res, env: Routines)
    requires a.data16 & 0x80 == 0 && b.data16 & 0x80 == 0
    ensures CmpComplex(env)(a, b, res).s == Ran([a.data16, b.data16], res, env)
  {
    hide CalcFunc;
    RanOnce([a.data16], b.data16, res, env);
    RanOnce([], a.data16, res, env);
    assert [] + [a.data16] == [a.data16] && [a.data16] + [b.data16] == [a.data16, b.data16];
  }

  /** A comparison by index leaves in the low byte what the high byte holds. */
  lemma {:induction false} LowByteComesBack(a: Data, b: Data, res: Res)
    ensures var v := CmpIdx(true)(a, b, res);
      && v.a.data16 & 0xff == a.data16 >> 8 == v.a.data16 >> 8
      && v.b.data16 & 0xff == b.data16 >> 8 == v.b.data16 >> 8
  {
    CopiedByte(a.data16);
    CopiedByte(b.data16);
  }

  lemma {:induction false} CopiedByte(data: bv16)
    ensures Regen(data) & 0xff == data >> 8 == Regen(data) >> 8
  {
  }

  /** What calculating items with these words, one after the other, makes of the record. */
  function Ran(words: seq<bv16>, res: Res, env: Routines): Res {
    if words == [] then res else CalcFunc(words[|words| - 1], Ran(words[..|words| - 1], res, env), env).res
  }

  /** The word of an item that is still to be calculated. */
  function Uncached(d: Data): multiset<bv16> {
    if d.data16 & 0x80 != 0 then multiset{} else multiset{d.data16}
  }

  /** Of the words in total, those that are not due have been calculated, each as often as it is there. */
  ghost predicate CalculatedBut(total: multiset<bv16>, res0: Res, env: Routines, res: Res, due: multiset<bv16>) {
    exists words: seq<bv16> :: multiset(words) + due == total && res == Ran(words, res0, env)
  }

  lemma {:induction false} RanOnce(words: seq<bv16>, word: bv16, res: Res, env: Routines)
    ensures Ran(words + [word], res, env) == CalcFunc(word, Ran(words, res, env), env).res
  {
    assert (words + [word])[..|words + [word]| - 1] == words;
  }

  lemma {:induction false} OneCalculated(total: multiset<bv16>, res0: Res, env: Routines, res: Res, d: Data,
                                         others: multiset<bv16>)
    requires CalculatedBut(total, res0, env, res, Uncached(d) + others)
    ensures var c := CalcFunc(d.data16, res, env);
      && CalculatedBut(total, res0, env, c.res, others) && Uncached(d.(data16 := c.data16)) == multiset{}
  {
    hide CalcFunc;
    hide Ran;
    CalcCaches(d.data16, res, env);
    if d.data16 & 0x80 != 0 {
      CachedAnswers(d.data16, res, env);
      assert Uncached(d) + others == others;
    } else {
      var words: seq<bv16> :|
        multiset(words) + (Uncached(d) + others) == total && res == Ran(words, res0, env);
      RanOnce(words, d.data16, res0, env);
      var words' := words + [d.data16];
      assert multiset(words') + others == multiset(words) + (Uncached(d) + others);
    }
  }

  lemma {:induction false} ComplexBalances(total: multiset<bv16>, res0: Res, env: Routines, a: Data, b: Data, res: Res,
                                           others: multiset<bv16>)
    ensures Balances(CmpComplex(env)(a, b, res), a, b, res, Uncached,
              (s, due) => CalculatedBut(total, res0, env, s, due), others)
  {
    hide CalcFunc;
    hide CalculatedBut;
    hide Uncached;
    if CalculatedBut(total, res0, env, res, Uncached(a) + Uncached(b) + others) {
      var ca := CalcFunc(a.data16, res, env);
      assert Uncached(a) + (Uncached(b) + others) == Uncached(a) + Uncached(b) + others;
      OneCalculated(total, res0, env, res, a, Uncached(b) + others);
      OneCalculated(total, res0, env, ca.res, b, others);
      var v := CmpComplex(env)(a, b, res);
      assert Uncached(v.a) + Uncached(v.b) + others == others;
    }
  }

  lemma {:induction false} NothingDue<K>(l: seq<Cell<K>>)
    requires AllTouched(l, Cached)
    ensures Due(l, Uncached) == multiset{}
  {
    if l != [] {
      assert l[0] in l && forall c :: c in l[1..] ==> c in l;
      NothingDue(l[1..]);
    }
  }

  /**
   The sort by data calculates every item of a list of two or more that is not cached, each once,
   one after the other, and nothing else.
  */
  lemma {:induction false} SortCalculatesOnce<K(!new)>(l: seq<Cell<K>>, res: Res, env: Routines)
    returns (words: seq<bv16>)
    requires |l| > 1 && forall j, k :: 0 <= j < k < |l| ==> l[j].id != l[k].id
    ensures multiset(words) == Due(l, Uncached)
    ensures Sort(l, CmpComplex(env), res).s == Ran(words, res, env)
  {
    hide Sort;
    hide Ran;
    hide Uncached;
    hide Balances;
    hide AllTouched;
    var cmp, total := CmpComplex(env), Due(l, Uncached);
    var balanced := (s, due) => CalculatedBut(total, res, env, s, due);
    forall a, b, s, others ensures Balances(cmp(a, b, s), a, b, s, Uncached, balanced, others) {
      ComplexBalances(total, res, env, a, b, s, others);
    }
    NothingYet(total, res, env);
    SortConserves(l, cmp, res, Uncached, balanced);
    var r := Sort(l, cmp, res);
    var pos := PlacesExist(l);
    CmpComplexIsSteady(env);
    SortSettles(l, cmp, res, Cached, ValLeq, pos);
    NothingDue(r.cells);
    assert CalculatedBut(total, res, env, r.s, multiset{});
    words :| multiset(words) + multiset{} == total && r.s == Ran(words, res, env);
    assert multiset(words) + multiset{} == multiset(words);
  }

  lemma {:induction false} NothingYet(total: multiset<bv16>, res: Res, env: Routines)
    ensures CalculatedBut(total, res, env, res, total)
  {
    var words: seq<bv16> := [];
    assert multiset(words) + total == total && res == Ran(words, res, env);
  }

  /** The sort by index leaves the record alone. */
  lemma {:induction false} IdxSortKeepsRecord<K>(l: seq<Cell<K>>, res: Res)
    ensures Sort(l, CmpIdx(true), res).s == res
  {
    SortConserves(l, CmpIdx(true), res, (d: Data) => multiset{0}, (s: Res, due) => s == res);
  }

  lemma {:induction false} DueTakesOut<K, X>(b: seq<Cell<K>>, j: nat, w: Data -> multiset<X>)
    requires j < |b|
    ensures multiset(b) == multiset(b[..j] + b[j + 1..]) + multiset{b[j]}
    ensures Due(b, w) == w(b[j].data) + Due(b[..j] + b[j + 1..], w)
  {
    hide Due;
    var x, y := b[..j], b[j + 1..];
    assert b == x + ([b[j]] + y);
    DueConcat(x, [b[j]] + y, w);
    DueConcat(x, y, w);
    DueCons(b[j], y, w);
    assert Due(x, w) + (w(b[j].data) + Due(y, w)) == w(b[j].data) + (Due(x, w) + Due(y, w));
  }

  lemma {:induction false} DuePermutes<K, X>(a: seq<Cell<K>>, b: seq<Cell<K>>, w: Data -> multiset<X>)
    requires multiset(a) == multiset(b)
    ensures Due(a, w) == Due(b, w)
    decreases |a|
  {
    hide Due;
    assert |a| == |multiset(a)| == |b|;
    if a == [] {
      assert a == b;
    } else {
      assert a[0] in multiset(b);
      var j :| 0 <= j < |b| && b[j] == a[0];
      var a', b' := a[..0] + a[1..], b[..j] + b[j + 1..];
      DueTakesOut(a, 0, w);
      DueTakesOut(b, j, w);
      TakeOneOut(multiset(a'), multiset(b'), a[0]);
      DuePermutes(a', b', w);
    }
  }

  /**
   The record after the benchmark: for a positive finder index every item of the list that was not
   cached has been calculated, each once, one after the other; else it is as before.
  */
  lemma {:induction false} RecordTold<K(!new)>(l: seq<Cell<K>>, seed3: int, finderIdx: int, res: Res, env: Routines)
    returns (words: seq<bv16>)
    requires |l| >= 3 && forall j, k :: 0 <= j < k < |l| ==> l[j].id != l[k].id
    ensures multiset(words) == if finderIdx > 0 then Due(l, Uncached) else multiset{}
    ensures BenchList(l, seed3, finderIdx, res, env).res == Ran(words, res, env)
  {
    hide SearchLoop;
    hide Sort;
    hide CalcFunc;
    hide Uncached;
    var st0 := Search(l, Probe(finderIdx, 0), Tally(0, 0, 0));
    var st := SearchLoop(st0, 0, seed3);
    SearchPermutes(st0, 0, seed3);
    var sorted := SortedByData(st.l, finderIdx, res, env);
    IdxSortKeepsRecord(sorted.cells, sorted.s);
    if finderIdx > 0 {
      DifferentCells(l, st.l);
      words := SortCalculatesOnce(st.l, res, env);
      DuePermutes(l, st.l, Uncached);
    } else {
      words := [];
    }
  }

  lemma {:induction false} DifferentCells<K>(a: seq<Cell<K>>, b: seq<Cell<K>>)
    requires multiset(a) == multiset(b) && forall j, k :: 0 <= j < k < |a| ==> a[j].id != a[k].id
    ensures forall j, k :: 0 <= j < k < |b| ==> b[j].id != b[k].id
  {
    PermutedView(a, b, Backup);
    DistinctIdsPermute(a, b, Backup);
  }
}
