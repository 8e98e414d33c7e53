/**
 One iteration of CoreMark's list benchmark as a function on the contents of the
 list, and the proof that it leaves the list as it found it.
*/
module BenchSpec {
  import opened MergeSortSpec
  import opened Sequences

  /** The fields of the result record that the benchmark calls read and write. */
  datatype Res = Res(crc: bv16, crcstate: bv16, crcmatrix: bv16)

  /** The routines of other files that the list code calls: any functions of what they are passed. */
  datatype Routines = Routines(state: (bv16, bv16) -> bv16, matrix: (bv16, bv16) -> bv16, crc16: (bv16, bv16) -> bv16)

  // ----- the two comparators -----

  datatype Calc = Calc(val: bv16, data16: bv16, res: Res)

  /** The seven-bit value of an item: cached if bit 7 says so, else computed once and cached. */
  function CalcFunc(data: bv16, res: Res, env: Routines): Calc {
    if data & 0x80 != 0 then Calc(data & 0x7f, data, res)
    else
      var nibble := (data >> 3) & 0xf;
      var dtype := nibble | (nibble << 4);
      var flag := data & 0x7;
      var ran :=
        if flag == 0 then
          var retval := env.state(if dtype < 0x22 then 0x22 else dtype, res.crc);
          (retval, if res.crcstate == 0 then res.(crcstate := retval) else res)
        else if flag == 1 then
          var retval := env.matrix(dtype, res.crc);
          (retval, if res.crcmatrix == 0 then res.(crcmatrix := retval) else res)
        else (data, res);
      var res' := ran.1.(crc := env.crc16(ran.0, ran.1.crc));
      var val := ran.0 & 0x7f;
      Calc(val, (data & 0xff00) | 0x80 | val, res')
  }

  function CmpComplex(env: Routines): Cmp<Res> {
    (a: Data, b: Data, res: Res) =>
      var ca := CalcFunc(a.data16, res, env);
      var cb := CalcFunc(b.data16, ca.res, env);
      Verdict((ca.val as int) - (cb.val as int), a.(data16 := ca.data16), b.(data16 := cb.data16), cb.res)
  }

  /** The low byte, which is overwritten by caching, regenerated from its backup in the high byte. */
  function Regen(data: bv16): bv16 {
    (data & 0xff00) | (0x00ff & (data >> 8))
  }

  /** The comparator by index; it regenerates the data only when it is passed no result record. */
  function CmpIdx(resIsNull: bool): Cmp<Res> {
    (a: Data, b: Data, res: Res) =>
      if resIsNull then
        Verdict(a.idx - b.idx, a.(data16 := Regen(a.data16)), b.(data16 := Regen(b.data16)), res)
      else
        Verdict(a.idx - b.idx, a, b, res)
  }

  predicate Cached(d: Data) { d.data16 & 0x80 != 0 }

  predicate Fresh(d: Data) { Regen(d.data16) == d.data16 }

  predicate ValLeq(a: Data, b: Data) { (a.data16 & 0x7f) as int <= (b.data16 & 0x7f) as int }

  predicate IdxLeq(a: Data, b: Data) { a.idx <= b.idx }

  /** What neither comparator changes. */
  function Backup(d: Data): (int, bv16) {
    (d.idx, d.data16 & 0xff00)
  }

  lemma {:induction false} CalcCaches(data: bv16, res: Res, env: Routines)
    ensures var c := CalcFunc(data, res, env);
      && c.data16 & 0x80 != 0 && c.data16 & 0x7f == c.val && c.data16 & 0xff00 == data & 0xff00
      && (data & 0x80 != 0 ==> c.data16 == data)
  {
    var c := CalcFunc(data, res, env);
    if data & 0x80 == 0 {
      assert c.val & 0x7f == c.val;
      CacheBits(data, c.val);
    }
  }

  lemma {:induction false} CacheBits(data: bv16, val: bv16)
    requires val & 0x7f == val
    ensures var d := (data & 0xff00) | 0x80 | val; d & 0x80 != 0 && d & 0x7f == val && d & 0xff00 == data & 0xff00
  {
  }

  lemma {:induction false} RegenBits(data: bv16)
    ensures Regen(Regen(data)) == Regen(data) && Regen(data) & 0xff00 == data & 0xff00
  {
  }

  lemma {:induction false} ComplexAnswers(a: Data, b: Data, s: Res, env: Routines)
    ensures Answers(CmpComplex(env)(a, b, s), a, b, Cached, ValLeq)
  {
    hide CalcFunc;
    hide Cached;
    var ca := CalcFunc(a.data16, s, env);
    CachesItem(a, s, env);
    CachesItem(b, ca.res, env);
  }

  lemma {:induction false} CachesItem(d: Data, res: Res, env: Routines)
    ensures var c := CalcFunc(d.data16, res, env);
      var d' := d.(data16 := c.data16);
      Cached(d') && (Cached(d) ==> d' == d) && d'.data16 & 0x7f == c.val
  {
    hide CalcFunc;
    CalcCaches(d.data16, res, env);
  }

  lemma {:induction false} ComplexKeepsBackup(a: Data, b: Data, s: Res, env: Routines)
    ensures var r := CmpComplex(env)(a, b, s); Backup(r.a) == Backup(a) && Backup(r.b) == Backup(b)
  {
    hide CalcFunc;
    CalcCaches(a.data16, s, env);
    var ca := CalcFunc(a.data16, s, env);
    CalcCaches(b.data16, ca.res, env);
  }

  lemma {:induction false} CmpComplexIsSteady(env: Routines)
    ensures Steady(CmpComplex(env), Cached, ValLeq)
    ensures Keeps(CmpComplex(env), Backup)
  {
    var cmp := CmpComplex(env);
    forall a, b, s
      ensures Answers(cmp(a, b, s), a, b, Cached, ValLeq)
      ensures Backup(cmp(a, b, s).a) == Backup(a) && Backup(cmp(a, b, s).b) == Backup(b)
    {
      ComplexAnswers(a, b, s, env);
      ComplexKeepsBackup(a, b, s, env);
    }
  }

  lemma {:induction false} CmpIdxIsSteady()
    ensures Steady(CmpIdx(true), Fresh, IdxLeq)
    ensures Keeps(CmpIdx(true), Backup)
  {
    var cmp := CmpIdx(true);
    forall a, b, s: Res
      ensures Answers(cmp(a, b, s), a, b, Fresh, IdxLeq)
      ensures Backup(cmp(a, b, s).a) == Backup(a) && Backup(cmp(a, b, s).b) == Backup(b)
    {
      RegenBits(a.data16);
      RegenBits(b.data16);
    }
  }

  // ----- the list operations -----

  datatype Probe = Probe(idx: int, data16: bv16)

  predicate Matches(d: Data, probe: Probe) {
    if probe.idx >= 0 then d.idx == probe.idx else d.data16 & 0xff == probe.data16
  }

  /** The place of the first match, or the length of the list. */
  function FindAt<K>(l: seq<Cell<K>>, probe: Probe): (i: nat)
    ensures i <= |l|
    ensures i < |l| ==> Matches(l[i].data, probe)
    ensures forall j :: 0 <= j < i ==> !Matches(l[j].data, probe)
  {
    if l == [] then 0
    else if Matches(l[0].data, probe) then 0
    else 1 + FindAt(l[1..], probe)
  }

  lemma {:induction false} ReversedPermutes<T>(l: seq<T>)
    ensures multiset(Reversed(l)) == multiset(l)
  {
    if l != [] {
      assert l == [l[0]] + l[1..];
      ReversedPermutes(l[1..]);
    }
  }

  /** The element after place f, if there is one, moved to place 1. */
  function Relink<T>(r: seq<T>, f: nat): (r': seq<T>)
    requires f < |r|
    ensures |r'| == |r|
  {
    if f + 1 == |r| then r else r[..1] + [r[f + 1]] + r[1..f + 1] + r[f + 2..]
  }

  /** The place from which the element at place i comes. */
  function RelinkFrom(n: nat, f: nat, i: nat): nat {
    if f + 1 == n || i == 0 || i > f + 1 then i else if i == 1 then f + 1 else i - 1
  }

  lemma {:induction false} RelinkAt<T>(r: seq<T>, f: nat, i: nat)
    requires f < |r| && i < |r|
    ensures RelinkFrom(|r|, f, i) < |r| && Relink(r, f)[i] == r[RelinkFrom(|r|, f, i)]
  {
  }

  lemma {:induction false} RelinkPermutes<T>(r: seq<T>, f: nat)
    requires f < |r|
    ensures multiset(Relink(r, f)) == multiset(r)
  {
    if f + 1 < |r| {
      assert r == r[..1] + r[1..f + 1] + [r[f + 1]] + r[f + 2..];
    }
  }

  datatype Tally = Tally(found: bv16, missed: bv16, retval: bv16)

  datatype Search<K> = Search(l: seq<Cell<K>>, probe: Probe, tally: Tally)

  /** A signed 16-bit index stepped by one, unless it is negative. */
  function NextIdx(idx: int): int {
    if idx < 0 then idx else if idx == 0x7fff then -0x8000 else idx + 1
  }

  /** Bit 8 of the second item is counted when nothing was found. */
  function CountMissed(t: Tally, second: bv16): Tally {
    t.(missed := t.missed + 1, retval := t.retval + ((second >> 8) & 1))
  }

  /** Bit 9 of the found item is counted if its bit 0 is set. */
  function CountFound(t: Tally, d: bv16): Tally {
    t.(found := t.found + 1, retval := t.retval + if d & 1 != 0 then (d >> 9) & 1 else 0)
  }

  function RoundProbe(probe: Probe, i: nat): Probe {
    probe.(data16 := (i % 0x100) as bv16)
  }

  function SearchStep<K>(st: Search<K>, i: nat): (r: Search<K>)
    requires |st.l| >= 2
    ensures |r.l| == |st.l|
  {
    var probe := RoundProbe(st.probe, i);
    var at := FindAt(st.l, probe);
    var rev := Reversed(st.l);
    var next := probe.(idx := NextIdx(probe.idx));
    if at == |st.l| then
      Search(rev, next, CountMissed(st.tally, rev[1].data.data16))
    else
      Search(Relink(rev, |st.l| - 1 - at), next, CountFound(st.tally, st.l[at].data.data16))
  }

  /** A round in which the probe is not found, and one in which it is. */
  lemma {:induction false} SearchStepIs<K>(l: seq<Cell<K>>, probe0: Probe, tally: Tally, i: nat, at: nat)
    requires |l| >= 2 && at == FindAt(l, RoundProbe(probe0, i))
    ensures var st, probe := SearchStep(Search(l, probe0, tally), i), RoundProbe(probe0, i);
      var next := probe.(idx := NextIdx(probe.idx));
      && |Reversed(l)| == |l| && at <= |l|
      && (at == |l| ==> st == Search(Reversed(l), next, CountMissed(tally, Reversed(l)[1].data.data16)))
      && (at < |l| ==> st == Search(Relink(Reversed(l), |l| - 1 - at), next, CountFound(tally, l[at].data.data16)))
  {
  }

  /** Rounds i .. n of the search loop. */
  function SearchLoop<K>(st: Search<K>, i: nat, n: int): (r: Search<K>)
    requires |st.l| >= 2
    ensures |r.l| == |st.l|
    decreases n - i
  {
    if i < n then SearchLoop(SearchStep(st, i), i + 1, n) else st
  }

  lemma {:induction false} SearchStepPermutes<K>(st: Search<K>, i: nat)
    requires |st.l| >= 2
    ensures multiset(SearchStep(st, i).l) == multiset(st.l)
  {
    hide Reversed;
    hide Relink;
    hide CountFound;
    hide CountMissed;
    var at := FindAt(st.l, RoundProbe(st.probe, i));
    ReversedPermutes(st.l);
    if at < |st.l| {
      RelinkPermutes(Reversed(st.l), |st.l| - 1 - at);
    }
  }

  /** The search loop only changes the order of the list. */
  lemma {:induction false} SearchPermutes<K>(st: Search<K>, i: nat, n: int)
    requires |st.l| >= 2
    ensures multiset(SearchLoop(st, i, n).l) == multiset(st.l)
    decreases n - i
  {
    if i < n {
      SearchStepPermutes(st, i);
      SearchPermutes(SearchStep(st, i), i + 1, n);
    }
  }

  function CrcTimes(d: bv16, n: nat, crc: bv16, env: Routines): bv16 {
    if n == 0 then crc else CrcTimes(d, n - 1, env.crc16(d, crc), env)
  }

  /** The list while its second item is removed. */
  function Removed<T>(l: seq<T>): (r: seq<T>)
    requires |l| >= 3
  {
    l[..1] + l[2..]
  }

  datatype Bench<K> = Bench(l: seq<Cell<K>>, res: Res, retval: bv16)

  function Credited(retval: bv16, found: bv16, missed: bv16): bv16 {
    retval + found * 4 - missed
  }

  function TallyTotal(t: Tally): bv16 {
    Credited(t.retval, t.found, t.missed)
  }

  /** The sort by data, done for a positive finder index only. */
  function SortedByData<K>(l: seq<Cell<K>>, finderIdx: int, res: Res, env: Routines): (r: Outcome<K, Res>)
    ensures |r.cells| == |l|
  {
    if finderIdx > 0 then Sort(l, CmpComplex(env), res) else Outcome(l, res)
  }

  /** A checksum run from the probed item, or from the second cell if it is not found. */
  function CrcFromProbe<K>(l: seq<Cell<K>>, probe: Probe, crc: bv16, env: Routines): bv16
    requires |l| >= 2
  {
    var at := FindAt(l, probe);
    CrcTimes(l[0].data.data16, if at < |l| then |l| - at else |l| - 1, crc, env)
  }

  /** The checksum run while the second item is removed. */
  function CrcWhileRemoved<K>(l: seq<Cell<K>>, probe: Probe, crc: bv16, env: Routines): bv16
    requires |l| >= 3
  {
    CrcFromProbe(Removed(l), probe, crc, env)
  }

  /** The last checksum run, over all cells but the first. */
  function CrcOfTail<K>(l: seq<Cell<K>>, crc: bv16, env: Routines): bv16
    requires l != []
  {
    CrcTimes(l[0].data.data16, |l| - 1, crc, env)
  }

  function BenchList<K>(l: seq<Cell<K>>, seed3: int, finderIdx: int, res: Res, env: Routines): (r: Bench<K>)
    requires |l| >= 3
    ensures |r.l| == |l|
  {
    var st := SearchLoop(Search(l, Probe(finderIdx, 0), Tally(0, 0, 0)), 0, seed3);
    var sorted := SortedByData(st.l, finderIdx, res, env);
    var crc := CrcWhileRemoved(sorted.cells, st.probe, TallyTotal(st.tally), env);
    var final := Sort(sorted.cells, CmpIdx(true), sorted.s);
    Bench(final.cells, final.s, CrcOfTail(final.cells, crc, env))
  }

  /** The benchmark put together from its steps. */
  lemma {:induction false} BenchListInSteps<K>(l: seq<Cell<K>>, seed3: int, finderIdx: int, res: Res, env: Routines,
                            st: Search<K>, sorted: Outcome<K, Res>, crc: bv16, final: Outcome<K, Res>, retval: bv16)
    requires |l| >= 3 && |st.l| == |sorted.cells| == |final.cells| == |l|
    requires st == SearchLoop(Search(l, Probe(finderIdx, 0), Tally(0, 0, 0)), 0, seed3)
    requires sorted == SortedByData(st.l, finderIdx, res, env)
    requires crc == CrcWhileRemoved(sorted.cells, st.probe, TallyTotal(st.tally), env)
    requires final == Sort(sorted.cells, CmpIdx(true), sorted.s)
    requires retval == CrcOfTail(final.cells, crc, env)
    ensures BenchList(l, seed3, finderIdx, res, env) == Bench(final.cells, final.s, retval)
  {
  }

  // ----- the list ends in its original state -----

  /** The list as the benchmark expects it: in index order, each low byte equal to its backup. */
  ghost predicate Original<K>(l: seq<Cell<K>>) {
    && (forall i, j :: 0 <= i < j < |l| ==> l[i].id != l[j].id && l[i].data.idx < l[j].data.idx)
    && (forall i :: 0 <= i < |l| ==> Fresh(l[i].data))
  }

  function PlaceOf<K(==)>(l: seq<Cell<K>>, id: K): nat {
    if l == [] then 0 else if l[0].id == id then 0 else 1 + PlaceOf(l[1..], id)
  }

  lemma {:induction false} PlaceOfCell<K>(l: seq<Cell<K>>, i: nat)
    requires i < |l| && forall j, k :: 0 <= j < k < |l| ==> l[j].id != l[k].id
    ensures PlaceOf(l, l[i].id) == i
  {
    if i > 0 {
      assert l[1..][i - 1] == l[i] && l[0].id != l[i].id;
      PlaceOfCell(l[1..], i - 1);
    }
  }

  /** An order of distinct items gives each its place. */
  lemma {:induction false} PlacesExist<K(!new)>(l: seq<Cell<K>>) returns (pos: K -> nat)
    requires forall j, k :: 0 <= j < k < |l| ==> l[j].id != l[k].id
    ensures InPlace(l, pos)
  {
    pos := (id: K) => PlaceOf(l, id);
    forall i, j | 0 <= i < j < |l| ensures pos(l[i].id) < pos(l[j].id) {
      PlaceOfCell(l, i);
      PlaceOfCell(l, j);
    }
  }

  function Map<A, B>(a: seq<A>, f: A -> B): (b: seq<B>)
    ensures |b| == |a| && forall i :: 0 <= i < |a| ==> b[i] == f(a[i])
  {
    seq(|a|, i requires 0 <= i < |a| => f(a[i]))
  }

  lemma {:induction false} MapTakesOut<A, B>(b: seq<A>, j: nat, f: A -> B)
    requires j < |b|
    ensures multiset(b) == multiset(b[..j] + b[j + 1..]) + multiset{b[j]}
    ensures multiset(Map(b, f)) == multiset(Map(b[..j] + b[j + 1..], f)) + multiset{f(b[j])}
  {
    var x, y := b[..j], b[j + 1..];
    MapAppend(x, [b[j]] + y, f);
    MapAppend([b[j]], y, f);
    MapAppend(x, y, f);
    hide Map;
    assert b == x + ([b[j]] + y);
    MapOne(b[j], f);
  }

  lemma {:induction false} MapOne<A, B>(c: A, f: A -> B)
    ensures Map([c], f) == [f(c)]
  {
  }

  lemma {:induction false} MapAppend<A, B>(x: seq<A>, y: seq<A>, f: A -> B)
    ensures Map(x + y, f) == Map(x, f) + Map(y, f)
  {
  }

  lemma {:induction false} TakeOneOut<T>(a: multiset<T>, b: multiset<T>, x: T)
    requires a + multiset{x} == b + multiset{x}
    ensures a == b
  {
    assert a + multiset{x} - multiset{x} == a && b + multiset{x} - multiset{x} == b;
  }

  lemma {:induction false} MapPermutes<A, B>(a: seq<A>, b: seq<A>, f: A -> B)
    requires multiset(a) == multiset(b)
    ensures multiset(Map(a, f)) == multiset(Map(b, f))
    decreases |a|
  {
    hide Map;
    assert |a| == |multiset(a)| == |b|;
    if a != [] {
      assert a[0] in multiset(b);
      var j :| 0 <= j < |b| && b[j] == a[0];
      var a', b' := a[..0] + a[1..], b[..j] + b[j + 1..];
      MapTakesOut(a, 0, f);
      MapTakesOut(b, j, f);
      TakeOneOut(multiset(a'), multiset(b'), a[0]);
      MapPermutes(a', b', f);
    }
  }

  ghost predicate AllDifferent<T>(a: seq<T>) {
    forall i, j :: 0 <= i < j < |a| ==> a[i] != a[j]
  }

  lemma {:induction false} DifferentCountsOne<T>(a: seq<T>, x: T)
    requires AllDifferent(a)
    ensures multiset(a)[x] <= 1
  {
    if x in a {
      var k :| 0 <= k < |a| && a[k] == x;
      assert a == a[..k] + [x] + a[k + 1..];
      assert x !in a[..k] && x !in a[k + 1..];
    }
  }

  lemma {:induction false} DifferentPermutes<T>(a: seq<T>, b: seq<T>)
    requires multiset(a) == multiset(b) && AllDifferent(a)
    ensures AllDifferent(b)
  {
    forall i, j | 0 <= i < j < |b| ensures b[i] != b[j] {
      assert b == b[..i] + [b[i]] + b[i + 1..j] + [b[j]] + b[j + 1..];
      DifferentCountsOne(a, b[i]);
    }
  }

  function IdOf<K, X>(v: (K, X)): K { v.0 }

  /** A permuted list has distinct items exactly where the original has. */
  lemma {:induction false} DistinctIdsPermute<K, X>(a: seq<Cell<K>>, b: seq<Cell<K>>, f: Data -> X)
    requires multiset(View(a, f)) == multiset(View(b, f))
    requires forall j, k :: 0 <= j < k < |a| ==> a[j].id != a[k].id
    ensures forall j, k :: 0 <= j < k < |b| ==> b[j].id != b[k].id
  {
    var ia, ib := Map(View(a, f), IdOf<K, X>), Map(View(b, f), IdOf<K, X>);
    MapPermutes(View(a, f), View(b, f), IdOf<K, X>);
    forall i, j | 0 <= i < j < |ia| ensures ia[i] != ia[j] {
      assert ia[i] == a[i].id && ia[j] == a[j].id;
    }
    DifferentPermutes(ia, ib);
    forall j, k | 0 <= j < k < |b| ensures b[j].id != b[k].id {
      assert ib[j] == b[j].id && ib[k] == b[k].id;
    }
  }

  lemma {:induction false} PermutedView<K, X>(a: seq<Cell<K>>, b: seq<Cell<K>>, f: Data -> X)
    requires multiset(a) == multiset(b)
    ensures multiset(View(a, f)) == multiset(View(b, f))
  {
    var g := (c: Cell<K>) => (c.id, f(c.data));
    MapPermutes(a, b, g);
    assert View(a, f) == Map(a, g) && View(b, f) == Map(b, g);
  }

  function FromBackup<K>(v: (K, (int, bv16))): Cell<K> {
    Cell(v.0, Data(v.1.0, Regen(v.1.1)))
  }

  lemma {:induction false} RegenFromBackup(data: bv16)
    ensures Regen(data & 0xff00) == Regen(data)
  {
  }

  /** A list of regenerated items is determined by its backups. */
  lemma {:induction false} FreshFromBackup<K>(l: seq<Cell<K>>)
    requires forall i :: 0 <= i < |l| ==> Fresh(l[i].data)
    ensures Map(View(l, Backup), FromBackup<K>) == l
  {
    forall i | 0 <= i < |l| ensures FromBackup(View(l, Backup)[i]) == l[i] {
      RegenFromBackup(l[i].data.data16);
    }
  }

  /** Whatever order it starts from, the sort by index brings an original list back. */
  lemma {:induction false} IdxSortRestores<K(!new)>(l: seq<Cell<K>>, m: seq<Cell<K>>, res: Res)
    requires Original(l) && |l| > 1
    requires multiset(View(m, Backup)) == multiset(View(l, Backup))
    ensures Sort(m, CmpIdx(true), res).cells == l
  {
    var r := Sort(m, CmpIdx(true), res).cells;
    DistinctIdsPermute(l, m, Backup);
    var pos := PlacesExist(m);
    CmpIdxIsSteady();
    assert |m| == |View(m, Backup)| == |multiset(View(m, Backup))| == |multiset(View(l, Backup))| == |l|;
    SortSettles(m, CmpIdx(true), res, Fresh, IdxLeq, pos);
    SortFromPermutes(m, 1, CmpIdx(true), res, Backup);
    forall i | 0 <= i < |r| ensures Fresh(r[i].data) {
      assert r[i] in r;
    }
    FreshFromBackup(r);
    FreshFromBackup(l);
    MapPermutes(View(r, Backup), View(l, Backup), FromBackup<K>);
    forall i, j | 0 <= i < j < |l| ensures Settled(l[i], l[j], Fresh, IdxLeq, pos) {
    }
    SettledIsUnique(r, l, Fresh, IdxLeq, pos);
  }

  /**
   The benchmark's own promise: for every seed, finder index, result record and
   whatever the other routines compute, the list ends in its original state.
  */
  lemma {:induction false} BenchListRestores<K(!new)>(l: seq<Cell<K>>, seed3: int, finderIdx: int, res: Res,
                                                      env: Routines)
    requires Original(l) && |l| >= 3
    ensures BenchList(l, seed3, finderIdx, res, env).l == l
  {
    var st := SearchLoop(Search(l, Probe(finderIdx, 0), Tally(0, 0, 0)), 0, seed3);
    SearchPermutes(Search(l, Probe(finderIdx, 0), Tally(0, 0, 0)), 0, seed3);
    PermutedView(st.l, l, Backup);
    var sorted := SortedByData(st.l, finderIdx, res, env);
    CmpComplexIsSteady(env);
    SortFromPermutes(st.l, 1, CmpComplex(env), res, Backup);
    IdxSortRestores(l, sorted.cells, sorted.s);
  }

  /** A list as it is built: headed by index 0, in index order, ties allowed. */
  ghost predicate Built<K>(l: seq<Cell<K>>) {
    && |l| >= 3 && l[0].data.idx == 0
    && (forall i, j :: 0 <= i < j < |l| ==> l[i].id != l[j].id && l[i].data.idx <= l[j].data.idx)
    && (forall i :: 0 <= i < |l| ==> Fresh(l[i].data))
  }

  ghost predicate RestoredBy<K>(l: seq<Cell<K>>, seed3: int, finderIdx: int, res: Res, env: Routines)
    requires |l| >= 3
  {
    BenchList(l, seed3, finderIdx, res, env).l == l
  }

  ghost predicate RestoredByEveryRun<K>(l: seq<Cell<K>>)
    requires |l| >= 3
  {
    forall seed3, finderIdx, res, env :: RestoredBy(l, seed3, finderIdx, res, env)
  }

  /** One round that finds the head just reverses the list. */
  lemma {:induction false} OneRoundReverses<K>(l: seq<Cell<K>>)
    requires |l| >= 3 && l[0].data.idx == 0
    ensures SearchLoop(Search(l, Probe(0, 0), Tally(0, 0, 0)), 0, 1).l == Reversed(l)
  {
    var st0 := Search(l, Probe(0, 0), Tally(0, 0, 0));
    assert FindAt(l, RoundProbe(st0.probe, 0)) == 0;
    assert SearchStep(st0, 0).l == Reversed(l);
    assert SearchLoop(st0, 0, 1) == SearchLoop(SearchStep(st0, 0), 1, 1);
  }

  /** The places of the items in the reversed list. */
  lemma {:induction false} ReversedPlaces<K(!new)>(l: seq<Cell<K>>) returns (pos: K -> nat)
    requires Built(l)
    ensures InPlace(Reversed(l), pos)
  {
    forall i, j | 0 <= i < j < |l| ensures Reversed(l)[i].id != Reversed(l)[j].id {
      assert l[|l| - 1 - j].id != l[|l| - 1 - i].id;
    }
    pos := PlacesExist(Reversed(l));
  }

  /** A stable sort of the reversed list keeps tied items reversed. */
  lemma {:induction false} TiesStayReversed<K(!new)>(l: seq<Cell<K>>, i: nat, j: nat, res: Res)
    requires Built(l) && i < j < |l| && l[i].data.idx == l[j].data.idx
    ensures Sort(Reversed(l), CmpIdx(true), res).cells != l
  {
    var m := Reversed(l);
    var pos := ReversedPlaces(l);
    assert m[|l| - 1 - i] == l[i] && m[|l| - 1 - j] == l[j];
    CmpIdxIsSteady();
    SortSettles(m, CmpIdx(true), res, Fresh, IdxLeq, pos);
    NotSettled(l, i, j, pos);
  }

  lemma {:induction false} NotSettled<K>(l: seq<Cell<K>>, i: nat, j: nat, pos: K -> nat)
    requires i < j < |l| && l[i].data.idx == l[j].data.idx && pos(l[j].id) < pos(l[i].id)
    ensures !SettledRun(l, Fresh, IdxLeq, pos)
  {
    assert !Settled(l[i], l[j], Fresh, IdxLeq, pos);
  }

  lemma {:induction false} TiesComeBackReversed<K(!new)>(l: seq<Cell<K>>, i: nat, j: nat, res: Res, env: Routines)
    requires Built(l) && i < j < |l| && l[i].data.idx == l[j].data.idx
    ensures !RestoredBy(l, 1, 0, res, env)
  {
    OneRoundReverses(l);
    TiesStayReversed(l, i, j, res);
  }

  ghost predicate IndexesDiffer<K>(l: seq<Cell<K>>) {
    forall i, j :: 0 <= i < j < |l| ==> l[i].data.idx != l[j].data.idx
  }

  /** A built list survives every run of the benchmark exactly when no two items share an index. */
  lemma {:induction false} RestoredExactlyWhenIndexesDiffer<K(!new)>(l: seq<Cell<K>>)
    requires Built(l)
    ensures RestoredByEveryRun(l) <==> IndexesDiffer(l)
  {
    if IndexesDiffer(l) {
      DifferingSurvive(l);
    } else {
      var i, j :| 0 <= i < j < |l| && l[i].data.idx == l[j].data.idx;
      TiedDoNotSurvive(l, i, j);
    }
  }

  lemma {:induction false} DifferingSurvive<K(!new)>(l: seq<Cell<K>>)
    requires Built(l) && IndexesDiffer(l)
    ensures RestoredByEveryRun(l)
  {
    DifferingIsOriginal(l);
    forall seed3, finderIdx, res, env ensures RestoredBy(l, seed3, finderIdx, res, env) {
      BenchListRestores(l, seed3, finderIdx, res, env);
    }
  }

  lemma {:induction false} TiedDoNotSurvive<K(!new)>(l: seq<Cell<K>>, i: nat, j: nat)
    requires Built(l) && i < j < |l| && l[i].data.idx == l[j].data.idx
    ensures !RestoredByEveryRun(l)
  {
    hide RestoredBy;
    var zero := (a: bv16, b: bv16) => 0 as bv16;
    var res, env := Res(0, 0, 0), Routines(zero, zero, zero);
    TiesComeBackReversed(l, i, j, res, env);
    assert !RestoredBy(l, 1, 0, res, env);
  }

  lemma {:induction false} DifferingIsOriginal<K>(l: seq<Cell<K>>)
    requires Built(l) && IndexesDiffer(l)
    ensures Original(l)
  {
    forall i, j | 0 <= i < j < |l| ensures l[i].id != l[j].id && l[i].data.idx < l[j].data.idx {
      assert l[i].data.idx != l[j].data.idx;
    }
  }
}
