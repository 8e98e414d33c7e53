/**
 CoreMark's linked-list benchmark in the memory block it is given: list cells and
 data items at addresses, relinked in place.
*/
module CoreList {
  import opened MergeSortSpec
  import opened BenchSpec
  import opened Sequences

  /** An address; 0 is the null pointer. */
  type Ptr = nat

  const NULL: Ptr := 0

  // ----- lists as sequences of cells -----

  /** A list cell with the data item it points to. */
  datatype Ref = Ref(node: Ptr, info: Ptr)

  function First(l: seq<Ref>): Ptr {
    if l == [] then NULL else l[0].node
  }

  /** x is neither a cell nor an item of l. */
  ghost predicate Clear(x: Ref, l: seq<Ref>) {
    forall y :: y in l ==> x.node != y.node && x.info != y.info
  }

  ghost predicate Distinct(l: seq<Ref>) {
    l != [] ==> Clear(l[0], l[1..]) && Distinct(l[1..])
  }

  ghost predicate Apart(a: seq<Ref>, b: seq<Ref>) {
    forall x :: x in a ==> Clear(x, b)
  }

  /** Consecutive cells are linked; nothing is said of the last one. */
  ghost predicate Chained(next: map<Ptr, Ptr>, l: seq<Ref>) {
    |l| > 1 ==> l[0].node in next && next[l[0].node] == l[1].node && Chained(next, l[1..])
  }

  /** Linked from the first cell to null. */
  ghost predicate Linked(next: map<Ptr, Ptr>, l: seq<Ref>) {
    l != [] ==> l[0].node in next && next[l[0].node] == First(l[1..]) && Linked(next, l[1..])
  }

  /** Every cell is a valid pointer to a cell that holds a valid pointer to its item. */
  ghost predicate Holds(next: map<Ptr, Ptr>, info: map<Ptr, Ptr>, data: map<Ptr, Data>, l: seq<Ref>) {
    forall r :: r in l ==>
      r.node != NULL && r.node in next && r.node in info && info[r.node] == r.info && r.info in data
  }

  /** The contents of the list. */
  ghost function Cells(data: map<Ptr, Data>, l: seq<Ref>): (cs: seq<Cell<Ptr>>)
    requires forall r :: r in l ==> r.info in data
    ensures |cs| == |l|
    ensures forall i :: 0 <= i < |l| ==> cs[i] == Cell(l[i].info, data[l[i].info])
  {
    seq(|l|, i requires 0 <= i < |l| => Cell(l[i].info, data[l[i].info]))
  }

  /** The merged list so far, with its first and last cell. */
  ghost predicate Output(next: map<Ptr, Ptr>, list: Ptr, tail: Ptr, d: seq<Ref>) {
    && list == First(d)
    && tail == (if d == [] then NULL else d[|d| - 1].node)
    && Chained(next, d)
  }

  ghost predicate AllApart(d: seq<Ref>, ps: seq<Ref>, qs: seq<Ref>, rs: seq<Ref>) {
    && Distinct(d) && Distinct(ps) && Distinct(qs) && Distinct(rs)
    && Apart(d, ps) && Apart(d, qs) && Apart(d, rs) && Apart(ps, qs) && Apart(ps, rs) && Apart(qs, rs)
  }

  /** What is left of the two runs: ps of the first, qs of the second, with rs behind it. */
  ghost predicate Left(next: map<Ptr, Ptr>, p: Ptr, psize: int, q: Ptr, qsize: int, ps: seq<Ref>, qs: seq<Ref>,
                       rs: seq<Ref>) {
    && psize == |ps| && (psize > 0 ==> p == ps[0].node) && Chained(next, ps)
    && q == First(qs + rs) && Linked(next, qs + rs)
    && |qs| <= qsize && (|qs| < qsize ==> rs == [])
  }

  // ----- facts about lists -----

  lemma {:induction false} AdvanceP(next: map<Ptr, Ptr>, p: Ptr, psize: int, q: Ptr, qsize: int, ps: seq<Ref>,
                                    qs: seq<Ref>, rs: seq<Ref>)
    requires Left(next, p, psize, q, qsize, ps, qs, rs) && ps != [] && ps[0].node in next
    ensures p == ps[0].node && Left(next, next[p], psize - 1, q, qsize, ps[1..], qs, rs)
  {
  }

  lemma {:induction false} AdvanceQ(next: map<Ptr, Ptr>, p: Ptr, psize: int, q: Ptr, qsize: int, ps: seq<Ref>,
                                    qs: seq<Ref>, rs: seq<Ref>)
    requires Left(next, p, psize, q, qsize, ps, qs, rs) && qs != [] && qs[0].node in next
    ensures q == qs[0].node && Left(next, p, psize, next[q], qsize - 1, ps, qs[1..], rs)
  {
    assert (qs + rs)[1..] == qs[1..] + rs;
  }

  lemma {:induction false} DistinctAppend(d: seq<Ref>, x: Ref)
    requires Distinct(d) && Apart(d, [x])
    ensures Distinct(d + [x])
  {
    if d != [] {
      assert d[0] in d && x in [x];
      assert (d + [x])[1..] == d[1..] + [x];
      DistinctAppend(d[1..], x);
    }
  }

  /** Moving the head of a run to the end of the output keeps everything apart. */
  lemma {:induction false} MoveHead(d: seq<Ref>, x: Ref, a: seq<Ref>, b: seq<Ref>, rs: seq<Ref>)
    requires AllApart(d, [x] + a, b, rs)
    ensures AllApart(d + [x], a, b, rs) && Apart(d, [x])
  {
    var l := [x] + a;
    assert x in l && (forall y :: y in a ==> y in l) && l[1..] == a;
    DistinctAppend(d, x);
  }

  lemma {:induction false} SwapRuns(d: seq<Ref>, a: seq<Ref>, b: seq<Ref>, rs: seq<Ref>)
    requires AllApart(d, a, b, rs)
    ensures AllApart(d, b, a, rs)
  {
  }

  lemma {:induction false} AfterTake(fromP: bool, d: seq<Ref>, ps: seq<Ref>, qs: seq<Ref>, rs: seq<Ref>)
    requires AllApart(d, ps, qs, rs) && (if fromP then ps != [] else qs != [])
    ensures if fromP then AllApart(d + [ps[0]], ps[1..], qs, rs) && Apart(d, [ps[0]])
            else AllApart(d + [qs[0]], ps, qs[1..], rs) && Apart(d, [qs[0]])
  {
    if fromP {
      assert ps == [ps[0]] + ps[1..];
      MoveHead(d, ps[0], ps[1..], qs, rs);
    } else {
      assert qs == [qs[0]] + qs[1..];
      SwapRuns(d, ps, qs, rs);
      MoveHead(d, qs[0], qs[1..], ps, rs);
      SwapRuns(d + [qs[0]], qs[1..], ps, rs);
    }
  }

  /** The output after its last cell was linked to the next element. */
  lemma {:induction false} AppendOutput(next: map<Ptr, Ptr>, list: Ptr, tail: Ptr, d: seq<Ref>, x: Ref)
    requires Output(next, list, tail, d) && Distinct(d) && Apart(d, [x])
    ensures Output(if d == [] then next else next[tail := x.node], if d == [] then x.node else list, x.node, d + [x])
  {
    if d != [] {
      ChainedAppend(next, d, x);
    }
  }

  lemma {:induction false} ChainedAppend(next: map<Ptr, Ptr>, d: seq<Ref>, x: Ref)
    requires d != [] && Chained(next, d) && Distinct(d)
    ensures Chained(next[d[|d| - 1].node := x.node], d + [x])
  {
    if |d| > 1 {
      assert (d + [x])[1..] == d[1..] + [x];
      assert d[0].node != d[|d| - 1].node;
      ChainedAppend(next, d[1..], x);
    }
  }

  /** Links of other cells stand when one cell is relinked. */
  lemma {:induction false} ChainElsewhere(next: map<Ptr, Ptr>, l: seq<Ref>, tail: Ptr, e: Ptr)
    requires Chained(next, l) && forall r :: r in l ==> r.node != tail
    ensures Chained(next[tail := e], l)
  {
    if |l| > 1 {
      assert l[0] in l;
      ChainElsewhere(next, l[1..], tail, e);
    }
  }

  lemma {:induction false} LinksElsewhere(next: map<Ptr, Ptr>, l: seq<Ref>, tail: Ptr, e: Ptr)
    requires Linked(next, l) && forall r :: r in l ==> r.node != tail
    ensures Linked(next[tail := e], l)
  {
    if l != [] {
      assert l[0] in l;
      LinksElsewhere(next, l[1..], tail, e);
    }
  }

  // ----- one step of a merge -----

  /** A merge under way: d is merged, ps and qs are what is left of the two runs, rs follows them. */
  ghost predicate Merging(next: map<Ptr, Ptr>, p: Ptr, psize: int, q: Ptr, qsize: int, list: Ptr, tail: Ptr,
                          d: seq<Ref>, ps: seq<Ref>, qs: seq<Ref>, rs: seq<Ref>) {
    && AllApart(d, ps, qs, rs)
    && Left(next, p, psize, q, qsize, ps, qs, rs)
    && Output(next, list, tail, d)
  }

  /** The contents of the two runs after their heads have been compared. */
  lemma {:induction false} ComparedCells(data: map<Ptr, Data>, ps: seq<Ref>, qs: seq<Ref>, a: Data, b: Data)
    requires ps != [] && qs != [] && Distinct(ps) && Distinct(qs) && Apart(ps, qs)
    requires forall r :: r in ps || r in qs ==> r.info in data
    ensures var data' := data[ps[0].info := a][qs[0].info := b];
      && Cells(data', ps) == [Cell(ps[0].info, a)] + Cells(data, ps)[1..]
      && Cells(data', qs) == [Cell(qs[0].info, b)] + Cells(data, qs)[1..]
      && Cells(data', ps[1..]) == Cells(data, ps)[1..]
      && Cells(data', qs[1..]) == Cells(data, qs)[1..]
      && data'[ps[0].info] == a && data'[qs[0].info] == b
  {
    assert ps[0] in ps && qs[0] in qs;
    forall i | 0 < i < |ps| ensures ps[i].info != ps[0].info && ps[i].info != qs[0].info { assert ps[i] in ps; }
    forall i | 0 < i < |qs| ensures qs[i].info != ps[0].info && qs[i].info != qs[0].info { assert qs[i] in qs; }
  }

  lemma {:induction false} CellsTail(data: map<Ptr, Data>, l: seq<Ref>)
    requires l != [] && forall r :: r in l ==> r.info in data
    ensures forall r :: r in l[1..] ==> r.info in data
    ensures Cells(data, l) == [Cell(l[0].info, data[l[0].info])] + Cells(data, l[1..])
  {
  }

  /** The search goes on behind a first cell that does not match. */
  lemma {:induction false} FoundFurther(data: map<Ptr, Data>, l: seq<Ref>, probe: Probe)
    requires l != [] && (forall r :: r in l ==> r.info in data) && !Matches(data[l[0].info], probe)
    ensures forall r :: r in l[1..] ==> r.info in data
    ensures FindAt(Cells(data, l), probe) == 1 + FindAt(Cells(data, l[1..]), probe)
  {
    hide Cells;
    CellsTail(data, l);
    assert Cells(data, l)[1..] == Cells(data, l[1..]);
  }

  /** The search has come to the rest of the list. */
  ghost predicate Searching(next: map<Ptr, Ptr>, info: map<Ptr, Ptr>, data: map<Ptr, Data>, l: seq<Ref>,
                            rest: seq<Ref>) {
    Linked(next, rest) && Holds(next, info, data, rest) && |rest| <= |l| && rest == l[|l| - |rest|..]
  }

  lemma {:induction false} SearchStarts(next: map<Ptr, Ptr>, info: map<Ptr, Ptr>, data: map<Ptr, Data>, l: seq<Ref>)
    requires Linked(next, l) && Holds(next, info, data, l)
    ensures Searching(next, info, data, l, l)
  {
  }

  lemma {:induction false} SearchReads(next: map<Ptr, Ptr>, info: map<Ptr, Ptr>, data: map<Ptr, Data>, l: seq<Ref>,
                                       rest: seq<Ref>)
    requires Searching(next, info, data, l, rest)
    ensures |rest| <= |l| && (forall r :: r in rest ==> r.info in data) && (First(rest) == NULL <==> rest == [])
    ensures rest != [] ==>
      && rest[0].node in next && rest[0].node in info && info[rest[0].node] == rest[0].info
      && rest[0].info in data && rest[0] == l[|l| - |rest|]
  {
    FirstIsCell(rest);
    assert rest != [] ==> rest[0] in rest;
  }

  lemma {:induction false} SearchFurther(next: map<Ptr, Ptr>, info: map<Ptr, Ptr>, data: map<Ptr, Data>, l: seq<Ref>,
                                         rest: seq<Ref>)
    requires Searching(next, info, data, l, rest) && rest != []
    ensures rest[0].node in next && next[rest[0].node] == First(rest[1..])
    ensures Searching(next, info, data, l, rest[1..])
  {
    assert rest[0] in rest && forall r :: r in rest[1..] ==> r in rest;
  }

  /** The search ends at the first cell, or at once. */
  lemma {:induction false} FoundHere(data: map<Ptr, Data>, l: seq<Ref>, probe: Probe)
    requires forall r :: r in l ==> r.info in data
    requires l == [] || Matches(data[l[0].info], probe)
    ensures FindAt(Cells(data, l), probe) == 0
  {
  }

  /** One step of the merge of two runs. */
  lemma {:induction false} MergeStep<K, S>(p: seq<Cell<K>>, q: seq<Cell<K>>, cmp: Cmp<S>, s: S)
    requires p != [] && q != []
    ensures var v := cmp(p[0].data, q[0].data, s);
      var x, y := Cell(p[0].id, v.a), Cell(q[0].id, v.b);
      var r := if v.order <= 0 then Merge(p[1..], [y] + q[1..], cmp, v.s) else Merge([x] + p[1..], q[1..], cmp, v.s);
      Merge(p, q, cmp, s) == Outcome([if v.order <= 0 then x else y] + r.cells, r.s)
  {
  }

  /** The merge of what is left, with its first element told apart. */
  ghost predicate TakesFirst<S>(fromP: bool, data: map<Ptr, Data>, ps: seq<Ref>, qs: seq<Ref>, cmp: Cmp<S>, s: S,
                                total: Outcome<Ptr, S>)
    requires if fromP then ps != [] else qs != []
    requires forall r :: r in ps || r in qs ==> r.info in data
  {
    var x := if fromP then ps[0] else qs[0];
    var r := if fromP then Merge(Cells(data, ps[1..]), Cells(data, qs), cmp, s)
             else Merge(Cells(data, ps), Cells(data, qs[1..]), cmp, s);
    total == Outcome([Cell(x.info, data[x.info])] + r.cells, r.s)
  }

  lemma {:induction false} TakesFirstOfOne<S>(fromP: bool, data: map<Ptr, Data>, ps: seq<Ref>, qs: seq<Ref>,
                                              cmp: Cmp<S>, s: S)
    requires if fromP then ps != [] && qs == [] else qs != [] && ps == []
    requires forall r :: r in ps || r in qs ==> r.info in data
    ensures TakesFirst(fromP, data, ps, qs, cmp, s, Merge(Cells(data, ps), Cells(data, qs), cmp, s))
  {
    CellsTail(data, if fromP then ps else qs);
  }

  lemma {:induction false} TakesFirstOfTwo<S>(data: map<Ptr, Data>, ps: seq<Ref>, qs: seq<Ref>, cmp: Cmp<S>, s: S)
    requires ps != [] && qs != [] && Distinct(ps) && Distinct(qs) && Apart(ps, qs)
    requires forall r :: r in ps || r in qs ==> r.info in data
    ensures ps[0].info in data && qs[0].info in data
    ensures var v := cmp(data[ps[0].info], data[qs[0].info], s);
      TakesFirst(v.order <= 0, data[ps[0].info := v.a][qs[0].info := v.b], ps, qs, cmp, v.s,
                 Merge(Cells(data, ps), Cells(data, qs), cmp, s))
  {
    assert ps[0] in ps && qs[0] in qs;
    var v := cmp(data[ps[0].info], data[qs[0].info], s);
    ComparedCells(data, ps, qs, v.a, v.b);
    MergeStep(Cells(data, ps), Cells(data, qs), cmp, s);
  }

  /** The total of a merge, when its first part is d and the rest is still to be merged. */
  ghost predicate Totals<S>(data: map<Ptr, Data>, d: seq<Ref>, ps: seq<Ref>, qs: seq<Ref>, cmp: Cmp<S>, s: S,
                            total: Outcome<Ptr, S>) {
    && (forall r :: r in d || r in ps || r in qs ==> r.info in data)
    && var m := Merge(Cells(data, ps), Cells(data, qs), cmp, s);
    total == Outcome(Cells(data, d) + m.cells, m.s)
  }

  lemma {:induction false} FirstIsCell(l: seq<Ref>)
    requires forall r :: r in l ==> r.node != NULL
    ensures l != [] ==> First(l) != NULL
  {
    if l != [] {
      assert l[0] in l;
    }
  }

  lemma {:induction false} RunsDone(next: map<Ptr, Ptr>, p: Ptr, psize: int, q: Ptr, qsize: int, ps: seq<Ref>,
                                    qs: seq<Ref>, rs: seq<Ref>)
    requires Left(next, p, psize, q, qsize, ps, qs, rs)
    requires psize <= 0 && (qsize <= 0 || q == NULL)
    requires forall r :: r in qs ==> r.node != NULL
    ensures ps == [] && qs == [] && q == First(rs) && Linked(next, rs)
  {
    FirstIsCell(qs);
    assert qs == [] ==> qs + rs == rs;
  }

  /** A merge with nothing left to do. */
  lemma {:induction false} MergeDone<S>(next: map<Ptr, Ptr>, data: map<Ptr, Data>, p: Ptr, psize: int, q: Ptr,
                                        qsize: int, list: Ptr, tail: Ptr,
                     d: seq<Ref>, ps: seq<Ref>, qs: seq<Ref>, rs: seq<Ref>, cmp: Cmp<S>, s: S, total: Outcome<Ptr, S>)
    requires Merging(next, p, psize, q, qsize, list, tail, d, ps, qs, rs)
    requires psize <= 0 && (qsize <= 0 || q == NULL)
    requires forall r :: r in qs ==> r.node != NULL
    requires Totals(data, d, ps, qs, cmp, s, total)
    ensures ps == [] && qs == [] && d + ps + qs == d
    ensures AllApart(d, [], [], rs) && Output(next, list, tail, d) && q == First(rs) && Linked(next, rs)
    ensures total == Outcome(Cells(data, d), s)
  {
    RunsDone(next, p, psize, q, qsize, ps, qs, rs);
    assert Merge(Cells(data, ps), Cells(data, qs), cmp, s) == Outcome([], s);
  }

  /** Taking the first element of the rest over into the part that is done. */
  lemma {:induction false} TotalsStep<S>(fromP: bool, data: map<Ptr, Data>, data': map<Ptr, Data>, d: seq<Ref>,
                                         ps: seq<Ref>, qs: seq<Ref>,
                      cmp: Cmp<S>, s: S, s': S, total: Outcome<Ptr, S>)
    requires if fromP then ps != [] else qs != []
    requires data.Keys == data'.Keys && forall r :: r in d || r in ps || r in qs ==> r.info in data
    requires forall r :: r in d ==> data'[r.info] == data[r.info]
    requires Totals(data, d, ps, qs, cmp, s, total)
    requires TakesFirst(fromP, data', ps, qs, cmp, s', Merge(Cells(data, ps), Cells(data, qs), cmp, s))
    ensures if fromP then Totals(data', d + [ps[0]], ps[1..], qs, cmp, s', total)
            else Totals(data', d + [qs[0]], ps, qs[1..], cmp, s', total)
  {
    hide Merge;
    var x := if fromP then ps[0] else qs[0];
    assert Cells(data', d) == Cells(data, d);
    assert Cells(data', d + [x]) == Cells(data', d) + [Cell(x.info, data'[x.info])];
  }

  lemma {:induction false} AfterAppend(fromP: bool, next: map<Ptr, Ptr>, next': map<Ptr, Ptr>, p: Ptr, psize: int,
                                       q: Ptr, qsize: int,
                    list: Ptr, tail: Ptr, d: seq<Ref>, ps: seq<Ref>, qs: seq<Ref>, rs: seq<Ref>)
    requires Merging(next, p, psize, q, qsize, list, tail, d, ps, qs, rs)
    requires if fromP then ps != [] && ps[0].node in next else qs != [] && qs[0].node in next
    requires next' == if d == [] then next else next[tail := if fromP then ps[0].node else qs[0].node]
    ensures var x := if fromP then ps[0] else qs[0];
      var list' := if d == [] then x.node else list;
      if fromP then
        p == x.node && Merging(next', next[p], psize - 1, q, qsize, list', x.node, d + [x], ps[1..], qs, rs)
      else
        q == x.node && Merging(next', p, psize, next[q], qsize - 1, list', x.node, d + [x], ps, qs[1..], rs)
  {
    AfterTake(fromP, d, ps, qs, rs);
    if fromP {
      AdvanceP(next, p, psize, q, qsize, ps, qs, rs);
      AppendOutput(next, list, tail, d, ps[0]);
      LeftStands(next, next', d, next[p], psize - 1, q, qsize, ps[1..], qs, rs, tail, ps[0].node);
    } else {
      AdvanceQ(next, p, psize, q, qsize, ps, qs, rs);
      AppendOutput(next, list, tail, d, qs[0]);
      LeftStands(next, next', d, p, psize, next[q], qsize - 1, ps, qs[1..], rs, tail, qs[0].node);
    }
  }

  lemma {:induction false} LeftStands(next: map<Ptr, Ptr>, next': map<Ptr, Ptr>, d: seq<Ref>, p: Ptr, psize: int,
                                      q: Ptr, qsize: int,
                   ps: seq<Ref>, qs: seq<Ref>, rs: seq<Ref>, tail: Ptr, e: Ptr)
    requires Left(next, p, psize, q, qsize, ps, qs, rs)
    requires Apart(d, ps) && Apart(d, qs) && Apart(d, rs)
    requires d != [] ==> tail == d[|d| - 1].node
    requires next' == if d == [] then next else next[tail := e]
    ensures Left(next', p, psize, q, qsize, ps, qs, rs)
  {
    if d != [] {
      assert d[|d| - 1] in d;
      ChainElsewhere(next, ps, tail, e);
      forall r | r in qs + rs ensures r.node != tail {
        assert r in qs || r in rs;
      }
      LinksElsewhere(next, qs + rs, tail, e);
    }
  }

  /** Holding speaks of which cells and items there are, not of links and contents. */
  lemma {:induction false} HoldsPart(next: map<Ptr, Ptr>, next': map<Ptr, Ptr>, info: map<Ptr, Ptr>,
                                     data: map<Ptr, Data>, data': map<Ptr, Data>,
                  l: seq<Ref>, part: seq<Ref>)
    requires Holds(next, info, data, l) && next'.Keys == next.Keys && data'.Keys == data.Keys
    requires forall r :: r in part ==> r in l
    ensures Holds(next', info, data', part)
  {
  }

  ghost predicate Within(l: seq<Ref>, all: seq<Ref>) {
    forall r :: r in l ==> r in all
  }

  /** The links of cells other than those of l, and the items other than theirs, are as they were. */
  ghost predicate OthersKept(next: map<Ptr, Ptr>, next': map<Ptr, Ptr>, data: map<Ptr, Data>, data': map<Ptr, Data>,
                             l: seq<Ref>) {
    && next'.Keys == next.Keys && data'.Keys == data.Keys
    && (forall n :: n in next && (forall r :: r in l ==> r.node != n) ==> next'[n] == next[n])
    && (forall i :: i in data && (forall r :: r in l ==> r.info != i) ==> data'[i] == data[i])
  }

  lemma {:induction false} KeptAtStart(n: map<Ptr, Ptr>, d: map<Ptr, Data>, l: seq<Ref>)
    ensures OthersKept(n, n, d, d, l) && Within(l, l)
  {
  }

  lemma {:induction false} KeptWithin(n0: map<Ptr, Ptr>, n1: map<Ptr, Ptr>, n2: map<Ptr, Ptr>, d: map<Ptr, Data>,
                                      l: seq<Ref>, l1: seq<Ref>, l2: seq<Ref>)
    requires OthersKept(n0, n1, d, d, l) && Within(l1, l) && OthersKept(n1, n2, d, d, l1) && Within(l2, l1)
    ensures OthersKept(n0, n2, d, d, l) && Within(l2, l)
  {
    KeptChain(n0, n1, n2, d, d, d, l, l1);
  }

  lemma {:induction false} KeptChain(n0: map<Ptr, Ptr>, n1: map<Ptr, Ptr>, n2: map<Ptr, Ptr>,
                  d0: map<Ptr, Data>, d1: map<Ptr, Data>, d2: map<Ptr, Data>, l: seq<Ref>, part: seq<Ref>)
    requires OthersKept(n0, n1, d0, d1, l) && OthersKept(n1, n2, d1, d2, part)
    requires forall r :: r in part ==> r in l
    ensures OthersKept(n0, n2, d0, d2, l)
  {
    forall n | n in n0 && (forall r :: r in l ==> r.node != n) ensures n2[n] == n0[n] {
      assert forall r :: r in part ==> r.node != n;
    }
    forall i | i in d0 && (forall r :: r in l ==> r.info != i) ensures d2[i] == d0[i] {
      assert forall r :: r in part ==> r.info != i;
    }
  }

  // ----- one pass of the sort -----

  lemma {:induction false} LinkedSuffix(next: map<Ptr, Ptr>, l: seq<Ref>, k: nat)
    requires Linked(next, l) && k <= |l|
    ensures Linked(next, l[k..])
  {
    if k == 0 {
      assert l[0..] == l;
    } else {
      LinkedSuffix(next, l[1..], k - 1);
      assert l[1..][k - 1..] == l[k..];
    }
  }

  lemma {:induction false} ChainedPrefix(next: map<Ptr, Ptr>, l: seq<Ref>, k: nat)
    requires Linked(next, l) && k <= |l|
    ensures Chained(next, l[..k])
  {
    if k > 1 {
      ChainedPrefix(next, l[1..], k - 1);
      assert l[..k][1..] == l[1..][..k - 1];
    }
  }

  lemma {:induction false} DistinctSplit(a: seq<Ref>, b: seq<Ref>)
    requires Distinct(a + b)
    ensures Distinct(a) && Distinct(b) && Apart(a, b)
  {
    if a == [] {
      assert a + b == b;
    } else {
      assert (a + b)[1..] == a[1..] + b;
      DistinctSplit(a[1..], b);
      forall y | y in b ensures y in a[1..] + b { }
      forall y | y in a[1..] ensures y in a[1..] + b { }
    }
  }

  lemma {:induction false} SplitApart(d: seq<Ref>, ps: seq<Ref>, qs: seq<Ref>, rs: seq<Ref>)
    requires AllApart(d, [], [], ps + qs + rs)
    ensures AllApart(d, ps, qs, rs)
  {
    DistinctSplit(ps + qs, rs);
    DistinctSplit(ps, qs);
    forall x | x in ps || x in qs ensures x in ps + qs && x in ps + qs + rs { }
    forall x | x in rs ensures x in ps + qs + rs { }
    forall x | x in d ensures Clear(x, ps) && Clear(x, qs) && Clear(x, rs) {
      assert Clear(x, ps + qs + rs);
    }
  }

  lemma {:induction false} ChainClosed(next: map<Ptr, Ptr>, d: seq<Ref>)
    requires d != [] && Chained(next, d) && Distinct(d)
    ensures Linked(next[d[|d| - 1].node := NULL], d)
  {
    if |d| > 1 {
      assert d[|d| - 1] in d[1..];
      ChainClosed(next, d[1..]);
    } else {
      assert d[1..] == [];
    }
  }

  /** The cells that a round of a pass works on. */
  datatype Round = Round(ps: seq<Ref>, qs: seq<Ref>, rs: seq<Ref>)

  ghost function RoundOf(l: seq<Ref>, k: nat): (r: Round)
    ensures r.ps + r.qs + r.rs == l
    ensures |r.ps| == Min(k, |l|) && |r.ps| + |r.qs| == Min(2 * k, |l|)
  {
    var a, b := Min(k, |l|), Min(2 * k, |l|);
    Round(l[..a], l[a..b], l[b..])
  }

  lemma {:induction false} RoundStarts(next: map<Ptr, Ptr>, list: Ptr, tail: Ptr, d: seq<Ref>, l: seq<Ref>, k: nat,
                                       q: Ptr)
    requires AllApart(d, [], [], l) && Output(next, list, tail, d) && Linked(next, l)
    requires k > 0 && q == First(l[Min(k, |l|)..])
    ensures var r := RoundOf(l, k); Merging(next, First(l), Min(k, |l|), q, k, list, tail, d, r.ps, r.qs, r.rs)
  {
    var r := RoundOf(l, k);
    var a := Min(k, |l|);
    SplitApart(d, r.ps, r.qs, r.rs);
    ChainedPrefix(next, l, a);
    LinkedSuffix(next, l, a);
    assert r.qs + r.rs == l[a..];
  }

  /** A round of the pass, on contents. */
  lemma {:induction false} PassRound<S>(data: map<Ptr, Data>, l: seq<Ref>, k: nat, cmp: Cmp<S>, s: S)
    requires k > 0 && l != [] && forall r :: r in l ==> r.info in data
    ensures var r := RoundOf(l, k);
      && (forall x :: x in r.ps || x in r.qs || x in r.rs ==> x in l)
      && var m := Merge(Cells(data, r.ps), Cells(data, r.qs), cmp, s);
      var rest := Pass(Cells(data, r.rs), k, cmp, m.s);
      Pass(Cells(data, l), k, cmp, s) == Outcome(m.cells + rest.cells, rest.s)
  {
    var r := RoundOf(l, k);
    var a, b := Min(k, |l|), Min(2 * k, |l|);
    var c := Cells(data, l);
    assert c[..a] == Cells(data, r.ps) && c[a..b] == Cells(data, r.qs) && c[b..] == Cells(data, r.rs);
  }

  /** A pass under way: d is done, rs is still to do. */
  ghost predicate PassTotals<S>(data: map<Ptr, Data>, d: seq<Ref>, rs: seq<Ref>, k: nat, cmp: Cmp<S>, s: S,
                                total: Outcome<Ptr, S>) {
    && k > 0 && (forall r :: r in d || r in rs ==> r.info in data)
    && var m := Pass(Cells(data, rs), k, cmp, s);
    total == Outcome(Cells(data, d) + m.cells, m.s)
  }

  /** The round's merge m moves from what is to do to what is done. */
  lemma {:induction false} PassTotalsStep<S>(data: map<Ptr, Data>, data': map<Ptr, Data>, d: seq<Ref>, d': seq<Ref>,
                                             l: seq<Ref>, rs: seq<Ref>,
                          k: nat, cmp: Cmp<S>, s: S, m: Outcome<Ptr, S>, total: Outcome<Ptr, S>)
    requires PassTotals(data, d, l, k, cmp, s, total)
    requires forall r :: r in d' || r in rs ==> r.info in data'
    requires var rest := Pass(Cells(data', rs), k, cmp, m.s);
      Pass(Cells(data, l), k, cmp, s) == Outcome(m.cells + rest.cells, rest.s)
    requires Cells(data', d') == Cells(data, d) + m.cells
    ensures PassTotals(data', d', rs, k, cmp, m.s, total)
  {
    hide Pass;
    hide Cells;
    var rest := Pass(Cells(data', rs), k, cmp, m.s);
    assert Cells(data, d) + (m.cells + rest.cells) == (Cells(data, d) + m.cells) + rest.cells;
  }

  lemma {:induction false} CellsUntouched(data: map<Ptr, Data>, data': map<Ptr, Data>, next: map<Ptr, Ptr>,
                                          next': map<Ptr, Ptr>, l: seq<Ref>, rs: seq<Ref>)
    requires OthersKept(next, next', data, data', l) && Apart(l, rs)
    requires forall r :: r in rs ==> r.info in data
    ensures Cells(data', rs) == Cells(data, rs)
  {
    forall r | r in rs ensures data'[r.info] == data[r.info] {
      assert forall x :: x in l ==> Clear(x, rs);
    }
  }

  /** How many merges a pass has done tells how far it is. */
  ghost predicate Counts(nmerges: int, done: nat, left: nat, insize: int) {
    && nmerges >= 0
    && (nmerges == 0 ==> done == 0)
    && (nmerges == 1 ==> 0 < done <= 2 * insize && (left > 0 ==> done == 2 * insize))
    && (nmerges >= 2 ==> done > 2 * insize)
  }

  lemma {:induction false} CountsRound(nmerges: int, done: nat, left: nat, insize: int)
    requires Counts(nmerges, done, left, insize) && left > 0 && insize > 0
    ensures var n := Min(2 * insize, left); Counts(nmerges + 1, done + n, left - n, insize)
  {
  }

  lemma {:induction false} CountsEnd(nmerges: int, done: nat, insize: int)
    requires Counts(nmerges, done, 0, insize) && done > 0 && insize > 0
    ensures nmerges <= 1 <==> done <= 2 * insize
  {
  }

  lemma {:induction false} ApartDistinct(d: seq<Ref>, rs: seq<Ref>)
    requires AllApart(d, [], [], rs)
    ensures Distinct(d)
  {
  }

  lemma {:induction false} PassStarts<S>(next: map<Ptr, Ptr>, data: map<Ptr, Data>, l: seq<Ref>, k: nat, cmp: Cmp<S>,
                                         s: S)
    requires Distinct(l) && k > 0 && forall r :: r in l ==> r.info in data
    ensures AllApart([], [], [], l) && Output(next, NULL, NULL, [])
    ensures PassTotals(data, [], l, k, cmp, s, Pass(Cells(data, l), k, cmp, s))
  {
    var m := Pass(Cells(data, l), k, cmp, s);
    assert Cells(data, []) + m.cells == m.cells;
  }

  lemma {:induction false} PassEnds<S>(data: map<Ptr, Data>, d: seq<Ref>, k: nat, cmp: Cmp<S>, s: S,
                                       total: Outcome<Ptr, S>)
    requires PassTotals(data, d, [], k, cmp, s, total)
    ensures total == Outcome(Cells(data, d), s)
  {
    assert Pass(Cells(data, []), k, cmp, s) == Outcome([], s);
    assert Cells(data, d) + [] == Cells(data, d);
  }

  // ----- the other list operations -----

  /** Place i of a list that ends with null. */
  ghost predicate LinkedAt(next: map<Ptr, Ptr>, l: seq<Ref>, i: nat)
    requires i < |l|
  {
    l[i].node in next && next[l[i].node] == First(l[i + 1..])
  }

  lemma {:induction false} LinkedHere(next: map<Ptr, Ptr>, l: seq<Ref>, i: nat)
    requires Linked(next, l) && i < |l|
    ensures LinkedAt(next, l, i)
  {
    if i > 0 {
      LinkedHere(next, l[1..], i - 1);
      assert l[1..][i..] == l[i + 1..];
    }
  }

  lemma {:induction false} LinkedEverywhere(next: map<Ptr, Ptr>, l: seq<Ref>)
    requires forall i :: 0 <= i < |l| ==> LinkedAt(next, l, i)
    ensures Linked(next, l)
  {
    if l != [] {
      assert LinkedAt(next, l, 0);
      forall i | 0 <= i < |l[1..]| ensures LinkedAt(next, l[1..], i) {
        assert LinkedAt(next, l, i + 1);
        assert l[1..][i + 1..] == l[i + 2..];
      }
      LinkedEverywhere(next, l[1..]);
    }
  }

  lemma {:induction false} DistinctHere(l: seq<Ref>, i: nat, j: nat)
    requires Distinct(l) && i < |l| && j < |l| && i != j
    ensures l[i].node != l[j].node && l[i].info != l[j].info
  {
    if i == 0 {
      assert l[j] in l[1..];
    } else if j == 0 {
      assert l[i] in l[1..];
    } else {
      DistinctHere(l[1..], i - 1, j - 1);
    }
  }

  lemma {:induction false} DistinctEverywhere(l: seq<Ref>)
    requires forall i, j :: 0 <= i < j < |l| ==> l[i].node != l[j].node && l[i].info != l[j].info
    ensures Distinct(l)
  {
    if l != [] {
      forall y | y in l[1..] ensures l[0].node != y.node && l[0].info != y.info {
        var j :| 0 <= j < |l[1..]| && l[1..][j] == y;
        assert y == l[j + 1];
      }
      forall i, j | 0 <= i < j < |l[1..]| ensures l[1..][i].node != l[1..][j].node && l[1..][i].info != l[1..][j].info {
        assert l[1..][i] == l[i + 1] && l[1..][j] == l[j + 1];
      }
      DistinctEverywhere(l[1..]);
    }
  }

  lemma {:induction false} WithinReversed(l: seq<Ref>)
    ensures Within(Reversed(l), l)
  {
    forall r | r in Reversed(l) ensures r in l {
      var i :| 0 <= i < |l| && Reversed(l)[i] == r;
      assert l[|l| - 1 - i] in l;
    }
  }

  lemma {:induction false} WithinRelinked(l: seq<Ref>, f: nat)
    requires f < |l|
    ensures Within(Relink(l, f), l)
  {
  }

  /** A list turned over up to some place: done is reversed, rest is not. */
  lemma {:induction false} ReverseStep(next: map<Ptr, Ptr>, done: seq<Ref>, rest: seq<Ref>)
    requires rest != [] && Linked(next, done) && Linked(next, rest)
    requires Apart(done, rest) && Distinct(done) && Distinct(rest)
    ensures rest[0].node in next && next[rest[0].node] == First(rest[1..])
    ensures var next' := next[rest[0].node := First(done)];
      && Linked(next', [rest[0]] + done) && Linked(next', rest[1..])
      && Apart([rest[0]] + done, rest[1..]) && Distinct([rest[0]] + done) && Distinct(rest[1..])
  {
    var x := rest[0];
    assert x in rest && forall y :: y in rest[1..] ==> y in rest;
    LinksElsewhere(next, done, x.node, First(done));
    LinksElsewhere(next, rest[1..], x.node, First(done));
    assert ([x] + done)[1..] == done;
    forall y | y in done ensures x.node != y.node && x.info != y.info {
      assert Clear(y, rest);
    }
    forall y | y in [x] + done ensures Clear(y, rest[1..]) {
      if y != x { assert Clear(y, rest); }
    }
  }

  /** The list l turned over in part. */
  ghost predicate Turning(next: map<Ptr, Ptr>, l: seq<Ref>, done: seq<Ref>, rest: seq<Ref>) {
    && |done| + |rest| == |l| && done == Reversed(l[..|done|]) && rest == l[|done|..]
    && Linked(next, done) && Linked(next, rest)
    && Apart(done, rest) && Distinct(done) && Distinct(rest)
  }

  lemma {:induction false} Turn(next: map<Ptr, Ptr>, l: seq<Ref>, done: seq<Ref>, rest: seq<Ref>)
    requires Turning(next, l, done, rest) && rest != []
    ensures rest[0] in l && rest[0].node in next && next[rest[0].node] == First(rest[1..])
    ensures Turning(next[rest[0].node := First(done)], l, [rest[0]] + done, rest[1..])
  {
    ReverseStep(next, done, rest);
    ReversedSplit(l, |done|);
    assert rest[0] == l[|done|];
  }

  lemma {:induction false} StartTurning(next: map<Ptr, Ptr>, l: seq<Ref>)
    requires Linked(next, l) && Distinct(l)
    ensures Turning(next, l, [], l)
  {
  }

  lemma {:induction false} Turned(next: map<Ptr, Ptr>, info: map<Ptr, Ptr>, data: map<Ptr, Data>, l: seq<Ref>,
                                  done: seq<Ref>, rest: seq<Ref>)
    requires Turning(next, l, done, rest) && Holds(next, info, data, l) && First(rest) == NULL
    ensures done == Reversed(l) && Linked(next, done) && Distinct(done) && Holds(next, info, data, done)
  {
    assert forall r :: r in rest ==> r in l;
    FirstIsCell(rest);
    assert l[..|l|] == l;
    WithinReversed(l);
  }

  lemma {:induction false} ReversedSplit<T>(l: seq<T>, k: nat)
    requires k < |l|
    ensures Reversed(l[..k + 1]) == [l[k]] + Reversed(l[..k])
  {
  }

  lemma {:induction false} LinkedJoin(next: map<Ptr, Ptr>, a: seq<Ref>, b: seq<Ref>)
    requires a != [] && Chained(next, a) && Linked(next, b)
    requires a[|a| - 1].node in next && next[a[|a| - 1].node] == First(b)
    ensures Linked(next, a + b)
  {
    if |a| == 1 {
      assert (a + b)[1..] == b;
    } else {
      LinkedJoin(next, a[1..], b);
      assert (a + b)[1..] == a[1..] + b;
    }
  }

  /** The link of the last cell is no part of the chain. */
  lemma {:induction false} ChainLastFree(next: map<Ptr, Ptr>, l: seq<Ref>, e: Ptr)
    requires l != [] && Chained(next, l) && Distinct(l)
    ensures Chained(next[l[|l| - 1].node := e], l)
  {
    if |l| > 1 {
      assert l[|l| - 1] in l[1..];
      ChainLastFree(next, l[1..], e);
    }
  }

  lemma {:induction false} DistinctJoin(a: seq<Ref>, b: seq<Ref>)
    requires Distinct(a) && Distinct(b) && Apart(a, b)
    ensures Distinct(a + b)
  {
    if a == [] {
      assert a + b == b;
    } else {
      assert (a + b)[1..] == a[1..] + b && a[0] in a;
      DistinctJoin(a[1..], b);
      assert Clear(a[0], a[1..]) && Clear(a[0], b);
    }
  }

  /** The three links that move the cell x behind `at` to the second place. */
  function Relinked(next: map<Ptr, Ptr>, list: Ptr, at: Ptr, x: Ptr): map<Ptr, Ptr>
    requires list in next && x in next
  {
    next[at := next[x]][x := next[list]][list := x]
  }

  /** The parts of a list around the cell that is moved: its head h, the cells m up to `at`, then x, then t. */
  lemma {:induction false} RelinkParts(next: map<Ptr, Ptr>, h: Ref, m: seq<Ref>, x: Ref, t: seq<Ref>)
    requires m != [] && AllApart([h], m, [x], t) && Linked(next, t) && Chained(next, m)
    requires h.node in next && next[h.node] == m[0].node && x.node in next && next[x.node] == First(t)
    ensures Linked(Relinked(next, h.node, m[|m| - 1].node, x.node), [h] + ([x] + (m + t)))
  {
    var at := m[|m| - 1];
    assert at in m && h in [h] && x in [x];
    assert Clear(h, m) && Clear(h, [x]) && Clear(h, t) && Clear(at, [x]) && Clear(at, t) && Clear(x, t);
    var n1 := next[at.node := First(t)];
    var n2 := n1[x.node := m[0].node];
    var n3 := n2[h.node := x.node];
    ChainLastFree(next, m, First(t));
    forall y | y in m ensures y.node != x.node && y.node != h.node { assert Clear(y, [x]); }
    ChainElsewhere(n1, m, x.node, m[0].node);
    ChainElsewhere(n2, m, h.node, x.node);
    LinksElsewhere(next, t, at.node, First(t));
    LinksElsewhere(n1, t, x.node, m[0].node);
    LinksElsewhere(n2, t, h.node, x.node);
    LinkedJoin(n3, m, t);
    assert ([x] + (m + t))[1..] == m + t;
    assert ([h] + ([x] + (m + t)))[1..] == [x] + (m + t);
  }

  lemma {:induction false} RelinkApart(h: Ref, m: seq<Ref>, x: Ref, t: seq<Ref>)
    requires AllApart([h], m, [x], t)
    ensures Distinct([h] + ([x] + (m + t)))
  {
    DistinctJoin(m, t);
    assert x in [x] && h in [h];
    forall y | y in m ensures Clear(y, [x]) { }
    assert Clear(x, m + t);
    DistinctJoin([x], m + t);
    assert Clear(h, [x] + (m + t));
    DistinctJoin([h], [x] + (m + t));
  }

  /** The parts are apart. */
  lemma {:induction false} RelinkSplit(r: seq<Ref>, f: nat, h: Ref, m: seq<Ref>, x: Ref, t: seq<Ref>)
    requires 0 < f && f + 1 < |r| && Distinct(r)
    requires h == r[0] && m == r[1..f + 1] && x == r[f + 1] && t == r[f + 2..]
    ensures AllApart([h], m, [x], t) && Relink(r, f) == [h] + ([x] + (m + t))
    ensures m[|m| - 1] == r[f] && r[f].node != h.node && r[f].node != x.node
  {
    hide AllApart;
    assert r == [h] + (m + [x] + t);
    DistinctSplit([h], m + [x] + t);
    TogetherApart([h], m + [x] + t);
    SplitApart([h], m, [x], t);
    ApartNodes(h, m, x, t);
  }

  lemma {:induction false} TogetherApart(d: seq<Ref>, l: seq<Ref>)
    requires Distinct(d) && Distinct(l) && Apart(d, l)
    ensures AllApart(d, [], [], l)
  {
  }

  lemma {:induction false} ApartNodes(h: Ref, m: seq<Ref>, x: Ref, t: seq<Ref>)
    requires AllApart([h], m, [x], t)
    ensures forall y :: y in m ==> y.node != h.node && y.node != x.node
  {
    assert h in [h] && x in [x];
    assert Clear(h, m);
    forall y | y in m ensures y.node != x.node {
      assert Clear(y, [x]);
    }
  }

  /** The parts are linked. */
  lemma {:induction false} RelinkLinks(next: map<Ptr, Ptr>, r: seq<Ref>, f: nat)
    requires 0 < f && f + 1 < |r| && Linked(next, r)
    ensures Chained(next, r[1..f + 1]) && Linked(next, r[f + 2..])
    ensures r[0].node in next && next[r[0].node] == r[1].node
    ensures r[f + 1].node in next && next[r[f + 1].node] == First(r[f + 2..])
  {
    LinkedSuffix(next, r, 1);
    ChainedPrefix(next, r[1..], f);
    assert r[1..][..f] == r[1..f + 1];
    LinkedSuffix(next, r, f + 1);
    assert r[f + 1..][1..] == r[f + 2..];
  }

  lemma {:induction false} RelinkList(next: map<Ptr, Ptr>, r: seq<Ref>, f: nat)
    requires 0 < f && f + 1 < |r| && Linked(next, r) && Distinct(r)
    ensures r[0].node in next && r[f + 1].node in next && r[f].node != r[0].node && r[f].node != r[f + 1].node
    ensures Linked(Relinked(next, r[0].node, r[f].node, r[f + 1].node), Relink(r, f))
    ensures Distinct(Relink(r, f))
  {
    hide Linked;
    hide Distinct;
    hide Relinked;
    hide Relink;
    hide AllApart;
    hide Chained;
    var h, m, x, t := r[0], r[1..f + 1], r[f + 1], r[f + 2..];
    RelinkSplit(r, f, h, m, x, t);
    RelinkLinks(next, r, f);
    RelinkParts(next, h, m, x, t);
    RelinkApart(h, m, x, t);
  }

  lemma {:induction false} CacheFacts(next: map<Ptr, Ptr>, info: map<Ptr, Ptr>, data: map<Ptr, Data>, r: seq<Ref>,
                                      f: nat)
    requires Linked(next, r) && Distinct(r) && Holds(next, info, data, r) && f < |r|
    ensures r[0] in r && r[f] in r && r[f].node in next
    ensures f + 1 < |r| ==> r[f + 1] in r && r[f + 1].node != NULL && r[f + 1].node in next
    ensures next[r[f].node] == if f + 1 < |r| then r[f + 1].node else NULL
    ensures Within(Relink(r, f), r)
  {
    LinkedHere(next, r, f);
    WithinRelinked(r, f);
  }

  lemma {:induction false} CellsReversed(data: map<Ptr, Data>, l: seq<Ref>)
    requires forall r :: r in l ==> r.info in data
    ensures forall r :: r in Reversed(l) ==> r.info in data
    ensures Cells(data, Reversed(l)) == Reversed(Cells(data, l))
  {
    WithinReversed(l);
  }

  lemma {:induction false} CellsRelinked(data: map<Ptr, Data>, r: seq<Ref>, f: nat)
    requires f < |r| && forall x :: x in r ==> x.info in data
    ensures forall x :: x in Relink(r, f) ==> x.info in data
    ensures Cells(data, Relink(r, f)) == Relink(Cells(data, r), f)
  {
    hide Relink;
    WithinRelinked(r, f);
    forall i | 0 <= i < |r| ensures Cells(data, Relink(r, f))[i] == Relink(Cells(data, r), f)[i] {
      RelinkAt(r, f, i);
      RelinkAt(Cells(data, r), f, i);
    }
  }

  /** The list while its second item is removed: the second cell holds the third item. */
  function RemovedRefs(l: seq<Ref>): seq<Ref>
    requires |l| >= 3
  {
    [l[0]] + ([Ref(l[1].node, l[2].info)] + l[3..])
  }

  /** What removing and putting back rely on: the first three cells and the rest of the list. */
  lemma {:induction false} FirstThree(next: map<Ptr, Ptr>, info: map<Ptr, Ptr>, data: map<Ptr, Data>, l: seq<Ref>)
    requires |l| >= 3 && Linked(next, l) && Distinct(l) && Holds(next, info, data, l)
    ensures forall i :: 0 <= i < 3 ==> l[i] in l
    ensures next[l[0].node] == l[1].node && next[l[1].node] == l[2].node && next[l[2].node] == First(l[3..])
    ensures Linked(next, l[3..]) && Distinct(l[3..])
    ensures l[0].node != l[1].node && l[0].node != l[2].node && l[1].node != l[2].node
    ensures l[0].info != l[1].info && l[0].info != l[2].info && l[1].info != l[2].info
    ensures forall y :: y in l[3..] ==> y in l
    ensures Clear(l[0], l[3..]) && Clear(l[1], l[3..]) && Clear(l[2], l[3..])
  {
    var l1 := l[1..];
    var l2 := l1[1..];
    assert l2[1..] == l[3..];
    assert Linked(next, l1) && Distinct(l1) && Clear(l[0], l1);
    assert Linked(next, l2) && Distinct(l2) && Clear(l[1], l2);
    assert Linked(next, l[3..]) && Distinct(l[3..]) && Clear(l[2], l[3..]);
    assert l[1] in l1 && l[2] in l1 && l[2] in l2;
    assert forall y :: y in l2 ==> y in l1;
    assert forall y :: y in l[3..] ==> y in l2;
    assert l[0] in l && l[1] in l && l[2] in l;
    LinkedHere(next, l, 0);
    LinkedHere(next, l, 1);
    LinkedHere(next, l, 2);
  }

  lemma {:induction false} RemovedIsList(next: map<Ptr, Ptr>, info: map<Ptr, Ptr>, data: map<Ptr, Data>, l: seq<Ref>)
    requires |l| >= 3 && Linked(next, l) && Distinct(l) && Holds(next, info, data, l)
    ensures l[1].node in next && l[2].node in next
    ensures var next' := next[l[1].node := next[l[2].node]][l[2].node := NULL];
      var info' := info[l[1].node := l[2].info][l[2].node := l[1].info];
      Linked(next', RemovedRefs(l)) && Distinct(RemovedRefs(l)) && Holds(next', info', data, RemovedRefs(l))
  {
    FirstThree(next, info, data, l);
    hide Linked;
    hide Distinct;
    hide RemovedRefs;
    RemovedLinks(next, l[0], l[1], l[2], l[3..]);
    RemovedHolds(next, info, data, l);
    assert RemovedRefs(l) == [l[0]] + ([Ref(l[1].node, l[2].info)] + l[3..]);
  }

  lemma {:induction false} RemovedLinks(next: map<Ptr, Ptr>, h: Ref, a: Ref, b: Ref, t: seq<Ref>)
    requires h.node in next && a.node in next && b.node in next && next[h.node] == a.node && next[b.node] == First(t)
    requires Linked(next, t) && Distinct(t) && Clear(h, t) && Clear(a, t) && Clear(b, t)
    requires h.node != a.node && h.node != b.node && a.node != b.node && h.info != b.info
    ensures var next' := next[a.node := next[b.node]][b.node := NULL];
      var l := [h] + ([Ref(a.node, b.info)] + t);
      Linked(next', l) && Distinct(l)
  {
    var e := next[b.node];
    LinksElsewhere(next, t, a.node, e);
    LinksElsewhere(next[a.node := e], t, b.node, NULL);
    var x := Ref(a.node, b.info);
    assert ([x] + t)[1..] == t;
    assert ([h] + ([x] + t))[1..] == [x] + t;
  }

  lemma {:induction false} RemovedHolds(next: map<Ptr, Ptr>, info: map<Ptr, Ptr>, data: map<Ptr, Data>, l: seq<Ref>)
    requires |l| >= 3 && Holds(next, info, data, l) && l[1].node in next && l[2].node in next
    requires l[0].node != l[1].node && l[0].node != l[2].node && l[1].node != l[2].node
    requires Clear(l[1], l[3..]) && Clear(l[2], l[3..])
    ensures var next' := next[l[1].node := next[l[2].node]][l[2].node := NULL];
      var info' := info[l[1].node := l[2].info][l[2].node := l[1].info];
      Holds(next', info', data, RemovedRefs(l))
  {
    assert l[0] in l && l[1] in l && l[2] in l && forall r :: r in l[3..] ==> r in l;
  }

  lemma {:induction false} RemovedCells(data: map<Ptr, Data>, l: seq<Ref>)
    requires |l| >= 3 && forall r :: r in l ==> r.info in data
    ensures forall r :: r in RemovedRefs(l) ==> r.info in data
    ensures Cells(data, RemovedRefs(l)) == Removed(Cells(data, l))
  {
    assert l[0] in l && l[1] in l && l[2] in l;
  }

  lemma {:induction false} DistinctPlaces(l: seq<Ref>, i: nat, r: Ref)
    requires Distinct(l) && i < |l| && r in l && r.info == l[i].info
    ensures r == l[i]
  {
    var j :| 0 <= j < |l| && l[j] == r;
    if i != j {
      DistinctHere(l, i, j);
    }
  }

  /** Two items swapped twice are as before. */
  lemma {:induction false} SwappedBack(info: map<Ptr, Ptr>, a: Ptr, b: Ptr)
    requires a in info && b in info && a != b
    ensures var info1 := info[a := info[b]][b := info[a]]; info1[b := info1[a]][a := info1[b]] == info
  {
  }

  /** A cell unlinked behind another one is linked in again. */
  lemma {:induction false} LinkedBack(next: map<Ptr, Ptr>, a: Ptr, b: Ptr)
    requires a in next && b in next && a != b && next[a] == b
    ensures var next1 := next[a := next[b]][b := NULL]; next1[b := next1[a]][a := b] == next
  {
  }

  /** The same items in the same order mean the same cells in the same order. */
  lemma {:induction false} SameCellsSameRefs(data: map<Ptr, Data>, data': map<Ptr, Data>, l: seq<Ref>, out: seq<Ref>)
    requires Distinct(l) && Within(out, l) && data'.Keys == data.Keys
    requires forall r :: r in l ==> r.info in data
    requires Cells(data', out) == Cells(data, l)
    ensures out == l
  {
    assert |out| == |l|;
    forall i | 0 <= i < |l| ensures out[i] == l[i] {
      assert Cells(data', out)[i] == Cells(data, l)[i];
      assert out[i] in out;
      DistinctPlaces(l, i, out[i]);
    }
  }

  /**
   A list that is linked the same way, with the same contents, in a memory that is
   otherwise kept, is the same memory.
  */
  lemma {:induction false} SameMemory(next: map<Ptr, Ptr>, next': map<Ptr, Ptr>, data: map<Ptr, Data>,
                                      data': map<Ptr, Data>, l: seq<Ref>)
    requires Linked(next, l) && Linked(next', l) && OthersKept(next, next', data, data', l)
    requires forall r :: r in l ==> r.info in data
    requires Cells(data', l) == Cells(data, l)
    ensures next' == next && data' == data
  {
    forall n | n in next ensures next'[n] == next[n] {
      if r :| r in l && r.node == n {
        var i :| 0 <= i < |l| && l[i] == r;
        LinkedHere(next, l, i);
        LinkedHere(next', l, i);
      }
    }
    forall i | i in data ensures data'[i] == data[i] {
      if r :| r in l && r.info == i {
        var j :| 0 <= j < |l| && l[j] == r;
        assert Cells(data', l)[j] == Cells(data, l)[j];
      }
    }
  }

  /** The memory block: the links and items of the list cells, and the data items. */
  class ListMemory {
    var next: map<Ptr, Ptr>
    var info: map<Ptr, Ptr>
    var data: map<Ptr, Data>

    constructor (next: map<Ptr, Ptr>, info: map<Ptr, Ptr>, data: map<Ptr, Data>)
      ensures this.next == next && this.info == info && this.data == data
    {
      this.next, this.info, this.data := next, info, data;
    }

    /** A whole list: each cell and each item on it once. */
    ghost predicate IsList(list: Ptr, l: seq<Ref>)
      reads this
    {
      list == First(l) && Linked(next, l) && Holds(next, info, data, l) && Distinct(l)
    }

    /** A comparator call: it may overwrite both items and the record behind `res`. */
    method Compare<S>(cmp: Cmp<S>, a: Ptr, b: Ptr, s0: S) returns (order: int, s: S)
      requires a in data && b in data && a != b
      modifies `data
      ensures var v := cmp(old(data)[a], old(data)[b], s0);
        order == v.order && s == v.s && data == old(data)[a := v.a][b := v.b]
    {
      var v := cmp(data[a], data[b], s0);
      data := data[a := v.a][b := v.b];
      order, s := v.order, v.s;
    }

    /** Which run gives the next element: the comparator is asked only while both runs last. */
    method Choose<S>(p: Ptr, psize: int, q: Ptr, qsize: int, cmp: Cmp<S>, s0: S,
                     ghost ps: seq<Ref>, ghost qs: seq<Ref>, ghost rs: seq<Ref>)
      returns (fromP: bool, s: S)
      requires Distinct(ps) && Distinct(qs) && Apart(ps, qs)
      requires Left(next, p, psize, q, qsize, ps, qs, rs)
      requires Holds(next, info, data, ps) && Holds(next, info, data, qs) && Holds(next, info, data, rs)
      requires ps != [] || qs != []
      modifies `data
      ensures if fromP then ps != [] else qs != []
      ensures data.Keys == old(data).Keys
      ensures forall i :: i in data && (forall r :: r in ps || r in qs ==> r.info != i) ==> data[i] == old(data)[i]
      ensures TakesFirst(fromP, data, ps, qs, cmp, s, Merge(Cells(old(data), ps), Cells(old(data), qs), cmp, s0))
    {
      s := s0;
      assert qs != [] ==> qs[0] in qs;
      assert forall i :: 0 <= i < |rs| ==> rs[i] in rs;
      if psize == 0 {
        fromP := false;
        TakesFirstOfOne(fromP, data, ps, qs, cmp, s);
      } else if qsize == 0 || q == NULL {
        fromP := true;
        TakesFirstOfOne(fromP, data, ps, qs, cmp, s);
      } else {
        assert ps[0] in ps;
        TakesFirstOfTwo(data, ps, qs, cmp, s);
        var order;
        order, s := Compare(cmp, info[p], info[q], s);
        fromP := order <= 0;
      }
    }

    /** The chosen element leaves its run and is linked to the end of the output. */
    method TakeAndLink(fromP: bool, p0: Ptr, psize0: int, q0: Ptr, qsize0: int, list0: Ptr, tail0: Ptr,
                       ghost d: seq<Ref>, ghost ps: seq<Ref>, ghost qs: seq<Ref>, ghost rs: seq<Ref>)
      returns (p: Ptr, psize: int, q: Ptr, qsize: int, list: Ptr, tail: Ptr)
      requires Merging(next, p0, psize0, q0, qsize0, list0, tail0, d, ps, qs, rs)
      requires forall r :: r in d ==> r.node != NULL && r.node in next
      requires if fromP then ps != [] && ps[0].node in next else qs != [] && qs[0].node in next
      modifies `next
      ensures next.Keys == old(next).Keys
      ensures forall n :: n in next && (forall r :: r in d ==> r.node != n) ==> next[n] == old(next)[n]
      ensures if fromP then Merging(next, p, psize, q, qsize, list, tail, d + [ps[0]], ps[1..], qs, rs)
              else Merging(next, p, psize, q, qsize, list, tail, d + [qs[0]], ps, qs[1..], rs)
    {
      AfterAppend(fromP, next, if d == [] then next else next[tail0 := if fromP then ps[0].node else qs[0].node],
                  p0, psize0, q0, qsize0, list0, tail0, d, ps, qs, rs);
      assert d != [] ==> d[|d| - 1] in d && tail0 == d[|d| - 1].node;
      assert d == [] ==> tail0 == NULL;
      p, psize, q, qsize, list := p0, psize0, q0, qsize0, list0;
      var e;
      if fromP {
        e := p; p := next[p]; psize := psize - 1;
      } else {
        e := q; q := next[q]; qsize := qsize - 1;
      }
      if tail0 != NULL {
        next := next[tail0 := e];
      } else {
        list := e;
      }
      tail := e;
    }

    /** One element of the merge. */
    method MergeOne<S>(p0: Ptr, psize0: int, q0: Ptr, qsize0: int, list0: Ptr, tail0: Ptr, cmp: Cmp<S>, s0: S,
                       ghost d: seq<Ref>, ghost ps: seq<Ref>, ghost qs: seq<Ref>, ghost rs: seq<Ref>,
                       ghost total: Outcome<Ptr, S>)
      returns (p: Ptr, psize: int, q: Ptr, qsize: int, list: Ptr, tail: Ptr, s: S, fromP: bool)
      requires Merging(next, p0, psize0, q0, qsize0, list0, tail0, d, ps, qs, rs)
      requires Holds(next, info, data, d) && Holds(next, info, data, ps) && Holds(next, info, data, qs)
        && Holds(next, info, data, rs)
      requires ps != [] || qs != []
      requires Totals(data, d, ps, qs, cmp, s0, total)
      modifies `next, `data
      ensures OthersKept(old(next), next, old(data), data, d + ps + qs)
      ensures if fromP then ps != [] else qs != []
      ensures if fromP then Merging(next, p, psize, q, qsize, list, tail, d + [ps[0]], ps[1..], qs, rs)
              else Merging(next, p, psize, q, qsize, list, tail, d + [qs[0]], ps, qs[1..], rs)
      ensures if fromP then Totals(data, d + [ps[0]], ps[1..], qs, cmp, s, total)
              else Totals(data, d + [qs[0]], ps, qs[1..], cmp, s, total)
    {
      assert (ps != [] ==> ps[0] in ps) && (qs != [] ==> qs[0] in qs);
      fromP, s := Choose(p0, psize0, q0, qsize0, cmp, s0, ps, qs, rs);
      assert forall r :: r in d ==> data[r.info] == old(data)[r.info];
      TotalsStep(fromP, old(data), data, d, ps, qs, cmp, s0, s, total);
      p, psize, q, qsize, list, tail := TakeAndLink(fromP, p0, psize0, q0, qsize0, list0, tail0, d, ps, qs, rs);
      assert forall r :: r in d || r in ps || r in qs ==> r in d + ps + qs;
    }

    /** An element within a merge over the cells `all`, which started from next0 and data0. */
    method NextElement<S>(p0: Ptr, psize0: int, q0: Ptr, qsize0: int, list0: Ptr, tail0: Ptr, cmp: Cmp<S>, s0: S,
                          ghost d0: seq<Ref>, ghost ps0: seq<Ref>, ghost qs0: seq<Ref>, ghost rs: seq<Ref>,
                          ghost total: Outcome<Ptr, S>, ghost all: seq<Ref>, ghost next0: map<Ptr, Ptr>,
                          ghost data0: map<Ptr, Data>)
      returns (p: Ptr, psize: int, q: Ptr, qsize: int, list: Ptr, tail: Ptr, s: S,
               ghost d: seq<Ref>, ghost ps: seq<Ref>, ghost qs: seq<Ref>)
      requires Merging(next, p0, psize0, q0, qsize0, list0, tail0, d0, ps0, qs0, rs)
      requires ps0 != [] || qs0 != []
      requires Within(d0, all) && Within(ps0, all) && Within(qs0, all)
      requires OthersKept(next0, next, data0, data, all)
      requires Holds(next, info, data, all) && Holds(next, info, data, rs)
      requires Totals(data, d0, ps0, qs0, cmp, s0, total)
      modifies `next, `data
      ensures Merging(next, p, psize, q, qsize, list, tail, d, ps, qs, rs)
      ensures |ps| + |qs| < |ps0| + |qs0| && |d| + |ps| + |qs| == |d0| + |ps0| + |qs0|
      ensures Within(d, all) && Within(ps, all) && Within(qs, all)
      ensures OthersKept(next0, next, data0, data, all)
      ensures Holds(next, info, data, all) && Holds(next, info, data, rs)
      ensures Totals(data, d, ps, qs, cmp, s, total)
    {
      HoldsPart(next, next, info, data, data, all, d0);
      HoldsPart(next, next, info, data, data, all, ps0);
      HoldsPart(next, next, info, data, data, all, qs0);
      assert (ps0 != [] ==> ps0[0] in ps0) && (qs0 != [] ==> qs0[0] in qs0);
      var fromP;
      p, psize, q, qsize, list, tail, s, fromP :=
        MergeOne(p0, psize0, q0, qsize0, list0, tail0, cmp, s0, d0, ps0, qs0, rs, total);
      KeptChain(next0, old(next), next, data0, old(data), data, all, d0 + ps0 + qs0);
      HoldsPart(old(next), next, info, old(data), data, all, all);
      HoldsPart(old(next), next, info, old(data), data, rs, rs);
      if fromP {
        d, ps, qs := d0 + [ps0[0]], ps0[1..], qs0;
      } else {
        d, ps, qs := d0 + [qs0[0]], ps0, qs0[1..];
      }
    }

    method MergeRuns<S>(p0: Ptr, psize0: int, q0: Ptr, qsize0: int, list0: Ptr, tail0: Ptr, cmp: Cmp<S>, s0: S,
                        ghost d0: seq<Ref>, ghost ps0: seq<Ref>, ghost qs0: seq<Ref>, ghost rs: seq<Ref>)
      returns (q: Ptr, list: Ptr, tail: Ptr, s: S, ghost d: seq<Ref>)
      requires Merging(next, p0, psize0, q0, qsize0, list0, tail0, d0, ps0, qs0, rs)
      requires Holds(next, info, data, d0 + ps0 + qs0) && Holds(next, info, data, rs)
      modifies `next, `data
      ensures OthersKept(old(next), next, old(data), data, d0 + ps0 + qs0)
      ensures |d| == |d0 + ps0 + qs0| && Within(d, d0 + ps0 + qs0)
      ensures AllApart(d, [], [], rs) && Output(next, list, tail, d)
      ensures q == First(rs) && Linked(next, rs)
      ensures Holds(next, info, data, d)
      ensures var m := Merge(Cells(old(data), ps0), Cells(old(data), qs0), cmp, s0);
        Cells(data, d) == Cells(old(data), d0) + m.cells && s == m.s
    {
      var p, psize, qsize := p0, psize0, qsize0;
      q, list, tail, s, d := q0, list0, tail0, s0, d0;
      ghost var ps, qs := ps0, qs0;
      ghost var all := d0 + ps0 + qs0;
      ghost var m := Merge(Cells(data, ps0), Cells(data, qs0), cmp, s0);
      ghost var total := Outcome(Cells(data, d0) + m.cells, m.s);
      while psize > 0 || (qsize > 0 && q != NULL)
        invariant Merging(next, p, psize, q, qsize, list, tail, d, ps, qs, rs)
        invariant |d| + |ps| + |qs| == |all| && Within(d, all) && Within(ps, all) && Within(qs, all)
        invariant OthersKept(old(next), next, old(data), data, all)
        invariant Holds(next, info, data, all) && Holds(next, info, data, rs)
        invariant Totals(data, d, ps, qs, cmp, s, total)
        decreases |ps| + |qs|
      {
        assert ps != [] || qs != [];
        p, psize, q, qsize, list, tail, s, d, ps, qs :=
          NextElement(p, psize, q, qsize, list, tail, cmp, s, d, ps, qs, rs, total, all, old(next), old(data));
      }
      MergeDone(next, data, p, psize, q, qsize, list, tail, d, ps, qs, rs, cmp, s, total);
      HoldsPart(next, next, info, data, data, all, d);
    }

    /** Steps `insize` places along from p, or to the end of the list. */
    method StepAlong(p: Ptr, insize: int, ghost l: seq<Ref>) returns (q: Ptr, psize: int)
      requires insize > 0 && l != [] && p == First(l) && Linked(next, l) && Holds(next, info, data, l)
      ensures psize == Min(insize, |l|) && q == First(l[psize..])
    {
      q, psize := p, 0;
      for i := 0 to insize
        invariant psize == i <= |l|
        invariant Linked(next, l[i..]) && q == First(l[i..])
        invariant i < insize ==> q != NULL && i < |l|
      {
        assert l[i] in l;
        assert l[i..][1..] == l[i + 1..];
        psize := psize + 1;
        q := next[q];
        assert i + 1 < |l| ==> l[i + 1] in l;
        if q == NULL {
          break;
        }
      }
    }

    /** One round of a pass: the next two runs are merged behind what is merged already. */
    method PassOneRound<S>(p0: Ptr, insize: int, list0: Ptr, tail0: Ptr, cmp: Cmp<S>, s0: S,
                           ghost d0: seq<Ref>, ghost l: seq<Ref>, ghost total: Outcome<Ptr, S>)
      returns (p: Ptr, list: Ptr, tail: Ptr, s: S, ghost d: seq<Ref>, ghost rs: seq<Ref>)
      requires insize > 0 && l != [] && p0 == First(l) && Linked(next, l)
      requires AllApart(d0, [], [], l) && Output(next, list0, tail0, d0)
      requires Holds(next, info, data, d0) && Holds(next, info, data, l)
      requires PassTotals(data, d0, l, insize, cmp, s0, total)
      modifies `next, `data
      ensures rs == RoundOf(l, insize).rs && |d| == |d0| + |l| - |rs| && Within(d, d0 + l) && Within(rs, l)
      ensures p == First(rs) && Linked(next, rs)
      ensures AllApart(d, [], [], rs) && Output(next, list, tail, d)
      ensures OthersKept(old(next), next, old(data), data, d0 + l)
      ensures PassTotals(data, d, rs, insize, cmp, s, total)
    {
      var q, psize := StepAlong(p0, insize, l);
      ghost var r := RoundOf(l, insize);
      rs := r.rs;
      RoundStarts(next, list0, tail0, d0, l, insize, q);
      PassRound(data, l, insize, cmp, s0);
      ghost var m := Merge(Cells(data, r.ps), Cells(data, r.qs), cmp, s0);
      assert AllApart(d0, r.ps, r.qs, rs);
      p, list, tail, s, d := MergeRuns(p0, psize, q, insize, list0, tail0, cmp, s0, d0, r.ps, r.qs, rs);
      CellsUntouched(old(data), data, old(next), next, d0 + r.ps + r.qs, rs);
      PassTotalsStep(old(data), data, d0, d, l, rs, insize, cmp, s0, m, total);
      KeptChain(old(next), old(next), next, old(data), old(data), data, d0 + l, d0 + r.ps + r.qs);
    }

    /** A round within a pass over the cells `all`, which started from next0 and data0. */
    method NextRound<S>(p0: Ptr, insize: int, list0: Ptr, tail0: Ptr, cmp: Cmp<S>, s0: S,
                        ghost d0: seq<Ref>, ghost l: seq<Ref>, ghost total: Outcome<Ptr, S>,
                        ghost nmerges: int, ghost all: seq<Ref>, ghost next0: map<Ptr, Ptr>,
                        ghost data0: map<Ptr, Data>)
      returns (p: Ptr, list: Ptr, tail: Ptr, s: S, ghost d: seq<Ref>, ghost rs: seq<Ref>)
      requires insize > 0 && l != [] && p0 == First(l) && Linked(next, l)
      requires AllApart(d0, [], [], l) && Output(next, list0, tail0, d0)
      requires Within(d0, all) && Within(l, all) && Holds(next, info, data, all)
      requires OthersKept(next0, next, data0, data, all)
      requires PassTotals(data, d0, l, insize, cmp, s0, total)
      modifies `next, `data
      requires Counts(nmerges, |d0|, |l|, insize)
      ensures |rs| < |l| && |d| + |rs| == |d0| + |l| && Counts(nmerges + 1, |d|, |rs|, insize)
      ensures p == First(rs) && Linked(next, rs)
      ensures AllApart(d, [], [], rs) && Output(next, list, tail, d)
      ensures Within(d, all) && Within(rs, all) && Holds(next, info, data, all)
      ensures OthersKept(next0, next, data0, data, all)
      ensures PassTotals(data, d, rs, insize, cmp, s, total)
    {
      HoldsPart(next, next, info, data, data, all, d0);
      HoldsPart(next, next, info, data, data, all, l);
      p, list, tail, s, d, rs := PassOneRound(p0, insize, list0, tail0, cmp, s0, d0, l, total);
      KeptChain(next0, old(next), next, data0, old(data), data, all, d0 + l);
      HoldsPart(old(next), next, info, old(data), data, all, all);
      CountsRound(nmerges, |d0|, |l|, insize);
    }

    /** The last cell of the output ends the list. */
    method CloseList(list: Ptr, tail: Ptr, ghost d: seq<Ref>)
      requires d != [] && Output(next, list, tail, d) && Distinct(d) && Holds(next, info, data, d)
      modifies `next
      ensures IsList(list, d)
      ensures OthersKept(old(next), next, data, data, d)
    {
      ChainClosed(next, d);
      assert d[|d| - 1] in d;
      next := next[tail := NULL];
    }

    /** The rounds of one pass, up to the end of the list. */
    method MergeAllRuns<S>(list0: Ptr, insize: int, cmp: Cmp<S>, s0: S, ghost l: seq<Ref>)
      returns (list: Ptr, tail: Ptr, nmerges: int, s: S, ghost out: seq<Ref>)
      requires insize > 0 && l != [] && IsList(list0, l)
      modifies `next, `data
      ensures Output(next, list, tail, out) && Distinct(out) && |out| == |l| && Within(out, l)
      ensures OthersKept(old(next), next, old(data), data, l) && Holds(next, info, data, out)
      ensures Outcome(Cells(data, out), s) == Pass(Cells(old(data), l), insize, cmp, s0)
      ensures nmerges <= 1 <==> |l| <= 2 * insize
    {
      hide Output;
      hide Distinct;
      hide Cells;
      var p := list0;
      list, tail, nmerges, s := NULL, NULL, 0, s0;
      ghost var d: seq<Ref>, rs := [], l;
      ghost var total := Pass(Cells(data, l), insize, cmp, s0);
      PassStarts(next, data, l, insize, cmp, s0);
      while p != NULL
        invariant p == First(rs) && Linked(next, rs)
        invariant AllApart(d, [], [], rs) && Output(next, list, tail, d)
        invariant |d| + |rs| == |l| && Within(d, l) && Within(rs, l)
        invariant Counts(nmerges, |d|, |rs|, insize)
        invariant Holds(next, info, data, l) && OthersKept(old(next), next, old(data), data, l)
        invariant PassTotals(data, d, rs, insize, cmp, s, total)
        decreases |rs|
      {
        p, list, tail, s, d, rs :=
          NextRound(p, insize, list, tail, cmp, s, d, rs, total, nmerges, l, old(next), old(data));
        nmerges := nmerges + 1;
      }
      HoldsPart(next, next, info, data, data, l, rs);
      FirstIsCell(rs);
      CountsEnd(nmerges, |d|, insize);
      ApartDistinct(d, rs);
      PassEnds(data, d, insize, cmp, s, total);
      out := d;
      HoldsPart(next, next, info, data, data, l, d);
    }

    /** One pass: neighbouring runs are merged over the whole list, which is then ended with null. */
    method SortPass<S>(list0: Ptr, insize: int, cmp: Cmp<S>, s0: S, ghost l: seq<Ref>)
      returns (list: Ptr, nmerges: int, s: S, ghost out: seq<Ref>)
      requires insize > 0 && l != [] && IsList(list0, l)
      modifies `next, `data
      ensures IsList(list, out) && |out| == |l| && Within(out, l)
      ensures OthersKept(old(next), next, old(data), data, l)
      ensures Outcome(Cells(data, out), s) == Pass(Cells(old(data), l), insize, cmp, s0)
      ensures nmerges <= 1 <==> |l| <= 2 * insize
    {
      var tail;
      list, tail, nmerges, s, out := MergeAllRuns(list0, insize, cmp, s0, l);
      ghost var next1 := next;
      CloseList(list, tail, out);
      KeptChain(old(next), next1, next, old(data), data, data, l, out);
    }

    /** The sort: passes with doubled run length until one has a single merge to do. */
    method Mergesort<S>(list0: Ptr, cmp: Cmp<S>, s0: S, ghost l: seq<Ref>)
      returns (list: Ptr, s: S, ghost out: seq<Ref>)
      requires l != [] && IsList(list0, l)
      modifies `next, `data
      ensures IsList(list, out) && |out| == |l| && Within(out, l)
      ensures OthersKept(old(next), next, old(data), data, l)
      ensures Outcome(Cells(data, out), s) == Sort(Cells(old(data), l), cmp, s0)
    {
      hide Cells;
      hide Pass;
      hide Linked;
      hide Distinct;
      list, s, out := list0, s0, l;
      var insize := 1;
      while true
        invariant insize > 0 && IsList(list, out) && |out| == |l| && Within(out, l)
        invariant OthersKept(old(next), next, old(data), data, l)
        invariant SortFrom(Cells(data, out), insize, cmp, s) == Sort(Cells(old(data), l), cmp, s0)
        decreases |l| - insize
      {
        ghost var next1, data1, out1 := next, data, out;
        var nmerges;
        list, nmerges, s, out := SortPass(list, insize, cmp, s, out);
        KeptChain(old(next), next1, next, old(data), data1, data, l, out1);
        if nmerges <= 1 {
          return;
        }
        insize := insize * 2;
      }
    }

    /** The first cell of the list that matches, or null. */
    method Find(list: Ptr, probe: Probe, ghost l: seq<Ref>) returns (found: Ptr)
      requires IsList(list, l)
      ensures var at := FindAt(Cells(data, l), probe); found == (if at < |l| then l[at].node else NULL)
    {
      hide FindAt;
      hide Cells;
      hide Searching;
      hide Matches;
      found := list;
      ghost var rest := l;
      SearchStarts(next, info, data, l);
      SearchReads(next, info, data, l, rest);
      while found != NULL && !Matches(data[info[found]], probe)
        invariant Searching(next, info, data, l, rest) && found == First(rest) && |rest| <= |l|
        invariant forall r :: r in rest ==> r.info in data
        invariant found != NULL ==> rest != [] && found in info && info[found] == rest[0].info && rest[0].info in data
        invariant FindAt(Cells(data, l), probe) == |l| - |rest| + FindAt(Cells(data, rest), probe)
        decreases |rest|
      {
        FoundFurther(data, rest, probe);
        SearchFurther(next, info, data, l, rest);
        found := next[found];
        rest := rest[1..];
        SearchReads(next, info, data, l, rest);
      }
      SearchReads(next, info, data, l, rest);
      FoundHere(data, rest, probe);
    }

    /** The list turned over in place. */
    method Reverse(list0: Ptr, ghost l: seq<Ref>) returns (list: Ptr)
      requires IsList(list0, l)
      modifies `next
      ensures IsList(list, Reversed(l))
      ensures OthersKept(old(next), next, data, data, l)
    {
      hide Turning;
      hide Linked;
      hide Distinct;
      hide Reversed;
      StartTurning(next, l);
      var p := list0;
      list := NULL;
      ghost var done: seq<Ref>, rest := [], l;
      while p != NULL
        invariant Turning(next, l, done, rest)
        invariant list == First(done) && p == First(rest)
        invariant Holds(next, info, data, l) && OthersKept(old(next), next, data, data, l)
        decreases |rest|
      {
        Turn(next, l, done, rest);
        var tmp := next[p];
        next := next[p := list];
        list := p;
        p := tmp;
        done, rest := [rest[0]] + done, rest[1..];
      }
      Turned(next, info, data, l, done, rest);
    }

    /** The cell after the found one is moved to the second place of the list. */
    method CacheNext(list: Ptr, at: Ptr, ghost r: seq<Ref>, ghost f: nat)
      requires IsList(list, r) && f < |r| && at == r[f].node
      modifies `next
      ensures IsList(list, Relink(r, f))
      ensures OthersKept(old(next), next, data, data, r)
    {
      CacheFacts(next, info, data, r, f);
      if next[at] != NULL {
        var finder := next[at];
        if f > 0 {
          RelinkList(next, r, f);
        } else {
          assert Relink(r, 0) == r;
        }
        next := next[at := next[finder]];
        next := next[finder := next[list]];
        next := next[list := finder];
        assert next == if f > 0 then Relinked(old(next), list, at, finder) else old(next);
      }
    }

    /** The second cell's item. */
    method SecondData(list: Ptr, ghost l: seq<Ref>) returns (d: Data)
      requires IsList(list, l) && |l| >= 2
      ensures d == Cells(data, l)[1].data
    {
      LinkedHere(next, l, 0);
      assert l[0] in l && l[1] in l;
      d := data[info[next[list]]];
    }

    /** The found item's successor, seen in the reversed list, moves to the front. */
    method Cache(list: Ptr, thisFind: Ptr, ghost l: seq<Ref>, ghost at: nat) returns (ghost l': seq<Ref>)
      requires at < |l| && thisFind == l[at].node && IsList(list, Reversed(l)) && Within(Reversed(l), l)
      modifies `next
      ensures IsList(list, l') && |l'| == |l| && Within(l', l)
      ensures OthersKept(old(next), next, data, data, l)
      ensures Cells(data, l') == Relink(Cells(data, Reversed(l)), |l| - 1 - at)
    {
      hide Linked;
      hide Distinct;
      hide Relink;
      hide Cells;
      hide OthersKept;
      ghost var f := |l| - 1 - at;
      CellsRelinked(data, Reversed(l), f);
      WithinRelinked(Reversed(l), f);
      CacheNext(list, thisFind, Reversed(l), f);
      KeptAtStart(old(next), data, l);
      KeptChain(old(next), old(next), next, data, data, data, l, Reversed(l));
      l' := Relink(Reversed(l), f);
    }

    /**
     One round of the search loop: look for an item, reverse the list, move the found
     item's successor to the front.
    */
    method SearchRound(list0: Ptr, i: nat, probe0: Probe, tally0: Tally, ghost l: seq<Ref>)
      returns (list: Ptr, probe: Probe, tally: Tally, ghost l': seq<Ref>)
      requires IsList(list0, l) && |l| >= 2
      modifies `next
      ensures IsList(list, l') && |l'| == |l| && Within(l', l)
      ensures OthersKept(old(next), next, data, data, l)
      ensures SearchStep(Search(Cells(data, l), probe0, tally0), i) == Search(Cells(data, l'), probe, tally)
    {
      hide Linked;
      hide Distinct;
      hide OthersKept;
      hide Within;
      hide SearchStep;
      hide FindAt;
      hide Reversed;
      hide Relink;
      probe := RoundProbe(probe0, i);
      var thisFind := Find(list0, probe, l);
      ghost var at := FindAt(Cells(data, l), probe);
      assert at < |l| ==> l[at] in l;
      SearchStepIs(Cells(data, l), probe0, tally0, i, at);
      list := Reverse(list0, l);
      CellsReversed(data, l);
      WithinReversed(l);
      if thisFind == NULL {
        var d := SecondData(list, Reversed(l));
        tally := CountMissed(tally0, d.data16);
        l' := Reversed(l);
      } else {
        var d := data[info[thisFind]].data16;
        tally := CountFound(tally0, d);
        ghost var next1 := next;
        l' := Cache(list, thisFind, l, at);
        KeptChain(old(next), next1, next, data, data, data, l, l);
      }
      probe := probe.(idx := NextIdx(probe.idx));
    }

    method SearchRounds(list0: Ptr, seed3: int, finderIdx: int, ghost l: seq<Ref>)
      returns (list: Ptr, probe: Probe, tally: Tally, ghost l': seq<Ref>)
      requires IsList(list0, l) && |l| >= 2
      modifies `next
      ensures IsList(list, l') && |l'| == |l| && Within(l', l)
      ensures OthersKept(old(next), next, data, data, l)
      ensures SearchLoop(Search(Cells(data, l), Probe(finderIdx, 0), Tally(0, 0, 0)), 0, seed3) ==
        Search(Cells(data, l'), probe, tally)
    {
      hide Linked;
      hide Distinct;
      hide SearchStep;
      hide OthersKept;
      hide Within;
      list, probe, tally, l' := list0, Probe(finderIdx, 0), Tally(0, 0, 0), l;
      KeptAtStart(next, data, l);
      var i := 0;
      ghost var final := SearchLoop(Search(Cells(data, l), probe, tally), 0, seed3);
      while i < seed3
        invariant IsList(list, l') && |l'| == |l| && Within(l', l)
        invariant OthersKept(old(next), next, data, data, l)
        invariant i >= 0 && SearchLoop(Search(Cells(data, l'), probe, tally), i, seed3) == final
      {
        ghost var next1, l1 := next, l';
        list, probe, tally, l' := SearchRound(list, i, probe, tally, l');
        KeptWithin(old(next), next1, next, data, l, l1, l');
        i := i + 1;
      }
    }

    /** The item after the given cell changes places with the cell's own, and its cell is unlinked. */
    method Remove(item: Ptr) returns (ret: Ptr)
      requires item in next && next[item] in next && item in info && next[item] in info
      modifies `next, `info
      ensures ret == old(next)[item]
      ensures info == old(info)[item := old(info)[ret]][ret := old(info)[item]]
      ensures next == old(next)[item := old(next)[ret]][ret := NULL]
    {
      ret := next[item];
      var tmp := info[item];
      info := info[item := info[ret]];
      info := info[ret := tmp];
      next := next[item := next[next[item]]];
      next := next[ret := NULL];
    }

    method UndoRemove(removed: Ptr, modified: Ptr)
      requires removed in next && modified in next && removed in info && modified in info
      modifies `next, `info
      ensures info == old(info)[removed := old(info)[modified]][modified := old(info)[removed]]
      ensures next == old(next)[removed := old(next)[modified]][modified := removed]
    {
      var tmp := info[removed];
      info := info[removed := info[modified]];
      info := info[modified := tmp];
      next := next[removed := next[modified]];
      next := next[modified := removed];
    }

    /** The first item is folded into the checksum once for each cell from `finder` on. */
    method CrcFrom(list: Ptr, finder0: Ptr, crc0: bv16, env: Routines, ghost l: seq<Ref>, ghost at: nat)
      returns (crc: bv16)
      requires IsList(list, l) && l != [] && at <= |l| && finder0 == First(l[at..])
      ensures crc == CrcTimes(Cells(data, l)[0].data.data16, |l| - at, crc0, env)
    {
      var finder := finder0;
      crc := crc0;
      ghost var rest := l[at..];
      LinkedSuffix(next, l, at);
      ghost var d := Cells(data, l)[0].data.data16;
      assert l[0] in l;
      while finder != NULL
        invariant Linked(next, rest) && finder == First(rest) && forall r :: r in rest ==> r in l
        invariant CrcTimes(d, |rest|, crc, env) == CrcTimes(d, |l| - at, crc0, env)
        decreases |rest|
      {
        assert rest[0] in rest;
        crc := env.crc16(data[info[list]].data16, crc);
        finder := next[finder];
        rest := rest[1..];
      }
      FirstIsCell(rest);
    }

    /** The second item is taken out of the list. */
    method RemoveSecond(list: Ptr, ghost l: seq<Ref>) returns (remover: Ptr)
      requires IsList(list, l) && |l| >= 3
      modifies `next, `info
      ensures remover == l[2].node && next.Keys == old(next).Keys && info.Keys == old(info).Keys
      ensures l[0].node in next && next[l[0].node] == l[1].node && l[1].node in next && l[2].node in next
      ensures next == old(next)[l[1].node := old(next)[l[2].node]][l[2].node := NULL]
      ensures info == old(info)[l[1].node := l[2].info][l[2].node := l[1].info]
      ensures IsList(list, RemovedRefs(l))
    {
      hide Linked;
      hide Distinct;
      FirstThree(next, info, data, l);
      RemovedIsList(next, info, data, l);
      remover := Remove(next[list]);
    }

    /** A checksum run from the probed item, or from the second cell if it is not found. */
    method CrcFromProbed(list: Ptr, probe: Probe, crc0: bv16, env: Routines, ghost l: seq<Ref>) returns (crc: bv16)
      requires IsList(list, l) && |l| >= 2
      ensures crc == CrcFromProbe(Cells(data, l), probe, crc0, env)
    {
      hide Linked;
      hide Distinct;
      ghost var at := FindAt(Cells(data, l), probe);
      var finder := Find(list, probe, l);
      if finder == NULL {
        LinkedHere(next, l, 0);
        finder := next[list];
        at := 1;
      }
      crc := CrcFrom(list, finder, crc0, env, l, at);
    }

    /** The middle of the benchmark: remove the second item, run over the list, and put the item back. */
    method RemoveAndUndo(list: Ptr, probe: Probe, crc0: bv16, env: Routines, ghost l: seq<Ref>) returns (crc: bv16)
      requires IsList(list, l) && |l| >= 3
      modifies `next, `info
      ensures next == old(next) && info == old(info)
      ensures crc == CrcWhileRemoved(Cells(data, l), probe, crc0, env)
    {
      hide Linked;
      hide Distinct;
      hide Cells;
      hide Removed;
      hide CrcFromProbe;
      FirstThree(next, info, data, l);
      RemovedCells(data, l);
      var remover := RemoveSecond(list, l);
      crc := CrcFromProbed(list, probe, crc0, env, RemovedRefs(l));
      UndoRemove(remover, next[list]);
      SwappedBack(old(info), l[1].node, l[2].node);
      LinkedBack(old(next), l[1].node, l[2].node);
    }

    /** The sort by data, which the benchmark does only for a positive finder index. */
    method SortByData(list0: Ptr, finderIdx: int, res0: Res, env: Routines, ghost l: seq<Ref>)
      returns (list: Ptr, res: Res, ghost out: seq<Ref>)
      requires l != [] && IsList(list0, l)
      modifies `next, `data
      ensures IsList(list, out) && |out| == |l| && Within(out, l)
      ensures OthersKept(old(next), next, old(data), data, l)
      ensures Outcome(Cells(data, out), res) == SortedByData(Cells(old(data), l), finderIdx, res0, env)
    {
      list, res, out := list0, res0, l;
      if finderIdx > 0 {
        list, res, out := Mergesort(list0, CmpComplex(env), res0, l);
      }
    }

    /** The end of the benchmark: the sort by index, and a checksum run over the list. */
    method SortByIndex(list0: Ptr, res0: Res, crc0: bv16, env: Routines, ghost l: seq<Ref>)
      returns (list: Ptr, res: Res, crc: bv16, ghost out: seq<Ref>)
      requires |l| >= 3 && IsList(list0, l)
      modifies `next, `data
      ensures IsList(list, out) && |out| == |l| && Within(out, l)
      ensures OthersKept(old(next), next, old(data), data, l)
      ensures Outcome(Cells(data, out), res) == Sort(Cells(old(data), l), CmpIdx(true), res0)
      ensures crc == CrcOfTail(Cells(data, out), crc0, env)
    {
      list, res, out := Mergesort(list0, CmpIdx(true), res0, l);
      LinkedHere(next, out, 0);
      assert out[0] in out;
      crc := CrcFrom(list, next[list], crc0, env, out, 1);
    }

    /** One iteration of the list benchmark. */
    method CoreBenchList(list0: Ptr, seed3: int, finderIdx: int, res0: Res, env: Routines, ghost l: seq<Ref>)
      returns (list: Ptr, res: Res, retval: bv16, ghost out: seq<Ref>)
      requires |l| >= 3 && IsList(list0, l)
      modifies `next, `info, `data
      ensures IsList(list, out) && |out| == |l| && Within(out, l)
      ensures OthersKept(old(next), next, old(data), data, l) && info == old(info)
      ensures BenchList(Cells(old(data), l), seed3, finderIdx, res0, env) == Bench(Cells(data, out), res, retval)
    {
      hide Linked;
      hide Distinct;
      hide OthersKept;
      hide SearchLoop;
      hide SortedByData;
      hide CrcWhileRemoved;
      hide CrcOfTail;
      hide Sort;
      hide BenchList;
      hide TallyTotal;
      ghost var l1, l2;
      var probe, tally;
      list, probe, tally, l1 := SearchRounds(list0, seed3, finderIdx, l);
      retval := TallyTotal(tally);
      ghost var next1 := next;
      ghost var st := Search(Cells(data, l1), probe, tally);
      list, res, l2 := SortByData(list, finderIdx, res0, env, l1);
      KeptChain(old(next), next1, next, old(data), old(data), data, l, l1);
      ghost var sorted := Outcome(Cells(data, l2), res);
      retval := RemoveAndUndo(list, probe, retval, env, l2);
      ghost var next2, data2, crc := next, data, retval;
      list, res, retval, out := SortByIndex(list, res, retval, env, l2);
      KeptChain(old(next), next2, next, old(data), data2, data, l, l2);
      BenchListInSteps(Cells(old(data), l), seed3, finderIdx, res0, env, st, sorted, crc,
        Outcome(Cells(data, out), res), retval);
    }

    /** Started on an original list, an iteration leaves every link, item pointer and data item as it was. */
    method CoreBenchListRestores(list0: Ptr, seed3: int, finderIdx: int, res0: Res, env: Routines, ghost l: seq<Ref>)
      returns (list: Ptr, res: Res, retval: bv16)
      requires |l| >= 3 && IsList(list0, l) && Original(Cells(data, l))
      modifies `next, `info, `data
      ensures list == list0
      ensures next == old(next) && info == old(info) && data == old(data)
    {
      ghost var out;
      list, res, retval, out := CoreBenchList(list0, seed3, finderIdx, res0, env, l);
      BenchListRestores(Cells(old(data), l), seed3, finderIdx, res0, env);
      SameCellsSameRefs(old(data), data, l, out);
      SameMemory(old(next), next, old(data), data, l);
    }
  }
}
