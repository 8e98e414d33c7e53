/**
 The bottom-up list mergesort of CoreMark as a function on the contents of the
 list, for any comparator.

 A comparator is called with the two data items it compares and with the
 benchmark's result record; it may overwrite all three.  `Cmp<S>` is therefore
 an arbitrary function from (item, item, record) to (order, item, item, record).
 A `Cell` pairs an item's identity (which item it is) with the item's value, so
 that the statements below can follow an item through a sort that changes it.
*/
module MergeSortSpec {

  /** One data item: `idx` is a signed 16-bit number, `data16` is used bit by bit. */
  datatype Data = Data(idx: int, data16: bv16)

  datatype Cell<K> = Cell(id: K, data: Data)

  datatype Verdict<S> = Verdict(order: int, a: Data, b: Data, s: S)

  type Cmp<!S> = (Data, Data, S) -> Verdict<S>

  datatype Outcome<K, S> = Outcome(cells: seq<Cell<K>>, s: S)

  function Min(a: int, b: int): int {
    if a <= b then a else b
  }

  // ----- the algorithm -----

  /** The merge of two runs.  The comparator sees the two heads only while both runs last. */
  function Merge<K, S>(p: seq<Cell<K>>, q: seq<Cell<K>>, cmp: Cmp<S>, s: S): (r: Outcome<K, S>)
    ensures |r.cells| == |p| + |q|
    decreases |p| + |q|
  {
    if p == [] then Outcome(q, s)
    else if q == [] then Outcome(p, s)
    else
      var v := cmp(p[0].data, q[0].data, s);
      var x, y := p[0].(data := v.a), q[0].(data := v.b);
      if v.order <= 0 then
        var r := Merge(p[1..], [y] + q[1..], cmp, v.s);
        Outcome([x] + r.cells, r.s)
      else
        var r := Merge([x] + p[1..], q[1..], cmp, v.s);
        Outcome([y] + r.cells, r.s)
  }

  /** One pass over the list: neighbouring runs of length k are merged pairwise. */
  function Pass<K, S>(l: seq<Cell<K>>, k: nat, cmp: Cmp<S>, s: S): (r: Outcome<K, S>)
    requires k > 0
    ensures |r.cells| == |l|
    decreases |l|
  {
    if l == [] then Outcome([], s)
    else
      var a, b := Min(k, |l|), Min(2 * k, |l|);
      var m := Merge(l[..a], l[a..b], cmp, s);
      var rest := Pass(l[b..], k, cmp, m.s);
      Outcome(m.cells + rest.cells, rest.s)
  }

  /** The passes from run length k on; the last pass is the one that had a single merge to do. */
  function SortFrom<K, S>(l: seq<Cell<K>>, k: nat, cmp: Cmp<S>, s: S): (r: Outcome<K, S>)
    requires k > 0
    ensures |r.cells| == |l|
    decreases |l| - k
  {
    var r := Pass(l, k, cmp, s);
    if |l| <= 2 * k then r else SortFrom(r.cells, 2 * k, cmp, r.s)
  }

  function Sort<K, S>(l: seq<Cell<K>>, cmp: Cmp<S>, s: S): (r: Outcome<K, S>)
    ensures |r.cells| == |l|
  {
    SortFrom(l, 1, cmp, s)
  }

  // ----- any comparator: the sort only permutes -----

  /** What of each cell a property is about: its identity and a view of its value. */
  function View<K, X>(l: seq<Cell<K>>, f: Data -> X): (v: seq<(K, X)>)
    ensures |v| == |l|
    ensures forall i :: 0 <= i < |l| ==> v[i] == (l[i].id, f(l[i].data))
  {
    seq(|l|, i requires 0 <= i < |l| => (l[i].id, f(l[i].data)))
  }

  /** The comparator may change items, but not the part of them that f looks at. */
  ghost predicate Keeps<S(!new), X>(cmp: Cmp<S>, f: Data -> X) {
    forall a, b, s :: f(cmp(a, b, s).a) == f(a) && f(cmp(a, b, s).b) == f(b)
  }

  lemma {:induction false} ViewSplit<K, X>(l: seq<Cell<K>>, n: nat, f: Data -> X)
    requires n <= |l|
    ensures View(l, f) == View(l[..n], f) + View(l[n..], f)
    ensures multiset(View(l, f)) == multiset(View(l[..n], f)) + multiset(View(l[n..], f))
  {
    assert View(l, f) == View(l[..n], f) + View(l[n..], f);
  }

  lemma {:induction false} ViewConcat<K, X>(a: seq<Cell<K>>, b: seq<Cell<K>>, f: Data -> X)
    ensures View(a + b, f) == View(a, f) + View(b, f)
    ensures multiset(View(a + b, f)) == multiset(View(a, f)) + multiset(View(b, f))
  {
    assert View(a + b, f) == View(a, f) + View(b, f);
  }

  lemma {:induction false} ViewCons<K, X>(x: Cell<K>, l: seq<Cell<K>>, f: Data -> X)
    ensures multiset(View([x] + l, f)) == multiset{(x.id, f(x.data))} + multiset(View(l, f))
  {
    ViewConcat([x], l, f);
    assert View([x], f) == [(x.id, f(x.data))];
  }

  lemma {:induction false} MergePermutes<K, S(!new),
      X>(p: seq<Cell<K>>, q: seq<Cell<K>>, cmp: Cmp<S>, s: S, f: Data -> X)
    requires Keeps(cmp, f)
    ensures multiset(View(Merge(p, q, cmp, s).cells, f)) == multiset(View(p, f)) + multiset(View(q, f))
    decreases |p| + |q|
  {
    if p == [] || q == [] {
    } else {
      var v := cmp(p[0].data, q[0].data, s);
      var x, y := p[0].(data := v.a), q[0].(data := v.b);
      assert p == [p[0]] + p[1..] && q == [q[0]] + q[1..];
      ViewCons(p[0], p[1..], f);
      ViewCons(q[0], q[1..], f);
      ViewCons(x, p[1..], f);
      ViewCons(y, q[1..], f);
      if v.order <= 0 {
        MergePermutes(p[1..], [y] + q[1..], cmp, v.s, f);
        ViewCons(x, Merge(p[1..], [y] + q[1..], cmp, v.s).cells, f);
      } else {
        MergePermutes([x] + p[1..], q[1..], cmp, v.s, f);
        ViewCons(y, Merge([x] + p[1..], q[1..], cmp, v.s).cells, f);
      }
    }
  }

  /** The first two runs are merged, and the rest is passed over. */
  lemma {:induction false} JoinedPermutes<K, X>(l: seq<Cell<K>>, a: nat, b: nat, c: seq<Cell<K>>, rest: seq<Cell<K>>,
                                                f: Data -> X)
    requires a <= b <= |l|
    requires multiset(View(c, f)) == multiset(View(l[..a], f)) + multiset(View(l[a..b], f))
    requires multiset(View(rest, f)) == multiset(View(l[b..], f))
    ensures multiset(View(c + rest, f)) == multiset(View(l, f))
  {
    hide View;
    ViewConcat(c, rest, f);
    ViewSplit(l, b, f);
    assert l[..b] == l[..a] + l[a..b];
    ViewConcat(l[..a], l[a..b], f);
  }

  lemma {:induction false} PassPermutes<K, S(!new), X>(l: seq<Cell<K>>, k: nat, cmp: Cmp<S>, s: S, f: Data -> X)
    requires k > 0 && Keeps(cmp, f)
    ensures multiset(View(Pass(l, k, cmp, s).cells, f)) == multiset(View(l, f))
    decreases |l|
  {
    hide View;
    hide Merge;
    hide Keeps;
    if l != [] {
      var a, b := Min(k, |l|), Min(2 * k, |l|);
      var m := Merge(l[..a], l[a..b], cmp, s);
      MergePermutes(l[..a], l[a..b], cmp, s, f);
      PassPermutes(l[b..], k, cmp, m.s, f);
      JoinedPermutes(l, a, b, m.cells, Pass(l[b..], k, cmp, m.s).cells, f);
    }
  }

  lemma {:induction false} SortFromPermutes<K, S(!new), X>(l: seq<Cell<K>>, k: nat, cmp: Cmp<S>, s: S, f: Data -> X)
    requires k > 0 && Keeps(cmp, f)
    ensures multiset(View(SortFrom(l, k, cmp, s).cells, f)) == multiset(View(l, f))
    decreases |l| - k
  {
    PassPermutes(l, k, cmp, s, f);
    if |l| > 2 * k {
      var r := Pass(l, k, cmp, s);
      SortFromPermutes(r.cells, 2 * k, cmp, r.s, f);
    }
  }

  /** For any comparator whatever, the sorted list holds exactly the input's items. */
  lemma {:induction false} SortPermutesItems<K, S(!new)>(l: seq<Cell<K>>, cmp: Cmp<S>, s: S)
    ensures multiset(View(Sort(l, cmp, s).cells, d => ())) == multiset(View(l, d => ()))
  {
    SortFromPermutes(l, 1, cmp, s, d => ());
  }

  // ----- steady comparators: the result is sorted and stable -----

  /**
   A comparator is steady for `touched` and `leq` when it leaves both its items
   touched, changes an item only the first time it touches it, and answers by
   the total preorder `leq` on the items as it leaves them.  A stateless
   preorder is steady with every item touched; a comparator that computes and
   caches a key on first use is steady with "cached" for touched.
  */
  ghost predicate Steady<S(!new)>(cmp: Cmp<S>, touched: Data -> bool, leq: (Data, Data) -> bool) {
    && TotalPreorder(leq)
    && (forall a, b, s :: Answers(cmp(a, b, s), a, b, touched, leq))
  }

  ghost predicate Answers<S>(v: Verdict<S>, a: Data, b: Data, touched: Data -> bool, leq: (Data, Data) -> bool) {
    && touched(v.a) && touched(v.b)
    && (touched(a) ==> v.a == a)
    && (touched(b) ==> v.b == b)
    && (v.order <= 0 <==> leq(v.a, v.b))
  }

  ghost predicate TotalPreorder(leq: (Data, Data) -> bool) {
    && (forall a, b :: leq(a, b) || leq(b, a))
    && (forall a, b, c :: leq(a, b) && leq(b, c) ==> leq(a, c))
  }

  /** The order a stable sort leaves: by leq, and among equals by the position in the input. */
  ghost predicate Before<K>(x: Cell<K>, y: Cell<K>, leq: (Data, Data) -> bool, pos: K -> nat) {
    leq(x.data, y.data) && (leq(y.data, x.data) ==> pos(x.id) < pos(y.id))
  }

  /** x may stand before y, and both values are final. */
  ghost predicate Settled<K>(x: Cell<K>, y: Cell<K>, touched: Data -> bool, leq: (Data, Data) -> bool, pos: K -> nat) {
    touched(x.data) && touched(y.data) && Before(x, y, leq, pos)
  }

  ghost predicate SettledRun<K>(l: seq<Cell<K>>, touched: Data -> bool, leq: (Data, Data) -> bool, pos: K -> nat) {
    forall i, j :: 0 <= i < j < |l| ==> Settled(l[i], l[j], touched, leq, pos)
  }

  ghost function Ids<K>(l: seq<Cell<K>>): (r: set<K>)
    ensures forall i :: 0 <= i < |l| ==> l[i].id in r
  {
    set i | 0 <= i < |l| :: l[i].id
  }

  /** Every item of p stood in the input before every item of q. */
  ghost predicate Earlier<K>(p: seq<Cell<K>>, q: seq<Cell<K>>, pos: K -> nat) {
    forall x, y :: x in Ids(p) && y in Ids(q) ==> pos(x) < pos(y)
  }

  lemma {:induction false} IdsConcat<K>(a: seq<Cell<K>>, b: seq<Cell<K>>)
    ensures Ids(a + b) == Ids(a) + Ids(b)
  {
    forall i | 0 <= i < |b| ensures b[i].id in Ids(a + b) {
      assert (a + b)[|a| + i] == b[i];
    }
    forall i | 0 <= i < |a| ensures a[i].id in Ids(a + b) {
      assert (a + b)[i] == a[i];
    }
  }

  ghost predicate AllTouched<K>(l: seq<Cell<K>>, touched: Data -> bool) {
    forall x :: x in l ==> touched(x.data)
  }

  lemma {:induction false} BeforeTransitive<K>(x: Cell<K>, y: Cell<K>, z: Cell<K>, leq: (Data, Data) -> bool,
                                               pos: K -> nat)
    requires TotalPreorder(leq) && Before(x, y, leq, pos) && Before(y, z, leq, pos)
    ensures Before(x, z, leq, pos)
  {
    if leq(z.data, x.data) {
      assert leq(z.data, y.data) && leq(y.data, x.data);
    }
  }

  lemma {:induction false} SettledCons<K>(x: Cell<K>, l: seq<Cell<K>>, touched: Data -> bool,
                                          leq: (Data, Data) -> bool, pos: K -> nat)
    requires SettledRun(l, touched, leq, pos)
    requires forall y :: y in l ==> Settled(x, y, touched, leq, pos)
    ensures SettledRun([x] + l, touched, leq, pos)
  {
    var r := [x] + l;
    forall i, j | 0 <= i < j < |r| ensures Settled(r[i], r[j], touched, leq, pos) {
      assert r[j] == l[j - 1];
      if i > 0 { assert r[i] == l[i - 1]; }
    }
  }

  /** The head of the winning run stands before everything that is left. */
  lemma {:induction false} HeadSettles<K>(x: Cell<K>, xs: seq<Cell<K>>, y: Cell<K>, ys: seq<Cell<K>>, z: Cell<K>,
                       touched: Data -> bool, leq: (Data, Data) -> bool, pos: K -> nat)
    requires TotalPreorder(leq)
    requires SettledRun([x] + xs, touched, leq, pos) && SettledRun([y] + ys, touched, leq, pos)
    requires Settled(x, y, touched, leq, pos)
    requires z in xs || z == y || z in ys
    ensures Settled(x, z, touched, leq, pos)
  {
    if z in xs {
      var j :| 0 <= j < |xs| && xs[j] == z;
      assert ([x] + xs)[j + 1] == z && ([x] + xs)[0] == x;
    } else if z == y {
    } else {
      var j :| 0 <= j < |ys| && ys[j] == z;
      assert ([y] + ys)[j + 1] == z && ([y] + ys)[0] == y;
      BeforeTransitive(x, y, z, leq, pos);
    }
  }

  /** One step of a merge: the head that wins, put before a settled run of all the rest. */
  lemma {:induction false} SettleStep<K>(x: Cell<K>, xs: seq<Cell<K>>, y: Cell<K>, ys: seq<Cell<K>>, r: seq<Cell<K>>,
                      touched: Data -> bool, leq: (Data, Data) -> bool, pos: K -> nat)
    requires TotalPreorder(leq)
    requires SettledRun([x] + xs, touched, leq, pos) && SettledRun([y] + ys, touched, leq, pos)
    requires Settled(x, y, touched, leq, pos)
    requires SettledRun(r, touched, leq, pos)
    requires multiset(r) == multiset(xs) + multiset([y] + ys)
    ensures SettledRun([x] + r, touched, leq, pos)
    ensures multiset([x] + r) == multiset([x] + xs) + multiset([y] + ys)
  {
    forall z | z in r ensures Settled(x, z, touched, leq, pos) {
      assert z in multiset(r);
      assert z in multiset(xs) || z in multiset([y] + ys);
      HeadSettles(x, xs, y, ys, z, touched, leq, pos);
    }
    SettledCons(x, r, touched, leq, pos);
  }

  /** Taking the head off a settled run leaves a settled run. */
  lemma {:induction false} SettledTail<K>(l: seq<Cell<K>>, touched: Data -> bool, leq: (Data, Data) -> bool,
                                          pos: K -> nat)
    requires l != [] && SettledRun(l, touched, leq, pos)
    ensures SettledRun(l[1..], touched, leq, pos)
    ensures l == [l[0]] + l[1..]
  {
    forall i, j | 0 <= i < j < |l[1..]| ensures Settled(l[1..][i], l[1..][j], touched, leq, pos) {
      assert l[1..][i] == l[i + 1] && l[1..][j] == l[j + 1];
    }
  }

  /** Two settled, touched runs merge into one settled run of the same cells. */
  lemma {:induction false} MergeSettled<K, S(!new)>(p: seq<Cell<K>>, q: seq<Cell<K>>, cmp: Cmp<S>, s: S,
                                                    touched: Data -> bool, leq: (Data, Data) -> bool, pos: K -> nat)
    requires Steady(cmp, touched, leq)
    requires SettledRun(p, touched, leq, pos) && SettledRun(q, touched, leq, pos)
    requires AllTouched(p, touched) && AllTouched(q, touched) && Earlier(p, q, pos)
    ensures multiset(Merge(p, q, cmp, s).cells) == multiset(p) + multiset(q)
    ensures SettledRun(Merge(p, q, cmp, s).cells, touched, leq, pos)
    decreases |p| + |q|
  {
    if p == [] || q == [] {
    } else {
      var x, y, xs, ys := p[0], q[0], p[1..], q[1..];
      var v := cmp(x.data, y.data, s);
      assert Answers(v, x.data, y.data, touched, leq);
      assert x in p && y in q;
      assert x.(data := v.a) == x && y.(data := v.b) == y;
      SettledTail(p, touched, leq, pos);
      SettledTail(q, touched, leq, pos);
      IdsConcat([x], xs);
      IdsConcat([y], ys);
      if v.order <= 0 {
        MergeSettled(xs, q, cmp, v.s, touched, leq, pos);
        SettleStep(x, xs, y, ys, Merge(xs, q, cmp, v.s).cells, touched, leq, pos);
      } else {
        MergeSettled(p, ys, cmp, v.s, touched, leq, pos);
        assert Settled(y, x, touched, leq, pos);
        SettleStep(y, ys, x, xs, Merge(p, ys, cmp, v.s).cells, touched, leq, pos);
      }
    }
  }

  /** Any two settled runs merge into one: the first comparison touches what was still untouched. */
  lemma {:induction false} MergeRuns<K, S(!new)>(p: seq<Cell<K>>, q: seq<Cell<K>>, cmp: Cmp<S>, s: S,
                              touched: Data -> bool, leq: (Data, Data) -> bool, pos: K -> nat)
    requires Steady(cmp, touched, leq)
    requires SettledRun(p, touched, leq, pos) && SettledRun(q, touched, leq, pos) && Earlier(p, q, pos)
    ensures SettledRun(Merge(p, q, cmp, s).cells, touched, leq, pos)
  {
    if p == [] || q == [] {
    } else {
      var v := cmp(p[0].data, q[0].data, s);
      assert Answers(v, p[0].data, q[0].data, touched, leq);
      var x, y, xs, ys := p[0].(data := v.a), q[0].(data := v.b), p[1..], q[1..];
      FirstTouch(p, x, touched, leq, pos);
      FirstTouch(q, y, touched, leq, pos);
      IdsConcat([x], xs);
      IdsConcat([y], ys);
      if v.order <= 0 {
        MergeSettled(xs, [y] + ys, cmp, v.s, touched, leq, pos);
        SettleStep(x, xs, y, ys, Merge(xs, [y] + ys, cmp, v.s).cells, touched, leq, pos);
      } else {
        MergeSettled([x] + xs, ys, cmp, v.s, touched, leq, pos);
        assert Settled(y, x, touched, leq, pos);
        SettleStep(y, ys, x, xs, Merge([x] + xs, ys, cmp, v.s).cells, touched, leq, pos);
      }
    }
  }

  /** A settled run whose head has just been touched is settled and touched throughout. */
  lemma {:induction false} FirstTouch<K>(l: seq<Cell<K>>, x: Cell<K>, touched: Data -> bool, leq: (Data, Data) -> bool,
                                         pos: K -> nat)
    requires l != [] && SettledRun(l, touched, leq, pos)
    requires x.id == l[0].id && touched(x.data) && (touched(l[0].data) ==> x == l[0])
    ensures SettledRun([x] + l[1..], touched, leq, pos) && AllTouched([x] + l[1..], touched)
    ensures SettledRun(l[1..], touched, leq, pos) && AllTouched(l[1..], touched)
    ensures Ids([x] + l[1..]) == Ids(l)
  {
    SettledTail(l, touched, leq, pos);
    if |l| > 1 {
      assert Settled(l[0], l[1], touched, leq, pos);
      assert [x] + l[1..] == l;
      forall z | z in l[1..] ensures touched(z.data) {
        var j :| 0 <= j < |l[1..]| && l[1..][j] == z;
        assert Settled(l[0], l[j + 1], touched, leq, pos);
      }
    }
    SameIdsInPlace(l, [x] + l[1..]);
  }

  lemma {:induction false} SameIdsInPlace<K>(a: seq<Cell<K>>, b: seq<Cell<K>>)
    requires |a| == |b| && forall i :: 0 <= i < |a| ==> a[i].id == b[i].id
    ensures Ids(a) == Ids(b)
  {
  }

  lemma {:induction false} SameIds<K>(a: seq<Cell<K>>, b: seq<Cell<K>>)
    requires multiset(View(a, d => ())) == multiset(View(b, d => ()))
    ensures Ids(a) == Ids(b)
  {
    SomeIds(a, b);
    SomeIds(b, a);
  }

  lemma {:induction false} SomeIds<K>(a: seq<Cell<K>>, b: seq<Cell<K>>)
    requires multiset(View(a, d => ())) == multiset(View(b, d => ()))
    ensures Ids(a) <= Ids(b)
  {
    forall i | 0 <= i < |a| ensures a[i].id in Ids(b) {
      var va, vb := View(a, d => ()), View(b, d => ());
      assert va[i] == (a[i].id, ());
      assert va[i] in multiset(va);
      assert (a[i].id, ()) in vb;
      var j :| 0 <= j < |vb| && vb[j] == (a[i].id, ());
      assert b[j].id == a[i].id;
    }
  }

  /** The list is a concatenation of settled runs of length k, each earlier than those after it. */
  ghost predicate Runs<K>(l: seq<Cell<K>>, k: nat, touched: Data -> bool, leq: (Data, Data) -> bool, pos: K -> nat)
    requires k > 0
    decreases |l|
  {
    if |l| <= k then SettledRun(l, touched, leq, pos)
    else
      && SettledRun(l[..k], touched, leq, pos)
      && Earlier(l[..k], l[k..], pos)
      && Runs(l[k..], k, touched, leq, pos)
  }

  /** A pass turns runs of length k into runs of length 2k. */
  lemma {:induction false} PassDoublesRuns<K, S(!new)>(l: seq<Cell<K>>, k: nat, cmp: Cmp<S>, s: S,
                                                       touched: Data -> bool, leq: (Data, Data) -> bool, pos: K -> nat)
    requires k > 0 && Steady(cmp, touched, leq)
    requires Runs(l, k, touched, leq, pos)
    ensures Runs(Pass(l, k, cmp, s).cells, 2 * k, touched, leq, pos)
    decreases |l|
  {
    if |l| <= k {
      ShortPass(l, k, cmp, s);
    } else {
      var b := Min(2 * k, |l|);
      assert l[..k] + l[k..b] == l[..b];
      var m := Merge(l[..k], l[k..b], cmp, s);
      FirstTwoRuns(l, l[k..], k, b - k, touched, leq, pos);
      PassDoublesRuns(l[b..], k, cmp, m.s, touched, leq, pos);
      MergeThenRuns(l[..k], l[k..b], l[b..], k, cmp, s, touched, leq, pos);
    }
  }

  /** One round of a pass: two runs merged, put before the rest of the pass. */
  lemma {:induction false} MergeThenRuns<K,
      S(!new)>(p: seq<Cell<K>>, q: seq<Cell<K>>, t: seq<Cell<K>>, k: nat, cmp: Cmp<S>, s: S,
                                  touched: Data -> bool, leq: (Data, Data) -> bool, pos: K -> nat)
    requires |p| == k > 0 && |q| <= k && (t != [] ==> |q| == k)
    requires Steady(cmp, touched, leq)
    requires SettledRun(p, touched, leq, pos) && SettledRun(q, touched, leq, pos)
    requires Earlier(p, q, pos) && Earlier(p + q, t, pos)
    requires Runs(Pass(t, k, cmp, Merge(p, q, cmp, s).s).cells, 2 * k, touched, leq, pos)
    ensures Runs(Merge(p, q, cmp, s).cells + Pass(t, k, cmp, Merge(p, q, cmp, s).s).cells, 2 * k, touched, leq, pos)
  {
    var m := Merge(p, q, cmp, s);
    MergeRuns(p, q, cmp, s, touched, leq, pos);
    MergeIds(p, q, cmp, s);
    PassIds(t, k, cmp, m.s);
    RunsJoin(m.cells, Pass(t, k, cmp, m.s).cells, 2 * k, touched, leq, pos);
  }

  lemma {:induction false} ShortPass<K, S>(l: seq<Cell<K>>, k: nat, cmp: Cmp<S>, s: S)
    requires |l| <= k && k > 0
    ensures Pass(l, k, cmp, s).cells == l
  {
    if l != [] {
      assert l[..|l|] == l && l[|l|..|l|] == [] && l[|l|..] == [];
    }
  }

  lemma {:induction false} MergeIds<K, S(!new)>(p: seq<Cell<K>>, q: seq<Cell<K>>, cmp: Cmp<S>, s: S)
    ensures Ids(Merge(p, q, cmp, s).cells) == Ids(p + q)
  {
    MergePermutes(p, q, cmp, s, d => ());
    ViewConcat(p, q, d => ());
    SameIds(Merge(p, q, cmp, s).cells, p + q);
  }

  lemma {:induction false} PassIds<K, S(!new)>(l: seq<Cell<K>>, k: nat, cmp: Cmp<S>, s: S)
    requires k > 0
    ensures Ids(Pass(l, k, cmp, s).cells) == Ids(l)
  {
    PassPermutes(l, k, cmp, s, d => ());
    SameIds(Pass(l, k, cmp, s).cells, l);
  }

  lemma {:induction false} RunsJoin<K>(a: seq<Cell<K>>, r: seq<Cell<K>>, k: nat, touched: Data -> bool,
                                       leq: (Data, Data) -> bool, pos: K -> nat)
    requires k > 0 && |a| <= k && (r != [] ==> |a| == k)
    requires SettledRun(a, touched, leq, pos) && Runs(r, k, touched, leq, pos) && Earlier(a, r, pos)
    ensures Runs(a + r, k, touched, leq, pos)
  {
    if r == [] {
      assert a + r == a;
    } else {
      assert (a + r)[..k] == a && (a + r)[k..] == r;
    }
  }

  /** The slices of a list that a pass merges, and what is left. */
  lemma {:induction false} PairSlices<T>(l: seq<T>, k: nat)
    requires 0 < k < |l|
    ensures var t := l[k..]; var c := Min(k, |t|);
      && k + c == Min(2 * k, |l|)
      && l[k..k + c] == t[..c] && l[k + c..] == t[c..] && t == t[..c] + t[c..] && l[..k + c] == l[..k] + t[..c]
  {
  }

  lemma {:induction false} FirstTwoRuns<K>(l: seq<Cell<K>>, t: seq<Cell<K>>, k: nat, c: nat,
                        touched: Data -> bool, leq: (Data, Data) -> bool, pos: K -> nat)
    requires 0 < k < |l| && t == l[k..] && c == Min(k, |t|)
    requires Earlier(l[..k], t, pos) && Runs(t, k, touched, leq, pos)
    ensures SettledRun(l[k..k + c], touched, leq, pos) && Runs(l[k + c..], k, touched, leq, pos)
    ensures Earlier(l[..k], l[k..k + c], pos) && Earlier(l[..k + c], l[k + c..], pos)
  {
    PairSlices(l, k);
    RunsHead(t, k, touched, leq, pos);
    EarlierSplit(l[..k], t[..c], t[c..], pos);
  }

  lemma {:induction false} EarlierSplit<K>(a: seq<Cell<K>>, b: seq<Cell<K>>, c: seq<Cell<K>>, pos: K -> nat)
    requires Earlier(a, b + c, pos) && Earlier(b, c, pos)
    ensures Earlier(a, b, pos) && Earlier(a + b, c, pos)
  {
    IdsConcat(a, b);
    IdsConcat(b, c);
  }

  lemma {:induction false} RunsHead<K>(t: seq<Cell<K>>, k: nat, touched: Data -> bool, leq: (Data, Data) -> bool,
                                       pos: K -> nat)
    requires k > 0 && Runs(t, k, touched, leq, pos)
    ensures var c := Min(k, |t|);
      SettledRun(t[..c], touched, leq, pos) && Earlier(t[..c], t[c..], pos) && Runs(t[c..], k, touched, leq, pos)
  {
    if |t| <= k {
      assert t[..|t|] == t;
    }
  }

  lemma {:induction false} SortFromSettles<K, S(!new)>(l: seq<Cell<K>>, k: nat, cmp: Cmp<S>, s: S,
                                                       touched: Data -> bool, leq: (Data, Data) -> bool, pos: K -> nat)
    requires k > 0 && Steady(cmp, touched, leq)
    requires Runs(l, k, touched, leq, pos)
    ensures SettledRun(SortFrom(l, k, cmp, s).cells, touched, leq, pos)
    decreases |l| - k
  {
    PassDoublesRuns(l, k, cmp, s, touched, leq, pos);
    var r := Pass(l, k, cmp, s);
    if |l| > 2 * k {
      SortFromSettles(r.cells, 2 * k, cmp, r.s, touched, leq, pos);
    }
  }

  /** pos gives each cell of l its place in l. */
  ghost predicate InPlace<K>(l: seq<Cell<K>>, pos: K -> nat) {
    forall i, j :: 0 <= i < j < |l| ==> pos(l[i].id) < pos(l[j].id)
  }

  lemma {:induction false} SinglesAreRuns<K>(l: seq<Cell<K>>, touched: Data -> bool, leq: (Data, Data) -> bool,
                                             pos: K -> nat)
    requires InPlace(l, pos)
    ensures Runs(l, 1, touched, leq, pos)
    decreases |l|
  {
    if |l| > 1 {
      forall i, j | 0 <= i < j < |l[1..]| ensures pos(l[1..][i].id) < pos(l[1..][j].id) {
        assert l[1..][i] == l[i + 1] && l[1..][j] == l[j + 1];
      }
      SinglesAreRuns(l[1..], touched, leq, pos);
    }
  }

  /**
   For a steady comparator the sorted list is sorted and stable, and every item
   of a list of two or more has been touched.
  */
  lemma {:induction false} SortSettles<K, S(!new)>(l: seq<Cell<K>>, cmp: Cmp<S>, s: S,
                                touched: Data -> bool, leq: (Data, Data) -> bool, pos: K -> nat)
    requires Steady(cmp, touched, leq) && InPlace(l, pos)
    ensures SettledRun(Sort(l, cmp, s).cells, touched, leq, pos)
    ensures |l| > 1 ==> AllTouched(Sort(l, cmp, s).cells, touched)
  {
    SinglesAreRuns(l, touched, leq, pos);
    SortFromSettles(l, 1, cmp, s, touched, leq, pos);
    var r := Sort(l, cmp, s).cells;
    if |r| > 1 {
      forall x | x in r ensures touched(x.data) {
        var i :| 0 <= i < |r| && r[i] == x;
        assert if i > 0 then Settled(r[0], r[i], touched, leq, pos) else Settled(r[0], r[1], touched, leq, pos);
      }
    }
  }

  /** Being settled pins the order down: the same cells can be settled in one way only. */
  lemma {:induction false} SettledIsUnique<K>(a: seq<Cell<K>>, b: seq<Cell<K>>,
                                              touched: Data -> bool, leq: (Data, Data) -> bool, pos: K -> nat)
    requires SettledRun(a, touched, leq, pos) && SettledRun(b, touched, leq, pos)
    requires multiset(a) == multiset(b)
    ensures a == b
    decreases |a|
  {
    assert |a| == |multiset(a)| == |b|;
    if a != [] {
      assert a[0] in multiset(b) && b[0] in multiset(a);
      assert a[0] == b[0];
      SettledTail(a, touched, leq, pos);
      SettledTail(b, touched, leq, pos);
      assert multiset(a[1..]) == multiset(a) - multiset{a[0]};
      assert multiset(b[1..]) == multiset(b) - multiset{b[0]};
      SettledIsUnique(a[1..], b[1..], touched, leq, pos);
    }
  }

  // ----- what the comparator does to the record -----

  /** What is due of a list: what is due of each of its items. */
  function Due<K, X>(l: seq<Cell<K>>, w: Data -> multiset<X>): multiset<X> {
    if l == [] then multiset{} else w(l[0].data) + Due(l[1..], w)
  }

  /** One comparison settles between the record and its two items, whatever is due of the others. */
  ghost predicate Balances<S, X>(v: Verdict<S>, a: Data, b: Data, s: S, w: Data -> multiset<X>,
                                 balanced: (S, multiset<X>) -> bool, others: multiset<X>)
  {
    balanced(s, w(a) + w(b) + others) ==> balanced(v.s, w(v.a) + w(v.b) + others)
  }

  ghost predicate Conserves<S(!new), X(!new)>(cmp: Cmp<S>, w: Data -> multiset<X>,
                                              balanced: (S, multiset<X>) -> bool)
  {
    forall a, b, s, others :: Balances(cmp(a, b, s), a, b, s, w, balanced, others)
  }

  lemma {:induction false} DueCons<K, X>(x: Cell<K>, l: seq<Cell<K>>, w: Data -> multiset<X>)
    ensures Due([x] + l, w) == w(x.data) + Due(l, w)
  {
    assert ([x] + l)[1..] == l;
  }

  lemma {:induction false} DueConcat<K, X>(a: seq<Cell<K>>, b: seq<Cell<K>>, w: Data -> multiset<X>)
    ensures Due(a + b, w) == Due(a, w) + Due(b, w)
  {
    if a == [] {
      assert a + b == b;
    } else {
      assert (a + b)[1..] == a[1..] + b;
      DueConcat(a[1..], b, w);
    }
  }

  /** The two heads are compared, and the rest of the two runs is among the others. */
  lemma {:induction false} HeadsBalance<K, S(!new), X(!new)>(
    p: seq<Cell<K>>, q: seq<Cell<K>>, x: Cell<K>, y: Cell<K>, cmp: Cmp<S>, s: S, w: Data -> multiset<X>,
    balanced: (S, multiset<X>) -> bool, others: multiset<X>)
    requires p != [] && q != [] && Conserves(cmp, w, balanced) && balanced(s, Due(p, w) + Due(q, w) + others)
    requires var v := cmp(p[0].data, q[0].data, s); x.data == v.a && y.data == v.b
    ensures var v := cmp(p[0].data, q[0].data, s);
      && balanced(v.s, Due(p[1..], w) + Due([y] + q[1..], w) + (w(x.data) + others))
      && balanced(v.s, Due([x] + p[1..], w) + Due(q[1..], w) + (w(y.data) + others))
  {
    hide Balances;
    var v := cmp(p[0].data, q[0].data, s);
    var rest := Due(p[1..], w) + Due(q[1..], w) + others;
    assert Balances(v, p[0].data, q[0].data, s, w, balanced, rest);
    DueCons(x, p[1..], w);
    DueCons(y, q[1..], w);
    BalanceMoves(v, p[0].data, q[0].data, s, w, balanced, Due(p[1..], w), Due(q[1..], w), others);
  }

  lemma {:induction false} BalanceMoves<S, X>(v: Verdict<S>, a: Data, b: Data, s: S, w: Data -> multiset<X>,
                                              balanced: (S, multiset<X>) -> bool, p: multiset<X>, q: multiset<X>,
                                              others: multiset<X>)
    requires Balances(v, a, b, s, w, balanced, p + q + others)
    requires balanced(s, (w(a) + p) + (w(b) + q) + others)
    ensures balanced(v.s, p + (w(v.b) + q) + (w(v.a) + others))
    ensures balanced(v.s, (w(v.a) + p) + q + (w(v.b) + others))
  {
    assert (w(a) + p) + (w(b) + q) + others == w(a) + w(b) + (p + q + others);
    assert p + (w(v.b) + q) + (w(v.a) + others) == w(v.a) + w(v.b) + (p + q + others);
    assert (w(v.a) + p) + q + (w(v.b) + others) == w(v.a) + w(v.b) + (p + q + others);
  }

  lemma {:induction false} MergeConserves<K, S(!new), X(!new)>(
    p: seq<Cell<K>>, q: seq<Cell<K>>, cmp: Cmp<S>, s: S, w: Data -> multiset<X>,
    balanced: (S, multiset<X>) -> bool, others: multiset<X>)
    requires Conserves(cmp, w, balanced) && balanced(s, Due(p, w) + Due(q, w) + others)
    ensures var r := Merge(p, q, cmp, s); balanced(r.s, Due(r.cells, w) + others)
    decreases |p| + |q|
  {
    hide Conserves;
    if p == [] {
      assert Due(p, w) + Due(q, w) == Due(q, w);
    } else if q == [] {
      assert Due(p, w) + Due(q, w) == Due(p, w);
    } else {
      var v := cmp(p[0].data, q[0].data, s);
      var x, y := p[0].(data := v.a), q[0].(data := v.b);
      HeadsBalance(p, q, x, y, cmp, s, w, balanced, others);
      if v.order <= 0 {
        var r := Merge(p[1..], [y] + q[1..], cmp, v.s).cells;
        MergeConserves(p[1..], [y] + q[1..], cmp, v.s, w, balanced, w(x.data) + others);
        DueCons(x, r, w);
        assert Due(r, w) + (w(x.data) + others) == w(x.data) + Due(r, w) + others;
      } else {
        var r := Merge([x] + p[1..], q[1..], cmp, v.s).cells;
        MergeConserves([x] + p[1..], q[1..], cmp, v.s, w, balanced, w(y.data) + others);
        DueCons(y, r, w);
        assert Due(r, w) + (w(y.data) + others) == w(y.data) + Due(r, w) + others;
      }
    }
  }

  lemma {:induction false} PassConserves<K, S(!new), X(!new)>(
    l: seq<Cell<K>>, k: nat, cmp: Cmp<S>, s: S, w: Data -> multiset<X>, balanced: (S, multiset<X>) -> bool,
    others: multiset<X>)
    requires k > 0 && Conserves(cmp, w, balanced) && balanced(s, Due(l, w) + others)
    ensures var r := Pass(l, k, cmp, s); balanced(r.s, Due(r.cells, w) + others)
    decreases |l|
  {
    hide Merge;
    hide Conserves;
    hide Due;
    if l != [] {
      var a, b := Min(k, |l|), Min(2 * k, |l|);
      var p, q, t := l[..a], l[a..b], l[b..];
      var m := Merge(p, q, cmp, s);
      assert l == p + (q + t);
      DueConcat(p, q + t, w);
      DueConcat(q, t, w);
      assert Due(p, w) + (Due(q, w) + Due(t, w)) + others == Due(p, w) + Due(q, w) + (Due(t, w) + others);
      MergeConserves(p, q, cmp, s, w, balanced, Due(t, w) + others);
      assert Due(m.cells, w) + (Due(t, w) + others) == Due(t, w) + (Due(m.cells, w) + others);
      PassConserves(t, k, cmp, m.s, w, balanced, Due(m.cells, w) + others);
      var r := Pass(t, k, cmp, m.s).cells;
      DueConcat(m.cells, r, w);
      assert Due(r, w) + (Due(m.cells, w) + others) == Due(m.cells, w) + Due(r, w) + others;
    }
  }

  lemma {:induction false} SortFromConserves<K, S(!new), X(!new)>(
    l: seq<Cell<K>>, k: nat, cmp: Cmp<S>, s: S, w: Data -> multiset<X>, balanced: (S, multiset<X>) -> bool)
    requires k > 0 && Conserves(cmp, w, balanced) && balanced(s, Due(l, w))
    ensures var r := SortFrom(l, k, cmp, s); balanced(r.s, Due(r.cells, w))
    decreases |l| - k
  {
    var r, none: multiset<X> := Pass(l, k, cmp, s), multiset{};
    assert Due(l, w) + none == Due(l, w) && Due(r.cells, w) + none == Due(r.cells, w);
    PassConserves(l, k, cmp, s, w, balanced, none);
    if |l| > 2 * k {
      SortFromConserves(r.cells, 2 * k, cmp, r.s, w, balanced);
    }
  }

  /** Whatever every comparison keeps balanced between the record and what is due of the items, the sort does. */
  lemma {:induction false} SortConserves<K, S(!new), X(!new)>(
    l: seq<Cell<K>>, cmp: Cmp<S>, s: S, w: Data -> multiset<X>, balanced: (S, multiset<X>) -> bool)
    requires Conserves(cmp, w, balanced) && balanced(s, Due(l, w))
    ensures var r := Sort(l, cmp, s); balanced(r.s, Due(r.cells, w))
  {
    SortFromConserves(l, 1, cmp, s, w, balanced);
  }

  /** Two items are compared once, in their order; they are swapped if the answer is positive. */
  lemma {:induction false} TwoAreComparedOnce<K, S>(x: Cell<K>, y: Cell<K>, cmp: Cmp<S>, s: S)
    ensures var v := cmp(x.data, y.data, s);
      var x', y' := Cell(x.id, v.a), Cell(y.id, v.b);
      Sort([x, y], cmp, s) == Outcome(if v.order > 0 then [y', x'] else [x', y'], v.s)
  {
    var l := [x, y];
    assert l[..1] == [x] && l[1..2] == [y] && l[2..] == [];
    var v := cmp(x.data, y.data, s);
    assert [x][1..] == [] && [y][1..] == [];
    assert Pass(l, 1, cmp, s) == Merge([x], [y], cmp, s);
  }
}
