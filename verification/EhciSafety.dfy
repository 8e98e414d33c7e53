/**
 What every operation of the driver keeps about its pools, its lists and its
 requests.
*/
module EhciSafety {
  import opened Arith
  import opened Chains
  import opened EhciPools
  import opened EhciTransfers
  import opened EhciSpec

  // ----- descriptors of a list of queue heads -----

  lemma {:induction false} FlatSplit(tds: map<Qh, seq<Qtd>>, a: seq<Qh>, b: seq<Qh>)
    ensures Flat(tds, a + b) == Flat(tds, a) + Flat(tds, b)
  {
    if a == [] {
      assert a + b == b;
    } else {
      assert (a + b)[1..] == a[1..] + b;
      FlatSplit(tds, a[1..], b);
    }
  }

  lemma {:induction false} FlatAgree(tds: map<Qh, seq<Qtd>>, tds': map<Qh, seq<Qtd>>, l: seq<Qh>)
    requires forall q :: q in l ==> TdsOf(tds', q) == TdsOf(tds, q)
    ensures Flat(tds', l) == Flat(tds, l)
  {
    if l != [] {
      assert l[0] in l;
      FlatAgree(tds, tds', l[1..]);
    }
  }

  lemma {:induction false} FlatOf(tds: map<Qh, seq<Qtd>>, a: seq<Qh>, q: Qh, b: seq<Qh>)
    ensures Flat(tds, a + [q] + b) == Flat(tds, a) + TdsOf(tds, q) + Flat(tds, b)
  {
    FlatSplit(tds, a + [q], b);
    FlatSplit(tds, a, [q]);
    assert [q][1..] == [] && Flat(tds, [q]) == TdsOf(tds, q) + [];
  }

  /** q with new descriptors comes in between a and b. */
  lemma {:induction false} FlatGains(tds: map<Qh, seq<Qtd>>, tds': map<Qh, seq<Qtd>>, a: seq<Qh>, q: Qh, b: seq<Qh>)
    requires NoDup(Flat(tds, a + b)) && q !in a && q !in b
    requires forall x :: x != q ==> TdsOf(tds', x) == TdsOf(tds, x)
    requires NoDup(TdsOf(tds', q)) && forall d :: d in TdsOf(tds', q) ==> d !in Flat(tds, a + b)
    ensures NoDup(Flat(tds', a + [q] + b))
    ensures forall d :: d in Flat(tds', a + [q] + b) <==> d in Flat(tds, a + b) || d in TdsOf(tds', q)
  {
    FlatOf(tds', a, q, b);
    FlatSplit(tds, a, b);
    FlatAgree(tds, tds', a);
    FlatAgree(tds, tds', b);
    var fa, fb, l := Flat(tds, a), Flat(tds, b), TdsOf(tds', q);
    NoDupSplit(fa, fb);
    assert forall d :: d in fa || d in fb <==> d in fa + fb;
    Interposed(fa, l, fb);
  }

  /** A sequence between two others, all without repetition. */
  lemma {:induction false} Interposed(fa: seq<Qtd>, l: seq<Qtd>, fb: seq<Qtd>)
    requires NoDup(fa) && NoDup(l) && NoDup(fb) && (forall d :: d in l ==> d !in fa && d !in fb)
      && (forall d :: d in fa ==> d !in fb)
    ensures NoDup(fa + l + fb) && forall d :: d in fa + l + fb <==> d in fa || d in l || d in fb
  {
    NoDupSplit(fa, l);
    assert forall d :: d in fa + l <==> d in fa || d in l;
    NoDupSplit(fa + l, fb);
    assert forall d :: d in fa + l + fb <==> d in fa + l || d in fb;
  }

  /** q goes out from between a and b, with its descriptors. */
  lemma {:induction false} FlatLoses(tds: map<Qh, seq<Qtd>>, tds': map<Qh, seq<Qtd>>, a: seq<Qh>, q: Qh, b: seq<Qh>)
    requires NoDup(Flat(tds, a + [q] + b)) && q !in a && q !in b
    requires forall x :: x != q ==> TdsOf(tds', x) == TdsOf(tds, x)
    ensures NoDup(Flat(tds', a + b))
    ensures forall d :: d in Flat(tds', a + b) <==> d in Flat(tds, a + [q] + b) && d !in TdsOf(tds, q)
  {
    FlatOf(tds, a, q, b);
    FlatSplit(tds', a, b);
    FlatAgree(tds, tds', a);
    FlatAgree(tds, tds', b);
    TakenOut(Flat(tds, a), TdsOf(tds, q), Flat(tds, b));
  }

  lemma {:induction false} TakenOut(fa: seq<Qtd>, l: seq<Qtd>, fb: seq<Qtd>)
    requires NoDup(fa + l + fb)
    ensures NoDup(fa + fb) && forall d :: d in fa + fb <==> d in fa + l + fb && d !in l
  {
    NoDupSplit(fa + l, fb);
    NoDupSplit(fa, l);
    assert forall d :: d in fa + l <==> d in fa || d in l;
    NoDupSplit(fa, fb);
    assert forall d :: d in fa + l + fb <==> d in fa + l || d in fb;
    assert forall d :: d in fa + fb <==> d in fa || d in fb;
  }

  // ----- marks -----

  lemma {:induction false} MarkUsed(used: seq<bool>, used': seq<bool>, q: Addr, v: bool)
    requires 1 <= q <= |used| && used' == used[q - 1 := v]
    ensures forall x :: Used(used', x) <==> if x == q then v else Used(used, x)
  {
  }

  // ----- a queue head starts to carry a request -----

  lemma {:induction false} UrbsLink(s: Sched, s': Sched, q: Qh, u: Urb)
    requires UrbsOk(s) && 1 <= q <= |s.qhUsed| && !Used(s.qhUsed, q) && u != 0 && At(s.hcpriv, u) == 0
    requires s'.qhUsed == s.qhUsed[q - 1 := true] && s'.urb == s.urb[q := 0][q := u]
      && s'.hcpriv == s.hcpriv[u := 0][u := q]
    ensures UrbsOk(s')
  {
    MarkUsed(s.qhUsed, s'.qhUsed, q, true);
    assert s'.urb == s.urb[q := u] && s'.hcpriv == s.hcpriv[u := q];
    Wrote(s.urb, s'.urb, q, u);
    Wrote(s.hcpriv, s'.hcpriv, u, q);
  }

  lemma {:induction false} QhsLink(s: Sched, s': Sched, q: Qh)
    requires QhsOk(s) && Pool(q) && |s.qhUsed| == QH_NUM && !Used(s.qhUsed, q)
    requires s'.qhUsed == s.qhUsed[q - 1 := true] && s'.removing == s.removing[q := 0]
    requires forall x :: x in s'.ring || (x in s'.chain && Pool(x)) <==>
      x == q || x in s.ring || (x in s.chain && Pool(x))
    requires forall x :: x in s'.ring || x in s'.chain ==> x == q || x in s.ring || x in s.chain
    ensures QhsOk(s')
  {
    MarkUsed(s.qhUsed, s'.qhUsed, q, true);
    Wrote(s.removing, s'.removing, q, 0);
  }

  /** A place in a list. */
  lemma {:induction false} AddBehindSplits(l: seq<Qh>, h: Qh, n: Qh) returns (a: seq<Qh>, b: seq<Qh>)
    requires h in l
    ensures l == a + [h] + b && h !in a && AddBehind(l, h, n) == a + [h, n] + b
  {
    if l[0] == h {
      a, b := [], l[1..];
    } else {
      a, b := AddBehindSplits(l[1..], h, n);
      a := [l[0]] + a;
    }
  }

  lemma {:induction false} AddBehindKeepsOrder(l: seq<Qh>, h: Qh, n: Qh, x: Qh, y: Qh)
    requires Before(l, x, y)
    ensures Before(AddBehind(l, h, n), x, y)
  {
    BeforeIn(l, x, y);
    if l[0] == h {
      assert ([h, n] + l[1..])[1..] == [n] + l[1..] && ([n] + l[1..])[1..] == l[1..];
      if x != h && x == n {
        assert y in l[1..];
      }
    } else {
      assert AddBehind(l, h, n)[1..] == AddBehind(l[1..], h, n);
      if l[0] == x {
        StillIn(l[1..], h, n, y);
      } else {
        AddBehindKeepsOrder(l[1..], h, n, x, y);
      }
    }
  }

  lemma {:induction false} StillIn(l: seq<Qh>, h: Qh, n: Qh, y: Qh)
    requires y in l
    ensures y in AddBehind(l, h, n)
  {
    if l[0] != h {
      if y != l[0] {
        StillIn(l[1..], h, n, y);
      }
    }
  }

  lemma {:induction false} AddedBehind(l: seq<Qh>, h: Qh, n: Qh)
    requires h in l
    ensures Before(AddBehind(l, h, n), h, n)
  {
    if l[0] == h {
      assert AddBehind(l, h, n)[1..] == [n] + l[1..];
    } else {
      assert AddBehind(l, h, n)[1..] == AddBehind(l[1..], h, n);
      AddedBehind(l[1..], h, n);
    }
  }

  // ----- submitting -----

  /** A request that no queue head carries. */
  ghost predicate Idle(s: Sched, u: Urb) {
    u != 0 && At(s.hcpriv, u) == 0 && 0 <= At(s.slot, u) <= TOP + 1
  }

  /** The first free queue head is on no list. */
  lemma {:induction false} NextQhIsFree(s: Sched)
    requires Inv(s) && FreeCount(s.qhUsed) > 0
    ensures var q := NextQh(s);
      Pool(q) && !Used(s.qhUsed, q) && q !in s.ring && q !in s.chain && At(s.removing, q) == 0 && At(s.urb, q) == 0
  {
    TakesOne(s.qhUsed);
  }

  lemma {:induction false} WholeHas(s: Sched, i: int)
    requires ListsOk(s) && 0 <= i <= TOP
    ensures Head(i) in Whole(s) && NoDup(Whole(s)) && Whole(s)[1..] == s.chain && Head(TOP) !in s.chain
      && NoDup(s.chain)
  {
    NoDupSplit(s.ring, s.chain);
    assert forall j :: 0 <= j < TOP ==> Head(j) != Head(TOP);
  }

  lemma {:induction false} ChainPlace(chain: seq<Qh>, top: Qh, h: Qh, q: Qh) returns (c: seq<Qh>, d: seq<Qh>)
    requires h in [top] + chain
    ensures chain == c + d && AddBehind([top] + chain, h, q) == [top] + (c + [q] + d)
    ensures AddBehind([top] + chain, h, q)[1..] == c + [q] + d && LastOr(top, c) == h
  {
    assert ([top] + chain)[1..] == chain;
    if h == top {
      c, d := [], chain;
    } else {
      var a, b := AddBehindSplits(chain, h, q);
      c, d := a + [h], b;
    }
  }

  lemma {:induction false} Regroup(r: seq<Qh>, c: seq<Qh>, q: Qh, d: seq<Qh>)
    ensures r + (c + d) == (r + c) + d && r + (c + [q] + d) == (r + c) + [q] + d
  {
  }

  /** What linking q does to the lists: q comes in at one place. */
  lemma {:induction false} LinkPlace(s: Sched, q: Qh, u: Urb) returns (a: seq<Qh>, b: seq<Qh>)
    requires 0 <= At(s.slot, u) <= TOP + 1 && (At(s.slot, u) > 0 ==> Head(At(s.slot, u) - 1) in Whole(s))
    ensures var s' := Link(s, q, u); s.ring + s.chain == a + b && s'.ring + s'.chain == a + [q] + b
    ensures var s' := Link(s, q, u);
      if At(s.slot, u) == 0 then s'.ring == [q] + s.ring && s'.chain == s.chain
      else s'.ring == s.ring && Whole(s') == AddBehind(Whole(s), Head(At(s.slot, u) - 1), q)
  {
    if At(s.slot, u) == 0 {
      a, b := [], s.ring + s.chain;
      Regroup([], [], q, s.ring + s.chain);
    } else {
      var c, d := ChainPlace(s.chain, Head(TOP), Head(At(s.slot, u) - 1), q);
      a, b := s.ring + c, d;
      Regroup(s.ring, c, q, d);
    }
  }

  lemma {:induction false} ListsLink(s: Sched, s': Sched, q: Qh, u: Urb, a: seq<Qh>, b: seq<Qh>)
    requires ListsOk(s) && Pool(q) && q !in s.ring && q !in s.chain && 0 <= At(s.slot, u) <= TOP + 1
    requires s.ring + s.chain == a + b && s'.ring + s'.chain == a + [q] + b
    requires if At(s.slot, u) == 0 then s'.ring == [q] + s.ring && s'.chain == s.chain
      else s'.ring == s.ring && Whole(s') == AddBehind(Whole(s), Head(At(s.slot, u) - 1), q)
    ensures ListsOk(s')
    ensures forall x :: x in s'.ring || x in s'.chain <==> x == q || x in s.ring || x in s.chain
  {
    OneMore(s.ring, s.chain, a, q, b);
    assert forall x :: x in s'.ring || x in s'.chain <==> x in s'.ring + s'.chain;
    forall x | x in s.chain ensures x in s'.chain {
      ChainStays(s, s', q, u, x);
    }
    if s'.chain != s.chain {
      OrderGrows(Whole(s), Head(At(s.slot, u) - 1), q);
    }
  }

  lemma {:induction false} OrderGrows(l: seq<Qh>, h: Qh, q: Qh)
    requires HeadsInOrder(l)
    ensures HeadsInOrder(AddBehind(l, h, q))
  {
    forall i | 0 <= i < TOP ensures Before(AddBehind(l, h, q), Head(i + 1), Head(i)) {
      AddBehindKeepsOrder(l, h, q, Head(i + 1), Head(i));
    }
  }

  lemma {:induction false} OrderShrinks(l: seq<Qh>, q: Qh)
    requires HeadsInOrder(l) && Pool(q) && NoDup(l)
    ensures HeadsInOrder(Without(l, q))
  {
    forall i | 0 <= i < TOP ensures Before(Without(l, q), Head(i + 1), Head(i)) {
      WithoutKeepsOrder(l, q, Head(i + 1), Head(i));
    }
  }

  /** The heads keep their order when q leaves. */
  lemma {:induction false} WholeShrinks(s: Sched, s': Sched, q: Qh)
    requires ListsOk(s) && Pool(q) && s'.chain == Without(s.chain, q)
    ensures HeadsInOrder(Whole(s'))
  {
    WholeHas(s, 0);
    assert Whole(s') == Without(Whole(s), q);
    OrderShrinks(Whole(s), q);
  }

  lemma {:induction false} OneMore(r: seq<Qh>, c: seq<Qh>, a: seq<Qh>, q: Qh, b: seq<Qh>)
    requires NoDup(r + c) && r + c == a + b && q !in r && q !in c
    ensures NoDup(a + [q] + b) && q !in a && q !in b
    ensures forall x :: x in a + [q] + b <==> x == q || x in r || x in c
  {
    assert forall x :: x in a + b <==> x in a || x in b;
    assert forall x :: x in r + c <==> x in r || x in c;
    assert [q][1..] == [];
    NoDupSplit(a, b);
    Interposed(a, [q], b);
  }

  lemma {:induction false} ChainStays(s: Sched, s': Sched, q: Qh, u: Urb, x: Qh)
    requires x in s.chain
    requires s'.chain == s.chain || Whole(s') == AddBehind(Whole(s), Head(At(s.slot, u) - 1), q)
    requires Head(TOP) !in s.chain
    ensures x in s'.chain
  {
    assert Whole(s')[1..] == s'.chain && Whole(s)[1..] == s.chain;
    if s'.chain != s.chain {
      StillIn(Whole(s), Head(At(s.slot, u) - 1), q, x);
    }
  }

  lemma {:induction false} BehindStays(s: Sched, s': Sched, q: Qh, u: Urb, x: Qh)
    requires BehindItsHead(s, x) && At(s'.urb, x) == At(s.urb, x) && s'.slot == s.slot
    requires s'.chain == s.chain || Whole(s') == AddBehind(Whole(s), Head(At(s.slot, u) - 1), q)
    ensures BehindItsHead(s', x)
  {
    if s'.chain != s.chain {
      AddBehindKeepsOrder(Whole(s), Head(At(s.slot, u) - 1), q, Head(At(s.slot, At(s.urb, x)) - 1), x);
    }
  }

  lemma {:induction false} SlotsLink(s: Sched, s': Sched, q: Qh, u: Urb)
    requires ListsOk(s) && SlotsOk(s) && q !in s.ring && q !in s.chain && 0 <= At(s.slot, u) <= TOP + 1
    requires s'.slot == s.slot && s'.urb == s.urb[q := u] && s'.removing == s.removing[q := 0]
    requires if At(s.slot, u) == 0 then s'.ring == [q] + s.ring && s'.chain == s.chain
      else s'.ring == s.ring && Whole(s') == AddBehind(Whole(s), Head(At(s.slot, u) - 1), q)
    requires forall x :: x in s'.ring || x in s'.chain <==> x == q || x in s.ring || x in s.chain
    requires forall x :: x in s'.ring ==> x !in s'.chain
    ensures SlotsOk(s')
  {
    Wrote(s.urb, s'.urb, q, u);
    Wrote(s.removing, s'.removing, q, 0);
    forall x | x in s'.chain && Pool(x) ensures BehindItsHead(s', x) {
      if x == q {
        WholeHas(s, At(s.slot, u) - 1);
        AddedBehind(Whole(s), Head(At(s.slot, u) - 1), q);
      } else {
        BehindStays(s, s', q, u, x);
      }
    }
  }

  lemma {:induction false} QtdsLink(s: Sched, s': Sched, q: Qh, k: nat, a: seq<Qh>, b: seq<Qh>)
    requires QtdsOk(s) && k <= FreeCount(s.qtdUsed) && q !in a && q !in b
    requires s.ring + s.chain == a + b && s'.ring + s'.chain == a + [q] + b
    requires s'.qtdUsed == Marked(s.qtdUsed, k) && TdsOf(s'.tds, q) == Taken(s.qtdUsed, k)
    requires forall x :: x != q ==> TdsOf(s'.tds, x) == TdsOf(s.tds, x)
    ensures QtdsOk(s')
  {
    TakenAre(s.qtdUsed, k);
    FlatGains(s.tds, s'.tds, a, q, b);
  }

  /** The fields after a successful submit. */
  ghost predicate Linked1(s: Sched, s': Sched, q: Qh, u: Urb, k: nat)
    requires k <= FreeCount(s.qtdUsed)
  {
    && 1 <= q <= |s.qhUsed| && s'.qhUsed == s.qhUsed[q - 1 := true]
    && s'.urb == s.urb[q := 0][q := u] && s'.hcpriv == s.hcpriv[u := 0][u := q]
    && s'.removing == s.removing[q := 0] && s'.slot == s.slot
    && s'.qtdUsed == Marked(s.qtdUsed, k) && s'.tds == s.tds[q := []][q := Taken(s.qtdUsed, k)]
  }

  lemma {:induction false} LinkKeeps(s: Sched, s': Sched, q: Qh, u: Urb, k: nat, a: seq<Qh>, b: seq<Qh>)
    requires Inv(s) && Idle(s, u) && k <= FreeCount(s.qtdUsed)
    requires Pool(q) && !Used(s.qhUsed, q) && q !in s.ring && q !in s.chain
    requires Linked1(s, s', q, u, k)
    requires s.ring + s.chain == a + b && s'.ring + s'.chain == a + [q] + b
    requires if At(s.slot, u) == 0 then s'.ring == [q] + s.ring && s'.chain == s.chain
      else s'.ring == s.ring && Whole(s') == AddBehind(Whole(s), Head(At(s.slot, u) - 1), q)
    ensures Inv(s')
  {
    OneMore(s.ring, s.chain, a, q, b);
    ListsLink(s, s', q, u, a, b);
    QtdsLink(s, s', q, k, a, b);
    UrbsLink(s, s', q, u);
    WroteTwice(s.urb, q, 0, u);
    NoDupSplit(s'.ring, s'.chain);
    SlotsLink(s, s', q, u);
    QhsLink(s, s', q);
  }

  // ----- a queue head leaves its list -----

  lemma {:induction false} WithoutNone(l: seq<Addr>, a: Addr)
    requires a !in l
    ensures Without(l, a) == l
  {
    if l != [] {
      WithoutNone(l[1..], a);
    }
  }

  lemma {:induction false} RegroupLeft(u: seq<Qh>, q: Qh, v: seq<Qh>, c: seq<Qh>)
    ensures (u + [q] + v) + c == u + [q] + (v + c) && (u + v) + c == u + (v + c)
  {
  }

  lemma {:induction false} SplitList(l: seq<Qh>, q: Qh) returns (u: seq<Qh>, v: seq<Qh>)
    requires NoDup(l) && q in l
    ensures l == u + [q] + v && Without(l, q) == u + v
  {
    u, v := SplitAt(l, q);
    WithoutSplit(u, q, v);
  }

  /** Ring and chain lose one element at one place. */
  lemma {:induction false} OneLess(r: seq<Qh>, c: seq<Qh>, q: Qh) returns (a: seq<Qh>, b: seq<Qh>)
    requires NoDup(r + c) && (q in r || q in c)
    ensures r + c == a + [q] + b && Without(r, q) + Without(c, q) == a + b && NoDup(a + b) && q !in a && q !in b
  {
    NoDupSplit(r, c);
    if q in r {
      var u, v := SplitList(r, q);
      WithoutNone(c, q);
      a, b := u, v + c;
      RegroupLeft(u, q, v, c);
    } else {
      var u, v := SplitList(c, q);
      WithoutNone(r, q);
      a, b := r + u, v;
      Regroup(r, u, q, v);
    }
    TakenOut(a, [q], b);
    NotTwice(a, q, b);
  }

  lemma {:induction false} NotTwice(a: seq<Qh>, q: Qh, b: seq<Qh>)
    requires NoDup(a + [q] + b)
    ensures q !in a && q !in b
  {
    NoDupSplit(a + [q], b);
    NoDupSplit(a, [q]);
    assert q in a + [q];
  }

  /** Ring, chain and descriptors as after a dequeue. */
  ghost predicate Dequeued(s: Sched, s': Sched, q: Qh) {
    && s'.ring == Without(s.ring, q) && s'.chain == Without(s.chain, q)
    && s'.qtdUsed == Freed(s.qtdUsed, TdsOf(s.tds, q)) && s'.tds == s.tds[q := []] && s'.slot == s.slot
  }

  lemma {:induction false} DequeueLists(s: Sched, s': Sched, q: Qh)
    requires SizesOk(s) && ListsOk(s) && QtdsOk(s) && Pool(q) && (q in s.ring || q in s.chain) && Dequeued(s, s', q)
    ensures ListsOk(s') && QtdsOk(s')
    ensures forall x :: x in s'.ring <==> x in s.ring && x != q
    ensures forall x :: x in s'.chain <==> x in s.chain && x != q
  {
    var a, b := OneLess(s.ring, s.chain, q);
    NoDupSplit(s.ring, s.chain);
    WithoutElems(s.ring, q);
    WithoutElems(s.chain, q);
    FlatLoses(s.tds, s'.tds, a, q, b);
    FreedAre(s.qtdUsed, TdsOf(s.tds, q));
    WholeShrinks(s, s', q);
  }

  lemma {:induction false} BehindRemains(s: Sched, s': Sched, q: Qh, x: Qh)
    requires ListsOk(s) && Pool(q) && Pool(x) && x != q && BehindItsHead(s, x)
    requires s'.chain == Without(s.chain, q) && s'.slot == s.slot && At(s'.urb, x) == At(s.urb, x)
    ensures BehindItsHead(s', x)
  {
    WholeHas(s, 0);
    assert Whole(s') == Without(Whole(s), q);
    WithoutKeepsOrder(Whole(s), q, Head(At(s.slot, At(s.urb, x)) - 1), x);
  }

  lemma {:induction false} DequeueSlots(s: Sched, s': Sched, q: Qh)
    requires ListsOk(s) && SlotsOk(s) && Pool(q) && Dequeued(s, s', q)
    requires forall x :: x != q ==> At(s'.urb, x) == At(s.urb, x)
    requires forall x :: x != q ==> At(s'.removing, x) == At(s.removing, x)
    requires At(s'.removing, q) != 0 ==> At(s.slot, At(s'.urb, q)) == 0
    requires forall x :: x in s'.ring <==> x in s.ring && x != q
    requires forall x :: x in s'.chain <==> x in s.chain && x != q
    ensures SlotsOk(s')
  {
    forall x | x in s'.chain && Pool(x) ensures BehindItsHead(s', x) {
      BehindRemains(s, s', q, x);
    }
  }

  /** A queue head that goes back to the pool. */
  lemma {:induction false} UrbsDrop(s: Sched, s': Sched, q: Qh, u: Urb)
    requires UrbsOk(s) && 1 <= q <= |s.qhUsed| && Used(s.qhUsed, q) && u == At(s.urb, q)
    requires s'.qhUsed == s.qhUsed[q - 1 := false] && s'.urb == s.urb[q := 0] && s'.hcpriv == s.hcpriv[u := 0]
    ensures UrbsOk(s')
  {
    MarkUsed(s.qhUsed, s'.qhUsed, q, false);
    Wrote(s.urb, s'.urb, q, 0);
    Wrote(s.hcpriv, s'.hcpriv, u, 0);
  }

  /** A linked queue head that is dropped: its descriptors and itself go back to the pools. */
  ghost predicate Dropped(s: Sched, s': Sched, q: Qh) {
    && Dequeued(s, s', q)
    && 1 <= q <= |s.qhUsed| && s'.qhUsed == s.qhUsed[q - 1 := false]
    && s'.urb == s.urb[q := 0] && s'.hcpriv == s.hcpriv[At(s.urb, q) := 0]
    && (s'.removing == s.removing[q := 0] || s'.removing == s.removing)
  }

  lemma {:induction false} DropKeeps(s: Sched, s': Sched, q: Qh)
    requires Inv(s) && Pool(q) && (q in s.ring || q in s.chain) && Dropped(s, s', q)
    ensures Inv(s')
  {
    DequeueLists(s, s', q);
    Wrote(s.urb, s'.urb, q, 0);
    Wrote(s.removing, s.removing[q := 0], q, 0);
    DequeueSlots(s, s', q);
    UrbsDrop(s, s', q, At(s.urb, q));
    MarkUsed(s.qhUsed, s'.qhUsed, q, false);
  }

  /** A finished queue head of the ring that waits for the doorbell. */
  lemma {:induction false} ParkKeeps(s: Sched, s': Sched, q: Qh)
    requires Inv(s) && q in s.ring && Dequeued(s, s', q)
    requires s'.qhUsed == s.qhUsed && s'.urb == s.urb && s'.hcpriv == s.hcpriv && s'.removing == s.removing[q := 1]
    ensures Inv(s')
  {
    DequeueLists(s, s', q);
    Wrote(s.removing, s'.removing, q, 1);
    DequeueSlots(s, s', q);
    NoDupSplit(s.ring, s.chain);
  }

  /** Lists unchanged, and with them what their queue heads carry. */
  lemma {:induction false} SlotsSame(s: Sched, s': Sched)
    requires SlotsOk(s) && s'.ring == s.ring && s'.chain == s.chain && s'.slot == s.slot
    requires forall x :: x in s.ring || x in s.chain ==> At(s'.urb, x) == At(s.urb, x)
    requires forall x :: At(s'.removing, x) != 0 ==> At(s.removing, x) != 0 && At(s'.urb, x) == At(s.urb, x)
    ensures SlotsOk(s')
  {
    forall x | x in s'.chain && Pool(x) ensures BehindItsHead(s', x) {
      assert BehindItsHead(s, x);
    }
  }

  /** The fields after the controller has answered the doorbell for q. */
  ghost predicate Completed(s: Sched, s': Sched, q: Qh) {
    && 1 <= q <= |s.qhUsed| && s'.qhUsed == s.qhUsed[q - 1 := false]
    && s'.urb == s.urb[q := 0] && s'.hcpriv == s.hcpriv[At(s.urb, q) := 0] && s'.removing == s.removing[q := 0]
    && s'.ring == s.ring && s'.chain == s.chain && s'.tds == s.tds && s'.qtdUsed == s.qtdUsed && s'.slot == s.slot
  }

  lemma {:induction false} CompletedKeeps(s: Sched, s': Sched, q: Qh)
    requires Inv(s) && At(s.removing, q) != 0 && Completed(s, s', q)
    ensures Inv(s')
  {
    assert Used(s.qhUsed, q);
    UrbsDrop(s, s', q, At(s.urb, q));
    MarkUsed(s.qhUsed, s'.qhUsed, q, false);
    Wrote(s.removing, s'.removing, q, 0);
    Wrote(s.urb, s'.urb, q, 0);
    SlotsSame(s, s');
  }

  lemma {:induction false} CompleteFields(s: Sched, q: Qh)
    requires Inv(s) && Used(s.qhUsed, q)
    ensures var s' := Complete(s, At(s.urb, q));
      && Pool(q) && s'.qhUsed == s.qhUsed[q - 1 := false]
      && s'.urb == s.urb[q := 0] && s'.hcpriv == s.hcpriv[At(s.urb, q) := 0] && s'.removing == s.removing[q := 0]
      && s'.ring == s.ring && s'.chain == s.chain && s'.tds == s.tds && s'.qtdUsed == s.qtdUsed && s'.slot == s.slot
  {
  }

  lemma {:induction false} CompleteKeeps(s: Sched, q: Qh)
    requires Inv(s) && At(s.removing, q) != 0
    ensures Inv(Complete(s, At(s.urb, q))) && Completed(s, Complete(s, At(s.urb, q)), q)
  {
    CompleteFields(s, q);
    CompletedKeeps(s, Complete(s, At(s.urb, q)), q);
  }

  // ----- operations -----

  lemma {:induction false} SubmitFields(s: Sched, u: Urb, asked: nat, k: nat)
    requires Inv(s) && asked <= FreeCount(s.qtdUsed) && k <= FreeCount(s.qtdUsed) && FreeCount(s.qhUsed) > 0
    ensures Linked1(s, Submit(s, u, asked, k), NextQh(s), u, k)
    ensures Submit(s, u, asked, k) == Link(AllocQtds(AllocQh(Unclaimed(s, u)), NextQh(s), k), NextQh(s), u)
  {
    hide Inv;
    TakesOne(s.qhUsed);
  }

  lemma {:induction false} SubmitPlaces(s: Sched, u: Urb, asked: nat, k: nat)
    requires Inv(s) && Idle(s, u) && asked <= FreeCount(s.qtdUsed) && k <= FreeCount(s.qtdUsed)
      && FreeCount(s.qhUsed) > 0
    ensures var s' := Submit(s, u, asked, k);
      if At(s.slot, u) == 0 then s'.ring == [NextQh(s)] + s.ring && s'.chain == s.chain
      else s'.ring == s.ring && Whole(s') == AddBehind(Whole(s), Head(At(s.slot, u) - 1), NextQh(s))
  {
    SubmitFields(s, u, asked, k);
    hide QhsOk;
    hide UrbsOk;
    hide SlotsOk;
    hide QtdsOk;
    LinkedPlaces(s, AllocQtds(AllocQh(Unclaimed(s, u)), NextQh(s), k), NextQh(s), u);
    hide *;
  }

  lemma {:induction false} LinkedPlaces(s: Sched, s1: Sched, q: Qh, u: Urb)
    requires ListsOk(s) && 0 <= At(s.slot, u) <= TOP + 1 && s1.ring == s.ring && s1.chain == s.chain
      && s1.slot == s.slot
    ensures var s' := Link(s1, q, u);
      if At(s.slot, u) == 0 then s'.ring == [q] + s.ring && s'.chain == s.chain
      else s'.ring == s.ring && Whole(s') == AddBehind(Whole(s), Head(At(s.slot, u) - 1), q)
  {
    if At(s.slot, u) > 0 {
      WholeHas(s, At(s.slot, u) - 1);
    }
  }

  lemma {:induction false} SubmitServed(s: Sched, u: Urb, asked: nat, k: nat)
    requires Inv(s) && Idle(s, u) && asked <= FreeCount(s.qtdUsed) && k <= FreeCount(s.qtdUsed)
      && FreeCount(s.qhUsed) > 0
    ensures Inv(Submit(s, u, asked, k)) && Linked1(s, Submit(s, u, asked, k), NextQh(s), u, k)
    ensures var s' := Submit(s, u, asked, k);
      if At(s.slot, u) == 0 then s'.ring == [NextQh(s)] + s.ring && s'.chain == s.chain
      else s'.ring == s.ring && Whole(s') == AddBehind(Whole(s), Head(At(s.slot, u) - 1), NextQh(s))
  {
    NextQhIsFree(s);
    SubmitFields(s, u, asked, k);
    hide QhsOk;
    hide UrbsOk;
    hide SlotsOk;
    hide QtdsOk;
    SubmitPlaces(s, u, asked, k);
    hide Submit;
    var a, b := LinkPlace(AllocQtds(AllocQh(Unclaimed(s, u)), NextQh(s), k), NextQh(s), u);
    LinkKeeps(s, Submit(s, u, asked, k), NextQh(s), u, k, a, b);
  }

  lemma {:induction false} UnclaimedKeeps(s: Sched, u: Urb)
    requires Inv(s) && At(s.hcpriv, u) == 0
    ensures Inv(Unclaimed(s, u))
  {
    Wrote(s.hcpriv, Unclaimed(s, u).hcpriv, u, 0);
    SlotsSame(s, Unclaimed(s, u));
  }

  /** A queue head that was taken goes back at once. */
  lemma {:induction false} ReturnedKeeps(s: Sched, s': Sched, q: Qh)
    requires Inv(s) && Pool(q) && q !in s.ring && q !in s.chain && At(s.removing, q) == 0 && At(s.urb, q) == 0
    requires s'.qhUsed == s.qhUsed && s'.qtdUsed == s.qtdUsed && s'.ring == s.ring && s'.chain == s.chain
      && s'.slot == s.slot
    requires s'.hcpriv == s.hcpriv && s'.urb == s.urb[q := 0] && s'.removing == s.removing[q := 0]
      && s'.tds == s.tds[q := []]
    ensures Inv(s')
  {
    Wrote(s.urb, s'.urb, q, 0);
    Wrote(s.removing, s'.removing, q, 0);
    assert forall x :: x in s.ring + s.chain ==> x != q;
    FlatAgree(s.tds, s'.tds, s.ring + s.chain);
    ReturnedParts(s, s');
    hide *;
  }

  /** What is read as before. */
  lemma {:induction false} ReturnedParts(s: Sched, s': Sched)
    requires Inv(s)
    requires s'.qhUsed == s.qhUsed && s'.qtdUsed == s.qtdUsed && s'.ring == s.ring && s'.chain == s.chain
      && s'.slot == s.slot
    requires s'.hcpriv == s.hcpriv && (forall x :: At(s'.urb, x) == At(s.urb, x))
      && (forall x :: At(s'.removing, x) == At(s.removing, x))
    requires Flat(s'.tds, s.ring + s.chain) == Flat(s.tds, s.ring + s.chain)
    ensures Inv(s')
  {
    SlotsSame(s, s');
    SameLists(s, s');
    UrbsSame(s, s');
    QhsSame(s, s');
    hide SlotsOk;
    hide ListsOk;
    hide UrbsOk;
    hide QhsOk;
  }

  lemma {:induction false} UrbsSame(s: Sched, s': Sched)
    requires UrbsOk(s) && s'.qhUsed == s.qhUsed && s'.hcpriv == s.hcpriv && forall x :: At(s'.urb, x) == At(s.urb, x)
    ensures UrbsOk(s')
  {
  }

  lemma {:induction false} QhsSame(s: Sched, s': Sched)
    requires QhsOk(s) && s'.qhUsed == s.qhUsed && s'.ring == s.ring && s'.chain == s.chain
    requires forall x :: At(s'.removing, x) == At(s.removing, x)
    ensures QhsOk(s')
  {
  }

  lemma {:induction false} SameLists(s: Sched, s': Sched)
    requires ListsOk(s) && s'.ring == s.ring && s'.chain == s.chain
    ensures ListsOk(s')
  {
  }

  lemma {:induction false} FailFields(s: Sched, u: Urb, asked: nat, k: nat)
    requires SizesOk(s) && asked > FreeCount(s.qtdUsed) && FreeCount(s.qhUsed) > 0
    ensures var s', q := Submit(s, u, asked, k), NextQh(s);
      && s'.qhUsed == s.qhUsed && s'.qtdUsed == s.qtdUsed && s'.ring == s.ring && s'.chain == s.chain
         && s'.slot == s.slot
      && s'.hcpriv == Unclaimed(s, u).hcpriv && s'.urb == s.urb[q := 0] && s'.removing == s.removing[q := 0]
      && s'.tds == s.tds[q := []]
  {
    TakesOne(s.qhUsed);
    var s', q := Submit(s, u, asked, k), NextQh(s);
    assert s'.qhUsed == s.qhUsed && s'.urb == s.urb[q := 0];
  }

  /** A submit that gets no queue head or too few descriptors leaves pools and lists as they were. */
  lemma {:induction false} SubmitFails(s: Sched, u: Urb, asked: nat, k: nat)
    requires Inv(s) && At(s.hcpriv, u) == 0 && !Served(s, asked)
    requires asked <= FreeCount(s.qtdUsed) ==> k <= FreeCount(s.qtdUsed)
    ensures var s' := Submit(s, u, asked, k);
      Inv(s') && s'.qhUsed == s.qhUsed && s'.qtdUsed == s.qtdUsed && s'.ring == s.ring && s'.chain == s.chain
  {
    UnclaimedKeeps(s, u);
    if FreeCount(s.qhUsed) > 0 {
      NextQhIsFree(s);
      FailFields(s, u, asked, k);
      ReturnedKeeps(Unclaimed(s, u), Submit(s, u, asked, k), NextQh(s));
    }
  }

  /** A submit keeps the books exactly if no queue head carries the request. */
  lemma {:induction false} SubmitKeepsExactly(s: Sched, u: Urb, asked: nat, k: nat)
    requires Inv(s) && u != 0 && 0 <= At(s.slot, u) <= TOP + 1
    requires asked <= FreeCount(s.qtdUsed) ==> k <= FreeCount(s.qtdUsed)
    ensures Inv(Submit(s, u, asked, k)) <==> At(s.hcpriv, u) == 0
  {
    if At(s.hcpriv, u) == 0 {
      if Served(s, asked) {
        SubmitServed(s, u, asked, k);
      } else {
        SubmitFails(s, u, asked, k);
      }
    } else {
      TwoCarriers(s, u, asked, k);
    }
  }

  lemma {:induction false} TwoCarriers(s: Sched, u: Urb, asked: nat, k: nat)
    requires Inv(s) && u != 0 && At(s.hcpriv, u) != 0
    requires asked <= FreeCount(s.qtdUsed) ==> k <= FreeCount(s.qtdUsed)
    ensures !UrbsOk(Submit(s, u, asked, k))
  {
    var q := At(s.hcpriv, u);
    var s' := Submit(s, u, asked, k);
    if FreeCount(s.qhUsed) > 0 {
      NextQhIsFree(s);
    }
    assert At(s'.urb, q) == u && At(s'.hcpriv, u) != q;
  }

  // ----- bulk and interrupt transfers -----

  ghost function BulkAttempt(s: Sched, u: Urb, buf: nat, n: nat): Attempt {
    if FreeCount(s.qhUsed) == 0 then Done(Unclaimed(s, u))
    else if Asked(n) <= FreeCount(s.qtdUsed) < |Chunks(buf, n)| then WritesNull
    else Done(Submit(s, u, Asked(n), |Chunks(buf, n)|))
  }

  /** Fewer descriptors are free than the transfer takes, and the check before it does not see it. */
  ghost predicate Overlooked(s: Sched, n: nat) {
    FreeCount(s.qhUsed) > 0 && ((n == 0 && FreeCount(s.qtdUsed) == 0) || n > 0xffff_c000)
  }

  lemma {:induction false} FewFree(used: seq<bool>)
    ensures FreeCount(used) <= |used|
  {
    if used != [] {
      FewFree(used[1..]);
    }
  }

  /** The check misses exactly the empty transfer without a free descriptor and those so long that the sum wraps. */
  lemma {:induction false} OverlookedExactly(s: Sched, u: Urb, buf: nat, n: nat)
    requires Inv(s) && n < WORD
    ensures BulkAttempt(s, u, buf, n) == WritesNull <==> Overlooked(s, n)
  {
    FewFree(s.qtdUsed);
    hide FreeCount;
    AskedIsEnough(buf, n);
    ChunksCover(buf, n);
    hide Chunks;
    if n > 0xffff_c000 {
      assert Asked(n) == 0 && |Chunks(buf, n)| > QTD_NUM;
    }
  }

  /** A bulk or interrupt submit keeps the books exactly if nothing carries the request and nothing is overlooked. */
  lemma {:induction false} BulkKeepsExactly(s: Sched, u: Urb, buf: nat, n: nat)
    requires Inv(s) && u != 0 && 0 <= At(s.slot, u) <= TOP + 1 && n < WORD
    ensures Keeps(BulkAttempt(s, u, buf, n)) <==> At(s.hcpriv, u) == 0 && !Overlooked(s, n)
  {
    hide Inv;
    hide Submit;
    hide Overlooked;
    hide Asked;
    hide Chunks;
    OverlookedExactly(s, u, buf, n);
    if FreeCount(s.qhUsed) == 0 {
      SubmitKeepsExactly(s, u, 0, 0);
      NoQhSubmits(s, u);
    } else if !BulkAttempt(s, u, buf, n).WritesNull? {
      SubmitKeepsExactly(s, u, Asked(n), |Chunks(buf, n)|);
    }
  }

  lemma {:induction false} NoQhSubmits(s: Sched, u: Urb)
    requires FreeCount(s.qhUsed) == 0
    ensures Submit(s, u, 0, 0) == Unclaimed(s, u)
  {
  }

  // ----- control transfers -----

  /**
   A control submit keeps the books exactly if no queue head carries the request, and
   a served one has a buffer if and only if data are announced.
  */
  lemma {:induction false} ControlKeepsExactly(s: Sched, u: Urb, wLength: nat, buflen: nat)
    requires Inv(s) && u != 0 && 0 <= At(s.slot, u) <= TOP + 1
    ensures Keeps(ControlAttempt(s, u, wLength, buflen)) <==>
      At(s.hcpriv, u) == 0 && !(Served(s, ControlNeeds(buflen)) && (wLength > 0) != (buflen > 0))
  {
    hide Inv;
    var k := ControlNeeds(buflen);
    if Served(s, k) && wLength == 0 && buflen > 0 {
      if At(s.hcpriv, u) == 0 {
        DataDescriptorLost(s, u, buflen);
      } else {
        ControlCarriers(s, u, wLength, buflen);
      }
      InvParts(SubmitControl(s, u, wLength, buflen));
    } else {
      SubmitKeepsExactly(s, u, k, k);
      ControlIsSubmit(s, u, wLength, buflen);
    }
  }

  lemma {:induction false} InvParts(s: Sched)
    ensures Inv(s) ==> QtdsOk(s) && UrbsOk(s)
  {
  }

  lemma {:induction false} ControlCarriers(s: Sched, u: Urb, wLength: nat, buflen: nat)
    requires Inv(s) && u != 0 && At(s.hcpriv, u) != 0 && Served(s, ControlNeeds(buflen))
    ensures !UrbsOk(SubmitControl(s, u, wLength, buflen))
  {
    var q, s' := At(s.hcpriv, u), SubmitControl(s, u, wLength, buflen);
    NextQhIsFree(s);
    hide ControlChain;
    hide Marked;
    assert At(s'.urb, q) == u && At(s'.hcpriv, u) != q;
  }

  /** In the other cases a control submit is a submit that takes what it asks for. */
  lemma {:induction false} ControlIsSubmit(s: Sched, u: Urb, wLength: nat, buflen: nat)
    requires Inv(s) && !(Served(s, ControlNeeds(buflen)) && wLength == 0 && buflen > 0)
    ensures SubmitControl(s, u, wLength, buflen) == Submit(s, u, ControlNeeds(buflen), ControlNeeds(buflen))
  {
  }

  lemma {:induction false} LostDescriptor(s: Sched, s': Sched, q: Qh, a: seq<Qh>, b: seq<Qh>)
    requires QtdsOk(s) && FreeCount(s.qtdUsed) >= 3 && q !in a && q !in b
    requires s.ring + s.chain == a + b && s'.ring + s'.chain == a + [q] + b
    requires s'.qtdUsed == Marked(s.qtdUsed, 3)
    requires var l := Taken(s.qtdUsed, 3); |l| == 3 && TdsOf(s'.tds, q) == [l[0], l[2]]
    requires forall x :: x != q ==> TdsOf(s'.tds, x) == TdsOf(s.tds, x)
    ensures !QtdsOk(s')
  {
    var l := Taken(s.qtdUsed, 3);
    TakenAre(s.qtdUsed, 3);
    assert l[1..][0] == l[1] && l[1..][1] == l[2] && l[1..][1..][0] == l[2];
    assert [l[0], l[2]][1..] == [l[2]] && [l[2]][1..] == [];
    FlatGains(s.tds, s'.tds, a, q, b);
    assert Used(s'.qtdUsed, l[1]) && l[1] !in [l[0], l[2]] && !Used(s.qtdUsed, l[1]);
  }

  lemma {:induction false} DataDescriptorLost(s: Sched, u: Urb, buflen: nat)
    requires Inv(s) && Idle(s, u) && Served(s, ControlNeeds(buflen)) && buflen > 0
    ensures !QtdsOk(SubmitControl(s, u, 0, buflen))
  {
    var q, s1 := NextQh(s), AllocQh(Unclaimed(s, u));
    NextQhIsFree(s);
    TakenAre(s.qtdUsed, 3);
    LinkedWithout(s, s1.(qtdUsed := Marked(s.qtdUsed, 3), tds := s1.tds[q := ControlChain(s, 0, buflen)]), q, u);
  }

  lemma {:induction false} LinkedWithout(s: Sched, s2: Sched, q: Qh, u: Urb)
    requires ListsOk(s) && QtdsOk(s) && q !in s.ring && q !in s.chain && 0 <= At(s.slot, u) <= TOP + 1
    requires s2.ring == s.ring && s2.chain == s.chain && s2.slot == s.slot
    requires FreeCount(s.qtdUsed) >= 3 && s2.qtdUsed == Marked(s.qtdUsed, 3)
    requires var l := Taken(s.qtdUsed, 3); |l| == 3 && TdsOf(s2.tds, q) == [l[0], l[2]]
    requires forall x :: x != q ==> TdsOf(s2.tds, x) == TdsOf(s.tds, x)
    ensures !QtdsOk(Link(s2, q, u))
  {
    if At(s.slot, u) > 0 {
      WholeHas(s, At(s.slot, u) - 1);
    }
    var a, b := LinkPlace(s2, q, u);
    OneMore(s.ring, s.chain, a, q, b);
    LinkTds(s2, q, u);
    LostDescriptor(s, Link(s2, q, u), q, a, b);
  }

  lemma {:induction false} LinkTds(s: Sched, q: Qh, u: Urb)
    ensures Link(s, q, u).tds == s.tds && Link(s, q, u).qtdUsed == s.qtdUsed
  {
  }
}
