/**
 Scans, the answer to the doorbell and kills, and what holds over every run of the
 driver.
*/
module EhciRuns {
  import opened Chains
  import opened EhciPools
  import opened EhciSpec
  import opened EhciSafety

  // ----- finishing one transfer -----

  /** A queue head of ring or chain, not one of the periodic heads. */
  ghost predicate OnList(s: Sched, q: Qh) {
    q in s.ring || (q in s.chain && Pool(q))
  }

  lemma {:induction false} OnListCarries(s: Sched, q: Qh)
    requires Inv(s) && OnList(s, q)
    ensures Pool(q) && Used(s.qhUsed, q) && At(s.urb, q) != 0 && At(s.hcpriv, At(s.urb, q)) == q
    ensures At(s.slot, At(s.urb, q)) == 0 <==> q in s.ring
    ensures At(s.removing, q) == 0
  {
    if q !in s.ring {
      assert BehindItsHead(s, q);
    }
  }

  lemma {:induction false} FinishFields(s: Sched, q: Qh)
    requires Inv(s) && OnList(s, q)
    ensures Dequeued(s, Finish(s, q), q)
    ensures q in s.ring ==>
      var s' := Finish(s, q);
      s'.qhUsed == s.qhUsed && s'.urb == s.urb && s'.hcpriv == s.hcpriv && s'.removing == s.removing[q := 1]
    ensures q !in s.ring ==> Dropped(s, Finish(s, q), q)
  {
    OnListCarries(s, q);
  }

  lemma {:induction false} FinishKeeps(s: Sched, q: Qh)
    requires Inv(s) && OnList(s, q)
    ensures Inv(Finish(s, q))
  {
    OnListCarries(s, q);
    FinishFields(s, q);
    if q in s.ring {
      ParkKeeps(s, Finish(s, q), q);
    } else {
      DropKeeps(s, Finish(s, q), q);
    }
  }

  /** What finishing q does to the lists. */
  lemma {:induction false} FinishLists(s: Sched, q: Qh)
    requires Inv(s) && OnList(s, q)
    ensures var s' := Finish(s, q);
      && (forall x :: x in s'.ring <==> x in s.ring && x != q)
      && (forall x :: x in s'.chain <==> x in s.chain && x != q)
      && (forall x :: At(s'.removing, x) != 0 <==> At(s.removing, x) != 0 || (x == q && q in s.ring))
  {
    OnListCarries(s, q);
    FinishFields(s, q);
    NoDupSplit(s.ring, s.chain);
    WithoutElems(s.ring, q);
    WithoutElems(s.chain, q);
    Wrote(s.removing, s.removing[q := 1], q, 1);
    Wrote(s.removing, s.removing[q := 0], q, 0);
  }

  // ----- scanning -----

  lemma {:induction false} HeadsCarryNothing(s: Sched, q: Qh)
    requires Inv(s) && !Pool(q)
    ensures At(s.urb, q) == 0
  {
    assert !Used(s.qhUsed, q);
  }

  /** One visit of a scan. */
  ghost function Visit(s: Sched, q: Qh, fin: set<Qh>): Sched {
    if At(s.urb, q) != 0 && q in fin then Finish(s, q) else s
  }

  lemma {:induction false} VisitKeeps(s: Sched, q: Qh, fin: set<Qh>)
    requires Inv(s) && (q in s.ring || q in s.chain)
    ensures var s', gone := Visit(s, q, fin), Pool(q) && q in fin;
      && Inv(s')
      && (forall x :: x in s'.ring <==> x in s.ring && !(x == q && gone))
      && (forall x :: x in s'.chain <==> x in s.chain && !(x == q && gone))
      && (forall x :: At(s'.removing, x) != 0 <==> At(s.removing, x) != 0 || (x == q && gone && q in s.ring))
  {
    if Pool(q) {
      OnListCarries(s, q);
      if q in fin {
        FinishKeeps(s, q);
        FinishLists(s, q);
      }
    } else {
      HeadsCarryNothing(s, q);
    }
  }

  /**
   A scan over queue heads that are linked keeps the books; it unlinks exactly the
   finished ones among them, and leaves those of the ring waiting for the doorbell.
  */
  lemma {:induction false} ScanKeeps(s: Sched, l: seq<Qh>, fin: set<Qh>)
    requires Inv(s) && NoDup(l) && forall q :: q in l ==> q in s.ring || q in s.chain
    ensures var s' := Scan(s, l, fin);
      && Inv(s')
      && (forall x :: x in s'.ring <==> x in s.ring && !(x in l && x in fin && Pool(x)))
      && (forall x :: x in s'.chain <==> x in s.chain && !(x in l && x in fin && Pool(x)))
      && (forall x :: At(s'.removing, x) != 0 <==>
         At(s.removing, x) != 0 || (x in l && x in fin && Pool(x) && x in s.ring))
    decreases |l|
  {
    hide Inv;
    if l != [] {
      VisitKeeps(s, l[0], fin);
      assert forall q :: q in l <==> q == l[0] || q in l[1..];
      ScanKeeps(Visit(s, l[0], fin), l[1..], fin);
    }
  }

  lemma {:induction false} ScanBothKeeps(s: Sched, fin: set<Qh>)
    requires Inv(s)
    ensures var s' := ScanBoth(s, fin);
      && Inv(s')
      && (forall x :: x in s'.ring <==> x in s.ring && x !in fin)
      && (forall x :: x in s'.chain <==> x in s.chain && !(x in fin && Pool(x)))
      && (forall x :: At(s'.removing, x) != 0 <==> At(s.removing, x) != 0 || (x in s.ring && x in fin))
  {
    NoDupSplit(s.ring, s.chain);
    ScanKeeps(s, s.ring, fin);
    var s1 := Scan(s, s.ring, fin);
    NoDupSplit(s1.ring, s1.chain);
    ScanKeeps(s1, s1.chain, fin);
  }

  // ----- the answer to the doorbell -----

  lemma {:induction false} AdvanceOne(s: Sched, i: nat, s1: Sched)
    requires Inv(s) && i < QH_NUM && s.qhUsed[i] && At(s.removing, i + 1) != 0 && s1 == Complete(s, At(s.urb, i + 1))
    ensures Inv(s1) && s1.ring == s.ring && s1.chain == s.chain
    ensures forall q :: At(s1.removing, q) == if q == i + 1 then 0 else At(s.removing, q)
  {
    CompleteKeeps(s, i + 1);
    Wrote(s.removing, s1.removing, i + 1, 0);
  }

  lemma {:induction false} NotWaiting(s: Sched, i: nat)
    requires Inv(s) && i < QH_NUM
    ensures |s.qhUsed| == QH_NUM && (!s.qhUsed[i] ==> At(s.removing, i + 1) == 0)
  {
    assert At(s.removing, i + 1) != 0 ==> Used(s.qhUsed, i + 1);
  }

  lemma {:induction false} NoneFurther(s: Sched, i: nat)
    requires Inv(s) && i >= QH_NUM
    ensures Advance(s, i) == s && forall q :: At(s.removing, q) != 0 ==> q <= i
  {
    assert forall q :: At(s.removing, q) != 0 ==> Used(s.qhUsed, q);
  }

  /** The loop over the pool returns every waiting queue head from i on, and touches no other. */
  lemma {:induction false} AdvanceKeeps(s: Sched, i: nat)
    requires Inv(s)
    ensures var s' := Advance(s, i);
      && Inv(s') && s'.ring == s.ring && s'.chain == s.chain
      && (forall q :: At(s'.removing, q) != 0 <==> At(s.removing, q) != 0 && q <= i)
    decreases QH_NUM - i
  {
    hide Inv;
    hide Complete;
    if i < QH_NUM {
      NotWaiting(s, i);
      if s.qhUsed[i] && At(s.removing, i + 1) != 0 {
        var s1 := Complete(s, At(s.urb, i + 1));
        AdvanceOne(s, i, s1);
        AdvanceKeeps(s1, i + 1);
      } else {
        AdvanceKeeps(s, i + 1);
      }
    } else {
      NoneFurther(s, i);
    }
  }

  // ----- taking a request back -----

  lemma {:induction false} KillFields(s: Sched, u: Urb)
    requires Inv(s) && At(s.hcpriv, u) != 0 && At(s.removing, At(s.hcpriv, u)) == 0
    ensures var q := At(s.hcpriv, u); OnList(s, q) && Dropped(s, Kill(s, u), q)
  {
    var q := At(s.hcpriv, u);
    assert At(s.urb, q) == u && Used(s.qhUsed, q);
    assert OnList(s, q);
    OnListCarries(s, q);
    assert s.urb[q := 0][q := 0] == s.urb[q := 0];
  }

  /** Killing a request whose queue head is linked keeps the books and frees it. */
  lemma {:induction false} KillKeeps(s: Sched, u: Urb)
    requires Inv(s) && (At(s.hcpriv, u) != 0 ==> At(s.removing, At(s.hcpriv, u)) == 0)
    ensures var s' := Kill(s, u); Inv(s') && At(s'.hcpriv, u) == 0
    ensures var s' := Kill(s, u); forall x :: At(s'.removing, x) != 0 <==> At(s.removing, x) != 0
  {
    if At(s.hcpriv, u) != 0 {
      var q := At(s.hcpriv, u);
      KillFields(s, u);
      OnListCarries(s, q);
      DropKeeps(s, Kill(s, u), q);
      Wrote(s.removing, s.removing[q := 0], q, 0);
      Wrote(s.hcpriv, Kill(s, u).hcpriv, u, 0);
    }
  }

  // ----- the interrupt handler -----

  ghost function Waiting(s: Sched): set<Qh> {
    set q | 1 <= q <= QH_NUM && At(s.removing, q) != 0
  }

  /** The interrupt handler: scans if a transfer ended, then the loop over the pool if the doorbell was answered. */
  ghost function Irq(s: Sched, scan: bool, fin: set<Qh>, answered: bool): Sched {
    var s1 := if scan then ScanBoth(s, fin) else s;
    if answered then Advance(s1, 0) else s1
  }

  /** Whether a scan unlinks a queue head of the ring, and so rings the doorbell. */
  ghost predicate Rings(s: Sched, scan: bool, fin: set<Qh>) {
    scan && exists q :: q in s.ring && q in fin
  }

  lemma {:induction false} IrqKeeps(s: Sched, scan: bool, fin: set<Qh>, answered: bool)
    requires Inv(s)
    ensures var s' := Irq(s, scan, fin, answered);
      && Inv(s')
      && (forall q :: q in s'.ring <==> q in s.ring && !(scan && q in fin))
      && (forall q :: q in s'.chain <==> q in s.chain && !(scan && q in fin && Pool(q)))
      && (forall q :: At(s'.removing, q) != 0 <==>
           !answered && (At(s.removing, q) != 0 || (scan && q in s.ring && q in fin)))
  {
    var s1 := if scan then ScanBoth(s, fin) else s;
    if scan {
      ScanBothKeeps(s, fin);
    }
    if answered {
      AdvanceKeeps(s1, 0);
      assert forall q :: At(s1.removing, q) != 0 ==> Pool(q);
    }
  }

  lemma {:induction false} SubmitWaiting(s: Sched, u: Urb, asked: nat, k: nat)
    requires Inv(s) && (asked <= FreeCount(s.qtdUsed) ==> k <= FreeCount(s.qtdUsed))
    ensures forall q :: At(Submit(s, u, asked, k).removing, q) == At(s.removing, q)
  {
    hide Inv;
    if FreeCount(s.qhUsed) > 0 {
      NextQhIsFree(s);
      Wrote(s.removing, Submit(s, u, asked, k).removing, NextQh(s), 0);
    }
  }

  /** The heads from i down to 0. */
  function HeadsDown(i: int): seq<Qh>
    decreases i + 1
  {
    if i < 0 then [] else [Head(i)] + HeadsDown(i - 1)
  }

  /** After the initialisation: nothing is taken, and the periodic heads are chained. */
  ghost function Initial(slot: map<Urb, int>): Sched {
    Sched(AllFree(QH_NUM), AllFree(QTD_NUM), [], HeadsDown(TOP - 1), map[], map[], map[], map[], slot)
  }

  lemma {:induction false} HeadDownAt(i: nat, k: nat)
    requires k <= i
    ensures |HeadsDown(i)| == i + 1 && HeadsDown(i)[k] == Head(i - k)
    decreases i
  {
    if i == 0 {
      assert HeadsDown(0) == [Head(0)] + HeadsDown(-1);
    } else {
      HeadDownAt(i - 1, if k > 0 then k - 1 else 0);
    }
  }

  /** Ten queue heads and thirty descriptors are free, and ten static heads are chained behind the eleventh. */
  lemma {:induction false} InitialSizes(slot: map<Urb, int>, k: nat)
    requires k < 10
    ensures var s := Initial(slot);
      && |s.qhUsed| == 10 && |s.qtdUsed| == 30 && (forall u :: u in s.qhUsed || u in s.qtdUsed ==> !u)
      && s.ring == [] && |s.chain| == 10 && s.chain[k] == Head(9 - k)
  {
    hide HeadsDown;
    HeadDownAt(9, k);
  }

  lemma {:induction false} HeadsDownAre(i: int)
    ensures NoDup(HeadsDown(i)) && forall q :: q in HeadsDown(i) <==> exists j :: 0 <= j <= i && q == Head(j)
    decreases i + 1
  {
    if i >= 0 {
      HeadsDownAre(i - 1);
      assert HeadsDown(i)[1..] == HeadsDown(i - 1);
      forall q ensures q in HeadsDown(i) <==> exists j :: 0 <= j <= i && q == Head(j) {
        if exists j :: 0 <= j <= i && q == Head(j) {
          var j :| 0 <= j <= i && q == Head(j);
          assert j == i || (0 <= j <= i - 1 && q == Head(j));
        }
      }
    }
  }

  lemma {:induction false} FlatOfNothing(l: seq<Qh>)
    ensures Flat(map[], l) == []
  {
    if l != [] {
      FlatOfNothing(l[1..]);
    }
  }

  lemma {:induction false} HeadBefore(n: int, i: nat)
    requires i < n
    ensures Before(HeadsDown(n), Head(i + 1), Head(i))
    decreases n
  {
    hide HeadsDown;
    var l, rest := HeadsDown(n), HeadsDown(n - 1);
    FirstHead(n);
    FirstHead(n - 1);
    if i < n - 1 {
      HeadBefore(n - 1, i);
    }
  }

  lemma {:induction false} FirstHead(n: nat)
    ensures HeadsDown(n) != [] && HeadsDown(n)[0] == Head(n) && HeadsDown(n)[1..] == HeadsDown(n - 1)
      && Head(n) in HeadsDown(n)
  {
  }

  lemma {:induction false} HeadsInChain()
    ensures forall i :: 0 <= i < TOP ==> Head(i) in HeadsDown(TOP - 1)
    ensures forall q :: q in HeadsDown(TOP - 1) ==> !Pool(q) && exists i :: 0 <= i < TOP && q == Head(i)
  {
    HeadsDownAre(TOP - 1);
    forall i | 0 <= i < TOP ensures Head(i) in HeadsDown(TOP - 1) {
      assert exists j :: 0 <= j <= TOP - 1 && Head(i) == Head(j);
    }
  }

  lemma {:induction false} InitialOrder()
    ensures HeadsInOrder([Head(TOP)] + HeadsDown(TOP - 1))
  {
    assert [Head(TOP)] + HeadsDown(TOP - 1) == HeadsDown(TOP);
    hide Before;
    forall i | 0 <= i < TOP ensures Before(HeadsDown(TOP), Head(i + 1), Head(i)) {
      HeadBefore(TOP, i);
    }
  }

  lemma {:induction false} InitialLists(slot: map<Urb, int>)
    ensures ListsOk(Initial(slot))
  {
    var s := Initial(slot);
    HeadsDownAre(TOP - 1);
    HeadsInChain();
    InitialOrder();
    hide HeadsDown;
    hide HeadsInOrder;
    assert s.ring + s.chain == HeadsDown(TOP - 1);
  }

  lemma {:induction false} InitialOk(slot: map<Urb, int>)
    ensures Inv(Initial(slot))
  {
    var s := Initial(slot);
    InitialLists(slot);
    HeadsInChain();
    FlatOfNothing(s.ring + s.chain);
    hide ListsOk;
    hide HeadsDown;
  }

  // ----- completions -----

  ghost function DoneByScan(s: Sched, l: seq<Qh>, fin: set<Qh>): seq<Urb>
    decreases |l|
  {
    if l == [] then []
    else
      var u := At(s.urb, l[0]);
      (if u != 0 && l[0] in fin && At(s.slot, u) != 0 then [u] else []) + DoneByScan(Visit(s, l[0], fin), l[1..], fin)
  }

  ghost function DoneByAdvance(s: Sched, i: nat): seq<Urb>
    decreases QH_NUM - i
  {
    if i >= QH_NUM || i >= |s.qhUsed| then []
    else if s.qhUsed[i] && At(s.removing, i + 1) != 0 then
      [At(s.urb, i + 1)] + DoneByAdvance(Complete(s, At(s.urb, i + 1)), i + 1)
    else DoneByAdvance(s, i + 1)
  }

  ghost function DoneByBoth(s: Sched, fin: set<Qh>): seq<Urb> {
    var s0 := Scan(s, s.ring, fin);
    DoneByScan(s, s.ring, fin) + DoneByScan(s0, s0.chain, fin)
  }

  /** The requests an interrupt completes, in order. */
  ghost function DoneByIrq(s: Sched, scan: bool, fin: set<Qh>, answered: bool): seq<Urb> {
    var s1 := if scan then ScanBoth(s, fin) else s;
    (if scan then DoneByBoth(s, fin) else []) + if answered then DoneByAdvance(s1, 0) else []
  }

  /** Each request of the list was carried before and is not after, and no other one comes to be carried. */
  ghost predicate EndsOnce(s: Sched, s': Sched, us: seq<Urb>) {
    && NoDup(us) && s'.slot == s.slot
    && (forall u :: u in us ==> At(s.hcpriv, u) != 0 && At(s'.hcpriv, u) == 0)
    && (forall u :: At(s.hcpriv, u) == 0 ==> At(s'.hcpriv, u) == 0)
  }

  lemma {:induction false} EndsThen(s: Sched, s1: Sched, s2: Sched, us: seq<Urb>, vs: seq<Urb>)
    requires EndsOnce(s, s1, us) && EndsOnce(s1, s2, vs)
    ensures EndsOnce(s, s2, us + vs)
  {
    NoDupSplit(us, vs);
  }

  lemma {:induction false} VisitEnds(s: Sched, q: Qh, fin: set<Qh>)
    requires Inv(s) && (q in s.ring || q in s.chain)
    ensures var u := At(s.urb, q);
      EndsOnce(s, Visit(s, q, fin), if u != 0 && q in fin && At(s.slot, u) != 0 then [u] else [])
  {
    var u := At(s.urb, q);
    if u != 0 && q in fin {
      assert Pool(q) by {
        if !Pool(q) {
          HeadsCarryNothing(s, q);
        }
      }
      OnListCarries(s, q);
      FinishFields(s, q);
      if q !in s.ring {
        Wrote(s.hcpriv, Finish(s, q).hcpriv, u, 0);
        assert [u][1..] == [];
        assert EndsOnce(s, Finish(s, q), [u]);
      } else {
        assert EndsOnce(s, Finish(s, q), []);
      }
    }
  }

  lemma {:induction false} ScanEnds(s: Sched, l: seq<Qh>, fin: set<Qh>)
    requires Inv(s) && NoDup(l) && forall q :: q in l ==> q in s.ring || q in s.chain
    ensures EndsOnce(s, Scan(s, l, fin), DoneByScan(s, l, fin))
    decreases |l|
  {
    if l != [] {
      var s1 := Visit(s, l[0], fin);
      VisitEnds(s, l[0], fin);
      VisitKeeps(s, l[0], fin);
      assert forall q :: q in l <==> q == l[0] || q in l[1..];
      ScanEnds(s1, l[1..], fin);
      var u := At(s.urb, l[0]);
      EndsThen(s, s1, Scan(s, l, fin),
        if u != 0 && l[0] in fin && At(s.slot, u) != 0 then [u] else [], DoneByScan(s1, l[1..], fin));
    }
  }

  lemma {:induction false} CompleteEnds(s: Sched, q: Qh)
    requires Inv(s) && At(s.removing, q) != 0
    ensures Inv(Complete(s, At(s.urb, q))) && EndsOnce(s, Complete(s, At(s.urb, q)), [At(s.urb, q)])
  {
    var u := At(s.urb, q);
    assert Used(s.qhUsed, q);
    CompleteKeeps(s, q);
    Wrote(s.hcpriv, Complete(s, u).hcpriv, u, 0);
    assert [u][1..] == [];
  }

  lemma {:induction false} AdvanceEnds(s: Sched, i: nat)
    requires Inv(s)
    ensures EndsOnce(s, Advance(s, i), DoneByAdvance(s, i))
    decreases QH_NUM - i
  {
    hide Inv;
    hide Complete;
    if i < QH_NUM {
      NotWaiting(s, i);
      if s.qhUsed[i] && At(s.removing, i + 1) != 0 {
        var u := At(s.urb, i + 1);
        CompleteEnds(s, i + 1);
        AdvanceEnds(Complete(s, u), i + 1);
        EndsThen(s, Complete(s, u), Advance(s, i), [u], DoneByAdvance(Complete(s, u), i + 1));
      } else {
        AdvanceEnds(s, i + 1);
      }
    }
  }

  lemma {:induction false} ScanBothEnds(s: Sched, fin: set<Qh>)
    requires Inv(s)
    ensures EndsOnce(s, ScanBoth(s, fin), DoneByBoth(s, fin))
  {
    var s0 := Scan(s, s.ring, fin);
    NoDupSplit(s.ring, s.chain);
    ScanEnds(s, s.ring, fin);
    ScanKeeps(s, s.ring, fin);
    NoDupSplit(s0.ring, s0.chain);
    ScanEnds(s0, s0.chain, fin);
    EndsThen(s, s0, ScanBoth(s, fin), DoneByScan(s, s.ring, fin), DoneByScan(s0, s0.chain, fin));
  }

  /** An interrupt completes each request at most once, and only requests that were in flight. */
  lemma {:induction false} IrqEnds(s: Sched, scan: bool, fin: set<Qh>, answered: bool)
    requires Inv(s)
    ensures EndsOnce(s, Irq(s, scan, fin, answered), DoneByIrq(s, scan, fin, answered))
  {
    var s1, us := if scan then ScanBoth(s, fin) else s, if scan then DoneByBoth(s, fin) else [];
    if scan {
      ScanBothKeeps(s, fin);
      ScanBothEnds(s, fin);
    }
    if answered {
      AdvanceEnds(s1, 0);
      EndsThen(s, s1, Advance(s1, 0), us, DoneByAdvance(s1, 0));
    } else {
      assert us + [] == us;
    }
  }

  lemma {:induction false} SubmitOthers(s: Sched, v: Urb, asked: nat, k: nat, u: Urb)
    requires (asked <= FreeCount(s.qtdUsed) ==> k <= FreeCount(s.qtdUsed)) && u != v
    ensures At(Submit(s, v, asked, k).hcpriv, u) == At(s.hcpriv, u)
  {
  }
}
