/**
 What becomes of a submitted request, read off the words in memory: what its
 descriptors hold, when an interrupt takes it to be over, and what its owner is told.
*/
module EhciOutcomes {
  import opened Chains
  import opened EhciPools
  import opened EhciTransfers
  import opened EhciSpec
  import opened EhciSafety
  import opened EhciRuns
  import opened EhciNotes
  import opened EhciMachine

  // ----- the descriptors of a new transfer -----

  /** What the descriptors hold that are chained at the queue head of u. */
  ghost function ChainOf(m: Machine, u: Urb): seq<Td> {
    Contents(m.w.td, TdsOf(m.s.tds, At(m.s.hcpriv, u)))
  }

  lemma {:induction false} ChainedAsGiven(m: Machine, e: Event, m': Machine)
    requires MachineOk(m) && (e.SubmitData? || e.SubmitSetup?) && Possible(m, e) && Steps(m, e, m')
    requires !Refused(m, e.u) && Served(m.s, AskedBy(e))
    ensures ChainOf(m', e.u) == FreshTds(ChunksOf(e)) && At(m'.s.hcpriv, e.u) == NextQh(m.s)
  {
    hide Inv;
    hide NotesOk;
    hide BellOk;
    hide Submit;
    hide Contents;
    if e.SubmitSetup? {
      ControlNeedsChunks(e.setup, e.buf, e.wLength, e.buflen);
    }
    NotRefusedIsIdle(m, e.u);
    SubmitServed(m.s, e.u, AskedBy(e), |ChunksOf(e)|);
  }

  /**
   A bulk or interrupt submit that is served chains descriptors at its queue head that
   cover the buffer, with every byte in the controller's reach and only the last
   interrupting.
  */
  lemma {:induction false} DataIsChained(m: Machine, u: Urb, buf: nat, n: nat, m': Machine)
    requires var e := SubmitData(u, buf, n);
      MachineOk(m) && Possible(m, e) && Steps(m, e, m') && !Refused(m, u) && Served(m.s, AskedBy(e))
    ensures At(m'.s.hcpriv, u) != 0 && Carries(ChainOf(m', u), buf, n)
  {
    hide MachineOk;
    hide Steps;
    hide Possible;
    ChainedAsGiven(m, SubmitData(u, buf, n), m');
    NextIsQh(m);
    ChunksCarry(buf, n);
  }

  lemma {:induction false} NextIsQh(m: Machine)
    requires MachineOk(m) && FreeCount(m.s.qhUsed) > 0
    ensures NextQh(m.s) != 0
  {
    NextQhIsFree(m.s);
  }

  /** A control submit that is served chains the stages of the transfer. */
  lemma {:induction false} ControlIsChained(m: Machine, u: Urb, setup: nat, buf: nat, wLength: nat, buflen: nat,
                                            m': Machine)
    requires var e := SubmitSetup(u, setup, buf, wLength, buflen);
      MachineOk(m) && Possible(m, e) && Steps(m, e, m') && !Refused(m, u) && Served(m.s, AskedBy(e))
    ensures At(m'.s.hcpriv, u) != 0 && ControlStages(ChainOf(m', u), setup, buf, wLength, buflen)
  {
    hide MachineOk;
    hide Steps;
    hide Possible;
    ChainedAsGiven(m, SubmitSetup(u, setup, buf, wLength, buflen), m');
    NextIsQh(m);
    ControlCarries(setup, buf, wLength, buflen);
  }

  // ----- when a transfer is over -----

  /** The controller may still be at work for q: its overlay shows no error, and it or a descriptor is active. */
  ghost predicate AtWork(s: Sched, w: Words, q: Qh) {
    var t := TokenAt(w.token, q);
    && !t.xactErr && !t.babble && !t.dbErr && !t.halted
    && (t.active || exists d :: d in TdsOf(s.tds, q) && TdAt(w.td, d).active)
  }

  lemma {:induction false} ActiveChain(td: map<Qtd, Td>, l: seq<Qtd>, cs: seq<Chunk>)
    requires Contents(td, l) == FreshTds(cs) && cs != []
    ensures exists d :: d in l && TdAt(td, d).active
  {
    assert Contents(td, l)[0] == FreshTd(cs[0]);
    assert l[0] in l && TdAt(td, l[0]) == FreshTd(cs[0]);
  }

  lemma {:induction false} SomeChunks(e: Event)
    requires e.SubmitData? || e.SubmitSetup?
    ensures ChunksOf(e) != []
  {
    if e.SubmitData? {
      ChunksCover(e.buf, e.n);
    }
  }

  lemma {:induction false} NewToken(m: Machine, e: Event, m': Machine)
    requires (e.SubmitData? || e.SubmitSetup?) && Possible(m, e) && Steps(m, e, m') && !Refused(m, e.u)
    requires FreeCount(m.s.qhUsed) > 0 && EnoughFree(m.s, e)
    ensures TokenAt(m'.w.token, NextQh(m.s)) == NO_TOKEN
  {
    hide Submit;
    hide Filled;
    hide FirstFree;
  }

  /**
   A submit that is served leaves the request at work, whatever its queue head was left
   with by the one before: no interrupt ends it until the controller has worked on it.
  */
  lemma {:induction false} NewIsAtWork(m: Machine, e: Event, m': Machine)
    requires MachineOk(m) && (e.SubmitData? || e.SubmitSetup?) && Possible(m, e) && Steps(m, e, m')
    requires !Refused(m, e.u) && Served(m.s, AskedBy(e))
    ensures AtWork(m'.s, m'.w, At(m'.s.hcpriv, e.u))
  {
    hide MachineOk;
    hide Steps;
    hide Possible;
    hide Contents;
    ChainedAsGiven(m, e, m');
    SomeChunks(e);
    EnoughAsked(m, e);
    NewToken(m, e, m');
    ActiveChain(m'.w.td, TdsOf(m'.s.tds, NextQh(m.s)), ChunksOf(e));
  }

  lemma {:induction false} EnoughAsked(m: Machine, e: Event)
    requires (e.SubmitData? || e.SubmitSetup?) && Possible(m, e) && !Refused(m, e.u)
    ensures EnoughFree(m.s, e)
  {
    if e.SubmitSetup? {
      ControlNeedsChunks(e.setup, e.buf, e.wLength, e.buflen);
    }
  }

  lemma {:induction false} NewPlace(m: Machine, e: Event, m': Machine)
    requires MachineOk(m) && (e.SubmitData? || e.SubmitSetup?) && Possible(m, e) && Steps(m, e, m')
    requires !Refused(m, e.u) && Served(m.s, AskedBy(e)) && EnoughFree(m.s, e)
    ensures if At(m.s.slot, e.u) == 0 then m'.s.ring == [NextQh(m.s)] + m.s.ring && m'.s.chain == m.s.chain
      else m'.s.ring == m.s.ring && Whole(m'.s) == AddBehind(Whole(m.s), Head(At(m.s.slot, e.u) - 1), NextQh(m.s))
  {
    hide Inv;
    hide NotesOk;
    hide BellOk;
    hide Submit;
    hide Filled;
    hide AddBehind;
    hide Whole;
    NotRefusedIsIdle(m, e.u);
    SubmitServed(m.s, e.u, AskedBy(e), |ChunksOf(e)|);
  }

  lemma {:induction false} HeadIsThere(m: Machine, e: Event)
    requires MachineOk(m) && (e.SubmitData? || e.SubmitSetup?) && Possible(m, e) && !Refused(m, e.u)
    ensures At(m.s.slot, e.u) != 0 ==> Head(At(m.s.slot, e.u) - 1) in Whole(m.s)
  {
    if At(m.s.slot, e.u) != 0 {
      WholeHas(m.s, At(m.s.slot, e.u) - 1);
    }
  }

  /**
   It is put first on the ring of bulk and control requests, or right behind the static head of
   its period, and the other queue heads stay as they are.
  */
  lemma {:induction false} NewIsBehindItsHead(m: Machine, e: Event, m': Machine)
    returns (a: seq<Qh>, b: seq<Qh>)
    requires MachineOk(m) && (e.SubmitData? || e.SubmitSetup?) && Possible(m, e) && Steps(m, e, m')
    requires !Refused(m, e.u) && Served(m.s, AskedBy(e))
    ensures var q, slot := At(m'.s.hcpriv, e.u), At(m.s.slot, e.u);
      if slot == 0 then m'.s.ring == [q] + m.s.ring && m'.s.chain == m.s.chain
      else
        && m'.s.ring == m.s.ring
        && [Head(TOP)] + m.s.chain == a + [Head(slot - 1)] + b
        && [Head(TOP)] + m'.s.chain == a + [Head(slot - 1), q] + b
  {
    hide MachineOk;
    hide Steps;
    hide Possible;
    hide AddBehind;
    ChainedAsGiven(m, e, m');
    EnoughAsked(m, e);
    NewPlace(m, e, m');
    HeadIsThere(m, e);
    a, b := [], [];
    if At(m.s.slot, e.u) != 0 {
      a, b := AddBehindSplits(Whole(m.s), Head(At(m.s.slot, e.u) - 1), NextQh(m.s));
    }
  }

  lemma {:induction false} SomeActive(td: map<Qtd, Td>, l: seq<Qtd>)
    ensures AnyActive(td, l) <==> exists d :: d in l && TdAt(td, d).active
  {
    if l != [] {
      SomeActive(td, l[1..]);
      assert forall d :: d in l <==> d == l[0] || d in l[1..];
      assert l[0] in l;
    }
  }

  lemma {:induction false} FinIsNotAtWork(s: Sched, w: Words, q: Qh)
    requires Pool(q)
    ensures q in FinOf(w, s.tds) <==> !AtWork(s, w, q)
  {
    SomeActive(w.td, TdsOf(s.tds, q));
  }

  /** What the owner of a request is told: 0, -EPERM or -EIO. */
  function CodeOf(t: Token): int {
    if t.babble || t.halted then -1 else if t.xactErr || t.dbErr then -5 else 0
  }

  /** Only q carries u. */
  ghost predicate CarriedBy(s: Sched, u: Urb, q: Qh) {
    u != 0 && forall x :: At(s.urb, x) == u ==> x == q
  }

  lemma {:induction false} FinishUrbs(s: Sched, x: Qh, q: Qh)
    ensures At(Finish(s, x).urb, q) == At(s.urb, q) || At(Finish(s, x).urb, q) == 0
  {
  }

  lemma {:induction false} StillCarriedBy(s: Sched, u: Urb, q: Qh, x: Qh, fin: set<Qh>)
    requires CarriedBy(s, u, q)
    ensures CarriedBy(Visit(s, x, fin), u, q)
  {
    hide Finish;
    forall y | At(Visit(s, x, fin).urb, y) == u ensures y == q {
      FinishUrbs(s, x, y);
    }
  }

  /** A scan without q tells the owner of u nothing. */
  lemma {:induction false} ToldOnlyAt(s: Sched, o: Notes, l: seq<Qh>, w: Words, fin: set<Qh>, u: Urb, q: Qh)
    requires CarriedBy(s, u, q) && (q !in l || q !in fin)
    ensures At(ScanNotes(s, o, l, w, fin).code, u) == At(o.code, u)
    decreases |l|
  {
    hide CarriedBy;
    if l != [] {
      StillCarriedBy(s, u, q, l[0], fin);
      NotToldAt(s, o, l[0], w, fin, u, q);
      assert q in l[1..] ==> q in l;
      ToldOnlyAt(Visit(s, l[0], fin), Told(s, o, l[0], w, fin), l[1..], w, fin, u, q);
    }
  }

  lemma {:induction false} NotToldAt(s: Sched, o: Notes, x: Qh, w: Words, fin: set<Qh>, u: Urb, q: Qh)
    requires CarriedBy(s, u, q) && (x != q || q !in fin)
    ensures At(Told(s, o, x, w, fin).code, u) == At(o.code, u)
  {
  }

  lemma {:induction false} VisitAside(s: Sched, x: Qh, fin: set<Qh>, q: Qh)
    requires x != q
    ensures At(Visit(s, x, fin).urb, q) == At(s.urb, q) || At(Visit(s, x, fin).urb, q) == 0
  {
    FinishUrbs(s, x, q);
  }

  /** A scan over q, which is over, tells its owner the code. */
  lemma {:induction false} ToldAt(s: Sched, o: Notes, l: seq<Qh>, w: Words, fin: set<Qh>, u: Urb, q: Qh)
    requires Inv(s) && NoDup(l) && (forall x :: x in l ==> x in s.ring || x in s.chain)
    requires q in l && q in fin && Pool(q) && At(s.urb, q) == u && CarriedBy(s, u, q)
    ensures At(ScanNotes(s, o, l, w, fin).code, u) == CodeOf(TokenAt(w.token, q))
    decreases |l|
  {
    hide Inv;
    hide CarriedBy;
    var s1, o1 := Visit(s, l[0], fin), Told(s, o, l[0], w, fin);
    StillCarriedBy(s, u, q, l[0], fin);
    VisitKeeps(s, l[0], fin);
    assert forall x :: x in l <==> x == l[0] || x in l[1..];
    if l[0] == q {
      CodeIsTold(s, o, w, fin, u, q);
      ToldOnlyAt(s1, o1, l[1..], w, fin, u, q);
    } else {
      StillCarries(s, l[0], fin, q);
      ToldAt(s1, o1, l[1..], w, fin, u, q);
    }
  }

  lemma {:induction false} CodeIsTold(s: Sched, o: Notes, w: Words, fin: set<Qh>, u: Urb, q: Qh)
    requires At(s.urb, q) == u && q in fin && CarriedBy(s, u, q)
    ensures At(Told(s, o, q, w, fin).code, u) == CodeOf(TokenAt(w.token, q))
  {
  }

  lemma {:induction false} StillCarries(s: Sched, x: Qh, fin: set<Qh>, q: Qh)
    requires Inv(s) && (x in s.ring || x in s.chain) && x != q && OnList(s, q)
    ensures At(Visit(s, x, fin).urb, q) == At(s.urb, q)
  {
    VisitKeeps(s, x, fin);
    VisitAside(s, x, fin, q);
    OnListCarries(s, q);
    OnListCarries(Visit(s, x, fin), q);
  }

  lemma {:induction false} Linked(s: Sched, u: Urb)
    requires Inv(s) && At(s.hcpriv, u) != 0 && At(s.removing, At(s.hcpriv, u)) == 0
    ensures var q := At(s.hcpriv, u);
      OnList(s, q) && Pool(q) && At(s.urb, q) == u && CarriedBy(s, u, q) && (q in s.ring <==> q !in s.chain)
  {
    var q := At(s.hcpriv, u);
    assert At(s.urb, q) == u && Used(s.qhUsed, q);
    NoDupSplit(s.ring, s.chain);
  }

  /** The notes of a scan of both lists. */
  lemma {:induction false} CodeAfterScan(s: Sched, o: Notes, w: Words, fin: set<Qh>, u: Urb)
    requires Inv(s) && At(s.hcpriv, u) != 0 && At(s.removing, At(s.hcpriv, u)) == 0
    ensures var q := At(s.hcpriv, u);
      At(BothNotes(s, o, w, fin).code, u) == if q in fin then CodeOf(TokenAt(w.token, q)) else At(o.code, u)
  {
    hide Inv;
    hide CarriedBy;
    var q, s1, o1 := At(s.hcpriv, u), Scan(s, s.ring, fin), ScanNotes(s, o, s.ring, w, fin);
    Linked(s, u);
    EhciNotes.ListsApart(s);
    ScanKeeps(s, s.ring, fin);
    EhciNotes.ListsApart(s1);
    CarriedThrough(s, s.ring, fin, u, q);
    if q in fin && q in s.ring {
      ToldAt(s, o, s.ring, w, fin, u, q);
      ToldOnlyAt(s1, o1, s1.chain, w, fin, u, q);
    } else {
      ToldOnlyAt(s, o, s.ring, w, fin, u, q);
      if q in fin {
        StillOn(s, s.ring, fin, q);
        ToldAt(s1, o1, s1.chain, w, fin, u, q);
      } else {
        ToldOnlyAt(s1, o1, s1.chain, w, fin, u, q);
      }
    }
  }

  lemma {:induction false} CarriedThrough(s: Sched, l: seq<Qh>, fin: set<Qh>, u: Urb, q: Qh)
    requires CarriedBy(s, u, q)
    ensures CarriedBy(Scan(s, l, fin), u, q)
    decreases |l|
  {
    hide CarriedBy;
    if l != [] {
      StillCarriedBy(s, u, q, l[0], fin);
      CarriedThrough(Visit(s, l[0], fin), l[1..], fin, u, q);
    }
  }

  lemma {:induction false} StillOn(s: Sched, l: seq<Qh>, fin: set<Qh>, q: Qh)
    requires Inv(s) && NoDup(l) && (forall x :: x in l ==> x in s.ring || x in s.chain) && OnList(s, q) && q !in l
    ensures At(Scan(s, l, fin).urb, q) == At(s.urb, q)
    decreases |l|
  {
    hide Inv;
    if l != [] {
      VisitKeeps(s, l[0], fin);
      assert forall x :: x in l <==> x == l[0] || x in l[1..];
      StillCarries(s, l[0], fin, q);
      StillOn(Visit(s, l[0], fin), l[1..], fin, q);
    }
  }

  /**
   An interrupt with a scan leaves a linked request linked exactly if the controller
   may still be at work for it.  Its owner is then told nothing; and else -EPERM for
   babble or a halt, -EIO for one of the two other errors, and 0 exactly without any.
  */
  lemma {:induction false} InterruptEndsExactly(m: Machine, m': Machine, u: Urb)
    requires MachineOk(m) && Steps(m, Interrupt(true), m')
    requires At(m.s.hcpriv, u) != 0 && At(m.s.removing, At(m.s.hcpriv, u)) == 0
    ensures var q := At(m.s.hcpriv, u);
      (q in m'.s.ring || q in m'.s.chain) <==> AtWork(m.s, m.w, q)
    ensures var q, t := At(m.s.hcpriv, u), TokenAt(m.w.token, At(m.s.hcpriv, u));
      At(m'.o.code, u) ==
        if AtWork(m.s, m.w, q) then -16
        else if t.babble || t.halted then -1
        else if t.xactErr || t.dbErr then -5
        else 0
  {
    hide NotesOk;
    hide BellOk;
    hide Irq;
    hide BothNotes;
    hide FinOf;
    hide AtWork;
    hide Inv;
    var q, fin := At(m.s.hcpriv, u), FinOf(m.w, m.s.tds);
    Linked(m.s, u);
    FinIsNotAtWork(m.s, m.w, q);
    IrqKeeps(m.s, true, fin, m.bell.answered);
    CodeAfterScan(m.s, m.o, m.w, fin, u);
    BusyWhileLinked(m, u);
  }

  lemma {:induction false} BusyWhileLinked(m: Machine, u: Urb)
    requires MachineOk(m) && At(m.s.hcpriv, u) != 0 && At(m.s.removing, At(m.s.hcpriv, u)) == 0
    ensures At(m.o.code, u) == -16
  {
    assert NoteOk(m.s, m.w.td, m.o, u);
  }

  lemma {:induction false} ScanUrbs(s: Sched, l: seq<Qh>, fin: set<Qh>, x: Qh)
    ensures At(Scan(s, l, fin).urb, x) == At(s.urb, x) || At(Scan(s, l, fin).urb, x) == 0
    decreases |l|
  {
    hide Finish;
    if l != [] {
      FinishUrbs(s, l[0], x);
      ScanUrbs(Visit(s, l[0], fin), l[1..], fin, x);
    }
  }

  lemma {:induction false} AdvanceUrbs(s: Sched, i: nat, x: Qh)
    ensures At(Advance(s, i).urb, x) == At(s.urb, x) || At(Advance(s, i).urb, x) == 0
    decreases QH_NUM - i
  {
    if i < QH_NUM && i < |s.qhUsed| {
      CompleteUrbs(s, At(s.urb, i + 1), x);
      hide Complete;
      AdvanceUrbs(if s.qhUsed[i] && At(s.removing, i + 1) != 0 then Complete(s, At(s.urb, i + 1)) else s, i + 1, x);
    }
  }

  lemma {:induction false} CompleteUrbs(s: Sched, u: Urb, x: Qh)
    ensures At(Complete(s, u).urb, x) == At(s.urb, x) || At(Complete(s, u).urb, x) == 0
  {
  }

  lemma {:induction false} IrqUrbs(s: Sched, scan: bool, fin: set<Qh>, answered: bool, x: Qh)
    ensures var s' := Irq(s, scan, fin, answered); At(s'.urb, x) == At(s.urb, x) || At(s'.urb, x) == 0
  {
    hide Scan;
    hide Advance;
    if scan {
      ScanUrbs(s, s.ring, fin, x);
      ScanUrbs(Scan(s, s.ring, fin), Scan(s, s.ring, fin).chain, fin, x);
    }
    AdvanceUrbs(if scan then ScanBoth(s, fin) else s, 0, x);
  }

  /** A request is carried by no other queue head after an interrupt. */
  lemma {:induction false} CarriedByNoOther(s: Sched, s': Sched, scan: bool, fin: set<Qh>, answered: bool, u: Urb)
    requires Inv(s) && At(s.hcpriv, u) != 0 && s' == Irq(s, scan, fin, answered) && Inv(s')
    ensures At(s'.hcpriv, u) == 0 || (At(s'.hcpriv, u) == At(s.hcpriv, u) && Used(s'.qhUsed, At(s.hcpriv, u)))
  {
    hide Irq;
    var p := At(s'.hcpriv, u);
    IrqUrbs(s, scan, fin, answered, p);
    if p != 0 {
      assert At(s'.urb, p) == u && At(s.hcpriv, At(s.urb, p)) == p;
    }
  }

  /**
   A transfer that is over leaves its queue head free and its request carried by
   nothing with the same interrupt, if it is one of the periodic schedule or an answer
   to the doorbell is read; and else its queue head waits for the bell, which is rung.
  */
  lemma {:induction false} OverIsFreed(m: Machine, m': Machine, u: Urb)
    requires MachineOk(m) && Steps(m, Interrupt(true), m')
    requires At(m.s.hcpriv, u) != 0 && At(m.s.removing, At(m.s.hcpriv, u)) == 0 && !AtWork(m.s, m.w, At(m.s.hcpriv, u))
    ensures var q := At(m.s.hcpriv, u);
      if At(m.s.slot, u) != 0 || m.bell.answered then !Used(m'.s.qhUsed, q) && At(m'.s.hcpriv, u) == 0
      else At(m'.s.removing, q) != 0 && m'.bell.rung
  {
    hide NotesOk;
    hide BellOk;
    hide Irq;
    hide BothNotes;
    hide FinOf;
    hide AtWork;
    hide Inv;
    var q, fin := At(m.s.hcpriv, u), FinOf(m.w, m.s.tds);
    Linked(m.s, u);
    OnListCarries(m.s, q);
    FinIsNotAtWork(m.s, m.w, q);
    IrqKeeps(m.s, true, fin, m.bell.answered);
    IrqUses(m.s, true, fin, m.bell.answered);
    CarriedByNoOther(m.s, m'.s, true, fin, m.bell.answered, u);
  }
}
