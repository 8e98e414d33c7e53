/**
 Runs from the start in which the host controller driver leaves its books in
 disorder, or returns a queue head that no answer of the controller covers.
*/
module EhciFindings {
  import opened Arith
  import opened Chains
  import opened EhciPools
  import opened EhciTransfers
  import opened EhciSpec
  import opened EhciSafety
  import opened EhciRuns
  import opened EhciNotes
  import opened EhciMachine

  const FIRST: Urb := 1
  const SECOND: Urb := 2

  /** A bulk transfer of one byte. */
  function OneByte(u: Urb): Event {
    SubmitData(u, PAGE, 1)
  }

  /** The controller is done with all descriptors. */
  function Quiet(td: map<Qtd, Td>): map<Qtd, Td> {
    map d | d in td :: td[d].(active := false)
  }

  ghost function Idled(m: Machine): Words {
    Words(Quiet(m.w.td), m.w.token)
  }

  ghost function Interrupted(m: Machine, scan: bool): Machine {
    var fin := FinOf(m.w, m.s.tds);
    var s' := Irq(m.s, scan, fin, m.bell.answered);
    Machine(s', m.w, if scan then BothNotes(m.s, m.o, m.w, fin) else m.o,
      AfterIrq(m.bell, m.s, s', Rings(m.s, scan, fin)))
  }

  ghost function Answered(m: Machine): Machine {
    if m.bell.rung then m.(bell := Bell(false, true, {}, m.bell.asked, m.bell.late)) else m
  }

  lemma {:induction false} Extended(ms: seq<Machine>, es: seq<Event>, e: Event, m: Machine)
      returns (ms': seq<Machine>, es': seq<Event>)
    requires Run(ms, es) && |ms| == |es| + 1 && Possible(ms[|es|], e) && Steps(ms[|es|], e, m)
    ensures ms' == ms + [m] && es' == es + [e] && Run(ms', es') && |ms'| == |es'| + 1
    decreases |es|
  {
    hide Steps;
    hide Possible;
    ms', es' := ms + [m], es + [e];
    if es != [] {
      var ms1, es1 := Extended(ms[1..], es[1..], e, m);
      assert ms'[1..] == ms1 && es'[1..] == es1;
    }
  }

  // ----- a transfer of the ring -----

  /** A request that a submit accepts, for a queue head and a descriptor that are there. */
  ghost predicate Welcome(m: Machine, u: Urb) {
    && !Refused(m, u) && Submittable(m.s, u) && At(m.s.slot, u) == 0
    && FreeCount(m.s.qhUsed) > 0 && FreeCount(m.s.qtdUsed) > 0
  }

  /** The machine after such a submit. */
  ghost predicate Carrying(m: Machine, m': Machine, u: Urb, q: Qh)
    requires FreeCount(m.s.qtdUsed) > 0
  {
    && MachineOk(m') && m'.s.ring == [q] + m.s.ring && m'.s.slot == m.s.slot && m'.bell == m.bell
    && m'.s.hcpriv == m.s.hcpriv[u := 0][u := q] && m'.s.removing == m.s.removing[q := 0]
    && m'.s.qtdUsed == Marked(m.s.qtdUsed, 1) && TokenAt(m'.w.token, q) == NO_TOKEN
    && m'.o == Given(m.o, u, FreshTds(Chunks(PAGE, 1)))
  }

  lemma {:induction false} FillExists(td: map<Qtd, Td>, l: seq<Qtd>, ts: seq<Td>) returns (td': map<Qtd, Td>)
    requires NoDup(l) && |l| == |ts|
    ensures Filled(td, td', l, ts)
  {
    if l == [] {
      td' := td;
    } else {
      var td1 := FillExists(td, l[1..], ts[1..]);
      td' := td1[l[0] := ts[0]];
      ContentsAgree(td1, td', l[1..]);
      assert forall d :: d in l <==> d == l[0] || d in l[1..];
      assert Contents(td', l) == [ts[0]] + ts[1..];
    }
  }

  /** A submit to the ring that gets what it asks for is a step. */
  lemma {:induction false} BulkSubmitted(m: Machine, u: Urb, n: nat, k: nat) returns (m': Machine)
    requires MachineOk(m) && !Refused(m, u) && Submittable(m.s, u) && At(m.s.slot, u) == 0 && FreeCount(m.s.qhUsed) > 0
    requires k == Asked(n) == |Chunks(PAGE, n)| <= FreeCount(m.s.qtdUsed) && PAGE + n < WORD
    ensures var e := SubmitData(u, PAGE, n); Possible(m, e) && Steps(m, e, m') && MachineOk(m')
    ensures Inv(m.s) && Idle(m.s, u) && m'.s == Submit(m.s, u, k, k) && m'.bell == m.bell
    ensures TokenAt(m'.w.token, NextQh(m.s)) == NO_TOKEN && m'.o == Given(m.o, u, FreshTds(Chunks(PAGE, n)))
  {
    hide MachineOk;
    hide Inv;
    hide Submit;
    hide Chunks;
    hide Filled;
    hide Submittable;
    hide Idle;
    TakenAre(m.s.qtdUsed, k);
    var g := FreshTds(Chunks(PAGE, n));
    var td := FillExists(m.w.td, Taken(m.s.qtdUsed, k), g);
    NotRefusedIsIdle(m, u);
    m' := Machine(Submit(m.s, u, k, k), Words(td, m.w.token[NextQh(m.s) := NO_TOKEN]), Given(m.o, u, g), m.bell);
    BooksOf(m);
    StepKeeps(m, SubmitData(u, PAGE, n), m');
  }

  lemma {:induction false} Submitted(m: Machine, u: Urb) returns (m': Machine)
    requires MachineOk(m) && Welcome(m, u)
    ensures Possible(m, OneByte(u)) && Steps(m, OneByte(u), m') && Carrying(m, m', u, NextQh(m.s))
  {
    hide MachineOk;
    hide Inv;
    hide Submit;
    hide Steps;
    hide Possible;
    assert |Chunks(PAGE, 1)| == 1;
    m' := BulkSubmitted(m, u, 1, 1);
    SubmitServed(m.s, u, 1, 1);
  }

  lemma {:induction false} BooksOf(m: Machine)
    requires MachineOk(m)
    ensures Inv(m.s)
  {
  }

  lemma {:induction false} QuietIs(td: map<Qtd, Td>, l: seq<Qtd>)
    ensures ControllerWrites(td, Quiet(td)) && !AnyActive(Quiet(td), l)
  {
    if l != [] {
      QuietIs(td, l[1..]);
    }
  }

  /** A request is submitted to the ring, and its transfer ends. */
  lemma {:induction false} Transfers(ms: seq<Machine>, es: seq<Event>, u: Urb)
      returns (ms': seq<Machine>, es': seq<Event>)
    requires Run(ms, es) && |ms| == |es| + 1 && MachineOk(ms[|es|]) && Welcome(ms[|es|], u)
    ensures Run(ms', es') && |ms'| == |es'| + 1 && ms'[0] == ms[0]
      && Carrying(ms[|es|], ms'[|es'|], u, NextQh(ms[|es|].s))
    ensures NextQh(ms[|es|].s) in FinOf(ms'[|es'|].w, ms'[|es'|].s.tds)
  {
    hide MachineOk;
    hide Run;
    hide Steps;
    hide Possible;
    hide Welcome;
    hide Carrying;
    hide FinOf;
    var m := ms[|es|];
    var m1 := Submitted(m, u);
    ms', es' := Extended(ms, es, OneByte(u), m1);
    Ends(m, m1, u);
    ms', es' := Extended(ms', es', Writes(Idled(m1)), m1.(w := Idled(m1)));
  }

  lemma {:induction false} Ends(m: Machine, m1: Machine, u: Urb)
    requires MachineOk(m) && Welcome(m, u) && Carrying(m, m1, u, NextQh(m.s))
    ensures var m2 := m1.(w := Idled(m1));
      && Possible(m1, Writes(Idled(m1))) && Steps(m1, Writes(Idled(m1)), m2) && Carrying(m, m2, u, NextQh(m.s))
      && NextQh(m.s) in FinOf(m2.w, m2.s.tds)
  {
    hide MachineOk;
    hide Inv;
    BooksOf(m);
    NextQhIsFree(m.s);
    QuietIs(m1.w.td, TdsOf(m1.s.tds, NextQh(m.s)));
    StepKeeps(m1, Writes(Idled(m1)), m1.(w := Idled(m1)));
  }

  // ----- a request that waits for the doorbell -----

  lemma {:induction false} StartWelcomes()
    ensures Welcome(Started(map[]), FIRST) && MachineOk(Started(map[])) && NextQh(Started(map[]).s) == 1
  {
    StartedOk(map[]);
    MarkCount(AllFree(QH_NUM), 0);
    MarkCount(AllFree(QTD_NUM), 0);
  }

  /** The first request is on the ring, and nothing else is carried. */
  ghost predicate Alone(s: Sched) {
    && Inv(s) && s.ring == [1] && s.slot == map[] && s.hcpriv == map[][FIRST := 0][FIRST := 1]
    && s.removing == map[][1 := 0] && FreeCount(AllFree(QTD_NUM)) > 0 && s.qtdUsed == Marked(AllFree(QTD_NUM), 1)
  }

  lemma {:induction false} FirstAlone(m: Machine)
    requires Welcome(Started(map[]), FIRST) && Carrying(Started(map[]), m, FIRST, 1)
    ensures MachineOk(m) && Alone(m.s) && m.o.code == map[][FIRST := -EBUSY] && m.bell == SILENT
    ensures At(m.s.hcpriv, SECOND) == 0
  {
    hide NotesOk;
    hide BellOk;
    hide Inv;
    hide Marked;
    hide Chunks;
  }

  /** The first request waits, and nothing else is carried. */
  ghost predicate Parked(s: Sched) {
    && Inv(s) && s.slot == map[] && s.ring == [] && (forall q :: At(s.removing, q) != 0 <==> q == 1)
    && At(s.hcpriv, FIRST) == 1 && At(s.hcpriv, SECOND) == 0 && (forall d :: Used(s.qtdUsed, d) ==> d == 1)
  }

  /** The first transfer has ended, and the bell is rung for its queue head. */
  ghost predicate Rung(m: Machine) {
    && MachineOk(m) && Parked(m.s) && !Refused(m, FIRST) && !Refused(m, SECOND) && m.bell.rung && !m.bell.answered
  }

  lemma {:induction false} RunOfNone(m: Machine)
    ensures Run([m], [])
  {
  }

  /** A scan takes no descriptor. */
  lemma {:induction false} ScanFrees(s: Sched, l: seq<Qh>, fin: set<Qh>)
    ensures forall d :: Used(Scan(s, l, fin).qtdUsed, d) ==> Used(s.qtdUsed, d)
    decreases |l|
  {
    if l != [] {
      FreedAre(s.qtdUsed, TdsOf(s.tds, l[0]));
      ScanFrees(Visit(s, l[0], fin), l[1..], fin);
    }
  }

  lemma {:induction false} BothFree(s: Sched, fin: set<Qh>)
    ensures forall d :: Used(ScanBoth(s, fin).qtdUsed, d) ==> Used(s.qtdUsed, d)
  {
    ScanFrees(s, s.ring, fin);
    ScanFrees(Scan(s, s.ring, fin), Scan(s, s.ring, fin).chain, fin);
  }

  lemma {:induction false} OnlyTaken()
    ensures FreeCount(AllFree(QTD_NUM)) > 0 && forall d :: Used(Marked(AllFree(QTD_NUM), 1), d) ==> d == 1
  {
    MarkCount(AllFree(QTD_NUM), 0);
    assert Marked(AllFree(QTD_NUM), 1) == Marked(AllFree(QTD_NUM)[0 := true], 0);
  }

  /** The queue head that waits is that of the first request. */
  lemma {:induction false} FirstWaits(s: Sched, s': Sched, us: seq<Urb>)
    requires s.hcpriv == map[][FIRST := 0][FIRST := 1] && EndsOnce(s, s', us)
    requires Inv(s') && At(s'.removing, 1) != 0
    ensures At(s'.hcpriv, FIRST) == 1 && At(s'.hcpriv, SECOND) == 0 && s'.slot == s.slot
  {
    assert Used(s'.qhUsed, 1);
    assert At(s'.hcpriv, At(s'.urb, 1)) == 1;
  }

  lemma {:induction false} FirstNotRefused(m: Machine)
    requires MachineOk(m) && At(m.s.hcpriv, FIRST) == 1 && At(m.s.removing, 1) != 0
    ensures !Refused(m, FIRST)
  {
    assert NoteOk(m.s, m.w.td, m.o, FIRST);
  }

  lemma {:induction false} NoneLeft(l: seq<Qh>)
    ensures l == [] || exists q :: q in l
  {
    if l != [] {
      var q := l[0];
      assert q in l;
    }
  }

  lemma {:induction false} ParksFirst(s: Sched, s': Sched, fin: set<Qh>)
    requires Alone(s) && 1 in fin && s' == Irq(s, true, fin, false)
    ensures Parked(s') && Rings(s, true, fin)
  {
    hide Inv;
    hide Irq;
    hide EndsOnce;
    hide ScanBoth;
    hide DoneByIrq;
    hide Marked;
    IrqKeeps(s, true, fin, false);
    IrqEnds(s, true, fin, false);
    assert forall q :: q in s.ring <==> q == 1;
    FirstWaits(s, s', DoneByIrq(s, true, fin, false));
    OnlyTaken();
    BothFree(s, fin);
    IrqIsScan(s, fin);
    NoneLeft(s'.ring);
  }

  lemma {:induction false} RingsFor(m: Machine)
    requires MachineOk(m) && Alone(m.s) && m.o.code == map[][FIRST := -EBUSY] && m.bell == SILENT
    requires At(m.s.hcpriv, SECOND) == 0 && 1 in FinOf(m.w, m.s.tds)
    ensures var m' := Interrupted(m, true);
      Possible(m, Interrupt(true)) && Steps(m, Interrupt(true), m') && Rung(m')
  {
    hide Alone;
    hide MachineOk;
    hide FinOf;
    hide Irq;
    hide BothNotes;
    hide Parked;
    hide Rings;
    hide Marked;
    hide Steps;
    hide Possible;
    var m' := Interrupted(m, true);
    InterruptSteps(m, true);
    StepKeeps(m, Interrupt(true), m');
    ParksFirst(m.s, m'.s, FinOf(m.w, m.s.tds));
    NeitherRefused(m, m');
  }

  lemma {:induction false} InterruptSteps(m: Machine, scan: bool)
    ensures Possible(m, Interrupt(scan)) && Steps(m, Interrupt(scan), Interrupted(m, scan))
  {
    hide FinOf;
    hide Irq;
    hide BothNotes;
    hide AfterIrq;
    hide Rings;
  }

  lemma {:induction false} NeitherRefused(m: Machine, m': Machine)
    requires MachineOk(m) && At(m.s.hcpriv, SECOND) == 0 && m.o.code == map[][FIRST := -EBUSY]
    requires m' == Interrupted(m, true) && MachineOk(m') && Parked(m'.s)
    ensures !Refused(m', FIRST) && !Refused(m', SECOND)
  {
    hide MachineOk;
    hide Irq;
    hide BothNotes;
    hide Parked;
    ParkedIs(m'.s);
    FirstNotRefused(m');
    NotTold(m, SECOND);
  }

  lemma {:induction false} ParkedIs(s: Sched)
    requires Parked(s)
    ensures At(s.removing, 1) != 0 && At(s.hcpriv, FIRST) == 1
  {
  }

  lemma {:induction false} IrqIsScan(s: Sched, fin: set<Qh>)
    ensures Irq(s, true, fin, false) == ScanBoth(s, fin)
  {
  }

  lemma {:induction false} FirstRings() returns (ms: seq<Machine>, es: seq<Event>)
    ensures Run(ms, es) && |ms| == |es| + 1 && ms[0] == Started(map[]) && Rung(ms[|es|])
  {
    hide MachineOk;
    hide Run;
    hide Steps;
    hide Possible;
    hide Welcome;
    hide Carrying;
    hide FinOf;
    hide Alone;
    hide Rung;
    StartWelcomes();
    var m0 := Started(map[]);
    RunOfNone(m0);
    ms, es := Transfers([m0], [], FIRST);
    var m := ms[|es|];
    FirstAlone(m);
    RingsFor(m);
    ms, es := Extended(ms, es, Interrupt(true), Interrupted(m, true));
  }

  /**
   A submit of a request that waits for the doorbell is accepted, as it is not
   marked busy any more, and breaks the books however many descriptors it takes.
  */
  lemma {:induction false} WaitingIsTakenAgain() returns (ms: seq<Machine>, es: seq<Event>)
    ensures Run(ms, es) && |ms| == |es| + 1 && ms[0] == Started(map[])
    ensures var m := ms[|es|];
      && MachineOk(m) && !Refused(m, FIRST) && At(m.s.removing, At(m.s.hcpriv, FIRST)) != 0
      && forall asked: nat, k: nat :: (asked <= FreeCount(m.s.qtdUsed) ==> k <= FreeCount(m.s.qtdUsed)) ==>
           !Inv(Submit(m.s, FIRST, asked, k))
  {
    hide MachineOk;
    hide Inv;
    hide Submit;
    ms, es := FirstRings();
    var m := ms[|es|];
    forall asked: nat, k: nat | asked <= FreeCount(m.s.qtdUsed) ==> k <= FreeCount(m.s.qtdUsed)
      ensures !Inv(Submit(m.s, FIRST, asked, k))
    {
      SubmitKeepsExactly(m.s, FIRST, asked, k);
    }
  }

  // ----- a queue head unlinked while a bell is pending -----

  lemma {:induction false} SecondWelcome(m: Machine)
    requires Rung(m)
    ensures Welcome(m, SECOND)
  {
    hide MachineOk;
    hide Submittable;
    SecondSubmittable(m.s);
    assert !m.s.qhUsed[1] by {
      SecondIsFree(m.s);
    }
    assert !m.s.qtdUsed[1] by {
      assert !Used(m.s.qtdUsed, 2);
    }
    MarkCount(m.s.qhUsed, 1);
    MarkCount(m.s.qtdUsed, 1);
  }

  lemma {:induction false} SecondSubmittable(s: Sched)
    requires Parked(s)
    ensures Submittable(s, SECOND) && |s.qhUsed| == QH_NUM && |s.qtdUsed| == QTD_NUM
  {
  }

  lemma {:induction false} SecondIsFree(s: Sched)
    requires Parked(s)
    ensures !Used(s.qhUsed, 2)
  {
    PeriodicHasSlot(s);
  }

  lemma {:induction false} PeriodicHasSlot(s: Sched)
    requires Inv(s)
    ensures forall q :: q in s.chain && Pool(q) ==> At(s.slot, At(s.urb, q)) != 0
  {
    hide Before;
  }

  /**
   The second request is submitted while the bell is pending for the first, and its
   transfer ends: the answer to that bell returns its queue head, too.
  */
  lemma {:induction false} FreedWithoutAnswer() returns (ms: seq<Machine>, es: seq<Event>, q: Qh)
    ensures Run(ms, es) && |ms| == |es| + 1 && ms[0] == Started(map[]) && es != []
    ensures FreedUncovered(ms[|es| - 1], ms[|es|], q)
  {
    hide MachineOk;
    hide Inv;
    hide Run;
    hide Irq;
    hide BothNotes;
    hide FinOf;
    hide Rung;
    hide Welcome;
    hide FreedUncovered;
    ms, es := FirstRings();
    SecondWelcome(ms[|es|]);
    RungBell(ms[|es|]);
    q := NextQh(ms[|es|].s);
    ms, es := Transfers(ms, es, SECOND);
    var m0 := ms[|es|];
    var m1 := Interrupted(m0, true);
    var m2 := Answered(m1);
    var m3 := Interrupted(m2, true);
    LateIsFreedUncovered(m0, true, m1, m2, true, m3, q);
    ms, es := Extended(ms, es, Interrupt(true), m1);
    ms, es := Extended(ms, es, Answer, m2);
    ms, es := Extended(ms, es, Interrupt(true), m3);
  }

  lemma {:induction false} RungBell(m: Machine)
    requires Rung(m)
    ensures MachineOk(m) && m.bell.rung
  {
  }

  // ----- an empty transfer without a free descriptor -----

  lemma {:induction false} AllAreFree(n: nat)
    ensures FreeCount(AllFree(n)) == n
  {
    if n > 0 {
      AllAreFree(n - 1);
      assert AllFree(n)[1..] == AllFree(n - 1);
    }
  }

  lemma {:induction false} AllTaken(used: seq<bool>, n: nat)
    requires n <= FreeCount(used)
    ensures FreeCount(Marked(used, n)) == FreeCount(used) - n
    decreases n
  {
    if n > 0 {
      TakesOne(used);
      AllTaken(used[FirstFree(used, 0) := true], n - 1);
    }
  }

  /** A transfer that takes every descriptor. */
  function Longest(u: Urb): Event {
    SubmitData(u, PAGE, QTD_NUM * CHUNK)
  }

  /** All descriptors are taken, some queue heads are not, and the second request may be submitted. */
  ghost predicate Exhausted(m: Machine) {
    && MachineOk(m) && !Refused(m, SECOND) && At(m.s.hcpriv, SECOND) == 0 && At(m.s.slot, SECOND) == 0
    && FreeCount(m.s.qtdUsed) == 0 && FreeCount(m.s.qhUsed) > 0
  }

  lemma {:induction false} LongestTakesAll() returns (m: Machine)
    ensures Possible(Started(map[]), Longest(FIRST)) && Steps(Started(map[]), Longest(FIRST), m) && Exhausted(m)
  {
    hide MachineOk;
    hide Inv;
    hide Submit;
    hide Possible;
    hide Steps;
    hide Chunks;
    hide Marked;
    hide FreeCount;
    var m0 := Started(map[]);
    AllAreFree(QTD_NUM);
    AllAreFree(QH_NUM);
    ChunksCover(PAGE, QTD_NUM * CHUNK);
    StartedOk(map[]);
    m := BulkSubmitted(m0, FIRST, QTD_NUM * CHUNK, QTD_NUM);
    SubmitServed(m0.s, FIRST, QTD_NUM, QTD_NUM);
    AllTaken(m0.s.qtdUsed, QTD_NUM);
    MarkCount(m0.s.qhUsed, NextQh(m0.s) - 1);
  }

  /**
   A transfer of the longest kind, and then an empty one: it passes the check for
   free descriptors though none is left, and is filled in through null.
  */
  lemma {:induction false} EmptyPassesCheck() returns (ms: seq<Machine>, es: seq<Event>)
    ensures Run(ms, es) && |ms| == |es| + 1 && ms[0] == Started(map[])
    ensures var m := ms[|es|];
      MachineOk(m) && !Refused(m, SECOND) && Submittable(m.s, SECOND) && BulkAttempt(m.s, SECOND, PAGE, 0) == WritesNull
  {
    hide MachineOk;
    hide Inv;
    hide Possible;
    hide Steps;
    hide BulkAttempt;
    var m := LongestTakesAll();
    RunOfNone(Started(map[]));
    ms, es := Extended([Started(map[])], [], Longest(FIRST), m);
    BooksOf(m);
    OverlookedExactly(m.s, SECOND, PAGE, 0);
  }
}
