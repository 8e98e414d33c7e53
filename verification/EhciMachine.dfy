/**
 The driver and the controller over whole runs: requests are submitted and taken
 back, the controller works on descriptors and answers the doorbell, and
 interrupts scan the schedules.
*/
module EhciMachine {
  import opened Arith
  import opened Chains
  import opened EhciPools
  import opened EhciTransfers
  import opened EhciSpec
  import opened EhciSafety
  import opened EhciRuns
  import opened EhciNotes

  /**
   The doorbell: `rung` is the bit by which the driver asks the controller to
   advance, `answered` the controller's answer that is not yet read.  `asked` and
   `safe` are the waiting queue heads that the pending bell and the unread answer
   cover: those unlinked when it was rung.  `late` are the waiting ones that were
   unlinked while a bell was pending, which rings it no second time.
  */
  datatype Bell = Bell(rung: bool, answered: bool, asked: set<Qh>, safe: set<Qh>, late: set<Qh>)

  const SILENT := Bell(false, false, {}, {}, {})

  datatype Machine = Machine(s: Sched, w: Words, o: Notes, bell: Bell)

  datatype Event =
    | SubmitData(u: Urb, buf: nat, n: nat)
    | SubmitSetup(u: Urb, setup: nat, buf: nat, wLength: nat, buflen: nat)
    | KillUrb(u: Urb, timed: bool)
    | Writes(w: Words)
    | Answer
    | Interrupt(scan: bool)

  /** The chunks that a submit asks for, and the number of descriptors that is checked for before. */
  function ChunksOf(e: Event): seq<Chunk>
    requires e.SubmitData? || e.SubmitSetup?
  {
    if e.SubmitData? then Chunks(e.buf, e.n) else ControlChunks(e.setup, e.buf, e.wLength, e.buflen)
  }

  function AskedBy(e: Event): nat
    requires e.SubmitData? || e.SubmitSetup?
  {
    if e.SubmitData? then Asked(e.n) else ControlNeeds(e.buflen)
  }

  ghost predicate Refused(m: Machine, u: Urb) {
    At(m.o.code, u) == -EBUSY
  }

  /**
   What the callers and the allocation check allow: a request that is not refused is
   not waiting for the doorbell; there are as many free descriptors as the transfer
   takes if as many as asked for are free; announced data has a buffer; only
   requests whose queue head is linked are killed; and the controller only works on
   descriptors.
  */
  ghost predicate Possible(m: Machine, e: Event) {
    match e
    case SubmitData(u, buf, n) =>
      Refused(m, u) || (Submittable(m.s, u) && EnoughFree(m.s, e) && n < WORD && buf + n <= WORD)
    case SubmitSetup(u, setup, buf, wLength, buflen) =>
      Refused(m, u)
        || (Submittable(m.s, u) && (wLength > 0 <==> buflen > 0) && setup + 8 <= WORD && buf + buflen <= WORD)
    case KillUrb(u, timed) => At(m.s.hcpriv, u) != 0 ==> At(m.s.removing, At(m.s.hcpriv, u)) == 0
    case Writes(w) => ControllerWrites(m.w.td, w.td)
    case Answer => true
    case Interrupt(scan) => true
  }

  ghost predicate Submittable(s: Sched, u: Urb) {
    u != 0 && 0 <= At(s.slot, u) <= TOP + 1 && (At(s.hcpriv, u) != 0 ==> At(s.removing, At(s.hcpriv, u)) == 0)
  }

  ghost predicate EnoughFree(s: Sched, e: Event)
    requires e.SubmitData? || e.SubmitSetup?
  {
    AskedBy(e) <= FreeCount(s.qtdUsed) ==> |ChunksOf(e)| <= FreeCount(s.qtdUsed)
  }

  // ----- steps -----

  ghost predicate Steps(m: Machine, e: Event, m': Machine)
    requires Possible(m, e)
  {
    match e
    case SubmitData(u, buf, n) => if Refused(m, u) then m' == m else SubmitStep(m, e, m')
    case SubmitSetup(u, setup, buf, wLength, buflen) => if Refused(m, u) then m' == m else SubmitStep(m, e, m')
    case KillUrb(u, timed) =>
      m' == if At(m.s.hcpriv, u) == 0 then m else m.(s := Kill(m.s, u), o := TakenBack(m.o, u, timed))
    case Writes(w) => m' == m.(w := w)
    case Answer => m' == if m.bell.rung then m.(bell := Bell(false, true, {}, m.bell.asked, m.bell.late)) else m
    case Interrupt(scan) =>
      var fin := FinOf(m.w, m.s.tds);
      && m'.s == Irq(m.s, scan, fin, m.bell.answered) && m'.w == m.w
      && m'.o == (if scan then BothNotes(m.s, m.o, m.w, fin) else m.o)
      && m'.bell == AfterIrq(m.bell, m.s, m'.s, Rings(m.s, scan, fin))
  }

  /** The interrupt handler is run. */
  ghost predicate Interrupts(m: Machine, scan: bool, m': Machine) {
    Steps(m, Interrupt(scan), m')
  }

  /** A submit that is not refused: it is served, or the request is left marked as busy. */
  ghost predicate SubmitStep(m: Machine, e: Event, m': Machine)
    requires (e.SubmitData? || e.SubmitSetup?) && EnoughFree(m.s, e)
  {
    var g := FreshTds(ChunksOf(e));
    && m'.s == Submit(m.s, e.u, AskedBy(e), |g|) && m'.bell == m.bell
    && m'.w.token == (if FreeCount(m.s.qhUsed) > 0 then m.w.token[NextQh(m.s) := NO_TOKEN] else m.w.token)
    && if Served(m.s, AskedBy(e)) then
        Filled(m.w.td, m'.w.td, Taken(m.s.qtdUsed, |g|), g) && m'.o == Given(m.o, e.u, g)
      else
        (forall d :: TdAt(m'.w.td, d) == TdAt(m.w.td, d)) && m'.o == Busy(m.o, e.u)
  }

  /**
   The doorbell after an interrupt: an answer is read and everything that waits goes;
   else what was unlinked now is late if a bell is pending, and if not, the bell is
   rung for it.
  */
  ghost function AfterIrq(b: Bell, s: Sched, s': Sched, rings: bool): Bell {
    var now := Waiting(s') - Waiting(s);
    if b.answered then Bell(b.rung || rings, false, {}, {}, {})
    else if b.rung then Bell(true, false, b.asked, {}, b.late + now)
    else Bell(rings, false, Waiting(s'), {}, {})
  }

  // ----- what every step keeps -----

  /**
   What waits is what the pending bell or the unread answer covers, and what is late;
   nothing waits without either.
  */
  ghost predicate BellOk(s: Sched, b: Bell) {
    && !(b.rung && b.answered)
    && (if b.rung then Waiting(s) == b.asked + b.late && b.asked !! b.late
        else if b.answered then Waiting(s) == b.safe + b.late && b.safe !! b.late
        else Waiting(s) == {} && b.late == {})
  }

  ghost predicate MachineOk(m: Machine) {
    Inv(m.s) && NotesOk(m.s, m.w.td, m.o) && BellOk(m.s, m.bell)
  }

  lemma {:induction false} FreshCounted(cs: seq<Chunk>)
    ensures Counted(FreshTds(cs))
  {
  }

  /** A linked request is refused; so one that is not, and does not wait, is idle. */
  lemma {:induction false} NotRefusedIsIdle(m: Machine, u: Urb)
    requires MachineOk(m) && !Refused(m, u) && Submittable(m.s, u)
    ensures Idle(m.s, u)
  {
    assert NoteOk(m.s, m.w.td, m.o, u);
  }

  lemma {:induction false} ControlNeedsChunks(setup: nat, buf: nat, wLength: nat, buflen: nat)
    requires wLength > 0 <==> buflen > 0
    ensures |ControlChunks(setup, buf, wLength, buflen)| == ControlNeeds(buflen)
  {
  }

  lemma {:induction false} SubmitKeeps(m: Machine, e: Event, m': Machine)
    requires MachineOk(m) && (e.SubmitData? || e.SubmitSetup?) && Idle(m.s, e.u) && EnoughFree(m.s, e)
      && SubmitStep(m, e, m')
    ensures MachineOk(m')
  {
    var g := FreshTds(ChunksOf(e));
    SubmitKeepsExactly(m.s, e.u, AskedBy(e), |g|);
    SubmitWaiting(m.s, e.u, AskedBy(e), |g|);
    FreshCounted(ChunksOf(e));
    hide Inv;
    hide Submit;
    hide NotesOk;
    if Served(m.s, AskedBy(e)) {
      ServedNotes(m.s, m.w.td, m'.w.td, m.o, e.u, AskedBy(e), g);
    } else {
      RefusedNotes(m.s, m.w.td, m.o, e.u, AskedBy(e), |g|);
      SameTds(m'.s, m.w.td, m'.w.td, m'.o);
    }
    SameWaiting(m.s, m'.s);
  }

  lemma {:induction false} SameTds(s: Sched, td: map<Qtd, Td>, td': map<Qtd, Td>, o: Notes)
    requires NotesOk(s, td, o) && forall d :: TdAt(td', d) == TdAt(td, d)
    ensures NotesOk(s, td', o)
  {
    forall u ensures NoteOk(s, td', o, u) {
      assert NoteOk(s, td, o, u);
      ContentsAgree(td, td', TdsOf(s.tds, At(s.hcpriv, u)));
    }
  }

  lemma {:induction false} SameWaiting(s: Sched, s': Sched)
    requires forall q :: At(s'.removing, q) != 0 <==> At(s.removing, q) != 0
    ensures Waiting(s') == Waiting(s)
  {
  }

  lemma {:induction false} IrqBell(m: Machine, scan: bool, fin: set<Qh>, s': Sched)
    requires Inv(m.s) && BellOk(m.s, m.bell) && s' == Irq(m.s, scan, fin, m.bell.answered)
    ensures BellOk(s', AfterIrq(m.bell, m.s, s', Rings(m.s, scan, fin)))
  {
    hide Inv;
    hide Irq;
    IrqKeeps(m.s, scan, fin, m.bell.answered);
    RingPool(m.s);
    if m.bell.answered {
      assert Waiting(s') == {};
    } else {
      assert Waiting(m.s) <= Waiting(s');
      if !Rings(m.s, scan, fin) {
        assert Waiting(s') == Waiting(m.s);
      }
    }
  }

  lemma {:induction false} RingPool(s: Sched)
    requires Inv(s)
    ensures forall q :: q in s.ring ==> Pool(q) && At(s.removing, q) == 0
    ensures forall q :: At(s.removing, q) != 0 ==> Pool(q)
  {
  }

  lemma {:induction false} IrqStep(m: Machine, scan: bool, m': Machine)
    requires MachineOk(m) && Steps(m, Interrupt(scan), m')
    ensures MachineOk(m')
  {
    var fin := FinOf(m.w, m.s.tds);
    IrqKeeps(m.s, scan, fin, m.bell.answered);
    IrqBell(m, scan, fin, m'.s);
    var s1 := if scan then ScanBoth(m.s, fin) else m.s;
    if scan {
      ScanBothKeeps(m.s, fin);
      BothNotesKeep(m.s, m.o, m.w, fin);
    }
    hide Inv;
    hide NotesOk;
    hide BellOk;
    if m.bell.answered {
      AdvanceNotes(s1, m.w.td, m'.o, 0);
    }
  }

  lemma {:induction false} StepKeeps(m: Machine, e: Event, m': Machine)
    requires MachineOk(m) && Possible(m, e) && Steps(m, e, m')
    ensures MachineOk(m')
  {
    match e
    case SubmitData(u, buf, n) =>
      if !Refused(m, u) {
        NotRefusedIsIdle(m, u);
        SubmitKeeps(m, e, m');
      }
    case SubmitSetup(u, setup, buf, wLength, buflen) =>
      if !Refused(m, u) {
        ControlNeedsChunks(setup, buf, wLength, buflen);
        NotRefusedIsIdle(m, u);
        SubmitKeeps(m, e, m');
      }
    case KillUrb(u, timed) => KillStep(m, u, timed, m');
    case Writes(w) => ControllerKeeps(m.s, m.w.td, w.td, m.o);
    case Answer =>
    case Interrupt(scan) => IrqStep(m, scan, m');
  }

  lemma {:induction false} KillStep(m: Machine, u: Urb, timed: bool, m': Machine)
    requires MachineOk(m) && Possible(m, KillUrb(u, timed)) && Steps(m, KillUrb(u, timed), m')
    ensures MachineOk(m')
  {
    if At(m.s.hcpriv, u) != 0 {
      KillKeeps(m.s, u);
      KillNotes(m.s, m.w.td, m.o, u, timed);
      SameWaiting(m.s, m'.s);
    }
  }

  // ----- runs -----

  ghost predicate Run(ms: seq<Machine>, es: seq<Event>)
    decreases |es|
  {
    && |ms| == |es| + 1
    && (es != [] ==> Possible(ms[0], es[0]) && Steps(ms[0], es[0], ms[1]) && Run(ms[1..], es[1..]))
  }

  lemma {:induction false} RunKeeps(ms: seq<Machine>, es: seq<Event>, i: nat)
    requires Run(ms, es) && MachineOk(ms[0]) && i < |ms|
    ensures MachineOk(ms[i])
    decreases |es|
  {
    hide MachineOk;
    hide Steps;
    hide Possible;
    if i > 0 {
      StepKeeps(ms[0], es[0], ms[1]);
      RunKeeps(ms[1..], es[1..], i - 1);
    }
  }

  lemma {:induction false} StepAt(ms: seq<Machine>, es: seq<Event>, i: nat)
    requires Run(ms, es) && i < |es|
    ensures Possible(ms[i], es[i]) && Steps(ms[i], es[i], ms[i + 1])
    decreases |es|
  {
    hide Steps;
    hide Possible;
    if i > 0 {
      StepAt(ms[1..], es[1..], i - 1);
    }
  }

  /** After the initialisation nothing is noted and the bell is silent. */
  ghost function Started(slot: map<Urb, int>): Machine {
    Machine(Initial(slot), Words(map[], map[]), Notes(map[], map[], map[], map[]), SILENT)
  }

  lemma {:induction false} StartedOk(slot: map<Urb, int>)
    ensures MachineOk(Started(slot))
  {
    InitialOk(slot);
    hide Inv;
    assert Waiting(Initial(slot)) == {};
    forall u ensures NoteOk(Initial(slot), map[], Notes(map[], map[], map[], map[]), u) {
    }
  }

  // ----- completions -----

  /** The requests an event completes. */
  ghost function Completes(m: Machine, e: Event): seq<Urb> {
    if e.Interrupt? then DoneByIrq(m.s, e.scan, FinOf(m.w, m.s.tds), m.bell.answered) else []
  }

  ghost predicate Submits(e: Event, u: Urb) {
    (e.SubmitData? || e.SubmitSetup?) && e.u == u
  }

  lemma {:induction false} CompletedIsNoted(m: Machine, scan: bool, m': Machine, u: Urb)
    requires MachineOk(m) && Steps(m, Interrupt(scan), m') && u in Completes(m, Interrupt(scan))
    ensures u in m'.o.final
  {
    hide MachineOk;
    hide Inv;
    hide NotesOk;
    hide Irq;
    hide FinOf;
    hide DoneByIrq;
    hide ScanBoth;
    hide BothNotes;
    var fin := FinOf(m.w, m.s.tds);
    ScannedOk(m, scan, fin);
    DoneInNotes(m.s, m.o, m.w, fin, scan, m.bell.answered, u);
  }

  lemma {:induction false} DoneInNotes(s: Sched, o: Notes, w: Words, fin: set<Qh>, scan: bool, answered: bool, u: Urb)
    requires var s1, o1 := if scan then ScanBoth(s, fin) else s, if scan then BothNotes(s, o, w, fin) else o;
      Inv(s1) && NotesOk(s1, w.td, o1)
    requires u in DoneByIrq(s, scan, fin, answered)
    ensures u in (if scan then BothNotes(s, o, w, fin) else o).final
  {
    hide Inv;
    hide NotesOk;
    hide ScanBoth;
    hide BothNotes;
    hide DoneByBoth;
    hide DoneByAdvance;
    if scan && u in DoneByBoth(s, fin) {
      BothDoneNoted(s, o, w, fin, u);
    } else if scan {
      AdvancedIsNoted(ScanBoth(s, fin), w.td, BothNotes(s, o, w, fin), 0, u);
    } else {
      AdvancedIsNoted(s, w.td, o, 0, u);
    }
  }

  lemma {:induction false} ScannedOk(m: Machine, scan: bool, fin: set<Qh>)
    requires MachineOk(m) && fin == FinOf(m.w, m.s.tds)
    ensures var s1, o1 := if scan then ScanBoth(m.s, fin) else m.s, if scan then BothNotes(m.s, m.o, m.w, fin) else m.o;
      Inv(s1) && NotesOk(s1, m.w.td, o1)
  {
    hide Inv;
    hide NotesOk;
    if scan {
      ScanBothKeeps(m.s, fin);
      BothNotesKeep(m.s, m.o, m.w, fin);
    }
  }

  /** What a completed request reports. */
  ghost predicate Honest(o: Notes, u: Urb) {
    && u in o.given && u in o.final && Worked(o.given[u], o.final[u])
    && At(o.actual, u) == TotalOf(o.final[u]) - LeftOf(o.final[u])
    && (At(o.code, u) == 0 ==> NoneActive(o.final[u]))
  }

  /**
   In every run, a request that completes reports the bytes its own descriptors
   reported when its transfer was found over, and no error only if the controller
   was done with all of them.
  */
  lemma {:induction false} CompletionIsHonest(ms: seq<Machine>, es: seq<Event>, i: nat, u: Urb)
    requires Run(ms, es) && MachineOk(ms[0]) && i < |es| && u in Completes(ms[i], es[i])
    ensures Honest(ms[i + 1].o, u)
  {
    hide *;
    RunLength(ms, es);
    OnlyInterruptsComplete(ms[i], es[i], u);
    RunKeeps(ms, es, i);
    RunKeeps(ms, es, i + 1);
    StepAt(ms, es, i);
    CompletedIsNoted(ms[i], es[i].scan, ms[i + 1], u);
    NotedIsHonest(ms[i + 1], u);
  }

  lemma {:induction false} RunLength(ms: seq<Machine>, es: seq<Event>)
    requires Run(ms, es)
    ensures |ms| == |es| + 1
  {
  }

  lemma {:induction false} OnlyInterruptsComplete(m: Machine, e: Event, u: Urb)
    requires u in Completes(m, e)
    ensures e.Interrupt?
  {
  }

  lemma {:induction false} NotedIsHonest(m: Machine, u: Urb)
    requires MachineOk(m) && u in m.o.final
    ensures Honest(m.o, u)
  {
    assert NoteOk(m.s, m.w.td, m.o, u);
  }

  // ----- the descriptors are those of the last submit -----

  lemma {:induction false} ToldGiven(s: Sched, o: Notes, l: seq<Qh>, w: Words, fin: set<Qh>)
    ensures ScanNotes(s, o, l, w, fin).given == o.given
    decreases |l|
  {
    if l != [] {
      ToldGiven(Visit(s, l[0], fin), Told(s, o, l[0], w, fin), l[1..], w, fin);
    }
  }

  /** The event is a submit of u that is neither refused nor fails. */
  ghost predicate Serves(m: Machine, e: Event, u: Urb) {
    Submits(e, u) && !Refused(m, u) && Served(m.s, AskedBy(e))
  }

  /** A served submit, and nothing else, changes what a request was given. */
  lemma {:induction false} GivenStep(m: Machine, e: Event, m': Machine, u: Urb)
    requires Possible(m, e) && Steps(m, e, m') && u in m'.o.given
    ensures if Serves(m, e, u) then m'.o.given[u] == FreshTds(ChunksOf(e))
      else u in m.o.given && m'.o.given[u] == m.o.given[u]
  {
    if e.Interrupt? && e.scan {
      var fin := FinOf(m.w, m.s.tds);
      ToldGiven(m.s, m.o, m.s.ring, m.w, fin);
      var s1 := Scan(m.s, m.s.ring, fin);
      ToldGiven(s1, ScanNotes(m.s, m.o, m.s.ring, m.w, fin), s1.chain, m.w, fin);
    }
  }

  /** In every run from the start, the descriptors of a request are those of the last submit of it that was served. */
  lemma {:induction false} GivenBySubmit(ms: seq<Machine>, es: seq<Event>, u: Urb, j: nat) returns (k: nat)
    requires Run(ms, es) && j < |ms| && u in ms[j].o.given && u !in ms[0].o.given
    ensures LastServed(ms, es, u, j, k) && ms[j].o.given[u] == FreshTds(ChunksOf(es[k]))
    decreases j
  {
    hide Steps;
    hide Possible;
    hide Serves;
    RunLength(ms, es);
    StepAt(ms, es, j - 1);
    GivenStep(ms[j - 1], es[j - 1], ms[j], u);
    if Serves(ms[j - 1], es[j - 1], u) {
      ServesSubmits(ms[j - 1], es[j - 1], u);
      k := j - 1;
    } else {
      k := GivenBySubmit(ms, es, u, j - 1);
    }
  }

  lemma {:induction false} ServesSubmits(m: Machine, e: Event, u: Urb)
    requires Serves(m, e, u)
    ensures Submits(e, u)
  {
  }

  /** Before step j, the submit in step k is the last one of u that was served. */
  ghost predicate LastServed(ms: seq<Machine>, es: seq<Event>, u: Urb, j: nat, k: nat) {
    && k < j <= |es| < |ms| && Submits(es[k], u) && Serves(ms[k], es[k], u)
    && forall x :: k < x < j ==> !Serves(ms[x], es[x], u)
  }

  /** The chunks of submit e, and what it means for a completed request to report on them. */
  ghost predicate ReportsOn(o: Notes, u: Urb, cs: seq<Chunk>) {
    && u in o.final && Worked(FreshTds(cs), o.final[u])
    && At(o.actual, u) == TotalOf(FreshTds(cs)) - LeftOf(o.final[u])
    && 0 <= LeftOf(o.final[u]) <= LeftOf(FreshTds(cs)) <= TotalOf(FreshTds(cs))
    && (At(o.code, u) == 0 ==> NoneActive(o.final[u]))
  }

  /** In every run from the start, a completed request reports on the descriptors of the last served submit of it. */
  lemma {:induction false} CompletionReports(ms: seq<Machine>, es: seq<Event>, i: nat, u: Urb) returns (k: nat)
    requires Run(ms, es) && MachineOk(ms[0]) && u !in ms[0].o.given && i < |es| && u in Completes(ms[i], es[i])
    ensures LastServed(ms, es, u, i + 1, k) && ReportsOn(ms[i + 1].o, u, ChunksOf(es[k]))
  {
    hide Run;
    hide MachineOk;
    hide Completes;
    hide Serves;
    RunLength(ms, es);
    CompletionIsHonest(ms, es, i, u);
    k := GivenBySubmit(ms, es, u, i + 1);
    ReportedBytes(ChunksOf(es[k]), ms[i + 1].o.final[u]);
  }

  /** Bytes that the controller moved of the chunks of a transfer. */
  ghost function MovedBytes(o: Notes, u: Urb, cs: seq<Chunk>): int
    requires u in o.final
  {
    LeftOf(FreshTds(cs)) - LeftOf(o.final[u])
  }

  /** A bulk or interrupt transfer reports the bytes that were moved, and never more than it was submitted with. */
  lemma {:induction false} DataOutcome(o: Notes, u: Urb, buf: nat, n: nat)
    requires ReportsOn(o, u, Chunks(buf, n))
    ensures 0 <= At(o.actual, u) <= n && At(o.actual, u) == MovedBytes(o, u, Chunks(buf, n))
    ensures Carries(FreshTds(Chunks(buf, n)), buf, n)
  {
    DataTotals(buf, n);
    ChunksCarry(buf, n);
  }

  /**
   A control transfer reports the setup packet and the data, never more than both;
   but the bytes that were moved exactly if the data are fewer than the 0x8000 that
   the count of a descriptor holds.
  */
  lemma {:induction false} ControlOutcome(o: Notes, u: Urb, setup: nat, buf: nat, wLength: nat, buflen: nat)
    requires ReportsOn(o, u, ControlChunks(setup, buf, wLength, buflen))
    ensures 0 <= At(o.actual, u) <= 8 + if wLength > 0 then buflen else 0
    ensures At(o.actual, u) == MovedBytes(o, u, ControlChunks(setup, buf, wLength, buflen)) <==>
      wLength == 0 || buflen < COUNT
  {
    ControlTotals(setup, buf, wLength, buflen);
  }

  /**
   In every run from the start, what a completed request reports is never more than
   its last served submit asked for; and it is what was moved, unless that was a
   control transfer of 0x8000 bytes of data or more.
  */
  lemma {:induction false} CompletedOutcome(ms: seq<Machine>, es: seq<Event>, i: nat, u: Urb) returns (k: nat)
    requires Run(ms, es) && MachineOk(ms[0]) && u !in ms[0].o.given && i < |es| && u in Completes(ms[i], es[i])
    ensures LastServed(ms, es, u, i + 1, k) && u in ms[i + 1].o.final
    ensures 0 <= At(ms[i + 1].o.actual, u) <= BytesOf(es[k])
    ensures At(ms[i + 1].o.actual, u) == MovedBytes(ms[i + 1].o, u, ChunksOf(es[k])) <==> CountHolds(es[k])
    ensures At(ms[i + 1].o.code, u) == 0 ==> NoneActive(ms[i + 1].o.final[u])
  {
    hide Run;
    hide MachineOk;
    hide Completes;
    hide Serves;
    hide MovedBytes;
    k := CompletionReports(ms, es, i, u);
    if es[k].SubmitData? {
      DataOutcome(ms[i + 1].o, u, es[k].buf, es[k].n);
    } else {
      ControlOutcome(ms[i + 1].o, u, es[k].setup, es[k].buf, es[k].wLength, es[k].buflen);
    }
  }

  /** The bytes that a submit asks to be moved. */
  function BytesOf(e: Event): nat
    requires e.SubmitData? || e.SubmitSetup?
  {
    if e.SubmitData? then e.n else 8 + if e.wLength > 0 then e.buflen else 0
  }

  /** Every descriptor's count of bytes fits in its fifteen bits. */
  predicate CountHolds(e: Event)
    requires e.SubmitData? || e.SubmitSetup?
  {
    e.SubmitSetup? ==> e.wLength == 0 || e.buflen < COUNT
  }

  // ----- at most one completion a submit -----

  lemma {:induction false} StaysIdle(m: Machine, e: Event, m': Machine, u: Urb)
    requires MachineOk(m) && Possible(m, e) && Steps(m, e, m') && At(m.s.hcpriv, u) == 0 && !Submits(e, u)
    ensures At(m'.s.hcpriv, u) == 0
  {
    if e.Interrupt? {
      IrqEnds(m.s, e.scan, FinOf(m.w, m.s.tds), m.bell.answered);
    } else if (e.SubmitData? || e.SubmitSetup?) && !Refused(m, e.u) {
      SubmitOthers(m.s, e.u, AskedBy(e), |ChunksOf(e)|, u);
    }
  }

  lemma {:induction false} NothingToComplete(m: Machine, e: Event, u: Urb)
    requires MachineOk(m) && At(m.s.hcpriv, u) == 0
    ensures u !in Completes(m, e)
  {
    if e.Interrupt? {
      IrqEnds(m.s, e.scan, FinOf(m.w, m.s.tds), m.bell.answered);
    }
  }

  lemma {:induction false} IdleStep(ms: seq<Machine>, es: seq<Event>, u: Urb)
    requires Run(ms, es) && MachineOk(ms[0]) && es != [] && At(ms[0].s.hcpriv, u) == 0 && !Submits(es[0], u)
    ensures |ms| > 1 && MachineOk(ms[1]) && At(ms[1].s.hcpriv, u) == 0 && Run(ms[1..], es[1..])
  {
    StaysIdle(ms[0], es[0], ms[1], u);
    StepKeeps(ms[0], es[0], ms[1]);
  }

  /** Between two completions of a request it was submitted again, in every run. */
  lemma {:induction false} CompletesOncePerSubmit(ms: seq<Machine>, es: seq<Event>, u: Urb, j: nat)
    requires Run(ms, es) && MachineOk(ms[0]) && At(ms[0].s.hcpriv, u) == 0
    requires j < |es| && u in Completes(ms[j], es[j])
    ensures exists k :: 0 <= k < j && Submits(es[k], u)
    decreases |es|
  {
    hide MachineOk;
    hide Completes;
    NothingToComplete(ms[0], es[0], u);
    if Submits(es[0], u) {
      assert j != 0;
    } else {
      IdleStep(ms, es, u);
      hide Run;
      CompletesOncePerSubmit(ms[1..], es[1..], u, j - 1);
      var k :| 0 <= k < j - 1 && Submits(es[1..][k], u);
      assert Submits(es[k + 1], u);
    }
  }

  /** A completed request is no longer carried. */
  lemma {:induction false} CompletedIsFree(m: Machine, e: Event, m': Machine, u: Urb)
    requires MachineOk(m) && Possible(m, e) && Steps(m, e, m') && u in Completes(m, e)
    ensures At(m.s.hcpriv, u) != 0 && At(m'.s.hcpriv, u) == 0
  {
    IrqEnds(m.s, e.scan, FinOf(m.w, m.s.tds), m.bell.answered);
  }

  // ----- requests that are refused -----

  /** A request whose submit fails is refused ever after: its owner's word says busy though nothing carries it. */
  lemma {:induction false} FailedIsRefused(m: Machine, e: Event, m': Machine)
    requires MachineOk(m) && (e.SubmitData? || e.SubmitSetup?) && Possible(m, e) && Steps(m, e, m')
    requires !Refused(m, e.u) && !Served(m.s, AskedBy(e))
    ensures Refused(m', e.u) && At(m'.s.hcpriv, e.u) == 0 && m'.s.qhUsed == m.s.qhUsed && m'.s.qtdUsed == m.s.qtdUsed
  {
    if e.SubmitSetup? {
      ControlNeedsChunks(e.setup, e.buf, e.wLength, e.buflen);
    }
    NotRefusedIsIdle(m, e.u);
    SubmitFails(m.s, e.u, AskedBy(e), |ChunksOf(e)|);
    SubmitKeeps(m, e, m');
    FailedCarriesNothing(m.s, e.u, AskedBy(e), |ChunksOf(e)|);
  }

  lemma {:induction false} FailedCarriesNothing(s: Sched, u: Urb, asked: nat, k: nat)
    requires !Served(s, asked) && (asked <= FreeCount(s.qtdUsed) ==> k <= FreeCount(s.qtdUsed))
    ensures At(Submit(s, u, asked, k).hcpriv, u) == 0
  {
  }

  /** A request that is taken back without a time limit is refused ever after in the same way. */
  lemma {:induction false} KilledIsRefused(m: Machine, u: Urb, timed: bool, m': Machine)
    requires MachineOk(m) && Possible(m, KillUrb(u, timed)) && Steps(m, KillUrb(u, timed), m') && At(m.s.hcpriv, u) != 0
    ensures At(m'.s.hcpriv, u) == 0 && (Refused(m', u) <==> !timed)
    ensures At(m'.o.code, u) == if timed then -108 else -16
  {
    KillKeeps(m.s, u);
    assert NoteOk(m.s, m.w.td, m.o, u);
  }

  lemma {:induction false} RefusedStep(m: Machine, e: Event, m': Machine, u: Urb)
    requires MachineOk(m) && Possible(m, e) && Steps(m, e, m') && Refused(m, u) && At(m.s.hcpriv, u) == 0
    ensures Refused(m', u) && At(m'.s.hcpriv, u) == 0
  {
    hide MachineOk;
    hide Irq;
    hide BothNotes;
    hide AfterIrq;
    hide Kill;
    hide Submit;
    hide EnoughFree;
    hide Submittable;
    hide Filled;
    if Submits(e, u) {
    } else {
      StaysIdle(m, e, m', u);
      if e.Interrupt? && e.scan {
        NotTold(m, u);
      }
    }
  }

  lemma {:induction false} NotToldByScan(s: Sched, o: Notes, l: seq<Qh>, w: Words, fin: set<Qh>, u: Urb)
    requires Inv(s) && NoDup(l) && (forall q :: q in l ==> q in s.ring || q in s.chain) && At(s.hcpriv, u) == 0
    ensures At(ScanNotes(s, o, l, w, fin).code, u) == At(o.code, u) && At(Scan(s, l, fin).hcpriv, u) == 0
    decreases |l|
  {
    hide Inv;
    hide Told;
    if l != [] {
      assert l[0] in l;
      VisitKeeps(s, l[0], fin);
      VisitEnds(s, l[0], fin);
      TellsOnly(s, o, l[0], w, fin, u);
      assert forall q :: q in l <==> q == l[0] || q in l[1..];
      NotToldByScan(Visit(s, l[0], fin), Told(s, o, l[0], w, fin), l[1..], w, fin, u);
    }
  }

  lemma {:induction false} TellsOnly(s: Sched, o: Notes, q: Qh, w: Words, fin: set<Qh>, u: Urb)
    requires Inv(s) && (q in s.ring || q in s.chain) && At(s.hcpriv, u) == 0
    ensures At(Told(s, o, q, w, fin).code, u) == At(o.code, u)
  {
    if At(s.urb, q) != 0 {
      VisitedOnList(s, q);
      OnListCarries(s, q);
    }
  }

  lemma {:induction false} NotTold(m: Machine, u: Urb)
    requires MachineOk(m) && At(m.s.hcpriv, u) == 0
    ensures At(BothNotes(m.s, m.o, m.w, FinOf(m.w, m.s.tds)).code, u) == At(m.o.code, u)
  {
    var fin := FinOf(m.w, m.s.tds);
    var s1 := Scan(m.s, m.s.ring, fin);
    EhciNotes.ListsApart(m.s);
    ScanKeeps(m.s, m.s.ring, fin);
    EhciNotes.ListsApart(s1);
    hide MachineOk;
    NotToldByScan(m.s, m.o, m.s.ring, m.w, fin, u);
    NotToldByScan(s1, ScanNotes(m.s, m.o, m.s.ring, m.w, fin), s1.chain, m.w, fin, u);
  }

  lemma {:induction false} RefusedForGood(ms: seq<Machine>, es: seq<Event>, u: Urb, i: nat)
    requires Run(ms, es) && MachineOk(ms[0]) && Refused(ms[0], u) && At(ms[0].s.hcpriv, u) == 0 && i < |ms|
    ensures Refused(ms[i], u) && At(ms[i].s.hcpriv, u) == 0
    decreases |es|
  {
    hide MachineOk;
    hide Steps;
    hide Possible;
    if i > 0 {
      RefusedStep(ms[0], es[0], ms[1], u);
      StepKeeps(ms[0], es[0], ms[1]);
      RefusedForGood(ms[1..], es[1..], u, i - 1);
    }
  }

  // ----- the doorbell -----

  /**
   q comes back to the pool although no answer covers its unlinking (section 4.8.2 of
   the EHCI 1.0 specification): it is of the asynchronous schedule and was linked
   until this event, or the answer that is read now was asked for before it was unlinked.
  */
  ghost predicate FreedUncovered(m: Machine, m': Machine, q: Qh) {
    && Used(m.s.qhUsed, q) && !Used(m'.s.qhUsed, q)
    && (q in m.s.ring || (q in Waiting(m.s) && !(m.bell.answered && q in m.bell.safe)))
  }

  /**
   Exactly two things return a queue head uncovered: taking back a request of the
   ring, and an interrupt that reads an answer and either unlinks a queue head in
   the same go or finds one that was unlinked while the bell was pending.
  */
  lemma {:induction false} DoorbellExactly(m: Machine, e: Event, m': Machine)
    requires MachineOk(m) && Possible(m, e) && Steps(m, e, m')
    ensures (exists q :: FreedUncovered(m, m', q)) <==>
      || (e.KillUrb? && At(m.s.hcpriv, e.u) in m.s.ring)
      || (e.Interrupt? && m.bell.answered && (Rings(m.s, e.scan, FinOf(m.w, m.s.tds)) || m.bell.late != {}))
  {
    match e
    case SubmitData(u, buf, n) => SubmitFreesNone(m, e, m');
    case SubmitSetup(u, setup, buf, wLength, buflen) => SubmitFreesNone(m, e, m');
    case KillUrb(u, timed) => KillFrees(m, u, timed, m');
    case Writes(w) =>
    case Answer =>
    case Interrupt(scan) => IrqFrees(m, scan, m');
  }

  lemma {:induction false} SubmitFreesNone(m: Machine, e: Event, m': Machine)
    requires MachineOk(m) && (e.SubmitData? || e.SubmitSetup?) && Possible(m, e) && Steps(m, e, m')
    ensures forall q :: Used(m.s.qhUsed, q) ==> Used(m'.s.qhUsed, q)
  {
    hide Refused;
    hide Inv;
    hide NotesOk;
    hide BellOk;
    hide Filled;
    hide Submit;
    if !Refused(m, e.u) {
      if e.SubmitSetup? {
        ControlNeedsChunks(e.setup, e.buf, e.wLength, e.buflen);
      }
      NotRefusedIsIdle(m, e.u);
      if Served(m.s, AskedBy(e)) {
        SubmitServed(m.s, e.u, AskedBy(e), |ChunksOf(e)|);
      } else {
        SubmitFails(m.s, e.u, AskedBy(e), |ChunksOf(e)|);
      }
    }
  }

  lemma {:induction false} KillFrees(m: Machine, u: Urb, timed: bool, m': Machine)
    requires MachineOk(m) && Possible(m, KillUrb(u, timed)) && Steps(m, KillUrb(u, timed), m')
    ensures (exists q :: FreedUncovered(m, m', q)) <==> At(m.s.hcpriv, u) in m.s.ring
  {
    hide Inv;
    hide NotesOk;
    hide BellOk;
    var q := At(m.s.hcpriv, u);
    if q != 0 {
      KillFields(m.s, u);
      OnListCarries(m.s, q);
      MarkUsed(m.s.qhUsed, m'.s.qhUsed, q, false);
      RingPool(m.s);
      if q in m.s.ring {
        assert FreedUncovered(m, m', q);
      }
    } else {
      RingPool(m.s);
    }
  }

  lemma {:induction false} IrqUses(s: Sched, scan: bool, fin: set<Qh>, answered: bool)
    requires Inv(s)
    ensures var s' := Irq(s, scan, fin, answered);
      forall q :: Used(s'.qhUsed, q) <==> q in s'.ring || (q in s'.chain && Pool(q)) || At(s'.removing, q) != 0
  {
    IrqKeeps(s, scan, fin, answered);
  }

  lemma {:induction false} IrqFrees(m: Machine, scan: bool, m': Machine)
    requires MachineOk(m) && Steps(m, Interrupt(scan), m')
    ensures (exists q :: FreedUncovered(m, m', q)) <==>
      m.bell.answered && (Rings(m.s, scan, FinOf(m.w, m.s.tds)) || m.bell.late != {})
  {
    var fin := FinOf(m.w, m.s.tds);
    IrqKeeps(m.s, scan, fin, m.bell.answered);
    IrqUses(m.s, scan, fin, m.bell.answered);
    RingPool(m.s);
    RingUsed(m.s);
    hide Inv;
    hide Irq;
    hide NotesOk;
    if m.bell.answered && Rings(m.s, scan, fin) {
      var q :| q in m.s.ring && q in fin;
      assert FreedUncovered(m, m', q);
    }
    if m.bell.answered && m.bell.late != {} {
      var q :| q in m.bell.late;
      assert q in Waiting(m.s);
      assert FreedUncovered(m, m', q);
    }
  }

  lemma {:induction false} RingUsed(s: Sched)
    requires Inv(s)
    ensures forall q :: q in s.ring || At(s.removing, q) != 0 ==> Used(s.qhUsed, q) && q !in s.chain
  {
    NoDupSplit(s.ring, s.chain);
  }

  /** An interrupt that unlinks a queue head while a bell is pending makes it late, and so it is returned uncovered. */
  lemma {:induction false} LateIsFreedUncovered(m0: Machine, scan: bool, m1: Machine, m2: Machine, scan': bool,
                                                m3: Machine, q: Qh)
    requires MachineOk(m0) && m0.bell.rung && q in m0.s.ring && scan && q in FinOf(m0.w, m0.s.tds)
    requires Steps(m0, Interrupt(scan), m1) && Steps(m1, Answer, m2) && Steps(m2, Interrupt(scan'), m3)
    ensures FreedUncovered(m2, m3, q)
  {
    var fin := FinOf(m0.w, m0.s.tds);
    IrqKeeps(m0.s, scan, fin, m0.bell.answered);
    RingPool(m0.s);
    StepKeeps(m0, Interrupt(scan), m1);
    StepKeeps(m1, Answer, m2);
    var fin2 := FinOf(m2.w, m2.s.tds);
    IrqKeeps(m2.s, scan', fin2, m2.bell.answered);
    IrqUses(m2.s, scan', fin2, m2.bell.answered);
    RingUsed(m2.s);
    hide Inv;
    hide Irq;
    hide NotesOk;
    assert q in Waiting(m1.s) && q in m1.bell.late;
  }
}
