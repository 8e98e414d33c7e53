/**
 The outcome of requests: what the controller writes into descriptors and status
 words, what a scan makes of it, and what the owners of the requests are told.
*/
module EhciNotes {
  import opened Chains
  import opened EhciPools
  import opened EhciTransfers
  import opened EhciSpec
  import opened EhciSafety
  import opened EhciRuns

  // ----- what the controller reports -----

  /** The status bits of a queue head's overlay token. */
  datatype Token = Token(active: bool, xactErr: bool, babble: bool, dbErr: bool, halted: bool)

  const NO_TOKEN := Token(false, false, false, false, false)

  const EPERM := 1
  const EIO := 5
  const ENOMEM := 12
  const EBUSY := 16
  const ESHUTDOWN := 108

  function TdAt(td: map<Qtd, Td>, d: Qtd): Td {
    if d in td then td[d] else NO_TD
  }

  function TokenAt(token: map<Qh, Token>, q: Qh): Token {
    if q in token then token[q] else NO_TOKEN
  }

  function Errors(t: Token): bool {
    t.xactErr || t.babble || t.dbErr || t.halted
  }

  /** The contents of a list of descriptors. */
  function Contents(td: map<Qtd, Td>, l: seq<Qtd>): (ts: seq<Td>)
    ensures |ts| == |l| && forall i :: 0 <= i < |l| ==> ts[i] == TdAt(td, l[i])
  {
    if l == [] then [] else [TdAt(td, l[0])] + Contents(td, l[1..])
  }

  function AnyActive(td: map<Qtd, Td>, l: seq<Qtd>): bool {
    l != [] && (TdAt(td, l[0]).active || AnyActive(td, l[1..]))
  }

  /** The bytes that a list of descriptors reports as moved. */
  function Moved(td: map<Qtd, Td>, l: seq<Qtd>): int {
    if l == [] then 0 else TdAt(td, l[0]).total - TdAt(td, l[0]).left + Moved(td, l[1..])
  }

  lemma {:induction false} MovedIs(td: map<Qtd, Td>, l: seq<Qtd>)
    ensures Moved(td, l) == TotalOf(Contents(td, l)) - LeftOf(Contents(td, l))
  {
    if l != [] {
      assert Contents(td, l)[1..] == Contents(td, l[1..]);
      MovedIs(td, l[1..]);
    }
  }

  lemma {:induction false} AnyActiveIs(td: map<Qtd, Td>, l: seq<Qtd>)
    ensures !AnyActive(td, l) <==> NoneActive(Contents(td, l))
  {
    if l != [] {
      var ts := Contents(td, l);
      assert ts[1..] == Contents(td, l[1..]);
      AnyActiveIs(td, l[1..]);
      if NoneActive(ts[1..]) && !ts[0].active {
        forall i | 0 <= i < |ts| ensures !ts[i].active {
          assert i > 0 ==> ts[i] == ts[1..][i - 1];
        }
      }
      if NoneActive(ts) {
        forall i | 0 <= i < |ts[1..]| ensures !ts[1..][i].active {
          assert ts[1..][i] == ts[i + 1];
        }
      }
    }
  }

  /** A transfer is over if it ended in an error, or none of its descriptors is active. */
  function Over(t: Token, td: map<Qtd, Td>, l: seq<Qtd>): bool {
    !(t.active && !Errors(t)) && (Errors(t) || !AnyActive(td, l))
  }

  function ErrorCode(t: Token): int {
    if !Errors(t) then 0 else if t.babble || t.halted then -EPERM else -EIO
  }

  /** The words that the controller writes. */
  datatype Words = Words(td: map<Qtd, Td>, token: map<Qh, Token>)

  /** The queue heads whose transfers are over. */
  ghost function FinOf(w: Words, tds: map<Qh, seq<Qtd>>): set<Qh> {
    set q | 1 <= q <= QH_NUM && Over(TokenAt(w.token, q), w.td, TdsOf(tds, q))
  }

  // ----- what is noted of a request -----

  /**
   The words of a request that its owner reads, the descriptors it was given when
   it was submitted last, and what they held when its transfer was found over.
  */
  datatype Notes = Notes(actual: map<Urb, int>, code: map<Urb, int>, given: map<Urb, seq<Td>>, final: map<Urb, seq<Td>>)

  /** Counts of bytes to move that do not exceed the bytes. */
  ghost predicate Counted(g: seq<Td>) {
    forall i :: 0 <= i < |g| ==> 0 <= g[i].left <= g[i].total
  }

  /** The descriptors of a linked request are those it was given, as far as the controller got. */
  ghost predicate LinkedNote(td: map<Qtd, Td>, l: seq<Qtd>, o: Notes, u: Urb) {
    u !in o.final && u in o.actual && At(o.actual, u) == 0 && At(o.code, u) == -EBUSY && u in o.given
      && Worked(o.given[u], Contents(td, l))
  }

  /** A request whose transfer was found over: what it reports is what its own descriptors held. */
  ghost predicate FinalNote(o: Notes, u: Urb)
    requires u in o.final
  {
    && u in o.given && Worked(o.given[u], o.final[u])
    && At(o.actual, u) == TotalOf(o.final[u]) - LeftOf(o.final[u])
    && At(o.code, u) != -EBUSY && (At(o.code, u) == 0 ==> NoneActive(o.final[u]))
  }

  ghost predicate NoteOk(s: Sched, td: map<Qtd, Td>, o: Notes, u: Urb) {
    var q := At(s.hcpriv, u);
    && (u in o.given ==> Counted(o.given[u]))
    && (q != 0 && At(s.removing, q) == 0 ==> LinkedNote(td, TdsOf(s.tds, q), o, u))
    && (q != 0 && At(s.removing, q) != 0 ==> u in o.final)
    && (u in o.final ==> FinalNote(o, u))
  }

  ghost predicate NotesOk(s: Sched, td: map<Qtd, Td>, o: Notes) {
    forall u :: NoteOk(s, td, o, u)
  }

  /** Nothing that is noted of v depends on what changed. */
  ghost predicate Aside(s: Sched, td: map<Qtd, Td>, o: Notes, s': Sched, td': map<Qtd, Td>, o': Notes, v: Urb) {
    var q := At(s.hcpriv, v);
    && At(s'.hcpriv, v) == q
    && (q != 0 ==> (At(s'.removing, q) == 0 <==> At(s.removing, q) == 0))
    && (q != 0 && At(s.removing, q) == 0 ==> Contents(td', TdsOf(s'.tds, q)) == Contents(td, TdsOf(s.tds, q)))
    && SameNotes(o, o', v)
  }

  ghost predicate SameNotes(o: Notes, o': Notes, v: Urb) {
    && (v in o'.actual <==> v in o.actual) && At(o'.actual, v) == At(o.actual, v) && At(o'.code, v) == At(o.code, v)
    && (v in o'.given <==> v in o.given) && (v in o.given ==> o'.given[v] == o.given[v])
    && (v in o'.final <==> v in o.final) && (v in o.final ==> o'.final[v] == o.final[v])
  }

  lemma {:induction false} AsideStays(s: Sched, td: map<Qtd, Td>, o: Notes, s': Sched, td': map<Qtd, Td>, o': Notes,
                                      v: Urb)
    requires NoteOk(s, td, o, v) && Aside(s, td, o, s', td', o', v)
    ensures NoteOk(s', td', o', v)
  {
  }

  lemma {:induction false} OthersStay(s: Sched, td: map<Qtd, Td>, o: Notes, s': Sched, td': map<Qtd, Td>, o': Notes,
                                      u: Urb)
    requires NotesOk(s, td, o) && NoteOk(s', td', o', u) && forall v :: v != u ==> Aside(s, td, o, s', td', o', v)
    ensures NotesOk(s', td', o')
  {
    forall v ensures NoteOk(s', td', o', v) {
      if v != u {
        assert NoteOk(s, td, o, v);
        AsideStays(s, td, o, s', td', o', v);
      }
    }
  }

  // ----- the controller at work -----

  /** What the controller may do to descriptors. */
  ghost predicate ControllerWrites(td: map<Qtd, Td>, td': map<Qtd, Td>) {
    forall d :: WorkedOn(TdAt(td, d), TdAt(td', d))
  }

  lemma {:induction false} WorkedMore(g: seq<Td>, td: map<Qtd, Td>, td': map<Qtd, Td>, l: seq<Qtd>)
    requires Worked(g, Contents(td, l)) && ControllerWrites(td, td')
    ensures Worked(g, Contents(td', l))
  {
    forall i | 0 <= i < |g| ensures WorkedOn(g[i], Contents(td', l)[i]) {
      assert WorkedOn(g[i], Contents(td, l)[i]) && WorkedOn(TdAt(td, l[i]), TdAt(td', l[i]));
    }
  }

  lemma {:induction false} ControllerKeeps(s: Sched, td: map<Qtd, Td>, td': map<Qtd, Td>, o: Notes)
    requires NotesOk(s, td, o) && ControllerWrites(td, td')
    ensures NotesOk(s, td', o)
  {
    forall u ensures NoteOk(s, td', o, u) {
      assert NoteOk(s, td, o, u);
      var q := At(s.hcpriv, u);
      if q != 0 && At(s.removing, q) == 0 {
        WorkedMore(o.given[u], td, td', TdsOf(s.tds, q));
      }
    }
  }

  // ----- scanning -----

  /** The owner of u, and no other, is told the error code and the bytes that its descriptors report. */
  ghost function Ended(o: Notes, u: Urb, code: int, ts: seq<Td>): Notes {
    Notes(o.actual[u := At(o.actual, u) + TotalOf(ts) - LeftOf(ts)], o.code[u := code], o.given, o.final[u := ts])
  }

  /** The note of a transfer that a scan finds over. */
  ghost function Told(s: Sched, o: Notes, q: Qh, w: Words, fin: set<Qh>): Notes {
    if At(s.urb, q) != 0 && q in fin then
      Ended(o, At(s.urb, q), ErrorCode(TokenAt(w.token, q)), Contents(w.td, TdsOf(s.tds, q)))
    else o
  }

  ghost function ScanNotes(s: Sched, o: Notes, l: seq<Qh>, w: Words, fin: set<Qh>): Notes
    decreases |l|
  {
    if l == [] then o else ScanNotes(Visit(s, l[0], fin), Told(s, o, l[0], w, fin), l[1..], w, fin)
  }

  ghost function BothNotes(s: Sched, o: Notes, w: Words, fin: set<Qh>): Notes {
    var s1 := Scan(s, s.ring, fin);
    ScanNotes(s1, ScanNotes(s, o, s.ring, w, fin), s1.chain, w, fin)
  }

  lemma {:induction false} ToldIs(s: Sched, o: Notes, q: Qh, w: Words, fin: set<Qh>, u: Urb)
    requires u == At(s.urb, q) && u != 0 && q in fin
    ensures var o', ts := Told(s, o, q, w, fin), Contents(w.td, TdsOf(s.tds, q));
      && u in o'.final && o'.final[u] == ts && o'.given == o.given
      && At(o'.actual, u) == At(o.actual, u) + TotalOf(ts) - LeftOf(ts)
         && At(o'.code, u) == ErrorCode(TokenAt(w.token, q))
      && forall v :: v != u ==> SameNotes(o, o', v)
  {
  }

  /** The note of u at the end of its transfer. */
  lemma {:induction false} ToldOk(s: Sched, o: Notes, q: Qh, w: Words, fin: set<Qh>, u: Urb)
    requires u == At(s.urb, q) && u != 0 && q in fin && At(s.hcpriv, u) == q && q != 0 && At(s.removing, q) == 0
    requires NoteOk(s, w.td, o, u) && Over(TokenAt(w.token, q), w.td, TdsOf(s.tds, q))
    ensures var o' := Told(s, o, q, w, fin); u in o'.final && FinalNote(o', u) && Counted(o'.given[u])
  {
    ToldIs(s, o, q, w, fin, u);
    AnyActiveIs(w.td, TdsOf(s.tds, q));
  }

  /** The fields of the other requests' queue heads after a visit that finds q over. */
  lemma {:induction false} FinishAside(s: Sched, q: Qh, u: Urb, v: Urb)
    requires Inv(s) && OnList(s, q) && u == At(s.urb, q) && v != u
    ensures var s', p := Finish(s, q), At(s.hcpriv, v);
      && At(s'.hcpriv, v) == p && p != q
      && (p != 0 ==> At(s'.removing, p) == At(s.removing, p) && TdsOf(s'.tds, p) == TdsOf(s.tds, p))
    ensures var s' := Finish(s, q); At(s'.hcpriv, u) != 0 ==> At(s'.hcpriv, u) == q && At(s'.removing, q) != 0
  {
    OnListCarries(s, q);
    FinishFields(s, q);
    assert At(s.hcpriv, v) == q ==> At(s.urb, q) == v;
    hide Inv;
    hide Finish;
    Wrote(s.hcpriv, s.hcpriv[u := 0], u, 0);
    Wrote(s.removing, s.removing[q := 0], q, 0);
    Wrote(s.removing, s.removing[q := 1], q, 1);
  }

  /** A visit keeps the notes. */
  lemma {:induction false} VisitNotes(s: Sched, o: Notes, q: Qh, w: Words, fin: set<Qh>)
    requires Inv(s) && (q in s.ring || q in s.chain) && NotesOk(s, w.td, o)
    requires q in fin ==> Over(TokenAt(w.token, q), w.td, TdsOf(s.tds, q))
    ensures NotesOk(Visit(s, q, fin), w.td, Told(s, o, q, w, fin))
  {
    var u, s', o' := At(s.urb, q), Visit(s, q, fin), Told(s, o, q, w, fin);
    if u != 0 && q in fin {
      VisitedOnList(s, q);
      OnListCarries(s, q);
      assert NoteOk(s, w.td, o, u);
      ToldOk(s, o, q, w, fin, u);
      ToldIs(s, o, q, w, fin, u);
      FinishAside(s, q, u, u + 1);
      forall v | v != u ensures Aside(s, w.td, o, s', w.td, o', v) {
        FinishAside(s, q, u, v);
      }
      hide Inv;
      hide Finish;
      hide Told;
      hide FinalNote;
      assert NoteOk(s', w.td, o', u);
      OthersStay(s, w.td, o, s', w.td, o', u);
    }
  }

  lemma {:induction false} VisitedOnList(s: Sched, q: Qh)
    requires Inv(s) && (q in s.ring || q in s.chain) && At(s.urb, q) != 0
    ensures OnList(s, q)
  {
    if !Pool(q) {
      HeadsCarryNothing(s, q);
    }
  }

  /** The queue heads of l that are found over are over. */
  ghost predicate FinIsOver(s: Sched, l: seq<Qh>, w: Words, fin: set<Qh>) {
    forall q :: q in l && q in fin ==> Over(TokenAt(w.token, q), w.td, TdsOf(s.tds, q))
  }

  lemma {:induction false} VisitLeavesTds(s: Sched, q: Qh, fin: set<Qh>, p: Qh)
    requires Inv(s) && (q in s.ring || q in s.chain) && p != q
    ensures TdsOf(Visit(s, q, fin).tds, p) == TdsOf(s.tds, p)
  {
    if At(s.urb, q) != 0 && q in fin {
      VisitedOnList(s, q);
      FinishFields(s, q);
    }
  }

  lemma {:induction false} FinStaysOver(s: Sched, l: seq<Qh>, w: Words, fin: set<Qh>)
    requires Inv(s) && l != [] && NoDup(l) && (l[0] in s.ring || l[0] in s.chain) && FinIsOver(s, l, w, fin)
    ensures FinIsOver(Visit(s, l[0], fin), l[1..], w, fin)
  {
    forall q | q in l[1..] && q in fin ensures Over(TokenAt(w.token, q), w.td, TdsOf(Visit(s, l[0], fin).tds, q)) {
      assert q in l;
      VisitLeavesTds(s, l[0], fin, q);
    }
  }

  lemma {:induction false} ScanNotesKeep(s: Sched, o: Notes, l: seq<Qh>, w: Words, fin: set<Qh>)
    requires Inv(s) && NoDup(l) && (forall q :: q in l ==> q in s.ring || q in s.chain)
    requires NotesOk(s, w.td, o) && FinIsOver(s, l, w, fin)
    ensures NotesOk(Scan(s, l, fin), w.td, ScanNotes(s, o, l, w, fin))
    decreases |l|
  {
    hide Inv;
    hide NotesOk;
    hide Told;
    if l != [] {
      VisitKeeps(s, l[0], fin);
      assert l[0] in l;
      VisitNotes(s, o, l[0], w, fin);
      FinStaysOver(s, l, w, fin);
      assert forall q :: q in l <==> q == l[0] || q in l[1..];
      ScanNotesKeep(Visit(s, l[0], fin), Told(s, o, l[0], w, fin), l[1..], w, fin);
    }
  }

  /** The chain's transfers that are over at the start still are after the scan of the ring. */
  lemma {:induction false} ScanLeavesTds(s: Sched, l: seq<Qh>, fin: set<Qh>, p: Qh)
    requires Inv(s) && NoDup(l) && (forall q :: q in l ==> q in s.ring || q in s.chain) && p !in l
    ensures TdsOf(Scan(s, l, fin).tds, p) == TdsOf(s.tds, p)
    decreases |l|
  {
    hide Inv;
    if l != [] {
      assert l[0] in l;
      VisitKeeps(s, l[0], fin);
      VisitLeavesTds(s, l[0], fin, p);
      assert forall q :: q in l <==> q == l[0] || q in l[1..];
      ScanLeavesTds(Visit(s, l[0], fin), l[1..], fin, p);
    }
  }

  lemma {:induction false} ListsApart(s: Sched)
    requires Inv(s)
    ensures NoDup(s.ring) && NoDup(s.chain) && forall q :: q in s.ring ==> q !in s.chain
  {
    NoDupSplit(s.ring, s.chain);
  }

  lemma {:induction false} BothFinOver(s: Sched, w: Words, fin: set<Qh>)
    requires Inv(s) && fin == FinOf(w, s.tds)
    ensures FinIsOver(s, s.ring, w, fin)
    ensures var s1 := Scan(s, s.ring, fin); Inv(s1) && NoDup(s1.chain) && FinIsOver(s1, s1.chain, w, fin)
  {
    ListsApart(s);
    ScanKeeps(s, s.ring, fin);
    var s1 := Scan(s, s.ring, fin);
    ListsApart(s1);
    hide Inv;
    forall q | q in s1.chain && q in fin ensures Over(TokenAt(w.token, q), w.td, TdsOf(s1.tds, q)) {
      ScanLeavesTds(s, s.ring, fin, q);
    }
  }

  lemma {:induction false} BothNotesKeep(s: Sched, o: Notes, w: Words, fin: set<Qh>)
    requires Inv(s) && NotesOk(s, w.td, o) && fin == FinOf(w, s.tds)
    ensures NotesOk(ScanBoth(s, fin), w.td, BothNotes(s, o, w, fin))
  {
    var s1 := Scan(s, s.ring, fin);
    BothFinOver(s, w, fin);
    ListsApart(s);
    hide Inv;
    hide NotesOk;
    hide FinOf;
    ScanNotesKeep(s, o, s.ring, w, fin);
    ScanNotesKeep(s1, ScanNotes(s, o, s.ring, w, fin), s1.chain, w, fin);
  }

  // ----- the answer to the doorbell -----

  lemma {:induction false} CompleteNotes(s: Sched, td: map<Qtd, Td>, o: Notes, q: Qh)
    requires Inv(s) && At(s.removing, q) != 0 && NotesOk(s, td, o)
    ensures NotesOk(Complete(s, At(s.urb, q)), td, o)
  {
    var u := At(s.urb, q);
    var s' := Complete(s, u);
    assert Used(s.qhUsed, q);
    CompleteKeeps(s, q);
    Wrote(s.hcpriv, s'.hcpriv, u, 0);
    Wrote(s.removing, s'.removing, q, 0);
    assert NoteOk(s, td, o, u);
    forall v | v != u ensures Aside(s, td, o, s', td, o, v) {
      assert At(s.hcpriv, v) == q ==> At(s.urb, q) == v;
    }
    hide Inv;
    hide Complete;
    OthersStay(s, td, o, s', td, o, u);
  }

  lemma {:induction false} AdvanceNotes(s: Sched, td: map<Qtd, Td>, o: Notes, i: nat)
    requires Inv(s) && NotesOk(s, td, o)
    ensures NotesOk(Advance(s, i), td, o)
    decreases QH_NUM - i
  {
    hide Inv;
    hide Complete;
    hide NotesOk;
    if i < QH_NUM {
      NotWaiting(s, i);
      if s.qhUsed[i] && At(s.removing, i + 1) != 0 {
        var s1 := Complete(s, At(s.urb, i + 1));
        AdvanceOne(s, i, s1);
        CompleteNotes(s, td, o, i + 1);
        AdvanceNotes(s1, td, o, i + 1);
      } else {
        AdvanceNotes(s, td, o, i + 1);
      }
    } else {
      NoneFurther(s, i);
    }
  }

  // ----- submitting -----

  /** The owner's words at the start of a submit. */
  function Busy(o: Notes, u: Urb): Notes {
    Notes(o.actual[u := 0], o.code[u := -EBUSY], o.given, o.final - {u})
  }

  function Gave(o: Notes, u: Urb, g: seq<Td>): Notes {
    o.(given := o.given[u := g])
  }

  /** The owner's words and the descriptors of a served submit. */
  function Given(o: Notes, u: Urb, g: seq<Td>): Notes {
    Gave(Busy(o, u), u, g)
  }

  lemma {:induction false} BusyIs(o: Notes, u: Urb)
    ensures var o' := Busy(o, u);
      u !in o'.final && u in o'.actual && At(o'.actual, u) == 0 && At(o'.code, u) == -EBUSY && o'.given == o.given
  {
  }

  lemma {:induction false} BusyOther(o: Notes, u: Urb, g: seq<Td>, v: Urb)
    requires v != u
    ensures SameNotes(o, Busy(o, u), v) && SameNotes(o, Given(o, u, g), v)
  {
    assert v in o.final ==> v in o.final - {u};
  }

  /** Only the descriptors of l are written, and they hold ts. */
  ghost predicate Filled(td: map<Qtd, Td>, td': map<Qtd, Td>, l: seq<Qtd>, ts: seq<Td>) {
    Contents(td', l) == ts && forall d :: d !in l ==> TdAt(td', d) == TdAt(td, d)
  }

  lemma {:induction false} ContentsAgree(td: map<Qtd, Td>, td': map<Qtd, Td>, l: seq<Qtd>)
    requires forall d :: d in l ==> TdAt(td', d) == TdAt(td, d)
    ensures Contents(td', l) == Contents(td, l)
  {
    if l != [] {
      assert l[0] in l;
      ContentsAgree(td, td', l[1..]);
    }
  }

  lemma {:induction false} InFlat(tds: map<Qh, seq<Qtd>>, l: seq<Qh>, q: Qh)
    requires q in l
    ensures forall d :: d in TdsOf(tds, q) ==> d in Flat(tds, l)
  {
    if l[0] != q {
      InFlat(tds, l[1..], q);
    }
  }

  /** The descriptors of a linked request are in use. */
  lemma {:induction false} CarriedTdsUsed(s: Sched, v: Urb)
    requires Inv(s) && At(s.hcpriv, v) != 0 && At(s.removing, At(s.hcpriv, v)) == 0
    ensures forall d :: d in TdsOf(s.tds, At(s.hcpriv, v)) ==> Used(s.qtdUsed, d)
  {
    var p := At(s.hcpriv, v);
    assert At(s.urb, p) == v && Used(s.qhUsed, p);
    assert p in s.ring + s.chain;
    InFlat(s.tds, s.ring + s.chain, p);
  }

  /** The fields of a request that carries on while u is submitted. */
  lemma {:induction false} SubmitAside(s: Sched, u: Urb, asked: nat, k: nat, v: Urb)
    requires Inv(s) && At(s.hcpriv, u) == 0 && v != u && (asked <= FreeCount(s.qtdUsed) ==> k <= FreeCount(s.qtdUsed))
    ensures var s', p := Submit(s, u, asked, k), At(s.hcpriv, v);
      && At(s'.hcpriv, v) == p
      && (p != 0 ==> At(s'.removing, p) == At(s.removing, p) && TdsOf(s'.tds, p) == TdsOf(s.tds, p))
  {
    var p := At(s.hcpriv, v);
    assert p != 0 ==> At(s.urb, p) == v && Used(s.qhUsed, p);
    if FreeCount(s.qhUsed) > 0 {
      NextQhIsFree(s);
      if asked <= FreeCount(s.qtdUsed) {
        SubmitFields(s, u, asked, k);
      } else {
        FailFields(s, u, asked, k);
      }
    }
    hide Inv;
  }

  lemma {:induction false} ServedAside(s: Sched, td: map<Qtd, Td>, td': map<Qtd, Td>, o: Notes, u: Urb, asked: nat,
                                       g: seq<Td>, v: Urb)
    requires Inv(s) && At(s.hcpriv, u) == 0 && Served(s, asked) && |g| <= FreeCount(s.qtdUsed) && v != u
    requires Filled(td, td', Taken(s.qtdUsed, |g|), g)
    ensures Aside(s, td, o, Submit(s, u, asked, |g|), td', Given(o, u, g), v)
  {
    SubmitAside(s, u, asked, |g|, v);
    BusyOther(o, u, g, v);
    TakenAre(s.qtdUsed, |g|);
    var p := At(s.hcpriv, v);
    if p != 0 && At(s.removing, p) == 0 {
      CarriedTdsUsed(s, v);
      ContentsAgree(td, td', TdsOf(s.tds, p));
    }
  }

  lemma {:induction false} ServedNote(s: Sched, td: map<Qtd, Td>, td': map<Qtd, Td>, o: Notes, u: Urb, asked: nat,
                                      g: seq<Td>)
    requires Inv(s) && Served(s, asked) && |g| <= FreeCount(s.qtdUsed) && Counted(g)
    requires Filled(td, td', Taken(s.qtdUsed, |g|), g)
    ensures NoteOk(Submit(s, u, asked, |g|), td', Given(o, u, g), u)
  {
    var s', q := Submit(s, u, asked, |g|), NextQh(s);
    NextQhIsFree(s);
    SubmitFields(s, u, asked, |g|);
    hide Inv;
    hide Submit;
    BusyIs(o, u);
    assert At(s'.hcpriv, u) == q && At(s'.removing, q) == 0 && TdsOf(s'.tds, q) == Taken(s.qtdUsed, |g|);
    WorkedAtStart(g);
  }

  lemma {:induction false} ServedNotes(s: Sched, td: map<Qtd, Td>, td': map<Qtd, Td>, o: Notes, u: Urb, asked: nat,
                                       g: seq<Td>)
    requires Inv(s) && NotesOk(s, td, o) && Idle(s, u) && Served(s, asked) && |g| <= FreeCount(s.qtdUsed) && Counted(g)
    requires Filled(td, td', Taken(s.qtdUsed, |g|), g)
    ensures NotesOk(Submit(s, u, asked, |g|), td', Given(o, u, g))
  {
    ServedNote(s, td, td', o, u, asked, g);
    forall v | v != u ensures Aside(s, td, o, Submit(s, u, asked, |g|), td', Given(o, u, g), v) {
      ServedAside(s, td, td', o, u, asked, g, v);
    }
    hide *;
    OthersStay(s, td, o, Submit(s, u, asked, |g|), td', Given(o, u, g), u);
  }

  lemma {:induction false} WorkedAtStart(g: seq<Td>)
    requires Counted(g)
    ensures Worked(g, g)
  {
  }

  lemma {:induction false} RefusedNotes(s: Sched, td: map<Qtd, Td>, o: Notes, u: Urb, asked: nat, k: nat)
    requires Inv(s) && NotesOk(s, td, o) && At(s.hcpriv, u) == 0 && !Served(s, asked)
    requires asked <= FreeCount(s.qtdUsed) ==> k <= FreeCount(s.qtdUsed)
    ensures NotesOk(Submit(s, u, asked, k), td, Busy(o, u))
  {
    var s', o' := Submit(s, u, asked, k), Busy(o, u);
    if FreeCount(s.qhUsed) > 0 {
      NextQhIsFree(s);
      FailFields(s, u, asked, k);
    }
    assert At(s'.hcpriv, u) == 0;
    assert NoteOk(s, td, o, u);
    BusyIs(o, u);
    hide Inv;
    hide Submit;
    forall v | v != u ensures Aside(s, td, o, s', td, o', v) {
      SubmitAside(s, u, asked, k, v);
      BusyOther(o, u, [], v);
    }
    OthersStay(s, td, o, s', td, o', u);
  }

  // ----- taking back -----

  /** The owner of a request that waits for it with a time limit is told. */
  function TakenBack(o: Notes, u: Urb, timed: bool): Notes {
    if timed then o.(code := o.code[u := -ESHUTDOWN]) else o
  }

  lemma {:induction false} KillAside(s: Sched, u: Urb, v: Urb)
    requires Inv(s) && At(s.hcpriv, u) != 0 && At(s.removing, At(s.hcpriv, u)) == 0 && v != u
    ensures var s', p := Kill(s, u), At(s.hcpriv, v);
      && At(s'.hcpriv, u) == 0 && At(s'.hcpriv, v) == p
      && (p != 0 ==> At(s'.removing, p) == At(s.removing, p) && TdsOf(s'.tds, p) == TdsOf(s.tds, p))
  {
    var q, p := At(s.hcpriv, u), At(s.hcpriv, v);
    KillFields(s, u);
    assert At(s.urb, q) == u && (p == q ==> At(s.urb, q) == v);
    hide Inv;
    hide Kill;
  }

  lemma {:induction false} KillNotes(s: Sched, td: map<Qtd, Td>, o: Notes, u: Urb, timed: bool)
    requires Inv(s) && NotesOk(s, td, o) && At(s.hcpriv, u) != 0 && At(s.removing, At(s.hcpriv, u)) == 0
    ensures NotesOk(Kill(s, u), td, TakenBack(o, u, timed))
  {
    hide Inv;
    hide Kill;
    var s', o' := Kill(s, u), TakenBack(o, u, timed);
    KillAside(s, u, u + 1);
    assert NoteOk(s, td, o, u);
    forall v | v != u ensures Aside(s, td, o, s', td, o', v) {
      KillAside(s, u, v);
    }
    OthersStay(s, td, o, s', td, o', u);
  }

  // ----- who is told -----

  lemma {:induction false} ToldStays(s: Sched, o: Notes, l: seq<Qh>, w: Words, fin: set<Qh>, u: Urb)
    requires u in o.final
    ensures u in ScanNotes(s, o, l, w, fin).final
    decreases |l|
  {
    if l != [] {
      ToldStays(Visit(s, l[0], fin), Told(s, o, l[0], w, fin), l[1..], w, fin, u);
    }
  }

  /** Every request that a scan completes has been noted. */
  lemma {:induction false} DoneIsNoted(s: Sched, o: Notes, l: seq<Qh>, w: Words, fin: set<Qh>, u: Urb)
    requires u in DoneByScan(s, l, fin)
    ensures u in ScanNotes(s, o, l, w, fin).final
    decreases |l|
  {
    var v := At(s.urb, l[0]);
    var s1, o1 := Visit(s, l[0], fin), Told(s, o, l[0], w, fin);
    if v != 0 && l[0] in fin && At(s.slot, v) != 0 && u == v {
      ToldIs(s, o, l[0], w, fin, u);
      ToldStays(s1, o1, l[1..], w, fin, u);
    } else {
      DoneIsNoted(s1, o1, l[1..], w, fin, u);
    }
  }

  lemma {:induction false} BothDoneNoted(s: Sched, o: Notes, w: Words, fin: set<Qh>, u: Urb)
    requires u in DoneByBoth(s, fin)
    ensures u in BothNotes(s, o, w, fin).final
  {
    var s1 := Scan(s, s.ring, fin);
    if u in DoneByScan(s, s.ring, fin) {
      DoneIsNoted(s, o, s.ring, w, fin, u);
      ToldStays(s1, ScanNotes(s, o, s.ring, w, fin), s1.chain, w, fin, u);
    } else {
      DoneIsNoted(s1, ScanNotes(s, o, s.ring, w, fin), s1.chain, w, fin, u);
    }
  }

  lemma {:induction false} WaitingIsNoted(s: Sched, td: map<Qtd, Td>, o: Notes, q: Qh)
    requires Inv(s) && NotesOk(s, td, o) && At(s.removing, q) != 0
    ensures At(s.urb, q) in o.final
  {
    assert Used(s.qhUsed, q);
    assert NoteOk(s, td, o, At(s.urb, q));
  }

  lemma {:induction false} AdvancedIsNoted(s: Sched, td: map<Qtd, Td>, o: Notes, i: nat, u: Urb)
    requires Inv(s) && NotesOk(s, td, o) && u in DoneByAdvance(s, i)
    ensures u in o.final
    decreases QH_NUM - i
  {
    hide Inv;
    hide NotesOk;
    hide Complete;
    if s.qhUsed[i] && At(s.removing, i + 1) != 0 {
      WaitingIsNoted(s, td, o, i + 1);
      if u != At(s.urb, i + 1) {
        var s1 := Complete(s, At(s.urb, i + 1));
        CompleteKeeps(s, i + 1);
        CompleteNotes(s, td, o, i + 1);
        AdvancedIsNoted(s1, td, o, i + 1, u);
      }
    } else {
      AdvancedIsNoted(s, td, o, i + 1, u);
    }
  }
}
