/**
 The driver's calls: submitting, scanning, completing and killing, on the pools and
 links in memory.  Each is proved against the bookkeeping of EhciSpec.
*/
module EhciDriver {
  import opened Arith
  import opened Chains
  import opened EhciPools
  import opened EhciTransfers
  import opened EhciSpec
  import opened EhciSafety
  import opened EhciRuns
  import opened EhciNotes
  import opened EhciMachine
  import opened EhciHcd
  import EhciFrames
  import opened EhciPeriodic

  lemma {:induction false} FreedOne(used: seq<bool>, l: seq<Qtd>)
    requires l != []
    ensures Freed(used, l) == Freed(Freed(used, [l[0]]), l[1..])
  {
    assert [l[0]][1..] == [];
  }

  lemma {:induction false} HeadsAreNotPool()
    ensures forall q :: q in HeadsDown(TOP - 1) ==> !Pool(q)
  {
    HeadsDownAre(TOP - 1);
  }

  lemma {:induction false} QtdShapeShrinks(first: map<Qh, Qtd>, first': map<Qh, Qtd>, nextQtd: map<Qtd, Qtd>, s: Sched,
                                           q: Qh)
    requires QtdShape(first, nextQtd, s.ring, s.chain, s.tds)
    requires At(first', q) == 0 && forall x :: x != q ==> At(first', x) == At(first, x)
    ensures QtdShape(first', nextQtd, Without(s.ring, q), Without(s.chain, q), s.tds[q := []])
  {
    ListsShrink(s, q);
  }

  lemma {:induction false} CarriedDescriptors(first: map<Qh, Qtd>, nextQtd: map<Qtd, Qtd>, s: Sched, q: Qh)
    requires QtdShape(first, nextQtd, s.ring, s.chain, s.tds) && OnList(s, q)
    ensures Descriptors(nextQtd, At(first, q), TdsOf(s.tds, q))
  {
  }

  lemma {:induction false} ListsShrink(s: Sched, q: Qh)
    ensures forall x :: x in Without(s.ring, q) ==> x in s.ring
    ensures forall x :: x in Without(s.chain, q) ==> x in s.chain
  {
    WithoutWithin(s.ring, q);
    WithoutWithin(s.chain, q);
  }

  lemma {:induction false} WithoutWithin(l: seq<Addr>, q: Addr)
    ensures forall x :: x in Without(l, q) ==> x in l
  {
    if l != [] {
      WithoutWithin(l[1..], q);
    }
  }

  function Rest(l: seq<Qh>, fin: set<Qh>): seq<Qh> {
    if l == [] then [] else (if l[0] in fin then [] else [l[0]]) + Rest(l[1..], fin)
  }

  lemma {:induction false} ScanAppends(s: Sched, o: Notes, l: seq<Qh>, q: Qh, w: Words, fin: set<Qh>)
    ensures Scan(s, l + [q], fin) == Visit(Scan(s, l, fin), q, fin)
    ensures ScanNotes(s, o, l + [q], w, fin) == Told(Scan(s, l, fin), ScanNotes(s, o, l, w, fin), q, w, fin)
    decreases |l|
  {
    hide Told;
    if l == [] {
      assert l + [q] == [q] && [q][1..] == [];
    } else {
      assert (l + [q])[1..] == l[1..] + [q];
      ScanAppends(Visit(s, l[0], fin), Told(s, o, l[0], w, fin), l[1..], q, w, fin);
    }
  }

  /** The ring or the chain, where each starts and where it ends. */
  ghost function ListOf(s: Sched, async: bool): seq<Qh> {
    if async then s.ring else s.chain
  }

  function StartOf(async: bool): Qh {
    if async then ASYNC else Head(TOP)
  }

  function EndOf(async: bool): Qh {
    if async then ASYNC else 0
  }

  lemma {:induction false} VisitLists(s: Sched, async: bool, qh: Qh, fin: set<Qh>, kept: seq<Qh>, rest: seq<Qh>)
    requires Inv(s) && ListOf(s, async) == kept + [qh] + rest && (qh in fin ==> Pool(qh))
    ensures ListOf(Visit(s, qh, fin), async) == (if qh in fin then kept else kept + [qh]) + rest
      && qh in ListOf(s, async)
    ensures forall q :: q != qh ==> TdsOf(Visit(s, qh, fin).tds, q) == TdsOf(s.tds, q)
    ensures Inv(Visit(s, qh, fin))
  {
    assert qh in kept + [qh] + rest;
    if qh in fin {
      OnListCarries(s, qh);
      FinishFields(s, qh);
      FinishKeeps(s, qh);
      NoDupSplit(s.ring, s.chain);
      NotTwice(kept, qh, rest);
      WithoutSplit(kept, qh, rest);
    }
  }

  lemma {:induction false} KeepOne(kept: seq<Qh>, q: Qh, done: seq<Qh>, rest: seq<Qh>, all: seq<Qh>)
    requires done != [] && done[0] == q && all == done + rest
    ensures kept + all == kept + [q] + all[1..] && all[1..] == done[1..] + rest
  {
  }

  lemma {:induction false} KeptOne(kept: seq<Qh>, q: Qh, gone: bool, left: seq<Qh>, rest: seq<Qh>)
    ensures (if gone then kept else kept + [q]) + (left + rest) == kept + (((if gone then [] else [q]) + left) + rest)
  {
  }

  /** What a scan of `done` leaves of its list, and of the descriptors of the others. */
  lemma {:induction false} ScanLists(s: Sched, async: bool, kept: seq<Qh>, done: seq<Qh>, rest: seq<Qh>, all: seq<Qh>,
                                     fin: set<Qh>)
    requires Inv(s) && ListOf(s, async) == kept + all && all == done + rest && forall q :: q in fin ==> Pool(q)
    ensures ListOf(Scan(s, done, fin), async) == kept + (Rest(done, fin) + rest) && Inv(Scan(s, done, fin))
    ensures forall q :: q !in done ==> TdsOf(Scan(s, done, fin).tds, q) == TdsOf(s.tds, q)
    decreases |done|
  {
    if done == [] {
      assert [] + rest == rest;
    } else {
      var q := done[0];
      KeepOne(kept, q, done, rest, all);
      VisitLists(s, async, q, fin, kept, all[1..]);
      ScanLists(Visit(s, q, fin), async, if q in fin then kept else kept + [q], done[1..], rest, all[1..], fin);
      KeptOne(kept, q, q in fin, Rest(done[1..], fin), rest);
    }
  }

  lemma {:induction false} PlaceInList(hlp: map<Qh, Qh>, from: Qh, kept: seq<Qh>, qh: Qh, rest: seq<Qh>, to: Qh,
                                       l: seq<Qh>)
    requires l == [] + (kept + rest) && rest != [] && rest[0] == qh && Path(hlp, from, l, to)
    ensures At(hlp, qh) == FirstOr(rest[1..], to) && qh in l
  {
    assert l == kept + [qh] + rest[1..];
    PathSplit(hlp, from, kept, qh, rest[1..], to);
  }

  lemma {:induction false} FirstNotDone(done: seq<Qh>, rest: seq<Qh>, all: seq<Qh>)
    requires all == done + rest && rest != [] && NoDup(all)
    ensures rest[0] !in done && rest[0] in all
  {
    assert all == done + [rest[0]] + rest[1..];
    NotTwice(done, rest[0], rest[1..]);
  }

  /** The next visit of a scan, after `done`. */
  lemma {:induction false} NextVisit(s: Sched, o: Notes, async: bool, w: Words, hlp: map<Qh, Qh>, fin: set<Qh>,
                                     done: seq<Qh>, rest: seq<Qh>)
    requires Inv(s) && ListOf(s, async) == done + rest && rest != [] && fin == FinOf(w, s.tds)
    requires var cur := Scan(s, done, fin); ListShape(hlp, cur.ring, cur.chain)
    ensures var cur, qh := Scan(s, done, fin), rest[0];
      && Inv(cur) && qh in ListOf(cur, async)
         && (qh in fin <==> Pool(qh) && Over(TokenAt(w.token, qh), w.td, TdsOf(cur.tds, qh)))
      && At(hlp, qh) == FirstOr(rest[1..], EndOf(async))
      && Scan(s, done + [qh], fin) == Visit(cur, qh, fin)
      && ScanNotes(s, o, done + [qh], w, fin) == Told(cur, ScanNotes(s, o, done, w, fin), qh, w, fin)
  {
    assert [] + ListOf(s, async) == ListOf(s, async);
    ScanLists(s, async, [], done, rest, ListOf(s, async), fin);
    ScanAppends(s, o, done, rest[0], w, fin);
    NoDupSplit(s.ring, s.chain);
    FirstNotDone(done, rest, ListOf(s, async));
    PlaceInList(hlp, StartOf(async), Rest(done, fin), rest[0], rest, EndOf(async), ListOf(Scan(s, done, fin), async));
  }

  /** The notes after `done`. */
  lemma {:induction false} NotesSoFar(s: Sched, o: Notes, async: bool, w: Words, fin: set<Qh>, done: seq<Qh>,
                                      rest: seq<Qh>)
    requires Inv(s) && NotesOk(s, w.td, o) && ListOf(s, async) == done + rest && fin == FinOf(w, s.tds)
    ensures NotesOk(Scan(s, done, fin), w.td, ScanNotes(s, o, done, w, fin))
  {
    EhciNotes.ListsApart(s);
    NoDupSplit(done, rest);
    hide Inv;
    hide NotesOk;
    assert forall q :: q in done ==> q in ListOf(s, async);
    ScanNotesKeep(s, o, done, w, fin);
  }

  /** A linked request has its count of bytes. */
  lemma {:induction false} LinkedHasCount(s: Sched, td: map<Qtd, Td>, o: Notes, q: Qh)
    requires Inv(s) && NotesOk(s, td, o) && OnList(s, q)
    ensures At(s.urb, q) in o.actual
  {
    OnListCarries(s, q);
    assert NoteOk(s, td, o, At(s.urb, q));
  }

  /** The heads carry no request, the queue heads of ring and chain do. */
  lemma {:induction false} Carried(s: Sched, qh: Qh)
    requires Inv(s) && (qh in s.ring || qh in s.chain)
    ensures if Pool(qh) then OnList(s, qh) && At(s.urb, qh) != 0 else At(s.urb, qh) == 0
  {
    if Pool(qh) {
      OnListCarries(s, qh);
    } else {
      HeadsCarryNothing(s, qh);
    }
  }

  lemma {:induction false} WaitingCarries(s: Sched, q: Qh)
    requires Inv(s) && At(s.removing, q) != 0
    ensures At(s.hcpriv, At(s.urb, q)) == q && Pool(q)
  {
    assert Used(s.qhUsed, q);
  }

  lemma {:induction false} ScanAgrees(s: Sched, o: Notes, l: seq<Qh>, w: Words, fin: set<Qh>, fin': set<Qh>)
    requires forall q :: q in l ==> (q in fin <==> q in fin')
    ensures Scan(s, l, fin) == Scan(s, l, fin') && ScanNotes(s, o, l, w, fin) == ScanNotes(s, o, l, w, fin')
    decreases |l|
  {
    if l != [] {
      assert l[0] in l;
      assert forall q :: q in l[1..] ==> q in l;
      ScanAgrees(Visit(s, l[0], fin), Told(s, o, l[0], w, fin), l[1..], w, fin, fin');
    }
  }

  /** The second scan finds over what was over before the first. */
  lemma {:induction false} BothScans(s: Sched, o: Notes, w: Words, fin: set<Qh>, s1: Sched, o1: Notes, fin1: set<Qh>)
    requires Inv(s) && fin == FinOf(w, s.tds) && fin1 == FinOf(w, s1.tds)
    requires s1 == Scan(s, s.ring, fin) && o1 == ScanNotes(s, o, s.ring, w, fin)
    ensures Inv(s1) && Scan(s1, s1.chain, fin1) == ScanBoth(s, fin)
      && ScanNotes(s1, o1, s1.chain, w, fin1) == BothNotes(s, o, w, fin)
  {
    FirstScan(s, fin, s1);
    FinAgrees(s, s1, w, fin, fin1);
    hide Inv;
    hide FinOf;
    ScanAgrees(s1, o1, s1.chain, w, fin, fin1);
  }

  /** The scan of the ring leaves alone the chain, except that it shrinks, and what its queue heads carry. */
  lemma {:induction false} FirstScan(s: Sched, fin: set<Qh>, s1: Sched)
    requires Inv(s) && s1 == Scan(s, s.ring, fin) && forall q :: q in fin ==> Pool(q)
    ensures Inv(s1) && forall q :: q in s1.chain ==> TdsOf(s1.tds, q) == TdsOf(s.tds, q)
  {
    hide Inv;
    hide Scan;
    hide Rest;
    hide NoDup;
    EhciNotes.ListsApart(s);
    assert [] + s.ring == s.ring && s.ring + [] == s.ring;
    ScanLists(s, true, [], s.ring, [], s.ring, fin);
    ScanKeeps(s, s.ring, fin);
  }

  lemma {:induction false} FinAgrees(s: Sched, s1: Sched, w: Words, fin: set<Qh>, fin1: set<Qh>)
    requires fin == FinOf(w, s.tds) && fin1 == FinOf(w, s1.tds)
    requires forall q :: q in s1.chain ==> TdsOf(s1.tds, q) == TdsOf(s.tds, q)
    ensures forall q :: q in s1.chain ==> (q in fin <==> q in fin1)
  {
  }

  lemma {:induction false} OneFurther(done: seq<Qh>, rest: seq<Qh>)
    requires rest != []
    ensures done + rest == (done + [rest[0]]) + rest[1..]
  {
  }

  /** The scan has come to the end of its list. */
  lemma {:induction false} ScanDone(s: Sched, async: bool, done: seq<Qh>, rest: seq<Qh>)
    requires ListsOk(s) && ListOf(s, async) == done + rest
      && (FirstOr(rest, EndOf(async)) == EndOf(async) || FirstOr(rest, EndOf(async)) == 0)
    ensures done == ListOf(s, async)
  {
    EndsElsewhere(s, async);
    assert forall q :: q in rest ==> q in ListOf(s, async);
    assert rest != [] ==> FirstOr(rest, 0) in rest;
  }

  lemma {:induction false} EndsElsewhere(s: Sched, async: bool)
    requires ListsOk(s)
    ensures forall q :: q in ListOf(s, async) ==> q != EndOf(async) && q != 0
  {
  }

  // ----- the descriptors of a new transfer -----

  /** d is chained behind the last descriptor. */
  lemma {:induction false} DescriptorsAppend(next: map<Qtd, Qtd>, f: Qtd, l: seq<Qtd>, d: Qtd)
    requires Descriptors(next, f, l) && l != [] && NoDup(l) && d !in l && d != 0
    ensures Descriptors(next[l[|l| - 1] := d][d := 0], f, l + [d])
    decreases |l|
  {
    var next' := next[l[|l| - 1] := d][d := 0];
    assert (l + [d])[1..] == l[1..] + [d];
    if |l| == 1 {
      assert l[1..] == [] && l[1..] + [d] == [d] && [d][1..] == [];
    } else {
      assert l[|l| - 1] in l[1..];
      DescriptorsAppend(next, At(next, f), l[1..], d);
      assert At(next', f) == At(next, f);
    }
  }

  /** The descriptors of l hold the first chunks, none of them moved yet. */
  ghost predicate Hold(td: map<Qtd, Td>, l: seq<Qtd>, cs: seq<Chunk>) {
    l != [] ==> cs != [] && TdAt(td, l[0]) == FreshTd(cs[0]) && Hold(td, l[1..], cs[1..])
  }

  lemma {:induction false} HoldAppend(td: map<Qtd, Td>, l: seq<Qtd>, d: Qtd, cs: seq<Chunk>)
    requires Hold(td, l, cs) && d !in l && |l| < |cs|
    ensures Hold(td[d := FreshTd(cs[|l|])], l + [d], cs)
  {
    if l == [] {
      assert l + [d] == [d] && [d][1..] == [];
    } else {
      assert (l + [d])[1..] == l[1..] + [d];
      assert l[0] in l;
      HoldAppend(td, l[1..], d, cs[1..]);
    }
  }

  lemma {:induction false} HoldContents(td: map<Qtd, Td>, l: seq<Qtd>, cs: seq<Chunk>)
    requires Hold(td, l, cs) && |l| == |cs|
    ensures Contents(td, l) == FreshTds(cs)
  {
    if l != [] {
      HoldContents(td, l[1..], cs[1..]);
    }
  }

  /** The loop has cut off `done` and has n bytes from `at` on left. */
  ghost predicate Cutting(buf: nat, total: nat, done: seq<Chunk>, at: nat, n: nat) {
    done + Chunks(at, n) == Chunks(buf, total) && at + n == buf + total
  }

  lemma {:induction false} StartCutting(buf: nat, total: nat)
    ensures Cutting(buf, total, [], buf, total) && forall td :: Hold(td, [], Chunks(buf, total))
  {
    assert [] + Chunks(buf, total) == Chunks(buf, total);
  }

  lemma {:induction false} CutOne(buf: nat, total: nat, done: seq<Chunk>, at: nat, n: nat)
    requires Cutting(buf, total, done, at, n)
    ensures var c := if n > CHUNK then Chunk(at, CHUNK, false) else Chunk(at, n, true);
      && |done| < |Chunks(buf, total)| && Chunks(buf, total)[|done|] == c && c.at + c.len <= buf + total
      && (n > CHUNK ==> Cutting(buf, total, done + [c], at + CHUNK, n - CHUNK) && |done| + 1 < |Chunks(buf, total)|)
      && (n <= CHUNK ==> |done| + 1 == |Chunks(buf, total)|)
  {
    var c := Chunks(at, n)[0];
    assert (done + Chunks(at, n))[|done|] == c;
    if n > CHUNK {
      assert done + Chunks(at, n) == (done + [c]) + Chunks(at + CHUNK, n - CHUNK);
    }
  }

  /** The descriptors l have been taken from the pool u. */
  ghost predicate Taking(u: seq<bool>, l: seq<Qtd>, used: seq<bool>) {
    |l| <= FreeCount(u) && l == Taken(u, |l|) && used == Marked(u, |l|)
  }

  lemma {:induction false} StartTaking(u: seq<bool>)
    ensures Taking(u, [], u)
  {
  }

  lemma {:induction false} TakingEnds(u: seq<bool>, l: seq<Qtd>, used: seq<bool>)
    requires Taking(u, l, used)
    ensures |l| <= FreeCount(u) && l == Taken(u, |l|) && used == Marked(u, |l|)
  {
  }

  lemma {:induction false} TakingOn(u: seq<bool>, l: seq<Qtd>, used: seq<bool>)
    requires Taking(u, l, used) && |l| < FreeCount(u)
    ensures FreeCount(used) > 0 && NoDup(l) && forall x :: x in l ==> x != 0 && Used(used, x)
  {
    TakenNext(u, |l|);
    TakenAre(u, |l|);
  }

  lemma {:induction false} TakenLast(u: seq<bool>, l: seq<Qtd>, d: Qtd, used: seq<bool>)
    requires |l| < FreeCount(u) && l == Taken(u, |l|)
    requires var m := Marked(u, |l|); FirstFree(m, 0) < |m| && d == FirstFree(m, 0) + 1 && used == m[d - 1 := true]
    ensures Taking(u, l + [d], used) && d != 0
  {
    TakenNext(u, |l|);
  }

  /** A queue head that goes back at once leaves no trace on the lists. */
  lemma {:induction false} FailShape(first: map<Qh, Qtd>, s: Sched, u: Urb, asked: nat, k: nat, next: map<Qtd, Qtd>)
    requires Inv(s) && FreeCount(s.qhUsed) > 0 && asked > FreeCount(s.qtdUsed)
    requires QtdShape(first, next, s.ring, s.chain, s.tds)
    ensures var s', q := Submit(s, u, asked, k), NextQh(s); QtdShape(first[q := 0], next, s'.ring, s'.chain, s'.tds)
    ensures var s' := Submit(s, u, asked, k); s'.ring == s.ring && s'.chain == s.chain
  {
    NextQhIsFree(s);
    FailFields(s, u, asked, k);
  }

  /** The queue head that carries a linked request is on the list for it. */
  lemma {:induction false} Carrier(s: Sched, u: Urb)
    requires Inv(s) && At(s.hcpriv, u) != 0 && At(s.removing, At(s.hcpriv, u)) == 0
    ensures At(s.hcpriv, u) in ListOf(s, At(s.slot, u) == 0) && At(s.urb, At(s.hcpriv, u)) == u
  {
    KillFields(s, u);
    OnListCarries(s, At(s.hcpriv, u));
  }

  lemma {:induction false} FoundCarrier(s: Sched, u: Urb, async: bool, rest: seq<Qh>, qh: Qh)
    requires Inv(s) && At(s.hcpriv, u) != 0 && At(s.hcpriv, u) in rest
      && forall q :: q in rest ==> q in ListOf(s, async)
    requires qh == FirstOr(rest, EndOf(async)) && (qh == EndOf(async) || qh == 0 || At(s.urb, qh) == u)
    ensures qh == At(s.hcpriv, u)
  {
    EndsElsewhere(s, async);
    assert rest != [] && FirstOr(rest, 0) in rest;
  }

  lemma {:induction false} AllTaken(u: seq<bool>, l: seq<Qtd>, used: seq<bool>)
    requires Taking(u, l, used)
    ensures FreeCount(used) == FreeCount(u) - |l|
  {
    if |l| < FreeCount(u) {
      TakenNext(u, |l|);
    } else if |l| > 0 {
      TakenNext(u, |l| - 1);
      MarkCount(Marked(u, |l| - 1), FirstFree(Marked(u, |l| - 1), 0));
    }
  }

  lemma {:induction false} ControlChainIs(s: Sched, u: Urb, setup: Qtd, data: Qtd, status: Qtd, wLength: nat,
                                          buflen: nat)
    requires Served(s, ControlNeeds(buflen)) && (wLength > 0 ==> buflen > 0)
    requires Taken(s.qtdUsed, ControlNeeds(buflen)) == if buflen > 0 then [setup, data, status] else [setup, status]
    ensures ControlChain(s, wLength, buflen) == if wLength > 0 then [setup, data, status] else [setup, status]
    ensures var s1 := AllocQh(Unclaimed(s, u)).(qtdUsed := Marked(s.qtdUsed, ControlNeeds(buflen)));
      ControlLinked(s, u, wLength, buflen) ==
        Link(s1.(tds := s1.tds[NextQh(s) := ControlChain(s, wLength, buflen)]), NextQh(s), u)
  {
  }

  /** All that filling and linking a control transfer relies on. */
  lemma {:induction false} ControlPrepared(s: Sched, s1: Sched, u: Urb, setup: Qtd, data: Qtd, status: Qtd,
                                           wLength: nat, buflen: nat)
    requires Inv(s) && Served(s, ControlNeeds(buflen)) && (wLength > 0 ==> buflen > 0)
    requires Taken(s.qtdUsed, ControlNeeds(buflen)) == if buflen > 0 then [setup, data, status] else [setup, status]
    requires s1 == AllocQh(Unclaimed(s, u)).(qtdUsed := Marked(s.qtdUsed, ControlNeeds(buflen)))
    ensures ListsOk(s1) && Pool(NextQh(s)) && NextQh(s) !in s.ring && NextQh(s) !in s.chain
    ensures setup != 0 && status != 0 && setup != status
      && (buflen > 0 ==> data != 0 && data != setup && data != status)
    ensures ControlChain(s, wLength, buflen) == if wLength > 0 then [setup, data, status] else [setup, status]
    ensures ControlLinked(s, u, wLength, buflen) ==
      Link(s1.(tds := s1.tds[NextQh(s) := ControlChain(s, wLength, buflen)]), NextQh(s), u)
  {
    NextQhIsFree(s);
    ControlDistinct(s.qtdUsed, setup, data, status, buflen);
    ControlChainIs(s, u, setup, data, status, wLength, buflen);
    SameLists(s, s1);
  }

  lemma {:induction false} ChainOfTwo(next: map<Qtd, Qtd>, a: Qtd, b: Qtd)
    requires At(next, a) == b && At(next, b) == 0 && a != 0 && b != 0
    ensures Descriptors(next, a, [a, b])
  {
    assert [a, b][1..] == [b] && [b][1..] == [];
    assert Descriptors(next, b, [b]);
  }

  lemma {:induction false} ChainOfThree(next: map<Qtd, Qtd>, a: Qtd, b: Qtd, c: Qtd)
    requires At(next, a) == b && At(next, b) == c && At(next, c) == 0 && a != 0 && b != 0 && c != 0
    ensures Descriptors(next, a, [a, b, c])
  {
    ChainOfTwo(next, b, c);
    assert [a, b, c][1..] == [b, c];
  }

  lemma {:induction false} ControlDistinct(u: seq<bool>, setup: Qtd, data: Qtd, status: Qtd, buflen: nat)
    requires ControlNeeds(buflen) <= FreeCount(u)
    requires Taken(u, ControlNeeds(buflen)) == if buflen > 0 then [setup, data, status] else [setup, status]
    ensures setup != 0 && status != 0 && setup != status
    ensures buflen > 0 ==> data != 0 && data != setup && data != status
  {
    var l := Taken(u, ControlNeeds(buflen));
    TakenAre(u, ControlNeeds(buflen));
    assert setup in l && status in l && (buflen > 0 ==> data in l);
    assert l[1..] == if buflen > 0 then [data, status] else [status];
    assert [data, status][1..] == [status];
  }

  /** What the owners of the requests are told. */
  class Outcomes {
    var actual: map<Urb, int>
    var errorcode: map<Urb, int>
    /** What the requests were given, and what their descriptors held at the end. */
    ghost var given: map<Urb, seq<Td>>
    ghost var final: map<Urb, seq<Td>>

    constructor ()
      ensures N() == Notes(map[], map[], map[], map[])
    {
      actual, errorcode, given, final := map[], map[], map[], map[];
    }

    ghost function N(): Notes
      reads this
    {
      Notes(actual, errorcode, given, final)
    }
  }

  lemma {:induction false} HoldTwo(td: map<Qtd, Td>, a: Qtd, b: Qtd, cs: seq<Chunk>)
    requires |cs| == 2 && TdAt(td, a) == FreshTd(cs[0]) && TdAt(td, b) == FreshTd(cs[1])
    ensures Hold(td, [a, b], cs)
  {
    assert [a, b][1..] == [b] && [b][1..] == [];
    assert Hold(td, [b], cs[1..]);
  }

  lemma {:induction false} HoldThree(td: map<Qtd, Td>, a: Qtd, b: Qtd, c: Qtd, cs: seq<Chunk>)
    requires |cs| == 3 && TdAt(td, a) == FreshTd(cs[0]) && TdAt(td, b) == FreshTd(cs[1])
      && TdAt(td, c) == FreshTd(cs[2])
    ensures Hold(td, [a, b, c], cs)
  {
    HoldTwo(td, b, c, cs[1..]);
    assert [a, b, c][1..] == [b, c];
  }

  /** What the notes and the descriptors are after a control submit that is not refused. */
  ghost predicate ControlNoted(s: Sched, w: Words, o: Notes, w': Words, o': Notes, u: Urb, cs: seq<Chunk>,
                               wLength: nat, buflen: nat) {
    && w'.token == ClearedToken(s, w.token)
    && if Served(s, ControlNeeds(buflen)) then
        && Hold(w'.td, ControlChain(s, wLength, buflen), cs)
        && (forall x :: x !in Taken(s.qtdUsed, ControlNeeds(buflen)) ==> TdAt(w'.td, x) == TdAt(w.td, x))
        && o' == Given(o, u, FreshTds(cs))
      else w'.td == w.td && o' == Busy(o, u)
  }

  lemma {:induction false} NothingTakenControl(s: Sched, w: Words, o: Notes, w': Words, o': Notes, u: Urb,
                                               cs: seq<Chunk>, wLength: nat, buflen: nat)
    requires FreeCount(s.qhUsed) == 0 && w' == w && o' == Busy(o, u)
    ensures ControlNoted(s, w, o, w', o', u, cs, wLength, buflen)
      && SubmitControl(s, u, wLength, buflen) == Unclaimed(s, u)
  {
  }

  lemma {:induction false} ControlTaken(s: Sched, w: Words, o: Notes, w': Words, o': Notes, u: Urb, cs: seq<Chunk>,
                                        wLength: nat, buflen: nat, ok: bool)
    requires FreeCount(s.qhUsed) > 0 && (ok <==> Served(s, ControlNeeds(buflen)))
      && w'.token == w.token[NextQh(s) := NO_TOKEN]
    requires if ok then
      && Hold(w'.td, ControlChain(s, wLength, buflen), cs)
      && (forall x :: x !in Taken(s.qtdUsed, ControlNeeds(buflen)) ==> TdAt(w'.td, x) == TdAt(w.td, x))
         else w'.td == w.td
    requires o' == if ok then Gave(Busy(o, u), u, FreshTds(cs)) else Busy(o, u)
    ensures ControlNoted(s, w, o, w', o', u, cs, wLength, buflen)
  {
  }

  /** With a buffer exactly for announced data, a control submit is a submit of its chunks. */
  lemma {:induction false} ControlStep(m: Machine, e: Event, m': Machine, ok: bool)
    requires MachineOk(m) && e.SubmitSetup? && Possible(m, e) && !Refused(m, e.u) && m'.bell == m.bell
    requires m'.s == SubmitControl(m.s, e.u, e.wLength, e.buflen)
    requires ControlNoted(m.s, m.w, m.o, m'.w, m'.o, e.u, ChunksOf(e), e.wLength, e.buflen)
    ensures Steps(m, e, m')
  {
    ControlNeedsChunks(e.setup, e.buf, e.wLength, e.buflen);
    ControlIsSubmit(m.s, e.u, e.wLength, e.buflen);
    if Served(m.s, ControlNeeds(e.buflen)) {
      TakenAre(m.s.qtdUsed, ControlNeeds(e.buflen));
      HoldContents(m'.w.td, Taken(m.s.qtdUsed, ControlNeeds(e.buflen)), ChunksOf(e));
    }
  }

  /** The token of the queue head that a submit takes is cleared. */
  function ClearedToken(s: Sched, token: map<Qh, Token>): map<Qh, Token> {
    if FreeCount(s.qhUsed) > 0 then token[NextQh(s) := NO_TOKEN] else token
  }

  /** What words and notes are after a data submit that is not refused. */
  ghost predicate DataNoted(s: Sched, w: Words, o: Notes, w': Words, o': Notes, u: Urb, buf: nat, n: nat) {
    && w'.token == ClearedToken(s, w.token)
    && if Served(s, Asked(n)) then
        && |Chunks(buf, n)| <= FreeCount(s.qtdUsed)
        && Filled(w.td, w'.td, Taken(s.qtdUsed, |Chunks(buf, n)|), FreshTds(Chunks(buf, n)))
        && o' == Given(o, u, FreshTds(Chunks(buf, n)))
      else w'.td == w.td && o' == Busy(o, u)
  }

  lemma {:induction false} NothingTaken(s: Sched, w: Words, o: Notes, w': Words, o': Notes, u: Urb, buf: nat, n: nat)
    requires FreeCount(s.qhUsed) == 0 && w' == w && o' == Busy(o, u)
    requires Asked(n) <= FreeCount(s.qtdUsed) ==> |Chunks(buf, n)| <= FreeCount(s.qtdUsed)
    ensures DataNoted(s, w, o, w', o', u, buf, n) && Submit(s, u, Asked(n), |Chunks(buf, n)|) == Unclaimed(s, u)
  {
  }

  lemma {:induction false} DataTaken(s: Sched, w: Words, o: Notes, w': Words, o': Notes, u: Urb, buf: nat, n: nat,
                                     ok: bool)
    requires FreeCount(s.qhUsed) > 0 && (ok <==> Asked(n) <= FreeCount(s.qtdUsed))
      && w'.token == w.token[NextQh(s) := NO_TOKEN]
    requires if ok then |Chunks(buf, n)| <= FreeCount(s.qtdUsed) &&
      Filled(w.td, w'.td, Taken(s.qtdUsed, |Chunks(buf, n)|), FreshTds(Chunks(buf, n))) else w'.td == w.td
    requires o' == if ok then Gave(Busy(o, u), u, FreshTds(Chunks(buf, n))) else Busy(o, u)
    ensures DataNoted(s, w, o, w', o', u, buf, n)
  {
  }

  class Driver {
    const qhs: EntryPool
    const qtds: EntryPool
    const links: Links
    const outcomes: Outcomes
    var first: map<Qh, Qtd>
    var nextQtd: map<Qtd, Qtd>
    var td: map<Qtd, Td>
    var token: map<Qh, Token>
    var urb: map<Qh, Urb>
    var removing: map<Qh, int>
    var hcpriv: map<Urb, Qh>
    const eps: map<Urb, Endpoint>
    const slot: map<Urb, int> := SlotsOf(eps)
    const framelist: seq<Qh>

    ghost var ring: seq<Qh>
    ghost var chain: seq<Qh>
    ghost var tds: map<Qh, seq<Qtd>>
    /** The doorbell, which is the controller's. */
    ghost var bell: Bell

    /** Nothing taken, the ring empty, and each periodic head linked to the next smaller one. */
    constructor (eps: map<Urb, Endpoint>)
      ensures Good() && M() == Started(SlotsOf(eps)) && this.eps == eps
      ensures fresh(qhs) && fresh(qhs.used) && fresh(qtds) && fresh(qtds.used) && fresh(links) && fresh(outcomes)
    {
      hide MachineOk;
      hide ListShape;
      hide HeadsDown;
      hide LinksOf;
      hide FramesOf;
      hide FrameList;
      hide SlotsOf;
      hide EhciFrames.Scheduled;
      hide AllFree;
      var frames, hlp := EhciFrames.BuildSchedule(TOP);
      InitialShape(frames[..], hlp[..]);
      HeadsAreNotPool();
      StartedOk(SlotsOf(eps));
      qhs := new EntryPool(QH_NUM);
      qtds := new EntryPool(QTD_NUM);
      links := new Links(LinksOf(hlp[..]));
      outcomes := new Outcomes();
      first, nextQtd, td, token := map[], map[], map[], map[];
      urb, removing, hcpriv := map[], map[], map[];
      this.eps, framelist := eps, FramesOf(frames[..]);
      ring, chain, tds, bell := [], HeadsDown(TOP - 1), map[], SILENT;
      new;
    }

    ghost function S(): Sched
      reads this, qhs.used, qtds.used
    {
      Sched(qhs.used[..], qtds.used[..], ring, chain, tds, urb, removing, hcpriv, slot)
    }

    ghost function W(): Words
      reads this
    {
      Words(td, token)
    }

    ghost function M(): Machine
      reads this, qhs.used, qtds.used, outcomes
    {
      Machine(S(), W(), outcomes.N(), bell)
    }

    /** Memory is in shape, and the books are. */
    ghost predicate Good()
      reads this, links, qhs.used, qtds.used, outcomes
    {
      Separate() && Shape() && MachineOk(M()) && FrameList(framelist)
    }

    ghost predicate Separate()
      reads this
    {
      qhs.used != qtds.used
    }

    ghost predicate Shape()
      reads this, links
    {
      ListShape(links.hlp, ring, chain) && QtdShape(first, nextQtd, ring, chain, tds)
    }

    ghost predicate Valid()
      reads this, links, qhs.used, qtds.used
    {
      Separate() && Shape() && Inv(S())
    }

    /** The queue heads whose transfers are over, as the status words say. */
    ghost predicate IsOver(q: Qh)
      reads this
    {
      Over(TokenAt(token, q), td, TdsOf(tds, q))
    }

    /** The head behind which the queue head of a request is linked. */
    method HeadOf(u: Urb) returns (h: Qh)
      ensures h == HeadFor(At(slot, u))
    {
      SlotIs(eps, u);
      var e := EndpointOf(eps, u);
      if !e.interrupt {
        return ASYNC;
      }
      var i := EhciFrames.PeriodicHead(Microframes(e), TOP);
      h := Head(i);
    }

    /** The queue head leaves the list behind the given head. */
    method Unlink(head: Qh, qh: Qh)
      requires Valid() && OnList(S(), qh) && head == HeadFor(At(slot, At(urb, qh)))
      modifies links
      ensures ListShape(links.hlp, Without(ring, qh), Without(chain, qh)) && At(links.hlp, qh) == old(At(links.hlp, qh))
    {
      ghost var a, b, from, to := PlaceOf(links.hlp, S(), qh);
      links.Remove(head, qh, a, b, to);
    }

    /** The bytes moved are added up and the descriptors return to the pool. */
    method ReleaseQtds(qh: Qh, u: Urb, ghost l: seq<Qtd>)
      requires Descriptors(nextQtd, At(first, qh), l) && u in outcomes.actual
      modifies `first, outcomes`actual, qtds.used
      ensures qtds.used[..] == Freed(old(qtds.used[..]), l)
      ensures outcomes.actual == old(outcomes.actual)[u := old(At(outcomes.actual, u)) + Moved(td, l)]
      ensures At(first, qh) == 0 && forall q :: q != qh ==> At(first, q) == old(At(first, q))
    {
      var qtd := At(first, qh);
      ghost var rest, used0, actual0 := l, qtds.used[..], outcomes.actual;
      while qtd != 0
        invariant Descriptors(nextQtd, qtd, rest) && qtd == At(first, qh)
        invariant Freed(used0, l) == Freed(qtds.used[..], rest)
        invariant outcomes.actual == actual0[u := At(outcomes.actual, u)]
        invariant At(outcomes.actual, u) + Moved(td, rest) == At(actual0, u) + Moved(td, l)
        invariant forall q :: q != qh ==> At(first, q) == old(At(first, q))
        decreases |rest|
      {
        FreedOne(qtds.used[..], rest);
        outcomes.actual := outcomes.actual[u := At(outcomes.actual, u) + TdAt(td, qtd).total - TdAt(td, qtd).left];
        qtds.Free(qtd);
        first := first[qh := At(nextQtd, qtd)];
        qtd := At(first, qh);
        rest := rest[1..];
      }
    }

    /** Whether a descriptor of the queue head is still active. */
    method StillActive(qh: Qh, ghost l: seq<Qtd>) returns (active: bool)
      requires Descriptors(nextQtd, At(first, qh), l)
      ensures active <==> AnyActive(td, l)
    {
      var qtd := At(first, qh);
      ghost var rest := l;
      while qtd != 0
        invariant Descriptors(nextQtd, qtd, rest) && (AnyActive(td, l) <==> AnyActive(td, rest))
        decreases |rest|
      {
        if TdAt(td, qtd).active {
          return true;
        }
        qtd := At(nextQtd, qtd);
        rest := rest[1..];
      }
      active := false;
    }

    /** A queue head goes back to the pool. */
    method FreeQueueHead(qh: Qh)
      requires Separate() && 1 <= qh <= qhs.used.Length
      modifies qhs.used, `urb
      ensures S() == FreeQh(old(S()), qh)
    {
      qhs.Free(qh);
      assert qhs.used[..] == old(qhs.used[..])[qh - 1 := false] by {
        assert [qh][1..] == [];
      }
      urb := urb[qh := 0];
    }

    /** The request's queue head goes back to the pool and its owner is told. */
    method WakeUp(u: Urb)
      requires Separate() && 1 <= At(hcpriv, u) <= qhs.used.Length
      modifies qhs.used, `urb, `hcpriv, `removing
      ensures S() == Complete(old(S()), u)
    {
      var qh := At(hcpriv, u);
      urb := urb[qh := 0];
      hcpriv := hcpriv[u := 0];
      removing := removing[qh := 0];
      FreeQueueHead(qh);
      assert urb == old(urb)[qh := 0];
    }

    method NoteError(u: Urb, code: int)
      modifies outcomes`errorcode
      ensures outcomes.errorcode == old(outcomes.errorcode)[u := code]
    {
      outcomes.errorcode := outcomes.errorcode[u := code];
    }

    /** What the descriptors of u held at the end is recorded. */
    ghost method Record(u: Urb, ts: seq<Td>)
      modifies outcomes`final
      ensures outcomes.final == old(outcomes.final)[u := ts]
    {
      outcomes.final := outcomes.final[u := ts];
    }

    /** The outcome of a transfer that is over is noted, and it is unlinked and its descriptors released. */
    method EndTransfer(head: Qh, qh: Qh, u: Urb, code: int)
      requires Valid() && OnList(S(), qh) && u == At(urb, qh) && head == HeadFor(At(slot, u)) && u in outcomes.actual
      modifies links, qtds.used, outcomes, `first, `ring, `chain, `tds
      ensures Shape() && S() == Dequeue(old(S()), qh)
      ensures At(links.hlp, qh) == old(At(links.hlp, qh))
      ensures outcomes.N() == Ended(old(outcomes.N()), u, code, old(Contents(td, TdsOf(tds, qh))))
    {
      hide Inv;
      hide ListShape;
      hide QtdShape;
      MovedIs(td, TdsOf(tds, qh));
      NoteError(u, code);
      Record(u, Contents(td, TdsOf(tds, qh)));
      DequeueQh(head, qh, u);
    }

    /** An interrupt transfer that is over is completed at once, any other waits for the doorbell. */
    method FinishQh(head: Qh, qh: Qh, u: Urb, code: int)
      requires Valid() && OnList(S(), qh) && u == At(urb, qh) && head == HeadFor(At(slot, u)) && u in outcomes.actual
      modifies links, qtds.used, qhs.used, outcomes, `first, `ring, `chain, `tds, `urb, `hcpriv, `removing
      ensures Shape() && S() == Finish(old(S()), qh)
      ensures At(links.hlp, qh) == old(At(links.hlp, qh))
      ensures outcomes.N() == Ended(old(outcomes.N()), u, code, old(Contents(td, TdsOf(tds, qh))))
    {
      hide Inv;
      hide ListShape;
      hide QtdShape;
      hide Ended;
      OnListCarries(S(), qh);
      EndTransfer(head, qh, u, code);
      SlotIs(eps, u);
      if EndpointOf(eps, u).interrupt {
        WakeUp(u);
      } else {
        removing := removing[qh := 1];
      }
    }

    /** Whether the transfer of a queue head is over. */
    method TransferOver(qh: Qh) returns (over: bool)
      requires Descriptors(nextQtd, At(first, qh), TdsOf(tds, qh))
      ensures over <==> IsOver(qh)
    {
      var t := TokenAt(token, qh);
      if t.active && !Errors(t) {
        return false;
      }
      if !Errors(t) {
        var busy := StillActive(qh, TdsOf(tds, qh));
        return !busy;
      }
      return true;
    }

    /** One visit of a scan: a transfer that is over is finished. */
    method CheckQh(head: Qh, qh: Qh, ghost fin: set<Qh>)
      requires Valid() && OnList(S(), qh) && head == HeadFor(At(slot, At(urb, qh))) && At(urb, qh) in outcomes.actual
      requires At(urb, qh) != 0 && (qh in fin <==> IsOver(qh))
      modifies links, qtds.used, qhs.used, outcomes, `first, `ring, `chain, `tds, `urb, `hcpriv, `removing
      ensures Shape() && S() == Visit(old(S()), qh, fin)
      ensures At(links.hlp, qh) == old(At(links.hlp, qh))
      ensures outcomes.N() == Told(old(S()), old(outcomes.N()), qh, W(), fin)
    {
      hide Inv;
      hide ListShape;
      hide QtdShape;
      hide Finish;
      hide Over;
      hide Descriptors;
      hide Ended;
      CarriedDescriptors(first, nextQtd, S(), qh);
      var over := TransferOver(qh);
      if over {
        FinishQh(head, qh, At(urb, qh), ErrorCode(TokenAt(token, qh)));
      }
    }

    /** The queue head leaves its list and its descriptors are released. */
    method DequeueQh(head: Qh, qh: Qh, u: Urb)
      requires Valid() && OnList(S(), qh) && u == At(urb, qh) && head == HeadFor(At(slot, u)) && u in outcomes.actual
      modifies links, qtds.used, outcomes`actual, `first, `ring, `chain, `tds
      ensures S() == Dequeue(old(S()), qh) && Shape()
      ensures At(links.hlp, qh) == old(At(links.hlp, qh))
      ensures outcomes.actual == old(outcomes.actual)[u := old(At(outcomes.actual, u) + Moved(td, TdsOf(tds, qh)))]
    {
      hide Inv;
      hide ListShape;
      hide QtdShape;
      hide Moved;
      ghost var s, first0, l := S(), first, TdsOf(tds, qh);
      CarriedDescriptors(first, nextQtd, s, qh);
      Unlink(head, qh);
      ReleaseQtds(qh, u, l);
      QtdShapeShrinks(first0, first, nextQtd, s, qh);
      Forget(qh);
    }

    ghost method Forget(qh: Qh)
      modifies `ring, `chain, `tds
      ensures S() == old(S()).(ring := Without(old(ring), qh), chain := Without(old(chain), qh),
        tds := old(tds)[qh := []])
    {
      ring, chain, tds := Without(ring, qh), Without(chain, qh), tds[qh := []];
    }

    // ----- submitting -----

    /** A descriptor is filled for a chunk. */
    method FillTd(d: Qtd, c: Chunk)
      requires c.at + c.len <= WORD
      modifies `td
      ensures td == old(td)[d := FreshTd(c)]
    {
      var bpl := new int[5](_ => 0);
      assert bpl[..] == [0, 0, 0, 0, 0];
      BplFill(bpl, c.at, c.len);
      td := td[d := Td(c.len, c.len % COUNT, true, c.at, c.ioc, bpl[..])];
    }

    /** One descriptor from the pool, filled for a chunk and chained behind prev, if there is one. */
    method AddQtd(prev: Qtd, c: Chunk, f: Qtd, ghost l: seq<Qtd>, ghost cs: seq<Chunk>) returns (d: Qtd, f': Qtd)
      requires FreeCount(qtds.used[..]) > 0 && NoDup(l) && |l| < |cs| && cs[|l|] == c && c.at + c.len <= WORD
      requires prev == LastOr(0, l) && (l != [] ==> Descriptors(nextQtd, f, l)) && Hold(td, l, cs)
      requires forall x :: x in l ==> x != 0 && Used(qtds.used[..], x)
      modifies qtds.used, `nextQtd, `td
      ensures var u := old(qtds.used[..]);
        FirstFree(u, 0) < |u| && d == FirstFree(u, 0) + 1 && qtds.used[..] == u[d - 1 := true]
      ensures d !in l && NoDup(l + [d]) && Descriptors(nextQtd, f', l + [d]) && Hold(td, l + [d], cs)
      ensures forall x :: x !in l && x != d ==> At(nextQtd, x) == old(At(nextQtd, x)) && TdAt(td, x) == old(TdAt(td, x))
    {
      TakesOne(qtds.used[..]);
      d := qtds.Alloc();
      HoldAppend(td, l, d, cs);
      NoDupSplit(l, [d]);
      assert [d][1..] == [];
      ghost var next0 := nextQtd;
      if l != [] {
        DescriptorsAppend(nextQtd, f, l, d);
        assert prev in l;
      } else {
        assert l + [d] == [d];
      }
      FillTd(d, c);
      nextQtd := nextQtd[d := 0];
      if prev != 0 {
        nextQtd := nextQtd[prev := d];
        f' := f;
        assert nextQtd == next0[prev := d][d := 0];
      } else {
        f' := d;
      }
    }

    /** The descriptors of a bulk or interrupt transfer of the n bytes from buf on. */
    method CutTransfer(buf: nat, n: nat) returns (firstQtd: Qtd)
      requires |Chunks(buf, n)| <= FreeCount(qtds.used[..]) && buf + n <= WORD
      modifies qtds.used, `nextQtd, `td
      ensures var u, k := old(qtds.used[..]), |Chunks(buf, n)|;
        qtds.used[..] == Marked(u, k) && Descriptors(nextQtd, firstQtd, Taken(u, k))
          && Hold(td, Taken(u, k), Chunks(buf, n))
      ensures OthersKept(Taken(old(qtds.used[..]), |Chunks(buf, n)|))
    {
      hide Hold;
      hide Descriptors;
      hide Cutting;
      hide Taking;
      hide Chunks;
      hide FreeCount;
      ghost var u, cs, done, l: seq<Qtd> := qtds.used[..], Chunks(buf, n), [], [];
      var rest: nat, at: nat, prev := n, buf, 0;
      firstQtd := 0;
      StartCutting(buf, n);
      StartTaking(u);
      CutOne(buf, n, done, at, rest);
      while rest > CHUNK
        invariant Cutting(buf, n, done, at, rest) && |done| == |l| < |cs|
        invariant Taking(u, l, qtds.used[..]) && prev == LastOr(0, l)
        invariant (l != [] ==> Descriptors(nextQtd, firstQtd, l)) && Hold(td, l, cs) && OthersKept(l)
        decreases rest
      {
        CutOne(buf, n, done, at, rest);
        prev, firstQtd := AddChunk(prev, Chunk(at, CHUNK, false), firstQtd, u, l, cs);
        l := l + [prev];
        done := done + [Chunk(at, CHUNK, false)];
        at, rest := at + CHUNK, rest - CHUNK;
      }
      CutOne(buf, n, done, at, rest);
      prev, firstQtd := AddChunk(prev, Chunk(at, rest, true), firstQtd, u, l, cs);
      TakingEnds(u, l + [prev], qtds.used[..]);
    }

    /** One more chunk of a transfer whose descriptors so far are l. */
    method AddChunk(prev: Qtd, c: Chunk, f: Qtd, ghost u: seq<bool>, ghost l: seq<Qtd>, ghost cs: seq<Chunk>)
      returns (d: Qtd, f': Qtd)
      requires Taking(u, l, qtds.used[..]) && |l| < FreeCount(u) && |l| < |cs| && cs[|l|] == c && c.at + c.len <= WORD
      requires prev == LastOr(0, l) && (l != [] ==> Descriptors(nextQtd, f, l)) && Hold(td, l, cs)
      modifies qtds.used, `nextQtd, `td
      ensures Taking(u, l + [d], qtds.used[..]) && Descriptors(nextQtd, f', l + [d]) && Hold(td, l + [d], cs)
      ensures forall x :: x !in l + [d] ==> At(nextQtd, x) == old(At(nextQtd, x)) && TdAt(td, x) == old(TdAt(td, x))
    {
      TakingOn(u, l, qtds.used[..]);
      d, f' := AddQtd(prev, c, f, l, cs);
      TakenLast(u, l, d, qtds.used[..]);
    }

    /** Only the descriptors of l were written. */
    twostate predicate OthersKept(l: seq<Qtd>)
      reads this
    {
      forall x :: x !in l ==> At(nextQtd, x) == old(At(nextQtd, x)) && TdAt(td, x) == old(TdAt(td, x))
    }

    /** A cleared queue head from the pool, or 0. */
    method TakeQh() returns (qh: Qh)
      requires Separate()
      modifies qhs.used, `first, `token, `urb, `removing, `tds
      ensures qh == 0 <==> FreeCount(old(qhs.used[..])) == 0
      ensures qh == 0 ==> S() == old(S()) && first == old(first)
      ensures qh != 0 ==> qh == NextQh(old(S())) && S() == AllocQh(old(S())) && first == old(first)[qh := 0]
      ensures token == if qh != 0 then old(token)[qh := NO_TOKEN] else old(token)
    {
      qh := qhs.Alloc();
      if qh != 0 {
        first := first[qh := 0];
        token := token[qh := NO_TOKEN];
        urb := urb[qh := 0];
        removing := removing[qh := 0];
        tds := tds[qh := []];
      }
    }

    /** The queue head with its descriptors starts to carry the request. */
    method LinkQh(qh: Qh, u: Urb, f: Qtd, ghost l: seq<Qtd>)
      requires Separate() && ListsOk(S()) && ListShape(links.hlp, ring, chain)
      requires Pool(qh) && qh !in ring && qh !in chain && 0 <= At(slot, u) <= TOP + 1
      modifies links, `first, `urb, `hcpriv, `ring, `chain, `tds
      ensures S() == Link(old(S()).(tds := old(tds)[qh := l]), qh, u) && ListShape(links.hlp, ring, chain)
      ensures first == old(first)[qh := f]
    {
      hide ListShape;
      hide ListsOk;
      hide AddBehind;
      ghost var s := S();
      AddHeadShape(links.hlp, s, qh, u);
      first := first[qh := f];
      urb := urb[qh := u];
      hcpriv := hcpriv[u := qh];
      var head := HeadOf(u);
      links.AddHead(head, qh);
      ghost var s' := Link(s, qh, u);
      ring, chain, tds := s'.ring, s'.chain, tds[qh := l];
    }

    /** The request is marked busy and gets a queue head, if there is one. */
    method StartSubmit(u: Urb) returns (qh: Qh)
      requires Separate()
      modifies qhs.used, outcomes, `first, `token, `urb, `removing, `tds, `hcpriv
      ensures qh == 0 <==> FreeCount(old(qhs.used[..])) == 0
      ensures qh == 0 ==> S() == Unclaimed(old(S()), u) && first == old(first)
      ensures qh != 0 ==>
        qh == NextQh(old(S())) && S() == AllocQh(Unclaimed(old(S()), u)) && first == old(first)[qh := 0]
      ensures outcomes.N() == Busy(old(outcomes.N()), u)
      ensures token == if qh != 0 then old(token)[qh := NO_TOKEN] else old(token)
    {
      hcpriv := hcpriv[u := 0];
      outcomes.errorcode := outcomes.errorcode[u := -EBUSY];
      outcomes.actual := outcomes.actual[u := 0];
      outcomes.final := outcomes.final - {u};
      qh := TakeQh();
    }

    /** The descriptors that u was given are recorded. */
    ghost method Give(u: Urb, ts: seq<Td>)
      modifies outcomes`given
      ensures outcomes.N() == Gave(old(outcomes.N()), u, ts)
    {
      outcomes.given := outcomes.given[u := ts];
    }

    /** A submit from state s has its queue head; the request is in `first0` and `next0` as before. */
    ghost predicate HasQh(s: Sched, u: Urb, qh: Qh, first0: map<Qh, Qtd>)
      reads this, links, qhs.used, qtds.used
    {
      && FreeCount(s.qhUsed) > 0 && qh == NextQh(s) && S() == AllocQh(Unclaimed(s, u)) && first == first0[qh := 0]
      && ListShape(links.hlp, s.ring, s.chain) && QtdShape(first0, nextQtd, s.ring, s.chain, s.tds)
    }

    /** The descriptors are taken and the queue head is linked. */
    method CutAndLink(qh: Qh, u: Urb, buf: nat, n: nat) returns (ghost f: Qtd)
      requires Separate() && ListsOk(S()) && ListShape(links.hlp, ring, chain)
        && |Chunks(buf, n)| <= FreeCount(qtds.used[..])
      requires Pool(qh) && qh !in ring && qh !in chain && 0 <= At(slot, u) <= TOP + 1 && buf + n <= WORD
      modifies links, qtds.used, `nextQtd, `td, `first, `urb, `hcpriv, `ring, `chain, `tds
      ensures S() == Link(AllocQtds(old(S()), qh, |Chunks(buf, n)|), qh, u) && ListShape(links.hlp, ring, chain)
      ensures first == old(first)[qh := f]
      ensures var l := Taken(old(qtds.used[..]), |Chunks(buf, n)|);
        Descriptors(nextQtd, f, l) && Hold(td, l, Chunks(buf, n)) && OthersKept(l)
    {
      ghost var s, l := S(), Taken(qtds.used[..], |Chunks(buf, n)|);
      var d := CutTransfer(buf, n);
      f := d;
      SameLists(s, S());
      LinkQh(qh, u, d, l);
    }

    /** The transfer gets its descriptors and is linked. */
    method CarryOut(qh: Qh, u: Urb, buf: nat, n: nat, ghost s: Sched, ghost first0: map<Qh, Qtd>)
      requires Separate() && Inv(s) && Idle(s, u) && HasQh(s, u, qh, first0) && buf + n <= WORD
      requires Served(s, Asked(n)) && |Chunks(buf, n)| <= FreeCount(s.qtdUsed)
      modifies links, qtds.used, `nextQtd, `td, `first, `urb, `hcpriv, `ring, `chain, `tds
      ensures Shape() && S() == Submit(s, u, Asked(n), |Chunks(buf, n)|)
      ensures Filled(old(td), td, Taken(s.qtdUsed, |Chunks(buf, n)|), FreshTds(Chunks(buf, n)))
    {
      ghost var next0, k := nextQtd, |Chunks(buf, n)|;
      NextQhIsFree(s);
      SameLists(s, S());
      TakenAre(s.qtdUsed, k);
      ghost var f := CutAndLink(qh, u, buf, n);
      HoldContents(td, Taken(s.qtdUsed, k), Chunks(buf, n));
      SubmitFields(s, u, Asked(n), k);
      SubmitShape(first0, next0, nextQtd, s, u, f, Asked(n), k);
    }

    /** The queue head goes back. */
    method GiveUp(qh: Qh, u: Urb, ghost asked: nat, ghost k: nat, ghost s: Sched, ghost first0: map<Qh, Qtd>)
      requires Separate() && Inv(s) && HasQh(s, u, qh, first0) && asked > FreeCount(s.qtdUsed)
      modifies qhs.used, `urb
      ensures Shape() && S() == Submit(s, u, asked, k)
    {
      NextQhIsFree(s);
      FailShape(first0, s, u, asked, k, nextQtd);
      FreeQueueHead(qh);
    }

    /** The n bytes from buf on are submitted with a bulk or interrupt request. */
    method SubmitTransfer(u: Urb, buf: nat, n: nat) returns (ret: int)
      requires Good() && Possible(M(), SubmitData(u, buf, n))
      modifies this, links, qtds.used, qhs.used, outcomes
      ensures Good() && Steps(old(M()), SubmitData(u, buf, n), M())
      ensures ret == if old(Refused(M(), u)) then -EBUSY else if Served(old(S()), Asked(n)) then 0 else -ENOMEM
    {
      if At(outcomes.errorcode, u) == -EBUSY {
        return -EBUSY;
      }
      ghost var m, e := M(), SubmitData(u, buf, n);
      NotRefusedIsIdle(m, u);
      var ok := PlaceTransfer(u, buf, n);
      StepKeeps(m, e, M());
      ret := if ok then 0 else -ENOMEM;
    }

    method PlaceTransfer(u: Urb, buf: nat, n: nat) returns (ok: bool)
      requires Valid() && Idle(S(), u) && n < WORD && buf + n <= WORD
      requires Asked(n) <= FreeCount(qtds.used[..]) ==> |Chunks(buf, n)| <= FreeCount(qtds.used[..])
      modifies this, links, qtds.used, qhs.used, outcomes
      ensures Separate() && Shape() && bell == old(bell) && S() == Submit(old(S()), u, Asked(n), |Chunks(buf, n)|)
      ensures ok <==> Served(old(S()), Asked(n))
      ensures DataNoted(old(S()), old(W()), old(outcomes.N()), W(), outcomes.N(), u, buf, n)
    {
      hide Inv;
      hide ListShape;
      hide QtdShape;
      hide Submit;
      hide Busy;
      hide DataNoted;
      ghost var s, w, o, first0 := S(), W(), outcomes.N(), first;
      var qh := StartSubmit(u);
      if qh == 0 {
        NothingTaken(s, w, o, W(), outcomes.N(), u, buf, n);
        ok := false;
      } else {
        ok := FillAndTell(qh, u, buf, n, s, first0);
        DataTaken(s, w, o, W(), outcomes.N(), u, buf, n, ok);
      }
    }

    /** With a queue head at hand, the transfer is carried out if it can be, and what it was given is recorded. */
    method FillAndTell(qh: Qh, u: Urb, buf: nat, n: nat, ghost s: Sched, ghost first0: map<Qh, Qtd>) returns (ok: bool)
      requires Separate() && Inv(s) && Idle(s, u) && HasQh(s, u, qh, first0) && n < WORD && buf + n <= WORD
      requires Asked(n) <= FreeCount(s.qtdUsed) ==> |Chunks(buf, n)| <= FreeCount(s.qtdUsed)
      modifies links, qtds.used, qhs.used, outcomes`given, `nextQtd, `td, `first, `urb, `hcpriv, `ring, `chain, `tds
      ensures Shape() && S() == Submit(s, u, Asked(n), |Chunks(buf, n)|)
      ensures ok <==> Asked(n) <= FreeCount(s.qtdUsed)
      ensures if ok then Filled(old(td), td, Taken(s.qtdUsed, |Chunks(buf, n)|), FreshTds(Chunks(buf, n)))
        else td == old(td)
      ensures outcomes.N() == if ok then Gave(old(outcomes.N()), u, FreshTds(Chunks(buf, n))) else old(outcomes.N())
    {
      hide Inv;
      hide ListShape;
      hide QtdShape;
      hide Filled;
      hide Submit;
      hide Gave;
      ok := FillOrGiveUp(qh, u, buf, n, s, first0);
      if ok {
        Give(u, FreshTds(Chunks(buf, n)));
      }
    }

    /** With a queue head at hand, the transfer is carried out if there are descriptors enough. */
    method FillOrGiveUp(qh: Qh, u: Urb, buf: nat, n: nat, ghost s: Sched, ghost first0: map<Qh, Qtd>) returns (ok: bool)
      requires Separate() && Inv(s) && Idle(s, u) && HasQh(s, u, qh, first0) && n < WORD && buf + n <= WORD
      requires Asked(n) <= FreeCount(s.qtdUsed) ==> |Chunks(buf, n)| <= FreeCount(s.qtdUsed)
      modifies links, qtds.used, qhs.used, `nextQtd, `td, `first, `urb, `hcpriv, `ring, `chain, `tds
      ensures Shape() && S() == Submit(s, u, Asked(n), |Chunks(buf, n)|)
      ensures ok <==> Asked(n) <= FreeCount(s.qtdUsed)
      ensures if ok then Filled(old(td), td, Taken(s.qtdUsed, |Chunks(buf, n)|), FreshTds(Chunks(buf, n)))
        else td == old(td)
    {
      var free := qtds.CountFree();
      ok := free >= (n + CHUNK - 1) % WORD / CHUNK;
      if ok {
        CarryOut(qh, u, buf, n, s, first0);
      } else {
        GiveUp(qh, u, Asked(n), |Chunks(buf, n)|, s, first0);
      }
    }

    /** The allocations of a control transfer, which stop being served when the pool is empty. */
    method AllocControl(buflen: nat) returns (setup: Qtd, data: Qtd, status: Qtd)
      modifies qtds.used
      ensures status != 0 <==> ControlNeeds(buflen) <= FreeCount(old(qtds.used[..]))
      ensures var u, k := old(qtds.used[..]), ControlNeeds(buflen);
        k <= FreeCount(u) ==>
          && qtds.used[..] == Marked(u, k)
          && Taken(u, k) == (if buflen > 0 then [setup, data, status] else [setup, status])
      ensures var u, k := old(qtds.used[..]), ControlNeeds(buflen);
        k > FreeCount(u) ==>
          && qtds.used[..] == Marked(u, FreeCount(u))
          && Taken(u, FreeCount(u)) == (if setup != 0 then [setup] else []) + (if data != 0 then [data] else [])
          && (setup == 0 ==> data == 0)
    {
      ghost var u, l: seq<Qtd> := qtds.used[..], [];
      setup := AllocMore(u, l);
      l := if setup == 0 then l else l + [setup];
      data := 0;
      if buflen > 0 {
        data := AllocMore(u, l);
        l := if data == 0 then l else l + [data];
      }
      status := AllocMore(u, l);
    }

    /** One allocation after those of l. */
    method AllocMore(ghost u: seq<bool>, ghost l: seq<Qtd>) returns (d: Qtd)
      requires Taking(u, l, qtds.used[..])
      modifies qtds.used
      ensures d == 0 <==> |l| == FreeCount(u)
      ensures d == 0 ==> qtds.used[..] == old(qtds.used[..])
      ensures d != 0 ==> |l| < FreeCount(u) && Taking(u, l + [d], qtds.used[..])
    {
      AllTaken(u, l, qtds.used[..]);
      d := qtds.Alloc();
      if d != 0 {
        TakenLast(u, l, d, qtds.used[..]);
      }
    }

    /** The setup, data and status descriptors are filled and chained. */
    method FillControl(setup: Qtd, data: Qtd, status: Qtd, packet: nat, buf: nat, wLength: nat, buflen: nat)
      requires setup != 0 && status != 0 && setup != status
      requires buflen > 0 ==> data != 0 && data != setup && data != status
      requires (wLength > 0 ==> buflen > 0) && packet + 8 <= WORD && buf + buflen <= WORD
      modifies `nextQtd, `td
      ensures var l := if wLength > 0 then [setup, data, status] else [setup, status];
        Descriptors(nextQtd, setup, l) && Hold(td, l, ControlChunks(packet, buf, wLength, buflen))
      ensures forall x :: x != setup && x != status && !(buflen > 0 && x == data) ==>
        At(nextQtd, x) == old(At(nextQtd, x)) && TdAt(td, x) == old(TdAt(td, x))
    {
      FillTd(setup, Chunk(packet, 8, false));
      if wLength > 0 {
        FillTd(data, Chunk(buf, buflen, false));
        nextQtd := nextQtd[setup := data];
        nextQtd := nextQtd[data := status];
      } else {
        if buflen > 0 {
          td := td[data := NO_TD];
          nextQtd := nextQtd[data := 0];
        }
        nextQtd := nextQtd[setup := status];
      }
      FillTd(status, Chunk(0, 0, true));
      nextQtd := nextQtd[status := 0];
      if wLength > 0 {
        ChainOfThree(nextQtd, setup, data, status);
        HoldThree(td, setup, data, status, ControlChunks(packet, buf, wLength, buflen));
      } else {
        ChainOfTwo(nextQtd, setup, status);
        HoldTwo(td, setup, status, ControlChunks(packet, buf, wLength, buflen));
      }
    }

    /** The descriptors are filled and the queue head is linked. */
    method FillAndLink(qh: Qh, u: Urb, setup: Qtd, data: Qtd, status: Qtd, packet: nat, buf: nat, wLength: nat,
                       buflen: nat, ghost l: seq<Qtd>)
      requires Separate() && ListsOk(S()) && ListShape(links.hlp, ring, chain)
      requires Pool(qh) && qh !in ring && qh !in chain && 0 <= At(slot, u) <= TOP + 1
      requires setup != 0 && status != 0 && setup != status && (wLength > 0 ==> buflen > 0)
      requires buflen > 0 ==> data != 0 && data != setup && data != status
      requires l == (if wLength > 0 then [setup, data, status] else [setup, status]) && packet + 8 <= WORD
        && buf + buflen <= WORD
      modifies links, `nextQtd, `td, `first, `urb, `hcpriv, `ring, `chain, `tds
      ensures S() == Link(old(S()).(tds := old(tds)[qh := l]), qh, u) && ListShape(links.hlp, ring, chain)
      ensures first == old(first)[qh := setup] && Descriptors(nextQtd, setup, l)
        && Hold(td, l, ControlChunks(packet, buf, wLength, buflen))
      ensures forall x :: x != setup && x != status && !(buflen > 0 && x == data) ==>
        At(nextQtd, x) == old(At(nextQtd, x)) && TdAt(td, x) == old(TdAt(td, x))
    {
      ghost var s := S();
      FillControl(setup, data, status, packet, buf, wLength, buflen);
      SameLists(s, S());
      LinkQh(qh, u, setup, l);
    }

    /** A control submit from state s has its queue head and its descriptors. */
    ghost predicate HasQtds(s: Sched, u: Urb, qh: Qh, first0: map<Qh, Qtd>, setup: Qtd, data: Qtd, status: Qtd,
                            buflen: nat)
      reads this, links, qhs.used, qtds.used
    {
      && Served(s, ControlNeeds(buflen))
      && S() == AllocQh(Unclaimed(s, u)).(qtdUsed := Marked(s.qtdUsed, ControlNeeds(buflen)))
      && qh == NextQh(s) && first == first0[qh := 0]
      && ListShape(links.hlp, s.ring, s.chain) && QtdShape(first0, nextQtd, s.ring, s.chain, s.tds)
      && Taken(s.qtdUsed, ControlNeeds(buflen)) == if buflen > 0 then [setup, data, status] else [setup, status]
    }

    method LinkControl(qh: Qh, u: Urb, setup: Qtd, data: Qtd, status: Qtd, packet: nat, buf: nat, wLength: nat,
                       buflen: nat,
                       ghost s: Sched, ghost first0: map<Qh, Qtd>)
      requires Separate() && Inv(s) && Idle(s, u) && HasQtds(s, u, qh, first0, setup, data, status, buflen)
      requires (wLength > 0 ==> buflen > 0) && packet + 8 <= WORD && buf + buflen <= WORD
      modifies links, `nextQtd, `td, `first, `urb, `hcpriv, `ring, `chain, `tds
      ensures Shape() && S() == ControlLinked(s, u, wLength, buflen)
      ensures Hold(td, ControlChain(s, wLength, buflen), ControlChunks(packet, buf, wLength, buflen))
      ensures forall x :: x !in Taken(s.qtdUsed, ControlNeeds(buflen)) ==> TdAt(td, x) == old(TdAt(td, x))
    {
      hide Hold;
      hide Descriptors;
      hide QtdShape;
      hide ListShape;
      hide Link;
      hide ControlLinked;
      hide Inv;
      hide ControlChain;
      ghost var next0, l := nextQtd, ControlChain(s, wLength, buflen);
      ControlPrepared(s, S(), u, setup, data, status, wLength, buflen);
      FillAndLink(qh, u, setup, data, status, packet, buf, wLength, buflen, l);
      ControlShape(first0, next0, nextQtd, s, u, setup, wLength, buflen);
    }

    /** What was taken for a control transfer that is not served goes back. */
    method ReturnControl(setup: Qtd, data: Qtd, ghost u: seq<bool>)
      requires qtds.used[..] == Marked(u, FreeCount(u))
      requires Taken(u, FreeCount(u)) == (if setup != 0 then [setup] else []) + (if data != 0 then [data] else [])
      requires setup == 0 ==> data == 0
      modifies qtds.used
      ensures qtds.used[..] == u
    {
      FreedTaken(u, FreeCount(u));
      FreedInTurn(qtds.used[..], [setup], data);
      if setup != 0 {
        qtds.Free(setup);
      }
      if data != 0 {
        qtds.Free(data);
      }
    }

    /** A control transfer is submitted: the setup packet, and the data that it announces. */
    method SubmitSetup(u: Urb, packet: nat, buf: nat, wLength: nat, buflen: nat) returns (ret: int)
      requires Good() && Possible(M(), EhciMachine.SubmitSetup(u, packet, buf, wLength, buflen))
      modifies this, links, qtds.used, qhs.used, outcomes
      ensures Good() && Steps(old(M()), EhciMachine.SubmitSetup(u, packet, buf, wLength, buflen), M())
      ensures ret ==
        if old(Refused(M(), u)) then -EBUSY else if Served(old(S()), ControlNeeds(buflen)) then 0 else -ENOMEM
    {
      if At(outcomes.errorcode, u) == -EBUSY {
        return -EBUSY;
      }
      ghost var m, e := M(), EhciMachine.SubmitSetup(u, packet, buf, wLength, buflen);
      NotRefusedIsIdle(m, u);
      var ok := PlaceSetup(u, packet, buf, wLength, buflen);
      ControlStep(m, e, M(), ok);
      StepKeeps(m, e, M());
      ret := if ok then 0 else -ENOMEM;
    }

    /** The same without the check, also for a buffer without announced data. */
    method PlaceSetup(u: Urb, packet: nat, buf: nat, wLength: nat, buflen: nat) returns (ok: bool)
      requires Valid() && Idle(S(), u) && (wLength > 0 ==> buflen > 0) && packet + 8 <= WORD && buf + buflen <= WORD
      modifies this, links, qtds.used, qhs.used, outcomes
      ensures Separate() && Shape() && bell == old(bell) && S() == SubmitControl(old(S()), u, wLength, buflen)
      ensures ok <==> Served(old(S()), ControlNeeds(buflen))
      ensures ControlNoted(old(S()), old(W()), old(outcomes.N()), W(), outcomes.N(), u,
        ControlChunks(packet, buf, wLength, buflen), wLength, buflen)
    {
      hide Inv;
      hide ListShape;
      hide QtdShape;
      hide Hold;
      hide ControlChain;
      hide SubmitControl;
      hide Busy;
      hide ControlNoted;
      ghost var s, w, o, first0, cs := S(), W(), outcomes.N(), first, ControlChunks(packet, buf, wLength, buflen);
      var qh := StartSubmit(u);
      if qh == 0 {
        NothingTakenControl(s, w, o, W(), outcomes.N(), u, cs, wLength, buflen);
        ok := false;
      } else {
        ok := FillAndTellControl(qh, u, packet, buf, wLength, buflen, s, first0);
        ControlTaken(s, w, o, W(), outcomes.N(), u, cs, wLength, buflen, ok);
      }
    }

    /** With a queue head at hand, the transfer is carried out if it can be, and what it was given is recorded. */
    method FillAndTellControl(qh: Qh, u: Urb, packet: nat, buf: nat, wLength: nat, buflen: nat, ghost s: Sched,
                              ghost first0: map<Qh, Qtd>)
      returns (ok: bool)
      requires Separate() && Inv(s) && Idle(s, u) && HasQh(s, u, qh, first0)
      requires (wLength > 0 ==> buflen > 0) && packet + 8 <= WORD && buf + buflen <= WORD
      modifies links, qtds.used, qhs.used, outcomes`given, `nextQtd, `td, `first, `urb, `hcpriv, `ring, `chain, `tds
      ensures Shape() && S() == SubmitControl(s, u, wLength, buflen)
      ensures ok <==> Served(s, ControlNeeds(buflen))
      ensures !ok ==> td == old(td)
      ensures ok ==> Hold(td, ControlChain(s, wLength, buflen), ControlChunks(packet, buf, wLength, buflen))
      ensures ok ==> forall x :: x !in Taken(s.qtdUsed, ControlNeeds(buflen)) ==> TdAt(td, x) == old(TdAt(td, x))
      ensures outcomes.N() ==
        if ok then Gave(old(outcomes.N()), u, FreshTds(ControlChunks(packet, buf, wLength, buflen)))
          else old(outcomes.N())
    {
      hide Inv;
      hide ListShape;
      hide QtdShape;
      hide Hold;
      hide ControlChain;
      hide SubmitControl;
      hide Gave;
      ok := FillControlOrGiveUp(qh, u, packet, buf, wLength, buflen, s, first0);
      if ok {
        Give(u, FreshTds(ControlChunks(packet, buf, wLength, buflen)));
      }
    }

    /** With a queue head at hand, the control transfer is carried out if there are descriptors enough. */
    method FillControlOrGiveUp(qh: Qh, u: Urb, packet: nat, buf: nat, wLength: nat, buflen: nat, ghost s: Sched,
                               ghost first0: map<Qh, Qtd>)
      returns (ok: bool)
      requires Separate() && Inv(s) && Idle(s, u) && HasQh(s, u, qh, first0)
      requires (wLength > 0 ==> buflen > 0) && packet + 8 <= WORD && buf + buflen <= WORD
      modifies links, qtds.used, qhs.used, `nextQtd, `td, `first, `urb, `hcpriv, `ring, `chain, `tds
      ensures Shape() && S() == SubmitControl(s, u, wLength, buflen)
      ensures ok <==> Served(s, ControlNeeds(buflen))
      ensures !ok ==> td == old(td)
      ensures ok ==> Hold(td, ControlChain(s, wLength, buflen), ControlChunks(packet, buf, wLength, buflen))
      ensures ok ==> forall x :: x !in Taken(s.qtdUsed, ControlNeeds(buflen)) ==> TdAt(td, x) == old(TdAt(td, x))
    {
      hide Inv;
      hide ListShape;
      hide QtdShape;
      hide Hold;
      hide ControlChain;
      hide ControlLinked;
      var setup, data, status := AllocControl(buflen);
      ok := status != 0;
      if ok {
        LinkControl(qh, u, setup, data, status, packet, buf, wLength, buflen, s, first0);
      } else {
        ReturnControl(setup, data, s.qtdUsed);
        GiveUp(qh, u, ControlNeeds(buflen), ControlNeeds(buflen), s, first0);
      }
    }

    // ----- scans -----

    /** The queue heads whose transfers are over. */
    ghost function Fin(): set<Qh>
      reads this
    {
      FinOf(W(), tds)
    }

    /** The books and the notes. */
    ghost predicate Ready()
      reads this, links, qhs.used, qtds.used, outcomes
    {
      Valid() && NotesOk(S(), td, outcomes.N())
    }

    /** A scan that started from s and o has visited `done`. */
    ghost predicate Scanned(s: Sched, o: Notes, fin: set<Qh>, done: seq<Qh>)
      reads this, links, qhs.used, qtds.used, outcomes
    {
      Separate() && Shape() && S() == Scan(s, done, fin) && outcomes.N() == ScanNotes(s, o, done, W(), fin)
    }

    /** The ring is followed from queue head to queue head while finished ones leave it. */
    method ScanAsync()
      requires Ready()
      modifies links, qtds.used, qhs.used, outcomes, `first, `ring, `chain, `tds, `urb, `hcpriv, `removing
      ensures Scanned(old(S()), old(outcomes.N()), old(Fin()), old(ring))
    {
      ghost var s, o, fin, done, rest := S(), outcomes.N(), Fin(), [], ring;
      var qh := At(links.hlp, ASYNC);
      assert done + rest == s.ring;
      while qh != ASYNC && qh != 0
        invariant Scanned(s, o, fin, done)
        invariant s.ring == done + rest && qh == FirstOr(rest, ASYNC)
        decreases |rest|
      {
        qh := ScanRound(s, o, true, fin, done, rest, qh);
        OneFurther(done, rest);
        done, rest := done + [rest[0]], rest[1..];
      }
      ScanDone(s, true, done, rest);
    }

    /** The chain of the head of the longest period is followed in the same way, other heads being passed over. */
    method ScanPeriodic()
      requires Ready()
      modifies links, qtds.used, qhs.used, outcomes, `first, `ring, `chain, `tds, `urb, `hcpriv, `removing
      ensures Scanned(old(S()), old(outcomes.N()), old(Fin()), old(chain))
    {
      ghost var s, o, fin, done, rest := S(), outcomes.N(), Fin(), [], chain;
      var qh := At(links.hlp, Head(TOP));
      assert done + rest == s.chain;
      while qh != 0
        invariant Scanned(s, o, fin, done)
        invariant s.chain == done + rest && qh == FirstOr(rest, 0)
        decreases |rest|
      {
        qh := ScanRound(s, o, false, fin, done, rest, qh);
        OneFurther(done, rest);
        done, rest := done + [rest[0]], rest[1..];
      }
      ScanDone(s, false, done, rest);
    }

    /** One round of a scan. */
    method ScanRound(ghost s: Sched, ghost o: Notes, ghost async: bool, ghost fin: set<Qh>, ghost done: seq<Qh>,
                     ghost rest: seq<Qh>, qh: Qh)
      returns (nxt: Qh)
      requires Scanned(s, o, fin, done) && Inv(s) && NotesOk(s, td, o)
      requires ListOf(s, async) == done + rest && rest != [] && qh == rest[0] && fin == FinOf(W(), s.tds)
      modifies links, qtds.used, qhs.used, outcomes, `first, `ring, `chain, `tds, `urb, `hcpriv, `removing
      ensures Scanned(s, o, fin, done + [qh]) && nxt == FirstOr(rest[1..], EndOf(async))
    {
      hide Inv;
      hide NotesOk;
      NextVisit(s, o, async, W(), links.hlp, fin, done, rest);
      NotesSoFar(s, o, async, W(), fin, done, rest);
      nxt := CheckInList(qh, fin);
    }

    method CheckInList(qh: Qh, ghost fin: set<Qh>) returns (nxt: Qh)
      requires Ready() && (qh in ring || qh in chain) && (qh in fin <==> Pool(qh) && IsOver(qh))
      modifies links, qtds.used, qhs.used, outcomes, `first, `ring, `chain, `tds, `urb, `hcpriv, `removing
      ensures Separate() && Shape() && S() == Visit(old(S()), qh, fin) && nxt == old(At(links.hlp, qh))
      ensures outcomes.N() == Told(old(S()), old(outcomes.N()), qh, W(), fin)
    {
      hide Inv;
      hide NotesOk;
      hide ListShape;
      hide QtdShape;
      hide Finish;
      hide Contents;
      Carried(S(), qh);
      if Pool(qh) {
        LinkedHasCount(S(), td, outcomes.N(), qh);
      }
      if At(urb, qh) != 0 {
        var head := HeadOf(At(urb, qh));
        CheckQh(head, qh, fin);
      }
      nxt := At(links.hlp, qh);
    }

    /** Both scans. */
    method ScanLists()
      requires Ready()
      modifies links, qtds.used, qhs.used, outcomes, `first, `ring, `chain, `tds, `urb, `hcpriv, `removing
      ensures Ready() && S() == ScanBoth(old(S()), old(Fin()))
      ensures outcomes.N() == BothNotes(old(S()), old(outcomes.N()), W(), old(Fin()))
    {
      ghost var s, o, fin := S(), outcomes.N(), Fin();
      ScanBothKeeps(s, fin);
      BothNotesKeep(s, o, W(), fin);
      ScanAsync();
      BothScans(s, o, W(), fin, S(), outcomes.N(), Fin());
      assert s.ring + [] == s.ring;
      NotesSoFar(s, o, true, W(), fin, s.ring, []);
      ScanPeriodic();
    }

    /** All waiting queue heads go back to the pool. */
    method AdvanceAsync()
      requires Separate() && Shape() && Inv(S())
      modifies qhs.used, `urb, `hcpriv, `removing
      ensures Shape() && S() == Advance(old(S()), 0)
    {
      assert qhs.used.Length == QH_NUM;
      hide Inv;
      hide Complete;
      ghost var s := S();
      var i: nat := 0;
      while i < qhs.used.Length
        invariant i <= qhs.used.Length == QH_NUM && Shape() && Inv(S())
        invariant Advance(S(), i) == Advance(s, 0)
      {
        AdvanceOne(i);
        i := i + 1;
      }
    }

    method AdvanceOne(i: nat)
      requires Separate() && Shape() && Inv(S()) && i < QH_NUM == qhs.used.Length
      modifies qhs.used, `urb, `hcpriv, `removing
      ensures Shape() && Inv(S()) && Advance(S(), i + 1) == Advance(old(S()), i)
    {
      ghost var s := S();
      if qhs.used[i] && At(removing, i + 1) != 0 {
        CompleteKeeps(s, i + 1);
        WaitingCarries(s, i + 1);
        WakeUp(At(urb, i + 1));
      }
    }

    /**
     The interrupt handler: scans if a transfer ended, then the loop over the pool if
     the doorbell was answered.
    */
    method HandleInterrupt(ended: bool, answered: bool)
      requires Good() && answered == bell.answered
      modifies links, qtds.used, qhs.used, outcomes, `first, `ring, `chain, `tds, `urb, `hcpriv, `removing, `bell
      ensures Good() && Interrupts(old(M()), ended, M())
    {
      hide Inv;
      hide ListShape;
      hide QtdShape;
      hide NotesOk;
      hide Irq;
      hide BothNotes;
      ghost var m, fin := M(), Fin();
      HandleEnds(ended, answered);
      bell := AfterIrq(m.bell, m.s, S(), Rings(m.s, ended, fin));
      StepKeeps(m, Interrupt(ended), M());
    }

    method HandleEnds(ended: bool, answered: bool)
      requires Ready()
      modifies links, qtds.used, qhs.used, outcomes, `first, `ring, `chain, `tds, `urb, `hcpriv, `removing
      ensures Separate() && Shape() && S() == Irq(old(S()), ended, old(Fin()), answered)
      ensures outcomes.N() ==
        if ended then BothNotes(old(S()), old(outcomes.N()), W(), old(Fin())) else old(outcomes.N())
    {
      hide Shape;
      hide S;
      hide BothNotes;
      if ended {
        ScanLists();
      }
      if answered {
        AdvanceAsync();
      }
    }

    // ----- taking a request back -----

    /** The queue head of ring or chain that carries the request. */
    method FindCarrier(u: Urb) returns (qh: Qh)
      requires Valid() && At(hcpriv, u) != 0 && At(removing, At(hcpriv, u)) == 0
      ensures qh == At(hcpriv, u)
    {
      ghost var async, done := At(slot, u) == 0, [];
      var start, end := ASYNC, ASYNC;
      SlotIs(eps, u);
      if EndpointOf(eps, u).interrupt {
        start, end := Head(TOP), 0;
      }
      ghost var rest := ListOf(S(), async);
      Carrier(S(), u);
      qh := At(links.hlp, start);
      while qh != end && qh != 0 && At(urb, qh) != u
        invariant Path(links.hlp, LastOr(start, done), rest, end) && qh == FirstOr(rest, end)
        invariant At(hcpriv, u) in rest && forall q :: q in rest ==> q in ListOf(S(), async)
        decreases |rest|
      {
        done, rest := done + [qh], rest[1..];
        qh := At(links.hlp, qh);
      }
      FoundCarrier(S(), u, async, rest, qh);
    }

    /** The descriptors return to the pool unread. */
    method DropQtds(qh: Qh, ghost l: seq<Qtd>)
      requires Descriptors(nextQtd, At(first, qh), l)
      modifies `first, qtds.used
      ensures qtds.used[..] == Freed(old(qtds.used[..]), l)
      ensures At(first, qh) == 0 && forall q :: q != qh ==> At(first, q) == old(At(first, q))
    {
      var qtd := At(first, qh);
      ghost var rest, used0 := l, qtds.used[..];
      while qtd != 0
        invariant Descriptors(nextQtd, qtd, rest) && qtd == At(first, qh)
        invariant Freed(used0, l) == Freed(qtds.used[..], rest)
        invariant forall q :: q != qh ==> At(first, q) == old(At(first, q))
        decreases |rest|
      {
        FreedOne(qtds.used[..], rest);
        qtds.Free(qtd);
        first := first[qh := At(nextQtd, qtd)];
        qtd := At(first, qh);
        rest := rest[1..];
      }
    }

    /** A linked queue head is unlinked and goes back with its descriptors. */
    method KillQh(head: Qh, qh: Qh)
      requires Valid() && OnList(S(), qh) && head == HeadFor(At(slot, At(urb, qh)))
      modifies links, qtds.used, qhs.used, `first, `ring, `chain, `tds, `urb
      ensures Shape() && S() == FreeQh(Dequeue(old(S()), qh), qh)
    {
      hide Inv;
      hide ListShape;
      hide QtdShape;
      ghost var s, first0, l := S(), first, TdsOf(tds, qh);
      OnListCarries(s, qh);
      CarriedDescriptors(first, nextQtd, s, qh);
      Unlink(head, qh);
      DropQtds(qh, l);
      QtdShapeShrinks(first0, first, nextQtd, s, qh);
      Forget(qh);
      FreeQueueHead(qh);
    }

    /** A request whose queue head is linked is taken back; one that no queue head carries is left alone. */
    method KillUrb(u: Urb, timed: bool)
      requires Good() && Possible(M(), Event.KillUrb(u, timed))
      modifies links, qtds.used, qhs.used, outcomes, `first, `ring, `chain, `tds, `urb, `hcpriv
      ensures Good() && Steps(old(M()), Event.KillUrb(u, timed), M())
    {
      hide Inv;
      hide ListShape;
      hide QtdShape;
      hide NotesOk;
      hide Kill;
      if At(hcpriv, u) == 0 {
        return;
      }
      ghost var m := M();
      TakeBack(u);
      if timed {
        NoteError(u, -ESHUTDOWN);
      }
      StepKeeps(m, Event.KillUrb(u, timed), M());
    }

    method TakeBack(u: Urb)
      requires Valid() && At(hcpriv, u) != 0 && At(removing, At(hcpriv, u)) == 0
      modifies links, qtds.used, qhs.used, `first, `ring, `chain, `tds, `urb, `hcpriv
      ensures Separate() && Shape() && S() == Kill(old(S()), u)
    {
      hide Inv;
      hide ListShape;
      hide QtdShape;
      KillFields(S(), u);
      Carrier(S(), u);
      var qh := FindCarrier(u);
      var head := HeadOf(u);
      KillQh(head, qh);
      hcpriv := hcpriv[u := 0];
      urb := urb[qh := 0];
    }

    // ----- polling -----

    /**
     At any time, following the links in memory from one of any `Frames` consecutive
     frames the controller meets the queue head of an interrupt request in flight.
    */
    lemma {:induction false} Polled(u: Urb, f: nat) returns (g: nat)
      requires Good() && EndpointOf(eps, u).interrupt && At(hcpriv, u) != 0
      ensures f <= g < f + Frames(EndpointOf(eps, u)) && Meets(links.hlp, framelist[g % |framelist|], At(hcpriv, u))
    {
      SlotIs(eps, u);
      g := PolledInTime(S(), links.hlp, framelist, At(hcpriv, u), EndpointOf(eps, u), f);
    }
  }
}
