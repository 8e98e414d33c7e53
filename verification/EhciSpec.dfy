/**
 The bookkeeping of the USB host controller driver: which queue heads and which
 transfer descriptors are taken, the asynchronous ring, the periodic chain, and
 the requests (URBs) they carry.  What the controller makes of a transfer comes in
 as the set of queue heads it has finished.
*/
module EhciSpec {
  import opened Chains
  import opened EhciPools

  type Qh = Addr
  type Qtd = Addr
  type Urb = Addr

  const QH_NUM := 10
  const QTD_NUM := 30
  /** The periodic heads are Head(0) to Head(TOP). */
  const TOP := 10

  /** The head of the asynchronous ring. */
  const ASYNC: Qh := 11

  function Head(i: int): Qh {
    20 + i
  }

  predicate Pool(q: Qh) {
    1 <= q <= QH_NUM
  }

  /**
   `ring` is what follows the asynchronous head, `chain` what follows the periodic
   head of the longest period, other heads included.  `slot` of a request is 0 for
   control and bulk endpoints, and i + 1 for interrupt endpoints served by Head(i).
  */
  datatype Sched = Sched(
    qhUsed: seq<bool>, qtdUsed: seq<bool>,
    ring: seq<Qh>, chain: seq<Qh>, tds: map<Qh, seq<Qtd>>,
    urb: map<Qh, Urb>, removing: map<Qh, int>, hcpriv: map<Urb, Qh>, slot: map<Urb, int>)

  function TdsOf(tds: map<Qh, seq<Qtd>>, q: Qh): seq<Qtd> {
    if q in tds then tds[q] else []
  }

  /** The descriptors of a list of queue heads. */
  function Flat(tds: map<Qh, seq<Qtd>>, l: seq<Qh>): seq<Qtd> {
    if l == [] then [] else TdsOf(tds, l[0]) + Flat(tds, l[1..])
  }

  // ----- the invariant -----

  ghost predicate SizesOk(s: Sched) {
    |s.qhUsed| == QH_NUM && |s.qtdUsed| == QTD_NUM
  }

  /** Ring and chain: no queue head twice, and the heads in the chain, the longer period before the shorter. */
  ghost predicate ListsOk(s: Sched) {
    && NoDup(s.ring + s.chain)
    && (forall q :: q in s.ring ==> Pool(q))
    && (forall q :: q in s.chain ==> Pool(q) || exists i :: 0 <= i < TOP && q == Head(i))
    && (forall i :: 0 <= i < TOP ==> Head(i) in s.chain)
    && HeadsInOrder(Whole(s))
  }

  /** The queue heads behind the head of the longest period, and that head. */
  ghost function Whole(s: Sched): seq<Qh> {
    [Head(TOP)] + s.chain
  }

  ghost predicate HeadsInOrder(l: seq<Qh>) {
    forall i :: 0 <= i < TOP ==> Before(l, Head(i + 1), Head(i))
  }

  /** An interrupt queue head stands behind the head that serves it. */
  ghost predicate BehindItsHead(s: Sched, q: Qh) {
    0 < At(s.slot, At(s.urb, q)) <= TOP + 1 && Before(Whole(s), Head(At(s.slot, At(s.urb, q)) - 1), q)
  }

  /** Control and bulk requests are on the ring, interrupt requests on the chain. */
  ghost predicate SlotsOk(s: Sched) {
    && (forall q :: q in s.ring ==> At(s.slot, At(s.urb, q)) == 0)
    && (forall q :: q in s.chain && Pool(q) ==> BehindItsHead(s, q))
    && (forall q :: At(s.removing, q) != 0 ==> At(s.slot, At(s.urb, q)) == 0)
  }

  /** A queue head is taken exactly if it is on the ring, on the chain, or waits for the doorbell. */
  ghost predicate QhsOk(s: Sched) {
    && (forall q :: Used(s.qhUsed, q) <==> q in s.ring || (q in s.chain && Pool(q)) || At(s.removing, q) != 0)
    && (forall q :: At(s.removing, q) != 0 ==> Pool(q) && q !in s.ring && q !in s.chain)
  }

  /** A queue head is taken exactly if it carries a request, and request and queue head know each other. */
  ghost predicate UrbsOk(s: Sched) {
    && (forall q :: Used(s.qhUsed, q) <==> At(s.urb, q) != 0)
    && (forall q :: At(s.urb, q) != 0 ==> At(s.hcpriv, At(s.urb, q)) == q)
    && (forall u :: At(s.hcpriv, u) != 0 ==> u != 0 && At(s.urb, At(s.hcpriv, u)) == u)
  }

  /** A descriptor is taken exactly if it is on the chain of one linked queue head. */
  ghost predicate QtdsOk(s: Sched) {
    && NoDup(Flat(s.tds, s.ring + s.chain))
    && (forall d :: Used(s.qtdUsed, d) <==> d in Flat(s.tds, s.ring + s.chain))
  }

  ghost predicate Inv(s: Sched) {
    SizesOk(s) && ListsOk(s) && SlotsOk(s) && QhsOk(s) && UrbsOk(s) && QtdsOk(s)
  }

  // ----- operations -----

  /** n is put behind head. */
  ghost function AddBehind(l: seq<Qh>, head: Qh, n: Qh): seq<Qh> {
    if l == [] then [] else if l[0] == head then [head, n] + l[1..] else [l[0]] + AddBehind(l[1..], head, n)
  }

  function NextQh(s: Sched): Qh {
    FirstFree(s.qhUsed, 0) + 1
  }

  /** A queue head from the pool, cleared. */
  ghost function AllocQh(s: Sched): Sched
    requires FreeCount(s.qhUsed) > 0
  {
    TakesOne(s.qhUsed);
    var q := NextQh(s);
    s.(qhUsed := s.qhUsed[q - 1 := true], tds := s.tds[q := []], urb := s.urb[q := 0], removing := s.removing[q := 0])
  }

  ghost function FreeQh(s: Sched, q: Qh): Sched {
    if 1 <= q <= |s.qhUsed| then s.(qhUsed := s.qhUsed[q - 1 := false], urb := s.urb[q := 0]) else s
  }

  /** A queue head with its descriptors starts to carry request u. */
  ghost function Link(s: Sched, q: Qh, u: Urb): Sched {
    var s1 := s.(urb := s.urb[q := u], hcpriv := s.hcpriv[u := q]);
    if At(s.slot, u) == 0 then s1.(ring := [q] + s.ring)
    else s1.(chain := AddBehind([Head(TOP)] + s.chain, Head(At(s.slot, u) - 1), q)[1..])
  }

  /** The descriptors of a new transfer are taken. */
  ghost function AllocQtds(s: Sched, q: Qh, k: nat): Sched
    requires k <= FreeCount(s.qtdUsed)
  {
    s.(qtdUsed := Marked(s.qtdUsed, k), tds := s.tds[q := Taken(s.qtdUsed, k)])
  }

  ghost function Unclaimed(s: Sched, u: Urb): Sched {
    s.(hcpriv := s.hcpriv[u := 0])
  }

  /** Whether a submit that asks for `asked` descriptors gets a queue head and them. */
  ghost predicate Served(s: Sched, asked: nat) {
    FreeCount(s.qhUsed) > 0 && asked <= FreeCount(s.qtdUsed)
  }

  /** A submit that asks for `asked` descriptors and then takes k. */
  ghost function Submit(s: Sched, u: Urb, asked: nat, k: nat): Sched
    requires asked <= FreeCount(s.qtdUsed) ==> k <= FreeCount(s.qtdUsed)
  {
    if FreeCount(s.qhUsed) == 0 then Unclaimed(s, u)
    else
      var s1, q := AllocQh(Unclaimed(s, u)), NextQh(s);
      if FreeCount(s.qtdUsed) < asked then FreeQh(s1, q) else Link(AllocQtds(s1, q, k), q, u)
  }

  /** The descriptors of a control transfer: setup, data if there is a buffer, status. */
  function ControlNeeds(buflen: nat): nat {
    if buflen > 0 then 3 else 2
  }

  /**
   A control submit.  The data descriptor is allocated if there is a buffer, but
   chained if the setup packet announces data.
  */
  ghost function SubmitControl(s: Sched, u: Urb, wLength: nat, buflen: nat): Sched {
    var k := ControlNeeds(buflen);
    if Served(s, k) then ControlLinked(s, u, wLength, buflen) else Submit(s, u, k, k)
  }

  /** What a submit comes to: it may go on to fill a descriptor that it did not get, through null. */
  datatype Attempt = Done(s: Sched) | WritesNull

  ghost predicate Keeps(a: Attempt) {
    a.Done? && Inv(a.s)
  }

  ghost function ControlAttempt(s: Sched, u: Urb, wLength: nat, buflen: nat): Attempt {
    if Served(s, ControlNeeds(buflen)) && wLength > 0 && buflen == 0 then WritesNull
    else Done(SubmitControl(s, u, wLength, buflen))
  }

  ghost function ControlLinked(s: Sched, u: Urb, wLength: nat, buflen: nat): Sched
    requires Served(s, ControlNeeds(buflen))
  {
    var s1, q := AllocQh(Unclaimed(s, u)), NextQh(s);
    var s2 := s1.(
      qtdUsed := Marked(s.qtdUsed, ControlNeeds(buflen)), tds := s1.tds[q := ControlChain(s, wLength, buflen)]);
    Link(s2, q, u)
  }

  /** The descriptors that a served control submit chains. */
  ghost function ControlChain(s: Sched, wLength: nat, buflen: nat): seq<Qtd>
    requires ControlNeeds(buflen) <= FreeCount(s.qtdUsed)
  {
    TakenAre(s.qtdUsed, ControlNeeds(buflen));
    var l := Taken(s.qtdUsed, ControlNeeds(buflen));
    if wLength == 0 && buflen > 0 then [l[0], l[2]] else l
  }

  /** q leaves its list and its descriptors return to the pool. */
  ghost function Dequeue(s: Sched, q: Qh): Sched {
    s.(ring := Without(s.ring, q), chain := Without(s.chain, q),
       qtdUsed := Freed(s.qtdUsed, TdsOf(s.tds, q)), tds := s.tds[q := []])
  }

  /** The request is done: its queue head returns to the pool and its owner is told. */
  ghost function Complete(s: Sched, u: Urb): Sched {
    var q := At(s.hcpriv, u);
    FreeQh(s.(hcpriv := s.hcpriv[u := 0], removing := s.removing[q := 0]), q)
  }

  /** The controller has finished the transfer of q. */
  ghost function Finish(s: Sched, q: Qh): Sched {
    var u, s1 := At(s.urb, q), Dequeue(s, q);
    if At(s.slot, u) != 0 then Complete(s1, u) else s1.(removing := s.removing[q := 1])
  }

  /** A scan visits the queue heads of a list one after the other. */
  ghost function Scan(s: Sched, l: seq<Qh>, fin: set<Qh>): Sched
    decreases |l|
  {
    if l == [] then s
    else Scan(if At(s.urb, l[0]) != 0 && l[0] in fin then Finish(s, l[0]) else s, l[1..], fin)
  }

  ghost function ScanBoth(s: Sched, fin: set<Qh>): Sched {
    var s1 := Scan(s, s.ring, fin);
    Scan(s1, s1.chain, fin)
  }

  /** The loop over the pool after the controller has answered the doorbell. */
  ghost function Advance(s: Sched, i: nat): Sched
    decreases QH_NUM - i
  {
    if i >= QH_NUM || i >= |s.qhUsed| then s
    else Advance(if s.qhUsed[i] && At(s.removing, i + 1) != 0 then Complete(s, At(s.urb, i + 1)) else s, i + 1)
  }

  /** A request that is linked is taken back. */
  ghost function Kill(s: Sched, u: Urb): Sched {
    var q := At(s.hcpriv, u);
    if q == 0 then s
    else
      var s1 := FreeQh(Dequeue(s, q), q);
      s1.(hcpriv := s1.hcpriv[u := 0], urb := s1.urb[q := 0])
  }
}
