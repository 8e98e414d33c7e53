/**
 Interrupt endpoints in the periodic schedule: to which head each one goes, and
 how often the controller meets its queue head, whatever else is linked.
*/
module EhciPeriodic {
  import opened Arith
  import opened Chains
  import opened EhciPools
  import opened EhciSpec
  import opened EhciSafety
  import opened EhciRuns
  import opened EhciMachine
  import opened EhciHcd
  import opened EhciFrames

  // ----- endpoints -----

  type Byte = x: nat | x < 256

  /** An endpoint: whether it is an interrupt endpoint, whether its device is a high-speed one, and its bInterval. */
  datatype Endpoint = Endpoint(interrupt: bool, high: bool, bInterval: Byte)

  /** The microframes, in eight bits, between two polls. */
  function Microframes(e: Endpoint): Byte {
    if e.high then e.bInterval else e.bInterval * 8 % 256
  }

  /** The periodic head that serves the endpoint. */
  function HeadOfEndpoint(e: Endpoint): nat {
    HeadOfPeriod(Microframes(e) / 8, TOP)
  }

  function SlotOf(e: Endpoint): int {
    if e.interrupt then HeadOfEndpoint(e) + 1 else 0
  }

  /** The endpoint of a request; one that is not listed goes to a control or bulk endpoint. */
  function EndpointOf(eps: map<Urb, Endpoint>, u: Urb): Endpoint {
    if u in eps then eps[u] else Endpoint(false, false, 0)
  }

  function SlotsOf(eps: map<Urb, Endpoint>): map<Urb, int> {
    map u | u in eps :: SlotOf(eps[u])
  }

  lemma {:induction false} SlotIs(eps: map<Urb, Endpoint>, u: Urb)
    ensures At(SlotsOf(eps), u) == SlotOf(EndpointOf(eps, u))
    ensures EndpointOf(eps, u).interrupt <==> At(SlotsOf(eps), u) != 0
  {
  }

  /**
   The frames in which the endpoint is to be polled once: bInterval of them at low and
   full speed, 2^(bInterval - 1) microframes at high speed (section 9.6.6 of the USB 2.0
   specification).
  */
  function Frames(e: Endpoint): nat {
    var n := if !e.high then e.bInterval else if e.bInterval == 0 then 0 else Pow2(e.bInterval - 1) / 8;
    if n == 0 then 1 else n
  }

  lemma {:induction false} Pow2AtLeast(n: nat)
    ensures n + 1 <= Pow2(n)
  {
    if n > 0 {
      Pow2AtLeast(n - 1);
    }
  }

  lemma {:induction false} DivOrder(a: nat, b: nat)
    requires a <= b
    ensures a / 8 <= b / 8
  {
  }

  /** The head is served at least as often as the endpoint is to be polled. */
  lemma {:induction false} HeadOftenEnough(e: Endpoint)
    ensures HeadOfEndpoint(e) <= TOP && Pow2(HeadOfEndpoint(e)) <= Frames(e)
  {
    var v := Microframes(e) / 8;
    HeadOfPeriodIs(v, TOP);
    if e.high {
      if e.bInterval > 0 {
        Pow2AtLeast(e.bInterval - 1);
        DivOrder(e.bInterval, Pow2(e.bInterval - 1));
      }
    } else {
      assert v <= e.bInterval;
    }
  }

  /**
   And not oftener than needed: the head is the one of the longest period that is
   within the interval the code works with, which is bInterval frames at low and full
   speed below 32, and an eighth of the byte, not of its power of two, at high speed.
  */
  lemma {:induction false} HeadIsLongest(e: Endpoint)
    ensures !e.high && 0 < e.bInterval < 32 ==> Pow2(HeadOfEndpoint(e)) <= e.bInterval < Pow2(HeadOfEndpoint(e) + 1)
    ensures e.high ==>
      var n := if e.bInterval < 8 then 1 else e.bInterval / 8;
      Pow2(HeadOfEndpoint(e)) <= n < Pow2(HeadOfEndpoint(e) + 1)
  {
    hide HeadOfPeriod;
    HeadOfFew(Microframes(e) / 8);
    hide Pow2;
  }

  lemma {:induction false} HeadOfFew(v: nat)
    requires v < 32
    ensures var h := HeadOfPeriod(v, TOP); Pow2(h) <= (if v == 0 then 1 else v) < Pow2(h + 1)
  {
    hide HeadOfPeriod;
    HeadOfPeriodIs(v, TOP);
    assert Pow2(5) == 32;
    assert Pow2(10) == 32 * Pow2(5);
  }

  // ----- the order of the heads -----

  lemma {:induction false} BeforeTrans(l: seq<Addr>, x: Addr, y: Addr, z: Addr)
    requires NoDup(l) && Before(l, x, y) && Before(l, y, z)
    ensures Before(l, x, z)
  {
    BeforeIn(l, x, y);
    BeforeIn(l, y, z);
    if l[0] != x {
      BeforeTrans(l[1..], x, y, z);
    }
  }

  /** A queue head behind head i is behind every head of a longer period. */
  lemma {:induction false} BehindLonger(s: Sched, i: nat, j: nat, q: Qh)
    requires ListsOk(s) && i <= j <= TOP && Before(Whole(s), Head(i), q)
    ensures Before(Whole(s), Head(j), q)
    decreases j
  {
    if i < j {
      BehindLonger(s, i, j - 1, q);
      WholeHas(s, 0);
      BeforeTrans(Whole(s), Head(j), Head(j - 1), q);
    }
  }

  // ----- what the controller meets -----

  /** Following the links from `from` to their end, the controller meets q. */
  ghost predicate Meets(hlp: map<Qh, Qh>, from: Qh, q: Qh) {
    exists l :: Path(hlp, from, l, 0) && q in l
  }

  lemma {:induction false} HeadMeets(hlp: map<Qh, Qh>, s: Sched, j: nat, q: Qh)
    requires ListsOk(s) && ListShape(hlp, s.ring, s.chain) && j <= TOP && Before(Whole(s), Head(j), q)
    ensures Meets(hlp, Head(j), q)
  {
    WholeHas(s, 0);
    assert 0 !in Whole(s);
    var a, b, c := BehindHead(hlp, s.chain, Head(j), q);
    assert q in a + [q] + b;
  }

  /** The frame list: frame g starts at the head of the longest period that serves it. */
  ghost predicate FrameList(framelist: seq<Qh>) {
    |framelist| == Pow2(TOP) && forall g :: 0 <= g < |framelist| ==> framelist[g] == Head(TopAt(TOP, g))
  }

  /**
   Whatever the books are, the queue head of an interrupt request is met in one of
   any `Frames` consecutive frames, also across the wrap-around of the frame list.
  */
  lemma {:induction false} PolledInTime(s: Sched, hlp: map<Qh, Qh>, framelist: seq<Qh>, q: Qh, e: Endpoint, f: nat)
    returns (g: nat)
    requires Inv(s) && ListShape(hlp, s.ring, s.chain) && FrameList(framelist)
    requires At(s.urb, q) != 0 && e.interrupt && At(s.slot, At(s.urb, q)) == SlotOf(e)
    ensures f <= g < f + Frames(e) && Meets(hlp, framelist[g % |framelist|], q)
  {
    var h := HeadOfEndpoint(e);
    BehindItsOwn(s, q, h);
    HeadOftenEnough(e);
    g := NextServed(h, f);
    ServedAcrossWrap(TOP, h, g);
    var x := g % Pow2(TOP);
    DividesUpToTop(TOP, x + 1, h);
    hide Inv;
    BehindLonger(s, h, TopAt(TOP, x), q);
    HeadMeets(hlp, s, TopAt(TOP, x), q);
  }

  lemma {:induction false} BehindItsOwn(s: Sched, q: Qh, h: nat)
    requires Inv(s) && At(s.urb, q) != 0 && At(s.slot, At(s.urb, q)) == h + 1
    ensures ListsOk(s) && Before(Whole(s), Head(h), q)
  {
    assert Used(s.qhUsed, q);
    assert q in s.chain && Pool(q);
    assert BehindItsHead(s, q);
  }

  /** In every run of driver and controller, every interrupt request in flight is polled in time, in every state. */
  lemma {:induction false} PolledInEveryRun(ms: seq<Machine>, es: seq<Event>, i: nat, hlp: map<Qh, Qh>,
                                            framelist: seq<Qh>,
                                            u: Urb, e: Endpoint, f: nat) returns (g: nat)
    requires Run(ms, es) && MachineOk(ms[0]) && i < |ms| && FrameList(framelist)
    requires ListShape(hlp, ms[i].s.ring, ms[i].s.chain)
    requires At(ms[i].s.hcpriv, u) != 0 && e.interrupt && At(ms[i].s.slot, u) == SlotOf(e)
    ensures f <= g < f + Frames(e) && Meets(hlp, framelist[g % |framelist|], At(ms[i].s.hcpriv, u))
  {
    hide Run;
    RunKeeps(ms, es, i);
    g := PolledInTime(ms[i].s, hlp, framelist, At(ms[i].s.hcpriv, u), e, f);
  }

  // ----- what the initialisation builds -----

  function PointerTo(h: int): Qh {
    if h == NONE then 0 else Head(h)
  }

  /** The links that the initialisation makes: the ring is its head alone, and the heads are linked as built. */
  function LinksOf(hlp: seq<int>): map<Qh, Qh> {
    (map q | q in HeadsDown(TOP) && 0 <= q - Head(0) < |hlp| :: PointerTo(hlp[q - Head(0)]))[ASYNC := ASYNC]
  }

  function FramesOf(frames: seq<int>): seq<Qh> {
    seq(|frames|, g requires 0 <= g < |frames| => PointerTo(frames[g]))
  }

  lemma {:induction false} LinkOf(hlp: seq<int>, j: nat)
    requires Descending(hlp, TOP) && j <= TOP
    ensures At(LinksOf(hlp), Head(j)) == if j == 0 then 0 else Head(j - 1)
  {
    HeadsDownAre(TOP);
    hide HeadsDown;
    assert Head(j) in HeadsDown(TOP);
  }

  lemma {:induction false} HeadsPath(hlp: map<Qh, Qh>, i: nat)
    requires At(hlp, Head(0)) == 0 && forall j :: 0 < j <= i ==> At(hlp, Head(j)) == Head(j - 1)
    ensures Path(hlp, Head(i), HeadsDown(i - 1), 0)
  {
    if i > 0 {
      HeadsPath(hlp, i - 1);
      assert HeadsDown(i - 1)[1..] == HeadsDown(i - 2);
    }
  }

  /** What is built is the ring without queue heads and the chain of the heads alone, and the frame list. */
  lemma {:induction false} InitialShape(frames: seq<int>, hlp: seq<int>)
    requires Scheduled(frames, hlp, TOP)
    ensures ListShape(LinksOf(hlp), [], HeadsDown(TOP - 1)) && FrameList(FramesOf(frames))
  {
    hide LinksOf;
    forall j | 0 <= j <= TOP ensures At(LinksOf(hlp), Head(j)) == if j == 0 then 0 else Head(j - 1) {
      LinkOf(hlp, j);
    }
    LinkOf(hlp, 0);
    HeadsPath(LinksOf(hlp), TOP);
    AsyncAlone(hlp);
  }

  lemma {:induction false} AsyncAlone(hlp: seq<int>)
    ensures At(LinksOf(hlp), ASYNC) == ASYNC
  {
  }
}
