/**
 The PSRAM controller and the request machine that drives it, as one clocked
 system: every register takes its new value from the old values of all.
 A vector that is shifted by four bits is a sequence of nibbles, the top one first.
*/
module PsramPair {
  import opened LittleEndian

  type Nibble = n: int | 0 <= n < 16
  type Bit = b: int | 0 <= b < 2

  // ----- requests -----

  /** A transfer on the AHB: the size code, the address, and the four byte lanes of the data. */
  datatype Req = Req(write: bool, size: int, addr: int, data: seq<Byte>)

  predicate Proper(r: Req) {
    0 <= r.size < 4 && 0 <= r.addr < 0x100_0000 && |r.data| == 4
  }

  predicate Aligned(r: Req) {
    || r.size == 0
    || (r.size == 1 && r.addr % 2 == 0)
    || (r.size == 2 && r.addr % 4 == 0)
  }

  function High(b: Byte): Nibble {
    b / 16
  }

  function Low(b: Byte): Nibble {
    b % 16
  }

  /** Bytes on a four-bit bus. */
  function Nibbles(b: seq<Byte>): (n: seq<Nibble>)
    ensures |n| == 2 * |b|
  {
    if b == [] then [] else [High(b[0]), Low(b[0])] + Nibbles(b[1..])
  }

  /** The six nibbles of an address. */
  function AddrNibbles(addr: int): (n: seq<Nibble>)
    requires 0 <= addr < 0x100_0000
    ensures |n| == 6
  {
    [addr / 0x10_0000, addr / 0x1_0000 % 16, addr / 0x1000 % 16, addr / 0x100 % 16, addr / 0x10 % 16, addr % 16]
  }

  // ----- the controller -----

  datatype PState = Por | Idle | CAddr | ReadWait | ReadData | Write | Finish

  datatype Tp = Tp(
    state: PState, next: PState, cs: bool, oe: int, dout: Nibble, dataValid: bool, cmdAck: bool,
    cad: seq<Nibble>, cmd: seq<Bit>, porCnt: int, rwCnt: int, wdata: seq<Nibble>, wcnt: int)

  const NOP := 0
  const WRITE := 1
  const READ := 2

  function Shifted(s: seq<Nibble>): (t: seq<Nibble>) {
    if s == [] then [] else s[1..] + [0]
  }

  function Top(s: seq<Nibble>): Nibble {
    if s == [] then 0 else s[0]
  }

  /** The four bytes taken over from the data lanes for a write to this address. */
  function LaneBytes(addr: int, data: seq<Byte>): (b: seq<Byte>)
    requires |data| == 4
    ensures |b| == 4
  {
    [data[addr % 4], if addr / 2 % 2 == 0 then data[1] else data[3], data[2], data[3]]
  }

  /** One rising edge of the clock. */
  function TpStep(t: Tp, cmdReq: int, r: Req): Tp
    requires Proper(r)
  {
    match t.state
    case Por =>
      var last := t.porCnt == 0;
      t.(cs := last, oe := if last then 0 else 1,
         dout := t.dout / 2 * 2 + (if t.cmd != [] && t.cmd[0] == 1 then 1 else 0),
         cmd := if t.cmd == [] then [] else t.cmd[1..] + [0],
         porCnt := (t.porCnt - 1) % 16, state := if last then Idle else Por)
    case Idle =>
      if cmdReq == READ then
        t.(rwCnt := 0, cmdAck := true, cad := [14, 11] + AddrNibbles(r.addr), state := CAddr, next := ReadWait)
      else if cmdReq == WRITE then
        t.(rwCnt := 0, cmdAck := true, cad := [0, 2] + AddrNibbles(r.addr), wdata := Nibbles(LaneBytes(r.addr, r.data)),
           wcnt := if r.size == 2 then 7 else if r.size == 1 then 3 else 1, state := CAddr, next := Write)
      else
        t.(rwCnt := 0)
    case CAddr =>
      t.(cmdAck := false, cs := false, oe := 15, dout := Top(t.cad), cad := Shifted(t.cad),
         state := if t.rwCnt == 7 then t.next else CAddr, rwCnt := (t.rwCnt + 1) % 32)
    case ReadWait =>
      t.(oe := 0, rwCnt := (t.rwCnt + 1) % 32, state := if t.rwCnt == 15 then ReadData else ReadWait)
    case ReadData =>
      t.(rwCnt := (t.rwCnt + 1) % 32, dataValid := t.rwCnt % 8 == 6,
         cs := t.cs || t.rwCnt == 31, state := if t.rwCnt == 31 then Finish else ReadData)
    case Write =>
      t.(dout := Top(t.wdata), wdata := Shifted(t.wdata), wcnt := (t.wcnt - 1) % 8,
         state := if t.wcnt == 0 then Finish else Write)
    case Finish =>
      t.(dataValid := false, cs := true, oe := 0, state := Idle)
  }

  // ----- the request machine -----

  datatype UState = UIdle | WaitAck | WaitData0 | WaitData1

  datatype Ul = Ul(state: UState, cmdReq: int, ready: bool, rdata: seq<Byte>)

  function Joined(high: Nibble, low: Nibble): Byte {
    16 * high + low
  }

  /** The bytes of the last eight nibbles received, the first one first. */
  function Received(n: seq<Nibble>): (b: seq<Byte>)
    requires |n| == 8
    ensures |b| == 4
  {
    [Joined(n[0], n[1]), Joined(n[2], n[3]), Joined(n[4], n[5]), Joined(n[6], n[7])]
  }

  /** The bytes put on the lanes, repeated for narrow transfers. */
  function Lanes(size: int, b: seq<Byte>): (l: seq<Byte>)
    requires |b| == 4
    ensures |l| == 4
  {
    if size == 0 then [b[0], b[0], b[0], b[0]] else if size == 1 then [b[0], b[1], b[0], b[1]] else b
  }

  function UlStep(u: Ul, start: bool, r: Req, ack: bool, valid: bool, received: seq<Byte>): Ul
    requires |received| == 4
  {
    match u.state
    case UIdle =>
      if start then u.(ready := false, cmdReq := if r.write then WRITE else READ, state := WaitAck)
        else u.(ready := false)
    case WaitAck =>
      if !ack then u
      else if u.cmdReq == READ then u.(cmdReq := NOP, state := WaitData0)
      else u.(cmdReq := NOP, ready := true, state := UIdle)
    case WaitData0 =>
      if valid then u.(rdata := Lanes(r.size, received), state := WaitData1) else u
    case WaitData1 =>
      if valid then u.(ready := true, state := UIdle) else u
  }

  // ----- the pair, and what can be seen of it -----

  /** Registers; and what has happened: requests started, accepted and answered, bits and nibbles put on the bus,
      pulses seen, nibbles sampled since the last request was accepted. */
  datatype Pair = Pair(
    t: Tp, u: Ul, last: seq<Nibble>,
    issued: seq<Req>, accepted: seq<Req>, done: seq<Req>, boot: seq<Bit>, out: seq<Nibble>, pulses: nat,
    since: seq<Nibble>)

  /** The inputs in one cycle: a start pulse, the request held on the AHB, the four data lines. */
  datatype In = In(start: bool, req: Req, din: Nibble)

  function Emits(t: Tp): seq<Nibble> {
    if !t.cs && t.oe == 15 then [t.dout] else []
  }

  function BootEmits(t: Tp): seq<Bit> {
    if !t.cs && t.oe == 1 then [t.dout % 2] else []
  }

  /** One cycle: the rising edge, then the sampling of the data lines at the falling edge. */
  function Step(p: Pair, i: In): (p': Pair)
    requires Proper(i.req) && |p.last| == 8
    ensures |p'.last| == 8
  {
    var t := TpStep(p.t, p.u.cmdReq, i.req);
    var u := UlStep(p.u, i.start, i.req, p.t.cmdAck, p.t.dataValid, Received(p.last));
    var accepts := p.t.state == Idle && (p.u.cmdReq == READ || p.u.cmdReq == WRITE);
    Pair(t, u, p.last[1..] + [i.din],
         if p.u.state == UIdle && i.start then p.issued + [i.req] else p.issued,
         if accepts then p.accepted + [Req(p.u.cmdReq == WRITE, i.req.size, i.req.addr, i.req.data)] else p.accepted,
         if u.ready && p.u.state != UIdle then p.done + [i.req] else p.done,
         p.boot + BootEmits(t), p.out + Emits(t), p.pulses + (if p.t.dataValid then 1 else 0),
         if accepts then [] else p.since + [i.din])
  }

  /** The AHB holds its inputs from the start pulse until the answer, and gives one pulse a transfer. */
  ghost predicate Holds(p: Pair, i: In) {
    && Proper(i.req)
    && (p.u.state != UIdle ==> !i.start && p.issued != [] && i.req == p.issued[|p.issued| - 1])
  }

  ghost predicate Run(p: Pair, ins: seq<In>, p': Pair)
    requires |p.last| == 8
    decreases |ins|
  {
    if ins == [] then p' == p else Holds(p, ins[0]) && Run(Step(p, ins[0]), ins[1..], p')
  }

  /** After reset; `valid` is the data-valid flag, which reset leaves alone. */
  function Reset(t: Tp, u: Ul, last: seq<Nibble>): Pair {
    Pair(t.(state := Por, oe := 0, cmd := [0, 0, 1, 1, 0, 1, 0, 1], cs := true,
            porCnt := 8, rwCnt := 0, cmdAck := false),
         u.(cmdReq := NOP, state := UIdle, ready := false), last, [], [], [], [], [], 0, [])
  }

  // ----- what a request puts on the bus -----

  function Frame(r: Req): seq<Nibble>
    requires Proper(r)
  {
    (if r.write then [0, 2] else [14, 11]) + AddrNibbles(r.addr)
    + (if r.write then Nibbles(LaneBytes(r.addr, r.data))[..if r.size == 2 then 8 else if r.size == 1 then 4 else 2]
      else [])
  }

  ghost predicate AllProper(rs: seq<Req>) {
    forall i :: 0 <= i < |rs| ==> Proper(rs[i])
  }

  function Frames(rs: seq<Req>): seq<Nibble>
    requires AllProper(rs)
  {
    if rs == [] then [] else Frames(rs[..|rs| - 1]) + Frame(rs[|rs| - 1])
  }

  /** The addressed bytes, in ascending order. */
  function Addressed(r: Req): seq<Byte>
    requires Proper(r) && Aligned(r)
  {
    var n := if r.size == 2 then 4 else if r.size == 1 then 2 else 1;
    r.data[r.addr % 4..][..n]
  }

  // ----- what every run keeps -----

  /** The nibbles still to come of the request being served. */
  function Remaining(t: Tp): seq<Nibble> {
    if t.state == CAddr && 0 <= t.rwCnt < 8 && |t.cad| == 8 then
      t.cad[..8 - t.rwCnt] + if t.next == Write then Payload(t) else []
    else if t.state == Write then Payload(t)
    else []
  }

  /** The bits still to come of the command sent after reset. */
  function BootLeft(t: Tp): seq<Bit> {
    if t.state == Por && 0 <= t.porCnt <= |t.cmd| then t.cmd[..t.porCnt] else []
  }

  function Payload(t: Tp): seq<Nibble> {
    if 0 <= t.wcnt < |t.wdata| then t.wdata[..t.wcnt + 1] else []
  }

  ghost predicate TpInv(t: Tp) {
    && (t.dataValid <==> t.state == ReadData && (t.rwCnt == 23 || t.rwCnt == 31))
    && (t.cmdAck <==> t.state == CAddr && t.rwCnt == 0)
    && match t.state
       case Por => 0 <= t.porCnt <= 8 && |t.cmd| == 8
       case Idle => t.cs && t.oe == 0
       case CAddr =>
         0 <= t.rwCnt < 8 && |t.cad| == 8
           && (t.next == ReadWait || (t.next == Write && t.wcnt in {1, 3, 7} && |t.wdata| == 8))
       case ReadWait => 8 <= t.rwCnt < 16
       case ReadData => 16 <= t.rwCnt < 32 && t.oe == 0
       case Write => 0 <= t.wcnt < 8 && |t.wdata| == 8 && !t.cs && t.oe == 15
       case Finish => true
  }

  /** The controller serves a read. */
  predicate Reading(t: Tp) {
    t.state == ReadWait || t.state == ReadData || (t.state == CAddr && t.next == ReadWait)
  }

  ghost predicate Joint(t: Tp, u: Ul, current: seq<Req>) {
    && (u.ready ==> u.state == UIdle)
    && match u.state
    case UIdle => u.cmdReq == NOP && !t.cmdAck && !Reading(t)
    case WaitAck =>
      && current != [] && u.cmdReq == (if current[|current| - 1].write then WRITE else READ)
      && (if t.cmdAck then Reading(t) <==> u.cmdReq == READ else !Reading(t))
    case WaitData0 =>
      u.cmdReq == NOP && !t.cmdAck && Reading(t) && (t.state == ReadData ==> t.rwCnt <= 23) && current != []
        && !current[|current| - 1].write
    case WaitData1 =>
      u.cmdReq == NOP && t.state == ReadData && t.rwCnt >= 24 && current != [] && !current[|current| - 1].write
  }

  function ReadsIn(rs: seq<Req>): nat {
    if rs == [] then 0 else ReadsIn(rs[..|rs| - 1]) + if rs[|rs| - 1].write then 0 else 1
  }

  /**
   Every request is accepted once and answered once, in order; at most the last is still
   to be accepted or answered.
  */
  ghost predicate Books(p: Pair) {
    && p.issued == p.done + (if p.u.state == UIdle then [] else Latest(p.issued))
    && p.issued == p.accepted + (if p.u.state == WaitAck && !p.t.cmdAck then Latest(p.issued) else [])
  }

  function Latest(rs: seq<Req>): seq<Req> {
    if rs == [] then [] else [rs[|rs| - 1]]
  }

  /** The bus has carried the frames of the accepted requests, except for what is still to come. */
  ghost predicate OnTheBus(p: Pair) {
    && AllProper(p.issued) && AllProper(p.accepted)
    && p.out + Remaining(p.t) == Frames(p.accepted)
    && p.boot + BootLeft(p.t) == [0, 0, 1, 1, 0, 1, 0, 1]
  }

  ghost predicate Pulses(p: Pair) {
    p.pulses == 2 * ReadsIn(p.done) + if p.u.state == WaitData1 then 1 else 0
  }

  /**
   The data kept for a read are the eight nibbles sampled before the first pulse, always
   the same ones of its own frame.
  */
  ghost predicate Sampled(p: Pair) {
    && (Reading(p.t) ==> |p.since| == p.t.rwCnt)
    && Recent(p.since, p.last)
    && (p.u.state == WaitData1 ==> p.issued != [] && p.u.rdata == Answer(p.issued[|p.issued| - 1], p.since))
  }

  /** `last` ends with the last eight samples, or with all if there are fewer. */
  ghost predicate Recent(since: seq<Nibble>, last: seq<Nibble>) {
    && |last| == 8
    && (|since| <= 8 ==> last[8 - |since|..] == since)
    && (|since| >= 8 ==> last == since[|since| - 8..])
  }

  function Answer(r: Req, since: seq<Nibble>): seq<Byte> {
    if |since| >= 23 then Lanes(r.size, Received(since[15..23])) else []
  }

  ghost predicate Inv(p: Pair) {
    |p.last| == 8 && TpInv(p.t) && Joint(p.t, p.u, p.issued) && Books(p) && OnTheBus(p) && Pulses(p) && Sampled(p)
  }

  // ----- each cycle keeps it -----

  lemma {:induction false} TpKeeps(t: Tp, cmdReq: int, r: Req)
    requires TpInv(t) && Proper(r)
    ensures TpInv(TpStep(t, cmdReq, r))
  {
  }

  lemma {:induction false} JointKeeps(t: Tp, u: Ul, issued: seq<Req>, start: bool, r: Req, received: seq<Byte>, t': Tp,
                                      u': Ul, issued': seq<Req>)
    requires TpInv(t) && Joint(t, u, issued) && Proper(r) && |received| == 4
    requires t' == TpStep(t, u.cmdReq, r) && u' == UlStep(u, start, r, t.cmdAck, t.dataValid, received)
    requires issued' == if u.state == UIdle && start then issued + [r] else issued
    ensures Joint(t', u', issued')
  {
  }

  lemma {:induction false} Last(rs: seq<Req>, r: Req)
    ensures (rs + [r])[..|rs|] == rs && Latest(rs + [r]) == [r]
      && ReadsIn(rs + [r]) == ReadsIn(rs) + if r.write then 0 else 1
  {
    assert (rs + [r])[..|rs|] == rs;
  }

  /** A request that is being served is the last one issued, as it was accepted. */
  lemma {:induction false} SameRequest(p: Pair, i: In)
    requires Joint(p.t, p.u, p.issued) && Holds(p, i) && p.u.state != UIdle
    ensures Latest(p.issued) == [i.req]
    ensures p.u.state == WaitAck ==> Req(p.u.cmdReq == WRITE, i.req.size, i.req.addr, i.req.data) == i.req
  {
  }

  lemma {:induction false} BooksKeep(p: Pair, i: In)
    requires TpInv(p.t) && |p.last| == 8 && Joint(p.t, p.u, p.issued) && Books(p) && Holds(p, i)
    ensures Books(Step(p, i))
  {
    hide Frames;
    if p.u.state == UIdle {
      Last(p.issued, i.req);
    } else {
      SameRequest(p, i);
    }
  }

  lemma {:induction false} PulsesKeep(p: Pair, i: In)
    requires TpInv(p.t) && |p.last| == 8 && Joint(p.t, p.u, p.issued) && Pulses(p) && Holds(p, i)
    ensures Pulses(Step(p, i))
  {
    Last(p.done, i.req);
  }

  lemma {:induction false} ShiftedOut(s: seq<Nibble>, n: nat)
    requires 0 < n <= |s|
    ensures |Shifted(s)| == |s| && [Top(s)] + Shifted(s)[..n - 1] == s[..n]
  {
  }

  lemma {:induction false} AcceptedIsFrame(t: Tp, cmdReq: int, r: Req, t': Tp)
    requires TpInv(t) && t.state == Idle && Proper(r) && t' == TpStep(t, cmdReq, r)
    ensures Remaining(t) == [] && Emits(t') == []
    ensures Remaining(t') == if cmdReq == READ || cmdReq == WRITE then
      Frame(Req(cmdReq == WRITE, r.size, r.addr, r.data)) else []
  {
    hide AddrNibbles;
    hide LaneBytes;
    hide Nibbles;
    assert t'.state == CAddr ==> t'.cad[..8] == t'.cad;
  }

  lemma {:induction false} AddressGoesOut(t: Tp, cmdReq: int, r: Req, t': Tp)
    requires TpInv(t) && t.state == CAddr && Proper(r) && t' == TpStep(t, cmdReq, r)
    ensures Emits(t') + Remaining(t') == Remaining(t)
  {
    hide AddrNibbles;
    hide LaneBytes;
    hide Shifted;
    hide Top;
    var n := 8 - t.rwCnt;
    ShiftedOut(t.cad, n);
    assert Payload(t') == Payload(t);
    var rest := if t.next == Write then Payload(t) else [];
    assert [Top(t.cad)] + (Shifted(t.cad)[..n - 1] + rest) == t.cad[..n] + rest;
    assert n == 1 ==> Shifted(t.cad)[..n - 1] + rest == rest;
  }

  lemma {:induction false} DataGoesOut(t: Tp, cmdReq: int, r: Req, t': Tp)
    requires TpInv(t) && t.state == Write && Proper(r) && t' == TpStep(t, cmdReq, r)
    ensures Emits(t') + Remaining(t') == Remaining(t)
  {
    hide AddrNibbles;
    hide LaneBytes;
    hide Shifted;
    hide Top;
    ShiftedOut(t.wdata, t.wcnt + 1);
  }

  /** Nothing but the accepted request changes what is still to come, and what leaves it goes onto the bus. */
  lemma {:induction false} RemainingKeeps(t: Tp, cmdReq: int, r: Req, t': Tp)
    requires TpInv(t) && Proper(r) && t' == TpStep(t, cmdReq, r)
    ensures if t.state == Idle && (cmdReq == READ || cmdReq == WRITE) then
        Remaining(t) == [] && Emits(t') == [] && Remaining(t') == Frame(Req(cmdReq == WRITE, r.size, r.addr, r.data))
      else Emits(t') + Remaining(t') == Remaining(t)
  {
    hide Proper;
    hide AddrNibbles;
    hide LaneBytes;
    hide Payload;
    hide Shifted;
    hide Top;
    if t.state == Idle {
      AcceptedIsFrame(t, cmdReq, r, t');
    } else if t.state == CAddr {
      AddressGoesOut(t, cmdReq, r, t');
    } else if t.state == Write {
      DataGoesOut(t, cmdReq, r, t');
    }
  }

  lemma {:induction false} BootBit(cmd: seq<Bit>, n: nat)
    requires 0 < n <= |cmd|
    ensures [cmd[0]] + (cmd[1..] + [0])[..n - 1] == cmd[..n]
  {
  }

  lemma {:induction false} BootKeeps(t: Tp, cmdReq: int, r: Req, t': Tp)
    requires TpInv(t) && Proper(r) && t' == TpStep(t, cmdReq, r)
    ensures BootEmits(t') + BootLeft(t') == BootLeft(t)
  {
    if t.state == Por && t.porCnt > 0 {
      BootBit(t.cmd, t.porCnt);
      assert t'.dout % 2 == t.cmd[0];
    }
  }

  lemma {:induction false} BusKeeps(p: Pair, i: In)
    requires TpInv(p.t) && |p.last| == 8 && Joint(p.t, p.u, p.issued) && OnTheBus(p) && Holds(p, i)
    ensures OnTheBus(Step(p, i))
  {
    hide Frame;
    hide Remaining;
    hide TpStep;
    hide Emits;
    hide BootEmits;
    hide BootLeft;
    var p' := Step(p, i);
    RemainingKeeps(p.t, p.u.cmdReq, i.req, p'.t);
    BootKeeps(p.t, p.u.cmdReq, i.req, p'.t);
    assert (p.boot + BootEmits(p'.t)) + BootLeft(p'.t) == p.boot + (BootEmits(p'.t) + BootLeft(p'.t));
    assert (p.out + Emits(p'.t)) + Remaining(p'.t) == p.out + (Emits(p'.t) + Remaining(p'.t));
    var r := Req(p.u.cmdReq == WRITE, i.req.size, i.req.addr, i.req.data);
    assert (p.accepted + [r])[..|p.accepted|] == p.accepted;
    assert [] + Frame(r) == Frame(r) && p.out + [] == p.out;
  }

  /** While a read is served, n samples since it was accepted are as many as the counter says. */
  lemma {:induction false} CountKeeps(t: Tp, cmdReq: int, r: Req, n: nat)
    requires TpInv(t) && Proper(r) && (Reading(t) ==> n == t.rwCnt)
    ensures var n' := if t.state == Idle && (cmdReq == READ || cmdReq == WRITE) then 0 else n + 1;
      Reading(TpStep(t, cmdReq, r)) ==> n' == TpStep(t, cmdReq, r).rwCnt
  {
    hide AddrNibbles;
    hide LaneBytes;
    hide Nibbles;
    hide Top;
    hide Shifted;
  }

  /** The first pulse of a read comes after 23 samples, the second later. */
  lemma {:induction false} SamplesAtPulse(p: Pair)
    requires TpInv(p.t) && Joint(p.t, p.u, p.issued) && (Reading(p.t) ==> |p.since| == p.t.rwCnt)
    ensures p.u.state == WaitData0 && p.t.dataValid ==> |p.since| == 23
    ensures p.u.state == WaitData1 ==> |p.since| >= 24
    ensures p.u.state == WaitData0 || p.u.state == WaitData1 ==> p.u.cmdReq == NOP
  {
  }

  lemma {:induction false} RecentKeeps(p: Pair, i: In)
    requires |p.last| == 8 && Recent(p.since, p.last) && Proper(i.req)
    ensures Recent(Step(p, i).since, Step(p, i).last)
  {
    hide TpStep;
    hide UlStep;
    Window(p.since, p.last, i.din);
  }

  /** The answer kept stays the eight nibbles before the first pulse. */
  lemma {:induction false} AnswerKeeps(p: Pair, i: In)
    requires TpInv(p.t) && |p.last| == 8 && Joint(p.t, p.u, p.issued) && Sampled(p) && Holds(p, i)
    ensures var p' := Step(p, i);
      p'.u.state == WaitData1 ==> p'.issued != [] && p'.u.rdata == Answer(p'.issued[|p'.issued| - 1], p'.since)
  {
    hide TpInv;
    hide Joint;
    hide TpStep;
    hide Received;
    hide Lanes;
    hide Recent;
    SamplesAtPulse(p);
    Window(p.since, p.last, i.din);
  }

  lemma {:induction false} SampledKeeps(p: Pair, i: In)
    requires TpInv(p.t) && |p.last| == 8 && Joint(p.t, p.u, p.issued) && Sampled(p) && Holds(p, i)
    ensures Sampled(Step(p, i))
  {
    hide TpInv;
    hide Joint;
    hide TpStep;
    hide UlStep;
    hide Received;
    hide Answer;
    hide Recent;
    hide Reading;
    CountKeeps(p.t, p.u.cmdReq, i.req, |p.since|);
    RecentKeeps(p, i);
    AnswerKeeps(p, i);
  }

  lemma {:induction false} Window(since: seq<Nibble>, last: seq<Nibble>, din: Nibble)
    requires Recent(since, last)
    ensures Recent(since + [din], last[1..] + [din])
    ensures |since| == 23 ==> (since + [din])[15..23] == last
    ensures |since| >= 23 ==> (since + [din])[15..23] == since[15..23]
  {
    if |since| == 23 {
      assert since[15..23] == since[15..];
    }
  }

  /** One cycle keeps all of it. */
  lemma {:induction false} StepKeeps(p: Pair, i: In)
    requires Inv(p) && Holds(p, i)
    ensures Inv(Step(p, i))
  {
    hide OnTheBus;
    hide Sampled;
    hide Books;
    hide Pulses;
    BusKeeps(p, i);
    SampledKeeps(p, i);
    BooksKeep(p, i);
    PulsesKeep(p, i);
    var p' := Step(p, i);
    TpKeeps(p.t, p.u.cmdReq, i.req);
    JointKeeps(p.t, p.u, p.issued, i.start, i.req, Received(p.last), p'.t, p'.u, p'.issued);
  }

  /** So every run keeps it. */
  lemma {:induction false} RunKeeps(p: Pair, ins: seq<In>, p': Pair)
    requires Inv(p) && Run(p, ins, p')
    ensures Inv(p')
    decreases |ins|
  {
    hide TpInv;
    hide Joint;
    hide Books;
    hide OnTheBus;
    hide Pulses;
    hide Sampled;
    if ins != [] {
      StepKeeps(p, ins[0]);
      RunKeeps(Step(p, ins[0]), ins[1..], p');
    }
  }

  /** Reset leaves the pair in order exactly if the data-valid flag, which it does not touch, is low. */
  lemma {:induction false} ResetOk(t: Tp, u: Ul, last: seq<Nibble>)
    requires |last| == 8
    ensures Inv(Reset(t, u, last)) <==> !t.dataValid
  {
    var p := Reset(t, u, last);
    assert p.t.cmd[..8] == [0, 0, 1, 1, 0, 1, 0, 1];
  }

  /**
   Whenever both machines are idle, each request has been accepted and answered once, and
   the bus has carried exactly their frames.
  */
  lemma {:induction false} QuietAfterReset(t: Tp, u: Ul, last: seq<Nibble>, ins: seq<In>, p: Pair)
    requires |last| == 8 && !t.dataValid && Run(Reset(t, u, last), ins, p)
    requires p.t.state == Idle && p.u.state == UIdle
    ensures p.accepted == p.issued && p.done == p.issued && AllProper(p.issued)
    ensures p.out == Frames(p.issued) && p.boot == [0, 0, 1, 1, 0, 1, 0, 1] && p.pulses == 2 * ReadsIn(p.issued)
  {
    hide TpInv;
    hide Joint;
    hide Run;
    ResetOk(t, u, last);
    RunKeeps(Reset(t, u, last), ins, p);
    assert p.out + [] == p.out && p.boot + [] == p.boot;
  }

  /** With the flag high a first read is answered three cycles after it was accepted, before its address is out. */
  lemma {:induction false} AnsweredTooEarly(p: Pair, a: In, b: In, c: In)
    requires |p.last| == 8 && p.u.state == WaitAck && p.u.cmdReq == READ
    requires p.t.state == CAddr && p.t.cmdAck && p.t.rwCnt == 0 && p.t.dataValid && !p.u.ready
    requires Holds(p, a) && a.req == b.req == c.req && !b.start && !c.start
    ensures var q := Step(Step(Step(p, a), b), c);
      q.u.ready && q.done == p.done + [a.req] && q.t.state == CAddr && q.t.rwCnt == 3
  {
    hide Received;
    var p1 := Step(p, a);
    FlagStays(p, a);
    assert p1.u.state == WaitData0;
    var p2 := Step(p1, b);
    FlagStays(p1, b);
    assert p2.u.state == WaitData1;
    FlagStays(p2, c);
  }

  lemma {:induction false} FlagStays(p: Pair, i: In)
    requires |p.last| == 8 && Proper(i.req) && p.t.state == CAddr && 0 <= p.t.rwCnt < 7
    ensures var q := Step(p, i);
      q.t.state == CAddr && q.t.rwCnt == p.t.rwCnt + 1 && q.t.dataValid == p.t.dataValid && q.accepted == p.accepted
  {
  }

  /** A first read waits for the controller, which still has the flag high. */
  ghost predicate Awaiting(p: Pair, r: Req) {
    && |p.last| == 8 && p.t.dataValid && Proper(r) && !r.write
    && p.u.state == WaitAck && p.u.cmdReq == READ && !p.u.ready && p.issued == [r] && p.done == []
  }

  /** The request is held for n cycles. */
  function Held(r: Req, n: nat): seq<In> {
    if n == 0 then [] else [In(false, r, 0)] + Held(r, n - 1)
  }

  lemma {:induction false} OneBootCycle(p: Pair, r: Req, q: Pair)
    requires Awaiting(p, r) && p.t.state == Por && 0 <= p.t.porCnt <= 8 && !p.t.cmdAck && q == Step(p, In(false, r, 0))
    ensures Holds(p, In(false, r, 0)) && Awaiting(q, r) && !q.t.cmdAck
    ensures if p.t.porCnt == 0 then q.t.state == Idle else q.t.state == Por && q.t.porCnt == p.t.porCnt - 1
  {
  }

  lemma {:induction false} RunFrom(p: Pair, i: In, q: Pair, ins: seq<In>, q': Pair)
    requires |p.last| == 8 && Holds(p, i) && q == Step(p, i) && Run(q, ins, q')
    ensures Run(p, [i] + ins, q')
  {
    hide Step;
    assert ([i] + ins)[1..] == ins;
  }

  /** It waits until the command after reset is out. */
  lemma {:induction false} WaitsForBoot(p: Pair, r: Req) returns (q: Pair)
    requires Awaiting(p, r) && p.t.state == Por && 0 <= p.t.porCnt <= 8 && !p.t.cmdAck
    ensures Run(p, Held(r, p.t.porCnt + 1), q) && Awaiting(q, r) && q.t.state == Idle && !q.t.cmdAck
    decreases p.t.porCnt
  {
    hide Step;
    var i := In(false, r, 0);
    var p1 := Step(p, i);
    OneBootCycle(p, r, p1);
    if p.t.porCnt > 0 {
      q := WaitsForBoot(p1, r);
    } else {
      q := p1;
      assert Held(r, 0) == [] && Run(q, [], q);
    }
    RunFrom(p, i, p1, Held(r, p.t.porCnt), q);
  }

  lemma {:induction false} RunsOn(p: Pair, a: seq<In>, q: Pair, b: seq<In>, q': Pair)
    requires |p.last| == 8 && Run(p, a, q) && |q.last| == 8 && Run(q, b, q')
    ensures Run(p, a + b, q')
    decreases |a|
  {
    hide Step;
    if a == [] {
      assert a + b == b;
    } else {
      assert (a + b)[1..] == a[1..] + b;
      RunsOn(Step(p, a[0]), a[1..], q, b, q');
    }
  }

  lemma {:induction false} AcceptedRead(p: Pair, r: Req) returns (q: Pair)
    requires Awaiting(p, r) && p.t.state == Idle && !p.t.cmdAck
    ensures Run(p, [In(false, r, 0)], q) && Awaiting(q, r) && q.t.state == CAddr && q.t.cmdAck && q.t.rwCnt == 0
  {
    q := Step(p, In(false, r, 0));
    assert [In(false, r, 0)][1..] == [] && Run(q, [], q);
  }

  lemma {:induction false} AnsweredInThree(p: Pair, r: Req) returns (q: Pair)
    requires Awaiting(p, r) && p.t.state == CAddr && p.t.cmdAck && p.t.rwCnt == 0
    ensures Run(p, Held(r, 3), q) && q.u.ready && q.done == [r] && q.t.state == CAddr && q.t.rwCnt == 3
  {
    var i := In(false, r, 0);
    AnsweredTooEarly(p, i, i, i);
    var p1 := Step(p, i);
    var p2 := Step(p1, i);
    q := Step(p2, i);
    FlagStays(p, i);
    FlagStays(p1, i);
    hide TpStep;
    ThreeSteps(p, p1, p2, q, r);
  }

  lemma {:induction false} ThreeSteps(p: Pair, p1: Pair, p2: Pair, q: Pair, r: Req)
    requires |p.last| == 8 && Proper(r)
    requires p1 == Step(p, In(false, r, 0)) && p2 == Step(p1, In(false, r, 0)) && q == Step(p2, In(false, r, 0))
    requires Holds(p, In(false, r, 0)) && Holds(p1, In(false, r, 0)) && Holds(p2, In(false, r, 0))
    ensures Run(p, Held(r, 3), q)
  {
    hide Step;
    var i := In(false, r, 0);
    assert Held(r, 1) == [i] && Held(r, 1)[1..] == [] && Run(q, [], q);
    assert Held(r, 2)[1..] == Held(r, 1) && Held(r, 3)[1..] == Held(r, 2);
    assert Run(p2, Held(r, 1), q);
    assert Run(p1, Held(r, 2), q);
  }

  /**
   So from a reset with the flag high, a first read in the first cycle is answered while
   its address is on its way.
  */
  lemma {:induction false} EarlyFromReset(t: Tp, u: Ul, last: seq<Nibble>, r: Req) returns (ins: seq<In>, p: Pair)
    requires |last| == 8 && t.dataValid && Proper(r) && !r.write
    ensures Run(Reset(t, u, last), ins, p) && p.u.ready && p.done == [r] && p.t.state == CAddr && p.t.rwCnt == 3
  {
    var p0, i := Reset(t, u, last), In(true, r, 0);
    var p1 := Step(p0, i);
    assert [i][1..] == [] && Run(p1, [], p1) && Run(p0, [i], p1);
    assert Awaiting(p1, r) && p1.t.state == Por && p1.t.porCnt == 7;
    var p2 := WaitsForBoot(p1, r);
    var p3 := AcceptedRead(p2, r);
    p := AnsweredInThree(p3, r);
    hide Step;
    hide Run;
    RunsOn(p0, [i], p1, Held(r, 8), p2);
    RunsOn(p0, [i] + Held(r, 8), p2, [In(false, r, 0)], p3);
    ins := [i] + Held(r, 8) + [In(false, r, 0)] + Held(r, 3);
    RunsOn(p0, [i] + Held(r, 8) + [In(false, r, 0)], p3, Held(r, 3), p);
  }

  // ----- what a frame is -----

  /** Halfwords lie at places 0 and 2 of a word, and words at place 0. */
  lemma {:induction false} LowPlace(addr: int)
    requires 0 <= addr
    ensures addr % 2 == 0 ==> addr % 4 == if addr / 2 % 2 == 0 then 0 else 2
    ensures addr % 4 == 0 ==> addr % 2 == 0 && addr / 2 % 2 == 0
  {
    var w, p := addr / 4, addr % 4;
    assert addr == 2 * (2 * w + p / 2) + p % 2;
    assert addr / 2 == 2 * w + p / 2;
  }

  /** Where the bytes of an aligned transfer lie in the word. */
  lemma {:induction false} AddressedAre(r: Req)
    requires Proper(r) && Aligned(r)
    ensures Addressed(r) ==
      if r.size == 0 then [r.data[r.addr % 4]]
      else if r.size == 2 then r.data
      else if r.addr / 2 % 2 == 0 then [r.data[0], r.data[1]]
      else [r.data[2], r.data[3]]
  {
    LowPlace(r.addr);
  }

  lemma {:induction false} FewNibbles(b: seq<Byte>)
    requires 1 <= |b| <= 2
    ensures Nibbles(b) ==
      [High(b[0]), Low(b[0])] + if |b| == 1 then [] else [High(b[1]), Low(b[1])]
  {
    hide High;
    hide Low;
    assert Nibbles(b[1..]) == if |b| == 1 then [] else [High(b[1]), Low(b[1])] + Nibbles(b[1..][1..]);
  }

  /** The frame of an aligned write: command, address, and the addressed bytes in ascending order. */
  lemma {:induction false} WriteFrame(r: Req)
    requires Proper(r) && Aligned(r) && r.write
    ensures Frame(r) == [0, 2] + AddrNibbles(r.addr) + Nibbles(Addressed(r))
    ensures |Frame(r)| == 8 + if r.size == 0 then 2 else if r.size == 1 then 4 else 8
  {
    hide High;
    hide Low;
    hide AddrNibbles;
    hide Addressed;
    var b, a := LaneBytes(r.addr, r.data), Addressed(r);
    AddressedAre(r);
    LowPlace(r.addr);
    FourNibbles(b);
    if r.size == 2 {
      assert a == b;
    } else {
      FewNibbles(a);
    }
  }

  /** The number that nibbles hold, the highest first. */
  function Hex(n: seq<Nibble>): int {
    if n == [] then 0
    else
      var last: int := n[|n| - 1];
      16 * Hex(n[..|n| - 1]) + last
  }

  lemma {:induction false} HexOf(n: seq<Nibble>, x: Nibble)
    ensures var last: int := x; Hex(n + [x]) == 16 * Hex(n) + last
  {
    assert (n + [x])[..|n|] == n;
  }

  /** A frame begins with the command, 0x02 for a write and 0xEB for a read, and the address; a read has no more. */
  lemma {:induction false} FrameHead(r: Req)
    requires Proper(r)
    ensures var f := Frame(r);
      |f| >= 8 && Hex(f[..2]) == (if r.write then 0x02 else 0xEB) && Hex(f[2..8]) == r.addr && (!r.write ==> |f| == 8)
  {
    hide Nibbles;
    hide AddrNibbles;
    hide Hex;
    var f := Frame(r);
    assert f[2..8] == AddrNibbles(r.addr);
    AddressDigits(r.addr);
    assert f[..2] == if r.write then [0, 2] else [14, 11];
    TwoDigits(0, 2);
    TwoDigits(14, 11);
  }

  lemma {:induction false} TwoDigits(x: Nibble, y: Nibble)
    ensures var high: int, low: int := x, y; Hex([x, y]) == 16 * high + low
  {
    HexOf([x], y);
    HexOf([], x);
    assert [] + [x] == [x] && [x] + [y] == [x, y];
  }

  lemma {:induction false} AddressDigits(a: int)
    requires 0 <= a < 0x100_0000
    ensures Hex(AddrNibbles(a)) == a
  {
    var n := AddrNibbles(a);
    assert [] + [n[0]] == n[..1] && n[..1] + [n[1]] == n[..2] && n[..2] + [n[2]] == n[..3];
    assert n[..3] + [n[3]] == n[..4] && n[..4] + [n[4]] == n[..5] && n[..5] + [n[5]] == n;
    HexOf([], n[0]);
    HexOf(n[..1], n[1]);
    HexOf(n[..2], n[2]);
    HexOf(n[..3], n[3]);
    HexOf(n[..4], n[4]);
    HexOf(n[..5], n[5]);
    HexQuotients(a);
  }

  lemma {:induction false} HexQuotients(a: int)
    requires 0 <= a
    ensures a / 0x1_0000 / 16 == a / 0x10_0000 && a / 0x1000 / 16 == a / 0x1_0000
    ensures a / 0x100 / 16 == a / 0x1000 && a / 0x10 / 16 == a / 0x100
  {
  }

  lemma {:induction false} FourNibbles(b: seq<Byte>)
    requires |b| == 4
    ensures Nibbles(b) == [High(b[0]), Low(b[0]), High(b[1]), Low(b[1]), High(b[2]), Low(b[2]), High(b[3]), Low(b[3])]
  {
    assert b[1..][1..] == b[2..] && b[2..][1..] == b[3..] && b[3..][1..] == [];
    assert Nibbles(b[3..]) == [High(b[3]), Low(b[3])];
    assert Nibbles(b[2..]) == [High(b[2]), Low(b[2])] + Nibbles(b[3..]);
    assert Nibbles(b[1..]) == [High(b[1]), Low(b[1])] + Nibbles(b[2..]);
  }

  /**
   A read answers on the lanes of its address with the first bytes received, and what was
   sent as nibbles is received as those bytes.
  */
  lemma {:induction false} ReadLanes(r: Req, b: seq<Byte>)
    requires Proper(r) && Aligned(r) && |b| == 4
    ensures Received(Nibbles(b)) == b
    ensures Addressed(r.(data := Lanes(r.size, b))) == b[..if r.size == 2 then 4 else if r.size == 1 then 2 else 1]
  {
    hide Addressed;
    hide High;
    hide Low;
    hide Joined;
    AddressedAre(r.(data := Lanes(r.size, b)));
    FourNibbles(b);
    forall i | 0 <= i < 4 ensures Joined(High(b[i]), Low(b[i])) == b[i] {
      JoinedAgain(b[i]);
    }
  }

  lemma {:induction false} JoinedAgain(b: Byte)
    ensures Joined(High(b), Low(b)) == b
  {
  }

  // ----- when a request is answered -----

  /** Cycles until the controller is idle. */
  function IdleIn(t: Tp): int {
    match t.state
    case Por => t.porCnt + 1
    case Idle => 0
    case CAddr => 8 - t.rwCnt + if t.next == Write then t.wcnt + 2 else 25
    case ReadWait => 33 - t.rwCnt
    case ReadData => 33 - t.rwCnt
    case Write => t.wcnt + 2
    case Finish => 1
  }

  /** Cycles until the request under way is answered. */
  function Latency(p: Pair): int {
    Time(p.t, p.u)
  }

  function Time(t: Tp, u: Ul): int {
    match u.state
    case UIdle => 0
    case WaitAck => (if t.cmdAck then 0 else IdleIn(t) + 1) + if u.cmdReq == READ then 32 else 1
    case WaitData0 => 32 - t.rwCnt
    case WaitData1 => 32 - t.rwCnt
  }

  lemma {:induction false} Busy(p: Pair)
    requires Inv(p) && p.u.state != UIdle
    ensures 0 < Latency(p) <= 50
  {
    hide Books;
    hide OnTheBus;
    hide Pulses;
    hide Sampled;
  }

  lemma {:induction false} AckNearer(t: Tp, u: Ul, issued: seq<Req>, start: bool, r: Req, received: seq<Byte>, t': Tp,
                                     u': Ul)
    requires TpInv(t) && Joint(t, u, issued) && Proper(r) && |received| == 4 && u.state == WaitAck
    requires t' == TpStep(t, u.cmdReq, r) && u' == UlStep(u, start, r, t.cmdAck, t.dataValid, received)
    ensures Time(t', u') == Time(t, u) - 1
    ensures (u'.ready <==> u'.state == UIdle) && (u'.state == UIdle <==> Time(t, u) == 1)
  {
    hide AddrNibbles;
    hide LaneBytes;
    hide Nibbles;
    hide Top;
    hide Shifted;
    hide Lanes;
  }

  lemma {:induction false} DataNearer(t: Tp, u: Ul, issued: seq<Req>, start: bool, r: Req, received: seq<Byte>, t': Tp,
                                      u': Ul)
    requires TpInv(t) && Joint(t, u, issued) && Proper(r) && |received| == 4
    requires u.state == WaitData0 || u.state == WaitData1
    requires t' == TpStep(t, u.cmdReq, r) && u' == UlStep(u, start, r, t.cmdAck, t.dataValid, received)
    ensures Time(t', u') == Time(t, u) - 1
    ensures (u'.ready <==> u'.state == UIdle) && (u'.state == UIdle <==> Time(t, u) == 1)
  {
    hide AddrNibbles;
    hide LaneBytes;
    hide Nibbles;
    hide Top;
    hide Shifted;
    hide Lanes;
  }

  lemma {:induction false} TimeNearer(t: Tp, u: Ul, issued: seq<Req>, start: bool, r: Req, received: seq<Byte>, t': Tp,
                                      u': Ul)
    requires TpInv(t) && Joint(t, u, issued) && Proper(r) && |received| == 4 && u.state != UIdle
    requires t' == TpStep(t, u.cmdReq, r) && u' == UlStep(u, start, r, t.cmdAck, t.dataValid, received)
    ensures Time(t', u') == Time(t, u) - 1
    ensures (u'.ready <==> u'.state == UIdle) && (u'.state == UIdle <==> Time(t, u) == 1)
  {
    hide TpStep;
    hide UlStep;
    hide TpInv;
    hide Joint;
    hide Time;
    if u.state == WaitAck {
      AckNearer(t, u, issued, start, r, received, t', u');
    } else {
      DataNearer(t, u, issued, start, r, received, t', u');
    }
  }

  /** A cycle brings the answer one nearer, and in the last one it comes. */
  lemma {:induction false} Nearer(p: Pair, i: In)
    requires Inv(p) && Holds(p, i) && p.u.state != UIdle
    ensures var p' := Step(p, i);
      && Latency(p') == Latency(p) - 1
      && (if Latency(p) == 1 then p'.u.state == UIdle && p'.u.ready && p'.done == p.done + [i.req]
          else p'.u.state != UIdle && p'.done == p.done)
  {
    hide TpInv;
    hide Joint;
    hide TpStep;
    hide UlStep;
    hide Time;
    hide Books;
    hide OnTheBus;
    hide Pulses;
    hide Sampled;
    var p' := Step(p, i);
    TimeNearer(p.t, p.u, p.issued, i.start, i.req, Received(p.last), p'.t, p'.u);
  }

  /**
   Every request under way is answered after exactly that many cycles, a read with the
   nibbles sampled in its own frame.
  */
  lemma {:induction false} Answered(p: Pair, ins: seq<In>, p': Pair)
    requires Inv(p) && p.u.state != UIdle && Run(p, ins, p') && |ins| == Latency(p)
    ensures |ins| <= 50 && p'.u.ready && p'.done == p.done + Latest(p.issued) && p'.issued == p.issued
    ensures p.issued != []
      && (!p.issued[|p.issued| - 1].write ==> p'.u.rdata == Answer(p.issued[|p.issued| - 1], p'.since))
    decreases |ins|
  {
    hide TpInv;
    hide Joint;
    hide Books;
    hide OnTheBus;
    hide Pulses;
    hide Sampled;
    hide Answer;
    Busy(p);
    hide Latency;
    var q := Step(p, ins[0]);
    Nearer(p, ins[0]);
    StepKeeps(p, ins[0]);
    SameRequest(p, ins[0]);
    LastStep(p, ins[0], q);
    if Latency(p) == 1 {
      assert ins[1..] == [];
      assert q == p';
    } else {
      Answered(q, ins[1..], p');
    }
  }

  /** What the last cycle keeps of the request and its answer. */
  lemma {:induction false} LastStep(p: Pair, i: In, p': Pair)
    requires Inv(p) && Holds(p, i) && p.u.state != UIdle && p' == Step(p, i)
    ensures p.issued != [] && p'.issued == p.issued
    ensures Latency(p) == 1 && !p.issued[|p.issued| - 1].write ==>
      p'.u.rdata == Answer(p.issued[|p.issued| - 1], p'.since)
  {
    hide Books;
    hide OnTheBus;
    hide Pulses;
    hide Received;
    hide Lanes;
    Window(p.since, p.last, i.din);
  }

  /** A request that the idle controller finds waiting is answered 33 cycles later, or 2 if it is a write. */
  lemma {:induction false} AnsweredIn(p: Pair)
    requires Inv(p) && p.u.state == WaitAck && p.t.state == Idle && !p.t.cmdAck
    ensures p.issued != [] && Latency(p) == if p.issued[|p.issued| - 1].write then 2 else 33
  {
    hide Books;
    hide OnTheBus;
    hide Pulses;
    hide Sampled;
  }

  /** A read is answered with the sixteenth to twenty-third nibble sampled since it was accepted. */
  lemma {:induction false} AnsweringNibbles(r: Req, n: seq<Nibble>)
    requires Proper(r) && Aligned(r) && |n| >= 23
    ensures |Answer(r, n)| == 4
    ensures Nibbles(Addressed(r.(data := Answer(r, n))))
      == n[15..if r.size == 2 then 23 else if r.size == 1 then 19 else 17]
  {
    hide Addressed;
    var b := Received(n[15..23]);
    ReadLanes(r, b);
    FourNibbles(b);
    forall i | 0 <= i < 4 ensures High(b[i]) == n[15 + 2 * i] && Low(b[i]) == n[16 + 2 * i] {
    }
    hide High;
    hide Low;
    if r.size == 2 {
      assert b[..4] == b;
    } else {
      FewNibbles(b[..if r.size == 1 then 2 else 1]);
    }
  }
}
