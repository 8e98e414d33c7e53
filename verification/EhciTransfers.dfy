/**
 How a transfer is cut into queue element descriptors, and how a descriptor's
 buffer is put on pages.
*/
module EhciTransfers {
  import opened Arith

  const PAGE := 0x1000
  const CHUNK := 0x4000

  // ----- the page list of one descriptor -----

  function Offset(bufaddr: nat): nat {
    bufaddr % PAGE
  }

  /** The five page pointers of a cleared descriptor: each further page as far as the buffer goes. */
  function Pages(bufaddr: nat, buflen: nat): (bpl: seq<int>)
    ensures |bpl| == 5
  {
    seq(5, i requires 0 <= i < 5 =>
      if i == 0 then bufaddr
      else if i * PAGE < Offset(bufaddr) + buflen then bufaddr - Offset(bufaddr) + i * PAGE
      else 0)
  }

  /** The page pointers are filled in; addresses are 32-bit words, and the buffer ends within them. */
  method BplFill(bpl: array<int>, bufaddr: nat, buflen: nat)
    requires bpl.Length == 5 && bufaddr + buflen <= WORD && bpl[..] == [0, 0, 0, 0, 0]
    modifies bpl
    ensures bpl[..] == Pages(bufaddr, buflen)
  {
    bpl[0] := bufaddr;
    var rest := PAGE - Offset(bufaddr);
    if buflen < rest {
    } else {
      var addr := (bufaddr + PAGE) % WORD;
      addr := addr - addr % PAGE;
      var i := 1;
      while rest < buflen && i < 5
        invariant 1 <= i <= 5 && addr == (bufaddr - Offset(bufaddr) + i * PAGE) % WORD
        invariant rest == (if i * PAGE < Offset(bufaddr) + buflen then i * PAGE - Offset(bufaddr) else buflen)
        invariant bpl[0] == bufaddr
        invariant forall x :: 1 <= x < 5 ==>
          bpl[x] == if x < i && x * PAGE < Offset(bufaddr) + buflen then bufaddr - Offset(bufaddr) + x * PAGE else 0
      {
        bpl[i] := addr;
        addr := (addr + PAGE) % WORD;
        if rest + PAGE < buflen {
          rest := rest + PAGE;
        } else {
          rest := buflen;
        }
        i := i + 1;
      }
    }
  }

  /**
   Where the controller finds byte o of the buffer (section 3.5.4 of the EHCI 1.0
   specification): on the page that its offset from the start of the first page
   selects, if that is one of the five.
  */
  ghost predicate Reachable(bpl: seq<int>, bufaddr: nat, o: nat)
    requires |bpl| == 5
  {
    var at := Offset(bufaddr) + o;
    at / PAGE < 5 && bpl[at / PAGE] - bpl[at / PAGE] % PAGE + at % PAGE == bufaddr + o
  }

  lemma {:induction false} ByteOnPage(bufaddr: nat, buflen: nat, o: nat)
    requires o < buflen && Offset(bufaddr) + o < 5 * PAGE
    ensures Reachable(Pages(bufaddr, buflen), bufaddr, o)
  {
    var at := Offset(bufaddr) + o;
    var i := at / PAGE;
    assert 0 <= i < 5 && at == i * PAGE + at % PAGE;
    if i > 0 {
      assert Pages(bufaddr, buflen)[i] == bufaddr - Offset(bufaddr) + i * PAGE;
    }
  }

  /** The controller finds every byte exactly if the buffer ends within five pages of its first one. */
  lemma {:induction false} AllBytesReachable(bufaddr: nat, buflen: nat)
    ensures (forall o: nat :: o < buflen ==> Reachable(Pages(bufaddr, buflen), bufaddr, o))
      <==> buflen == 0 || Offset(bufaddr) + buflen <= 5 * PAGE
  {
    if buflen > 0 && Offset(bufaddr) + buflen > 5 * PAGE {
      assert !Reachable(Pages(bufaddr, buflen), bufaddr, buflen - 1);
    } else {
      forall o: nat | o < buflen ensures Reachable(Pages(bufaddr, buflen), bufaddr, o) {
        ByteOnPage(bufaddr, buflen, o);
      }
    }
  }

  /** One chunk of a bulk or interrupt transfer always is. */
  lemma {:induction false} ChunkReachable(bufaddr: nat, buflen: nat)
    requires buflen <= CHUNK
    ensures forall o: nat :: o < buflen ==> Reachable(Pages(bufaddr, buflen), bufaddr, o)
  {
    AllBytesReachable(bufaddr, buflen);
  }

  // ----- the descriptors of one transfer -----

  datatype Chunk = Chunk(at: nat, len: nat, ioc: bool)

  /** The chunks of a bulk or interrupt transfer. */
  function Chunks(at: nat, n: nat): (cs: seq<Chunk>)
    ensures cs != []
    decreases n
  {
    if n <= CHUNK then [Chunk(at, n, true)] else [Chunk(at, CHUNK, false)] + Chunks(at + CHUNK, n - CHUNK)
  }

  /** The number of descriptors that the check before the transfer asks for; it is computed in 32 bits. */
  function Asked(n: nat): nat {
    (n + CHUNK - 1) % WORD / CHUNK
  }

  /** The chunks lie one behind the other from `at` to `end`. */
  ghost predicate Contiguous(cs: seq<Chunk>, at: int, end: int) {
    if cs == [] then at == end else cs[0].at == at && Contiguous(cs[1..], at + cs[0].len, end)
  }

  /** A transfer of n > 0 bytes is cut into as few chunks as possible, which cover it; the last one interrupts. */
  lemma {:induction false} ChunksCover(at: nat, n: nat)
    ensures Contiguous(Chunks(at, n), at, at + n)
    ensures |Chunks(at, n)| == if n == 0 then 1 else (n + CHUNK - 1) / CHUNK
    ensures forall i :: 0 <= i < |Chunks(at, n)| ==>
      var c := Chunks(at, n)[i]; c.len <= CHUNK && (n > 0 ==> c.len > 0) && (c.ioc <==> i == |Chunks(at, n)| - 1)
    decreases n
  {
    if n > CHUNK {
      ChunksCover(at + CHUNK, n - CHUNK);
      var rest := Chunks(at + CHUNK, n - CHUNK);
      assert Chunks(at, n)[1..] == rest;
    } else {
      assert Chunks(at, n)[1..] == [];
    }
  }

  /**
   The check asks for exactly the number of descriptors that the transfer takes,
   unless the transfer is empty or so long that the sum wraps around.
  */
  lemma {:induction false} AskedIsEnough(at: nat, n: nat)
    requires n < WORD
    ensures Asked(n) == |Chunks(at, n)| <==> 0 < n <= 0xffff_c000
    ensures Asked(n) <= |Chunks(at, n)|
  {
    ChunksCover(at, n);
  }

  // ----- descriptors -----

  /**
   A descriptor: its bytes, bytes the controller has still to move, whether it may
   still work on it, where the buffer is, and whether it interrupts at the end.
  */
  datatype Td = Td(total: int, left: int, active: bool, addr: int, ioc: bool, bpl: seq<int>)

  const NO_TD := Td(0, 0, false, 0, false, [0, 0, 0, 0, 0])

  /** The count of bytes to move has fifteen bits. */
  const COUNT := 0x8000

  /** A descriptor as it is filled for a chunk. */
  function FreshTd(c: Chunk): Td {
    Td(c.len, c.len % COUNT, true, c.at, c.ioc, Pages(c.at, c.len))
  }

  function FreshTds(cs: seq<Chunk>): (ts: seq<Td>)
    ensures |ts| == |cs| && forall i :: 0 <= i < |cs| ==> ts[i] == FreshTd(cs[i])
  {
    if cs == [] then [] else [FreshTd(cs[0])] + FreshTds(cs[1..])
  }

  /** The descriptors lie one behind the other from `at` to `end`. */
  ghost predicate Covers(ts: seq<Td>, at: int, end: int) {
    if ts == [] then at == end else ts[0].addr == at && Covers(ts[1..], at + ts[0].total, end)
  }

  lemma {:induction false} FreshCovers(cs: seq<Chunk>, at: int, end: int)
    requires Contiguous(cs, at, end)
    ensures Covers(FreshTds(cs), at, end)
  {
    if cs != [] {
      assert FreshTds(cs)[1..] == FreshTds(cs[1..]);
      FreshCovers(cs[1..], at + cs[0].len, end);
    }
  }

  /**
   What the descriptors of a transfer are for: they cover the buffer, the last
   interrupts, and the controller finds every byte.
  */
  ghost predicate Carries(ts: seq<Td>, buf: nat, n: nat) {
    && ts != [] && Covers(ts, buf, buf + n)
    && forall i :: 0 <= i < |ts| ==>
      && (ts[i].ioc <==> i == |ts| - 1) && ts[i].left == ts[i].total && ts[i].active
      && |ts[i].bpl| == 5 && ts[i].addr >= 0
         && (forall o: nat :: o < ts[i].total ==> Reachable(ts[i].bpl, ts[i].addr, o))
  }

  /** The descriptors of a bulk or interrupt transfer do, for every buffer and length. */
  lemma {:induction false} ChunksCarry(buf: nat, n: nat)
    ensures Carries(FreshTds(Chunks(buf, n)), buf, n)
    ensures |FreshTds(Chunks(buf, n))| == if n == 0 then 1 else (n + CHUNK - 1) / CHUNK
  {
    var cs := Chunks(buf, n);
    var ts := FreshTds(cs);
    ChunksCover(buf, n);
    FreshCovers(cs, buf, buf + n);
    forall i | 0 <= i < |ts|
      ensures (ts[i].ioc <==> i == |ts| - 1) && ts[i].left == ts[i].total && ts[i].active
      ensures |ts[i].bpl| == 5 && ts[i].addr >= 0
        && forall o: nat :: o < ts[i].total ==> Reachable(ts[i].bpl, ts[i].addr, o)
    {
      assert ts[i] == FreshTd(cs[i]);
      ChunkReachable(cs[i].at, cs[i].len);
    }
  }

  /** The chunks of a control transfer: the setup packet, the data if any are announced, and the empty status stage. */
  function ControlChunks(setup: nat, buf: nat, wLength: nat, buflen: nat): seq<Chunk> {
    [Chunk(setup, 8, false)] + (if wLength > 0 then [Chunk(buf, buflen, false)] else []) + [Chunk(0, 0, true)]
  }

  /**
   The descriptors of a control transfer: eight bytes at the packet, the buffer if data
   are announced, and an empty one, the only one that interrupts.
  */
  ghost predicate ControlStages(ts: seq<Td>, setup: nat, buf: nat, wLength: nat, buflen: nat) {
    && |ts| == (if wLength > 0 then 3 else 2)
    && (forall i :: 0 <= i < |ts| ==> ts[i].active && |ts[i].bpl| == 5 && (ts[i].ioc <==> i == |ts| - 1))
    && ts[0].addr == setup && ts[0].total == 8 == ts[0].left
    && (forall o: nat :: o < 8 ==> Reachable(ts[0].bpl, setup, o))
    && ts[|ts| - 1].total == 0 == ts[|ts| - 1].left
    && (wLength > 0 ==>
          && ts[1].addr == buf && ts[1].total == buflen && ts[1].left == buflen % 0x8000
          && ((forall o: nat :: o < buflen ==> Reachable(ts[1].bpl, buf, o)) <==>
               buflen == 0 || buf % 0x1000 + buflen <= 0x5000))
  }

  lemma {:induction false} ControlCarries(setup: nat, buf: nat, wLength: nat, buflen: nat)
    ensures ControlStages(FreshTds(ControlChunks(setup, buf, wLength, buflen)), setup, buf, wLength, buflen)
  {
    AllBytesReachable(setup, 8);
    AllBytesReachable(buf, buflen);
    hide Pages;
    hide Reachable;
    var cs := ControlChunks(setup, buf, wLength, buflen);
    assert FreshTds(cs)[0] == FreshTd(cs[0]) && FreshTds(cs)[1] == FreshTd(cs[1]);
  }

  // ----- what the controller makes of descriptors -----

  /** The controller has moved bytes, so that fewer are left, and may have ended its work. */
  ghost predicate WorkedOn(a: Td, b: Td) {
    && b.total == a.total && b.addr == a.addr && b.ioc == a.ioc && b.bpl == a.bpl
    && b.left <= a.left && (a.left >= 0 ==> b.left >= 0) && (b.active ==> a.active)
  }

  ghost predicate Worked(ts: seq<Td>, ts': seq<Td>) {
    |ts'| == |ts| && forall i :: 0 <= i < |ts| ==> WorkedOn(ts[i], ts'[i])
  }

  function TotalOf(ts: seq<Td>): int {
    if ts == [] then 0 else ts[0].total + TotalOf(ts[1..])
  }

  function LeftOf(ts: seq<Td>): int {
    if ts == [] then 0 else ts[0].left + LeftOf(ts[1..])
  }

  ghost predicate NoneActive(ts: seq<Td>) {
    forall i :: 0 <= i < |ts| ==> !ts[i].active
  }

  /**
   What is reported as moved is never negative and never more than the total; and it is
   what was moved, plus what the counts did not hold.
  */
  lemma {:induction false} ReportedBytes(cs: seq<Chunk>, f: seq<Td>)
    requires Worked(FreshTds(cs), f)
    ensures TotalOf(f) == TotalOf(FreshTds(cs)) && 0 <= LeftOf(f) <= LeftOf(FreshTds(cs)) <= TotalOf(FreshTds(cs))
  {
    if cs != [] {
      var ts := FreshTds(cs);
      assert ts[1..] == FreshTds(cs[1..]);
      assert WorkedOn(ts[0], f[0]);
      forall i | 0 <= i < |ts[1..]| ensures WorkedOn(ts[1..][i], f[1..][i]) {
        assert WorkedOn(ts[i + 1], f[i + 1]);
      }
      ReportedBytes(cs[1..], f[1..]);
    }
  }

  lemma {:induction false} DataTotals(buf: nat, n: nat)
    ensures TotalOf(FreshTds(Chunks(buf, n))) == n && LeftOf(FreshTds(Chunks(buf, n))) == n
    decreases n
  {
    var ts := FreshTds(Chunks(buf, n));
    if n > CHUNK {
      DataTotals(buf + CHUNK, n - CHUNK);
      assert ts[1..] == FreshTds(Chunks(buf + CHUNK, n - CHUNK));
    } else {
      assert ts[1..] == [];
    }
  }

  lemma {:induction false} ControlTotals(setup: nat, buf: nat, wLength: nat, buflen: nat)
    ensures var ts := FreshTds(ControlChunks(setup, buf, wLength, buflen));
      && TotalOf(ts) == 8 + (if wLength > 0 then buflen else 0)
      && LeftOf(ts) == 8 + (if wLength > 0 then buflen % COUNT else 0)
  {
    var cs := ControlChunks(setup, buf, wLength, buflen);
    var ts := FreshTds(cs);
    if wLength > 0 {
      assert ts == [FreshTd(cs[0]), FreshTd(cs[1]), FreshTd(cs[2])];
      SumsStep(ts);
      assert ts[1..] == [ts[1], ts[2]];
      TwoSums(ts[1], ts[2]);
    } else {
      assert ts == [FreshTd(cs[0]), FreshTd(cs[1])];
      TwoSums(ts[0], ts[1]);
    }
  }

  lemma {:induction false} SumsStep(ts: seq<Td>)
    requires ts != []
    ensures TotalOf(ts) == ts[0].total + TotalOf(ts[1..]) && LeftOf(ts) == ts[0].left + LeftOf(ts[1..])
  {
  }

  lemma {:induction false} TwoSums(a: Td, b: Td)
    ensures TotalOf([a, b]) == a.total + b.total && LeftOf([a, b]) == a.left + b.left
  {
    assert [a, b][1..] == [b] && [b][1..] == [];
    SumsStep([a, b]);
    SumsStep([b]);
  }
}
