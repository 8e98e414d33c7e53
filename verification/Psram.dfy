/** The clocked blocks of the PSRAM controller and of the request machine, register by register. */
module Psram {
  import opened LittleEndian
  import opened PsramPair

  class Tpsram {
    var pState: PState
    var pNext: PState
    var psCs: bool
    var psOe: int
    var psDout: Nibble
    var dataValid: bool
    var cmdAck: bool
    var pCad: seq<Nibble>
    var psCmd: seq<Bit>
    var porCnt: int
    var rwCnt: int
    var wdata: seq<Nibble>
    var pWcnt: int

    constructor ()
      ensures Regs().state == Por && !cmdAck
    {
      pState, pNext, psCs, psOe, psDout, dataValid, cmdAck := Por, Por, true, 0, 0, false, false;
      pCad, psCmd, porCnt, rwCnt, wdata, pWcnt := [], [0, 0, 1, 1, 0, 1, 0, 1], 8, 0, [], 0;
    }

    function Regs(): Tp
      reads this
    {
      Tp(pState, pNext, psCs, psOe, psDout, dataValid, cmdAck, pCad, psCmd, porCnt, rwCnt, wdata, pWcnt)
    }

    method ResetEdge()
      modifies this
      ensures forall u, last :: Regs() == Reset(old(Regs()), u, last).t
    {
      pState, psOe, psCmd, psCs := Por, 0, [0, 0, 1, 1, 0, 1, 0, 1], true;
      porCnt, rwCnt, cmdAck := 8, 0, false;
    }

    method SendBoot(cmdReq: int, r: Req)
      requires Proper(r) && pState == Por
      modifies this
      ensures Regs() == TpStep(old(Regs()), cmdReq, r)
    {
      hide Proper;
      var bit := if psCmd != [] && psCmd[0] == 1 then 1 else 0;
      var rest := if psCmd == [] then [] else psCmd[1..] + [0];
      if porCnt == 0 {
        psCs, psOe, psDout, psCmd, porCnt, pState := true, 0, psDout / 2 * 2 + bit, rest, (porCnt - 1) % 16, Idle;
      } else {
        psCs, psOe, psDout, psCmd, porCnt := false, 1, psDout / 2 * 2 + bit, rest, (porCnt - 1) % 16;
      }
    }

    method Accept(cmdReq: int, r: Req)
      requires Proper(r) && pState == Idle
      modifies this
      ensures Regs() == TpStep(old(Regs()), cmdReq, r)
    {
      rwCnt := 0;
      if cmdReq == READ {
        cmdAck := true;
        pCad := [14, 11] + AddrNibbles(r.addr);
        pState, pNext := CAddr, ReadWait;
      } else if cmdReq == WRITE {
        cmdAck := true;
        pCad := [0, 2] + AddrNibbles(r.addr);
        wdata := Nibbles(LaneBytes(r.addr, r.data));
        pWcnt := if r.size == 2 then 7 else if r.size == 1 then 3 else 1;
        pState, pNext := CAddr, Write;
      }
    }

    method SendCommand(cmdReq: int, r: Req)
      requires Proper(r) && pState == CAddr
      modifies this
      ensures Regs() == TpStep(old(Regs()), cmdReq, r)
    {
      hide Top;
      hide Shifted;
      cmdAck, psCs, psOe, psDout, pCad := false, false, 15, Top(pCad), Shifted(pCad);
      if rwCnt == 7 {
        pState := pNext;
      }
      rwCnt := (rwCnt + 1) % 32;
    }

    method AwaitData(cmdReq: int, r: Req)
      requires Proper(r) && pState == ReadWait
      modifies this
      ensures Regs() == TpStep(old(Regs()), cmdReq, r)
    {
      psOe := 0;
      if rwCnt == 15 {
        pState := ReadData;
      }
      rwCnt := (rwCnt + 1) % 32;
    }

    method TakeData(cmdReq: int, r: Req)
      requires Proper(r) && pState == ReadData
      modifies this
      ensures Regs() == TpStep(old(Regs()), cmdReq, r)
    {
      dataValid := rwCnt % 8 == 6;
      if rwCnt == 31 {
        psCs, pState := true, Finish;
      }
      rwCnt := (rwCnt + 1) % 32;
    }

    method SendData(cmdReq: int, r: Req)
      requires Proper(r) && pState == Write
      modifies this
      ensures Regs() == TpStep(old(Regs()), cmdReq, r)
    {
      psDout, wdata := Top(wdata), Shifted(wdata);
      if pWcnt == 0 {
        pState := Finish;
      }
      pWcnt := (pWcnt - 1) % 8;
    }

    method Release(cmdReq: int, r: Req)
      requires Proper(r) && pState == Finish
      modifies this
      ensures Regs() == TpStep(old(Regs()), cmdReq, r)
    {
      dataValid, psCs, psOe, pState := false, true, 0, Idle;
    }

    method Posedge(cmdReq: int, r: Req)
      requires Proper(r)
      modifies this
      ensures Regs() == TpStep(old(Regs()), cmdReq, r)
    {
      match pState
      case Por => SendBoot(cmdReq, r);
      case Idle => Accept(cmdReq, r);
      case CAddr => SendCommand(cmdReq, r);
      case ReadWait => AwaitData(cmdReq, r);
      case ReadData => TakeData(cmdReq, r);
      case Write => SendData(cmdReq, r);
      case Finish => Release(cmdReq, r);
    }
  }

  class Ulogic {
    var pstate: UState
    var cmdReq: int
    var pramReady: bool
    var pramRdata: seq<Byte>

    constructor ()
      ensures Regs() == Ul(UIdle, NOP, false, [])
    {
      pstate, cmdReq, pramReady, pramRdata := UIdle, NOP, false, [];
    }

    function Regs(): Ul
      reads this
    {
      Ul(pstate, cmdReq, pramReady, pramRdata)
    }

    method Posedge(start: bool, r: Req, cmdAck: bool, dataValid: bool, cmdDout: seq<Byte>)
      requires |cmdDout| == 4
      modifies this
      ensures Regs() == UlStep(old(Regs()), start, r, cmdAck, dataValid, cmdDout)
    {
      match pstate
      case UIdle =>
        pramReady := false;
        if start {
          cmdReq := if r.write then WRITE else READ;
          pstate := WaitAck;
        }
      case WaitAck =>
        if cmdAck {
          if cmdReq == READ {
            pstate := WaitData0;
          } else {
            pramReady, pstate := true, UIdle;
          }
          cmdReq := NOP;
        }
      case WaitData0 =>
        if dataValid {
          pramRdata := Lanes(r.size, cmdDout);
          pstate := WaitData1;
        }
      case WaitData1 =>
        if dataValid {
          pramReady, pstate := true, UIdle;
        }
    }
  }

  /** The two blocks on one clock, and the shift register behind the data lines. */
  class Board {
    const tp: Tpsram
    const ul: Ulogic
    var rdata: seq<Nibble>
    /** What has happened since reset. */
    ghost var pair: Pair

    constructor (tp: Tpsram, ul: Ulogic)
      requires tp.Regs() == Reset(tp.Regs(), ul.Regs(), []).t && ul.Regs() == Reset(tp.Regs(), ul.Regs(), []).u
        && !tp.dataValid
      ensures this.tp == tp && this.ul == ul && Valid()
    {
      this.tp, this.ul := tp, ul;
      rdata := [0, 0, 0, 0, 0, 0, 0, 0];
      pair := Reset(tp.Regs(), ul.Regs(), [0, 0, 0, 0, 0, 0, 0, 0]);
      ResetOk(tp.Regs(), ul.Regs(), [0, 0, 0, 0, 0, 0, 0, 0]);
    }

    ghost predicate Valid()
      reads this, tp, ul
    {
      tp.Regs() == pair.t && ul.Regs() == pair.u && rdata == pair.last && Inv(pair)
    }

    /** One clock cycle: both blocks see the registers of the other as they were before the edge. */
    method Cycle(i: In)
      requires Valid() && Holds(pair, i)
      modifies this, tp, ul
      ensures Valid() && pair == Step(old(pair), i)
    {
      hide Inv;
      HasEight(pair);
      StepKeeps(pair, i);
      ghost var next := Step(pair, i);
      var cmdReq, cmdAck, dataValid := ul.cmdReq, tp.cmdAck, tp.dataValid;
      tp.Posedge(cmdReq, i.req);
      ul.Posedge(i.start, i.req, cmdAck, dataValid, Received(rdata));
      rdata := rdata[1..] + [i.din];
      pair := next;
    }
  }

  lemma {:induction false} HasEight(p: Pair)
    requires Inv(p)
    ensures |p.last| == 8
  {
  }
}
