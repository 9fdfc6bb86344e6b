/** One port of the banked memory model as the object it is: its own queues, and the bank queues
    that it shares with the other ports. */
module BankPort {

  import opened Wrappers
  import opened Responses
  import opened BankModel

  class MemPort {
    const id: nat
    var newReq: Option<Req>
    var wrDataIdx: nat
    var hostReqQue: seq<Req>
    var bankReqQue: seq<Req>
    var bankBusyQue: seq<Req>
    var rdReqQwIdx: nat
    var wrReqQwIdx: nat
    ghost var rsps: seq<Rsp>
    ghost var done: seq<Req>

    ghost function V(): Port
      reads this
    {
      Port(newReq, wrDataIdx, hostReqQue, bankReqQue, bankBusyQue, rdReqQwIdx, wrReqQwIdx, rsps, done)
    }

    /** The model's state as seen from this port and the shared queues. */
    ghost predicate Sees(y: Sys, banks: array<seq<Req>>)
      reads this, banks
    {
      id < |y.ports| && y.ports[id] == V() && banks[..] == y.banks
    }

    constructor (id: nat)
      ensures this.id == id && V() == Port(None, 0, [], [], [], 0, 0, [], [])
    {
      this.id := id;
      newReq := None;
      wrDataIdx, rdReqQwIdx, wrReqQwIdx := 0, 0, 0;
      hostReqQue, bankReqQue, bankBusyQue := [], [], [];
      rsps, done := [], [];
    }

    /** One clock. */
    method Tick(banks: array<seq<Req>>, now: nat, seqNum: nat, hc1: bool, inp: Input, rdFull: bool, wrFull: bool,
                ghost y: Sys) returns (nextSeqNum: nat)
      requires Inv(y) && Sees(y, banks) && now == y.now && seqNum == y.seqNum
      requires inp.Request? ==> inp.low < 8
      modifies this, banks
      ensures var z := Apply(y, Clock(id, hc1, inp, rdFull, wrFull));
              Inv(z) && Sees(z, banks) && nextSeqNum == z.seqNum
    {
      hide Inv, Shape, Accept, Schedule, Retire;
      InvShape(y);
      StepKeeps(y, Clock(id, hc1, inp, rdFull, wrFull));
      AcceptShape(y, id, hc1, inp);
      AcceptKeeps(y, id, hc1, inp);
      ghost var y1 := Accept(y, id, hc1, inp);
      ScheduleShape(y1, id);
      ScheduleKeeps(y1, id);
      AcceptNow(y, id, hc1, inp);
      nextSeqNum := AcceptReq(banks, now, seqNum, hc1, inp, y);
      ScheduleReq(banks, now, y1);
      RetireReq(banks, now, rdFull, wrFull, Schedule(y1, id));
    }

    lemma AcceptNow(y: Sys, p: nat, hc1: bool, inp: Input)
      requires Shape(y) && p < |y.ports| && (inp.Request? ==> inp.low < 8)
      ensures var z := Accept(y, p, hc1, inp);
              Shape(z) && |z.ports| == |y.ports| && z.now == y.now && Schedule(z, p).now == y.now
              && Schedule(z, p).seqNum == z.seqNum
      ensures forall rdFull, wrFull :: Shape(Schedule(Accept(y, p, hc1, inp), p))
                ==> Retire(Schedule(Accept(y, p, hc1, inp), p), p, rdFull, wrFull).seqNum == Accept(y, p, hc1, inp).seqNum
    {
      AcceptShape(y, p, hc1, inp);
      ScheduleShape(Accept(y, p, hc1, inp), p);
    }

    method AcceptReq(banks: array<seq<Req>>, now: nat, seqNum: nat, hc1: bool, inp: Input, ghost y: Sys)
      returns (nextSeqNum: nat)
      requires Inv(y) && Sees(y, banks) && now == y.now && seqNum == y.seqNum
      modifies this
      ensures var z := Accept(y, id, hc1, inp); Sees(z, banks) && nextSeqNum == z.seqNum
    {
      assert PortOk(y, id) && (y.ports[id].newReq.None? ==> y.ports[id].dataIdx == 0);
      hide Inv, Shape, PortOk, Descending, Answered, ServiceOk;
      nextSeqNum := seqNum;
      if inp.Request? {
        if newReq.None? {
          newReq := Some(Req(seqNum, id, inp.kind, inp.low, inp.host, BankOf(inp.host, inp.addr),
                             if hc1 then 1 else inp.low + 1, now, 0));
          nextSeqNum := seqNum + 1;
          if inp.kind.Write? {
            wrDataIdx := wrDataIdx + 1;
          }
        } else {
          wrDataIdx := wrDataIdx + 1;
        }
        var r := newReq.value;
        if !r.kind.Write? || wrDataIdx == r.qwCnt {
          if r.host {
            hostReqQue := hostReqQue + [r];
          } else {
            bankReqQue := bankReqQue + [r];
          }
          newReq := None;
          wrDataIdx := 0;
        }
      }
    }

    method ScheduleReq(banks: array<seq<Req>>, now: nat, ghost y: Sys)
      requires Inv(y) && Sees(y, banks) && now == y.now
      modifies this, banks
      ensures Sees(Schedule(y, id), banks)
    {
      InvShape(y);
      if hostReqQue != [] && hostReqQue[0].start + Delay(hostReqQue[0]) <= now {
        var r := hostReqQue[0];
        assert GoodReq(y.ports[id].hostReqs[0], id);
        hostReqQue := hostReqQue[1..];
        GiveToBank(banks, now, r, y);
      } else if bankReqQue != [] && bankReqQue[0].start + Delay(bankReqQue[0]) <= now {
        var r := bankReqQue[0];
        assert GoodReq(y.ports[id].bankReqs[0], id);
        bankReqQue := bankReqQue[1..];
        GiveToBank(banks, now, r, y);
      }
    }

    /** The bank's queue tells when it is done with the request; the port's list stays in order. */
    method GiveToBank(banks: array<seq<Req>>, now: nat, r: Req, ghost y: Sys)
      requires id < |y.ports| && banks[..] == y.banks && now == y.now && r.bank < banks.Length
      modifies this`bankBusyQue, banks
      ensures Sees(Place(y, id, old(V()), r), banks)
    {
      hide Inserted, InsertPos;
      var minBusyTime := now + BusyTime(r);
      var avl := minBusyTime;
      if banks[r.bank] != [] {
        var minAvlTime := banks[r.bank][|banks[r.bank]| - 1].avl + BusyTime(r);
        avl := Max(minAvlTime, minBusyTime);
      }
      var r1 := r.(avl := avl);
      assert avl == AvlTime(y.banks[r.bank], r, now);
      banks[r.bank] := banks[r.bank] + [r1];
      var i := FindPos(bankBusyQue, r1);
      InsertedIs(bankBusyQue, r1);
      bankBusyQue := bankBusyQue[..i] + [r1] + bankBusyQue[i..];
    }

    /** The walk through the list, from the latest request on. */
    static method FindPos(busy: seq<Req>, r: Req) returns (i: nat)
      ensures i == InsertPos(busy, r)
      ensures i <= |busy| && (forall k :: 0 <= k < i ==> !Before(busy[k], r)) && (i < |busy| ==> Before(busy[i], r))
    {
      i := 0;
      while i < |busy| && !Before(busy[i], r)
        invariant i <= |busy| && InsertPos(busy, r) == i + InsertPos(busy[i..], r)
        invariant forall k :: 0 <= k < i ==> !Before(busy[k], r)
      {
        assert busy[i..][1..] == busy[i + 1..];
        i := i + 1;
      }
    }

    static lemma InsertedIs(busy: seq<Req>, r: Req)
      ensures Inserted(busy, r) == busy[..InsertPos(busy, r)] + [r] + busy[InsertPos(busy, r)..]
    {
    }

    method RetireReq(banks: array<seq<Req>>, now: nat, rdFull: bool, wrFull: bool, ghost y: Sys)
      requires Inv(y) && Sees(y, banks) && now == y.now
      modifies this, banks
      ensures Sees(Retire(y, id, rdFull, wrFull), banks)
    {
      assert PortOk(y, id);
      if bankBusyQue == [] {
        return;
      }
      BusyInBanks(y, id);
      hide Inv, Descending, Whole, Part;
      var r := bankBusyQue[|bankBusyQue| - 1];
      // a scheduled request is in its bank's queue, so there is a front
      if banks[r.bank][0] != r || r.avl > now || (if r.kind.Write? then wrFull else rdFull) {
        return;
      }
      Answer(banks, r, y);
    }

    method Answer(banks: array<seq<Req>>, r: Req, ghost y: Sys)
      requires Shape(y) && Sees(y, banks) && Retiring(y, id) && r == bankBusyQue[|bankBusyQue| - 1] && r.bank < banks.Length
      modifies this, banks
      ensures Sees(Retire(y, id, false, false), banks)
    {
      rsps := rsps + [Rsp(r.id, if r.kind.Write? then wrReqQwIdx else rdReqQwIdx)];
      if r.kind.Write? {
        wrReqQwIdx := wrReqQwIdx + 1;
        if wrReqQwIdx == r.qwCnt {
          PopBoth(banks, r);
          wrReqQwIdx := 0;
        }
      } else {
        rdReqQwIdx := rdReqQwIdx + 1;
        if rdReqQwIdx == r.qwCnt {
          PopBoth(banks, r);
          rdReqQwIdx := 0;
        }
      }
    }

    method PopBoth(banks: array<seq<Req>>, r: Req)
      requires r.bank < banks.Length && banks[r.bank] != [] && bankBusyQue != []
      modifies this`bankBusyQue, this`done, banks
      ensures banks[..] == old(banks[..])[r.bank := old(banks[r.bank])[1..]]
      ensures bankBusyQue == old(bankBusyQue[..|bankBusyQue| - 1]) && done == old(done) + [r]
    {
      banks[r.bank] := banks[r.bank][1..];
      bankBusyQue := bankBusyQue[..|bankBusyQue| - 1];
      done := done + [r];
    }
  }
}
