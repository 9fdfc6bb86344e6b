/** The memory model without banks as an object that every clock changes in place. */
module SlotMem {

  import opened Wrappers
  import opened Responses
  import opened SlotModel

  /** The slots for reads, or for writes, of one model. */
  class SlotTable {
    const list: array<Req>
    const valid: array<bool>
    var rr: nat
    var cnt: nat
    var hold: bool
    var qwIdx: nat

    ghost function V(): Slots
      reads this, list, valid
    {
      Slots(list[..], valid[..], rr, cnt, hold, qwIdx)
    }

    ghost predicate Valid()
      reads this
    {
      list.Length == SLOTS && valid.Length == SLOTS && rr < SLOTS
    }

    /** `blank` fills the slots, which are all empty. */
    constructor (blank: Req)
      ensures Valid() && fresh(list) && fresh(valid)
      ensures V() == Slots(seq(SLOTS, i => blank), NoneValid(), 0, 0, false, 0)
    {
      list := new Req[SLOTS](i => blank);
      valid := new bool[SLOTS](i => false);
      rr, cnt, hold, qwIdx := 0, 0, false, 0;
      new;
      assert list[..] == seq(SLOTS, i => blank);
      assert valid[..] == NoneValid();
    }

    method Clear()
      requires Valid()
      modifies this, valid
      ensures Valid() && V() == Slots(old(V()).list, NoneValid(), 0, 0, false, 0)
    {
      forall i | 0 <= i < SLOTS {
        valid[i] := false;
      }
      rr, cnt, hold, qwIdx := 0, 0, false, 0;
      assert valid[..] == NoneValid();
    }

    /** The search for an empty slot, from the one where the last search ended. */
    method FindFree() returns (found: bool)
      requires Valid()
      modifies this`rr
      ensures Valid() && rr == FreeFrom(valid[..], old(rr), SLOTS) && found == !valid[rr]
    {
      ghost var s := V();
      Step(s, s.rr, 0);
      assert SlotAfter(s.rr, 0) == s.rr;
      hide FreeFrom, SlotAfter;
      var i := 0;
      while i < SLOTS
        invariant i <= SLOTS && Valid() && rr == SlotAfter(s.rr, i)
        invariant FreeFrom(s.valid, s.rr, SLOTS) == FreeFrom(s.valid, rr, SLOTS - i)
        invariant i > 0 ==> s.valid[s.rr]
      {
        Step(s, rr, i);
        if !valid[rr] {
          return true;
        }
        i := i + 1;
        rr := (rr + 1) % SLOTS;
      }
      NoneLeft(s.valid, rr);
      return false;
    }

    static lemma NoneLeft(v: seq<bool>, k: nat)
      requires |v| == SLOTS && k < SLOTS
      ensures FreeFrom(v, k, 0) == k
    {
    }

    /** The request goes into the first empty slot, if there is one. */
    method Put(r: Req) returns (ok: bool)
      requires Valid()
      modifies this, list, valid
      ensures Valid() && ok == !Full(old(V())) && V() == SlotModel.Put(old(V()), r)
    {
      ghost var s := V();
      if Full(s) { SearchFinds(s); }
      hide FreeFrom;
      ok := FindFree();
      if ok {
        list[rr] := r;
        valid[rr] := true;
        cnt := cnt + 1;
      }
    }

    static lemma Step(s: Slots, k: nat, i: nat)
      requires SlotsShape(s) && k < SLOTS && i < SLOTS && k == SlotAfter(s.rr, i)
      ensures s.valid[k] ==> FreeFrom(s.valid, k, SLOTS - i) == FreeFrom(s.valid, (k + 1) % SLOTS, SLOTS - i - 1)
      ensures !s.valid[k] ==> FreeFrom(s.valid, k, SLOTS - i) == k
      ensures (k + 1) % SLOTS == SlotAfter(s.rr, i + 1) && SlotAfter(s.rr, 0) == SlotAfter(s.rr, SLOTS) == s.rr
    {
    }

    /** One quadword of the request in slot `idx`. */
    method Serve(idx: nat)
      requires Valid() && idx < SLOTS && cnt > 0
      modifies this, valid
      ensures Valid() && V() == SlotModel.Serve(old(V()), idx)
    {
      qwIdx := qwIdx + 1;
      if list[idx].qwCnt == qwIdx {
        cnt := cnt - 1;
        valid[idx] := false;
        qwIdx := 0;
        hold := false;
      } else {
        hold := true;
      }
    }
  }

  class MemModel {
    var newReq: Option<Req>
    var wrDataIdx: nat
    var memReqQue: seq<Req>
    const rd: SlotTable
    const wr: SlotTable
    var prevReqIdx: nat
    ghost var rsps: seq<Rsp>
    ghost var acks: seq<nat>
    ghost var doneRd: seq<Req>
    ghost var doneWr: seq<Req>

    ghost function Repr(): set<object>
      reads this
    {
      {this, rd, wr, rd.list, rd.valid, wr.list, wr.valid}
    }

    ghost predicate Valid()
      reads this, rd, wr
    {
      && rd.Valid() && wr.Valid() && prevReqIdx < SLOTS
      && rd != wr && rd.list != wr.list && rd.valid != wr.valid
    }

    ghost function V(): Mem
      reads this, rd, wr, rd.list, rd.valid, wr.list, wr.valid
    {
      Mem(newReq, wrDataIdx, memReqQue, rd.V(), wr.V(), prevReqIdx, rsps, acks, doneRd, doneWr)
    }

    /** The hold flags and the slot looked at last get their values by the first reset. */
    constructor (blank: Req)
      ensures Valid() && fresh(Repr()) && Inv(V()) && V().que == []
    {
      newReq, wrDataIdx, memReqQue, prevReqIdx := None, 0, [], 0;
      rd := new SlotTable(blank);
      wr := new SlotTable(blank);
      rsps, acks, doneRd, doneWr := [], [], [], [];
      new;
      hide Pop, Whole, Part, NoneValid, SlotsOk, LogOk;
      ResetInv(V());
    }

    method Tick(c: Clock)
      requires Valid() && Inv(V()) && ClockOk(c)
      modifies Repr()
      ensures Valid() && Inv(V()) && V() == Apply(old(V()), c)
    {
      hide Inv, Accept, Insert, Work, Reset, V;
      ghost var m := V();
      ClockKeeps(m, c);
      AcceptReq(c);
      AcceptKeeps(m, c);
      InsertReq(c);
      InsertKeeps(Accept(m, c), c);
      DoWork(c);
      if c.reset {
        DoReset();
      }
    }

    method DoWork(c: Clock)
      requires Valid() && ClockOk(c)
      modifies this, rd, rd.valid, wr, wr.valid
      ensures Valid() && V() == Work(old(V()), c)
    {
      hide ServeRead, ServeWrite;
      var idx := if rd.hold || wr.hold then prevReqIdx else c.rnd;
      prevReqIdx := idx;
      DoRead(idx, c.rdFull);
      DoWrite(idx, c.wrFull);
    }

    method AcceptReq(c: Clock)
      requires Valid() && ClockOk(c) && Inv(V())
      modifies this
      ensures Valid() && V() == Accept(old(V()), c)
    {
      if c.inp.Request? {
        if newReq.None? {
          newReq := Some(Req(c.inp.id, c.inp.write, c.inp.host, if c.hc1 then 1 else c.inp.low + 1, c.now));
          if c.inp.write {
            wrDataIdx := wrDataIdx + 1;
          }
        } else {
          wrDataIdx := wrDataIdx + 1;
        }
        var r := newReq.value;
        if !r.write || wrDataIdx == r.qwCnt {
          memReqQue := memReqQue + [r];
          newReq := None;
          wrDataIdx := 0;
        }
      }
    }

    method InsertReq(c: Clock)
      requires Valid()
      modifies this`memReqQue, rd, rd.list, rd.valid, wr, wr.list, wr.valid
      ensures Valid() && V() == Insert(old(V()), c)
    {
      hide Full, Put;
      if memReqQue != [] {
        var r := memReqQue[0];
        var lat := if r.host then Minus(c.hostLat, 32) else Minus(c.rdLat, 63);
        if r.time + lat * 10_000 < c.now {
          var ok;
          if r.write {
            FullPut(wr.V(), r);
            ok := wr.Put(r);
          } else {
            FullPut(rd.V(), r);
            ok := rd.Put(r);
          }
          if ok {
            memReqQue := memReqQue[1..];
          }
        }
      }
    }

    static lemma FullPut(s: Slots, r: Req)
      requires SlotsShape(s)
      ensures Full(s) ==> Put(s, r) == s
    {
    }

    method DoRead(idx: nat, full: bool)
      requires Valid() && idx < SLOTS
      modifies this`rsps, this`doneRd, rd, rd.valid
      ensures Valid() && V() == ServeRead(old(V()), idx, full)
    {
      hide Serve;
      if !full && rd.cnt != 0 && wr.cnt != SLOTS && rd.valid[idx] {
        var r := rd.list[idx];
        rsps := rsps + [Rsp(r.id, rd.qwIdx)];
        if rd.qwIdx + 1 == r.qwCnt {
          doneRd := doneRd + [r];
        }
        rd.Serve(idx);
      }
    }

    method DoWrite(idx: nat, full: bool)
      requires Valid() && idx < SLOTS
      modifies this`acks, this`doneWr, wr, wr.valid
      ensures Valid() && V() == ServeWrite(old(V()), idx, full)
    {
      hide Serve;
      if !full && wr.cnt != 0 && wr.valid[idx] {
        var r := wr.list[idx];
        if wr.qwIdx == 0 {
          acks := acks + [r.id];
        }
        if wr.qwIdx + 1 == r.qwCnt {
          doneWr := doneWr + [r];
        }
        wr.Serve(idx);
      }
    }

    method DoReset()
      requires Valid()
      modifies this, rd, rd.valid, wr, wr.valid
      ensures Valid() && V() == Reset(old(V()))
    {
      hide NoneValid;
      rd.Clear();
      wr.Clear();
      prevReqIdx := 0;
      rsps, acks, doneRd, doneWr := [], [], [], [];
    }
  }
}
