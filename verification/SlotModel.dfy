/** The memory model without banks: requests move from a queue into 32 slots for reads and 32 for
    writes, and each clock a slot picked at random is answered.  A transfer of several quadwords
    holds on to its slot.  A valid mask is given as the sequence of its bits. */
module SlotModel {

  import opened Wrappers
  import opened Responses

  const SLOTS: nat := 32

  /** A request; everything but a write is answered like a read. */
  datatype Req = Req(id: nat, write: bool, host: bool, qwCnt: nat, time: nat)

  /** The slots for reads, or for writes. */
  datatype Slots = Slots(list: seq<Req>, valid: seq<bool>, rr: nat, cnt: nat, hold: bool, qwIdx: nat)

  /** `rsps`, `acks` and `done` record what was answered since the last reset: the quadwords of reads,
      the acknowledged writes, and the finished requests. */
  datatype Mem = Mem(newReq: Option<Req>, dataIdx: nat, que: seq<Req>, rd: Slots, wr: Slots, prevIdx: nat,
                     rsps: seq<Rsp>, acks: seq<nat>, doneRd: seq<Req>, doneWr: seq<Req>)

  datatype Input = Nothing | Request(id: nat, write: bool, host: bool, low: nat)

  /** The signals of one clock, and the random slot. */
  datatype Clock = Clock(now: nat, hc1: bool, inp: Input, rdLat: nat, hostLat: nat, rnd: nat,
                         rdFull: bool, wrFull: bool, reset: bool)

  predicate ClockOk(c: Clock) {
    c.rnd < SLOTS && (c.inp.Request? ==> c.inp.low < 8)
  }

  function Accept(m: Mem, c: Clock): Mem {
    if c.inp.Nothing? then m
    else
      var r := if m.newReq.Some? then m.newReq.value
               else Req(c.inp.id, c.inp.write, c.inp.host, if c.hc1 then 1 else c.inp.low + 1, c.now);
      var d := if m.newReq.Some? || c.inp.write then m.dataIdx + 1 else m.dataIdx;
      if !r.write || d == r.qwCnt then m.(newReq := None, dataIdx := 0, que := m.que + [r])
      else m.(newReq := Some(r), dataIdx := d)
  }

  function Minus(a: nat, b: nat): nat { if a < b then 0 else a - b }

  /** The front of the queue has waited for the average latency of its memory; 10 ns a clock. */
  predicate Aged(m: Mem, c: Clock) {
    m.que != [] && m.que[0].time + (if m.que[0].host then Minus(c.hostLat, 32) else Minus(c.rdLat, 63)) * 10_000 < c.now
  }

  /** The first empty slot from `rr` on, among the next `n` slots; `rr + n` slots on when there is none. */
  function FreeFrom(valid: seq<bool>, rr: nat, n: nat): (k: nat)
    requires |valid| == SLOTS && rr < SLOTS
    ensures k < SLOTS
    decreases n
  {
    if n == 0 || !valid[rr] then rr else FreeFrom(valid, (rr + 1) % SLOTS, n - 1)
  }

  function Put(s: Slots, r: Req): Slots
    requires |s.list| == |s.valid| == SLOTS && s.rr < SLOTS
  {
    var k := FreeFrom(s.valid, s.rr, SLOTS);
    if s.valid[k] then s
    else s.(list := s.list[k := r], valid := s.valid[k := true], rr := k, cnt := s.cnt + 1)
  }

  predicate Full(s: Slots)
    requires |s.list| == |s.valid| == SLOTS && s.rr < SLOTS
  {
    s.valid[FreeFrom(s.valid, s.rr, SLOTS)]
  }

  function Insert(m: Mem, c: Clock): Mem
    requires Shape(m)
  {
    if !Aged(m, c) then m
    else if m.que[0].write then
      if Full(m.wr) then m else m.(wr := Put(m.wr, m.que[0]), que := m.que[1..])
    else
      if Full(m.rd) then m else m.(rd := Put(m.rd, m.que[0]), que := m.que[1..])
  }

  /** One quadword of the request in slot `idx`; a finished request leaves its slot. */
  function Serve(s: Slots, idx: nat): Slots
    requires idx < |s.list| == |s.valid|
  {
    if s.qwIdx + 1 == s.list[idx].qwCnt then
      s.(cnt := Minus(s.cnt, 1), valid := s.valid[idx := false], qwIdx := 0, hold := false)
    else s.(qwIdx := s.qwIdx + 1, hold := true)
  }

  function ServeRead(m: Mem, idx: nat, full: bool): Mem
    requires Shape(m) && idx < SLOTS
  {
    if !full && m.rd.cnt != 0 && m.wr.cnt != SLOTS && m.rd.valid[idx] then
      var r := m.rd.list[idx];
      m.(rd := Serve(m.rd, idx), rsps := m.rsps + [Rsp(r.id, m.rd.qwIdx)],
         doneRd := if m.rd.qwIdx + 1 == r.qwCnt then m.doneRd + [r] else m.doneRd)
    else m
  }

  function ServeWrite(m: Mem, idx: nat, full: bool): Mem
    requires Shape(m) && idx < SLOTS
  {
    if !full && m.wr.cnt != 0 && m.wr.valid[idx] then
      var r := m.wr.list[idx];
      m.(wr := Serve(m.wr, idx), acks := if m.wr.qwIdx == 0 then m.acks + [r.id] else m.acks,
         doneWr := if m.wr.qwIdx + 1 == r.qwCnt then m.doneWr + [r] else m.doneWr)
    else m
  }

  function NoneValid(): seq<bool> { seq(SLOTS, i => false) }

  function Reset(m: Mem): Mem {
    m.(rd := Slots(m.rd.list, NoneValid(), 0, 0, false, 0), wr := Slots(m.wr.list, NoneValid(), 0, 0, false, 0),
       prevIdx := 0, rsps := [], acks := [], doneRd := [], doneWr := [])
  }

  /** A held transfer keeps its slot; otherwise the slot is random. */
  function Pick(m: Mem, c: Clock): nat {
    if m.rd.hold || m.wr.hold then m.prevIdx else c.rnd
  }

  function Work(m: Mem, c: Clock): Mem
    requires Shape(m) && ClockOk(c)
  {
    var idx := Pick(m, c);
    ServeWrite(ServeRead(m.(prevIdx := idx), idx, c.rdFull), idx, c.wrFull)
  }

  function Apply(m: Mem, c: Clock): Mem
    requires Shape(m) && ClockOk(c)
  {
    var m1 := Work(Insert(Accept(m, c), c), c);
    if c.reset then Reset(m1) else m1
  }

  predicate SlotsShape(s: Slots) {
    |s.list| == |s.valid| == SLOTS && s.rr < SLOTS
  }

  predicate Shape(m: Mem) {
    SlotsShape(m.rd) && SlotsShape(m.wr) && m.prevIdx < SLOTS
  }

  // ------------------------------------------------------------------------------------------
  // The invariant
  // ------------------------------------------------------------------------------------------

  /** The number of bits that are set. */
  function Pop(v: seq<bool>): nat {
    if v == [] then 0 else (if v[0] then 1 else 0) + Pop(v[1..])
  }

  predicate GoodReq(r: Req) { 1 <= r.qwCnt <= 8 }

  /** Counts and masks agree, and a held transfer is in the middle of a valid slot's request. */
  predicate SlotsOk(s: Slots, write: bool, prevIdx: nat) {
    && SlotsShape(s) && prevIdx < SLOTS
    && s.cnt == Pop(s.valid)
    && (forall i :: 0 <= i < SLOTS && s.valid[i] ==> GoodReq(s.list[i]) && s.list[i].write == write)
    && (s.hold ==> s.valid[prevIdx] && 0 < s.qwIdx < s.list[prevIdx].qwCnt)
    && (!s.hold ==> s.qwIdx == 0)
  }

  /** All quadwords of the requests `rs`, one request after the other, each numbered from zero. */
  function Whole(rs: seq<Req>): seq<Rsp> {
    if rs == [] then [] else Whole(rs[..|rs| - 1]) + Part(rs[|rs| - 1].id, rs[|rs| - 1].qwCnt)
  }

  function IdSeq(rs: seq<Req>): seq<nat> {
    seq(|rs|, i requires 0 <= i < |rs| => rs[i].id)
  }

  predicate LogOk(m: Mem)
    requires Shape(m)
  {
    && m.rsps == Whole(m.doneRd) + Part(m.rd.list[m.prevIdx].id, m.rd.qwIdx)
    && m.acks == IdSeq(m.doneWr) + if m.wr.hold then [m.wr.list[m.prevIdx].id] else []
  }

  predicate QueOk(m: Mem) {
    && (forall i :: 0 <= i < |m.que| ==> GoodReq(m.que[i]))
    && (m.newReq.None? ==> m.dataIdx == 0)
    && (m.newReq.Some? ==> m.newReq.value.write && GoodReq(m.newReq.value) && 0 < m.dataIdx < m.newReq.value.qwCnt)
  }

  predicate Inv(m: Mem) {
    SlotsOk(m.rd, false, m.prevIdx) && SlotsOk(m.wr, true, m.prevIdx) && QueOk(m) && LogOk(m)
  }

  lemma {:induction false} PopSet(v: seq<bool>, i: nat, b: bool)
    requires i < |v|
    ensures Pop(v[i := b]) + (if v[i] then 1 else 0) == Pop(v) + (if b then 1 else 0)
  {
    if i == 0 {
      assert v[0 := b][1..] == v[1..];
    } else {
      PopSet(v[1..], i - 1, b);
      assert v[i := b][1..] == v[1..][i - 1 := b];
    }
  }

  lemma {:induction false} PopBounds(v: seq<bool>, i: nat)
    requires i < |v|
    ensures v[i] ==> Pop(v) > 0
    ensures !v[i] ==> Pop(v) < |v|
    decreases |v|
  {
    if |v| > 1 {
      var j := if i == 0 then 0 else i - 1;
      PopBounds(v[1..], j);
      PopAtMost(v[1..]);
    }
  }

  lemma {:induction false} PopAtMost(v: seq<bool>)
    ensures Pop(v) <= |v|
  {
    if v != [] { PopAtMost(v[1..]); }
  }

  lemma {:induction false} PopNone(v: seq<bool>)
    requires forall i :: 0 <= i < |v| ==> !v[i]
    ensures Pop(v) == 0
  {
    if v != [] { PopNone(v[1..]); }
  }

  /** A request that is put into a slot does not disturb a held transfer. */
  lemma PutKeeps(s: Slots, r: Req, write: bool, prevIdx: nat)
    requires SlotsOk(s, write, prevIdx) && GoodReq(r) && r.write == write
    ensures SlotsOk(Put(s, r), write, prevIdx)
    ensures s.hold ==> Put(s, r).list[prevIdx] == s.list[prevIdx]
  {
    PopSet(s.valid, FreeFrom(s.valid, s.rr, SLOTS), true);
  }

  lemma ServeKeeps(s: Slots, write: bool, prevIdx: nat, idx: nat)
    requires SlotsOk(s, write, prevIdx) && idx < SLOTS && s.valid[idx] && (s.hold ==> idx == prevIdx)
    ensures SlotsOk(Serve(s, idx), write, idx)
  {
    PopSet(s.valid, idx, false);
    PopBounds(s.valid, idx);
  }

  /** When nothing is held the slot looked at last does not matter. */
  lemma OtherIdx(s: Slots, write: bool, prevIdx: nat, idx: nat)
    requires SlotsOk(s, write, prevIdx) && idx < SLOTS && (s.hold ==> idx == prevIdx)
    ensures SlotsOk(s, write, idx)
  {
  }

  function SlotAfter(rr: nat, i: nat): (k: nat)
    ensures k < SLOTS
  {
    (rr + i) % SLOTS
  }

  lemma {:induction false} Taken(valid: seq<bool>, rr: nat, n: nat)
    requires |valid| == SLOTS && rr < SLOTS && valid[FreeFrom(valid, rr, n)]
    ensures FreeFrom(valid, rr, n) == SlotAfter(rr, n)
    ensures forall i :: 0 <= i < n ==> valid[SlotAfter(rr, i)]
    decreases n
  {
    if n > 0 {
      FreeNext(valid, rr, n);
      NextSlot(rr, n - 1);
      hide FreeFrom, SlotAfter;
      var next := (rr + 1) % SLOTS;
      Taken(valid, next, n - 1);
      forall i | 0 <= i < n ensures valid[SlotAfter(rr, i)] {
        if i > 0 {
          NextSlot(rr, i - 1);
        } else {
          NextSlot(rr, 0);
        }
      }
    }
  }

  lemma FreeNext(valid: seq<bool>, rr: nat, n: nat)
    requires |valid| == SLOTS && rr < SLOTS && n > 0 && valid[FreeFrom(valid, rr, n)]
    ensures valid[rr] && FreeFrom(valid, rr, n) == FreeFrom(valid, (rr + 1) % SLOTS, n - 1)
  {
  }

  lemma NextSlot(rr: nat, i: nat)
    requires rr < SLOTS
    ensures SlotAfter((rr + 1) % SLOTS, i) == SlotAfter(rr, i + 1)
    ensures SlotAfter(rr, 0) == rr
    ensures SlotAfter(rr, i) < SLOTS
  {
  }

  /** The search finds an empty slot exactly when there is one; otherwise it ends where it began. */
  lemma SearchFinds(s: Slots)
    requires SlotsShape(s)
    ensures Full(s) <==> forall i :: 0 <= i < SLOTS ==> s.valid[i]
    ensures Full(s) ==> FreeFrom(s.valid, s.rr, SLOTS) == s.rr
  {
    hide FreeFrom;
    if Full(s) {
      Taken(s.valid, s.rr, SLOTS);
      forall i | 0 <= i < SLOTS ensures s.valid[i] {
        var j := if s.rr <= i then i - s.rr else i + SLOTS - s.rr;
        assert SlotAfter(s.rr, j) == i;
      }
    }
  }

  lemma WholeMore(rs: seq<Req>, r: Req)
    ensures Whole(rs + [r]) == Whole(rs) + Part(r.id, r.qwCnt)
    ensures IdSeq(rs + [r]) == IdSeq(rs) + [r.id]
  {
    assert (rs + [r])[..|rs|] == rs;
  }

  lemma NoPart(a: Req, b: Req)
    ensures Part(a.id, 0) == Part(b.id, 0) == []
  {
  }

  lemma SlotsFacts(s: Slots, write: bool, prevIdx: nat)
    requires SlotsOk(s, write, prevIdx)
    ensures SlotsShape(s) && prevIdx < SLOTS && (s.hold <==> s.qwIdx > 0)
  {
  }

  /** The log after one more quadword of a read. */
  lemma ReadLog(done: seq<Req>, r: Req, n: nat)
    ensures Whole(done) + Part(r.id, n) + [Rsp(r.id, n)] == Whole(done) + Part(r.id, n + 1)
    ensures n + 1 == r.qwCnt ==> Whole(done) + Part(r.id, n) + [Rsp(r.id, n)] == Whole(done + [r]) + Part(r.id, 0)
  {
    hide Whole, Part;
    PartMore(r.id, n);
    PartMore(r.id, 0);
    WholeMore(done, r);
    assert Whole(done) + Part(r.id, n) + [Rsp(r.id, n)] == Whole(done) + (Part(r.id, n) + [Rsp(r.id, n)]);
    assert Whole(done + [r]) + [] == Whole(done + [r]);
  }

  lemma ReadKeeps(m: Mem, idx: nat, full: bool)
    requires Inv(m) && idx == m.prevIdx
    ensures Inv(ServeRead(m, idx, full)) && ServeRead(m, idx, full).prevIdx == idx
  {
    hide Whole, Part, Pop, SlotsOk, QueOk;
    SlotsFacts(m.rd, false, m.prevIdx);
    SlotsFacts(m.wr, true, m.prevIdx);
    if !full && m.rd.cnt != 0 && m.wr.cnt != SLOTS && m.rd.valid[idx] {
      ServeKeeps(m.rd, false, m.prevIdx, idx);
      ReadLog(m.doneRd, m.rd.list[idx], m.rd.qwIdx);
      QueSame(m, ServeRead(m, idx, full));
    }
  }

  lemma QueSame(m: Mem, z: Mem)
    requires QueOk(m) && z.que == m.que && z.newReq == m.newReq && z.dataIdx == m.dataIdx
    ensures QueOk(z)
  {
  }

  lemma WriteKeeps(m: Mem, idx: nat, full: bool)
    requires Inv(m) && idx == m.prevIdx
    ensures Inv(ServeWrite(m, idx, full)) && ServeWrite(m, idx, full).prevIdx == idx
  {
    if !full && m.wr.cnt != 0 && m.wr.valid[idx] {
      hide Whole, Part, Pop;
      ServeKeeps(m.wr, true, m.prevIdx, idx);
      WholeMore(m.doneWr, m.wr.list[idx]);
    }
  }

  lemma InsertKeeps(m: Mem, c: Clock)
    requires Inv(m)
    ensures Inv(Insert(m, c)) && Insert(m, c).prevIdx == m.prevIdx
  {
    if Aged(m, c) {
      var r := m.que[0];
      hide Whole, Part, Pop, FreeFrom;
      if r.write {
        PutKeeps(m.wr, r, true, m.prevIdx);
      } else {
        PutKeeps(m.rd, r, false, m.prevIdx);
        NoPart(m.rd.list[m.prevIdx], Put(m.rd, r).list[m.prevIdx]);
      }
    }
  }

  lemma AcceptKeeps(m: Mem, c: Clock)
    requires Inv(m) && ClockOk(c)
    ensures Inv(Accept(m, c)) && Accept(m, c).prevIdx == m.prevIdx
  {
    hide Whole, Part, Pop;
  }

  lemma ResetInv(m: Mem)
    requires |m.rd.list| == |m.wr.list| == SLOTS && QueOk(m)
    ensures Inv(Reset(m))
  {
    NoneIs();
    hide NoneValid, Pop, Whole, Part;
    PartMore(m.rd.list[0].id, 0);
    assert Whole([]) == [] by { EmptyLog(); }
  }

  lemma NoneIs()
    ensures |NoneValid()| == SLOTS && Pop(NoneValid()) == 0
    ensures forall i :: 0 <= i < SLOTS ==> !NoneValid()[i]
  {
    hide Pop;
    PopNone(NoneValid());
  }

  lemma EmptyLog()
    ensures Whole([]) == []
  {
  }

  /** Every clock keeps the counts, the held transfers and the order of the responses, whatever
      slot is picked and whatever is held up. */
  lemma ClockKeeps(m: Mem, c: Clock)
    requires Inv(m) && ClockOk(c)
    ensures Inv(Apply(m, c))
  {
    AcceptKeeps(m, c);
    var m1 := Accept(m, c);
    InsertKeeps(m1, c);
    var m2 := Insert(m1, c);
    var idx := Pick(m2, c);
    PickKeeps(m2, c);
    ReadKeeps(m2.(prevIdx := idx), idx, c.rdFull);
    WriteKeeps(ServeRead(m2.(prevIdx := idx), idx, c.rdFull), idx, c.wrFull);
    if c.reset {
      ResetInv(Work(m2, c));
    }
  }

  lemma PickKeeps(m: Mem, c: Clock)
    requires Inv(m) && ClockOk(c)
    ensures Inv(m.(prevIdx := Pick(m, c)))
  {
    hide Pop, Whole;
    OtherIdx(m.rd, false, m.prevIdx, Pick(m, c));
    OtherIdx(m.wr, true, m.prevIdx, Pick(m, c));
  }
}
