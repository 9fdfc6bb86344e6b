/** Whole runs of the memory model without banks: no request is lost or answered twice, and from
    every reachable state the model can finish everything that it holds. */
module SlotDrain {

  import opened Responses
  import opened SlotModel

  // ------------------------------------------------------------------------------------------
  // Where the requests are
  // ------------------------------------------------------------------------------------------

  function Reqs(s: seq<Req>): multiset<Req> { multiset(s) }

  /** The requests in valid slots. */
  function SlotReqs(list: seq<Req>, valid: seq<bool>): multiset<Req>
    requires |list| == |valid|
  {
    if list == [] then multiset{}
    else (if valid[0] then multiset{list[0]} else multiset{}) + SlotReqs(list[1..], valid[1..])
  }

  /** All complete requests taken in since the last reset. */
  function Taken(m: Mem): multiset<Req>
    requires Shape(m)
  {
    Reqs(m.que) + SlotReqs(m.rd.list, m.rd.valid) + SlotReqs(m.wr.list, m.wr.valid) + Reqs(m.doneRd) + Reqs(m.doneWr)
  }

  /** What is left to do for the requests in slots. */
  function SlotLeft(list: seq<Req>, valid: seq<bool>): nat
    requires |list| == |valid|
  {
    if list == [] then 0 else (if valid[0] then list[0].qwCnt else 0) + SlotLeft(list[1..], valid[1..])
  }

  function QueLeft(s: seq<Req>): nat {
    if s == [] then 0 else s[0].qwCnt + 1 + QueLeft(s[1..])
  }

  function Left(m: Mem): int
    requires Shape(m)
  {
    QueLeft(m.que) + SlotLeft(m.rd.list, m.rd.valid) - m.rd.qwIdx + SlotLeft(m.wr.list, m.wr.valid) - m.wr.qwIdx
  }

  lemma SlotStep(list: seq<Req>, valid: seq<bool>)
    requires |list| == |valid| && list != []
    ensures SlotReqs(list, valid) == (if valid[0] then multiset{list[0]} else multiset{}) + SlotReqs(list[1..], valid[1..])
    ensures SlotLeft(list, valid) == (if valid[0] then list[0].qwCnt else 0) + SlotLeft(list[1..], valid[1..])
  {
  }

  lemma {:induction false} FillSlot(list: seq<Req>, valid: seq<bool>, k: nat, r: Req)
    requires |list| == |valid| && k < |list| && !valid[k]
    ensures SlotReqs(list[k := r], valid[k := true]) == SlotReqs(list, valid) + multiset{r}
    ensures SlotLeft(list[k := r], valid[k := true]) == SlotLeft(list, valid) + r.qwCnt
    decreases |list|
  {
    hide SlotReqs, SlotLeft;
    SlotStep(list, valid);
    SlotStep(list[k := r], valid[k := true]);
    if k == 0 {
      assert list[0 := r][1..] == list[1..] && valid[0 := true][1..] == valid[1..];
    } else {
      FillSlot(list[1..], valid[1..], k - 1, r);
      assert list[k := r][1..] == list[1..][k - 1 := r] && valid[k := true][1..] == valid[1..][k - 1 := true];
    }
  }

  lemma {:induction false} ClearSlot(list: seq<Req>, valid: seq<bool>, k: nat)
    requires |list| == |valid| && k < |list| && valid[k]
    ensures SlotReqs(list, valid[k := false]) + multiset{list[k]} == SlotReqs(list, valid)
    ensures SlotLeft(list, valid[k := false]) + list[k].qwCnt == SlotLeft(list, valid)
    decreases |list|
  {
    hide SlotReqs, SlotLeft;
    SlotStep(list, valid);
    SlotStep(list, valid[k := false]);
    if k == 0 {
      assert valid[0 := false][1..] == valid[1..];
    } else {
      ClearSlot(list[1..], valid[1..], k - 1);
      assert valid[k := false][1..] == valid[1..][k - 1 := false];
    }
  }

  lemma ReqsMore(s: seq<Req>, r: Req)
    ensures Reqs(s + [r]) == Reqs(s) + multiset{r}
  {
  }

  lemma ReqsLess(s: seq<Req>)
    requires s != []
    ensures Reqs(s) == multiset{s[0]} + Reqs(s[1..])
  {
    assert s == [s[0]] + s[1..];
  }

  lemma LeftIsNat(m: Mem)
    requires Inv(m)
    ensures Left(m) >= 0
  {
    if m.rd.hold { ClearSlot(m.rd.list, m.rd.valid, m.prevIdx); }
    if m.wr.hold { ClearSlot(m.wr.list, m.wr.valid, m.prevIdx); }
  }

  lemma PutMoves(s: Slots, r: Req)
    requires SlotsShape(s) && !Full(s)
    ensures var z := Put(s, r);
      && SlotsShape(z) && z.qwIdx == s.qwIdx
      && SlotReqs(z.list, z.valid) == SlotReqs(s.list, s.valid) + multiset{r}
      && SlotLeft(z.list, z.valid) == SlotLeft(s.list, s.valid) + r.qwCnt
  {
    hide SlotReqs, SlotLeft, FreeFrom;
    FillSlot(s.list, s.valid, FreeFrom(s.valid, s.rr, SLOTS), r);
  }

  lemma QueLess(q: seq<Req>)
    requires q != []
    ensures QueLeft(q) == q[0].qwCnt + 1 + QueLeft(q[1..])
  {
  }

  lemma InsertMoves(m: Mem, c: Clock)
    requires Inv(m)
    ensures Shape(Insert(m, c)) && Taken(Insert(m, c)) == Taken(m) && Left(Insert(m, c)) <= Left(m)
    ensures Aged(m, c) && !Full(m.rd) && !Full(m.wr) ==> Left(Insert(m, c)) < Left(m)
  {
    InvShape(m);
    hide Inv, Reqs, SlotReqs, SlotLeft, QueLeft, Put, Full;
    if Aged(m, c) {
      var r := m.que[0];
      ReqsLess(m.que);
      QueLess(m.que);
      if r.write && !Full(m.wr) {
        PutMoves(m.wr, r);
        assert Taken(Insert(m, c)) == Taken(m);
      } else if !r.write && !Full(m.rd) {
        PutMoves(m.rd, r);
        assert Taken(Insert(m, c)) == Taken(m);
      }
    }
  }

  lemma ReadMoves(m: Mem, idx: nat, full: bool)
    requires Inv(m) && idx == m.prevIdx
    ensures var z := ServeRead(m, idx, full);
      && Shape(z) && Taken(z) == Taken(m) && Left(z) <= Left(m)
      && (!full && m.rd.valid[idx] && m.wr.cnt != SLOTS ==> Left(z) < Left(m))
  {
    hide Reqs, Pop, Whole, SlotReqs, SlotLeft, LogOk;
    if m.rd.valid[idx] {
      ClearSlot(m.rd.list, m.rd.valid, idx);
      ReqsMore(m.doneRd, m.rd.list[idx]);
      PopBounds(m.rd.valid, idx);
      assert Taken(ServeRead(m, idx, full)) == Taken(m);
    }
  }

  lemma WriteMoves(m: Mem, idx: nat, full: bool)
    requires Inv(m) && idx == m.prevIdx
    ensures var z := ServeWrite(m, idx, full);
      && Shape(z) && Taken(z) == Taken(m) && Left(z) <= Left(m)
      && (!full && m.wr.valid[idx] ==> Left(z) < Left(m))
  {
    hide Reqs, Pop, Whole, SlotReqs, SlotLeft, LogOk;
    if m.wr.valid[idx] {
      ClearSlot(m.wr.list, m.wr.valid, idx);
      ReqsMore(m.doneWr, m.wr.list[idx]);
      PopBounds(m.wr.valid, idx);
      assert Taken(ServeWrite(m, idx, full)) == Taken(m);
    }
  }

  /** The request that is complete with this clock's input: a write with the last of its quadwords, anything
      else at once. */
  function Arrived(m: Mem, c: Clock): multiset<Req> {
    if c.inp.Nothing? then multiset{}
    else if m.newReq.Some? then (if m.dataIdx + 1 == m.newReq.value.qwCnt then multiset{m.newReq.value} else multiset{})
    else
      var n := if c.hc1 then 1 else 1 + c.inp.low;
      if c.inp.write && n > 1 then multiset{} else multiset{Req(c.inp.id, c.inp.write, c.inp.host, n, c.now)}
  }

  lemma AcceptMoves(m: Mem, c: Clock)
    requires Inv(m) && ClockOk(c)
    ensures Shape(Accept(m, c)) && Taken(Accept(m, c)) == Taken(m) + Arrived(m, c)
    ensures c.inp.Nothing? ==> Accept(m, c) == m
    ensures var q := Accept(m, c).que; Arrived(m, c) == if |q| > |m.que| then multiset{q[|m.que|]} else multiset{}
  {
    hide Reqs, SlotReqs, Pop, Whole, LogOk;
    var z := Accept(m, c);
    if |z.que| > |m.que| {
      ReqsMore(m.que, z.que[|m.que|]);
      assert Taken(z) == Taken(m) + Arrived(m, c);
    }
  }

  /** A clock without reset adds the request that arrived and loses none. */
  lemma NothingLost(m: Mem, c: Clock)
    requires Inv(m) && ClockOk(c) && !c.reset
    ensures Inv(Apply(m, c)) && Taken(Apply(m, c)) == Taken(m) + Arrived(m, c)
  {
    hide Inv, Taken, Accept, Insert, ServeRead, ServeWrite;
    ClockKeeps(m, c);
    AcceptMoves(m, c);
    AcceptKeeps(m, c);
    QuietMoves(Accept(m, c), c);
  }

  predicate CanServe(m: Mem, idx: nat)
    requires Shape(m) && idx < SLOTS
  {
    (m.rd.valid[idx] && m.wr.cnt != SLOTS) || m.wr.valid[idx]
  }

  /** The part of a clock behind the arrival. */
  lemma QuietMoves(m: Mem, c: Clock)
    requires Inv(m) && ClockOk(c)
    ensures Shape(m) && Shape(Insert(m, c)) && Shape(Work(Insert(m, c), c))
    ensures Taken(Work(Insert(m, c), c)) == Taken(m)
    ensures Left(Work(Insert(m, c), c)) <= Left(Insert(m, c)) <= Left(m)
    ensures Aged(m, c) && !Full(m.rd) && !Full(m.wr) ==> Left(Insert(m, c)) < Left(m)
    ensures var m2 := Insert(m, c);
            !c.rdFull && !c.wrFull && CanServe(m2, Pick(m2, c)) ==> Left(Work(m2, c)) < Left(m2)
  {
    hide Reqs, Pop, Whole, SlotReqs, SlotLeft, QueLeft, Accept, Insert, ServeRead, ServeWrite, SlotsOk, LogOk, QueOk, Aged, Full;
    InvShape(m);
    InsertMoves(m, c);
    InsertKeeps(m, c);
    var m2 := Insert(m, c);
    InvShape(m2);
    PickKeeps(m2, c);
    var m3 := m2.(prevIdx := Pick(m2, c));
    ReadMoves(m3, m3.prevIdx, c.rdFull);
    ReadKeeps(m3, m3.prevIdx, c.rdFull);
    ReadLeavesWrites(m3, c.rdFull);
    WriteMoves(ServeRead(m3, m3.prevIdx, c.rdFull), m3.prevIdx, c.wrFull);
  }

  lemma ReadLeavesWrites(m: Mem, full: bool)
    requires Shape(m)
    ensures ServeRead(m, m.prevIdx, full).wr == m.wr
  {
  }

  lemma InvShape(m: Mem)
    requires Inv(m)
    ensures Shape(m)
  {
  }

  // ------------------------------------------------------------------------------------------
  // Draining
  // ------------------------------------------------------------------------------------------

  predicate Empty(m: Mem) {
    m.que == [] && m.rd.cnt == 0 && m.wr.cnt == 0
  }

  lemma {:induction false} SomeValid(v: seq<bool>) returns (k: nat)
    requires Pop(v) > 0
    ensures k < |v| && v[k]
  {
    if v[0] { k := 0; } else { k := SomeValid(v[1..]); k := k + 1; }
  }

  /** A clock at which nothing arrives and nothing is held up. */
  function Quiet(now: nat, rnd: nat): Clock {
    Clock(now, false, Nothing, 0, 0, rnd, false, false, false)
  }

  lemma OneMore(m: Mem) returns (c: Clock)
    requires Inv(m) && !Empty(m)
    ensures c == Quiet(c.now, c.rnd) && ClockOk(c)
    ensures Shape(m) && Shape(Apply(m, c)) && Left(Apply(m, c)) < Left(m) && Taken(Apply(m, c)) == Taken(m)
  {
    hide Pop, FreeFrom, Taken, Left, Whole, LogOk, Work;
    InvShape(m);
    if m.wr.cnt > 0 || m.rd.cnt > 0 {
      var k := SomeValid(if m.wr.cnt > 0 then m.wr.valid else m.rd.valid);
      c := Quiet(0, k);
      assert !Aged(m, c) && Insert(m, c) == m;
      HeldMoves(m, c);
    } else {
      c := Quiet(m.que[0].time + 1, 0);
      NoneFull(m);
    }
    hide Inv, Taken, Left, Insert, Work;
    AcceptMoves(m, c);
    QuietMoves(m, c);
  }

  /** A held read waits only for writes to leave a full table, and then a write moves on. */
  lemma HeldMoves(m: Mem, c: Clock)
    requires Inv(m) && c.rnd < SLOTS && (if m.wr.cnt > 0 then m.wr.valid[c.rnd] else m.rd.valid[c.rnd])
    ensures CanServe(m, Pick(m, c))
  {
    if m.rd.hold && m.wr.cnt == SLOTS && !m.wr.valid[m.prevIdx] {
      PopBounds(m.wr.valid, m.prevIdx);
    }
  }

  lemma NoneFull(m: Mem)
    requires Inv(m) && m.rd.cnt == 0 && m.wr.cnt == 0
    ensures !Full(m.rd) && !Full(m.wr)
  {
    PopBounds(m.rd.valid, FreeFrom(m.rd.valid, m.rd.rr, SLOTS));
    PopBounds(m.wr.valid, FreeFrom(m.wr.valid, m.wr.rr, SLOTS));
  }

  predicate IsRun(m: Mem, cs: seq<Clock>)
    decreases |cs|
  {
    cs == [] || (Shape(m) && ClockOk(cs[0]) && IsRun(Apply(m, cs[0]), cs[1..]))
  }

  function After(m: Mem, cs: seq<Clock>): Mem
    requires IsRun(m, cs)
    decreases |cs|
  {
    if cs == [] then m else After(Apply(m, cs[0]), cs[1..])
  }

  lemma {:induction false} RunKeeps(m: Mem, cs: seq<Clock>)
    requires Inv(m) && IsRun(m, cs)
    ensures Inv(After(m, cs))
    decreases |cs|
  {
    hide Inv, Apply;
    if cs != [] {
      ClockKeeps(m, cs[0]);
      RunKeeps(Apply(m, cs[0]), cs[1..]);
    }
  }

  /** Some choice of slots and times finishes everything, and then exactly the requests taken in
      were answered, every read with all its quadwords in order and in one piece. */
  lemma {:induction false} Drain(m: Mem) returns (cs: seq<Clock>)
    requires Inv(m)
    ensures IsRun(m, cs) && forall i :: 0 <= i < |cs| ==> cs[i] == Quiet(cs[i].now, cs[i].rnd)
    ensures var z := After(m, cs);
      && Inv(z) && Empty(z) && Shape(m) && Reqs(z.doneRd) + Reqs(z.doneWr) == Taken(m)
      && z.rsps == Whole(z.doneRd) && z.acks == IdSeq(z.doneWr)
    decreases Left(m)
  {
    hide Inv, Apply, Taken, Reqs;
    InvShape(m);
    LeftIsNat(m);
    if Empty(m) {
      cs := [];
      AllDone(m);
    } else {
      var c := OneMore(m);
      ClockKeeps(m, c);
      LeftIsNat(Apply(m, c));
      var rest := Drain(Apply(m, c));
      cs := [c] + rest;
      assert cs[1..] == rest;
    }
  }

  lemma {:induction false} NoSlots(list: seq<Req>, valid: seq<bool>)
    requires |list| == |valid| && Pop(valid) == 0
    ensures SlotReqs(list, valid) == multiset{}
  {
    if list != [] { NoSlots(list[1..], valid[1..]); }
  }

  lemma AllDone(m: Mem)
    requires Inv(m) && Empty(m)
    ensures Shape(m) && Reqs(m.doneRd) + Reqs(m.doneWr) == Taken(m)
    ensures m.rsps == Whole(m.doneRd) && m.acks == IdSeq(m.doneWr)
  {
    hide Pop, Whole;
    NoSlots(m.rd.list, m.rd.valid);
    NoSlots(m.wr.list, m.wr.valid);
    assert Reqs([]) == multiset{};
    if m.rd.hold { PopBounds(m.rd.valid, m.prevIdx); }
    if m.wr.hold { PopBounds(m.wr.valid, m.prevIdx); }
    PartMore(m.rd.list[m.prevIdx].id, 0);
    hide Reqs, SlotReqs;
    assert Taken(m) == Reqs(m.doneRd) + Reqs(m.doneWr);
  }
}
