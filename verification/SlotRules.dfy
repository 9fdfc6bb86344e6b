/** When the memory model without banks takes a request into a slot, which slot that is, and what it does
    with the slot that is picked. */
module SlotRules {
  import opened Responses
  import opened SlotModel

  /** The search goes round from `rr` on, and takes the first empty slot that it comes to. */
  lemma {:induction false} FirstEmpty(valid: seq<bool>, rr: nat, n: nat) returns (j: nat)
    requires |valid| == SLOTS && rr < SLOTS && n <= SLOTS && !valid[FreeFrom(valid, rr, n)]
    ensures j <= n && FreeFrom(valid, rr, n) == (rr + j) % 32 && !valid[(rr + j) % 32]
    ensures forall i :: 0 <= i < j ==> valid[SlotAfter(rr, i)] && SlotAfter(rr, i) == (rr + i) % 32
    decreases n
  {
    if n == 0 || !valid[rr] {
      j := 0;
    } else {
      var k := FirstEmpty(valid, (rr + 1) % SLOTS, n - 1);
      j := k + 1;
      forall i | 0 <= i < j ensures valid[SlotAfter(rr, i)] {
        if i > 0 { NextSlot(rr, i - 1); } else { NextSlot(rr, 0); }
      }
      NextSlot(rr, k);
    }
  }

  /** A latency, less what the rest of the model takes. */
  function Less(lat: nat, n: nat): int { if lat < n then 0 else lat - n }

  /** The front request, and no other, is taken in exactly when it has waited longer than the average latency
      of its memory, in clocks of 10 ns, less 32 clocks for the host and 63 for the coprocessor, and
      the table of its kind has an empty slot. */
  lemma TakenIn(m: Mem, c: Clock)
    requires Shape(m) && m.que != []
    ensures var (r, z) := (m.que[0], Insert(m, c));
      var due := r.time + 10_000 * Less(if r.host then c.hostLat else c.rdLat, if r.host then 32 else 63) < c.now;
      && z.que == (if due && !Full(if r.write then m.wr else m.rd) then m.que[1..] else m.que)
      && (z.que == m.que ==> z == m)
      && (z.que != m.que ==>
            var (s, t) := if r.write then (m.wr, z.wr) else (m.rd, z.rd);
            var k := FreeFrom(s.valid, s.rr, SLOTS);
            && (if r.write then z.rd == m.rd else z.wr == m.wr)
            && !s.valid[k] && t.list == s.list[k := r] && t.valid == s.valid[k := true] && t.cnt == s.cnt + 1 && t.rr == k)
  {
    assert |m.que[1..]| != |m.que|;
  }

  lemma NothingWaits(m: Mem, c: Clock)
    requires Shape(m) && m.que == []
    ensures Insert(m, c) == m
  {
  }

  /** While a request is in the middle of its quadwords its slot is looked at again; otherwise any slot. */
  lemma SlotPicked(m: Mem, c: Clock)
    requires Inv(m)
    ensures m.rd.qwIdx > 0 || m.wr.qwIdx > 0 ==> Pick(m, c) == m.prevIdx
    ensures m.rd.qwIdx == 0 && m.wr.qwIdx == 0 ==> Pick(m, c) == c.rnd
  {
  }

  /** In one clock both kinds of requests in the slot that is looked at move on by a quadword: a read unless
      its responses are held up or the table of writes is full, a write unless its acknowledgements
      are held up.  A request leaves its slot with its last quadword. */
  lemma SlotServed(m: Mem, c: Clock)
    requires Inv(m) && ClockOk(c)
    ensures Shape(m)
    ensures var (i, z) := (Pick(m, c), Work(m, c));
      && i < SLOTS && z.prevIdx == i
      && (m.rd.valid[i] && !c.rdFull && m.wr.cnt < 32 ==>
            && z.rsps == m.rsps + [Rsp(m.rd.list[i].id, m.rd.qwIdx)]
            && (if m.rd.qwIdx + 1 < m.rd.list[i].qwCnt then z.rd == m.rd.(qwIdx := m.rd.qwIdx + 1, hold := true)
                else z.rd == m.rd.(qwIdx := 0, hold := false, valid := m.rd.valid[i := false], cnt := z.rd.cnt) && z.rd.cnt + 1 == m.rd.cnt))
      && (!m.rd.valid[i] || c.rdFull || m.wr.cnt == 32 ==> z.rsps == m.rsps && z.rd == m.rd)
      && (m.wr.valid[i] && !c.wrFull ==>
            && z.acks == (if m.wr.qwIdx == 0 then m.acks + [m.wr.list[i].id] else m.acks)
            && (if m.wr.qwIdx + 1 < m.wr.list[i].qwCnt then z.wr == m.wr.(qwIdx := m.wr.qwIdx + 1, hold := true)
                else z.wr == m.wr.(qwIdx := 0, hold := false, valid := m.wr.valid[i := false], cnt := z.wr.cnt) && z.wr.cnt + 1 == m.wr.cnt))
      && (!m.wr.valid[i] || c.wrFull ==> z.acks == m.acks && z.wr == m.wr)
      && z.que == m.que
  {
    hide Pop, Whole, Part;
    PickKeeps(m, c);
    var i := Pick(m, c);
    PopBounds(m.rd.valid, i);
    PopBounds(m.wr.valid, i);
    PopAtMost(m.wr.valid);
  }

  /** A read that is taken in is answered in the same clock, if it is its slot that is picked. */
  lemma AnsweredAtOnce(m: Mem, c: Clock)
    requires Inv(m) && ClockOk(c) && !c.reset && c.inp.Nothing? && m.que != [] && !m.que[0].write
    requires Insert(m, c).que == m.que[1..] && m.rd.qwIdx == m.wr.qwIdx == 0
    requires Insert(m, c).rd.rr == c.rnd && !c.rdFull && m.wr.cnt < 32
    ensures Apply(m, c).rsps == m.rsps + [Rsp(m.que[0].id, 0)]
  {
    TakenIn(m, c);
    InsertKeeps(m, c);
    SlotServed(Insert(m, c), c);
    hide Work;
  }

  /** Reset empties both tables and forgets what is held; the queue in front of them stays. */
  lemma ResetEmpties(m: Mem)
    requires Inv(m)
    ensures var z := Reset(m);
      && Inv(z) && z.que == m.que && z.newReq == m.newReq && z.dataIdx == m.dataIdx
      && z.rd.cnt == 0 && z.wr.cnt == 0 && z.rd.rr == 0 && z.wr.rr == 0 && z.prevIdx == 0
      && |z.rd.valid| == |z.wr.valid| == 32
      && (forall i :: 0 <= i < 32 ==> !z.rd.valid[i] && !z.wr.valid[i])
      && z.rd.qwIdx == z.wr.qwIdx == 0 && !z.rd.hold && !z.wr.hold
  {
    ResetInv(m);
    NoneIs();
  }
}
