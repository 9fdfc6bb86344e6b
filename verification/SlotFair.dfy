/** Every fair schedule finishes: when nothing new comes in, and each slot is picked again and again
    behind the time that the waiting requests have to wait for, all requests of the memory model
    without banks are answered. */
module SlotFair {

  import opened Responses
  import opened SlotModel
  import opened SlotDrain

  /** Nothing arrives and nothing is held up; the averages of the latencies may be anything. */
  predicate Calm(c: Clock) {
    ClockOk(c) && c.inp.Nothing? && !c.rdFull && !c.wrFull && !c.reset
  }

  predicate CalmRun(cs: seq<Clock>) {
    forall i :: 0 <= i < |cs| ==> Calm(cs[i])
  }

  /** The same queue and the same slots; only the slot looked at last may differ. */
  predicate Same(m: Mem, z: Mem) { z == m.(prevIdx := z.prevIdx) }

  lemma CalmStep(m: Mem, c: Clock)
    requires Inv(m) && Calm(c)
    ensures Shape(m) && Inv(Apply(m, c)) && Shape(Apply(m, c)) && SlotDrain.Taken(Apply(m, c)) == SlotDrain.Taken(m)
    ensures Same(m, Apply(m, c)) || Left(Apply(m, c)) < Left(m)
    ensures CanServe(m, Pick(m, c)) || (Aged(m, c) && !Full(m.rd) && !Full(m.wr)) ==> Left(Apply(m, c)) < Left(m)
  {
    hide Inv, SlotDrain.Taken, Left, Insert, Work, Full, Aged, CanServe, Pick, Accept;
    InvShape(m);
    ClockKeeps(m, c);
    InvShape(Apply(m, c));
    AcceptMoves(m, c);
    QuietMoves(m, c);
    InsertKeeps(m, c);
    ServedOrSame(Insert(m, c), c);
    InsertedOrSame(m, c);
  }

  /** Without a request in the slot picked, nothing but the slot looked at changes. */
  lemma ServedOrSame(m: Mem, c: Clock)
    requires Inv(m) && Calm(c)
    ensures Shape(m) && Pick(m, c) < SLOTS && (!CanServe(m, Pick(m, c)) ==> Same(m, Work(m, c)))
  {
    hide Pop, Whole, LogOk;
  }

  lemma InsertedOrSame(m: Mem, c: Clock)
    requires Inv(m) && ClockOk(c)
    ensures Shape(m) && (Insert(m, c) == m || Left(Insert(m, c)) < Left(m))
  {
    InvShape(m);
    hide Inv, Reqs, SlotReqs, SlotLeft, QueLeft, Put, Full, Aged;
    if Insert(m, c) != m {
      QueLess(m.que);
      if m.que[0].write { PutMoves(m.wr, m.que[0]); } else { PutMoves(m.rd, m.que[0]); }
    }
  }

  lemma {:induction false} CalmRunMoves(m: Mem, cs: seq<Clock>)
    requires Inv(m) && IsRun(m, cs) && CalmRun(cs)
    ensures var z := After(m, cs);
      && Shape(m) && Inv(z) && Shape(z) && SlotDrain.Taken(z) == SlotDrain.Taken(m)
      && (Same(m, z) || Left(z) < Left(m))
    decreases |cs|
  {
    hide Inv, SlotDrain.Taken, Left, Apply, Shape, CanServe, Aged, Full, Pick;
    InvShape(m);
    if cs != [] {
      var z := Apply(m, cs[0]);
      CalmStep(m, cs[0]);
      CalmRunMoves(z, cs[1..]);
      SameLeft(m, z);
      SameLeft(z, After(z, cs[1..]));
    }
  }

  lemma SameLeft(m: Mem, z: Mem)
    requires Shape(m) && Shape(z)
    ensures Same(m, z) ==> Left(z) == Left(m)
  {
    hide SlotLeft, QueLeft;
  }

  /** The slot picked has a request of the kind that is served, or the slots are all empty and the front
      of the queue has waited long enough. */
  predicate Useful(m: Mem, c: Clock)
    requires Shape(m) && ClockOk(c)
  {
    if m.wr.cnt > 0 then m.wr.valid[c.rnd]
    else if m.rd.cnt > 0 then m.rd.valid[c.rnd]
    else Aged(m, c)
  }

  lemma UsefulMoves(m: Mem, c: Clock)
    requires Inv(m) && Calm(c) && Shape(m) && Useful(m, c)
    ensures Shape(Apply(m, c)) && Left(Apply(m, c)) < Left(m)
  {
    hide SlotDrain.Taken, Left, Apply, Full, Pop, Whole, LogOk;
    CalmStep(m, c);
    if m.wr.cnt > 0 || m.rd.cnt > 0 {
      HeldMoves(m, c);
    } else {
      NoneFull(m);
    }
  }

  /** A useful clock at some time makes progress, unless another one has before. */
  lemma {:induction false} UsefulClock(m: Mem, cs: seq<Clock>, i: nat)
    requires Inv(m) && Shape(m) && IsRun(m, cs) && CalmRun(cs) && i < |cs| && Useful(m, cs[i])
    ensures Shape(After(m, cs)) && Left(After(m, cs)) < Left(m)
    decreases i
  {
    hide Inv, SlotDrain.Taken, Left, Apply, Shape, CanServe, Aged, Full, Pick, Useful, Same;
    var z := Apply(m, cs[0]);
    CalmStep(m, cs[0]);
    CalmRunMoves(z, cs[1..]);
    SameLeft(z, After(z, cs[1..]));
    if i == 0 {
      UsefulMoves(m, cs[0]);
    } else if !(Left(z) < Left(m)) {
      SameUseful(m, z, cs[i]);
      SameLeft(m, z);
      UsefulClock(z, cs[1..], i - 1);
    }
  }

  lemma SameUseful(m: Mem, z: Mem, c: Clock)
    requires Shape(m) && Shape(z) && Same(m, z) && ClockOk(c) && Useful(m, c)
    ensures Useful(z, c)
  {
  }

  /** Part of a schedule: some clocks, and then clocks by which every slot is picked, and at which the
      request that was in front of the queue has waited long enough. */
  datatype Round = Round(wait: seq<Clock>, clocks: seq<Clock>)

  predicate RoundOk(m: Mem, r: Round) {
    && CalmRun(r.wait) && CalmRun(r.clocks)
    && IsRun(m, r.wait) && IsRun(After(m, r.wait), r.clocks)
    && (forall k: nat :: k < SLOTS ==> Picks(r.clocks, k))
    && (m.que != [] ==> forall i :: 0 <= i < |r.clocks| ==> Aged(m, r.clocks[i]))
  }

  predicate Picks(cs: seq<Clock>, k: nat) {
    exists i :: 0 <= i < |cs| && cs[i].rnd == k
  }

  function RoundEnd(m: Mem, r: Round): Mem
    requires RoundOk(m, r)
  {
    After(After(m, r.wait), r.clocks)
  }

  lemma RoundMoves(m: Mem, r: Round)
    requires Inv(m) && RoundOk(m, r)
    ensures var z := RoundEnd(m, r);
      && Shape(m) && Inv(z) && Shape(z) && SlotDrain.Taken(z) == SlotDrain.Taken(m)
      && Left(z) <= Left(m) && (!Empty(m) ==> Left(z) < Left(m))
  {
    hide SlotDrain.Taken, Left, Apply, IsRun, After, Aged, Inv, Picks, Useful;
    var n := After(m, r.wait);
    CalmRunMoves(m, r.wait);
    CalmRunMoves(n, r.clocks);
    SameLeft(m, n);
    SameLeft(n, After(n, r.clocks));
    if !Empty(m) && Same(m, n) {
      SameWaits(m, n, r.clocks);
      var i := UsefulIn(n, r.clocks);
      UsefulClock(n, r.clocks, i);
    }
  }

  lemma SameWaits(m: Mem, n: Mem, cs: seq<Clock>)
    requires Same(m, n) && !Empty(m)
    requires m.que != [] ==> forall i :: 0 <= i < |cs| ==> Aged(m, cs[i])
    ensures !Empty(n)
    ensures n.que != [] ==> forall i :: 0 <= i < |cs| ==> Aged(n, cs[i])
  {
    if m.que != [] {
      forall i | 0 <= i < |cs| ensures Aged(n, cs[i]) {
        assert Aged(m, cs[i]);
      }
    }
  }

  /** As every slot is picked, a slot with a request is. */
  lemma UsefulIn(m: Mem, cs: seq<Clock>) returns (i: nat)
    requires Inv(m) && !Empty(m) && CalmRun(cs) && (forall k: nat :: k < SLOTS ==> Picks(cs, k))
    requires m.que != [] ==> forall i :: 0 <= i < |cs| ==> Aged(m, cs[i])
    ensures Shape(m) && i < |cs| && Useful(m, cs[i])
  {
    hide Pop, Whole, LogOk, Aged;
    assert Picks(cs, 0);
    i := 0;
    if m.wr.cnt > 0 || m.rd.cnt > 0 {
      var k := SomeValid(if m.wr.cnt > 0 then m.wr.valid else m.rd.valid);
      assert Picks(cs, k);
      i :| 0 <= i < |cs| && cs[i].rnd == k;
    }
  }

  predicate Rounds(m: Mem, rs: seq<Round>)
    decreases |rs|
  {
    rs == [] || (RoundOk(m, rs[0]) && Rounds(RoundEnd(m, rs[0]), rs[1..]))
  }

  function RoundsEnd(m: Mem, rs: seq<Round>): Mem
    requires Rounds(m, rs)
    decreases |rs|
  {
    if rs == [] then m else RoundsEnd(RoundEnd(m, rs[0]), rs[1..])
  }

  lemma {:induction false} RoundsMove(m: Mem, rs: seq<Round>)
    requires Inv(m) && Rounds(m, rs)
    ensures var z := RoundsEnd(m, rs);
      && Shape(m) && Inv(z) && Shape(z) && SlotDrain.Taken(z) == SlotDrain.Taken(m)
      && Left(z) <= Left(m) && (Left(z) <= Left(m) - |rs| || Left(z) <= 0)
    decreases |rs|
  {
    hide SlotDrain.Taken, Left, Inv, RoundOk, RoundEnd, Empty;
    InvShape(m);
    if rs != [] {
      var z := RoundEnd(m, rs[0]);
      RoundMoves(m, rs[0]);
      RoundsMove(z, rs[1..]);
      EmptyIsZero(m);
    }
  }

  lemma {:induction false} NoSlotsLeft(list: seq<Req>, valid: seq<bool>)
    requires |list| == |valid| && Pop(valid) == 0
    ensures SlotLeft(list, valid) == 0
  {
    if list != [] { NoSlotsLeft(list[1..], valid[1..]); }
  }

  lemma SlotsLeft(s: Slots, write: bool, prevIdx: nat)
    requires SlotsOk(s, write, prevIdx)
    ensures SlotLeft(s.list, s.valid) >= s.qwIdx
    ensures SlotLeft(s.list, s.valid) == s.qwIdx <==> s.cnt == 0
  {
    if s.cnt == 0 {
      NoSlotsLeft(s.list, s.valid);
      if s.hold { PopBounds(s.valid, prevIdx); }
    } else {
      var k := SomeValid(s.valid);
      ClearSlot(s.list, s.valid, if s.hold then prevIdx else k);
    }
  }

  /** The work left is none exactly when nothing is queued and all slots are empty. */
  lemma EmptyIsZero(m: Mem)
    requires Inv(m)
    ensures Shape(m) && (Empty(m) <==> Left(m) <= 0)
  {
    hide Pop, Whole, LogOk, SlotLeft;
    SlotsLeft(m.rd, false, m.prevIdx);
    SlotsLeft(m.wr, true, m.prevIdx);
    if m.que != [] { QueLess(m.que); }
  }

  /** Whatever slots are picked and whenever: after as many rounds as there is work left, exactly the
      requests taken in were answered, every read with all its quadwords in order and in one piece. */
  lemma EveryScheduleDrains(m: Mem, rs: seq<Round>)
    requires Inv(m) && Shape(m) && Rounds(m, rs) && |rs| >= Left(m)
    ensures var z := RoundsEnd(m, rs);
      && Inv(z) && Empty(z) && Reqs(z.doneRd) + Reqs(z.doneWr) == SlotDrain.Taken(m)
      && z.rsps == Whole(z.doneRd) && z.acks == IdSeq(z.doneWr)
  {
    hide SlotDrain.Taken, Left, Inv, Rounds, RoundsEnd, Empty, Whole, Reqs;
    RoundsMove(m, rs);
    var z := RoundsEnd(m, rs);
    EmptyIsZero(z);
    AllDone(z);
  }
}
