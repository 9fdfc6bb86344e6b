/** Whole runs of the memory model without banks, said of what goes in and what comes out: every read that
    arrives is answered with all its quadwords in one piece, and every write is acknowledged once. */
module SlotArrivals {
  import opened Wrappers
  import opened Responses
  import opened Arrivals
  import opened SlotModel
  import opened SlotDrain

  // ------------------------------------------------------------------------------------------
  // What goes in
  // ------------------------------------------------------------------------------------------

  /** The input of a clock, with as many quadwords as its low bits say, but one on the hc1 platforms. */
  function InputOf(c: Clock): In<Clock>
    requires c.inp.Request?
  {
    In(c.inp.write, if c.hc1 then 1 else 1 + c.inp.low, c)
  }

  function Inputs(cs: seq<Clock>): seq<In<Clock>> {
    if cs == [] then [] else (if cs[0].inp.Nothing? then [] else [InputOf(cs[0])]) + Inputs(cs[1..])
  }

  /** The request that an input begins. */
  function Wanted(i: In<Clock>): Req
    requires i.tag.inp.Request?
  {
    Req(i.tag.inp.id, i.write, i.tag.inp.host, i.n, i.tag.now)
  }

  predicate AllInputs(ins: seq<In<Clock>>) {
    forall k :: 0 <= k < |ins| ==> ins[k].tag.inp.Request? && ins[k] == InputOf(ins[k].tag)
  }

  function AllWanted(os: seq<In<Clock>>): seq<Req>
    requires AllInputs(os)
  {
    seq(|os|, k requires 0 <= k < |os| => Wanted(os[k]))
  }

  /** The requests that are complete with these inputs, in the order of their last inputs. */
  function Arriving(ins: seq<In<Clock>>): seq<Req>
    requires AllInputs(ins)
  {
    OrdersAreInputs(ins);
    AllWanted(Orders(ins))
  }

  lemma {:induction false} OrdersAreInputs(ins: seq<In<Clock>>)
    requires AllInputs(ins)
    ensures AllInputs(Orders(ins)) && AllInputs(Begun(ins))
    decreases |ins|
  {
    if ins != [] {
      if !ins[0].write || ins[0].n <= 1 {
        OrdersAreInputs(ins[1..]);
      } else if |ins| >= ins[0].n {
        OrdersAreInputs(ins[ins[0].n..]);
      }
    }
  }

  lemma {:induction false} InputsAreInputs(cs: seq<Clock>)
    ensures AllInputs(Inputs(cs))
  {
    if cs != [] { InputsAreInputs(cs[1..]); }
  }

  lemma WantedAppend(a: seq<In<Clock>>, b: seq<In<Clock>>)
    requires AllInputs(a) && AllInputs(b)
    ensures AllInputs(a + b) && AllWanted(a + b) == AllWanted(a) + AllWanted(b)
  {
  }

  // ------------------------------------------------------------------------------------------
  // What the model holds of it
  // ------------------------------------------------------------------------------------------

  /** The write that is not complete, with inputs `b`, is the one being collected. */
  predicate Collecting(m: Mem, b: seq<In<Clock>>)
    requires AllInputs(b)
  {
    if b == [] then m.newReq.None? && m.dataIdx == 0 else m.newReq == Some(Wanted(b[0])) && m.dataIdx == |b|
  }

  /** The last of the requests, in order. */
  predicate LastOf(q: seq<Req>, a: seq<Req>) { |q| <= |a| && q == a[|a| - |q|..] }

  /** Finished requests were sorted by kind. */
  predicate Sorted(m: Mem) {
    (forall k :: 0 <= k < |m.doneRd| ==> !m.doneRd[k].write) && (forall k :: 0 <= k < |m.doneWr| ==> m.doneWr[k].write)
  }

  /** The inputs `ins` were taken in, and the requests that they make wait in their order. */
  predicate Collected(m: Mem, ins: seq<In<Clock>>)
    requires Shape(m) && AllInputs(ins)
  {
    OrdersAreInputs(ins);
    Collecting(m, Begun(ins)) && LastOf(m.que, Arriving(ins)) && SlotDrain.Taken(m) == multiset(Arriving(ins)) && Sorted(m)
  }

  /** What one more input does to the request that is being collected. */
  lemma AcceptCases(m: Mem, c: Clock, b: seq<In<Clock>>)
    requires c.inp.Request? && AllInputs(b) && (b != [] ==> b[0].write && |b| < b[0].n) && Collecting(m, b)
    ensures var x := InputOf(c);
      Accept(m, c) ==
        if b == [] then
          if !x.write || x.n <= 1 then m.(que := m.que + [Wanted(x)]) else m.(newReq := Some(Wanted(x)), dataIdx := 1)
        else if |b| + 1 == b[0].n then m.(newReq := None, dataIdx := 0, que := m.que + [Wanted(b[0])])
        else m.(dataIdx := |b| + 1)
  {
  }

  /** The requests that become complete with one more input. */
  lemma AcceptAdds(m: Mem, c: Clock, ins: seq<In<Clock>>) returns (r: seq<Req>)
    requires c.inp.Request? && AllInputs(ins) && AllInputs(Begun(ins)) && Collecting(m, Begun(ins))
    ensures var more := ins + [InputOf(c)];
      && AllInputs(more) && AllInputs(Begun(more)) && Collecting(Accept(m, c), Begun(more))
      && Arriving(more) == Arriving(ins) + r && |r| <= 1
    ensures Accept(m, c) == m.(que := m.que + r, newReq := Accept(m, c).newReq, dataIdx := Accept(m, c).dataIdx)
  {
    var b, x := Begun(ins), InputOf(c);
    var more := ins + [x];
    AcceptCases(m, c, b);
    OneInput(c);
    OrdersAreInputs(ins);
    OrdersAreInputs(more);
    OneMoreInput(ins, x);
    if Orders(more) == Orders(ins) {
      r := [];
      assert m.que + [] == m.que;
    } else {
      var i := if b == [] then x else b[0];
      hide Accept, Orders, Begun;
      OneWanted(ins, i);
      r := [Wanted(i)];
    }
  }

  lemma AcceptCollects(m: Mem, c: Clock, ins: seq<In<Clock>>)
    requires Inv(m) && ClockOk(c) && Shape(m) && AllInputs(ins) && Collected(m, ins)
    ensures Inv(Accept(m, c)) && Shape(Accept(m, c))
    ensures var more := if c.inp.Nothing? then ins else ins + [InputOf(c)]; AllInputs(more) && Collected(Accept(m, c), more)
  {
    hide Inv, SlotDrain.Taken, Arrived, Collecting, Orders, Begun, AllInputs, Accept, Wanted, InputOf, Arriving;
    AcceptKeeps(m, c);
    AcceptMoves(m, c);
    OrdersAreInputs(ins);
    if c.inp.Request? {
      var r := AcceptAdds(m, c, ins);
      LastMore(Arriving(ins), m.que, r);
      assert r != [] ==> (m.que + r)[|m.que|] == r[0];
    }
  }

  lemma LastMore(a: seq<Req>, q: seq<Req>, r: seq<Req>)
    requires LastOf(q, a) && |r| <= 1
    ensures LastOf(q + r, a + r) && multiset(a + r) == multiset(a) + (if r == [] then multiset{} else multiset{r[0]})
  {
    assert r != [] ==> r == [r[0]];
  }

  lemma BegunIsInput(ins: seq<In<Clock>>)
    requires AllInputs(ins) && AllInputs(Begun(ins))
    ensures Begun(ins) != [] ==> Begun(ins)[0].tag.inp.Request? && Begun(ins)[0] == InputOf(Begun(ins)[0].tag)
  {
  }

  lemma OneInput(c: Clock)
    requires c.inp.Request?
    ensures AllInputs([InputOf(c)])
  {
  }

  lemma OneWanted(ins: seq<In<Clock>>, i: In<Clock>)
    requires AllInputs(ins) && AllInputs(Orders(ins)) && i.tag.inp.Request? && i == InputOf(i.tag)
    ensures AllInputs(Orders(ins) + [i]) && AllWanted(Orders(ins) + [i]) == AllWanted(Orders(ins)) + [Wanted(i)]
  {
    WantedAppend(Orders(ins), [i]);
  }

  /** The rest of a clock. */
  lemma WorkCollects(m: Mem, c: Clock, ins: seq<In<Clock>>)
    requires Inv(m) && ClockOk(c) && Shape(m) && AllInputs(ins) && Collected(m, ins)
    ensures Shape(Insert(m, c)) && Shape(Work(Insert(m, c), c)) && Collected(Work(Insert(m, c), c), ins)
  {
    hide SlotDrain.Taken, Collecting, Orders, Begun, AllInputs, Wanted, InputOf, Arriving, LogOk, QueOk, Put, Full, Aged, LastOf;
    OrdersAreInputs(ins);
    QuietMoves(m, c);
    InsertKeeps(m, c);
    InsertRest(m, c);
    var m2 := Insert(m, c);
    LastLess(m.que, Arriving(ins));
    PickKeeps(m2, c);
    ServedKinds(m2.(prevIdx := Pick(m2, c)), Pick(m2, c), c.rdFull, c.wrFull);
    SameCollecting(m, Work(m2, c), Begun(ins));
  }

  lemma InsertRest(m: Mem, c: Clock)
    requires Shape(m)
    ensures var z := Insert(m, c);
      && z.newReq == m.newReq && z.dataIdx == m.dataIdx && z.doneRd == m.doneRd && z.doneWr == m.doneWr
      && (z.que == m.que || (m.que != [] && z.que == m.que[1..]))
  {
    hide Put, Full;
  }

  lemma LastLess(q: seq<Req>, a: seq<Req>)
    requires LastOf(q, a)
    ensures q != [] ==> LastOf(q[1..], a)
  {
  }

  lemma SameCollecting(m: Mem, z: Mem, b: seq<In<Clock>>)
    requires AllInputs(b) && Collecting(m, b) && z.newReq == m.newReq && z.dataIdx == m.dataIdx
    ensures Collecting(z, b)
  {
  }

  lemma ServedKinds(m: Mem, idx: nat, rdFull: bool, wrFull: bool)
    requires Shape(m) && idx < SLOTS && SlotsOk(m.rd, false, m.prevIdx) && SlotsOk(m.wr, true, m.prevIdx) && Sorted(m)
    ensures Shape(ServeRead(m, idx, rdFull))
    ensures var z := ServeWrite(ServeRead(m, idx, rdFull), idx, wrFull);
      && Shape(z) && Sorted(z) && z.newReq == m.newReq && z.dataIdx == m.dataIdx && z.que == m.que
  {
    hide Pop;
  }

  // ------------------------------------------------------------------------------------------
  // What comes out
  // ------------------------------------------------------------------------------------------

  /** The responses to a read: its quadwords from the first one on. */
  function Quadwords(r: Req): (s: seq<Rsp>)
    ensures |s| == r.qwCnt
  {
    seq(r.qwCnt, i requires 0 <= i < r.qwCnt => Rsp(r.id, i))
  }

  function AllQuadwords(rs: seq<Req>): seq<Rsp> {
    if rs == [] then [] else Quadwords(rs[0]) + AllQuadwords(rs[1..])
  }

  lemma {:induction false} QuadwordsAppend(a: seq<Req>, b: seq<Req>)
    ensures AllQuadwords(a + b) == AllQuadwords(a) + AllQuadwords(b)
  {
    if a == [] {
      assert a + b == b;
    } else {
      assert (a + b)[1..] == a[1..] + b;
      QuadwordsAppend(a[1..], b);
    }
  }

  lemma {:induction false} WholeIs(rs: seq<Req>)
    ensures Whole(rs) == AllQuadwords(rs)
  {
    if rs != [] {
      var n := |rs| - 1;
      WholeIs(rs[..n]);
      QuadwordsAppend(rs[..n], [rs[n]]);
      assert rs == rs[..n] + [rs[n]];
      OneQuadwords(rs[n]);
    }
  }

  lemma OneQuadwords(r: Req)
    ensures AllQuadwords([r]) == Quadwords(r) == Part(r.id, r.qwCnt)
  {
    assert [r][1..] == [];
  }

  /** The responses of a read come in one piece. */
  lemma {:induction false} InOnePiece(rs: seq<Req>, k: nat)
    requires k < |rs|
    ensures exists a, b :: AllQuadwords(rs) == a + Quadwords(rs[k]) + b
  {
    var x, y := rs[..k], rs[k + 1..];
    assert rs == x + ([rs[k]] + y);
    QuadwordsAppend(x, [rs[k]] + y);
    QuadwordsAppend([rs[k]], y);
    OneQuadwords(rs[k]);
    assert AllQuadwords(rs) == AllQuadwords(x) + Quadwords(rs[k]) + AllQuadwords(y);
  }

  /** The requests `rs` were answered: the reads `rd` in some order, each in one piece, and the writes `wr`
      acknowledged once each. */
  predicate AnsweredBy(m: Mem, rs: seq<Req>, rd: seq<Req>, wr: seq<Req>) {
    && multiset(rd) + multiset(wr) == multiset(rs)
    && (forall k :: 0 <= k < |rd| ==> !rd[k].write) && (forall k :: 0 <= k < |wr| ==> wr[k].write)
    && m.rsps == AllQuadwords(rd)
    && |m.acks| == |wr| && forall k :: 0 <= k < |wr| ==> m.acks[k] == wr[k].id
  }

  predicate NoResets(cs: seq<Clock>) {
    forall i :: 0 <= i < |cs| ==> !cs[i].reset
  }

  lemma {:induction false} RunCollects(m: Mem, cs: seq<Clock>, ins: seq<In<Clock>>)
    requires Inv(m) && Shape(m) && IsRun(m, cs) && NoResets(cs) && AllInputs(ins) && Collected(m, ins)
    ensures AllInputs(ins + Inputs(cs)) && Inv(After(m, cs)) && Shape(After(m, cs)) && Collected(After(m, cs), ins + Inputs(cs))
    decreases |cs|
  {
    hide Inv, Collected, AllInputs, InputOf, Accept, Insert, Work;
    if cs == [] {
      assert ins + Inputs([]) == ins;
    } else {
      var c := cs[0];
      assert forall i :: 0 <= i < |cs[1..]| ==> !cs[1..][i].reset;
      AcceptCollects(m, c, ins);
      var more := if c.inp.Nothing? then ins else ins + [InputOf(c)];
      WorkCollects(Accept(m, c), c, more);
      ClockKeeps(m, c);
      RunCollects(Apply(m, c), cs[1..], more);
      assert ins + Inputs(cs) == more + Inputs(cs[1..]);
    }
  }

  /** From a model that holds nothing, whatever arrives, whatever slots are picked and whatever is held up:
      once the model holds nothing again, just the requests that arrived were answered. */
  lemma RunAnswers(m: Mem, cs: seq<Clock>)
    requires Inv(m) && Empty(m) && m.newReq.None? && m.doneRd == [] && m.doneWr == []
    requires IsRun(m, cs) && NoResets(cs)
    ensures AllInputs(Inputs(cs))
    ensures Empty(After(m, cs)) ==> exists rd, wr :: AnsweredBy(After(m, cs), Arriving(Inputs(cs)), rd, wr)
  {
    hide Inv, Arriving, SlotDrain.Taken, Whole, AllQuadwords, Sorted, AnsweredBy, IsRun, After, Empty;
    InvShape(m);
    InputsAreInputs(cs);
    NothingCollected(m);
    RunCollects(m, cs, []);
    assert [] + Inputs(cs) == Inputs(cs);
    var z := After(m, cs);
    assert SlotDrain.Taken(z) == multiset(Arriving(Inputs(cs))) && Sorted(z);
    if Empty(z) {
      EmptyAnswers(z, Arriving(Inputs(cs)));
    }
  }

  lemma EmptyAnswers(m: Mem, rs: seq<Req>)
    requires Inv(m) && Shape(m) && Empty(m) && SlotDrain.Taken(m) == multiset(rs) && Sorted(m)
    ensures AnsweredBy(m, rs, m.doneRd, m.doneWr)
  {
    hide Inv, SlotDrain.Taken, Whole, AllQuadwords;
    AllDone(m);
    WholeIs(m.doneRd);
  }

  lemma NothingCollected(m: Mem)
    requires Inv(m) && Empty(m) && m.newReq.None? && m.doneRd == [] && m.doneWr == []
    ensures Shape(m) && AllInputs([]) && Collected(m, [])
  {
    InvShape(m);
    AllDone(m);
    assert Arriving([]) == [];
  }
}
