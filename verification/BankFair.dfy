/** Every fair schedule finishes: when nothing new comes in, time passes, and each port is clocked again
    and again, in whatever order, all requests of the banked memory model are answered. */
module BankFair {

  import opened Responses
  import opened BankModel
  import opened BankDrain

  /** Time passes, or some port is clocked, at which nothing arrives and nothing is held up. */
  predicate Calm(s: Step) { s.Tick? || s == Quiet(s.p) }

  predicate CalmRun(ts: seq<Step>) {
    forall i :: 0 <= i < |ts| ==> Calm(ts[i])
  }

  predicate Same(y: Sys, z: Sys) {
    z.ports == y.ports && z.banks == y.banks && y.now <= z.now
  }

  /** The next clock of port `p` makes progress. */
  predicate Due(y: Sys, p: nat)
    requires Shape(y)
  {
    p < |y.ports| && (Retiring(y, p) || Aged(y.ports[p].hostReqs, y.now) || Aged(y.ports[p].bankReqs, y.now))
  }

  lemma CalmStep(y: Sys, s: Step)
    requires Inv(y) && StepOk(y, s) && Calm(s)
    ensures Shape(y) && Inv(Apply(y, s)) && Shape(Apply(y, s)) && Moved(y, Apply(y, s))
    ensures Same(y, Apply(y, s)) || LeftOf(Apply(y, s).ports) < LeftOf(y.ports)
    ensures s.Clock? && Due(y, s.p) ==> LeftOf(Apply(y, s).ports) < LeftOf(y.ports)
  {
    hide Inv, Taken, LeftOf, Shape, Retiring, Aged;
    InvShape(y);
    StepKeeps(y, s);
    InvShape(Apply(y, s));
    if s.Tick? {
      TickIs(y, s.d);
    } else {
      QuietMoves(y, s.p);
      if !Due(y, s.p) {
        NothingDue(y, s.p);
      }
    }
  }

  lemma NothingDue(y: Sys, p: nat)
    requires Shape(y) && p < |y.ports| && !Due(y, p)
    ensures Apply(y, Quiet(p)) == y
  {
  }

  lemma {:induction false} CalmRunMoves(y: Sys, ts: seq<Step>)
    requires Inv(y) && Shape(y) && IsRun(y, ts) && CalmRun(ts)
    ensures Inv(After(y, ts)) && Moved(y, After(y, ts))
    ensures Same(y, After(y, ts)) || LeftOf(After(y, ts).ports) < LeftOf(y.ports)
    decreases |ts|
  {
    hide Inv, Taken, LeftOf, Shape, Apply, StepOk, Due;
    if ts != [] {
      var z := Apply(y, ts[0]);
      CalmStep(y, ts[0]);
      CalmRunMoves(z, ts[1..]);
      MovedTwice(y, z, After(z, ts[1..]));
    }
  }

  lemma DueStays(y: Sys, z: Sys, p: nat)
    requires Shape(y) && Shape(z) && Same(y, z) && Due(y, p)
    ensures Due(z, p)
  {
  }

  /** A port that is due and is clocked at some time makes progress, unless another one has before. */
  lemma {:induction false} DueClocked(y: Sys, ts: seq<Step>, p: nat, i: nat)
    requires Inv(y) && Shape(y) && IsRun(y, ts) && CalmRun(ts) && Due(y, p) && i < |ts| && ts[i] == Quiet(p)
    ensures LeftOf(After(y, ts).ports) < LeftOf(y.ports)
    decreases i
  {
    hide Inv, Taken, LeftOf, Shape, Apply, StepOk, Due, Same;
    var z := Apply(y, ts[0]);
    CalmStep(y, ts[0]);
    CalmRunMoves(z, ts[1..]);
    MovedTwice(y, z, After(z, ts[1..]));
    if i > 0 && !(LeftOf(z.ports) < LeftOf(y.ports)) {
      DueStays(y, z, p);
      DueClocked(z, ts[1..], p, i - 1);
    }
  }

  /** Time `t` is past all times that requests wait for. */
  predicate TimesPast(y: Sys, t: nat) {
    forall p :: 0 <= p < |y.ports| ==>
      var q := y.ports[p];
      && (q.busy != [] ==> Last(q.busy).avl <= t)
      && (q.hostReqs != [] ==> q.hostReqs[0].start + Delay(q.hostReqs[0]) <= t)
      && (q.bankReqs != [] ==> q.bankReqs[0].start + Delay(q.bankReqs[0]) <= t)
  }

  /** Then some port is due: no ports wait for each other. */
  lemma SomeDue(y: Sys) returns (p: nat)
    requires Inv(y) && !Drained(y) && TimesPast(y, y.now)
    ensures Shape(y) && Due(y, p)
  {
    hide Inv, Shape;
    InvShape(y);
    if AnyBusy(y) {
      p := FindEarliest(y, |y.ports|);
      EarliestIsFirst(y, p);
    } else {
      var k :| 0 <= k < |y.ports|
        && !(y.ports[k].hostReqs == [] && y.ports[k].bankReqs == [] && y.ports[k].busy == []);
      p := k;
      assert y.ports[p].busy == [];
    }
  }

  /** Part of a schedule: some steps by which time passes, and some that clock every port. */
  datatype Round = Round(wait: seq<Step>, clocks: seq<Step>)

  predicate RoundOk(y: Sys, r: Round)
    requires Shape(y)
  {
    && CalmRun(r.wait) && CalmRun(r.clocks)
    && IsRun(y, r.wait)
    && var m := After(y, r.wait);
       && Shape(m) && TimesPast(y, m.now) && IsRun(m, r.clocks) && Shape(After(m, r.clocks))
       && forall p :: 0 <= p < |y.ports| ==> Quiet(p) in r.clocks
  }

  function RoundEnd(y: Sys, r: Round): (z: Sys)
    requires Shape(y) && RoundOk(y, r)
    ensures Shape(z)
  {
    After(After(y, r.wait), r.clocks)
  }

  lemma RoundMoves(y: Sys, r: Round)
    requires Inv(y) && Shape(y) && RoundOk(y, r)
    ensures var z := RoundEnd(y, r);
            Inv(z) && Moved(y, z) && (!Drained(y) ==> LeftOf(z.ports) < LeftOf(y.ports))
  {
    hide Inv, Taken, LeftOf, Shape, Apply, IsRun, After, TimesPast, Due, Drained;
    var m := After(y, r.wait);
    CalmRunMoves(y, r.wait);
    CalmRunMoves(m, r.clocks);
    MovedTwice(y, m, After(m, r.clocks));
    if !Drained(y) && Same(y, m) {
      SamePast(y, m);
      var p := SomeDue(m);
      DueIndex(m, p);
      var i :| 0 <= i < |r.clocks| && r.clocks[i] == Quiet(p);
      DueClocked(m, r.clocks, p, i);
    }
  }

  lemma DueIndex(y: Sys, p: nat)
    requires Shape(y) && Due(y, p)
    ensures p < |y.ports|
  {
  }

  lemma SamePast(y: Sys, z: Sys)
    requires Same(y, z) && !Drained(y) && TimesPast(y, z.now)
    ensures !Drained(z) && TimesPast(z, z.now)
  {
  }

  predicate Rounds(y: Sys, rs: seq<Round>)
    requires Shape(y)
    decreases |rs|
  {
    rs == [] || (RoundOk(y, rs[0]) && Rounds(RoundEnd(y, rs[0]), rs[1..]))
  }

  function RoundsEnd(y: Sys, rs: seq<Round>): Sys
    requires Shape(y) && Rounds(y, rs)
    decreases |rs|
  {
    if rs == [] then y else RoundsEnd(RoundEnd(y, rs[0]), rs[1..])
  }

  lemma {:induction false} NothingLeft(ports: seq<Port>, now: nat)
    requires forall p :: 0 <= p < |ports| ==> ServiceOk(ports[p], now)
    requires forall p :: 0 <= p < |ports| && ports[p].busy != [] ==> Last(ports[p].busy).qwCnt > 0
    requires LeftOf(ports) <= 0
    ensures forall p :: 0 <= p < |ports| ==> ports[p].hostReqs == [] && ports[p].bankReqs == [] && ports[p].busy == []
  {
    hide Left, ServiceOk;
    if ports != [] {
      LeftIsNat(ports[0], now);
      LeftOfIsNat(ports[1..], now);
      NothingLeft(ports[1..], now);
      forall p | 0 <= p < |ports| ensures ports[p].hostReqs == [] && ports[p].bankReqs == [] && ports[p].busy == [] {
        if p > 0 { assert ports[p] == ports[1..][p - 1]; }
      }
    }
  }

  lemma ZeroMeansDrained(y: Sys)
    requires Inv(y) && LeftOf(y.ports) <= 0
    ensures Drained(y)
  {
    hide LeftOf;
    forall p | 0 <= p < |y.ports| ensures ServiceOk(y.ports[p], y.now) {
      assert PortOk(y, p);
    }
    forall p | 0 <= p < |y.ports| && y.ports[p].busy != [] ensures Last(y.ports[p].busy).qwCnt > 0 {
      assert GoodReq(y.ports[p].busy[|y.ports[p].busy| - 1], p);
    }
    NothingLeft(y.ports, y.now);
  }

  lemma {:induction false} RoundsMove(y: Sys, rs: seq<Round>)
    requires Inv(y) && Shape(y) && Rounds(y, rs)
    ensures var z := RoundsEnd(y, rs);
            Inv(z) && Moved(y, z) && (LeftOf(z.ports) <= LeftOf(y.ports) - |rs| || LeftOf(z.ports) <= 0)
    decreases |rs|
  {
    hide Inv, Taken, LeftOf, Shape, RoundOk, RoundEnd, Drained;
    if rs != [] {
      var z := RoundEnd(y, rs[0]);
      RoundMoves(y, rs[0]);
      RoundsMove(z, rs[1..]);
      MovedTwice(y, z, RoundsEnd(z, rs[1..]));
      if Drained(y) { DrainedMeansZero(y); }
    }
  }

  lemma {:induction false} EmptyPorts(ports: seq<Port>, now: nat)
    requires forall p :: 0 <= p < |ports| ==> ServiceOk(ports[p], now)
    requires forall p :: 0 <= p < |ports| ==> ports[p].hostReqs == [] && ports[p].bankReqs == [] && ports[p].busy == []
    ensures LeftOf(ports) == 0
  {
    if ports != [] { EmptyPorts(ports[1..], now); }
  }

  lemma DrainedMeansZero(y: Sys)
    requires Inv(y) && Drained(y)
    ensures LeftOf(y.ports) == 0
  {
    forall p | 0 <= p < |y.ports| ensures ServiceOk(y.ports[p], y.now) {
      assert PortOk(y, p);
    }
    EmptyPorts(y.ports, y.now);
  }

  /** Whatever the order in which ports are clocked, and whenever time passes: after as many rounds as
      there is work left, every port has answered exactly the requests that it had taken in, all
      quadwords of each in order and without an answer to another request in between. */
  lemma EveryScheduleDrains(y: Sys, rs: seq<Round>)
    requires Inv(y) && Shape(y) && Rounds(y, rs) && |rs| >= LeftOf(y.ports)
    ensures var z := RoundsEnd(y, rs);
      && Inv(z) && Drained(z) && |z.ports| == |y.ports|
      && forall p :: 0 <= p < |y.ports| ==>
           Jobs(z.ports[p].done) == Taken(y.ports[p]) && z.ports[p].rsps == Whole(z.ports[p].done)
  {
    hide Inv, Taken, LeftOf, Shape, Rounds, RoundsEnd, Whole, Jobs;
    RoundsMove(y, rs);
    var z := RoundsEnd(y, rs);
    ZeroMeansDrained(z);
    AllDone(z);
  }
}
