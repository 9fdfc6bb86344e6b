/** Every request that the banked memory model takes in is answered: from any reachable state time
    and clocks alone finish all queued requests, each of them exactly once. */
module BankDrain {

  import opened Responses
  import opened BankModel

  /** A request as it was taken in: its bank has not given it a time yet. */
  function Job(r: Req): Req { r.(avl := 0) }

  function Jobs(s: seq<Req>): multiset<Req> {
    multiset(seq(|s|, i requires 0 <= i < |s| => Job(s[i])))
  }

  lemma JobsAppend(a: seq<Req>, b: seq<Req>)
    ensures Jobs(a + b) == Jobs(a) + Jobs(b)
  {
    assert seq(|a + b|, i requires 0 <= i < |a + b| => Job((a + b)[i]))
        == seq(|a|, i requires 0 <= i < |a| => Job(a[i])) + seq(|b|, i requires 0 <= i < |b| => Job(b[i]));
  }

  lemma JobsOne(r: Req)
    ensures Jobs([r]) == multiset{Job(r)}
  {
    assert seq(1, i requires 0 <= i < 1 => Job([r][i])) == [Job(r)];
  }

  /** All complete requests that a port ever took in. */
  function Taken(q: Port): multiset<Req> {
    Jobs(q.hostReqs) + Jobs(q.bankReqs) + Jobs(q.busy) + Jobs(q.done)
  }

  function Weight(s: seq<Req>, extra: nat): nat {
    if s == [] then 0 else s[0].qwCnt + extra + Weight(s[1..], extra)
  }

  lemma {:induction false} WeightAppend(a: seq<Req>, b: seq<Req>, extra: nat)
    ensures Weight(a + b, extra) == Weight(a, extra) + Weight(b, extra)
  {
    if a == [] {
      assert a + b == b;
    } else {
      WeightAppend(a[1..], b, extra);
      assert (a + b)[1..] == a[1..] + b;
    }
  }

  /** What is left to do for a port: quadwords to answer, and requests to schedule. */
  function Left(q: Port): int {
    Weight(q.hostReqs, 1) + Weight(q.bankReqs, 1) + Weight(q.busy, 0) - q.rdIdx - q.wrIdx
  }

  function LeftOf(ports: seq<Port>): int {
    if ports == [] then 0 else Left(ports[0]) + LeftOf(ports[1..])
  }

  lemma {:induction false} LeftSet(ports: seq<Port>, p: nat, q: Port)
    requires p < |ports|
    ensures LeftOf(ports[p := q]) == LeftOf(ports) - Left(ports[p]) + Left(q)
  {
    hide Left;
    if p == 0 {
      assert ports[0 := q][1..] == ports[1..];
    } else {
      LeftSet(ports[1..], p - 1, q);
      assert ports[p := q][1..] == ports[1..][p - 1 := q];
    }
  }

  lemma LeftIsNat(q: Port, now: nat)
    requires ServiceOk(q, now)
    ensures Left(q) >= 0
    ensures q.busy != [] && q.busy[|q.busy| - 1].qwCnt > 0 ==> Left(q) > 0
    ensures q.hostReqs != [] || q.bankReqs != [] ==> Left(q) > 0
  {
    if q.busy != [] {
      var n := |q.busy| - 1;
      assert q.busy == q.busy[..n] + [q.busy[n]];
      WeightAppend(q.busy[..n], [q.busy[n]], 0);
    }
  }

  lemma {:induction false} LeftOfIsNat(ports: seq<Port>, now: nat)
    requires forall p :: 0 <= p < |ports| ==> ServiceOk(ports[p], now)
    ensures LeftOf(ports) >= 0
  {
    hide Left;
    if ports != [] {
      LeftIsNat(ports[0], now);
      LeftOfIsNat(ports[1..], now);
    }
  }

  lemma InvLeft(y: Sys)
    requires Inv(y)
    ensures LeftOf(y.ports) >= 0
  {
    forall p | 0 <= p < |y.ports| ensures ServiceOk(y.ports[p], y.now) {
      assert PortOk(y, p);
    }
    LeftOfIsNat(y.ports, y.now);
  }

  /** Moving the first of the waiting requests into the port's list. */
  lemma MoveOne(reqs: seq<Req>, busy: seq<Req>, r1: Req)
    requires reqs != [] && Job(r1) == Job(reqs[0])
    ensures Jobs(reqs[1..]) + Jobs(Inserted(busy, r1)) == Jobs(reqs) + Jobs(busy)
    ensures Weight(reqs[1..], 1) + Weight(Inserted(busy, r1), 0) == Weight(reqs, 1) + Weight(busy, 0) - 1
  {
    hide Jobs;
    var i := InsertPos(busy, r1);
    assert busy == busy[..i] + busy[i..];
    assert reqs == [reqs[0]] + reqs[1..];
    JobsAppend([reqs[0]], reqs[1..]);
    JobsAppend(busy[..i], busy[i..]);
    JobsAppend(busy[..i] + [r1], busy[i..]);
    JobsAppend(busy[..i], [r1]);
    JobsOne(r1);
    JobsOne(reqs[0]);
    WeightAppend(busy[..i], busy[i..], 0);
    WeightAppend(busy[..i] + [r1], busy[i..], 0);
    WeightAppend(busy[..i], [r1], 0);
  }

  /** The same requests, and nothing more to do. */
  predicate Moved(a: Sys, b: Sys) {
    && |b.ports| == |a.ports|
    && (forall k :: 0 <= k < |a.ports| ==> Taken(b.ports[k]) == Taken(a.ports[k]))
    && LeftOf(b.ports) <= LeftOf(a.ports)
  }

  lemma PortMoved(y: Sys, z: Sys, p: nat, q: Port)
    requires p < |y.ports| && z.ports == y.ports[p := q]
    requires Taken(q) == Taken(y.ports[p]) && Left(q) <= Left(y.ports[p])
    ensures Moved(y, z) && (Left(q) < Left(y.ports[p]) ==> LeftOf(z.ports) < LeftOf(y.ports))
  {
    LeftSet(y.ports, p, q);
  }

  lemma MoveHost(q: Port, r1: Req)
    requires q.hostReqs != [] && Job(r1) == Job(q.hostReqs[0])
    ensures var z := q.(hostReqs := q.hostReqs[1..], busy := Inserted(q.busy, r1));
            Taken(z) == Taken(q) && Left(z) == Left(q) - 1
  {
    MoveOne(q.hostReqs, q.busy, r1);
    Regroup(Jobs(q.hostReqs[1..]), Jobs(q.bankReqs), Jobs(Inserted(q.busy, r1)), Jobs(q.hostReqs), Jobs(q.busy), Jobs(q.done));
  }

  lemma MoveBank(q: Port, r1: Req)
    requires q.bankReqs != [] && Job(r1) == Job(q.bankReqs[0])
    ensures var z := q.(bankReqs := q.bankReqs[1..], busy := Inserted(q.busy, r1));
            Taken(z) == Taken(q) && Left(z) == Left(q) - 1
  {
    MoveOne(q.bankReqs, q.busy, r1);
    assert Jobs(q.hostReqs) + Jobs(q.bankReqs[1..]) + Jobs(Inserted(q.busy, r1))
        == Jobs(q.hostReqs) + (Jobs(q.bankReqs[1..]) + Jobs(Inserted(q.busy, r1)));
    assert Jobs(q.hostReqs) + Jobs(q.bankReqs) + Jobs(q.busy) == Jobs(q.hostReqs) + (Jobs(q.bankReqs) + Jobs(q.busy));
  }

  lemma Regroup(a: multiset<Req>, b: multiset<Req>, c: multiset<Req>, d: multiset<Req>, e: multiset<Req>, f: multiset<Req>)
    requires a + c == d + e
    ensures a + b + c + f == d + b + e + f
  {
    assert a + b + c == (a + c) + b && d + b + e == (d + e) + b;
  }

  lemma ScheduleMoves(y: Sys, p: nat)
    requires Inv(y) && p < |y.ports|
    ensures var z := Schedule(y, p);
      && Moved(y, z) && z.now == y.now
      && (Aged(y.ports[p].hostReqs, y.now) || Aged(y.ports[p].bankReqs, y.now) ==> LeftOf(z.ports) < LeftOf(y.ports))
  {
    hide Inserted, Taken, Left, LeftOf, Moved;
    InvShape(y);
    var q, z := y.ports[p], Schedule(y, p);
    ScheduleShape(y, p);
    if Aged(q.hostReqs, y.now) {
      var r := q.hostReqs[0];
      assert GoodReq(r, p);
      MoveHost(q, r.(avl := AvlTime(y.banks[r.bank], r, y.now)));
    } else if Aged(q.bankReqs, y.now) {
      var r := q.bankReqs[0];
      assert GoodReq(r, p);
      MoveBank(q, r.(avl := AvlTime(y.banks[r.bank], r, y.now)));
    }
    assert y.ports[p := y.ports[p]] == y.ports;
    PortMoved(y, z, p, z.ports[p]);
  }

  lemma AnswerMoves(q: Port, now: nat)
    requires ServiceOk(q, now) && q.busy != []
    ensures var n := |q.busy| - 1;
            var r := q.busy[n];
            var i := if r.kind.Write? then q.wrIdx else q.rdIdx;
            var q1 := q.(rsps := q.rsps + [Rsp(r.id, i)]);
            var z := if r.kind.Write? then q1.(wrIdx := i + 1) else q1.(rdIdx := i + 1);
            var z2 := (if r.kind.Write? then q1.(wrIdx := 0) else q1.(rdIdx := 0)).(busy := q.busy[..n], done := q.done + [r]);
      && Taken(z) == Taken(q) && Left(z) == Left(q) - 1
      && (i + 1 == r.qwCnt ==> Taken(z2) == Taken(q) && Left(z2) == Left(q) - 1)
  {
    hide Jobs, Weight, Answered;
    var n := |q.busy| - 1;
    var r := q.busy[n];
    assert q.busy == q.busy[..n] + [r];
    JobsAppend(q.busy[..n], [r]);
    JobsAppend(q.done, [r]);
    WeightAppend(q.busy[..n], [r], 0);
    WeightOne(r);
    Swap(Jobs(q.hostReqs) + Jobs(q.bankReqs), Jobs(q.busy[..n]), Jobs([r]), Jobs(q.done));
  }

  lemma Swap(a: multiset<Req>, b: multiset<Req>, c: multiset<Req>, d: multiset<Req>)
    ensures a + b + (d + c) == a + (b + c) + d
  {
  }

  lemma RetireMoves(y: Sys, p: nat)
    requires Inv(y) && p < |y.ports|
    ensures var z := Retire(y, p, false, false);
            Moved(y, z) && (Retiring(y, p) ==> LeftOf(z.ports) < LeftOf(y.ports))
  {
    InvShape(y);
    assert PortOk(y, p) && ServiceOk(y.ports[p], y.now);
    hide Taken, Left, LeftOf, Shape, PortOk, Moved, Inv, ServiceOk, Answered;
    var q, z := y.ports[p], Retire(y, p, false, false);
    if Retiring(y, p) {
      AnswerMoves(q, y.now);
    }
    assert y.ports[p := y.ports[p]] == y.ports;
    PortMoved(y, z, p, z.ports[p]);
  }

  lemma WeightOne(r: Req)
    ensures Weight([r], 0) == r.qwCnt
  {
  }

  lemma StaysLast(y: Sys, p: nat, q: Port, r: Req)
    requires Shape(y) && p < |y.ports| && PortOk(y, p) && Retiring(y, p) && r.bank <= BANK_CNT && BankOk(y, r.bank)
    requires q == y.ports[p].(hostReqs := q.hostReqs, bankReqs := q.bankReqs) && Shape(Place(y, p, q, r))
    ensures Retiring(Place(y, p, q, r), p)
  {
    hide Inserted;
    var b, r1 := y.ports[p].busy, r.(avl := AvlTime(y.banks[r.bank], r, y.now));
    BusyInBanks(y, p);
    LaterThanAll(y.banks[r.bank], r, y.now);
    InsertDescends(b, r1);
    InsertIs(b, r1);
  }

  /** Scheduling another request does not hold up the one to be retired. */
  lemma StillRetiring(y: Sys, p: nat)
    requires Inv(y) && p < |y.ports| && Retiring(y, p)
    ensures Shape(Schedule(y, p)) && Retiring(Schedule(y, p), p)
  {
    ScheduleShape(y, p);
    assert PortOk(y, p);
    var q := y.ports[p];
    if q.hostReqs != [] { assert GoodReq(q.hostReqs[0], p); }
    if q.bankReqs != [] { assert GoodReq(q.bankReqs[0], p); }
    hide Shape, PortOk, Retiring, Place, BankOk;
    if Aged(q.hostReqs, y.now) {
      StaysLast(y, p, q.(hostReqs := q.hostReqs[1..]), q.hostReqs[0]);
    } else if Aged(q.bankReqs, y.now) {
      StaysLast(y, p, q.(bankReqs := q.bankReqs[1..]), q.bankReqs[0]);
    }
  }

  // ------------------------------------------------------------------------------------------
  // Draining
  // ------------------------------------------------------------------------------------------

  /** One clock of a port at which nothing arrives and nothing is held up. */
  function Quiet(p: nat): Step { Clock(p, false, Nothing, false, false) }

  lemma QuietMoves(y: Sys, p: nat)
    requires Inv(y) && p < |y.ports|
    ensures Shape(y) && Moved(y, Apply(y, Quiet(p)))
    ensures Retiring(y, p) || Aged(y.ports[p].hostReqs, y.now) || Aged(y.ports[p].bankReqs, y.now) ==>
              LeftOf(Apply(y, Quiet(p)).ports) < LeftOf(y.ports)
  {
    InvShape(y);
    ApplyQuiet(y, p);
    hide Inv, Schedule, Retire, Retiring, Shape, Moved, Apply, LeftOf, Aged;
    ScheduleShape(y, p);
    ScheduleMoves(y, p);
    ScheduleKeeps(y, p);
    RetireMoves(Schedule(y, p), p);
    MovedTwice(y, Schedule(y, p), Retire(Schedule(y, p), p, false, false));
    if Retiring(y, p) {
      StillRetiring(y, p);
    }
  }

  lemma ApplyQuiet(y: Sys, p: nat)
    requires Shape(y) && p < |y.ports|
    ensures Shape(Schedule(y, p)) && |Schedule(y, p).ports| == |y.ports|
    ensures Apply(y, Quiet(p)) == Retire(Schedule(y, p), p, false, false)
  {
    ScheduleShape(y, p);
  }

  lemma MovedTwice(a: Sys, b: Sys, c: Sys)
    requires Moved(a, b) && Moved(b, c)
    ensures Moved(a, c) && LeftOf(c.ports) <= LeftOf(b.ports) <= LeftOf(a.ports)
  {
    hide Taken, LeftOf;
  }

  predicate Drained(y: Sys) {
    forall p :: 0 <= p < |y.ports| ==>
      y.ports[p].hostReqs == [] && y.ports[p].bankReqs == [] && y.ports[p].busy == []
  }

  function Later(t: nat, now: nat): nat { if t <= now then 0 else t - now }

  /** After some time and one clock of some port there is less to do. */
  lemma OneMore(y: Sys) returns (d: nat, p: nat)
    requires Inv(y) && !Drained(y)
    ensures p < |y.ports| && Shape(y) && Inv(y.(now := y.now + d))
    ensures var y1 := y.(now := y.now + d);
            Shape(y1) && Moved(y, Apply(y1, Quiet(p))) && LeftOf(Apply(y1, Quiet(p)).ports) < LeftOf(y.ports)
  {
    hide Inv, Apply, Shape, LeftOf, Taken;
    InvShape(y);
    if AnyBusy(y) {
      p := FindEarliest(y, |y.ports|);
      d := Later(Last(y.ports[p].busy).avl, y.now);
      EarliestIsFirst(y, p);
    } else {
      var k :| 0 <= k < |y.ports|
        && !(y.ports[k].hostReqs == [] && y.ports[k].bankReqs == [] && y.ports[k].busy == []);
      p := k;
      assert y.ports[p].busy == [];
      var r := if y.ports[p].hostReqs != [] then y.ports[p].hostReqs[0] else y.ports[p].bankReqs[0];
      d := Later(r.start + Delay(r), y.now);
    }
    TickKeeps(y, d);
    InvShape(y.(now := y.now + d));
    QuietMoves(y.(now := y.now + d), p);
  }

  /** From every reachable state the model can finish by itself: time and clocks empty all queues,
      and each port has then answered exactly the requests that it had taken in, all quadwords of
      each in order and without an answer to another request in between. */
  lemma {:induction false} Drain(y: Sys) returns (ts: seq<Step>)
    requires Inv(y)
    ensures Shape(y) && IsRun(y, ts)
    ensures forall i :: 0 <= i < |ts| ==> ts[i].Tick? || ts[i] == Quiet(ts[i].p)
    ensures var z := After(y, ts);
      && Inv(z) && Drained(z) && |z.ports| == |y.ports|
      && forall p :: 0 <= p < |y.ports| ==>
           Jobs(z.ports[p].done) == Taken(y.ports[p]) && z.ports[p].rsps == Whole(z.ports[p].done)
    decreases LeftOf(y.ports)
  {
    hide Apply, Shape, LeftOf, Taken, PortOk, BankOk;
    InvShape(y);
    InvLeft(y);
    if Drained(y) {
      ts := [];
      AllDone(y);
    } else {
      var d, p := OneMore(y);
      var y1 := y.(now := y.now + d);
      var t1, t2 := Tick(d), Quiet(p);
      TickIs(y, d);
      StepKeeps(y1, t2);
      var y2 := Apply(y1, t2);
      InvShape(y2);
      InvLeft(y2);
      var rest := Drain(y2);
      ts := [t1] + ([t2] + rest);
      assert ts[1..] == [t2] + rest && ts[1..][1..] == rest;
      assert IsRun(y1, [t2] + rest);
    }
  }

  lemma TickIs(y: Sys, d: nat)
    requires Shape(y)
    ensures Apply(y, Tick(d)) == y.(now := y.now + d)
  {
  }

  lemma AllDone(y: Sys)
    requires Inv(y) && Drained(y)
    ensures forall p :: 0 <= p < |y.ports| ==>
      Jobs(y.ports[p].done) == Taken(y.ports[p]) && y.ports[p].rsps == Whole(y.ports[p].done)
  {
    forall p | 0 <= p < |y.ports|
      ensures Jobs(y.ports[p].done) == Taken(y.ports[p]) && y.ports[p].rsps == Whole(y.ports[p].done)
    {
      assert PortOk(y, p);
      assert Jobs([]) == multiset{};
    }
  }
}
