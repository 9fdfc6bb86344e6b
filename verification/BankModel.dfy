/** The banked memory model: ports that share the queues of 1024 memory banks and of the host
    interface.  Every port retires requests only from the back of its own list, and only when the
    request is at the front of its bank's queue.  Times are in picoseconds. */
module BankModel {

  import opened Wrappers
  import opened Responses

  const BANK_CNT: nat := 1024

  datatype Kind = Read | Write | SetBit63

  /** A request: `low` are the low three bits of its tag, `avl` is when its bank is done with it. */
  datatype Req = Req(id: nat, port: nat, kind: Kind, low: nat, host: bool, bank: nat, qwCnt: nat, start: nat, avl: nat)

  /** `rsps` and `done` record what was answered. */
  datatype Port = Port(
    newReq: Option<Req>, dataIdx: nat,
    hostReqs: seq<Req>, bankReqs: seq<Req>, busy: seq<Req>,
    rdIdx: nat, wrIdx: nat,
    rsps: seq<Rsp>, done: seq<Req>)

  datatype Sys = Sys(now: nat, seqNum: nat, banks: seq<seq<Req>>, ports: seq<Port>)

  /** What arrives at a port in one clock. */
  datatype Input = Nothing | Request(kind: Kind, low: nat, host: bool, addr: nat)

  datatype Step =
    | Tick(d: nat)
    | Clock(p: nat, hc1: bool, inp: Input, rdFull: bool, wrFull: bool)

  function BankOf(host: bool, addr: nat): nat {
    if host then BANK_CNT else (addr / 8) % BANK_CNT
  }

  /** How long a request waits before it is scheduled, and how long it keeps its bank busy. */
  function Delay(r: Req): nat { if r.host then 1515_000 else 606_000 }

  function BusyTime(r: Req): (t: nat)
    ensures t > 0
  {
    if r.host then (if r.low > 0 then 38_788 else 17_273)
    else (if r.low > 0 then 1212_000 else 151_000)
  }

  function Set(y: Sys, p: nat, q: Port): Sys
    requires p < |y.ports|
  {
    y.(ports := y.ports[p := q])
  }

  /** A request, or one more quadword of a write, comes in; complete requests are queued. */
  function Accept(y: Sys, p: nat, hc1: bool, inp: Input): Sys
    requires p < |y.ports|
  {
    var q := y.ports[p];
    if inp.Nothing? then y
    else
      var r := if q.newReq.Some? then q.newReq.value
               else Req(y.seqNum, p, inp.kind, inp.low, inp.host, BankOf(inp.host, inp.addr),
                        if hc1 then 1 else inp.low + 1, y.now, 0);
      var d := if q.newReq.Some? || inp.kind.Write? then q.dataIdx + 1 else q.dataIdx;
      var y1 := if q.newReq.Some? then y else y.(seqNum := y.seqNum + 1);
      if !r.kind.Write? || d == r.qwCnt then
        Set(y1, p, if r.host then q.(newReq := None, dataIdx := 0, hostReqs := q.hostReqs + [r])
                   else q.(newReq := None, dataIdx := 0, bankReqs := q.bankReqs + [r]))
      else Set(y1, p, q.(newReq := Some(r), dataIdx := d))
  }

  /** The order in which requests are retired: by time, then by bank. */
  predicate Before(a: Req, b: Req) {
    a.avl < b.avl || (a.avl == b.avl && a.bank < b.bank)
  }

  /** Where a request goes in its port's list, which is kept with the latest first. */
  function InsertPos(busy: seq<Req>, r: Req): (i: nat)
    ensures i <= |busy|
  {
    if busy == [] || Before(busy[0], r) then 0 else 1 + InsertPos(busy[1..], r)
  }

  function Inserted(busy: seq<Req>, r: Req): seq<Req> {
    var i := InsertPos(busy, r);
    busy[..i] + [r] + busy[i..]
  }

  function Max(a: nat, b: nat): nat { if a < b then b else a }

  /** The time at which the bank is done with `r`, behind all that it has to do already. */
  function AvlTime(que: seq<Req>, r: Req, now: nat): nat {
    if que == [] then now + BusyTime(r) else Max(que[|que| - 1].avl + BusyTime(r), now + BusyTime(r))
  }

  function Place(y: Sys, p: nat, q: Port, r: Req): Sys
    requires p < |y.ports| && r.bank < |y.banks|
  {
    var r1 := r.(avl := AvlTime(y.banks[r.bank], r, y.now));
    Set(y.(banks := y.banks[r.bank := y.banks[r.bank] + [r1]]), p, q.(busy := Inserted(q.busy, r1)))
  }

  predicate Aged(reqs: seq<Req>, now: nat) {
    reqs != [] && reqs[0].start + Delay(reqs[0]) <= now
  }

  /** At most one request that has waited long enough is given to its bank. */
  function Schedule(y: Sys, p: nat): Sys
    requires Shape(y) && p < |y.ports|
  {
    var q := y.ports[p];
    if Aged(q.hostReqs, y.now) then Place(y, p, q.(hostReqs := q.hostReqs[1..]), q.hostReqs[0])
    else if Aged(q.bankReqs, y.now) then Place(y, p, q.(bankReqs := q.bankReqs[1..]), q.bankReqs[0])
    else y
  }

  /** The request at the back of the port's list is at the front of its bank's queue, and done. */
  predicate Retiring(y: Sys, p: nat)
    requires Shape(y) && p < |y.ports|
  {
    var b := y.ports[p].busy;
    b != [] && y.banks[b[|b| - 1].bank] != [] && y.banks[b[|b| - 1].bank][0] == b[|b| - 1] && b[|b| - 1].avl <= y.now
  }

  /** One quadword of the request at the back, unless its responses are held up. */
  function Retire(y: Sys, p: nat, rdFull: bool, wrFull: bool): Sys
    requires Shape(y) && p < |y.ports|
  {
    var q := y.ports[p];
    if !Retiring(y, p) then y
    else
      var r := q.busy[|q.busy| - 1];
      if if r.kind.Write? then wrFull else rdFull then y
      else
        var i := if r.kind.Write? then q.wrIdx else q.rdIdx;
        var q1 := q.(rsps := q.rsps + [Rsp(r.id, i)]);
        if i + 1 == r.qwCnt then
          Set(y.(banks := y.banks[r.bank := y.banks[r.bank][1..]]), p,
              (if r.kind.Write? then q1.(wrIdx := 0) else q1.(rdIdx := 0))
                .(busy := q.busy[..|q.busy| - 1], done := q.done + [r]))
        else Set(y, p, if r.kind.Write? then q1.(wrIdx := i + 1) else q1.(rdIdx := i + 1))
  }

  /** Where requests may lie at all. */
  predicate Shape(y: Sys) {
    && |y.banks| == BANK_CNT + 1
    && forall p :: 0 <= p < |y.ports| ==>
         && GoodReqs(y.ports[p].hostReqs, p) && GoodReqs(y.ports[p].bankReqs, p) && GoodReqs(y.ports[p].busy, p)
         && (y.ports[p].newReq.Some? ==> GoodReq(y.ports[p].newReq.value, p))
  }

  predicate GoodReqs(s: seq<Req>, p: nat) {
    forall i :: 0 <= i < |s| ==> GoodReq(s[i], p)
  }

  predicate GoodReq(r: Req, p: nat) {
    r.port == p && r.bank <= BANK_CNT && 1 <= r.qwCnt <= 8
  }

  predicate StepOk(y: Sys, s: Step) {
    s.Clock? ==> s.p < |y.ports| && (s.inp.Request? ==> s.inp.low < 8)
  }

  function Apply(y: Sys, s: Step): Sys
    requires Shape(y) && StepOk(y, s)
  {
    match s
    case Tick(d) => y.(now := y.now + d)
    case Clock(p, hc1, inp, rdFull, wrFull) =>
      var y1 := Accept(y, p, hc1, inp);
      AcceptShape(y, p, hc1, inp);
      ScheduleShape(y1, p);
      Retire(Schedule(y1, p), p, rdFull, wrFull)
  }

  lemma AcceptShape(y: Sys, p: nat, hc1: bool, inp: Input)
    requires Shape(y) && p < |y.ports| && (inp.Request? ==> inp.low < 8)
    ensures Shape(Accept(y, p, hc1, inp)) && |Accept(y, p, hc1, inp).ports| == |y.ports|
  {
  }

  lemma ScheduleShape(y: Sys, p: nat)
    requires Shape(y) && p < |y.ports|
    ensures Shape(Schedule(y, p)) && |Schedule(y, p).ports| == |y.ports|
  {
    hide InsertPos, AvlTime, BusyTime;
    var q := y.ports[p];
    if Aged(q.hostReqs, y.now) {
      PlaceShape(y, p, q.(hostReqs := q.hostReqs[1..]), q.hostReqs[0]);
    } else if Aged(q.bankReqs, y.now) {
      PlaceShape(y, p, q.(bankReqs := q.bankReqs[1..]), q.bankReqs[0]);
    }
  }

  lemma PlaceShape(y: Sys, p: nat, q: Port, r: Req)
    requires Shape(y) && p < |y.ports| && GoodReq(r, p)
    requires q == y.ports[p].(hostReqs := q.hostReqs, bankReqs := q.bankReqs)
    requires GoodReqs(q.hostReqs, p) && GoodReqs(q.bankReqs, p)
    ensures Shape(Place(y, p, q, r)) && |Place(y, p, q, r).ports| == |y.ports|
  {
    hide InsertPos, AvlTime, BusyTime;
  }

  // ------------------------------------------------------------------------------------------
  // The invariant
  // ------------------------------------------------------------------------------------------

  /** The queue of a bank holds its requests in strict order of time, each of them in the list of
      the port that it came from. */
  predicate BankOk(y: Sys, b: nat)
    requires Shape(y) && b <= BANK_CNT
  {
    && (forall i :: 0 <= i < |y.banks[b]| ==> BankReqOk(y, b, y.banks[b][i]))
    && (forall i, j :: 0 <= i < j < |y.banks[b]| ==> y.banks[b][i].avl < y.banks[b][j].avl)
  }

  predicate BankReqOk(y: Sys, b: nat, r: Req) {
    r.bank == b && r.port < |y.ports| && r in y.ports[r.port].busy
  }

  predicate Descending(busy: seq<Req>) {
    forall i, j :: 0 <= i < j < |busy| ==> Before(busy[j], busy[i])
  }

  predicate PortOk(y: Sys, p: nat)
    requires Shape(y) && p < |y.ports|
  {
    var q := y.ports[p];
    && Descending(q.busy)
    && (forall i :: 0 <= i < |q.busy| ==> q.busy[i] in y.banks[q.busy[i].bank])
    && (q.newReq.None? ==> q.dataIdx == 0)
    && (q.newReq.Some? ==> q.newReq.value.kind.Write? && 0 < q.dataIdx < q.newReq.value.qwCnt)
    && ServiceOk(q, y.now) && q.rsps == Answered(q)
  }

  /** A request that is being answered stays at the back until all its quadwords are done. */
  predicate ServiceOk(q: Port, now: nat) {
    && (q.rdIdx == 0 || q.wrIdx == 0)
    && (q.rdIdx + q.wrIdx > 0 ==>
          && q.busy != []
          && var r := q.busy[|q.busy| - 1];
             r.avl <= now && q.rdIdx + q.wrIdx < r.qwCnt && (r.kind.Write? <==> q.wrIdx > 0))
  }

  /** All quadwords of the requests `rs`, one request after the other, each numbered from zero. */
  function Whole(rs: seq<Req>): seq<Rsp> {
    if rs == [] then [] else Whole(rs[..|rs| - 1]) + Part(rs[|rs| - 1].id, rs[|rs| - 1].qwCnt)
  }

  function Answered(q: Port): seq<Rsp> {
    Whole(q.done) + if q.busy == [] then [] else Part(q.busy[|q.busy| - 1].id, q.rdIdx + q.wrIdx)
  }

  predicate Inv(y: Sys) {
    && Shape(y)
    && (forall b :: 0 <= b <= BANK_CNT ==> BankOk(y, b))
    && (forall p :: 0 <= p < |y.ports| ==> PortOk(y, p))
  }

  lemma {:induction false} InsertPosIs(busy: seq<Req>, r: Req)
    ensures var i := InsertPos(busy, r);
      && (forall k :: 0 <= k < i ==> !Before(busy[k], r))
      && (i < |busy| ==> Before(busy[i], r))
  {
    if busy != [] && !Before(busy[0], r) {
      InsertPosIs(busy[1..], r);
    }
  }

  lemma InsertIs(busy: seq<Req>, r: Req)
    ensures var i, s := InsertPos(busy, r), Inserted(busy, r);
      && |s| == |busy| + 1 && s[i] == r
      && (forall k :: 0 <= k < i ==> s[k] == busy[k])
      && (forall k :: i < k < |s| ==> s[k] == busy[k - 1])
      && (forall k :: i <= k < |busy| ==> s[k + 1] == busy[k])
  {
  }

  lemma InsertDescends(busy: seq<Req>, r: Req)
    requires Descending(busy) && (forall i :: 0 <= i < |busy| ==> busy[i].avl != r.avl || busy[i].bank != r.bank)
    ensures Descending(Inserted(busy, r))
    ensures busy != [] && busy[|busy| - 1].avl < r.avl ==> Inserted(busy, r)[|busy|] == busy[|busy| - 1]
  {
    hide Inserted, InsertPos;
    InsertPosIs(busy, r);
    InsertIs(busy, r);
    var i, s := InsertPos(busy, r), Inserted(busy, r);
    if i < |busy| {
      assert forall k :: i < k < |busy| ==> Before(busy[k], busy[i]);
    }
    forall a, b | 0 <= a < b < |s| ensures Before(s[b], s[a]) {
      var a', b' := if a < i then a else a - 1, if b < i then b else b - 1;
      if a != i && b != i {
        assert Before(busy[b'], busy[a']);
      }
    }
  }

  lemma InsertMembers(busy: seq<Req>, r: Req)
    ensures forall x :: x in Inserted(busy, r) <==> x == r || x in busy
  {
    var i := InsertPos(busy, r);
    assert busy == busy[..i] + busy[i..];
  }

  lemma AcceptKeeps(y: Sys, p: nat, hc1: bool, inp: Input)
    requires Inv(y) && p < |y.ports| && (inp.Request? ==> inp.low < 8)
    ensures Inv(Accept(y, p, hc1, inp))
  {
    AcceptShape(y, p, hc1, inp);
    AcceptSame(y, p, hc1, inp);
    hide Accept, Shape, Whole, Part;
    var z := Accept(y, p, hc1, inp);
    forall b | 0 <= b <= BANK_CNT ensures BankOk(z, b) {
      assert BankOk(y, b);
    }
    forall k | 0 <= k < |z.ports| ensures PortOk(z, k) {
      assert PortOk(y, k);
    }
  }

  lemma AcceptSame(y: Sys, p: nat, hc1: bool, inp: Input)
    requires Inv(y) && p < |y.ports| && (inp.Request? ==> inp.low < 8)
    ensures var z := Accept(y, p, hc1, inp);
      && z.banks == y.banks && z.now == y.now && |z.ports| == |y.ports|
      && (forall k :: 0 <= k < |y.ports| && k != p ==> z.ports[k] == y.ports[k])
      && (var q, q' := y.ports[p], z.ports[p];
          && q'.busy == q.busy && q'.rdIdx == q.rdIdx && q'.wrIdx == q.wrIdx && q'.rsps == q.rsps && q'.done == q.done
          && (q'.newReq.None? ==> q'.dataIdx == 0)
          && (q'.newReq.Some? ==> q'.newReq.value.kind.Write? && 0 < q'.dataIdx < q'.newReq.value.qwCnt))
  {
    assert PortOk(y, p);
  }

  lemma PlaceKeeps(y: Sys, p: nat, q: Port, r: Req)
    requires Inv(y) && p < |y.ports| && GoodReq(r, p)
    requires q == y.ports[p].(hostReqs := q.hostReqs, bankReqs := q.bankReqs)
    requires Shape(Place(y, p, q, r))
    ensures Inv(Place(y, p, q, r))
  {
    var r1 := r.(avl := AvlTime(y.banks[r.bank], r, y.now));
    var z := Place(y, p, q, r);
    assert PortOk(y, p) && BankOk(y, r.bank);
    PlacePort(y, p, q, r);
    LaterThanAll(y.banks[r.bank], r, y.now);
    hide Inserted, InsertPos, Shape, PortOk, BankOk, AvlTime;
    InsertMembers(q.busy, r1);
    assert forall k :: 0 <= k < |y.ports| ==> forall x <- y.ports[k].busy :: x in z.ports[k].busy;
    PlaceBanks(y, z, r1);
    forall k | 0 <= k < |z.ports| ensures PortOk(z, k) {
      assert PortOk(y, k);
      if k != p {
        PlaceOther(y, z, k, r1);
      }
    }
  }

  lemma PlaceOther(y: Sys, z: Sys, k: nat, r: Req)
    requires Shape(y) && Shape(z) && k < |y.ports| == |z.ports| && PortOk(y, k) && z.ports[k] == y.ports[k] && z.now == y.now
    requires GoodReq(r, r.port) && z.banks == y.banks[r.bank := y.banks[r.bank] + [r]]
    ensures PortOk(z, k)
  {
    hide Whole, Part;
    BusyInBanks(y, k);
  }

  lemma PlacePort(y: Sys, p: nat, q: Port, r: Req)
    requires Shape(y) && p < |y.ports| && GoodReq(r, p) && PortOk(y, p) && BankOk(y, r.bank)
    requires q == y.ports[p].(hostReqs := q.hostReqs, bankReqs := q.bankReqs)
    requires Shape(Place(y, p, q, r))
    ensures PortOk(Place(y, p, q, r), p)
  {
    var r1 := r.(avl := AvlTime(y.banks[r.bank], r, y.now));
    LaterThanAll(y.banks[r.bank], r, y.now);
    BusyInBanks(y, p);
    hide Inserted, InsertPos, Whole, Part, Shape, AvlTime;
    assert forall i :: 0 <= i < |q.busy| ==> q.busy[i].avl != r1.avl || q.busy[i].bank != r1.bank;
    InsertDescends(q.busy, r1);
    PlacedIn(q.busy, r1, y.banks);
    PlaceService(y.ports[p], q, r1, y.now);
    hide Descending, ServiceOk, Answered;
  }

  /** A new request does not get behind one that is being answered. */
  lemma PlaceService(q0: Port, q: Port, r: Req, now: nat)
    requires ServiceOk(q0, now) && q0.rsps == Answered(q0) && now < r.avl && Descending(q0.busy)
    requires q == q0.(hostReqs := q.hostReqs, bankReqs := q.bankReqs)
    requires forall i :: 0 <= i < |q.busy| ==> q.busy[i].avl != r.avl || q.busy[i].bank != r.bank
    ensures var z := q.(busy := Inserted(q.busy, r)); ServiceOk(z, now) && z.rsps == Answered(z)
  {
    hide Inserted, Whole, Part;
    InsertDescends(q.busy, r);
    InsertIs(q.busy, r);
    var z := q.(busy := Inserted(q.busy, r));
    if q.rdIdx + q.wrIdx == 0 {
      assert Part(z.busy[|z.busy| - 1].id, 0) == [];
    }
  }

  lemma BusyInBanks(y: Sys, p: nat)
    requires Shape(y) && p < |y.ports| && PortOk(y, p)
    ensures forall i :: 0 <= i < |y.ports[p].busy| ==>
              y.ports[p].busy[i].bank < |y.banks| && y.ports[p].busy[i] in y.banks[y.ports[p].busy[i].bank]
  {
    assert forall i :: 0 <= i < |y.ports[p].busy| ==> GoodReq(y.ports[p].busy[i], p);
  }

  lemma PlacedIn(busy: seq<Req>, r: Req, banks: seq<seq<Req>>)
    requires r.bank < |banks|
    requires forall i :: 0 <= i < |busy| ==> busy[i].bank < |banks| && busy[i] in banks[busy[i].bank]
    ensures var s, z := Inserted(busy, r), banks[r.bank := banks[r.bank] + [r]];
            forall i :: 0 <= i < |s| ==> s[i].bank < |banks| && s[i] in z[s[i].bank]
  {
    hide Inserted, InsertPos;
    var s, z := Inserted(busy, r), banks[r.bank := banks[r.bank] + [r]];
    InsertMembers(busy, r);
    forall i | 0 <= i < |s| ensures s[i].bank < |banks| && s[i] in z[s[i].bank] {
      assert s[i] in s;
      if s[i] == r {
        assert z[r.bank][|banks[r.bank]|] == r;
      } else {
        var j :| 0 <= j < |busy| && busy[j] == s[i];
      }
    }
  }

  lemma LaterThanAll(que: seq<Req>, r: Req, now: nat)
    requires forall i, j :: 0 <= i < j < |que| ==> que[i].avl < que[j].avl
    ensures forall i :: 0 <= i < |que| ==> que[i].avl < AvlTime(que, r, now)
    ensures forall x <- que :: x.avl < AvlTime(que, r, now)
    ensures now < AvlTime(que, r, now)
  {
    forall i | 0 <= i < |que| ensures que[i].avl < AvlTime(que, r, now) {
      if i < |que| - 1 {
        assert que[i].avl < que[|que| - 1].avl;
      }
    }
  }

  lemma PlaceBanks(y: Sys, z: Sys, r: Req)
    requires Inv(y) && Shape(z) && |z.ports| == |y.ports| && GoodReq(r, r.port) && r.port < |y.ports|
    requires z.banks == y.banks[r.bank := y.banks[r.bank] + [r]]
    requires forall i :: 0 <= i < |y.banks[r.bank]| ==> y.banks[r.bank][i].avl < r.avl
    requires r in z.ports[r.port].busy
    requires forall k :: 0 <= k < |y.ports| ==> forall x <- y.ports[k].busy :: x in z.ports[k].busy
    ensures forall b :: 0 <= b <= BANK_CNT ==> BankOk(z, b)
  {
    forall b | 0 <= b <= BANK_CNT ensures BankOk(z, b) {
      assert BankOk(y, b);
    }
  }

  lemma ScheduleKeeps(y: Sys, p: nat)
    requires Inv(y) && p < |y.ports|
    ensures Inv(Schedule(y, p))
  {
    ScheduleShape(y, p);
    hide Inv, Place;
    var q := y.ports[p];
    if Aged(q.hostReqs, y.now) {
      InvShape(y);
      PlaceKeeps(y, p, q.(hostReqs := q.hostReqs[1..]), q.hostReqs[0]);
    } else if Aged(q.bankReqs, y.now) {
      InvShape(y);
      PlaceKeeps(y, p, q.(bankReqs := q.bankReqs[1..]), q.bankReqs[0]);
    }
  }

  lemma InvShape(y: Sys)
    requires Inv(y)
    ensures Shape(y)
  {
  }

  lemma WholeMore(rs: seq<Req>, r: Req)
    ensures Whole(rs + [r]) == Whole(rs) + Part(r.id, r.qwCnt)
  {
    assert (rs + [r])[..|rs|] == rs;
  }

  lemma InTail(s: seq<Req>, x: Req)
    requires x in s && x != s[0]
    ensures x in s[1..]
  {
    assert s == [s[0]] + s[1..];
  }

  lemma InFront(s: seq<Req>, x: Req)
    requires x in s && x != s[|s| - 1]
    ensures x in s[..|s| - 1]
  {
    assert s == s[..|s| - 1] + [s[|s| - 1]];
  }

  /** The port after one quadword of its last request. */
  lemma AnswerOne(q: Port, now: nat)
    requires ServiceOk(q, now) && q.rsps == Answered(q) && q.busy != [] && q.busy[|q.busy| - 1].avl <= now
    requires q.busy[|q.busy| - 1].qwCnt > 0
    ensures var r := q.busy[|q.busy| - 1];
            var i := if r.kind.Write? then q.wrIdx else q.rdIdx;
            var q1 := q.(rsps := q.rsps + [Rsp(r.id, i)]);
      && i < r.qwCnt && i == q.rdIdx + q.wrIdx
      && (i + 1 < r.qwCnt ==>
            var z := if r.kind.Write? then q1.(wrIdx := i + 1) else q1.(rdIdx := i + 1);
            ServiceOk(z, now) && z.rsps == Answered(z))
      && (i + 1 == r.qwCnt ==>
            var z := q1.(rdIdx := 0, wrIdx := 0, busy := q.busy[..|q.busy| - 1], done := q.done + [r]);
            ServiceOk(z, now) && z.rsps == Answered(z))
  {
    hide Whole, Part;
    var r := q.busy[|q.busy| - 1];
    var i := q.rdIdx + q.wrIdx;
    PartMore(r.id, i);
    WholeMore(q.done, r);
    assert Whole(q.done) + Part(r.id, i) + [Rsp(r.id, i)] == Whole(q.done) + (Part(r.id, i) + [Rsp(r.id, i)]);
    if |q.busy| > 1 {
      assert Part(q.busy[|q.busy| - 2].id, 0) == [];
    }
  }

  lemma RetireShape(y: Sys, p: nat, rdFull: bool, wrFull: bool)
    requires Shape(y) && p < |y.ports|
    ensures Shape(Retire(y, p, rdFull, wrFull)) && |Retire(y, p, rdFull, wrFull).ports| == |y.ports|
  {
  }

  /** The last request of port `p` leaves its bank's queue and its port's list. */
  lemma PopBanks(y: Sys, z: Sys, p: nat, r: Req)
    requires Inv(y) && Shape(z) && p < |y.ports| == |z.ports| && r.bank <= BANK_CNT
    requires y.banks[r.bank] != [] && y.banks[r.bank][0] == r
    requires z.banks == y.banks[r.bank := y.banks[r.bank][1..]]
    requires forall k :: 0 <= k < |y.ports| ==> forall x <- y.ports[k].busy :: x == r || x in z.ports[k].busy
    ensures forall b :: 0 <= b <= BANK_CNT ==> BankOk(z, b)
  {
    forall b | 0 <= b <= BANK_CNT ensures BankOk(z, b) {
      assert BankOk(y, b);
    }
  }

  lemma PopBusy(y: Sys, z: Sys, k: nat, r: Req)
    requires Shape(y) && Shape(z) && k < |y.ports| == |z.ports| && PortOk(y, k) && r.bank <= BANK_CNT
    requires y.banks[r.bank] != [] && y.banks[r.bank][0] == r
    requires z.banks == y.banks[r.bank := y.banks[r.bank][1..]]
    requires z.ports[k].busy <= y.ports[k].busy && r !in z.ports[k].busy
    ensures forall i :: 0 <= i < |z.ports[k].busy| ==>
              z.ports[k].busy[i].bank < |z.banks| && z.ports[k].busy[i] in z.banks[z.ports[k].busy[i].bank]
    ensures Descending(z.ports[k].busy)
  {
    BusyInBanks(y, k);
    forall i | 0 <= i < |z.ports[k].busy| ensures z.ports[k].busy[i] in z.banks[z.ports[k].busy[i].bank] {
      var x := y.ports[k].busy[i];
      assert z.ports[k].busy[i] == x;
      if x.bank == r.bank {
        assert x in z.ports[k].busy;
        InTail(y.banks[r.bank], x);
      }
    }
  }

  lemma LastOnly(busy: seq<Req>)
    requires Descending(busy) && busy != []
    ensures busy[|busy| - 1] !in busy[..|busy| - 1] && busy[..|busy| - 1] <= busy
    ensures forall x <- busy :: x == busy[|busy| - 1] || x in busy[..|busy| - 1]
  {
    forall x | x in busy && x != busy[|busy| - 1] ensures x in busy[..|busy| - 1] {
      InFront(busy, x);
    }
  }

  lemma NotElsewhere(y: Sys, k: nat, r: Req)
    requires Shape(y) && k < |y.ports| && r.port != k
    ensures r !in y.ports[k].busy
  {
    assert forall i :: 0 <= i < |y.ports[k].busy| ==> GoodReq(y.ports[k].busy[i], k);
  }

  lemma RetireKeeps(y: Sys, p: nat, rdFull: bool, wrFull: bool)
    requires Inv(y) && p < |y.ports|
    ensures Inv(Retire(y, p, rdFull, wrFull))
  {
    hide Whole, Part, Answered;
    RetireShape(y, p, rdFull, wrFull);
    var z := Retire(y, p, rdFull, wrFull);
    var q := y.ports[p];
    if z == y {
      return;
    }
    assert PortOk(y, p);
    var r := q.busy[|q.busy| - 1];
    assert GoodReq(q.busy[|q.busy| - 1], p);
    AnswerOne(q, y.now);
    LastOnly(q.busy);
    if q.rdIdx + q.wrIdx + 1 < r.qwCnt {
      AnswerKeeps(y, z, p);
    } else {
      assert z.ports[p].busy == q.busy[..|q.busy| - 1];
      RetireLast(y, z, p, r);
    }
  }

  lemma AnswerKeeps(y: Sys, z: Sys, p: nat)
    requires Inv(y) && Shape(z) && p < |y.ports| == |z.ports| && z == y.(ports := y.ports[p := z.ports[p]])
    requires z.ports[p] == y.ports[p].(rdIdx := z.ports[p].rdIdx, wrIdx := z.ports[p].wrIdx, rsps := z.ports[p].rsps)
    requires ServiceOk(z.ports[p], z.now) && z.ports[p].rsps == Answered(z.ports[p])
    ensures Inv(z)
  {
    hide Whole, Part;
    assert PortOk(y, p);
    assert forall k :: 0 <= k < |y.ports| ==> z.ports[k].busy == y.ports[k].busy;
    forall b | 0 <= b <= BANK_CNT ensures BankOk(z, b) {
      assert BankOk(y, b);
      forall i | 0 <= i < |z.banks[b]| ensures BankReqOk(z, b, z.banks[b][i]) {
        assert BankReqOk(y, b, y.banks[b][i]);
      }
    }
    forall k | 0 <= k < |z.ports| ensures PortOk(z, k) {
      assert PortOk(y, k);
    }
  }

  lemma RetireLast(y: Sys, z: Sys, p: nat, r: Req)
    requires Inv(y) && Shape(z) && p < |y.ports| == |z.ports| && r.bank <= BANK_CNT && r.port == p
    requires y.banks[r.bank] != [] && y.banks[r.bank][0] == r
    requires z.now == y.now && z.banks == y.banks[r.bank := y.banks[r.bank][1..]]
    requires forall k :: 0 <= k < |y.ports| && k != p ==> z.ports[k] == y.ports[k]
    requires z.ports[p].newReq == y.ports[p].newReq && z.ports[p].dataIdx == y.ports[p].dataIdx
    requires z.ports[p].busy <= y.ports[p].busy && r !in z.ports[p].busy
    requires forall x <- y.ports[p].busy :: x == r || x in z.ports[p].busy
    requires ServiceOk(z.ports[p], z.now) && z.ports[p].rsps == Answered(z.ports[p])
    ensures Inv(z)
  {
    PopBanks(y, z, p, r);
    forall k | 0 <= k < |z.ports| ensures PortOk(z, k) {
      assert PortOk(y, k);
      if k != p {
        NotElsewhere(y, k, r);
      }
      hide Shape, Whole, Part;
      PopBusy(y, z, k, r);
    }
  }

  // ------------------------------------------------------------------------------------------
  // Runs
  // ------------------------------------------------------------------------------------------

  predicate Start(y: Sys) {
    && |y.banks| == BANK_CNT + 1
    && (forall b :: 0 <= b <= BANK_CNT ==> y.banks[b] == [])
    && (forall p :: 0 <= p < |y.ports| ==> y.ports[p] == Port(None, 0, [], [], [], 0, 0, [], []))
  }

  lemma StartInv(y: Sys)
    requires Start(y)
    ensures Inv(y)
  {
  }

  lemma StepKeeps(y: Sys, s: Step)
    requires Inv(y) && StepOk(y, s)
    ensures Inv(Apply(y, s)) && |Apply(y, s).ports| == |y.ports|
  {
    match s
    case Tick(d) =>
      TickKeeps(y, d);
    case Clock(p, hc1, inp, rdFull, wrFull) =>
      hide Inv, Accept, Schedule, Retire, Shape;
      InvShape(y);
      AcceptShape(y, p, hc1, inp);
      AcceptKeeps(y, p, hc1, inp);
      var y1 := Accept(y, p, hc1, inp);
      ScheduleShape(y1, p);
      ScheduleKeeps(y1, p);
      var y2 := Schedule(y1, p);
      RetireShape(y2, p, rdFull, wrFull);
      RetireKeeps(y2, p, rdFull, wrFull);
  }

  lemma TickKeeps(y: Sys, d: nat)
    requires Inv(y)
    ensures Inv(y.(now := y.now + d))
  {
    hide Whole, Part;
    var z := y.(now := y.now + d);
    SameShape(y, d);
    forall b | 0 <= b <= BANK_CNT ensures BankOk(z, b) {
      assert BankOk(y, b);
    }
    forall k | 0 <= k < |z.ports| ensures PortOk(z, k) {
      assert PortOk(y, k);
    }
  }

  lemma SameShape(y: Sys, d: nat)
    requires Shape(y)
    ensures Shape(y.(now := y.now + d))
  {
  }

  predicate IsRun(y: Sys, ts: seq<Step>)
    requires Shape(y)
    decreases |ts|
  {
    ts == [] || (StepOk(y, ts[0]) && Shape(Apply(y, ts[0])) && IsRun(Apply(y, ts[0]), ts[1..]))
  }

  function After(y: Sys, ts: seq<Step>): Sys
    requires Shape(y) && IsRun(y, ts)
    decreases |ts|
  {
    if ts == [] then y else After(Apply(y, ts[0]), ts[1..])
  }

  lemma {:induction false} RunKeeps(y: Sys, ts: seq<Step>)
    requires Inv(y) && IsRun(y, ts)
    ensures Inv(After(y, ts)) && |After(y, ts).ports| == |y.ports|
    decreases |ts|
  {
    hide Inv, Apply, StepOk;
    if ts != [] {
      InvShape(y);
      StepKeeps(y, ts[0]);
      RunKeeps(Apply(y, ts[0]), ts[1..]);
    }
  }

  // ------------------------------------------------------------------------------------------
  // No circular wait
  // ------------------------------------------------------------------------------------------

  predicate AnyBusy(y: Sys) {
    exists p :: 0 <= p < |y.ports| && y.ports[p].busy != []
  }

  function Last(busy: seq<Req>): Req
    requires busy != []
  {
    busy[|busy| - 1]
  }

  /** No port has an earlier request at the back of its list than port `p`. */
  predicate Earliest(y: Sys, p: nat) {
    && p < |y.ports| && y.ports[p].busy != []
    && forall k :: 0 <= k < |y.ports| && y.ports[k].busy != [] ==> !Before(Last(y.ports[k].busy), Last(y.ports[p].busy))
  }

  lemma {:induction false} FindEarliest(y: Sys, n: nat) returns (p: nat)
    requires n <= |y.ports| && exists k :: 0 <= k < n && y.ports[k].busy != []
    ensures p < n && y.ports[p].busy != []
    ensures n == |y.ports| ==> Earliest(y, p)
    ensures forall k :: 0 <= k < n && y.ports[k].busy != [] ==> !Before(Last(y.ports[k].busy), Last(y.ports[p].busy))
  {
    if exists k :: 0 <= k < n - 1 && y.ports[k].busy != [] {
      p := FindEarliest(y, n - 1);
      if y.ports[n - 1].busy != [] && Before(Last(y.ports[n - 1].busy), Last(y.ports[p].busy)) {
        p := n - 1;
      }
    } else {
      p := n - 1;
    }
  }

  lemma LastEarliest(busy: seq<Req>, x: Req)
    requires Descending(busy) && x in busy
    ensures x == Last(busy) || Before(Last(busy), x)
  {
    var i :| 0 <= i < |busy| && busy[i] == x;
    if i < |busy| - 1 {
      assert Before(busy[|busy| - 1], busy[i]);
    }
  }

  /** The earliest of all scheduled requests is at the back of its port's list and at the front of
      its bank's queue: its port is not waiting for any other port. */
  lemma EarliestIsFirst(y: Sys, p: nat)
    requires Inv(y) && Earliest(y, p)
    ensures var r := Last(y.ports[p].busy);
      && r.bank <= BANK_CNT && y.banks[r.bank] != [] && y.banks[r.bank][0] == r
      && forall k :: 0 <= k < |y.ports| ==> forall x <- y.ports[k].busy :: x == r || Before(r, x)
  {
    var r := Last(y.ports[p].busy);
    assert PortOk(y, p);
    BusyInBanks(y, p);
    assert BankOk(y, r.bank);
    var f := y.banks[r.bank][0];
    assert BankReqOk(y, r.bank, f);
    var i :| 0 <= i < |y.banks[r.bank]| && y.banks[r.bank][i] == r;
    assert PortOk(y, f.port);
    LastEarliest(y.ports[f.port].busy, f);
    forall k | 0 <= k < |y.ports| ensures forall x <- y.ports[k].busy :: x == r || Before(r, x) {
      assert PortOk(y, k);
      forall x | x in y.ports[k].busy ensures x == r || Before(r, x) {
        LastEarliest(y.ports[k].busy, x);
        assert BankReqOk(y, x.bank, x) by { ScheduledInBank(y, k, x); }
        if !Before(r, x) && x != r {
          SameSlot(y, r, x);
        }
      }
    }
  }

  lemma ScheduledInBank(y: Sys, k: nat, x: Req)
    requires Inv(y) && k < |y.ports| && x in y.ports[k].busy
    ensures x.bank <= BANK_CNT && x.port == k && x in y.banks[x.bank] && BankReqOk(y, x.bank, x)
  {
    assert PortOk(y, k);
    BusyInBanks(y, k);
    var i :| 0 <= i < |y.ports[k].busy| && y.ports[k].busy[i] == x;
    assert GoodReq(y.ports[k].busy[i], k);
  }

  /** Two scheduled requests with the same bank and time are one. */
  lemma SameSlot(y: Sys, r: Req, x: Req)
    requires Inv(y) && r.bank == x.bank <= BANK_CNT && r.avl == x.avl
    requires r in y.banks[r.bank] && x in y.banks[x.bank]
    ensures r == x
  {
    assert BankOk(y, r.bank);
    var que := y.banks[r.bank];
    var i :| 0 <= i < |que| && que[i] == r;
    var j :| 0 <= j < |que| && que[j] == x;
  }

  /** In every reachable state with a scheduled request some port can retire as soon as its
      request's time has come, whatever the other ports do. */
  lemma NoCircularWait(y0: Sys, ts: seq<Step>, d: nat) returns (p: nat)
    requires Start(y0) && IsRun(y0, ts) && AnyBusy(After(y0, ts))
    ensures var y := After(y0, ts);
      && Inv(y) && Earliest(y, p) && Shape(y.(now := y.now + d))
      && (Last(y.ports[p].busy).avl <= y.now + d ==> Retiring(y.(now := y.now + d), p))
  {
    StartInv(y0);
    RunKeeps(y0, ts);
    var y := After(y0, ts);
    p := FindEarliest(y, |y.ports|);
    EarliestIsFirst(y, p);
    SameShape(y, d);
  }
}
