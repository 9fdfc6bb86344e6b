/** Whole runs of the banked memory model, said of what goes into a port and what comes out of it: which
    requests wait, in which order and for which bank, and that just these are answered. */
module BankArrivals {
  import opened Wrappers
  import opened Responses
  import opened Arrivals
  import opened BankModel
  import opened BankDrain

  // ------------------------------------------------------------------------------------------
  // What goes in
  // ------------------------------------------------------------------------------------------

  /** What an input says, when it comes, and the number that the next request gets. */
  datatype Note = Note(kind: Kind, low: nat, host: bool, addr: nat, now: nat, num: nat)

  /** The input of a clock, with as many quadwords as its low bits say, but one on the hc1 platforms. */
  function InputOf(y: Sys, hc1: bool, inp: Input): In<Note>
    requires inp.Request?
  {
    In(inp.kind.Write?, if hc1 then 1 else 1 + inp.low, Note(inp.kind, inp.low, inp.host, inp.addr, y.now, y.seqNum))
  }

  function StepInput(y: Sys, s: Step, p: nat): seq<In<Note>> {
    if s.Clock? && s.p == p && s.inp.Request? then [InputOf(y, s.hc1, s.inp)] else []
  }

  /** What comes in at port `p` during a run. */
  function Inputs(y: Sys, ts: seq<Step>, p: nat): seq<In<Note>>
    requires Shape(y) && IsRun(y, ts)
    decreases |ts|
  {
    if ts == [] then [] else StepInput(y, ts[0], p) + Inputs(Apply(y, ts[0]), ts[1..], p)
  }

  /** The request that an input begins: for the host, or for the bank that its quadword lies in, of which
      there are 1024 in turn. */
  function Wanted(i: In<Note>, p: nat): Req {
    Req(i.tag.num, p, i.tag.kind, i.tag.low, i.tag.host, if i.tag.host then 1024 else (i.tag.addr / 8) % 1024,
        i.n, i.tag.now, 0)
  }

  function AllWanted(os: seq<In<Note>>, p: nat): (r: seq<Req>)
    ensures |r| == |os|
  {
    seq(|os|, k requires 0 <= k < |os| => Wanted(os[k], p))
  }

  /** The requests that are complete with these inputs, in the order of their last inputs. */
  function Arriving(ins: seq<In<Note>>, p: nat): seq<Req> { AllWanted(Orders(ins), p) }

  /** Those for the host, or those for the coprocessor. */
  function Only(rs: seq<Req>, host: bool): seq<Req> {
    if rs == [] then [] else (if rs[0].host == host then [rs[0]] else []) + Only(rs[1..], host)
  }

  lemma {:induction false} OnlyMore(rs: seq<Req>, r: Req, host: bool)
    ensures Only(rs + [r], host) == Only(rs, host) + (if r.host == host then [r] else [])
  {
    if rs == [] {
      assert rs + [r] == [r] && [r][1..] == [];
    } else {
      OnlyFirst(rs, host);
      OnlyFirst(rs + [r], host);
      hide Only;
      assert (rs + [r])[0] == rs[0] && (rs + [r])[1..] == rs[1..] + [r];
      OnlyMore(rs[1..], r, host);
    }
  }

  lemma OnlyFirst(rs: seq<Req>, host: bool)
    requires rs != []
    ensures Only(rs, host) == if rs[0].host == host then [rs[0]] + Only(rs[1..], host) else Only(rs[1..], host)
  {
    assert [] + Only(rs[1..], host) == Only(rs[1..], host);
  }

  // ------------------------------------------------------------------------------------------
  // What the port holds of it
  // ------------------------------------------------------------------------------------------

  /** The write that is not complete, with inputs `b`, is the one being collected. */
  predicate Collecting(q: Port, b: seq<In<Note>>, p: nat) {
    if b == [] then q.newReq.None? && q.dataIdx == 0 else q.newReq == Some(Wanted(b[0], p)) && q.dataIdx == |b|
  }

  /** The last of the requests, in order. */
  predicate LastOf(q: seq<Req>, a: seq<Req>) { |q| <= |a| && q == a[|a| - |q|..] }

  /** The inputs `ins` were taken in, and the requests that they make wait in their order. */
  predicate Collected(q: Port, ins: seq<In<Note>>, p: nat) {
    && Collecting(q, Begun(ins), p)
    && LastOf(q.hostReqs, Only(Arriving(ins, p), true)) && LastOf(q.bankReqs, Only(Arriving(ins, p), false))
    && Taken(q) == multiset(Arriving(ins, p))
  }

  /** What one more input does to the request that is being collected. */
  lemma AcceptCases(y: Sys, p: nat, hc1: bool, inp: Input, b: seq<In<Note>>)
    requires p < |y.ports| && inp.Request? && (b != [] ==> b[0].write && |b| < b[0].n && b[0].tag.kind.Write?)
    requires Collecting(y.ports[p], b, p)
    ensures var (x, q, z) := (InputOf(y, hc1, inp), y.ports[p], Accept(y, p, hc1, inp));
      var r := if b == [] then Wanted(x, p) else Wanted(b[0], p);
      && z == y.(seqNum := if b == [] then y.seqNum + 1 else y.seqNum, ports := y.ports[p := z.ports[p]])
      && z.ports[p] ==
           if (b == [] && (!x.write || x.n <= 1)) || (b != [] && |b| + 1 == b[0].n) then
             q.(newReq := None, dataIdx := 0, hostReqs := if r.host then q.hostReqs + [r] else q.hostReqs,
                bankReqs := if r.host then q.bankReqs else q.bankReqs + [r])
           else q.(newReq := Some(r), dataIdx := |b| + 1)
  {
  }

  lemma {:induction false} BegunIsWrite(ins: seq<In<Note>>)
    requires forall k :: 0 <= k < |ins| ==> (ins[k].write <==> ins[k].tag.kind.Write?)
    ensures Begun(ins) != [] ==> Begun(ins)[0].tag.kind.Write?
    decreases |ins|
  {
    if ins != [] {
      if !ins[0].write || ins[0].n <= 1 {
        BegunIsWrite(ins[1..]);
      } else if |ins| >= ins[0].n {
        BegunIsWrite(ins[ins[0].n..]);
      }
    }
  }

  predicate AllInputs(ins: seq<In<Note>>) {
    forall k :: 0 <= k < |ins| ==> (ins[k].write <==> ins[k].tag.kind.Write?)
  }

  /** The requests that become complete with one more input. */
  lemma AcceptAdds(y: Sys, p: nat, hc1: bool, inp: Input, ins: seq<In<Note>>) returns (r: seq<Req>)
    requires p < |y.ports| && inp.Request? && AllInputs(ins) && Collecting(y.ports[p], Begun(ins), p)
    ensures var (more, q, z) := (ins + [InputOf(y, hc1, inp)], y.ports[p], Accept(y, p, hc1, inp));
      && AllInputs(more) && |z.ports| == |y.ports| && Collecting(z.ports[p], Begun(more), p)
      && Arriving(more, p) == Arriving(ins, p) + r && |r| <= 1 && (r != [] ==> r[0].avl == 0)
      && z.ports[p] == q.(newReq := z.ports[p].newReq, dataIdx := z.ports[p].dataIdx,
                          hostReqs := q.hostReqs + (if r != [] && r[0].host then r else []),
                          bankReqs := q.bankReqs + (if r != [] && !r[0].host then r else []))
  {
    var b, x := Begun(ins), InputOf(y, hc1, inp);
    BegunIsWrite(ins);
    AcceptCases(y, p, hc1, inp, b);
    OneMoreInput(ins, x);
    NoneMore(y.ports[p].hostReqs, y.ports[p].bankReqs);
    NoneMore(Arriving(ins, p), []);
    hide Accept, Begun;
    var i := if b == [] then x else b[0];
    if Orders(ins + [x]) == Orders(ins) {
      r := [];
    } else {
      r := [Wanted(i, p)];
      WantedMore(Orders(ins), i, p);
    }
  }

  lemma WantedMore(os: seq<In<Note>>, i: In<Note>, p: nat)
    ensures AllWanted(os + [i], p) == AllWanted(os, p) + [Wanted(i, p)]
  {
  }

  lemma JobIs(r: Req)
    requires r.avl == 0
    ensures Job(r) == r && Jobs([r]) == multiset{r} && Jobs([]) == multiset{}
  {
    JobsOne(r);
  }

  lemma AcceptCollects(y: Sys, p: nat, hc1: bool, inp: Input, ins: seq<In<Note>>)
    requires p < |y.ports| && AllInputs(ins) && Collected(y.ports[p], ins, p)
    ensures var (more, z) := (ins + StepInput(y, Clock(p, hc1, inp, false, false), p), Accept(y, p, hc1, inp));
      |z.ports| == |y.ports| && AllInputs(more) && Collected(z.ports[p], more, p)
  {
    if inp.Request? {
      hide Accept, Collecting, Begun, Arriving, AllInputs, InputOf, Only, Jobs, LastOf, Taken;
      var r := AcceptAdds(y, p, hc1, inp, ins);
      QueuesMore(y.ports[p], Accept(y, p, hc1, inp).ports[p], Arriving(ins, p), r);
    } else {
      assert ins + [] == ins;
    }
  }

  /** One more request at most waits behind the others of its kind. */
  lemma QueuesMore(q: Port, z: Port, a: seq<Req>, r: seq<Req>)
    requires LastOf(q.hostReqs, Only(a, true)) && LastOf(q.bankReqs, Only(a, false)) && Taken(q) == multiset(a)
    requires |r| <= 1 && (r != [] ==> r[0].avl == 0) && z.busy == q.busy && z.done == q.done
    requires z.hostReqs == q.hostReqs + (if r != [] && r[0].host then r else [])
    requires z.bankReqs == q.bankReqs + (if r != [] && !r[0].host then r else [])
    ensures LastOf(z.hostReqs, Only(a + r, true)) && LastOf(z.bankReqs, Only(a + r, false)) && Taken(z) == multiset(a + r)
  {
    hide Only, LastOf, Taken, Jobs;
    if r == [] {
      NoneMore(q.hostReqs, a);
      NoneMore(q.bankReqs, a);
      SameTaken(q, z);
    } else {
      assert r == [r[0]];
      NoneMore(q.hostReqs, q.bankReqs);
      NoneMore(Only(a, true), Only(a, false));
      OnlyMore(a, r[0], true);
      OnlyMore(a, r[0], false);
      LastMore(Only(a, r[0].host), if r[0].host then q.hostReqs else q.bankReqs, r[0]);
      OneTaken(q, z, a, r[0]);
    }
  }

  lemma SameTaken(q: Port, z: Port)
    requires z.hostReqs == q.hostReqs && z.bankReqs == q.bankReqs && z.busy == q.busy && z.done == q.done
    ensures Taken(z) == Taken(q)
  {
  }

  lemma OneTaken(q: Port, z: Port, a: seq<Req>, r: Req)
    requires Taken(q) == multiset(a) && z.busy == q.busy && z.done == q.done && r.avl == 0
    requires if r.host then z.hostReqs == q.hostReqs + [r] && z.bankReqs == q.bankReqs
             else z.bankReqs == q.bankReqs + [r] && z.hostReqs == q.hostReqs
    ensures Taken(z) == multiset(a + [r])
  {
    hide Jobs;
    JobIs(r);
    JobsAppend(q.hostReqs, [r]);
    JobsAppend(q.bankReqs, [r]);
    assert multiset(a + [r]) == multiset(a) + multiset{r};
  }

  lemma NoneMore(q: seq<Req>, a: seq<Req>)
    ensures q + [] == q && a + [] == a
  {
  }

  lemma LastMore(a: seq<Req>, q: seq<Req>, r: Req)
    requires LastOf(q, a)
    ensures LastOf(q + [r], a + [r])
  {
  }

  lemma LastLess(a: seq<Req>, q: seq<Req>)
    requires LastOf(q, a)
    ensures q != [] ==> LastOf(q[1..], a)
  {
  }

  /** The rest of a clock. */
  lemma ScheduleCollects(y: Sys, p: nat, ins: seq<In<Note>>)
    requires Inv(y) && p < |y.ports| && Collected(y.ports[p], ins, p)
    ensures Shape(Schedule(y, p)) && |Schedule(y, p).ports| == |y.ports| && Collected(Schedule(y, p).ports[p], ins, p)
  {
    hide Inv, Collecting, Begun, Arriving, Only, Taken, LastOf, LeftOf;
    InvShape(y);
    ScheduleShape(y, p);
    ScheduleMoves(y, p);
    LastLess(Only(Arriving(ins, p), true), y.ports[p].hostReqs);
    LastLess(Only(Arriving(ins, p), false), y.ports[p].bankReqs);
    ScheduleRest(y, p);
    SameCollecting(y.ports[p], Schedule(y, p).ports[p], Begun(ins), p);
  }

  lemma ScheduleRest(y: Sys, p: nat)
    requires Shape(y) && p < |y.ports|
    ensures var (q, z) := (y.ports[p], Schedule(y, p).ports[p]);
      && z.newReq == q.newReq && z.dataIdx == q.dataIdx
      && (z.hostReqs == q.hostReqs || (q.hostReqs != [] && z.hostReqs == q.hostReqs[1..]))
      && (z.bankReqs == q.bankReqs || (q.bankReqs != [] && z.bankReqs == q.bankReqs[1..]))
  {
    hide Inserted, AvlTime;
    var q := y.ports[p];
    if q.hostReqs != [] { assert GoodReq(q.hostReqs[0], p); }
    if q.bankReqs != [] { assert GoodReq(q.bankReqs[0], p); }
  }

  lemma SameCollecting(q: Port, z: Port, b: seq<In<Note>>, p: nat)
    requires Collecting(q, b, p) && z.newReq == q.newReq && z.dataIdx == q.dataIdx
    ensures Collecting(z, b, p)
  {
  }

  lemma RetireCollects(y: Sys, p: nat, rdFull: bool, wrFull: bool, ins: seq<In<Note>>)
    requires Inv(y) && p < |y.ports| && Collected(y.ports[p], ins, p)
    ensures Shape(y) && |Retire(y, p, rdFull, wrFull).ports| == |y.ports|
    ensures Collected(Retire(y, p, rdFull, wrFull).ports[p], ins, p)
  {
    InvShape(y);
    hide Inv, Collecting, Begun, Arriving, Only, Taken, LastOf, LeftOf;
    RetireMoves(y, p);
    RetireRest(y, p, rdFull, wrFull);
    SameCollecting(y.ports[p], Retire(y, p, rdFull, wrFull).ports[p], Begun(ins), p);
  }

  lemma RetireRest(y: Sys, p: nat, rdFull: bool, wrFull: bool)
    requires Shape(y) && p < |y.ports|
    ensures Retire(y, p, rdFull, wrFull) == y || Retire(y, p, rdFull, wrFull) == Retire(y, p, false, false)
    ensures var (q, z) := (y.ports[p], Retire(y, p, rdFull, wrFull).ports);
      |z| == |y.ports| && z[p].newReq == q.newReq && z[p].dataIdx == q.dataIdx
      && z[p].hostReqs == q.hostReqs && z[p].bankReqs == q.bankReqs
  {
  }

  lemma StepCollects(y: Sys, s: Step, p: nat, ins: seq<In<Note>>)
    requires Inv(y) && StepOk(y, s) && p < |y.ports| && AllInputs(ins) && Collected(y.ports[p], ins, p)
    ensures Shape(y) && |Apply(y, s).ports| == |y.ports|
    ensures AllInputs(ins + StepInput(y, s, p)) && Collected(Apply(y, s).ports[p], ins + StepInput(y, s, p), p)
  {
    hide Inv, Collected, AllInputs, Accept, Schedule, Retire, InputOf;
    InvShape(y);
    StepKeeps(y, s);
    if s.Clock? && s.p == p {
      AcceptShape(y, p, s.hc1, s.inp);
      AcceptKeeps(y, p, s.hc1, s.inp);
      AcceptCollects(y, p, s.hc1, s.inp, ins);
      var y1 := Accept(y, p, s.hc1, s.inp);
      assert StepInput(y, s, p) == StepInput(y, Clock(p, s.hc1, s.inp, false, false), p);
      ScheduleCollects(y1, p, ins + StepInput(y, s, p));
      ScheduleKeeps(y1, p);
      RetireCollects(Schedule(y1, p), p, s.rdFull, s.wrFull, ins + StepInput(y, s, p));
    } else {
      assert ins + StepInput(y, s, p) == ins;
      OtherPort(y, s, p);
    }
  }

  /** A clock of one port leaves the others alone. */
  lemma OtherPort(y: Sys, s: Step, p: nat)
    requires Shape(y) && StepOk(y, s) && p < |y.ports| && (s.Clock? ==> s.p != p)
    ensures |Apply(y, s).ports| == |y.ports| && Apply(y, s).ports[p] == y.ports[p]
  {
    if s.Clock? {
      AcceptShape(y, s.p, s.hc1, s.inp);
      ScheduleShape(Accept(y, s.p, s.hc1, s.inp), s.p);
      AcceptOther(y, s.p, s.hc1, s.inp, p);
      ScheduleOther(Accept(y, s.p, s.hc1, s.inp), s.p, p);
      RetireOther(Schedule(Accept(y, s.p, s.hc1, s.inp), s.p), s.p, s.rdFull, s.wrFull, p);
    }
  }

  lemma AcceptOther(y: Sys, k: nat, hc1: bool, inp: Input, p: nat)
    requires k < |y.ports| && p < |y.ports| && k != p
    ensures |Accept(y, k, hc1, inp).ports| == |y.ports| && Accept(y, k, hc1, inp).ports[p] == y.ports[p]
  {
  }

  lemma ScheduleOther(y: Sys, k: nat, p: nat)
    requires Shape(y) && k < |y.ports| && p < |y.ports| && k != p
    ensures |Schedule(y, k).ports| == |y.ports| && Schedule(y, k).ports[p] == y.ports[p]
  {
    hide Inserted, AvlTime;
    var q := y.ports[k];
    if q.hostReqs != [] { assert GoodReq(q.hostReqs[0], k); }
    if q.bankReqs != [] { assert GoodReq(q.bankReqs[0], k); }
  }

  lemma RetireOther(y: Sys, k: nat, rdFull: bool, wrFull: bool, p: nat)
    requires Shape(y) && k < |y.ports| && p < |y.ports| && k != p
    ensures |Retire(y, k, rdFull, wrFull).ports| == |y.ports| && Retire(y, k, rdFull, wrFull).ports[p] == y.ports[p]
  {
  }

  lemma {:induction false} RunCollects(y: Sys, ts: seq<Step>, p: nat, ins: seq<In<Note>>)
    requires Inv(y) && Shape(y) && IsRun(y, ts) && p < |y.ports| && AllInputs(ins) && Collected(y.ports[p], ins, p)
    ensures var z := After(y, ts);
      && Inv(z) && |z.ports| == |y.ports| && AllInputs(ins + Inputs(y, ts, p))
      && Collected(z.ports[p], ins + Inputs(y, ts, p), p)
    decreases |ts|
  {
    hide Inv, Shape, Collected, AllInputs, StepInput, Apply;
    if ts == [] {
      assert ins + Inputs(y, ts, p) == ins;
    } else {
      StepCollects(y, ts[0], p, ins);
      StepKeeps(y, ts[0]);
      var more := ins + StepInput(y, ts[0], p);
      RunCollects(Apply(y, ts[0]), ts[1..], p, more);
      assert ins + Inputs(y, ts, p) == more + Inputs(Apply(y, ts[0]), ts[1..], p);
    }
  }

  // ------------------------------------------------------------------------------------------
  // What comes out
  // ------------------------------------------------------------------------------------------

  /** The quadwords of a request, from the first one on. */
  function Quadwords(r: Req): (s: seq<Rsp>)
    ensures |s| == r.qwCnt
  {
    seq(r.qwCnt, i requires 0 <= i < r.qwCnt => Rsp(r.id, i))
  }

  function AllQuadwords(rs: seq<Req>): seq<Rsp> {
    if rs == [] then [] else Quadwords(rs[0]) + AllQuadwords(rs[1..])
  }

  lemma {:induction false} QuadwordsAppend(a: seq<Req>, b: seq<Req>)
    ensures AllQuadwords(a + b) == AllQuadwords(a) + AllQuadwords(b)
  {
    if a == [] {
      assert a + b == b;
    } else {
      assert (a + b)[1..] == a[1..] + b;
      QuadwordsAppend(a[1..], b);
    }
  }

  lemma {:induction false} WholeIs(rs: seq<Req>)
    ensures Whole(rs) == AllQuadwords(rs)
  {
    if rs != [] {
      var n := |rs| - 1;
      WholeIs(rs[..n]);
      QuadwordsAppend(rs[..n], [rs[n]]);
      assert rs == rs[..n] + [rs[n]];
      OneQuadwords(rs[n]);
    }
  }

  lemma OneQuadwords(r: Req)
    ensures AllQuadwords([r]) == Quadwords(r) == Part(r.id, r.qwCnt)
  {
    assert [r][1..] == [];
  }

  /** What a port holds at any time of a run, and, once it holds nothing more, that it has answered just
      the requests that arrived, all quadwords of each in one piece. */
  lemma RunAnswers(y: Sys, ts: seq<Step>, p: nat)
    requires Start(y) && Shape(y) && IsRun(y, ts) && p < |y.ports|
    ensures var (q, a) := (After(y, ts).ports, Arriving(Inputs(y, ts, p), p));
      && |q| == |y.ports|
      && LastOf(q[p].hostReqs, Only(a, true)) && LastOf(q[p].bankReqs, Only(a, false))
      && Jobs(q[p].hostReqs) + Jobs(q[p].bankReqs) + Jobs(q[p].busy) + Jobs(q[p].done) == multiset(a)
      && (q[p].hostReqs == [] && q[p].bankReqs == [] && q[p].busy == [] ==>
            Jobs(q[p].done) == multiset(a) && q[p].rsps == AllQuadwords(q[p].done))
  {
    StartInv(y);
    NothingCollected(y, p);
    RunCollects(y, ts, p, []);
    var ins := Inputs(y, ts, p);
    assert [] + ins == ins;
    hide Inv, Arriving, Only, LastOf, Jobs, AllQuadwords, IsRun, After, Inputs, Start;
    var q := After(y, ts).ports[p];
    WholeIs(q.done);
    PortLog(After(y, ts), p);
    NoJobs();
  }

  lemma NoJobs()
    ensures Jobs([]) == multiset{}
  {
  }

  lemma PortLog(y: Sys, p: nat)
    requires Inv(y) && p < |y.ports|
    ensures y.ports[p].busy == [] ==> y.ports[p].rsps == Whole(y.ports[p].done)
  {
    assert PortOk(y, p);
    hide Whole;
  }

  lemma NothingCollected(y: Sys, p: nat)
    requires Start(y) && p < |y.ports|
    ensures Collected(y.ports[p], [], p)
  {
    assert Orders<Note>([]) == [] && Begun<Note>([]) == [];
    assert Arriving([], p) == [];
  }
}
