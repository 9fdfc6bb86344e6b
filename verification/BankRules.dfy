/** Which bank a request goes to, how long it waits and keeps its bank busy, and when a port answers: in
    addresses, picoseconds and signals. */
module BankRules {
  import opened Wrappers
  import opened Responses
  import opened BankModel

  // ------------------------------------------------------------------------------------------
  // Banks
  // ------------------------------------------------------------------------------------------

  /** An input that is a complete request comes to a port that collects none. */
  predicate Alone(y: Sys, p: nat, hc1: bool, inp: Input) {
    p < |y.ports| && y.ports[p].newReq.None? && y.ports[p].dataIdx == 0 && inp.Request? && inp.low < 8
    && (inp.kind.Write? ==> hc1 || inp.low == 0)
  }

  /** The request that is queued then, as the last one of its queue. */
  lemma Queued(y: Sys, p: nat, hc1: bool, inp: Input) returns (r: Req)
    requires Alone(y, p, hc1, inp)
    ensures var (q, z) := (y.ports[p], Accept(y, p, hc1, inp));
      && z.ports == y.ports[p := if inp.host then q.(hostReqs := q.hostReqs + [r]) else q.(bankReqs := q.bankReqs + [r])]
      && r.id == y.seqNum && z.seqNum == y.seqNum + 1 && r.start == y.now && r.port == p
      && r.kind == inp.kind && r.low == inp.low && r.host == inp.host && r.qwCnt == (if hc1 then 1 else inp.low + 1)
      && (if inp.host then r.bank == 1024 else r.bank < 1024 && exists k :: inp.addr / 8 == 1024 * k + r.bank)
  {
    var z := Accept(y, p, hc1, inp).ports[p];
    r := if inp.host then z.hostReqs[|z.hostReqs| - 1] else z.bankReqs[|z.bankReqs| - 1];
    if !inp.host {
      assert inp.addr / 8 == 1024 * (inp.addr / 8 / 1024) + r.bank;
    }
  }

  /** Two requests get to one bank exactly when both are for the host, or neither is and their quadwords are
      a multiple of 1024 apart. */
  lemma SameBankIff(y: Sys, p: nat, hc1: bool, inp: Input, y': Sys, p': nat, hc1': bool, inp': Input)
    returns (r: Req, r': Req)
    requires Alone(y, p, hc1, inp) && Alone(y', p', hc1', inp')
    ensures var (q, z) := (y.ports[p], Accept(y, p, hc1, inp).ports[p]);
      if inp.host then z.hostReqs == q.hostReqs + [r] else z.bankReqs == q.bankReqs + [r]
    ensures var (q, z) := (y'.ports[p'], Accept(y', p', hc1', inp').ports[p']);
      if inp'.host then z.hostReqs == q.hostReqs + [r'] else z.bankReqs == q.bankReqs + [r']
    ensures r.bank == r'.bank <==>
            (inp.host && inp'.host) || (!inp.host && !inp'.host && (inp.addr / 8 - inp'.addr / 8) % 1024 == 0)
  {
    hide Accept;
    r := Queued(y, p, hc1, inp);
    r' := Queued(y', p', hc1', inp');
    if !inp.host && !inp'.host {
      var k :| inp.addr / 8 == 1024 * k + r.bank;
      var k' :| inp'.addr / 8 == 1024 * k' + r'.bank;
      Apart(inp.addr / 8, inp'.addr / 8, k, k', r.bank, r'.bank);
    }
  }

  lemma Apart(m: nat, m': nat, k: int, k': int, b: nat, b': nat)
    requires m == 1024 * k + b && m' == 1024 * k' + b' && b < 1024 && b' < 1024
    ensures b == b' <==> (m - m') % 1024 == 0
  {
    assert m - m' == 1024 * (k - k') + (b - b');
  }

  /** A request for the quadword number `m` is queued for bank `b`. */
  predicate LiesIn(y: Sys, p: nat, hc1: bool, kind: Kind, m: nat, b: nat)
    requires p < |y.ports|
  {
    var z := Accept(y, p, hc1, Request(kind, 0, false, 8 * m)).ports[p];
    z.bankReqs != [] && z.bankReqs[|z.bankReqs| - 1].bank == b
  }

  /** Any 1024 quadwords in a row lie in 1024 banks: for each bank `b` one of them does. */
  lemma EveryBankOnce(y: Sys, p: nat, hc1: bool, kind: Kind, n: nat, b: nat) returns (i: nat)
    requires b < 1024 && Alone(y, p, hc1, Request(kind, 0, false, 0))
    ensures n <= i < n + 1024
    ensures forall m :: n <= m < n + 1024 ==> (LiesIn(y, p, hc1, kind, m, b) <==> m == i)
  {
    i := n + (b - n) % 1024;
    forall m | n <= m < n + 1024 ensures LiesIn(y, p, hc1, kind, m, b) <==> m == i {
      var inp := Request(kind, 0, false, 8 * m);
      var r := Queued(y, p, hc1, inp);
      var k :| inp.addr / 8 == 1024 * k + r.bank;
      Residue(n, m - n, k, r.bank, b);
    }
  }

  lemma Residue(n: nat, j: nat, k: int, r: nat, b: nat)
    requires n + j == 1024 * k + r && j < 1024 && r < 1024 && b < 1024
    ensures r == b <==> j == (b - n) % 1024
  {
    assert b - n == 1024 * (-k) + j + (b - r);
  }

  // ------------------------------------------------------------------------------------------
  // Times
  // ------------------------------------------------------------------------------------------

  /** A host request waits 1515 ns before it is given to its queue, and a coprocessor's 606 ns; the host's
      come first, and one request is given at a time. */
  lemma GivenWhen(y: Sys, p: nat)
    requires Shape(y) && p < |y.ports|
    ensures var (q, z) := (y.ports[p], Schedule(y, p));
      var host := q.hostReqs != [] && q.hostReqs[0].host && q.hostReqs[0].start + 1_515_000 <= y.now;
      var bank := q.bankReqs != [] && !q.bankReqs[0].host && q.bankReqs[0].start + 606_000 <= y.now;
      && |z.ports| == |y.ports| && z.now == y.now
      && (host ==> z.ports[p].hostReqs == q.hostReqs[1..] && z.ports[p].bankReqs == q.bankReqs && Given(y, z, p, q.hostReqs[0]))
      && (!host && (forall i :: 0 <= i < |q.hostReqs| ==> q.hostReqs[i].host) ==>
            && z.ports[p].hostReqs == q.hostReqs
            && (bank ==> z.ports[p].bankReqs == q.bankReqs[1..] && Given(y, z, p, q.bankReqs[0]))
            && (!bank && (forall i :: 0 <= i < |q.bankReqs| ==> !q.bankReqs[i].host) ==> z == y))
  {
    hide Inserted, InsertPos;
    var q := y.ports[p];
    if q.hostReqs != [] {
      assert GoodReq(q.hostReqs[0], p);
      PlaceGives(y, p, q.(hostReqs := q.hostReqs[1..]), q.hostReqs[0]);
    }
    if q.bankReqs != [] {
      assert GoodReq(q.bankReqs[0], p);
      PlaceGives(y, p, q.(bankReqs := q.bankReqs[1..]), q.bankReqs[0]);
    }
  }

  /** The time in ps that a request takes of its bank: for the host 38.788 ns, or 17.273 ns for one quadword,
      and for the coprocessor 1212 ns, or 151 ns. */
  function Takes(host: bool, low: nat): nat {
    if host then (if low == 0 then 17_273 else 38_788) else if low == 0 then 151_000 else 1_212_000
  }

  /** The request `r` is the last one for its bank, and keeps it busy from now on, or from when the one before
      it is done; its port has it in its list. */
  predicate Given(y: Sys, z: Sys, p: nat, r: Req)
    requires Shape(y) && p < |y.ports| == |z.ports|
  {
    && r.bank < |y.banks|
    && var b := y.banks[r.bank];
       var from := if b != [] && b[|b| - 1].avl > y.now then b[|b| - 1].avl else y.now;
       var r1 := r.(avl := from + Takes(r.host, r.low));
       z.banks == y.banks[r.bank := b + [r1]] && multiset(z.ports[p].busy) == multiset(y.ports[p].busy) + multiset{r1}
  }

  lemma PlaceGives(y: Sys, p: nat, q: Port, r: Req)
    requires Shape(y) && p < |y.ports| && r.bank <= BANK_CNT && q.busy == y.ports[p].busy
    ensures var z := Place(y, p, q, r);
      |z.ports| == |y.ports| && Given(y, z, p, r) && z.ports[p] == q.(busy := z.ports[p].busy) && z.now == y.now
  {
    hide AvlTime, Inserted, Takes;
    BeginsWhen(y.banks[r.bank], r, y.now);
    OneInserted(q.busy, r.(avl := AvlTime(y.banks[r.bank], r, y.now)));
  }

  lemma BeginsWhen(b: seq<Req>, r: Req, now: nat)
    ensures AvlTime(b, r, now) == (if b != [] && b[|b| - 1].avl > now then b[|b| - 1].avl else now) + Takes(r.host, r.low)
  {
  }

  lemma OneInserted(busy: seq<Req>, r: Req)
    ensures multiset(Inserted(busy, r)) == multiset(busy) + multiset{r}
  {
    var i := InsertPos(busy, r);
    hide InsertPos;
    assert busy == busy[..i] + busy[i..];
  }

  /** A port's list has the request that its bank is done with last in front; of two at the same time the
      one of the lower bank is nearer to the end, from which they are retired. */
  lemma ListOrder(y: Sys, p: nat, i: nat, j: nat)
    requires Inv(y) && p < |y.ports| && i < j < |y.ports[p].busy|
    ensures var (a, b) := (y.ports[p].busy[i], y.ports[p].busy[j]);
      b.avl < a.avl || (b.avl == a.avl && b.bank < a.bank)
  {
    assert PortOk(y, p);
  }

  /** A bank's queue is in the order in which it is done. */
  lemma BankOrder(y: Sys, b: nat, i: nat, j: nat)
    requires Inv(y) && b <= 1024
    ensures |y.banks| == 1025
    ensures i < j < |y.banks[b]| ==> y.banks[b][i].avl < y.banks[b][j].avl
  {
    assert BankOk(y, b);
  }

  // ------------------------------------------------------------------------------------------
  // Answers
  // ------------------------------------------------------------------------------------------

  /** A port answers a quadword of the request at the end of its list exactly when it is the first one of its
      bank, its time has come, and responses of its kind are not held up.  With the last quadword the
      request is done. */
  lemma AnsweredWhen(y: Sys, p: nat, rdFull: bool, wrFull: bool)
    requires Inv(y) && p < |y.ports| && y.ports[p].busy != []
    ensures Shape(y)
    ensures var (q, z) := (y.ports[p], Retire(y, p, rdFull, wrFull));
      var r := q.busy[|q.busy| - 1];
      var b := y.banks[r.bank];
      var i := q.rdIdx + q.wrIdx;
      && r.bank < |y.banks| && b != [] && i < r.qwCnt
      && (b[0] == r && r.avl <= y.now && !(if r.kind.Write? then wrFull else rdFull) ==>
            && |z.ports| == |y.ports| && z.ports[p].rsps == q.rsps + [Rsp(r.id, i)]
            && (i + 1 < r.qwCnt ==> z.ports[p].busy == q.busy && z.ports[p].rdIdx + z.ports[p].wrIdx == i + 1
                                    && z.banks == y.banks && z.ports[p].done == q.done)
            && (i + 1 == r.qwCnt ==> z.ports[p].busy == q.busy[..|q.busy| - 1] && z.ports[p].rdIdx == z.ports[p].wrIdx == 0
                                     && z.banks == y.banks[r.bank := b[1..]] && z.ports[p].done == q.done + [r]))
      && (b[0] != r || y.now < r.avl || (if r.kind.Write? then wrFull else rdFull) ==> z == y)
  {
    assert PortOk(y, p);
    BusyInBanks(y, p);
    assert GoodReq(y.ports[p].busy[|y.ports[p].busy| - 1], p);
    hide Descending, Answered, Whole;
  }

  lemma NothingAnswered(y: Sys, p: nat, rdFull: bool, wrFull: bool)
    requires Shape(y) && p < |y.ports| && y.ports[p].busy == []
    ensures Retire(y, p, rdFull, wrFull) == y
  {
  }
}
