/** When two units can block each other for ever: each of their threads waits, holding its lock or for
    it, for room in a ring that only the other unit's waiting thread could empty. */
module HifDeadlock {
  import opened HifProtocol
  import opened HifSafety
  import opened HifNotes
  import opened HifRuns
  import opened HifDelivery

  /** No thread of either unit can do anything. */
  ghost predicate Dead(y: Sys)
    requires y.Valid()
  {
    forall t :: !StepEnabled(y, t)
  }

  /** Both units wait for room, and both applications are inside calls. */
  lemma DeadWaits(y: Sys)
    requires Inv(y) && Dead(y)
    ensures Waits(y.host, y.inn) && Waits(y.cop, y.out) && y.host.appIn && y.cop.appIn
  {
    hide Inv;
    InvValid(y);
    RingBounds(y);
    DeadLocal(y, true);
    DeadLocal(y, false);
  }

  lemma DeadLocal(y: Sys, w: bool)
    requires y.Valid() && Dead(y)
    ensures View(y, w).s.box != [] && View(y, w).s.appIn && |View(y, w).tx.q| >= RING_SLOTS
  {
    assert !StepEnabled(y, Step(w, Tick)) && !StepEnabled(y, Step(w, WaitLock)) && !StepEnabled(y, Step(w, WriteSlot));
  }

  lemma RingBounds(y: Sys)
    requires Inv(y)
    ensures |y.inn.q| <= RING_SLOTS && |y.out.q| <= RING_SLOTS
  {
    hide CreditsOk, StreamOk, WellFormed;
  }

  lemma WaitsDead(y: Sys)
    requires y.Valid() && Waits(y.host, y.inn) && Waits(y.cop, y.out) && y.host.appIn && y.cop.appIn
    ensures Dead(y)
  {
  }

  /** Once both units wait for room, they are blocked as soon as their applications call anything. */
  lemma WaitingCanDie(y: Sys) returns (ts: seq<Step>)
    requires y.Valid() && Waits(y.host, y.inn) && Waits(y.cop, y.out)
    ensures IsRun(y, ts) && Dead(RunApply(y, ts)) && forall i :: 0 <= i < |ts| ==> ts[i].act.WaitLock?
  {
    var h, c := Step(true, WaitLock), Step(false, WaitLock);
    var y1 := if y.host.appIn then y else StepApply(y, h);
    var y2 := if y1.cop.appIn then y1 else StepApply(y1, c);
    WaitsDead(y2);
    ts := (if y.host.appIn then [] else [h]) + (if y1.cop.appIn then [] else [c]);
    if !y.host.appIn { OneStep(y, h); }
    if !y1.cop.appIn { OneStep(y1, c); }
    RunAppend(y, if y.host.appIn then [] else [h], if y1.cop.appIn then [] else [c]);
  }

  // ------------------------------------------------------------------------------------------
  // Filling the rings
  // ------------------------------------------------------------------------------------------

  lemma {:induction false} ChatterAppend(a: seq<Step>, b: seq<Step>, byHost: bool)
    ensures Chatter(a + b, byHost) == Chatter(a, byHost) + Chatter(b, byHost)
  {
    if a == [] {
      assert a + b == b;
    } else {
      ChatterAppend(a[1..], b, byHost);
      assert (a + b)[1..] == a[1..] + b;
    }
  }

  predicate NoCalls(ts: seq<Step>) {
    forall i :: 0 <= i < |ts| ==> !ts[i].act.SendCall?
  }

  /** `ts` leads from `y` to `z`, with `h` and `c` user messages of the two units and without calls. */
  predicate Leads(y: Sys, ts: seq<Step>, z: Sys, h: nat, c: nat)
    requires y.Valid()
  {
    IsRun(y, ts) && RunApply(y, ts) == z && NoCalls(ts) && Chatter(ts, true) == h && Chatter(ts, false) == c
  }

  lemma LeadsAppend(y: Sys, a: seq<Step>, z: Sys, h: nat, c: nat, b: seq<Step>, x: Sys, h': nat, c': nat)
    requires y.Valid() && Leads(y, a, z, h, c) && z.Valid() && Leads(z, b, x, h', c')
    ensures Leads(y, a + b, x, h + h', c + c')
  {
    RunAppend(y, a, b);
    ChatterAppend(a, b, true);
    ChatterAppend(a, b, false);
  }

  lemma LeadsNowhere(y: Sys)
    requires y.Valid()
    ensures Leads(y, [], y, 0, 0)
  {
  }

  lemma LeadsStep(y: Sys, t: Step)
    requires y.Valid() && StepEnabled(y, t) && !t.act.SendCall?
    ensures Leads(y, [t], StepApply(y, t), if t.byHost && Chatty(t.act) then 1 else 0,
                  if !t.byHost && Chatty(t.act) then 1 else 0)
  {
    OneStep(y, t);
    assert [t][1..] == [];
  }

  /** Nothing waits at a unit, which was set up, and nothing is half filled. */
  predicate Calm(s: Side) { s.box == [] && s.sPos == 0 && s.mque == [] && SetUp(s) }

  /** Only the ring that unit `w` writes has changed: it has `n` messages more. */
  predicate Grown(y: Sys, z: Sys, w: bool, n: nat) {
    && z.Valid() && |z.inn.blks| == |y.inn.blks| && |z.out.blks| == |y.out.blks|
    && |View(z, w).tx.q| == |View(y, w).tx.q| + n && View(z, w).rx.q == View(y, w).rx.q
  }

  /** Unit `w` sends a message of one kind, and copies it into the ring. */
  lemma SendOne(y: Sys, w: bool, a: Action)
    requires y.Valid() && Calm(View(y, w).s) && |View(y, w).tx.q| < RING_SLOTS
    requires a == SendUser(16, 0) || (a == SendMark && View(y, w).s.avail >= 1)
    ensures var t, u := Step(w, a), Step(w, WriteSlot);
      && StepEnabled(y, t) && StepEnabled(StepApply(y, t), u)
      && var z := StepApply(StepApply(y, t), u);
         && Grown(y, z, w, 1) && Calm(View(z, w).s) && View(z, !w).s == View(y, !w).s
         && View(z, w).s.avail == View(y, w).s.avail - (if a.SendMark? then 1 else 0)
         && View(z, w).tx.q[..|View(y, w).tx.q|] == View(y, w).tx.q
         && (a.SendMark? ==> View(z, w).tx.q == View(y, w).tx.q + [MarkRdy])
  {
  }

  lemma {:induction false} SendMany(y: Sys, w: bool, a: Action, n: nat) returns (ts: seq<Step>, z: Sys)
    requires y.Valid() && Calm(View(y, w).s) && |View(y, w).tx.q| + n <= RING_SLOTS
    requires a == SendUser(16, 0) || (a == SendMark && View(y, w).s.avail >= n)
    ensures Leads(y, ts, z, if w && Chatty(a) then n else 0, if !w && Chatty(a) then n else 0)
    ensures Grown(y, z, w, n) && Calm(View(z, w).s) && View(z, !w).s == View(y, !w).s
    decreases n
  {
    hide Leads, StepEnabled, StepApply, Calm, Sys.Valid;
    if n == 0 {
      ts, z := [], y;
      LeadsNowhere(y);
    } else {
      var t, u := Step(w, a), Step(w, WriteSlot);
      SendOne(y, w, a);
      LeadsStep(y, t);
      var y1 := StepApply(y, t);
      LeadsStep(y1, u);
      var y2 := StepApply(y1, u);
      LeadsAppend(y, [t], y1, if w && Chatty(a) then 1 else 0, if !w && Chatty(a) then 1 else 0, [u], y2, 0, 0);
      var rest;
      rest, z := SendMany(y2, w, a, n - 1);
      LeadsAppend(y, [t] + [u], y2, if w && Chatty(a) then 1 else 0, if !w && Chatty(a) then 1 else 0,
                  rest, z, if w && Chatty(a) then n - 1 else 0, if !w && Chatty(a) then n - 1 else 0);
      ts := [t] + [u] + rest;
    }
  }

  /** A marker that lies alone in the ring is received by unit `w`, whose AVL message stays in its ring. */
  lemma TakeOne(y: Sys, w: bool)
    requires y.Valid() && Calm(View(y, w).s) && View(y, w).rx.q == [MarkRdy] && |View(y, w).tx.q| < RING_SLOTS
    ensures var t, u, v := Step(w, Poll), Step(w, TakeMark), Step(w, WriteSlot);
      && StepEnabled(y, t) && StepEnabled(StepApply(y, t), u) && StepEnabled(StepApply(StepApply(y, t), u), v)
      && var z := StepApply(StepApply(StepApply(y, t), u), v);
         && z.Valid() && Calm(View(z, w).s) && View(z, w).rx.q == [] && View(z, !w).s == View(y, !w).s
         && |View(z, w).tx.q| == |View(y, w).tx.q| + 1 && View(z, w).s.avail == View(y, w).s.avail
         && |z.inn.blks| == |y.inn.blks| && |z.out.blks| == |y.out.blks|
  {
    hide StepEnabled, StepApply;
    MarkPolled(y, w);
    var y1 := StepApply(y, Step(w, Poll));
    MarkTaken(y1, w);
    var y2 := StepApply(y1, Step(w, TakeMark));
    AvlWritten(y2, w);
  }

  lemma MarkPolled(y: Sys, w: bool)
    requires y.Valid() && Calm(View(y, w).s) && View(y, w).rx.q == [MarkRdy]
    ensures StepEnabled(y, Step(w, Poll))
    ensures var z := StepApply(y, Step(w, Poll));
      && View(z, w).s == View(y, w).s.(mque := [MarkRdy], appIn := View(z, w).s.appIn) && View(z, w).tx == View(y, w).tx
      && View(z, w).rx == View(y, w).rx.(q := []) && View(z, !w).s == View(y, !w).s
  {
  }

  lemma MarkTaken(y: Sys, w: bool)
    requires y.Valid() && View(y, w).s.mque == [MarkRdy] && View(y, w).s.box == []
    ensures StepEnabled(y, Step(w, TakeMark))
    ensures var l, m := View(y, w), View(StepApply(y, Step(w, TakeMark)), w);
      && m.tx == l.tx && m.rx == l.rx && m.s.mque == [] && m.s.box == [Avl]
      && m.s.avail == l.s.avail && m.s.sPos == l.s.sPos && m.s.seen == l.s.seen
    ensures View(StepApply(y, Step(w, TakeMark)), !w).s == View(y, !w).s
  {
  }

  lemma AvlWritten(y: Sys, w: bool)
    requires y.Valid() && View(y, w).s.box == [Avl] && |View(y, w).tx.q| < RING_SLOTS
    ensures StepEnabled(y, Step(w, WriteSlot))
    ensures var l, m := View(y, w), View(StepApply(y, Step(w, WriteSlot)), w);
      && m.s == l.s.(box := [], appIn := m.s.appIn) && m.rx == l.rx && m.tx == l.tx.(q := l.tx.q + [Avl])
    ensures View(StepApply(y, Step(w, WriteSlot)), !w).s == View(y, !w).s
  {
  }

  /** A marker of the other unit turns into an AVL message in the ring that unit `w` writes. */
  lemma BounceOne(y: Sys, w: bool) returns (ts: seq<Step>, z: Sys)
    requires y.Valid() && Calm(y.host) && Calm(y.cop) && View(y, w).rx.q == []
    requires |View(y, w).tx.q| < RING_SLOTS && View(y, !w).s.avail >= 1
    ensures Leads(y, ts, z, 0, 0)
    ensures Grown(y, z, w, 1) && Calm(z.host) && Calm(z.cop)
    ensures View(z, w).s.avail == View(y, w).s.avail && View(z, !w).s.avail == View(y, !w).s.avail - 1
  {
    hide Leads, StepEnabled, StepApply, Calm, Sys.Valid;
    SendOne(y, !w, SendMark);
    var y1 := StepApply(y, Step(!w, SendMark));
    var y2 := StepApply(y1, Step(!w, WriteSlot));
    TakeOne(y2, w);
    var y3 := StepApply(y2, Step(w, Poll));
    var y4 := StepApply(y3, Step(w, TakeMark));
    z := StepApply(y4, Step(w, WriteSlot));
    ts := LeadsFive(y, Step(!w, SendMark), Step(!w, WriteSlot), Step(w, Poll), Step(w, TakeMark), Step(w, WriteSlot));
  }

  lemma LeadsFive(y: Sys, t0: Step, t1: Step, t2: Step, t3: Step, t4: Step) returns (ts: seq<Step>)
    requires y.Valid() && StepEnabled(y, t0)
    requires StepEnabled(StepApply(y, t0), t1)
    requires StepEnabled(StepApply(StepApply(y, t0), t1), t2)
    requires StepEnabled(StepApply(StepApply(StepApply(y, t0), t1), t2), t3)
    requires StepEnabled(StepApply(StepApply(StepApply(StepApply(y, t0), t1), t2), t3), t4)
    requires Silent(t0) && Silent(t1) && Silent(t2) && Silent(t3) && Silent(t4)
    ensures Leads(y, ts, StepApply(StepApply(StepApply(StepApply(StepApply(y, t0), t1), t2), t3), t4), 0, 0)
  {
    hide StepEnabled, StepApply, Leads;
    var y1 := StepApply(y, t0);
    var y2 := StepApply(y1, t1);
    var y3 := StepApply(y2, t2);
    var y4 := StepApply(y3, t3);
    var z := StepApply(y4, t4);
    LeadsStep(y, t0); LeadsStep(y1, t1); LeadsStep(y2, t2); LeadsStep(y3, t3); LeadsStep(y4, t4);
    LeadsAppend(y3, [t3], y4, 0, 0, [t4], z, 0, 0);
    LeadsAppend(y2, [t2], y3, 0, 0, [t3] + [t4], z, 0, 0);
    LeadsAppend(y1, [t1], y2, 0, 0, [t2] + ([t3] + [t4]), z, 0, 0);
    LeadsAppend(y, [t0], y1, 0, 0, [t1] + ([t2] + ([t3] + [t4])), z, 0, 0);
    ts := [t0] + ([t1] + ([t2] + ([t3] + [t4])));
  }

  predicate Silent(t: Step) { !Chatty(t.act) && !t.act.SendCall? }

  /** `n` markers of the other unit turn into AVL messages in the ring that unit `w` writes. */
  lemma {:induction false} Bounce(y: Sys, w: bool, n: nat) returns (ts: seq<Step>, z: Sys)
    requires y.Valid() && Calm(y.host) && Calm(y.cop) && View(y, w).rx.q == []
    requires |View(y, w).tx.q| + n <= RING_SLOTS && View(y, !w).s.avail >= n
    ensures Leads(y, ts, z, 0, 0)
    ensures Grown(y, z, w, n) && Calm(z.host) && Calm(z.cop)
    ensures View(z, w).s.avail == View(y, w).s.avail && View(z, !w).s.avail == View(y, !w).s.avail - n
    decreases n
  {
    hide Leads, StepEnabled, StepApply, Calm, Sys.Valid;
    if n == 0 {
      ts, z := [], y;
      LeadsNowhere(y);
    } else {
      var first, y1 := BounceOne(y, w);
      var rest;
      rest, z := Bounce(y1, w, n - 1);
      LeadsAppend(y, first, y1, 0, 0, rest, z, 0, 0);
      ts := first + rest;
    }
  }

  /** One user message more than fits: the application waits. */
  lemma Overflow(y: Sys, w: bool)
    requires y.Valid() && Calm(View(y, w).s) && |View(y, w).tx.q| == RING_SLOTS
    ensures var t := Step(w, SendUser(16, 0));
      && StepEnabled(y, t)
      && var l, m := View(y, w), View(StepApply(y, t), w);
         && Waits(m.s, m.tx) && m.s.appIn && m.tx == l.tx && m.rx == l.rx
         && View(StepApply(y, t), !w).s == View(y, !w).s
  {
  }

  /** A ring filled up with `n` user messages, of which the last one waits. */
  lemma FillUp(y: Sys, w: bool, n: nat) returns (ts: seq<Step>, z: Sys)
    requires y.Valid() && Calm(View(y, w).s) && n >= 1 && |View(y, w).tx.q| + n == RING_SLOTS + 1
    ensures Leads(y, ts, z, if w then n else 0, if w then 0 else n) && z.Valid()
    ensures Waits(View(z, w).s, View(z, w).tx) && View(z, w).s.appIn && View(z, w).rx.q == View(y, w).rx.q
    ensures View(z, !w).s == View(y, !w).s
  {
    hide Leads, StepEnabled, StepApply, Calm, Sys.Valid, Waits;
    var a, y1 := SendMany(y, w, SendUser(16, 0), n - 1);
    Overflow(y1, w);
    z := StepApply(y1, Step(w, SendUser(16, 0)));
    LeadsStep(y1, Step(w, SendUser(16, 0)));
    LeadsAppend(y, a, y1, if w then n - 1 else 0, if w then 0 else n - 1,
                [Step(w, SendUser(16, 0))], z, if w then 1 else 0, if w then 0 else 1);
    ts := a + [Step(w, SendUser(16, 0))];
  }

  /** Messages that hand blocks over or back: `a` of them in the host's ring, `b` in the other one. */
  lemma BlockMessagesInRings(y: Sys, a: nat, b: nat) returns (ts: seq<Step>, z: Sys)
    requires Idle(y) && a + b <= |y.inn.blks| + |y.out.blks| && a <= RING_SLOTS && b <= RING_SLOTS
    ensures y.Valid() && z.Valid() && Leads(y, ts, z, 0, 0)
    ensures Calm(z.host) && Calm(z.cop) && |z.inn.q| == a && |z.out.q| == b
  {
    hide Leads, StepEnabled, StepApply, Calm, Idle, Sys.Valid;
    IdleValid(y);
    IdleSender(y, true);
    IdleSender(y, false);
    IdleCalm(y);
    var m, n := |y.inn.blks|, |y.out.blks|;
    // a block of the other unit that is handed back fills the ring when the own blocks are too few
    var w := a > m;
    var x: nat := if a > m then a - m else if b > n then b - n else 0;
    var p, y1 := Bounce(y, w, x);
    var u, y2 := SendMany(y1, true, SendMark, if w then a - x else a);
    var v, y3 := SendMany(y2, false, SendMark, if w then b else b - x);
    LeadsAppend(y1, u, y2, 0, 0, v, y3, 0, 0);
    LeadsAppend(y, p, y1, 0, 0, u + v, y3, 0, 0);
    ts, z := p + (u + v), y3;
  }

  lemma IdleCalm(y: Sys)
    requires Idle(y)
    ensures Calm(y.host) && Calm(y.cop) && y.inn.q == [] && y.out.q == []
  {
    DrainedSetUp(y);
  }

  /** With `h` and `c` user messages two idle units can be run into a deadlock, when there are blocks
      enough to fill the rings up. */
  lemma FloodsBlock(y: Sys, h: nat, c: nat) returns (ts: seq<Step>, z: Sys)
    requires Idle(y) && Missing(h) + Missing(c) <= |y.inn.blks| + |y.out.blks| <= 128
    ensures y.Valid() && z.Valid() && Dead(z)
    ensures exists h': nat, c': nat :: h' <= h && c' <= c && Leads(y, ts, z, h', c')
  {
    hide Leads, StepEnabled, StepApply, Calm, Idle, Sys.Valid, Dead;
    var a, b := Missing(h), Missing(c);
    assert a <= RING_SLOTS && b <= RING_SLOTS;
    var p, y1 := BlockMessagesInRings(y, a, b);
    var u, y2 := FillUp(y1, true, RING_SLOTS + 1 - a);
    var v, y3 := FillUp(y2, false, RING_SLOTS + 1 - b);
    LeadsAppend(y1, u, y2, RING_SLOTS + 1 - a, 0, v, y3, 0, RING_SLOTS + 1 - b);
    LeadsAppend(y, p, y1, 0, 0, u + v, y3, RING_SLOTS + 1 - a, RING_SLOTS + 1 - b);
    ts, z := p + (u + v), y3;
    WaitsDead(z);
  }

  // ------------------------------------------------------------------------------------------
  // The exact condition
  // ------------------------------------------------------------------------------------------

  /** A run from `y` on which the units send at most `h` and `c` user messages ends in a deadlock. */
  ghost predicate CanDie(y: Sys, h: nat, c: nat)
    requires y.Valid()
  {
    exists ts :: IsRun(y, ts) && CallsFit(y, ts) && Chatter(ts, true) <= h && Chatter(ts, false) <= c
                 && Dead(RunApply(y, ts))
  }

  /** Whatever two idle units do, and however their threads are interleaved: user messages of which the
      host sends up to `h`, and the coprocessor up to `c`, can end in a deadlock exactly when the
      blocks of both units are enough to make up for what the user messages leave of the rings. */
  lemma DeadlockIff(y: Sys, h: nat, c: nat)
    requires Idle(y) && |y.inn.blks| + |y.out.blks| <= 128
    ensures y.Valid() && (CanDie(y, h, c) <==> Missing(h) + Missing(c) <= |y.inn.blks| + |y.out.blks|)
  {
    hide Dead, Missing;
    IdleValid(y);
    if Missing(h) + Missing(c) <= |y.inn.blks| + |y.out.blks| {
      var ts, z := FloodsBlock(y, h, c);
    }
    if CanDie(y, h, c) {
      var ts :| IsRun(y, ts) && CallsFit(y, ts) && Chatter(ts, true) <= h && Chatter(ts, false) <= c
                && Dead(RunApply(y, ts));
      SafeFrom(y, ts, h, c);
    }
  }

  lemma SafeFrom(y: Sys, ts: seq<Step>, h: nat, c: nat)
    requires Idle(y) && y.Valid() && IsRun(y, ts) && CallsFit(y, ts) && Dead(RunApply(y, ts))
    requires Chatter(ts, true) <= h && Chatter(ts, false) <= c
    ensures Missing(h) + Missing(c) <= |y.inn.blks| + |y.out.blks|
  {
    hide Dead, DirInv;
    RunKeepsInv(y, ts);
    RunOthers(y, ts);
    var z := RunApply(y, ts);
    DeadWaits(z);
    if Few(z) {
      RoomForNext(z);
    }
  }

  /** Reachable states with at most `h` and `c` user messages and notes that the other unit has not
      polled: they all can deliver everything exactly when the blocks are too few for a deadlock. */
  ghost predicate AlwaysDelivers(y0: Sys, h: nat, c: nat) {
    forall ts, y :: ReachedBy(y0, ts, y) && Unread(y.host, y.inn) <= h && Unread(y.cop, y.out) <= c ==>
      y.Valid() && CanDeliver(y)
  }

  lemma DeliveryIff(y0: Sys, h: nat, c: nat)
    requires Init(y0)
    ensures AlwaysDelivers(y0, h, c) <==> Missing(h) + Missing(c) > |y0.inn.blks| + |y0.out.blks|
  {
    hide CanDeliver, Dead;
    if Missing(h) + Missing(c) > |y0.inn.blks| + |y0.out.blks| {
      forall ts, y | ReachedBy(y0, ts, y) && Unread(y.host, y.inn) <= h && Unread(y.cop, y.out) <= c
        ensures y.Valid() && CanDeliver(y)
      {
        RunOthers(y0, ts);
        EverythingCanBeDelivered(y0, ts, y);
      }
    } else {
      var ts, y := ReachDeadlock(y0, h, c);
      DeadDelivers(y);
    }
  }

  /** A dead state has undelivered messages. */
  lemma DeadDelivers(y: Sys)
    requires Inv(y) && Dead(y)
    ensures y.Valid() && !CanDeliver(y)
  {
    InvValid(y);
    DeadWaits(y);
    hide Inv, StepEnabled;
    forall more ensures !Delivers(y, more) {
      if more != [] {
        assert !StepEnabled(y, more[0]);
      }
    }
  }

  lemma ReachDeadlock(y0: Sys, h: nat, c: nat) returns (ts: seq<Step>, z: Sys)
    requires Init(y0) && Missing(h) + Missing(c) <= |y0.inn.blks| + |y0.out.blks|
    ensures ReachedBy(y0, ts, z) && z.Valid() && Inv(z) && Dead(z)
    ensures Unread(z.host, z.inn) <= h && Unread(z.cop, z.out) <= c
  {
    hide IsRun, RunApply, StepEnabled, StepApply, Chatter, DirInv, Init, Sends, Dead, Missing;
    InitInv(y0);
    NewPair(y0);
    var a := Drain(y0);
    var y := RunApply(y0, a);
    BlocksStay(y0, a);
    var b;
    b, z := FloodsBlock(y, h, c);
    RunAppend(y0, a, b);
    ts := a + b;
    RunOthers(y, b);
    IdleUnread(y);
    CallFree(y0, a, b);
    RunKeepsInv(y0, ts);
  }

  lemma NewPair(y: Sys)
    requires Init(y)
    ensures y.Valid() && Few(y) && y.host.sPos == 0 && y.cop.sPos == 0
    ensures |y.inn.blks| + |y.out.blks| <= 128
  {
    InitMessages(y);
  }

  lemma IdleUnread(y: Sys)
    requires Drained(y)
    ensures Unread(y.host, y.inn) == 0 && Unread(y.cop, y.out) == 0
  {
  }

  lemma CallFree(y: Sys, a: seq<Step>, b: seq<Step>)
    requires NoSends(a) && NoCalls(b)
    ensures CallsFit(y, a + b)
  {
    forall i | 0 <= i < |a + b| ensures !(a + b)[i].act.SendCall? {
      if i < |a| {
        assert (a + b)[i] == a[i];
      } else {
        assert (a + b)[i] == b[i - |a|];
      }
    }
  }
}
