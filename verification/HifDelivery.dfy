/** That everything sent can be delivered, unless both units wait for room in their rings, and what
    happens to a call whose arguments do not leave room in a block. */
module HifDelivery {
  import opened HifProtocol
  import opened HifSafety
  import opened HifNotes
  import opened HifRuns

  // ------------------------------------------------------------------------------------------
  // Draining
  // ------------------------------------------------------------------------------------------

  /** Weight of messages: `avl` for each AVL message, `other` for each other message. */
  function Weight(q: seq<Msg>, avl: nat, other: nat): nat {
    if q == [] then 0 else (if q[0].Avl? then avl else other) + Weight(q[1..], avl, other)
  }

  lemma {:induction false} WeightMore(q: seq<Msg>, m: Msg, avl: nat, other: nat)
    ensures Weight(q + [m], avl, other) == Weight(q, avl, other) + (if m.Avl? then avl else other)
  {
    if q == [] {
      assert q + [m] == [m];
    } else {
      WeightMore(q[1..], m, avl, other);
      assert (q + [m])[1..] == q[1..] + [m];
    }
  }

  /** The work left in one direction: every message moves from the box to the ring, from the ring
      to the queue, and away; a block is read in pieces, and makes one AVL message. */
  function Work(S: Side, R: Side, tx: Link): nat {
    var k := tx.size + 4;
    Weight(S.box, 2, k + 2) + Weight(tx.q, 1, k + 1) + Weight(R.mque, k, k)
    + (if R.rSize > 0 then R.rSize else tx.size + 1)
  }

  function WorkOf(l: Local, R: Side): nat {
    Work(l.s, R, l.tx) + Work(R, l.s, l.rx)
  }

  /** The steps that only move messages along and receive. */
  predicate Moves(a: Action) {
    !Sends(a) && !a.WaitLock?
  }

  lemma WeightLess(q: seq<Msg>, avl: nat, other: nat)
    requires q != []
    ensures Weight(q, avl, other) == Weight(q[1..], avl, other) + (if q[0].Avl? then avl else other)
  {
  }

  /** What receiving changes: the size still to be read, or the front message goes. */
  lemma TakeShape(l: Local, R: Side, a: Action)
    requires BothOk(l, R) && Enabled(l, a) && Moves(a) && !a.WriteSlot? && !a.Poll?
    ensures var m := Apply(l, a);
      && m.tx == l.tx && m.rx == l.rx && l.s.mque != []
      && (|| (m.s.mque == l.s.mque && m.s.box == l.s.box && 0 < m.s.rSize
              && if l.s.rSize == 0 then m.s.rSize <= l.rx.size else m.s.rSize < l.s.rSize)
          || (m.s.mque == l.s.mque[1..] && m.s.rSize == 0 && (m.s.box == l.s.box || m.s.box == l.s.box + [Avl])))
  {
    hide Strip, Rdys, Avls, Decode, DataEvents, Link.Block;
    FrontItem(R, l.s, l.rx);
  }

  lemma MoveReduces(l: Local, R: Side, a: Action)
    requires BothOk(l, R) && Enabled(l, a) && Moves(a)
    ensures WorkOf(Apply(l, a), R) < WorkOf(l, R)
  {
    if a.WriteSlot? {
      WriteReduces(l, R);
    } else if a.Poll? {
      PollReduces(l, R);
    } else {
      TakeReduces(l, R, a);
    }
  }

  lemma MoveKeepsSent(l: Local, a: Action)
    requires l.tx.Valid() && l.rx.Valid() && Enabled(l, a) && Moves(a)
    ensures var s := Apply(l, a).s; s.sent == l.s.sent && s.sPos == l.s.sPos && s.sIdx == l.s.sIdx
  {
    hide DataEvents, Link.Block;
  }

  lemma WriteReduces(l: Local, R: Side)
    requires l.tx.Valid() && l.rx.Valid() && Enabled(l, WriteSlot)
    ensures WorkOf(Apply(l, WriteSlot), R) < WorkOf(l, R)
  {
    hide Weight;
    WeightLess(l.s.box, 2, l.tx.size + 6);
    WeightMore(l.tx.q, l.s.box[0], 1, l.tx.size + 5);
  }

  lemma PollReduces(l: Local, R: Side)
    requires l.tx.Valid() && l.rx.Valid() && Enabled(l, Poll)
    ensures WorkOf(Apply(l, Poll), R) < WorkOf(l, R)
  {
    hide Weight;
    WeightLess(l.rx.q, 1, l.rx.size + 5);
    WeightMore(l.s.mque, l.rx.q[0], l.rx.size + 4, l.rx.size + 4);
  }

  lemma TakeReduces(l: Local, R: Side, a: Action)
    requires BothOk(l, R) && Enabled(l, a) && Moves(a) && !a.WriteSlot? && !a.Poll?
    ensures WorkOf(Apply(l, a), R) < WorkOf(l, R)
  {
    TakeShape(l, R, a);
    assert l.s.rSize <= l.rx.size;
    hide BothOk, Enabled, Apply, Moves, Weight;
    WeightLess(l.s.mque, l.rx.size + 4, l.rx.size + 4);
    WeightMore(l.s.box, Avl, 2, l.tx.size + 6);
  }

  /** What the receiver does with the front message. */
  function TakeFront(s: Side): Action
    requires s.mque != []
  {
    match s.mque[0]
    case DataRdy(_) => if s.rArg > 0 then TakeArgs else if s.rSize > 0 then TakeData(s.rSize) else SeeData
    case MarkRdy => TakeMark
    case CallRdy(_) => TakeCall
    case HaltRdy => TakeHalt
    case Avl => Poll
    case User(_, _) => TakeUser
    case Note(_, _) => TakeNote
  }

  /** A step that moves something along, if there is one. */
  function Pick(y: Sys): Step
    requires y.Valid()
  {
    if Enabled(View(y, true), WriteSlot) then Step(true, WriteSlot)
    else if Enabled(View(y, false), WriteSlot) then Step(false, WriteSlot)
    else if Enabled(View(y, true), Poll) then Step(true, Poll)
    else if Enabled(View(y, false), Poll) then Step(false, Poll)
    else if y.host.mque != [] && y.host.box == [] then Step(true, TakeFront(y.host))
    else if y.cop.mque != [] && y.cop.box == [] then Step(false, TakeFront(y.cop))
    else Step(true, Tick)
  }

  /** A unit with the lock free takes the front of its queue; for a call the arguments must have
      come, too. */
  lemma FrontReady(l: Local, R: Side)
    requires BothOk(l, R) && l.s.mque != [] && l.s.box == []
    requires |l.s.mque| > 1 || (l.rx.q == [] && R.box == [])
    ensures Enabled(l, TakeFront(l.s)) && Moves(TakeFront(l.s))
  {
    FrontItem(R, l.s, l.rx);
    if l.rx.q == [] && R.box == [] {
      assert l.rx.q + R.box == [];
      assert Items(R, l.s, l.rx) == l.s.mque;
    }
  }

  /** A unit waits for room in a full ring. */
  predicate Waits(s: Side, tx: Link) { s.box != [] && |tx.q| == RING_SLOTS }

  /** As long as anything is on its way some thread can move it along, unless both units wait for
      room in their rings. */
  lemma PickEnabled(y: Sys)
    requires Inv(y) && !Drained(y) && !(Waits(y.host, y.inn) && Waits(y.cop, y.out))
    ensures StepEnabled(y, Pick(y)) && Moves(Pick(y).act)
  {
    hide StreamOk, CreditsOk, TakeFront;
    var h, c := View(y, true), View(y, false);
    if !Enabled(h, WriteSlot) && !Enabled(c, WriteSlot) && !Enabled(h, Poll) && !Enabled(c, Poll) {
      if y.host.mque != [] && y.host.box == [] {
        FrontReady(h, y.cop);
      } else if y.cop.mque != [] && y.cop.box == [] {
        FrontReady(c, y.host);
      }
    }
  }

  /** What a ring must hold besides `n` user messages and notes to be full with a message waiting. */
  function Missing(n: nat): nat {
    if n > RING_SLOTS then 0 else RING_SLOTS + 1 - n
  }

  /** Both units together have too few blocks to fill up both rings. */
  predicate Few(y: Sys) {
    Missing(Unread(y.host, y.inn)) + Missing(Unread(y.cop, y.out)) > |y.inn.blks| + |y.out.blks|
  }

  /** Every block accounts for at most one message in one of the rings. */
  lemma RingsAndCredits(y: Sys)
    requires Inv(y)
    ensures |y.inn.q| + |y.host.box| + |y.out.q| + |y.cop.box|
         <= |y.inn.blks| + |y.out.blks| + Unread(y.host, y.inn) + Unread(y.cop, y.out)
    ensures |y.inn.q| + |y.host.box| <= |y.inn.blks| + |y.out.blks| + Unread(y.host, y.inn)
    ensures |y.out.q| + |y.cop.box| <= |y.inn.blks| + |y.out.blks| + Unread(y.cop, y.out)
  {
    CreditsOf(y.host, y.cop, y.inn, y.out);
    CreditsOf(y.cop, y.host, y.out, y.inn);
    CountAll(y.inn.q);
    CountAll(y.out.q);
    CountAll(y.host.box);
    CountAll(y.cop.box);
  }

  /** Then not both units wait. */
  lemma RoomForNext(y: Sys)
    requires Inv(y) && Few(y)
    ensures !(Waits(y.host, y.inn) && Waits(y.cop, y.out))
  {
    RingsAndCredits(y);
  }

  lemma MoveStep(y: Sys, t: Step)
    requires Inv(y) && StepEnabled(y, t) && Moves(t.act)
    ensures var z := StepApply(y, t);
      && Inv(z) && (Few(y) ==> Few(z))
      && WorkOf(View(z, true), z.cop) < WorkOf(View(y, true), y.cop)
      && z.host.sent == y.host.sent && z.cop.sent == y.cop.sent
      && z.host.sPos == y.host.sPos && z.cop.sPos == y.cop.sPos
  {
    hide DirInv, OthersOf, Unread, Work;
    StepKeepsInv(y, t);
    var R := if t.byHost then y.cop else y.host;
    ActionOthers(View(y, t.byHost), R, t.act);
    MoveReduces(View(y, t.byHost), R, t.act);
    MoveKeepsSent(View(y, t.byHost), t.act);
  }

  lemma {:induction false} RunAppend(y: Sys, a: seq<Step>, b: seq<Step>)
    requires y.Valid() && IsRun(y, a) && IsRun(RunApply(y, a), b)
    ensures IsRun(y, a + b) && RunApply(y, a + b) == RunApply(RunApply(y, a), b)
    decreases |a|
  {
    hide StepApply, StepEnabled, Sys.Valid;
    if a == [] {
      assert a + b == b;
    } else {
      RunAppend(StepApply(y, a[0]), a[1..], b);
      assert (a + b)[1..] == a[1..] + b;
    }
  }

  lemma {:induction false} OneStep(y: Sys, t: Step)
    requires y.Valid() && StepEnabled(y, t)
    ensures IsRun(y, [t]) && RunApply(y, [t]) == StepApply(y, t)
  {
    assert [t][1..] == [];
  }

  predicate NoSends(ts: seq<Step>) {
    forall i :: 0 <= i < |ts| ==> !Sends(ts[i].act)
  }

  lemma {:induction false} Drain(y: Sys) returns (ts: seq<Step>)
    requires Inv(y) && Few(y)
    ensures IsRun(y, ts) && NoSends(ts)
    ensures var z := RunApply(y, ts);
      && Inv(z) && Few(z) && Drained(z)
      && z.host.sent == y.host.sent && z.cop.sent == y.cop.sent
      && z.host.sPos == y.host.sPos && z.cop.sPos == y.cop.sPos
    decreases WorkOf(View(y, true), y.cop)
  {
    hide Inv, Few, WorkOf;
    if Drained(y) {
      ts := [];
    } else {
      InvValid(y);
      var t := Pick(y);
      RoomForNext(y);
      PickEnabled(y);
      MoveStep(y, t);
      var rest := Drain(StepApply(y, t));
      ts := [t] + rest;
      assert ts[1..] == rest;
    }
  }

  lemma FlushBoth(y: Sys) returns (ts: seq<Step>)
    requires Inv(y) && Few(y) && Drained(y)
    ensures IsRun(y, ts) && (forall i :: 0 <= i < |ts| ==> ts[i].act.Tick?)
    ensures var z := RunApply(y, ts);
      && Inv(z) && Few(z) && z.host.sPos == 0 && z.cop.sPos == 0
      && z.host.sent == y.host.sent && z.cop.sent == y.cop.sent
  {
    hide DirInv, Announced, OthersOf, Unread, Link.Valid;
    var t1, t2 := Step(true, Tick), Step(false, Tick);
    ts := [t1, t2];
    InvValid(y);
    StepKeepsInv(y, t1);
    ActionOthers(View(y, true), y.cop, Tick);
    var y1 := StepApply(y, t1);
    StepKeepsInv(y1, t2);
    ActionOthers(View(y1, false), y1.host, Tick);
    OneStep(y, t1);
    OneStep(y1, t2);
    RunAppend(y, [t1], [t2]);
    assert [t1] + [t2] == ts;
  }

  lemma SentMeansReceived(y: Sys)
    requires Inv(y) && Drained(y) && y.host.sPos == 0 && y.cop.sPos == 0
    ensures y.cop.rcvd == y.host.sent && y.host.rcvd == y.cop.sent
    ensures y.host.avail == |y.inn.blks| && y.cop.avail == |y.out.blks|
  {
  }

  /** When nothing is on its way, both units were set up. */
  lemma DrainedSetUp(y: Sys)
    requires Inv(y) && Drained(y)
    ensures SetUp(y.host) && SetUp(y.cop)
  {
    hide DirInv;
    assert y.cop.mque + Strip(y.inn.q) == [] && y.host.mque + Strip(y.out.q) == [];
    PendingLess(y.cop.seen, 0);
    PendingLess(y.host.seen, 0);
  }

  /** The threads can go on, without anything new being sent, so that everything both units have sent is
      received and every block is back with its sender. */
  ghost predicate CanDeliver(y: Sys)
    requires y.Valid()
  {
    exists more :: Delivers(y, more)
  }

  /** Besides moving messages and receiving, only the timers flush the blocks being filled. */
  predicate Delivers(y: Sys, more: seq<Step>)
    requires y.Valid()
  {
    && IsRun(y, more)
    && (forall i :: 0 <= i < |more| ==> !Sends(more[i].act) || more[i].act.Tick?)
    && var z := RunApply(y, more);
       && Drained(z)
       && z.cop.rcvd == y.host.sent && z.host.rcvd == y.cop.sent
       && z.host.avail == |y.inn.blks| && z.cop.avail == |y.out.blks|
  }

  /** No deadlock and no loss: everything can be delivered from every state that any interleaving can
      reach in which the blocks of both units are too few to fill up the rings. */
  lemma EverythingCanBeDelivered(y0: Sys, ts: seq<Step>, y: Sys)
    requires ReachedBy(y0, ts, y) && Few(y)
    ensures y.Valid() && CanDeliver(y)
  {
    ReachedInv(y0, ts, y);
    DeliveredFrom(y);
  }

  lemma DeliveredFrom(y: Sys)
    requires Inv(y) && Few(y)
    ensures y.Valid() && CanDeliver(y)
  {
    hide Inv, Few, StepEnabled, StepApply, IsRun, RunApply, Sends, Drained, Sys.Valid;
    InvValid(y);
    var a := Drain(y);
    var y1 := RunApply(y, a);
    var b := FlushBoth(y1);
    var y2 := RunApply(y1, b);
    var c := Drain(y2);
    var z := RunApply(y2, c);
    RunAppend(y1, b, c);
    RunAppend(y, a, b + c);
    var more := a + (b + c);
    SentMeansReceived(z);
    BlocksStay(y, more);
    assert Delivers(y, more);
  }

  predicate AllMoves(ts: seq<Step>) {
    forall i :: 0 <= i < |ts| ==> Moves(ts[i].act)
  }

  ghost predicate SomeMove(y: Sys)
    requires y.Valid()
  {
    exists t :: StepEnabled(y, t) && Moves(t.act)
  }

  /** However the threads are scheduled, moving and receiving comes to an end, and only when everything
      handed over has been received. */
  lemma {:induction false} MovesEnd(y: Sys, ts: seq<Step>)
    requires Inv(y) && Few(y)
    requires y.Valid() && IsRun(y, ts) && AllMoves(ts)
    ensures |ts| <= WorkOf(View(y, true), y.cop)
    ensures var z := RunApply(y, ts);
      && Inv(z) && z.host.sent == y.host.sent && z.cop.sent == y.cop.sent
      && z.host.sPos == y.host.sPos && z.cop.sPos == y.cop.sPos
      && (Drained(z) || SomeMove(z))
    decreases |ts|
  {
    hide Inv, Few, WorkOf, Moves, Drained;
    if ts == [] {
      if !Drained(y) {
        RoomForNext(y);
        PickEnabled(y);
      }
    } else {
      MoveStep(y, ts[0]);
      MovesEnd(StepApply(y, ts[0]), ts[1..]);
    }
  }

  lemma BlocksStay(y: Sys, ts: seq<Step>)
    requires y.Valid() && IsRun(y, ts)
    ensures var z := RunApply(y, ts); |z.inn.blks| == |y.inn.blks| && |z.out.blks| == |y.out.blks|
  {
    RunOthers(y, ts);
  }

  // ------------------------------------------------------------------------------------------
  // Calls whose arguments fill a block
  // ------------------------------------------------------------------------------------------

  /** Nothing is on its way and nothing is half filled. */
  predicate Idle(y: Sys) {
    Inv(y) && Drained(y) && y.host.sPos == 0 && y.cop.sPos == 0
  }

  /** Data that starts in an empty block and fills it is handed over first of all. */
  lemma {:induction false} FilledBlockFirst(l: Local, data: seq<Qword>)
    requires l.tx.Valid() && l.s.sPos < l.tx.size
    ensures l.s.box <= FillLoop(l, data).0.s.box
    ensures l.s.avail > 0 && l.s.sPos + |data| >= l.tx.size && l.s.box == [] ==>
              var b := FillLoop(l, data).0.s.box; b != [] && b[0] == DataRdy(l.tx.size)
    decreases |data|
  {
    hide Overwrite, DataEvents, Link.Block;
    if data != [] && l.s.avail > 0 {
      var n := if |data| < l.tx.size - l.s.sPos then |data| else l.tx.size - l.s.sPos;
      FilledBlockFirst(DoFill(l, data[..n]), data[n..]);
    }
  }

  /** After such a call the first message in the ring is a data message. */
  lemma CallStartsWithData(y: Sys, w: bool, args: seq<Qword>)
    requires Idle(y) && StepEnabled(y, Step(w, SendCall(args))) && |args| >= View(y, w).tx.size
    ensures var l, m := View(y, w), View(StepApply(y, Step(w, SendCall(args))), w);
      && m.s.box != [] && m.s.box[0] == DataRdy(l.tx.size) && m.tx.size == l.tx.size
      && m.s.sent == l.s.sent + [Call(args)] && m.rx == l.rx && m.tx.q == []
    ensures View(StepApply(y, Step(w, SendCall(args))), !w).s == View(y, !w).s
  {
    hide DirInv, FillLoop, DataEvents, Link.Block;
    InvValid(y);
    var l := View(y, w);
    IdleSender(y, w);
    var l1 := l.(s := l.s.(avail := l.s.avail - 1, sIdx := l.s.sIdx + 1));
    FilledBlockFirst(l1, args);
  }

  lemma IdleSender(y: Sys, w: bool)
    requires Idle(y)
    ensures var s := View(y, w).s; s.sPos == 0 && s.box == [] && s.mque == [] && s.rSize == 0 && s.rArg == 0 && s.rPos == 0
    ensures View(y, w).tx.q == [] && 1 <= View(y, w).tx.size && View(y, w).s.rcvd == View(y, !w).s.sent
    ensures View(y, w).s.avail == |View(y, w).tx.blks|
  {
    SentMeansReceived(y);
  }

  /** The receiver has nothing to do. */
  predicate Bored(s: Side) { s.mque == [] && s.box == [] && s.rSize == 0 && s.rArg == 0 && s.rPos == 0 }

  lemma OnePolled(y: Sys, w: bool, n: nat)
    requires y.Valid() && View(y, w).rx.q == [DataRdy(n)] && Bored(View(y, w).s)
    ensures StepEnabled(y, Step(w, Poll))
    ensures var l, m := View(y, w), View(StepApply(y, Step(w, Poll)), w);
      && m.s == l.s.(mque := [DataRdy(n)], appIn := m.s.appIn) && m.rx == l.rx.(q := [])
    ensures View(StepApply(y, Step(w, Poll)), !w).s == View(y, !w).s
  {
  }

  lemma OneSeen(y: Sys, w: bool, n: nat)
    requires y.Valid() && View(y, w).s.mque == [DataRdy(n)] && Bored(View(y, w).s.(mque := []))
    ensures StepEnabled(y, Step(w, SeeData))
    ensures var l, m := View(y, w), View(StepApply(y, Step(w, SeeData)), w);
      && m.s == l.s.(rSize := n, appIn := m.s.appIn) && m.rx == l.rx
    ensures View(StepApply(y, Step(w, SeeData)), !w).s == View(y, !w).s
  {
  }

  lemma OneTaken(y: Sys, w: bool, n: nat)
    requires y.Valid() && View(y, w).s.mque == [DataRdy(n)] && View(y, w).s.box == [] && View(y, w).s.rPos == 0
    requires View(y, w).s.rSize == n && 1 <= n <= View(y, w).rx.size
    ensures var t := Step(w, TakeData(1));
      && StepEnabled(y, t)
      && var l := View(y, w);
         View(StepApply(y, t), w).s.rcvd == l.s.rcvd + [Data(l.rx.Block(l.s.rIdx)[0])]
    ensures View(StepApply(y, Step(w, TakeData(1))), !w).s == View(y, !w).s
  {
    var l := View(y, w);
    assert DataEvents(l.rx.Block(l.s.rIdx)[0..1]) == [Data(l.rx.Block(l.s.rIdx)[0])];
  }

  /** An idle receiver takes a quadword of a data block that waits in the ring. */
  lemma OneQwordRead(y: Sys, w: bool, n: nat)
    requires y.Valid() && View(y, w).rx.q == [DataRdy(n)] && 1 <= n <= View(y, w).rx.size && Bored(View(y, w).s)
    ensures var t2, t3, t4 := Step(w, Poll), Step(w, SeeData), Step(w, TakeData(1));
      && StepEnabled(y, t2)
      && StepEnabled(StepApply(y, t2), t3)
      && StepEnabled(StepApply(StepApply(y, t2), t3), t4)
      && var l := View(y, w);
         var z := StepApply(StepApply(StepApply(y, t2), t3), t4);
         && View(z, !w).s == View(y, !w).s
         && View(z, w).s.rcvd == l.s.rcvd + [Data(l.rx.Block(l.s.rIdx)[0])]
  {
    hide StepEnabled, StepApply;
    OnePolled(y, w, n);
    var y3 := StepApply(y, Step(w, Poll));
    OneSeen(y3, w, n);
    var y4 := StepApply(y3, Step(w, SeeData));
    OneTaken(y4, w, n);
  }

  /** The oldest of several messages is copied into the ring. */
  lemma OneWritten(y: Sys, w: bool)
    requires y.Valid() && View(y, w).s.box != [] && View(y, w).tx.q == []
    ensures StepEnabled(y, Step(w, WriteSlot))
    ensures var l, m := View(y, w), View(StepApply(y, Step(w, WriteSlot)), w);
      m.tx.q == [l.s.box[0]] && m.tx.size == l.tx.size && m.s.sent == l.s.sent && m.rx == l.rx
    ensures View(StepApply(y, Step(w, WriteSlot)), !w).s == View(y, !w).s
  {
  }

  /** The receiver of a call whose arguments fill a block gets data where the call was sent. */
  lemma FullBlockCallBreaks(y: Sys, w: bool, args: seq<Qword>) returns (ts: seq<Step>)
    requires Idle(y) && StepEnabled(y, Step(w, SendCall(args))) && |args| >= View(y, w).tx.size
    ensures IsRun(y, ts) && ts != [] && ts[0] == Step(w, SendCall(args)) && NoSends(ts[1..])
    ensures !(View(RunApply(y, ts), !w).s.rcvd <= View(RunApply(y, ts), w).s.sent)
  {
    hide Idle, StepEnabled, StepApply, IsRun, RunApply, Sys.Valid;
    IdleValid(y);
    IdleSender(y, w);
    IdleSender(y, !w);
    CallStartsWithData(y, w, args);
    var t0, t1 := Step(w, SendCall(args)), Step(w, WriteSlot);
    var y1 := StepApply(y, t0);
    OneWritten(y1, w);
    var y2 := StepApply(y1, t1);
    OneQwordRead(y2, !w, View(y, w).tx.size);
    assert View(y2, w).s.sent[|View(y, !w).s.rcvd|] == Call(args);
    ts := FiveSteps(y, t0, t1, Step(!w, Poll), Step(!w, SeeData), Step(!w, TakeData(1)));
    assert ts[1..] == [t1, Step(!w, Poll), Step(!w, SeeData), Step(!w, TakeData(1))];
  }

  lemma IdleValid(y: Sys)
    requires Idle(y)
    ensures y.Valid()
  {
  }

  lemma FiveSteps(y: Sys, t0: Step, t1: Step, t2: Step, t3: Step, t4: Step) returns (ts: seq<Step>)
    requires y.Valid() && StepEnabled(y, t0)
    requires StepEnabled(StepApply(y, t0), t1)
    requires StepEnabled(StepApply(StepApply(y, t0), t1), t2)
    requires StepEnabled(StepApply(StepApply(StepApply(y, t0), t1), t2), t3)
    requires StepEnabled(StepApply(StepApply(StepApply(StepApply(y, t0), t1), t2), t3), t4)
    ensures ts == [t0, t1, t2, t3, t4] && IsRun(y, ts)
    ensures RunApply(y, ts)
         == StepApply(StepApply(StepApply(StepApply(StepApply(y, t0), t1), t2), t3), t4)
  {
    hide StepEnabled, StepApply;
    var y1 := StepApply(y, t0);
    var y2 := StepApply(y1, t1);
    var y3 := StepApply(y2, t2);
    var y4 := StepApply(y3, t3);
    OneStep(y, t0); OneStep(y1, t1); OneStep(y2, t2); OneStep(y3, t3); OneStep(y4, t4);
    RunAppend(y3, [t3], [t4]);
    RunAppend(y2, [t2], [t3] + [t4]);
    RunAppend(y1, [t1], [t2] + ([t3] + [t4]));
    RunAppend(y, [t0], [t1] + ([t2] + ([t3] + [t4])));
    ts := [t0, t1, t2, t3, t4];
    assert [t0] + ([t1] + ([t2] + ([t3] + [t4]))) == ts;
  }

  /** Every run that begins with the call and goes on by moving and receiving delivers in order. */
  ghost predicate CallIsSafe(y: Sys, w: bool, args: seq<Qword>)
    requires y.Valid()
  {
    forall ts: seq<Step> :: IsRun(y, ts) && ts != [] && ts[0] == Step(w, SendCall(args)) && NoSends(ts[1..]) ==>
      View(RunApply(y, ts), !w).s.rcvd <= View(RunApply(y, ts), w).s.sent
  }

  /** A call, or a return, reaches the other side in order exactly when its arguments are smaller than
      a block. */
  lemma CallSafeIff(y: Sys, w: bool, args: seq<Qword>)
    requires Idle(y) && StepEnabled(y, Step(w, SendCall(args)))
    ensures CallIsSafe(y, w, args) <==> |args| < View(y, w).tx.size
  {
    if |args| >= View(y, w).tx.size {
      var ts := FullBlockCallBreaks(y, w, args);
    } else {
      forall ts: seq<Step> | IsRun(y, ts) && ts != [] && ts[0] == Step(w, SendCall(args)) && NoSends(ts[1..])
        ensures View(RunApply(y, ts), !w).s.rcvd <= View(RunApply(y, ts), w).s.sent
      {
        assert forall i :: 0 < i < |ts| ==> ts[i] == ts[1..][i - 1];
        RunKeepsInv(y, ts);
      }
    }
  }
}
