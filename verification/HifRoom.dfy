/** As long as no user messages are sent, no call of a unit ever waits for room in its ring. */
module HifRoom {
  import opened HifProtocol
  import opened HifSafety
  import opened HifNotes
  import opened HifRuns
  import opened HifCalls

  /** Room in the ring for every message that sending can make. */
  predicate RoomToSend(l: Local) {
    |l.tx.q| + l.s.avail + Avls(l.rx.q) + 1 <= RING_SLOTS
  }

  /** Room in the ring for every block that receiving can hand back. */
  predicate RoomToRecv(l: Local) {
    |l.tx.q| + |l.s.mque| + |l.rx.q| + 1 <= RING_SLOTS
  }

  /** A thread that waits inside a call has a message waiting, or another thread has. */
  predicate Settled(s: Side) { s.box == [] ==> !s.appIn }

  lemma {:induction false} RunSettles(y: Sys, ts: seq<Step>)
    requires y.Valid() && IsRun(y, ts) && Settled(y.host) && Settled(y.cop)
    ensures var z := RunApply(y, ts); Settled(z.host) && Settled(z.cop)
    decreases |ts|
  {
    hide Enabled, Effect;
    if ts != [] {
      RunSettles(StepApply(y, ts[0]), ts[1..]);
    }
  }

  /** In every state that the threads can reach without user messages, a unit between calls is ready for
      the next call, and has room for whatever the call sends. */
  lemma ReadyWithRoom(y0: Sys, ts: seq<Step>, y: Sys, byHost: bool)
    requires ReachedBy(y0, ts, y) && Chatter(ts, true) == 0 && Chatter(ts, false) == 0
    requires View(y, byHost).s.box == [] && View(y, byHost).s.rArg == 0
    ensures var l := View(y, byHost); Ready(l) && RoomToSend(l) && RoomToRecv(l)
  {
    hide DirInv, Announced, Untouched, Ready, IsRun, RunApply, Init;
    ReachedInv(y0, ts, y);
    assert Settled(y.host) && Settled(y.cop) by { StartSettled(y0); RunSettles(y0, ts); }
    ReachedUntouched(y0, ts, y);
    HostUntouched(y.host);
    InvMeansReady(View(y, byHost), if byHost then y.cop else y.host);
    MessagesBounded(y0, ts, y);
    CreditsConserved(y0, ts, y);
    CountAll(y.inn.q);
    CountAll(y.out.q);
  }

  lemma StartSettled(y: Sys)
    requires Init(y)
    ensures y.Valid() && Settled(y.host) && Settled(y.cop)
  {
  }

  lemma {:induction false} PollCredits(l: Local)
    ensures PollAll(l).s.avail + Avls(PollAll(l).rx.q) == l.s.avail + Avls(l.rx.q)
    ensures |PollAll(l).s.mque| + |PollAll(l).rx.q| <= |l.s.mque| + |l.rx.q|
    decreases |l.rx.q|
  {
    if l.rx.q != [] && |l.s.mque| < QUE_CAPACITY {
      PollCredits(DoPoll(l));
    }
  }

  /** Nothing had to be polled by the other unit: everything that was in the ring is still there. */
  predicate NoWait(l: Local, r: Local) { l.tx.q <= r.tx.q }

  lemma WrittenRoom(l: Local)
    requires |l.tx.q| + |l.s.box| <= RING_SLOTS
    ensures Written(l).tx.q == l.tx.q + l.s.box
  {
  }

  lemma FillRoom(l: Local, data: seq<Qword>)
    requires Ready(l) && SetUp(l.s) && RoomToSend(l) && l.s.avail > 0 && |data| > 0 && l.s.sPos + |data| <= l.tx.size
    ensures var m := Written(DoFill(l, data)); Ready(m) && SetUp(m.s) && RoomToSend(m) && NoWait(l, m)
  {
    hide Readable, Strip, Avls, Overwrite, DataEvents, Reaches, Latest;
    FillReady(l, data);
    WrittenRoom(DoFill(l, data));
  }

  lemma {:induction false} SendLoopRoom(l: Local, data: seq<Qword>)
    requires Ready(l) && SetUp(l.s) && RoomToSend(l)
    ensures NoWait(l, SendLoop(l, data).0)
    decreases |data|
  {
    hide Ready, DoFill, Written, PollAll, SendLoop, Avls;
    SendLoopStep(l, data);
    if data != [] {
      PollCredits(l);
      PollKeeps(l);
      var l1 := if l.s.avail == 0 then PollAll(l) else l;
      SendFacts(l1);
      if l1.s.avail > 0 {
        var n := Min(|data|, l1.tx.size - l1.s.sPos);
        FillRoom(l1, data[..n]);
        SendLoopRoom(Written(DoFill(l1, data[..n])), data[n..]);
      }
    }
  }

  lemma PreparedRoom(l: Local, need: nat)
    requires Ready(l) && RoomToSend(l)
    ensures var m := Prepared(l, need);
            Ready(m) && NoWait(l, m) && m.s.avail >= 0 && |m.tx.q| + m.s.avail < RING_SLOTS && m.s.sPos == 0
  {
    hide Readable, Strip, Avls, PollAll, Reaches, Latest;
    PreparedReached(l, need);
    WrittenRoom(l.(s := Flushed(l.s)));
    PollCredits(FlushCall(l));
  }

  lemma FlushRoom(l: Local)
    requires Ready(l) && RoomToSend(l)
    ensures NoWait(l, FlushCall(l))
  {
    hide Readable, Strip, Latest;
    WrittenRoom(l.(s := Flushed(l.s)));
  }

  lemma ControlRoom(l: Local, m: Msg, e: Event)
    requires Ready(l) && RoomToSend(l)
    ensures NoWait(l, ControlCall(l, m, e).0)
  {
    hide Ready, Prepared, Latest;
    PreparedRoom(l, 1);
    BoxEmpty(Prepared(l, 1));
    if Prepared(l, 1).s.avail >= 1 {
      WrittenRoom(DoControl(Prepared(l, 1), m, e));
    }
  }

  lemma CallRoom(l: Local, args: seq<Qword>)
    requires Ready(l) && RoomToSend(l) && |args| < l.tx.size
    ensures l.tx.Valid() && l.s.sPos < l.tx.size && NoWait(l, CallCall(l, args).0)
  {
    hide Ready, Prepared, CallSent, FillLoop, Latest, Link.Block, Link.Valid;
    SendFacts(l);
    PreparedRoom(l, 2);
    var p := Prepared(l, 2);
    PreparedSize(l, 2);
    SendFacts(p);
    BoxEmpty(p);
    if p.s.avail >= 2 {
      CallBlock(p, p.s.(rIdx := p.s.sIdx), args);
      WrittenRoom(CallSent(p, args));
      SentSame(p, args);
    }
  }

  lemma SentSame(l: Local, args: seq<Qword>)
    requires l.tx.Valid() && l.s.sPos == 0
    ensures CallSent(l, args).tx.q == l.tx.q
  {
    hide FillLoop;
  }

  /** Data, flushes, markers, halts, calls and returns. */
  lemma SendingNeverWaits(l: Local, data: seq<Qword>, m: Msg, e: Event, args: seq<Qword>)
    requires Ready(l) && SetUp(l.s) && RoomToSend(l) && |args| < l.tx.size
    ensures l.tx.Valid() && l.s.sPos < l.tx.size
    ensures NoWait(l, SendLoop(l, data).0) && NoWait(l, FlushCall(l))
    ensures NoWait(l, ControlCall(l, m, e).0) && NoWait(l, CallCall(l, args).0)
  {
    hide *;
    CallRoom(l, args);
    SendLoopRoom(l, data);
    FlushRoom(l);
    ControlRoom(l, m, e);
  }

  lemma BoxEmpty(l: Local)
    requires Ready(l)
    ensures l.s.box == [] && 2 <= |l.tx.blks|
  {
  }

  lemma {:induction false} DropRoom(l: Local)
    ensures |DropNotes(l).s.mque| <= |l.s.mque| && (l.s.box == [] ==> DropNotes(l).s.box == [])
    decreases |l.s.mque|
  {
    if l.s.mque != [] && l.s.mque[0].Note? {
      DropRoom(DoTakeNote(l));
    }
  }

  lemma MsgLoopRoom(l: Local)
    requires RoomToRecv(l) && l.s.box == []
    ensures RoomToRecv(MsgLoop(l).0) && NoWait(l, MsgLoop(l).0)
  {
    hide PollAll, DropNotes;
    PollKeeps(l);
    PollCredits(l);
    DropRoom(PollAll(l));
  }

  lemma TakeRoom(l: Local, rArg: nat, evs: seq<Event>)
    requires RoomToRecv(l) && l.s.box == [] && l.s.mque != []
    ensures var m := Written(DoTake(l, rArg, evs)); RoomToRecv(m) && NoWait(l, m) && m.s.box == []
  {
  }

  lemma TakeDataRoom(l: Local, n: nat)
    requires Ready(l) && RoomToRecv(l) && 0 < n <= l.s.rSize
    ensures var m := Written(DoTakeData(l, n)); RoomToRecv(m) && NoWait(l, m)
  {
    hide Readable, Strip, Link.Block, DataEvents;
  }

  lemma {:induction false} RecvLoopRoom(l: Local, want: nat)
    requires Ready(l) && RoomToRecv(l)
    ensures NoWait(l, RecvLoop(l, want).0)
    decreases want
  {
    hide Ready, MsgLoop, DoTakeData, Written, RecvLoop, RoomToRecv, Link.Block;
    RecvLoopStep(l, want);
    BoxEmpty(l);
    MsgLoopRoom(l);
    if want > 0 && (l.s.rSize > 0 || MsgLoop(l).1 == RecvHostData) {
      var l1 := if l.s.rSize > 0 then l else MsgLoop(l).0;
      var n := Min(l1.s.rSize, want);
      ReadyValid(l1);
      TakeDataRoom(l1, n);
      RecvLoopRoom(Written(DoTakeData(l1, n)), want - n);
    }
  }

  /** Data, markers, user messages, calls and returns received. */
  lemma ReceivingNeverWaits(l: Local, want: nat)
    requires Ready(l) && RoomToRecv(l)
    ensures NoWait(l, RecvLoop(l, want).0) && NoWait(l, MsgLoop(l).0) && NoWait(l, UserRecv(l).0)
    ensures NoWait(l, MarkerRecv(l).0) && NoWait(l, CallRecv(l).0)
  {
    hide Ready, MsgLoop, RecvLoop, Written, RoomToRecv, Link.Block;
    BoxEmpty(l);
    RecvLoopRoom(l, want);
    MsgLoopRoom(l);
    MsgLoopReady(l);
    var m := MsgLoop(l).0;
    BoxEmpty(m);
    if m.s.mque != [] {
      TakeRoom(m, m.s.rArg, [Marker]);
      if CallRecv(l).1 {
        var k := m.s.mque[0].argc;
        var evs := if k == 0 then [Call([])] else [];
        TakeRoom(m, k, evs);
        var m1 := Written(DoTake(m, k, evs));
        if k > 0 {
          TakenRest(m, k, evs);
          TakeRoom(m1, 0, [Call(CallRecv(l).2)]);
        }
      }
    }
  }

  lemma TakenRest(l: Local, rArg: nat, evs: seq<Event>)
    requires l.s.mque != []
    ensures Written(DoTake(l, rArg, evs)).s.mque == l.s.mque[1..]
  {
  }
}
