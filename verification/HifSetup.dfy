/** What the code does when a coprocessor's application uses a block before its unit was set up: the
    unit's pointer into its blocks is set by the address message, whatever block is in use by then.
    Everything is copied into its block and delivered in order exactly when this never happens. */
module HifSetup {
  import opened Wrappers
  import opened HifProtocol
  import opened HifSafety
  import opened HifNotes
  import opened HifRuns
  import opened HifDelivery
  import opened HifCalls

  /** The protocol with the coprocessor's pointer: `at` is the block that it points to, None if it points
      elsewhere; `wild` says that data was copied to a place or in pieces that nobody knows. */
  datatype Raw = Raw(y: Sys, at: Option<nat>, wild: bool)

  function New(y: Sys): Raw { Raw(y, None, false) }

  /** The pointer as it is computed for a new block. */
  function Pointer(s: Side, n: nat): Option<nat>
    requires n > 0
  {
    if SetUp(s) then Some(s.sIdx % n) else None
  }

  predicate Wild(r: Raw, a: Action) {
    || (a.Fill? && (r.at.None? || OBLK_PARAM !in r.y.cop.seen))
    || (a.SendCall? && a.args != [] && !SetUp(r.y.cop))
  }

  /** Data goes to where the pointer points. */
  function CopiedTo(l: Link, at: Option<nat>, p: nat, data: seq<Qword>): (r: seq<seq<Qword>>)
    requires l.Valid() && p + |data| <= l.size
    ensures |r| == |l.blks| && forall i :: 0 <= i < |r| ==> |r[i]| == l.size
  {
    if at.None? || at.value >= |l.blks| then l.blks
    else l.blks[at.value := Overwrite(l.blks[at.value], p, data)]
  }

  predicate RawEnabled(r: Raw, t: Step) {
    r.y.Valid() && StepStartable(r.y, t)
  }

  function RawApply(r: Raw, t: Step): (z: Raw)
    requires RawEnabled(r, t)
    ensures z.y.Valid()
  {
    var y, c := StepApply(r.y, t), r.y.cop;
    if t.byHost then r.(y := y)
    else
      var blks := if t.act.Fill? then CopiedTo(r.y.out, r.at, c.sPos, t.act.data)
                  else if t.act.SendCall? && !SetUp(c) then r.y.out.blks
                  else y.out.blks;
      var at := if t.act.TakeNote? && c.mque[0].msgType == OBLK_ADR then Some(0)
                else if y.cop.sIdx != c.sIdx then Pointer(y.cop, |y.out.blks|)
                else r.at;
      Raw(y.(out := y.out.(blks := blks)), at, r.wild || Wild(r, t.act))
  }

  predicate RawRun(r: Raw, ts: seq<Step>)
    decreases |ts|
  {
    ts == [] || (RawEnabled(r, ts[0]) && RawRun(RawApply(r, ts[0]), ts[1..]))
  }

  function RawEnd(r: Raw, ts: seq<Step>): Raw
    requires RawRun(r, ts)
    decreases |ts|
  {
    if ts == [] then r else RawEnd(RawApply(r, ts[0]), ts[1..])
  }

  /** No step uses a block before the unit was set up. */
  predicate Proper(r: Raw, ts: seq<Step>)
    requires RawRun(r, ts)
    decreases |ts|
  {
    ts == [] || (StepEnabled(r.y, ts[0]) && Proper(RawApply(r, ts[0]), ts[1..]))
  }

  /** Nothing was copied to an unknown place, and what was received was sent. */
  predicate InOrder(r: Raw) {
    !r.wild && r.y.cop.rcvd <= r.y.host.sent && r.y.host.rcvd <= r.y.cop.sent
  }

  /** It stays so whatever the threads do, if they use blocks only when the unit was set up. */
  ghost predicate StaysInOrder(r: Raw) {
    forall more :: RawRun(r, more) && Proper(r, more) && CallsFit(r.y, more) ==> InOrder(RawEnd(r, more))
  }

  // ------------------------------------------------------------------------------------------
  // Proper runs are runs of the protocol
  // ------------------------------------------------------------------------------------------

  /** The pointer points to the block in use, as soon as its address is known. */
  predicate Agrees(r: Raw) {
    && r.y.Valid() && !r.wild && AllUntouched(r.y)
    && r.at == (if OBLK_ADR in r.y.cop.seen then Some(r.y.cop.sIdx % |r.y.out.blks|) else None)
  }

  /** The address message comes before the first block is begun. */
  lemma AddressFirst(y: Sys)
    requires Inv(y) && Untouched(y.cop) && y.cop.mque != [] && y.cop.mque[0].Note? && y.cop.mque[0].msgType == OBLK_ADR
    ensures y.cop.sIdx == 0
  {
    hide DirInv, Pending;
    FrontFirst(y.cop, y.inn.q, y.host.box);
    FirstUnseen(y.cop.seen);
  }

  lemma SameBlocksWritten(r: Raw, t: Step)
    requires Agrees(r) && StepEnabled(r.y, t)
    ensures RawApply(r, t).y == StepApply(r.y, t)
  {
    hide FillLoop, DataEvents, Overwrite;
  }

  lemma NotWild(r: Raw, t: Step)
    requires Agrees(r) && StepEnabled(r.y, t) && !t.byHost
    ensures !Wild(r, t.act)
  {
  }

  lemma BlocksCount(y: Sys, t: Step)
    requires y.Valid() && StepStartable(y, t)
    ensures var z := StepApply(y, t); |z.inn.blks| == |y.inn.blks| && |z.out.blks| == |y.out.blks|
    ensures var z := StepApply(y, t); z.inn.size == y.inn.size && z.out.size == y.out.size
  {
    hide Startable;
  }

  /** What the pointer depends on. */
  lemma SeenGrows(l: Local, a: Action)
    requires l.tx.Valid() && l.rx.Valid() && Startable(l, a)
    ensures var s := Apply(l, a).s;
            s.seen == if a.TakeNote? then l.s.seen + {l.s.mque[0].msgType} else l.s.seen
    ensures a.TakeNote? ==> Apply(l, a).s.sIdx == l.s.sIdx && l.s.mque != [] && l.s.mque[0].Note?
    ensures Apply(l, a).s.sIdx >= l.s.sIdx
  {
    hide FillLoop, DataEvents, Overwrite;
    if a.SendCall? {
      CallSeen(l.(s := Flushed(l.s)), a.args);
      CallIdx(l.(s := Flushed(l.s)), a.args);
    }
  }

  lemma CallIdx(l: Local, args: seq<Qword>)
    requires l.tx.Valid() && l.s.sPos == 0
    ensures CallSent(l, args).s.sIdx > l.s.sIdx
  {
    hide FillLoop;
    IdxGrows(l.(s := l.s.(avail := l.s.avail - 1, sIdx := l.s.sIdx + 1)), args);
  }

  lemma {:induction false} IdxGrows(l: Local, data: seq<Qword>)
    requires l.tx.Valid() && l.s.sPos < l.tx.size
    ensures FillLoop(l, data).0.s.sIdx >= l.s.sIdx
    decreases |data|
  {
    if data != [] && l.s.avail > 0 {
      var n := if |data| < l.tx.size - l.s.sPos then |data| else l.tx.size - l.s.sPos;
      IdxGrows(DoFill(l, data[..n]), data[n..]);
    }
  }

  /** Only a new block and the address message move the pointer. */
  lemma ProperStep(r: Raw, t: Step)
    requires Agrees(r) && Inv(r.y) && StepEnabled(r.y, t)
    ensures RawEnabled(r, t) && RawApply(r, t).y == StepApply(r.y, t) && Agrees(RawApply(r, t))
  {
    hide Announced, DirInv, Enabled, Apply;
    var z := RawApply(r, t);
    SameBlocksWritten(r, t);
    BlocksCount(r.y, t);
    HostUntouched(r.y.host);
    UntouchedKept(View(r.y, t.byHost), t.act);
    if !t.byHost {
      NotWild(r, t);
      SeenGrows(View(r.y, false), t.act);
      if t.act.TakeNote? && r.y.cop.mque[0].msgType == OBLK_ADR {
        AddressFirst(r.y);
      } else if z.y.cop.sIdx != r.y.cop.sIdx {
        BegunMeansSetUp(r.y.cop, z.y.cop);
      }
    }
  }

  lemma BegunMeansSetUp(s: Side, z: Side)
    requires Untouched(z) && z.sIdx != s.sIdx
    ensures SetUp(z) || z.sIdx == 0
  {
  }

  /** Proper runs are just the protocol's runs, and put nothing in a wrong place. */
  lemma {:induction false} ProperRun(r: Raw, ts: seq<Step>)
    requires Agrees(r) && Inv(r.y) && CallsFit(r.y, ts)
    ensures r.y.Valid() && (IsRun(r.y, ts) <==> RawRun(r, ts) && Proper(r, ts))
    ensures IsRun(r.y, ts) ==>
      var z := RawEnd(r, ts); z.y == RunApply(r.y, ts) && Agrees(z) && Inv(z.y)
    decreases |ts|
  {
    hide Agrees, Inv, RawEnabled, RawApply, StepEnabled, StepApply;
    AgreesValid(r);
    if ts != [] && StepEnabled(r.y, ts[0]) {
      CallsFitTail(r.y, ts);
      ProperStep(r, ts[0]);
      StepKeepsInv(r.y, ts[0]);
      ProperRun(RawApply(r, ts[0]), ts[1..]);
    }
  }

  lemma AgreesValid(r: Raw)
    requires Agrees(r)
    ensures r.y.Valid()
  {
  }

  lemma AgreesInOrder(r: Raw)
    requires Agrees(r) && Inv(r.y)
    ensures InOrder(r)
  {
  }

  // ------------------------------------------------------------------------------------------
  // A block used too early
  // ------------------------------------------------------------------------------------------

  lemma {:induction false} RawAppend(r: Raw, a: seq<Step>, b: seq<Step>)
    requires RawRun(r, a) && RawRun(RawEnd(r, a), b)
    ensures RawRun(r, a + b) && RawEnd(r, a + b) == RawEnd(RawEnd(r, a), b)
    ensures Proper(r, a) && Proper(RawEnd(r, a), b) ==> Proper(r, a + b)
    decreases |a|
  {
    hide RawApply, RawEnabled, StepEnabled;
    if a == [] {
      assert a + b == b;
    } else {
      EnabledValid(r, a[0]);
      RawAppend(RawApply(r, a[0]), a[1..], b);
      assert (a + b)[1..] == a[1..] + b;
    }
  }

  lemma EnabledValid(r: Raw, t: Step)
    requires RawEnabled(r, t)
    ensures r.y.Valid()
  {
  }

  lemma RawOne(r: Raw, t: Step)
    requires RawEnabled(r, t)
    ensures RawRun(r, [t]) && RawEnd(r, [t]) == RawApply(r, t)
    ensures r.y.Valid() && StepEnabled(r.y, t) ==> Proper(r, [t])
  {
    assert [t][1..] == [];
  }

  /** A block is used before the unit was set up: the block goes, and the pointer is lost; or data was
      copied somewhere. */
  lemma Misused(r: Raw, t: Step)
    requires Agrees(r) && RawEnabled(r, t) && !StepEnabled(r.y, t)
    ensures !t.byHost && !SetUp(r.y.cop)
    ensures var z := RawApply(r, t);
      z.wild || (z.y == StepApply(r.y, t) && z.at == None && z.y.cop.sIdx == 1 && z.y.cop.sPos == 0)
  {
    hide DataEvents, Overwrite;
    var c := r.y.cop;
    assert !SetUp(c) && c.sIdx == 0 && c.sPos == 0;
    if t.act.SendCall? && t.act.args == [] {
      EmptyCall(View(r.y, false));
    }
  }

  lemma EmptyCall(l: Local)
    requires l.tx.Valid() && l.s.sPos == 0
    ensures var m := CallSent(l, []);
      && m.tx == l.tx && m.rx == l.rx && m.s.sPos == 0 && m.s.sIdx == l.s.sIdx + 1 && m.s.seen == l.s.seen
  {
  }

  /** Moving messages and receiving change the pointer only by the address message. */
  lemma RawMove(r: Raw, t: Step)
    requires r.y.Valid() && StepEnabled(r.y, t) && !Sends(t.act)
    ensures var z := RawApply(r, t);
      && z.y == StepApply(r.y, t) && z.wild == r.wild && (z.at == r.at || z.at == Some(0))
      && z.y.cop.sIdx == r.y.cop.sIdx && z.y.out.blks == r.y.out.blks && z.y.out.size == r.y.out.size
  {
    hide DataEvents, Overwrite, Link.Block;
  }

  lemma {:induction false} RawMoves(r: Raw, ts: seq<Step>)
    requires r.y.Valid() && IsRun(r.y, ts) && NoSends(ts)
    ensures RawRun(r, ts) && Proper(r, ts)
    ensures var z := RawEnd(r, ts);
      && z.y == RunApply(r.y, ts) && z.wild == r.wild && (z.at == r.at || z.at == Some(0))
      && z.y.cop.sIdx == r.y.cop.sIdx && z.y.out.blks == r.y.out.blks && z.y.out.size == r.y.out.size
    decreases |ts|
  {
    hide StepEnabled, StepApply, RawApply, Sends;
    if ts != [] {
      RawMove(r, ts[0]);
      RawMoves(RawApply(r, ts[0]), ts[1..]);
    }
  }

  /** A pointer that was lost, or set back to the first block while the second one is in use. */
  predicate Astray(r: Raw) {
    && r.y.Valid() && Drained(r.y) && SetUp(r.y.cop) && r.y.out.size >= 2
    && (r.at == None || r.at == Some(0)) && !r.wild && r.y.cop.sIdx == 1 && r.y.cop.sPos == 0
    && r.y.host.rIdx == 1 && Bored(r.y.host) && r.y.cop.avail > 0 && r.y.host.rcvd == r.y.cop.sent
  }

  /** What the host finds in the block in use. */
  function Stale(r: Raw): Qword
    requires r.y.Valid()
  {
    r.y.out.Block(1)[0]
  }

  function Other(q: Qword): (r: Qword)
    ensures r != q
  {
    if q == 0 then 1 else 0
  }

  /** A quadword is written into the first block, but the second one is handed over. */
  lemma WrittenAstray(r: Raw, q: Qword)
    requires Astray(r)
    ensures RawEnabled(r, Step(false, Fill([q]))) && StepEnabled(r.y, Step(false, Fill([q])))
    ensures var z := RawApply(r, Step(false, Fill([q])));
      if r.at == None then z.wild
      else
        && !z.wild && z.y.host == r.y.host && z.y.inn.q == [] && z.y.out.q == []
        && z.y.cop.box == [] && z.y.cop.sPos == 1 && z.y.cop.sent == r.y.cop.sent + [Data(q)]
        && |z.y.out.blks| == |r.y.out.blks| && z.y.out.size == r.y.out.size && z.y.out.Block(1) == r.y.out.Block(1)
  {
    hide Overwrite;
    assert DataEvents([q]) == [Data(q)];
  }

  lemma FlushedAstray(r: Raw)
    requires r.y.Valid() && r.y.cop.box == [] && r.y.cop.sPos == 1 && r.y.out.q == []
    ensures RawEnabled(r, Step(false, Tick)) && StepEnabled(r.y, Step(false, Tick))
    ensures var z := RawApply(r, Step(false, Tick));
      && z.y.host == r.y.host && z.y.out == r.y.out && z.y.cop.box == [DataRdy(1)] && z.y.cop.sent == r.y.cop.sent
  {
  }

  /** The host reads what was there before. */
  lemma ReadAstray(r: Raw) returns (ts: seq<Step>)
    requires r.y.Valid() && r.y.cop.box == [DataRdy(1)] && r.y.out.q == [] && r.y.out.size >= 2
    requires Bored(r.y.host) && r.y.host.rIdx == 1
    ensures RawRun(r, ts) && Proper(r, ts) && NoSends(ts)
    ensures var z := RawEnd(r, ts);
      z.y.host.rcvd == r.y.host.rcvd + [Data(Stale(r))] && z.y.cop.sent == r.y.cop.sent
  {
    hide StepEnabled, StepApply, RawApply, RawRun, RawEnd, Proper, Link.Block, IsRun, RunApply;
    var t1, t2, t3, t4 := Step(false, WriteSlot), Step(true, Poll), Step(true, SeeData), Step(true, TakeData(1));
    OneWritten(r.y, false);
    var y1 := StepApply(r.y, t1);
    BlocksSame(r.y, t1);
    OneQwordRead(y1, true, 1);
    ts := FourSteps(r.y, t1, t2, t3, t4);
    RawMoves(r, ts);
  }

  lemma BlocksSame(y: Sys, t: Step)
    requires y.Valid() && StepEnabled(y, t) && t.act.WriteSlot?
    ensures StepApply(y, t).out.size == y.out.size && StepApply(y, t).out.Block(1) == y.out.Block(1)
    ensures StepApply(y, t).cop.sent == y.cop.sent
  {
  }

  lemma FourSteps(y: Sys, t1: Step, t2: Step, t3: Step, t4: Step) returns (ts: seq<Step>)
    requires y.Valid() && StepEnabled(y, t1)
    requires StepEnabled(StepApply(y, t1), t2)
    requires StepEnabled(StepApply(StepApply(y, t1), t2), t3)
    requires StepEnabled(StepApply(StepApply(StepApply(y, t1), t2), t3), t4)
    ensures ts == [t1, t2, t3, t4] && IsRun(y, ts)
    ensures RunApply(y, ts) == StepApply(StepApply(StepApply(StepApply(y, t1), t2), t3), t4)
  {
    hide StepEnabled, StepApply;
    var y2 := StepApply(y, t1);
    var y3 := StepApply(y2, t2);
    var y4 := StepApply(y3, t3);
    OneStep(y, t1); OneStep(y2, t2); OneStep(y3, t3); OneStep(y4, t4);
    RunAppend(y3, [t3], [t4]);
    RunAppend(y2, [t2], [t3] + [t4]);
    RunAppend(y, [t1], [t2] + ([t3] + [t4]));
    ts := [t1, t2, t3, t4];
    assert [t1] + ([t2] + ([t3] + [t4])) == ts;
  }

  /** What the host receives then is not what was sent. */
  lemma AstrayBreaks(r: Raw) returns (ts: seq<Step>)
    requires Astray(r)
    ensures RawRun(r, ts) && Proper(r, ts) && (forall i :: 0 <= i < |ts| ==> !ts[i].act.SendCall?)
    ensures !InOrder(RawEnd(r, ts))
  {
    hide StepEnabled, RawApply, RawEnabled, Link.Block, Astray;
    AstrayParts(r);
    var q := Other(Stale(r));
    var t := Step(false, Fill([q]));
    WrittenAstray(r, q);
    RawOne(r, t);
    var z := RawApply(r, t);
    if r.at == None {
      ts := [t];
    } else {
      var u := Step(false, Tick);
      FlushedAstray(z);
      RawOne(z, u);
      var x := RawApply(z, u);
      var more := ReadAstray(x);
      RawAppend(z, [u], more);
      RawAppend(r, [t], [u] + more);
      ts := [t] + ([u] + more);
      DifferentEvents(r.y.cop.sent, q, Stale(r));
    }
  }

  lemma AstrayParts(r: Raw)
    requires Astray(r)
    ensures r.y.Valid() && Bored(r.y.host) && r.y.host.rIdx == 1 && r.y.host.rcvd == r.y.cop.sent && r.y.out.size >= 2
  {
  }

  lemma DifferentEvents(s: seq<Event>, q: Qword, c: Qword)
    requires q != c
    ensures !(s + [Data(c)] <= s + [Data(q)])
  {
    assert (s + [Data(c)])[|s|] == Data(c) && (s + [Data(q)])[|s|] == Data(q);
  }

  /** After the misuse everything on its way is received, the address message with it. */
  lemma DrainedAstray(r: Raw) returns (ts: seq<Step>)
    requires Inv(r.y) && Few(r.y) && !r.wild && r.at == None && r.y.cop.sIdx == 1 && r.y.cop.sPos == 0
    requires r.y.out.size >= 2
    ensures RawRun(r, ts) && Proper(r, ts) && NoSends(ts) && Astray(RawEnd(r, ts))
  {
    hide Few, StepEnabled, StepApply, RawApply, RawEnabled;
    ts := Drain(r.y);
    InvValid(r.y);
    RawMoves(r, ts);
    HomeAgain(RawEnd(r, ts).y);
  }

  lemma HomeAgain(y: Sys)
    requires Inv(y) && Drained(y) && y.cop.sPos == 0
    ensures SetUp(y.cop) && y.host.rIdx == y.cop.sIdx && Bored(y.host) && y.cop.avail > 0 && y.host.rcvd == y.cop.sent
  {
    hide Announced;
    DrainedSetUp(y);
  }

  /** The coprocessor uses a block before its unit was set up: then the threads can go on, without doing
      so again, to where data was copied to an unknown place, or received that was not sent. */
  lemma MisuseBreaks(r: Raw, t: Step) returns (ts: seq<Step>)
    requires Agrees(r) && Inv(r.y) && Few(r.y) && r.y.out.size >= 2
    requires RawEnabled(r, t) && !StepEnabled(r.y, t) && CallsFit(r.y, [t])
    ensures var z := RawApply(r, t);
      RawRun(z, ts) && Proper(z, ts) && CallsFit(z.y, ts) && !InOrder(RawEnd(z, ts))
  {
    hide Few, StepEnabled, RawApply, RawEnabled, Agrees, Inv, InOrder;
    Misused(r, t);
    var z := RawApply(r, t);
    if z.wild {
      ts := [];
      assert !InOrder(z) by { WildBreaks(z); }
    } else {
      AgreesValid(r);
      EnabledValid(r, t);
      FewStays(r, t);
      var a := DrainedAstray(z);
      var b := AstrayBreaks(RawEnd(z, a));
      RawAppend(z, a, b);
      ts := a + b;
    }
  }

  lemma WildBreaks(r: Raw)
    requires r.wild
    ensures !InOrder(r)
  {
  }

  lemma FewStays(r: Raw, t: Step)
    requires Inv(r.y) && Few(r.y) && r.y.Valid() && RawEnabled(r, t) && !StepEnabled(r.y, t) && CallsFit(r.y, [t])
    ensures var z := StepApply(r.y, t); Inv(z) && Few(z) && z.out.size == r.y.out.size
  {
    hide Inv, Unread, OthersOf, Startable, Apply;
    StepKeepsInv(r.y, t);
    BlocksCount(r.y, t);
    ActionOthers(View(r.y, t.byHost), if t.byHost then r.y.cop else r.y.host, t.act);
  }

  // ------------------------------------------------------------------------------------------
  // The exact condition
  // ------------------------------------------------------------------------------------------

  ghost predicate StaysThroughout(r: Raw, ts: seq<Step>)
    requires RawRun(r, ts)
    decreases |ts|
  {
    StaysInOrder(r) && (ts == [] || StaysThroughout(RawApply(r, ts[0]), ts[1..]))
  }

  /** Too few user messages and notes, those to come included, to fill up the rings. */
  predicate Quiet(y: Sys, ts: seq<Step>) {
    Missing(Unread(y.host, y.inn) + Chatter(ts, true)) + Missing(Unread(y.cop, y.out) + Chatter(ts, false))
      > |y.inn.blks| + |y.out.blks|
  }

  lemma QuietTail(r: Raw, ts: seq<Step>)
    requires r.y.Valid() && ts != [] && StepEnabled(r.y, ts[0]) && Quiet(r.y, ts)
    ensures Quiet(StepApply(r.y, ts[0]), ts[1..]) && Few(r.y)
  {
    hide Unread, OthersOf, Startable, Apply, StepEnabled;
    var t := ts[0];
    BlocksCount(r.y, t);
    ActionOthers(View(r.y, t.byHost), if t.byHost then r.y.cop else r.y.host, t.act);
  }

  lemma SafeNow(r: Raw)
    requires Agrees(r) && Inv(r.y)
    ensures StaysInOrder(r)
  {
    hide Agrees, Inv, InOrder;
    forall more | RawRun(r, more) && Proper(r, more) && CallsFit(r.y, more) ensures InOrder(RawEnd(r, more)) {
      ProperRun(r, more);
      AgreesInOrder(RawEnd(r, more));
    }
  }

  lemma {:induction false} SetUpFrom(r: Raw, ts: seq<Step>)
    requires Agrees(r) && Inv(r.y) && r.y.out.size >= 2 && RawRun(r, ts) && CallsFit(r.y, ts)
    ensures Proper(r, ts) ==> StaysThroughout(r, ts)
    ensures Quiet(r.y, ts) && StaysThroughout(r, ts) ==> Proper(r, ts)
    decreases |ts|
  {
    hide Agrees, Inv, RawApply, RawEnabled, Quiet, StaysInOrder, StepEnabled;
    SafeNow(r);
    if ts != [] {
      AgreesValid(r);
      FitParts(r, ts);
      if StepEnabled(r.y, ts[0]) {
        if Quiet(r.y, ts) { QuietTail(r, ts); }
        ProperStep(r, ts[0]);
        StepKeepsInv(r.y, ts[0]);
        BlocksCount(r.y, ts[0]);
        SetUpFrom(RawApply(r, ts[0]), ts[1..]);
      } else {
        assert !Proper(r, ts);
        if Quiet(r.y, ts) {
          QuietFew(r, ts);
          var more := MisuseBreaks(r, ts[0]);
          NotSafe(RawApply(r, ts[0]), more);
          assert !StaysThroughout(RawApply(r, ts[0]), ts[1..]);
        }
      }
    }
  }

  lemma NotSafe(r: Raw, more: seq<Step>)
    requires RawRun(r, more) && Proper(r, more) && CallsFit(r.y, more) && !InOrder(RawEnd(r, more))
    ensures !StaysInOrder(r)
  {
  }

  lemma FitParts(r: Raw, ts: seq<Step>)
    requires r.y.Valid() && ts != [] && RawEnabled(r, ts[0]) && CallsFit(r.y, ts)
    ensures CallsFit(r.y, [ts[0]]) && CallsFit(StepApply(r.y, ts[0]), ts[1..])
  {
    hide StepStartable, Startable;
    BlocksCount(r.y, ts[0]);
  }

  lemma QuietFew(r: Raw, ts: seq<Step>)
    requires Quiet(r.y, ts)
    ensures Few(r.y)
  {
  }

  /** From a new pair of units, over all interleavings: when a run uses no block before the unit was set
      up, everything was copied into its block throughout the run, and will be delivered in order
      whatever follows; and only then, but for runs with so many user messages that they can fill up the
      rings, behind which nothing may follow. */
  lemma SetUpIff(y: Sys, ts: seq<Step>)
    requires Init(y) && RawRun(New(y), ts) && CallsFit(y, ts)
    ensures Proper(New(y), ts) ==> StaysThroughout(New(y), ts)
    ensures Missing(6 + Chatter(ts, true)) + Missing(Chatter(ts, false)) > |y.inn.blks| + |y.out.blks| ==>
              (Proper(New(y), ts) <==> StaysThroughout(New(y), ts))
  {
    hide Inv, RawRun, Proper, StaysThroughout, Init;
    InitInv(y);
    InitFacts(y);
    SetUpFrom(New(y), ts);
  }

  lemma InitFacts(y: Sys)
    requires Init(y)
    ensures Agrees(New(y)) && y.out.size >= 2
    ensures Unread(y.host, y.inn) <= 6 && Unread(y.cop, y.out) == 0
    ensures var c := y.cop; c.box == [] && c.mque == [] && c.avail == 0 && c.sPos == 0 && c.seen == {}
  {
    InitMessages(y);
  }

  // ------------------------------------------------------------------------------------------
  // The first call
  // ------------------------------------------------------------------------------------------

  /** In every reachable state a receive call of any kind leaves the coprocessor's unit set up. */
  lemma FirstReceive(y0: Sys, ts: seq<Step>, y: Sys)
    requires ReachedBy(y0, ts, y)
    ensures SetUp(MsgLoop(View(y, false)).0.s) && CanRead(MsgLoop(View(y, false)).0.s)
  {
    hide MsgLoop;
    ReachedInv(y0, ts, y);
    ReceiveSetsUp(View(y, false));
  }

  function Polls(n: nat): (ts: seq<Step>)
    ensures |ts| == n && forall i :: 0 <= i < n ==> ts[i] == Step(false, Poll)
  {
    seq(n, i => Step(false, Poll))
  }

  /** Polling brings credits also to a unit that was not set up. */
  lemma {:induction false} ManyPolls(y: Sys, n: nat)
    requires y.Valid() && |y.inn.q| >= n && y.cop.box == [] && |y.cop.mque| + n <= QUE_CAPACITY
    ensures IsRun(y, Polls(n))
    ensures var c := RunApply(y, Polls(n)).cop;
      c.box == [] && c.sPos == y.cop.sPos && c.seen == y.cop.seen && c.avail == y.cop.avail + Avls(y.inn.q[..n])
    ensures RunApply(y, Polls(n)).out.size == y.out.size && Chatter(Polls(n), true) == 0 == Chatter(Polls(n), false)
    decreases n
  {
    if n > 0 {
      var t := Step(false, Poll);
      assert Polls(n)[0] == t && Polls(n)[1..] == Polls(n - 1);
      assert y.inn.q[..n][0] == y.inn.q[0] && y.inn.q[..n][1..] == y.inn.q[1..][..n - 1];
      ManyPolls(StepApply(y, t), n - 1);
    }
  }

  /** With every new pair of units: the coprocessor polls its first credit, as a call that sends does,
      sends a marker before any receive call, and then data; the host receives something else. */
  lemma MarkerFirstBreaks(y: Sys) returns (ts: seq<Step>)
    requires Init(y)
    ensures |ts| > 5 && ts[..6] == Polls(5) + [Step(false, SendMark)]
    ensures RawRun(New(y), ts) && !InOrder(RawEnd(New(y), ts))
  {
    hide InOrder, Agrees, RawEnabled, RawApply, StepApply, Few, RawRun, RawEnd, Proper, IsRun, RunApply, Init, Inv, Avls, Chatter;
    InitInv(y);
    InitFacts(y);
    FirstCredit(y);
    ManyPolls(y, 5);
    ProperRun(New(y), Polls(5));
    var r, t := RawEnd(New(y), Polls(5)), Step(false, SendMark);
    PollsFew(y);
    AgreesValid(r);
    EarlyMark(r);
    var more := MisuseBreaks(r, t);
    RawOne(r, t);
    RawAppend(r, [t], more);
    RawAppend(New(y), Polls(5), [t] + more);
    ts := Polls(5) + ([t] + more);
  }

  lemma FirstCredit(y: Sys)
    requires Init(y)
    ensures y.Valid() && |y.inn.q| >= 5 && Avls(y.inn.q[..5]) == 1
  {
    hide Avls;
    var params, timer, flush :|
      |params| == 4 && FlushMsgs(flush) && y.inn.q == FirstMsgs(|y.out.blks|, params, timer, flush);
    var a := [Note(IBLK_ADR, params[0]), Note(OBLK_ADR, params[1]), Note(IBLK_PARAM, params[2]), Note(OBLK_PARAM, params[3])];
    assert y.inn.q == a + (AvlMsgs(|y.out.blks|) + ([Note(0, timer)] + flush));
    assert y.inn.q[..5] == a + [Avl];
    NotesOnly(a, 0, y.inn);
    OneAvl(a);
  }

  lemma PollsFew(y: Sys)
    requires Init(y) && IsRun(y, Polls(5)) && Chatter(Polls(5), true) == 0 == Chatter(Polls(5), false)
    ensures Few(RunApply(y, Polls(5)))
  {
    hide IsRun, RunApply, OthersOf, Unread, Chatter, DirInv;
    InitFacts(y);
    RunOthers(y, Polls(5));
  }

  lemma EarlyMark(r: Raw)
    requires r.y.Valid() && r.y.cop.box == [] && r.y.cop.avail == 1 && r.y.cop.sPos == 0 && r.y.cop.seen == {}
    ensures RawEnabled(r, Step(false, SendMark)) && !StepEnabled(r.y, Step(false, SendMark))
  {
  }
}
