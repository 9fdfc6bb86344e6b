/** The main results about the host/coprocessor protocol, for every run of the threads. */
module HifRuns {
  import opened HifProtocol
  import opened HifSafety
  import opened HifNotes

  // ------------------------------------------------------------------------------------------
  // Counting messages
  // ------------------------------------------------------------------------------------------

  /** Messages that neither hand a block over nor hand one back. */
  function Others(q: seq<Msg>): nat {
    if q == [] then 0 else (if IsRdy(q[0]) || q[0].Avl? then 0 else 1) + Others(q[1..])
  }

  lemma {:induction false} CountAppend(x: seq<Msg>, y: seq<Msg>)
    ensures Others(x + y) == Others(x) + Others(y)
  {
    if x == [] {
      assert x + y == y;
    } else {
      CountAppend(x[1..], y);
      assert (x + y)[1..] == x[1..] + y;
    }
  }

  lemma {:induction false} CountAll(q: seq<Msg>)
    ensures |q| == Rdys(q) + Avls(q) + Others(q)
    ensures Rdys(Strip(q)) == Rdys(q)
  {
    if q != [] {
      CountAll(q[1..]);
      StripAppend(if q[0].Avl? then [] else [q[0]], Strip(q[1..]));
    }
  }

  lemma {:induction false} FirstMsgsCounts(n: nat)
    ensures Strip(AvlMsgs(n)) == [] && Avls(AvlMsgs(n)) == n && Others(AvlMsgs(n)) == 0
  {
    if n > 0 {
      FirstMsgsCounts(n - 1);
      StripAppend(AvlMsgs(n - 1), [Avl]);
      CountAppend(AvlMsgs(n - 1), [Avl]);
    }
  }

  lemma {:induction false} NotesOnly(q: seq<Msg>, b: nat, l: Link)
    requires forall m :: m in q ==> m.Note?
    requires l.Valid()
    ensures Strip(q) == q && Avls(q) == 0 && Rdys(q) == 0 && Others(q) == |q|
    ensures WellFormed(q, l.size) && Decode(q, b, l) == []
  {
    if q != [] {
      assert q[0] in q;
      NotesOnly(q[1..], b, l);
    }
  }

  lemma InitMessages(y: Sys)
    requires Init(y)
    ensures forall m :: m in Strip(y.inn.q) ==> m.Note?
    ensures Avls(y.inn.q) == |y.out.blks| && Others(y.inn.q) <= 6 && |y.inn.q| <= 6 + |y.out.blks|
    ensures Begins(Strip(y.inn.q), [IBLK_ADR, OBLK_ADR, IBLK_PARAM, OBLK_PARAM])
  {
    hide Begins, Strip, Avls, Others, FirstMsgs;
    var params, timer, flush :|
      |params| == 4 && FlushMsgs(flush) && y.inn.q == FirstMsgs(|y.out.blks|, params, timer, flush);
    FirstMessages(|y.out.blks|, params, timer, flush, y.inn);
  }

  /** The messages of a new host unit tell first where the blocks are. */
  lemma FirstMessages(n: nat, params: seq<nat>, timer: nat, flush: seq<Msg>, tx: Link)
    requires |params| == 4 && FlushMsgs(flush) && tx.Valid()
    ensures var q := FirstMsgs(n, params, timer, flush);
      && (forall m :: m in Strip(q) ==> m.Note?)
      && Avls(q) == n && Others(q) <= 6 && |q| <= 6 + n
      && Begins(Strip(q), [IBLK_ADR, OBLK_ADR, IBLK_PARAM, OBLK_PARAM])
  {
    hide Begins, Strip, Avls, Others, Rdys, WellFormed, Decode;
    var q := FirstMsgs(n, params, timer, flush);
    var a := [Note(IBLK_ADR, params[0]), Note(OBLK_ADR, params[1]), Note(IBLK_PARAM, params[2]), Note(OBLK_PARAM, params[3])];
    var c := [Note(0, timer)] + flush;
    assert q == a + AvlMsgs(n) + c;
    FirstMsgsCounts(n);
    NotesOnly(a, 0, tx);
    NotesOnly(c, 0, tx);
    StripAppend(a + AvlMsgs(n), c);
    StripAppend(a, AvlMsgs(n));
    CountAppend(a + AvlMsgs(n), c);
    CountAppend(a, AvlMsgs(n));
    assert Strip(q) == a + c;
    NotesBegin(params, timer, flush);
  }

  lemma NotesBegin(p: seq<nat>, timer: nat, flush: seq<Msg>)
    requires |p| == 4 && FlushMsgs(flush)
    ensures Begins([Note(IBLK_ADR, p[0]), Note(OBLK_ADR, p[1]), Note(IBLK_PARAM, p[2]), Note(OBLK_PARAM, p[3])]
                   + ([Note(0, timer)] + flush), [IBLK_ADR, OBLK_ADR, IBLK_PARAM, OBLK_PARAM])
  {
  }

  /** A new pair of units is in order. */
  lemma InitInv(y: Sys)
    requires Init(y)
    ensures Inv(y)
  {
    hide Announced;
    InitMessages(y);
    var notes := Strip(y.inn.q);
    NotesOnly(notes, 0, y.inn);
    assert y.inn.q + y.host.box == y.inn.q;
    assert Items(y.host, y.cop, y.inn) == notes;
    assert Items(y.cop, y.host, y.out) == [];
    assert Announced(y.cop, y.inn.q, y.host.box) && Announced(y.host, y.out.q, y.cop.box) by { InitAnnounced(y); }
  }

  lemma InitAnnounced(y: Sys)
    requires Init(y)
    ensures Announced(y.cop, y.inn.q, y.host.box) && Announced(y.host, y.out.q, y.cop.box)
  {
    InitMessages(y);
    assert y.cop.mque + Strip(y.inn.q) == Strip(y.inn.q);
    assert Pending(y.cop.seen) == [IBLK_ADR, OBLK_ADR, IBLK_PARAM, OBLK_PARAM] && Pending(y.host.seen) == [];
  }

  // ------------------------------------------------------------------------------------------
  // Every interleaving
  // ------------------------------------------------------------------------------------------

  lemma StepKeepsInv(y: Sys, t: Step)
    requires Inv(y) && StepStartable(y, t) && CallsFit(y, [t])
    ensures Inv(StepApply(y, t))
  {
    hide DirInv, Announced, Startable, Apply;
    assert [t][0] == t;
    InvValid(y);
    ActionKeepsInv(View(y, t.byHost), if t.byHost then y.cop else y.host, t.act);
    AnnouncedKept(View(y, t.byHost), if t.byHost then y.cop else y.host, t.act);
  }

  lemma InvValid(y: Sys)
    requires Inv(y)
    ensures y.Valid()
  {
  }

  lemma CallsFitTail(y: Sys, ts: seq<Step>)
    requires y.Valid() && ts != [] && StepEnabled(y, ts[0]) && CallsFit(y, ts)
    ensures CallsFit(y, [ts[0]]) && CallsFit(StepApply(y, ts[0]), ts[1..])
  {
  }

  lemma {:induction false} RunKeepsInv(y: Sys, ts: seq<Step>)
    requires Inv(y) && IsRun(y, ts) && CallsFit(y, ts)
    ensures Inv(RunApply(y, ts))
    decreases |ts|
  {
    if ts != [] {
      CallsFitTail(y, ts);
      StepKeepsInv(y, ts[0]);
      RunKeepsInv(StepApply(y, ts[0]), ts[1..]);
    }
  }

  /** The state `y` is reached from a new pair of units by some run. */
  ghost predicate ReachedBy(y0: Sys, ts: seq<Step>, y: Sys) {
    Init(y0) && IsRun(y0, ts) && CallsFit(y0, ts) && y == RunApply(y0, ts)
  }

  lemma ReachedInv(y0: Sys, ts: seq<Step>, y: Sys)
    requires ReachedBy(y0, ts, y)
    ensures Inv(y)
  {
    InitInv(y0);
    RunKeepsInv(y0, ts);
  }

  /** No block is begun before the unit was set up. */
  predicate AllUntouched(y: Sys) { SetUp(y.host) && Untouched(y.cop) }

  lemma {:induction false} RunUntouched(y: Sys, ts: seq<Step>)
    requires y.Valid() && IsRun(y, ts) && AllUntouched(y)
    ensures AllUntouched(RunApply(y, ts))
    decreases |ts|
  {
    hide Enabled, Apply, Untouched;
    if ts != [] {
      assert Untouched(y.host) by { HostUntouched(y.host); }
      UntouchedKept(View(y, ts[0].byHost), ts[0].act);
      RunUntouched(StepApply(y, ts[0]), ts[1..]);
    }
  }

  lemma HostUntouched(s: Side)
    requires SetUp(s)
    ensures Untouched(s)
  {
  }

  lemma ReachedUntouched(y0: Sys, ts: seq<Step>, y: Sys)
    requires ReachedBy(y0, ts, y)
    ensures y.Valid() && AllUntouched(y)
  {
    RunUntouched(y0, ts);
  }

  /** Nothing is lost, reordered, duplicated or made up, in either direction, however the threads
      are interleaved and whatever blocks the data was cut into. */
  lemma ReceivedIsPrefixOfSent(y0: Sys, ts: seq<Step>, y: Sys)
    requires ReachedBy(y0, ts, y)
    ensures y.cop.rcvd <= y.host.sent
    ensures y.host.rcvd <= y.cop.sent
  {
    ReachedInv(y0, ts, y);
  }

  /** Available blocks, blocks handed over and not yet handed back, and AVL messages on their way
      add up to the number of blocks. */
  lemma CreditsConserved(y0: Sys, ts: seq<Step>, y: Sys)
    requires ReachedBy(y0, ts, y)
    ensures y.host.avail >= 0 && y.cop.avail >= 0
    ensures y.host.avail + Rdys(y.host.box) + Rdys(y.inn.q) + Rdys(y.cop.mque)
          + Avls(y.cop.box) + Avls(y.out.q) == |y.inn.blks|
    ensures y.cop.avail + Rdys(y.cop.box) + Rdys(y.out.q) + Rdys(y.host.mque)
          + Avls(y.host.box) + Avls(y.inn.q) == |y.out.blks|
  {
    ReachedInv(y0, ts, y);
    CreditsOf(y.host, y.cop, y.inn, y.out);
    CreditsOf(y.cop, y.host, y.out, y.inn);
  }

  lemma CreditsOf(S: Side, R: Side, tx: Link, back: Link)
    requires CreditsOk(S, R, tx, back)
    ensures S.avail + Rdys(S.box) + Rdys(tx.q) + Rdys(R.mque) + Avls(R.box) + Avls(back.q) == |tx.blks|
  {
    StripAppend(R.mque, Strip(tx.q + S.box));
    CountAll(tx.q + S.box);
    StripAppend(tx.q, S.box);
    StripAppend(back.q, R.box);
  }

  /** The assertions of the sources hold at every step of every run: a block is handed over only
      with a credit, a block position stays inside the block, and the arguments announced by a call
      message are the next thing in the queue, with the announced size.  A block is filled, handed over
      or read only after its address and its size have arrived. */
  lemma NoAssertionFires(y0: Sys, ts: seq<Step>, y: Sys, t: Step)
    requires ReachedBy(y0, ts, y) && StepEnabled(y, t)
    ensures AssertionsHold(View(y, t.byHost), t.act)
  {
    hide DirInv, Announced, Init, IsRun, RunApply;
    ReachedInv(y0, ts, y);
    ReachedUntouched(y0, ts, y);
    HostUntouched(y.host);
    LocalAssertions(View(y, t.byHost), if t.byHost then y.cop else y.host, t.act);
  }

  predicate AssertionsHold(l: Local, a: Action) {
    && (l.s.sPos > 0 ==> l.s.avail > 0)
    && l.s.sPos < l.tx.size
    && (l.s.rSize > 0 ==> l.s.mque != [] && l.s.mque[0] == DataRdy(l.s.rPos + l.s.rSize)
                          && l.s.rPos + l.s.rSize <= l.rx.size)
    && (l.s.rArg > 0 ==> l.s.mque != [] && l.s.mque[0] == DataRdy(l.s.rArg) && l.s.rArg < l.rx.size)
    && (a.TakeCall? && l.s.mque != [] && l.s.mque[0].CallRdy? && l.s.mque[0].argc > 0 ==>
          |l.s.mque| > 1 && l.s.mque[1] == DataRdy(l.s.mque[0].argc))
    && Known(l, a)
  }

  /** The unit knows the blocks that it is about to use. */
  predicate Known(l: Local, a: Action) {
    (Uses(a) || l.s.sPos > 0 ==> SetUp(l.s)) && (Reads(a) ==> CanRead(l.s))
  }

  predicate Reads(a: Action) {
    a.SeeData? || a.TakeData? || a.TakeMark? || a.TakeHalt? || a.TakeCall? || a.TakeArgs?
  }

  lemma LocalAssertions(l: Local, R: Side, a: Action)
    requires BothOk(l, R) && Enabled(l, a) && Announced(l.s, l.rx.q, R.box) && Untouched(l.s)
    ensures AssertionsHold(l, a)
  {
    hide Strip, Rdys, Avls, Decode, DataEvents, Link.Block;
    hide Announced, Known;
    BlocksKnown(l, R, a);
    if l.s.mque != [] {
      FrontItem(R, l.s, l.rx);
    }
  }

  lemma BlocksKnown(l: Local, R: Side, a: Action)
    requires l.tx.Valid() && l.rx.Valid() && ReaderOk(l.s, l.rx.size)
    requires Enabled(l, a) && Announced(l.s, l.rx.q, R.box) && Untouched(l.s)
    ensures Known(l, a)
  {
    hide Announced;
    if Reads(a) {
      SetUpBeforeRead(l.s, l.rx.q, R.box);
    }
  }

  /** Whatever a unit writes into a block, the blocks handed over and not yet handed back keep
      their contents. */
  lemma UnreadBlocksKept(y0: Sys, ts: seq<Step>, y: Sys, t: Step)
    requires ReachedBy(y0, ts, y) && StepEnabled(y, t) && CallsFit(y, [t])
    ensures SameBlocks(y.inn, StepApply(y, t).inn, y.cop.rIdx, y.host.sIdx)
    ensures SameBlocks(y.out, StepApply(y, t).out, y.host.rIdx, y.cop.sIdx)
  {
    ReachedInv(y0, ts, y);
    assert [t][0] == t;
    WritesOwnBlock(View(y, t.byHost), if t.byHost then y.cop else y.host, t.act);
  }

  lemma WritesOwnBlock(l: Local, R: Side, a: Action)
    requires BothOk(l, R) && Enabled(l, a) && (a.SendCall? ==> |a.args| < l.tx.size)
    ensures SameBlocks(l.tx, Apply(l, a).tx, R.rIdx, l.s.sIdx)
  {
    hide Strip, Rdys, Avls, Decode, DataEvents;
    if a.Fill? {
      WriteFrame(l.tx, Apply(l, a).tx, R.rIdx, l.s.sIdx);
    } else if a.SendCall? {
      FlushStep(l.s, R, l.tx, l.rx);
      CallBlock(l.(s := Flushed(l.s)), R, a.args);
    }
  }

  /** When nothing is on its way, all blocks are back and everything handed over has been received:
      only the block being filled can still hold something. */
  lemma DrainedMeansDelivered(y0: Sys, ts: seq<Step>, y: Sys)
    requires ReachedBy(y0, ts, y) && Drained(y)
    ensures y.host.avail == |y.inn.blks| && y.cop.avail == |y.out.blks|
    ensures y.host.sPos < y.inn.size && y.cop.sPos < y.out.size
    ensures y.host.sent == y.cop.rcvd + DataEvents(y.inn.Block(y.host.sIdx)[..y.host.sPos])
    ensures y.cop.sent == y.host.rcvd + DataEvents(y.out.Block(y.cop.sIdx)[..y.cop.sPos])
  {
    hide IsRun, RunApply, Init, DataEvents, Link.Block;
    ReachedInv(y0, ts, y);
  }

  predicate Drained(y: Sys) {
    && y.host.box == [] && y.cop.box == [] && y.inn.q == [] && y.out.q == []
    && y.host.mque == [] && y.cop.mque == []
  }

  // ------------------------------------------------------------------------------------------
  // Rings and queues never fill up
  // ------------------------------------------------------------------------------------------

  function OthersOf(S: Side, R: Side, tx: Link): nat {
    Others(R.mque) + Others(tx.q) + Others(S.box)
  }

  /** User messages and notes of `S` that the other unit has not polled. */
  function Unread(S: Side, tx: Link): nat {
    Others(tx.q) + Others(S.box)
  }

  predicate Chatty(a: Action) { a.SendUser? || a.SendNote? }

  /** User messages and notes sent by one unit during a run. */
  function Chatter(ts: seq<Step>, byHost: bool): nat {
    if ts == [] then 0
    else (if ts[0].byHost == byHost && Chatty(ts[0].act) then 1 else 0) + Chatter(ts[1..], byHost)
  }

  lemma OneMore(q: seq<Msg>, m: Msg)
    ensures Others(q + [m]) == Others(q) + (if IsRdy(m) || m.Avl? then 0 else 1)
  {
    CountAppend(q, [m]);
  }

  lemma FlushOthers(s: Side)
    ensures Others(Flushed(s).box) == Others(s.box)
  {
    OneMore(s.box, DataRdy(s.sPos));
  }

  lemma {:induction false} FillOthers(l: Local, data: seq<Qword>)
    requires l.tx.Valid() && l.s.sPos < l.tx.size
    ensures Others(FillLoop(l, data).0.s.box) == Others(l.s.box)
    ensures FillLoop(l, data).0.s.mque == l.s.mque
    decreases |data|
  {
    if data != [] && l.s.avail > 0 {
      var n := if |data| < l.tx.size - l.s.sPos then |data| else l.tx.size - l.s.sPos;
      OneMore(l.s.box, DataRdy(l.s.sPos + n));
      FillOthers(DoFill(l, data[..n]), data[n..]);
    }
  }

  lemma CallOthers(l: Local, args: seq<Qword>)
    requires l.tx.Valid() && l.s.sPos == 0
    ensures Others(CallSent(l, args).s.box) == Others(l.s.box)
    ensures CallSent(l, args).s.mque == l.s.mque
  {
    hide Others, FillLoop;
    var l1 := l.(s := l.s.(avail := l.s.avail - 1, sIdx := l.s.sIdx + 1));
    FillOthers(l1, args);
    var s2 := FillLoop(l1, args).0.s;
    OneMore(s2.box, CallRdy(|args|));
    FlushOthers(s2.(box := s2.box + [CallRdy(|args|)], sent := l.s.sent + [Call(args)]));
  }

  lemma SendOthers(l: Local, a: Action)
    requires l.tx.Valid() && l.rx.Valid() && Startable(l, a) && Sends(a)
    ensures Others(Apply(l, a).s.box) == Others(l.s.box) + (if Chatty(a) then 1 else 0)
    ensures Apply(l, a).s.mque == l.s.mque && Apply(l, a).tx.q == l.tx.q && Apply(l, a).rx.q == l.rx.q
  {
    hide Others;
    FlushOthers(l.s);
    match a {
      case Fill(data) => OneMore(l.s.box, DataRdy(l.s.sPos + |data|));
      case Flush =>
      case Tick =>
      case SendUser(t, d) => OneMore(Flushed(l.s).box, User(t, d));
      case SendNote(t, d) => OneMore(l.s.box, Note(t, d));
      case SendMark => OneMore(Flushed(l.s).box, MarkRdy);
      case SendHalt => OneMore(Flushed(l.s).box, HaltRdy);
      case SendCall(args) => CallOthers(l.(s := Flushed(l.s)), args);
    }
  }

  /** A message moved from the front of one queue to the end of another. */
  lemma FirstOther(q: seq<Msg>, to: seq<Msg>)
    requires q != []
    ensures Others(q[1..]) + Others(to + [q[0]]) == Others(q) + Others(to)
    ensures Others(q[1..]) + (if IsRdy(q[0]) || q[0].Avl? then 0 else 1) == Others(q)
  {
    OneMore(to, q[0]);
  }

  lemma ActionOthers(l: Local, R: Side, a: Action)
    requires l.tx.Valid() && l.rx.Valid() && Startable(l, a)
    ensures var l' := Apply(l, a);
            && OthersOf(l'.s, R, l'.tx) == OthersOf(l.s, R, l.tx) + (if Chatty(a) then 1 else 0)
            && OthersOf(R, l'.s, l'.rx) <= OthersOf(R, l.s, l.rx)
            && Unread(l'.s, l'.tx) == Unread(l.s, l.tx) + (if Chatty(a) then 1 else 0)
            && Unread(R, l'.rx) <= Unread(R, l.rx)
  {
    hide Others;
    if Sends(a) {
      SendOthers(l, a);
    } else if a.WriteSlot? {
      FirstOther(l.s.box, l.tx.q);
    } else if a.Poll? {
      FirstOther(l.rx.q, l.s.mque);
    } else if !a.WaitLock? {
      OneMore(l.s.box, Avl);
      FirstOther(l.s.mque, []);
    }
  }

  lemma {:induction false} RunOthers(y: Sys, ts: seq<Step>)
    requires y.Valid() && IsRun(y, ts)
    ensures var z := RunApply(y, ts);
            && OthersOf(z.host, z.cop, z.inn) <= OthersOf(y.host, y.cop, y.inn) + Chatter(ts, true)
            && OthersOf(z.cop, z.host, z.out) <= OthersOf(y.cop, y.host, y.out) + Chatter(ts, false)
            && Unread(z.host, z.inn) <= Unread(y.host, y.inn) + Chatter(ts, true)
            && Unread(z.cop, z.out) <= Unread(y.cop, y.out) + Chatter(ts, false)
            && |z.inn.blks| == |y.inn.blks| && |z.out.blks| == |y.out.blks|
    decreases |ts|
  {
    if ts != [] {
      var t := ts[0];
      ActionOthers(View(y, t.byHost), if t.byHost then y.cop else y.host, t.act);
      RunOthers(StepApply(y, t), ts[1..]);
    }
  }

  lemma UnreadBound(S: Side, R: Side, tx: Link, back: Link)
    requires CreditsOk(S, R, tx, back) && CreditsOk(R, S, back, tx)
    ensures |tx.q| + |S.box| + Others(R.mque) <= |tx.blks| + |back.blks| + OthersOf(S, R, tx)
    ensures Avls(R.mque) == 0 ==> |R.mque| + |tx.q| + |S.box| <= |tx.blks| + |back.blks| + OthersOf(S, R, tx)
  {
    CreditsOf(S, R, tx, back);
    CreditsOf(R, S, back, tx);
    CountAll(tx.q);
    CountAll(S.box);
    CountAll(R.mque);
  }

  lemma {:induction false} NoAvlQueued(q: seq<Msg>, rest: seq<Msg>, size: nat)
    requires WellFormed(q + rest, size)
    ensures Avls(q) == 0
  {
    if q != [] {
      assert (q + rest)[0] == q[0];
      assert (q + rest)[1..] == q[1..] + rest;
      NoAvlQueued(q[1..], rest, size);
    }
  }

  /** However the threads are interleaved, the messages of one direction that are not finished
      with number at most the blocks of both directions, the six messages of a new unit, and the
      user messages sent. */
  lemma MessagesBounded(y0: Sys, ts: seq<Step>, y: Sys)
    requires ReachedBy(y0, ts, y)
    ensures |y.host.box| + |y.inn.q| + |y.cop.mque| <= |y.inn.blks| + |y.out.blks| + 6 + Chatter(ts, true)
    ensures |y.cop.box| + |y.out.q| + |y.host.mque| <= |y.inn.blks| + |y.out.blks| + Chatter(ts, false)
    ensures |y.inn.blks| <= 64 && |y.out.blks| <= 64
  {
    ReachedInv(y0, ts, y);
    InitMessages(y0);
    RunOthers(y0, ts);
    UnreadBound(y.host, y.cop, y.inn, y.out);
    UnreadBound(y.cop, y.host, y.out, y.inn);
    NoAvlQueued(y.cop.mque, Strip(y.inn.q + y.host.box), y.inn.size);
    NoAvlQueued(y.host.mque, Strip(y.out.q + y.cop.box), y.out.size);
  }

  /** Without user messages and notes a message waiting to be copied always finds its slot empty,
      and a message in a ring always finds room in the queue. */
  lemma NeverWaits(y0: Sys, ts: seq<Step>, y: Sys, byHost: bool)
    requires ReachedBy(y0, ts, y) && Chatter(ts, true) == 0 && Chatter(ts, false) == 0
    ensures var l := View(y, byHost);
      && |l.tx.q| + |l.s.box| <= 64 + 64 + 6 < RING_SLOTS
      && |l.s.mque| + |l.rx.q| <= 64 + 64 + 6 < QUE_CAPACITY
      && (l.s.box != [] ==> Enabled(l, WriteSlot))
      && (l.rx.q != [] && l.s.box == [] ==> Enabled(l, Poll))
  {
    MessagesBounded(y0, ts, y);
  }
}
