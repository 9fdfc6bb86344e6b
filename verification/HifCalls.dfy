/** What the public calls of a unit do to it, as functions on what the unit can see, and the proof
    that each of them is a sequence of protocol actions.  The other unit interferes only when the
    call waits for room in its ring: then it polls.  The protocol's results cover the rest. */
module HifCalls {
  import opened HifProtocol
  import opened HifSafety
  import opened HifNotes

  /** As many messages as the ring has slots, the last ones of `q`. */
  function Latest(q: seq<Msg>): (r: seq<Msg>)
    ensures |r| <= RING_SLOTS
  {
    if |q| <= RING_SLOTS then q else q[|q| - RING_SLOTS..]
  }

  /** All messages of the box copied into the ring; when it is full the thread waits until the other
      unit has polled the oldest one. */
  function Written(l: Local): Local {
    l.(s := l.s.(box := [], appIn := false), tx := l.tx.(q := Latest(l.tx.q + l.s.box)))
  }

  lemma LatestOne(q: seq<Msg>, m: Msg)
    requires |q| <= RING_SLOTS
    ensures Latest(q + [m]) == (if |q| == RING_SLOTS then q[1..] else q) + [m]
  {
  }

  lemma LatestTail(q: seq<Msg>, b: seq<Msg>)
    requires |q| == RING_SLOTS && b != []
    ensures Latest(q[1..] + b) == Latest(q + b)
  {
  }

  /** Messages copied one after the other. */
  lemma LatestMore(q: seq<Msg>, a: seq<Msg>, b: seq<Msg>)
    ensures Latest(Latest(q + a) + b) == Latest(q + (a + b))
  {
    var n := |q + a|;
    if n > RING_SLOTS {
      assert q + (a + b) == (q + a)[..n - RING_SLOTS] + (Latest(q + a) + b);
    } else {
      assert q + (a + b) == q + a + b;
    }
  }

  /** Messages are taken from the ring until it is empty or the queue is full. */
  function PollAll(l: Local): (r: Local)
    ensures r.tx == l.tx && r.rx.blks == l.rx.blks && r.rx.size == l.rx.size
    decreases |l.rx.q|
  {
    if l.rx.q == [] || |l.s.mque| >= QUE_CAPACITY then l else PollAll(DoPoll(l))
  }

  /** The notes at the front are taken. */
  function DropNotes(l: Local): (r: Local)
    ensures r.tx == l.tx && r.rx == l.rx
    decreases |l.s.mque|
  {
    if l.s.mque == [] || !l.s.mque[0].Note? then l else DropNotes(DoTakeNote(l))
  }

  datatype RecvType = RecvIdle | RecvHostMsg | RecvHostData | RecvMarker | RecvCall | RecvHalt

  /** What the message at the front of the queue says. */
  function LookAtFront(l: Local): (Local, RecvType) {
    if l.s.mque == [] then (l, RecvIdle)
    else match l.s.mque[0]
      case DataRdy(n) => (if l.s.rSize == 0 then l.(s := l.s.(rSize := n)) else l, RecvHostData)
      case MarkRdy => (l, RecvMarker)
      case CallRdy(k) => (l, if k == 0 || |l.s.mque| >= 2 then RecvCall else RecvIdle)
      case HaltRdy => (Written(DoTake(l, l.s.rArg, [Halt])), RecvHalt)
      case User(_, _) => (l, RecvHostMsg)
      case Note(_, _) => (l, RecvIdle)
      case Avl => (l, RecvIdle)
  }

  /** The receive loop: messages are queued, notes dropped, and the front of the queue decides. */
  function MsgLoop(l: Local): (Local, RecvType) {
    LookAtFront(DropNotes(PollAll(l)))
  }

  // ------------------------------------------------------------------------------------------
  // States between calls
  // ------------------------------------------------------------------------------------------

  /** The start of a well-formed stream: the arguments of the last call may still be missing. */
  predicate Readable(q: seq<Msg>, size: nat) {
    q == [] ||
    (&& !q[0].Avl?
     && (q[0].DataRdy? ==> 0 < q[0].size <= size)
     && (q[0].CallRdy? && q[0].argc > 0 ==> q[0].argc < size && (|q| > 1 ==> q[1] == DataRdy(q[0].argc)))
     && Readable(q[1..], size))
  }

  /** A unit between two calls. */
  predicate Ready(l: Local) {
    && l.tx.Valid() && l.rx.Valid()
    && l.s.box == [] && !l.s.appIn && l.s.rArg == 0 && |l.tx.q| <= RING_SLOTS
    && l.s.avail >= 0 && l.s.sPos < l.tx.size && (l.s.sPos > 0 ==> l.s.avail > 0)
    && ReaderOk(l.s, l.rx.size)
    && |l.s.mque| <= QUE_CAPACITY
    && Readable(l.s.mque + Strip(l.rx.q), l.rx.size)
    && Announced(l.s, l.rx.q, []) && Untouched(l.s)
  }

  lemma {:induction false} ReadablePrefix(x: seq<Msg>, y: seq<Msg>, size: nat)
    requires WellFormed(x + y, size)
    ensures Readable(x, size)
  {
    if x != [] {
      assert (x + y)[0] == x[0] && (x + y)[1..] == x[1..] + y;
      if |x| > 1 {
        assert (x + y)[1] == x[1];
      }
      ReadablePrefix(x[1..], y, size);
    }
  }

  /** The protocol's invariant gives what the calls rely on. */
  lemma InvMeansReady(l: Local, R: Side)
    requires BothOk(l, R) && l.s.box == [] && !l.s.appIn && l.s.rArg == 0
    requires Announced(l.s, l.rx.q, R.box) && Untouched(l.s)
    ensures Ready(l)
  {
    hide Rdys, Avls, Decode, DataEvents, Link.Block, Strip, WellFormed, Readable;
    StripAppend(l.rx.q, R.box);
    assert Items(R, l.s, l.rx) == (l.s.mque + Strip(l.rx.q)) + Strip(R.box);
    ReadablePrefix(l.s.mque + Strip(l.rx.q), Strip(R.box), l.rx.size);
  }

  lemma {:induction false} ReadableFront(q: seq<Msg>, y: seq<Msg>, size: nat)
    requires Readable(q + y, size) && q != []
    ensures !q[0].Avl? && (q[0].DataRdy? ==> 0 < q[0].size <= size)
    ensures q[0].CallRdy? && q[0].argc > 0 ==>
              q[0].argc < size && (|q| > 1 ==> q[1] == DataRdy(q[0].argc))
    ensures Readable(q[1..] + y, size)
  {
    assert (q + y)[0] == q[0] && (q + y)[1..] == q[1..] + y;
    if |q| > 1 {
      assert (q + y)[1] == q[1];
    }
  }

  // ------------------------------------------------------------------------------------------
  // The calls
  // ------------------------------------------------------------------------------------------

  function Min(a: nat, b: nat): nat { if a < b then a else b }

  /** Data copied into blocks as long as there are credits; messages are polled when there are
      none.  Also the number of quadwords sent. */
  function SendLoop(l: Local, data: seq<Qword>): (r: (Local, nat))
    requires l.tx.Valid() && l.s.sPos < l.tx.size
    ensures r.1 <= |data|
    decreases |data|
  {
    if data == [] then (l, 0)
    else
      var l1 := if l.s.avail == 0 then PolledFirst(l) else l;
      if l1.s.avail <= 0 then (l1, 0)
      else
        var n := Min(|data|, l1.tx.size - l1.s.sPos);
        var r := SendLoop(Written(DoFill(l1, data[..n])), data[n..]);
        (r.0, n + r.1)
  }

  function PolledFirst(l: Local): (r: Local)
    ensures r.s.sPos == l.s.sPos && r.tx == l.tx
  {
    PollKeeps(l);
    PollAll(l)
  }

  lemma {:induction false} PollKeeps(l: Local)
    ensures var r := PollAll(l).s;
            r.sPos == l.s.sPos && r.sIdx == l.s.sIdx && r.box == l.s.box && r.sent == l.s.sent
            && r.rSize == l.s.rSize && r.rPos == l.s.rPos && r.rArg == l.s.rArg && r.rIdx == l.s.rIdx
            && r.rcvd == l.s.rcvd && r.seen == l.s.seen && l.s.avail <= r.avail && l.s.mque <= r.mque
    decreases |l.rx.q|
  {
    if l.rx.q != [] && |l.s.mque| < QUE_CAPACITY {
      PollKeeps(DoPoll(l));
    }
  }

  function FlushCall(l: Local): Local {
    Written(l.(s := Flushed(l.s)))
  }

  function UserCall(l: Local, t: nat, d: nat): Local {
    Written(DoUser(l, t, d))
  }

  /** A started block is handed over; when `need` credits are not left, messages are polled. */
  function Prepared(l: Local, need: nat): Local {
    var l1 := FlushCall(l);
    if l1.s.avail < need then PolledFirst(l1) else l1
  }

  /** A marker or a halt; nothing is sent, and false returned, without a credit. */
  function ControlCall(l: Local, m: Msg, e: Event): (Local, bool) {
    var l1 := Prepared(l, 1);
    if l1.s.avail < 1 then (l1, false) else (Written(DoControl(l1, m, e)), true)
  }

  /** A call or a return, which takes two credits. */
  function CallCall(l: Local, args: seq<Qword>): (Local, bool)
    requires l.tx.Valid() && l.s.sPos < l.tx.size
  {
    var l1 := Prepared(l, 2);
    if l1.s.avail < 2 then (l1, false) else (Written(CallSent(l1, args)), true)
  }

  /** Up to `want` quadwords received. */
  function RecvLoop(l: Local, want: nat): (r: (Local, seq<Qword>))
    requires Ready(l)
    ensures |r.1| <= want
    decreases want
  {
    hide Reaches, Readable, Announced, Untouched;
    if want == 0 then (l, [])
    else
      var l1 := if l.s.rSize > 0 then l else MsgLoop(l).0;
      if l.s.rSize == 0 && MsgLoop(l).1 != RecvHostData then (l1, [])
      else
        assert Ready(l1) && l1.s.rSize > 0 by { MsgLoopReady(l); }
        var n := Min(l1.s.rSize, want);
        var chunk := l1.rx.Block(l1.s.rIdx)[l1.s.rPos..l1.s.rPos + n];
        assert Ready(Written(DoTakeData(l1, n))) by { TakeDataReady(l1, n); }
        var r := RecvLoop(Written(DoTakeData(l1, n)), want - n);
        (r.0, chunk + r.1)
  }

  /** A user message; none when something else is at the front. */
  function UserRecv(l: Local): (Local, bool) {
    var (l1, t) := MsgLoop(l);
    if t != RecvHostMsg || l1.s.mque == [] || !l1.s.mque[0].User? then (l1, false)
    else (DoTake(l1, l1.s.rArg, [HostMsg(l1.s.mque[0].msgType, l1.s.mque[0].msgData)]), true)
  }

  function MarkerRecv(l: Local): (Local, bool) {
    if l.s.rSize > 0 then (l, false)
    else
      var (l1, t) := MsgLoop(l);
      if t != RecvMarker || l1.s.mque == [] then (l1, false)
      else (Written(DoTake(l1, l1.s.rArg, [Marker])), true)
  }

  /** A call (or a return) with its arguments; they are in the block behind the call's own. */
  function CallRecv(l: Local): (Local, bool, seq<Qword>)
    requires Ready(l)
  {
    var (l1, t) := MsgLoop(l);
    MsgLoopReady(l);
    if t != RecvCall then (l1, false, [])
    else
      var k := l1.s.mque[0].argc;
      var l2 := Written(DoTake(l1, k, if k == 0 then [Call([])] else []));
      if k == 0 then (l2, true, [])
      else
        var args := l2.rx.Block(l2.s.rIdx)[..k];
        (Written(DoTake(l2, 0, [Call(args)])), true, args)
  }

  // ------------------------------------------------------------------------------------------
  // The calls keep a unit ready
  // ------------------------------------------------------------------------------------------

  lemma PollReady(l: Local)
    requires Ready(l) && l.rx.q != [] && |l.s.mque| < QUE_CAPACITY
    ensures Ready(DoPoll(l))
  {
    hide Readable, Avls, Rdys, Announced;
    PollAnnounced(l, []);
    PollItems(l.s.mque, l.rx.q, []);
    assert l.rx.q + [] == l.rx.q && l.rx.q[1..] + [] == l.rx.q[1..];
  }

  lemma {:induction false} PollAllReady(l: Local)
    requires Ready(l)
    ensures Ready(PollAll(l))
    decreases |l.rx.q|
  {
    if l.rx.q != [] && |l.s.mque| < QUE_CAPACITY {
      PollReady(l);
      PollAllReady(DoPoll(l));
    }
  }

  lemma NoteReady(l: Local)
    requires Ready(l) && l.s.mque != [] && l.s.mque[0].Note?
    ensures Ready(DoTakeNote(l)) && Enabled(l, TakeNote)
  {
    hide Strip, Announced;
    ReadableFront(l.s.mque, Strip(l.rx.q), l.rx.size);
    FrontGone(l.s, DoTakeNote(l).s, l.rx.q, []);
  }

  lemma {:induction false} DropNotesReady(l: Local)
    requires Ready(l)
    ensures Ready(DropNotes(l))
    decreases |l.s.mque|
  {
    hide Strip, Announced, Ready;
    if l.s.mque != [] && l.s.mque[0].Note? {
      NoteReady(l);
      DropNotesReady(DoTakeNote(l));
    }
  }

  /** The receive loop takes all notes at the front: then the unit knows its blocks. */
  lemma {:induction false} DropSetsUp(l: Local)
    requires Begins(l.s.mque, Pending(l.s.seen))
    ensures SetUp(DropNotes(l).s) && CanRead(DropNotes(l).s)
    decreases |l.s.mque|
  {
    hide Pending;
    var p := Pending(l.s.seen);
    PendingLess(l.s.seen, if l.s.mque != [] && l.s.mque[0].Note? then l.s.mque[0].msgType else 0);
    if l.s.mque != [] && l.s.mque[0].Note? {
      var m := DoTakeNote(l);
      assert forall i :: 0 <= i < |m.s.mque| ==> m.s.mque[i] == l.s.mque[i + 1];
      DropSetsUp(m);
    }
  }

  /** Polling brings all of them, if the queue has room for them. */
  lemma {:induction false} PollBrings(l: Local)
    requires Announced(l.s, l.rx.q, [])
    ensures var m := PollAll(l); Begins(m.s.mque, Pending(m.s.seen))
    decreases |l.rx.q|
  {
    hide Pending;
    if l.rx.q == [] {
      assert l.s.mque + Strip(l.rx.q) == l.s.mque;
    } else if |l.s.mque| >= QUE_CAPACITY {
      assert forall i :: 0 <= i < |l.s.mque| ==> (l.s.mque + Strip(l.rx.q))[i] == l.s.mque[i];
    } else {
      PollAnnounced(l, []);
      PollBrings(DoPoll(l));
    }
  }

  /** After the first receive of any kind a unit is set up, and it stays so. */
  lemma ReceiveSetsUp(l: Local)
    requires Announced(l.s, l.rx.q, [])
    ensures SetUp(MsgLoop(l).0.s) && CanRead(MsgLoop(l).0.s)
  {
    hide PollAll, DropNotes, Announced, Begins, Pending;
    PollBrings(l);
    DropSetsUp(PollAll(l));
  }

  lemma MsgLoopReady(l: Local)
    requires Ready(l)
    ensures var (l1, t) := MsgLoop(l);
      && Ready(l1) && l1.tx.size == l.tx.size && l1.rx.size == l.rx.size
      && (t == RecvHostData ==> l1.s.rSize > 0)
      && (t == RecvCall ==> l1.s.mque != [] && l1.s.mque[0].CallRdy?
                            && l1.s.mque[0].argc < l1.rx.size && l1.s.rSize == 0
                            && (l1.s.mque[0].argc > 0 ==>
                                  |l1.s.mque| > 1 && l1.s.mque[1] == DataRdy(l1.s.mque[0].argc)))
      && (t == RecvMarker ==> l1.s.mque != [] && l1.s.mque[0] == MarkRdy)
      && (t == RecvHostMsg ==> l1.s.mque != [] && l1.s.mque[0].User?)
  {
    hide Strip, PollAll, DropNotes, Readable, Announced;
    PollAllReady(l);
    DropNotesReady(PollAll(l));
    var l1 := DropNotes(PollAll(l));
    if l1.s.mque != [] {
      ReadableFront(l1.s.mque, Strip(l1.rx.q), l1.rx.size);
      if l1.s.mque[0].HaltRdy? {
        TakeReady(l1, [Halt]);
      } else {
        SamePlace(l1, MsgLoop(l).0);
      }
    }
  }

  lemma TakeReady(l: Local, evs: seq<Event>)
    requires Ready(l) && l.s.mque != [] && l.s.rSize == 0
    requires !l.s.mque[0].Note?
    ensures Ready(Written(DoTake(l, 0, evs)))
  {
    hide Strip, Announced;
    FrontGone(l.s, Written(DoTake(l, 0, evs)).s, l.rx.q, []);
    ReadableFront(l.s.mque, Strip(l.rx.q), l.rx.size);
  }

  lemma FrontStays(l: Local, n: nat)
    requires Ready(l) && 0 < n <= l.s.rSize
    ensures Announced(Written(DoTakeData(l, n)).s, l.rx.q, [])
  {
    hide Strip, Readable;
    if n == l.s.rSize {
      FrontGone(l.s, Written(DoTakeData(l, n)).s, l.rx.q, []);
    }
  }

  lemma TakeDataReady(l: Local, n: nat)
    requires Ready(l) && 0 < n <= l.s.rSize
    ensures Ready(Written(DoTakeData(l, n)))
  {
    hide Strip, Announced;
    FrontStays(l, n);
    ReadableFront(l.s.mque, Strip(l.rx.q), l.rx.size);
  }

  // ------------------------------------------------------------------------------------------
  // The calls are made of protocol actions
  // ------------------------------------------------------------------------------------------

  /** An action of this unit, or the other unit polls the oldest message of the ring that this unit
      writes. */
  datatype Deed = Own(act: Action) | Polled

  predicate Possible(l: Local, d: Deed)
    requires l.tx.Valid() && l.rx.Valid()
  {
    if d.Polled? then l.tx.q != []
    else Enabled(l, d.act) && (d.act.SendCall? ==> |d.act.args| < l.tx.size)
  }

  function Done(l: Local, d: Deed): (r: Local)
    requires l.tx.Valid() && l.rx.Valid() && Possible(l, d)
    ensures r.tx.Valid() && r.rx.Valid()
  {
    if d.Polled? then l.(tx := l.tx.(q := l.tx.q[1..])) else Apply(l, d.act)
  }

  /** The other unit after it. */
  function OtherDone(l: Local, d: Deed, R: Side): Side
    requires d.Polled? ==> l.tx.q != []
  {
    if d.Polled? then DoPoll(Local(R, l.rx, l.tx)).s else R
  }

  predicate LocalRun(l: Local, ds: seq<Deed>)
    requires l.tx.Valid() && l.rx.Valid()
    decreases |ds|
  {
    ds == [] || (Possible(l, ds[0]) && LocalRun(Done(l, ds[0]), ds[1..]))
  }

  function LocalEnd(l: Local, ds: seq<Deed>): Local
    requires l.tx.Valid() && l.rx.Valid() && LocalRun(l, ds)
    decreases |ds|
  {
    if ds == [] then l else LocalEnd(Done(l, ds[0]), ds[1..])
  }

  function OtherEnd(l: Local, ds: seq<Deed>, R: Side): (r: Side)
    requires l.tx.Valid() && l.rx.Valid() && LocalRun(l, ds)
    ensures R.mque <= r.mque
    decreases |ds|
  {
    if ds == [] then R else OtherEnd(Done(l, ds[0]), ds[1..], OtherDone(l, ds[0], R))
  }

  /** `r` is reached from `l` by actions of this unit, while the other unit at most polls. */
  ghost predicate Reaches(l: Local, r: Local)
    requires l.tx.Valid() && l.rx.Valid()
  {
    exists ds :: LocalRun(l, ds) && LocalEnd(l, ds) == r
  }

  lemma DeedKeeps(l: Local, d: Deed, R: Side)
    requires BothOk(l, R) && l.tx.Valid() && l.rx.Valid() && Possible(l, d)
    requires d.Polled? ==> |OtherDone(l, d, R).mque| <= QUE_CAPACITY
    ensures BothOk(Done(l, d), OtherDone(l, d, R))
  {
    hide DirInv, Enabled, Apply;
    if d.Polled? {
      PollStep(Local(R, l.rx, l.tx), l.s);
    } else {
      ActionKeepsInv(l, R, d.act);
    }
  }

  /** Whatever is made of protocol actions keeps the whole protocol in order, as long as the other
      unit's queue has room for what it polls. */
  lemma {:induction false} RunKeeps(l: Local, ds: seq<Deed>, R: Side)
    requires BothOk(l, R) && l.tx.Valid() && l.rx.Valid() && LocalRun(l, ds)
    requires |OtherEnd(l, ds, R).mque| <= QUE_CAPACITY
    ensures BothOk(LocalEnd(l, ds), OtherEnd(l, ds, R))
    decreases |ds|
  {
    hide BothOk, Enabled, Done;
    if ds != [] {
      var R1 := OtherDone(l, ds[0], R);
      assert |R1.mque| <= |OtherEnd(Done(l, ds[0]), ds[1..], R1).mque|;
      DeedKeeps(l, ds[0], R);
      RunKeeps(Done(l, ds[0]), ds[1..], R1);
    }
  }

  /** The states of both units behind a call: the other unit has done nothing but poll. */
  lemma ReachesKeeps(l: Local, r: Local, R: Side) returns (ds: seq<Deed>)
    requires BothOk(l, R) && l.tx.Valid() && l.rx.Valid() && Reaches(l, r)
    ensures LocalRun(l, ds) && LocalEnd(l, ds) == r
    ensures |OtherEnd(l, ds, R).mque| <= QUE_CAPACITY ==> BothOk(r, OtherEnd(l, ds, R))
  {
    ds :| LocalRun(l, ds) && LocalEnd(l, ds) == r;
    if |OtherEnd(l, ds, R).mque| <= QUE_CAPACITY {
      RunKeeps(l, ds, R);
    }
  }

  lemma {:induction false} LocalRunAppend(l: Local, a: seq<Deed>, b: seq<Deed>)
    requires l.tx.Valid() && l.rx.Valid() && LocalRun(l, a)
    requires var m := LocalEnd(l, a); m.tx.Valid() && m.rx.Valid() && LocalRun(m, b)
    ensures LocalRun(l, a + b) && LocalEnd(l, a + b) == LocalEnd(LocalEnd(l, a), b)
    decreases |a|
  {
    hide Possible, Done;
    if a == [] {
      assert a + b == b;
    } else {
      LocalRunAppend(Done(l, a[0]), a[1..], b);
      assert (a + b)[1..] == a[1..] + b;
    }
  }

  lemma ReachesTrans(l: Local, m: Local, r: Local)
    requires l.tx.Valid() && l.rx.Valid() && Reaches(l, m)
    requires m.tx.Valid() && m.rx.Valid() && Reaches(m, r)
    ensures Reaches(l, r)
  {
    hide LocalRun, LocalEnd;
    var a :| LocalRun(l, a) && LocalEnd(l, a) == m;
    var b :| LocalRun(m, b) && LocalEnd(m, b) == r;
    LocalRunAppend(l, a, b);
  }

  lemma ReachesSame(l: Local)
    requires l.tx.Valid() && l.rx.Valid()
    ensures Reaches(l, l)
  {
    assert LocalRun(l, []);
  }

  lemma ReachesDeed(l: Local, d: Deed)
    requires l.tx.Valid() && l.rx.Valid() && Possible(l, d)
    ensures Reaches(l, Done(l, d))
  {
    hide Possible, Done;
    assert [d][1..] == [];
    assert LocalRun(l, [d]) && LocalEnd(l, [d]) == Done(l, d);
  }

  lemma ReachesOne(l: Local, a: Action)
    requires l.tx.Valid() && l.rx.Valid() && Enabled(l, a) && (a.SendCall? ==> |a.args| < l.tx.size)
    ensures Reaches(l, Apply(l, a))
  {
    hide Enabled, Apply, Reaches;
    ReachesDeed(l, Own(a));
  }

  lemma {:induction false} WrittenReached(l: Local)
    requires l.tx.Valid() && l.rx.Valid() && |l.tx.q| <= RING_SLOTS && (l.s.box == [] ==> !l.s.appIn)
    ensures Reaches(l, Written(l))
    decreases |l.s.box|, |l.tx.q|
  {
    hide Reaches;
    if l.s.box == [] {
      assert l.tx.q + l.s.box == l.tx.q;
      ReachesSame(l);
    } else if |l.tx.q| < RING_SLOTS {
      var m := Apply(l, WriteSlot);
      ReachesOne(l, WriteSlot);
      WrittenReached(m);
      assert m.tx.q + m.s.box == l.tx.q + l.s.box;
      ReachesTrans(l, m, Written(l));
    } else {
      var m := Done(l, Polled);
      ReachesDeed(l, Polled);
      WrittenReached(m);
      LatestTail(l.tx.q, l.s.box);
      ReachesTrans(l, m, Written(l));
    }
  }

  /** An action, and then its messages copied into the ring. */
  lemma ActAndWrite(l: Local, a: Action)
    requires l.tx.Valid() && l.rx.Valid() && Enabled(l, a) && (a.SendCall? ==> |a.args| < l.tx.size)
    requires |Apply(l, a).tx.q| <= RING_SLOTS
    ensures Reaches(l, Written(Effect(l, a)))
  {
    hide Enabled, Allowed, Effect, Reaches;
    var m := Apply(l, a);
    ReachesOne(l, a);
    WrittenReached(m);
    ReachesTrans(l, m, Written(m));
  }

  lemma {:induction false} PollAllReached(l: Local)
    requires Ready(l)
    ensures Reaches(l, PollAll(l))
    decreases |l.rx.q|
  {
    hide Reaches, Readable, Strip;
    if l.rx.q != [] && |l.s.mque| < QUE_CAPACITY {
      PollReady(l);
      ReachesOne(l, Poll);
      PollAllReached(DoPoll(l));
      ReachesTrans(l, DoPoll(l), PollAll(l));
    } else {
      ReachesSame(l);
    }
  }

  lemma {:induction false} DropNotesReached(l: Local)
    requires Ready(l)
    ensures Reaches(l, DropNotes(l))
    decreases |l.s.mque|
  {
    hide Reaches, Strip, Announced, Ready;
    ReadyValid(l);
    if l.s.mque != [] && l.s.mque[0].Note? {
      var m := DoTakeNote(l);
      NoteReady(l);
      ReachesOne(l, TakeNote);
      assert Apply(l, TakeNote) == m;
      DropNotesReached(m);
      ReachesTrans(l, m, DropNotes(l));
    } else {
      ReachesSame(l);
    }
  }

  lemma MsgLoopReached(l: Local)
    requires Ready(l)
    ensures Reaches(l, MsgLoop(l).0)
  {
    hide Reaches, PollAll, DropNotes, Readable, Strip;
    var m0 := PollAll(l);
    var m := DropNotes(m0);
    PollAllReady(l);
    PollAllReached(l);
    DropNotesReady(m0);
    DropNotesReached(m0);
    ReachesTrans(l, m0, m);
    if m.s.mque != [] && m.s.mque[0].DataRdy? && m.s.rSize == 0 {
      ReachesOne(m, SeeData);
      ReachesTrans(l, m, MsgLoop(l).0);
    } else if m.s.mque != [] && m.s.mque[0].HaltRdy? {
      ActAndWrite(m, TakeHalt);
      ReachesTrans(l, m, MsgLoop(l).0);
    }
  }

  /** What the code of a unit needs to know before it sends. */
  lemma SendFacts(l: Local)
    requires Ready(l)
    ensures l.s.sPos < l.tx.size && l.tx.Valid() && l.s.avail >= 0
    ensures l.s.sPos > 0 ==> l.s.avail > 0
  {
  }

  lemma SamePlace(l: Local, m: Local)
    requires Announced(l.s, l.rx.q, []) && m.s.mque == l.s.mque && m.s.seen == l.s.seen && m.rx.q == l.rx.q
    ensures Announced(m.s, m.rx.q, [])
  {
  }

  lemma FillReady(l: Local, data: seq<Qword>)
    requires Ready(l) && SetUp(l.s) && l.s.avail > 0 && |data| > 0 && l.s.sPos + |data| <= l.tx.size
    ensures var m := Written(DoFill(l, data)); Ready(m) && SetUp(m.s)
    ensures Reaches(l, Written(DoFill(l, data)))
  {
    hide Reaches, Readable, Strip, Avls, Overwrite, DataEvents, Announced;
    SamePlace(l, Written(DoFill(l, data)));
    ActAndWrite(l, Fill(data));
  }

  lemma {:induction false} SendLoopReached(l: Local, data: seq<Qword>)
    requires Ready(l) && SetUp(l.s)
    ensures Reaches(l, SendLoop(l, data).0) && Ready(SendLoop(l, data).0)
    decreases |data|
  {
    hide Reaches, Readable, Strip, Avls, Overwrite, DataEvents, DoFill, Written, PollAll;
    if data == [] {
      ReachesSame(l);
    } else {
      var l1 := if l.s.avail == 0 then PolledFirst(l) else l;
      PollAllReady(l);
      PollKeeps(l);
      if l.s.avail == 0 { PollAllReached(l); } else { ReachesSame(l); }
      if l1.s.avail > 0 {
        var n := Min(|data|, l1.tx.size - l1.s.sPos);
        FillReady(l1, data[..n]);
        var m := Written(DoFill(l1, data[..n]));
        SendLoopReached(m, data[n..]);
        ReachesTrans(l, l1, m);
        ReachesTrans(l, m, SendLoop(l, data).0);
      }
    }
  }

  /** One round of the sending loop. */
  lemma SendLoopStep(l: Local, data: seq<Qword>)
    requires Ready(l) && SetUp(l.s)
    ensures data == [] ==> SendLoop(l, data) == (l, 0)
    ensures data != [] ==>
      var l1 := if l.s.avail == 0 then PollAll(l) else l;
      && Ready(l1) && SetUp(l1.s)
      && (l1.s.avail <= 0 ==> SendLoop(l, data) == (l1, 0))
      && (l1.s.avail > 0 ==>
            var n := Min(|data|, l1.tx.size - l1.s.sPos);
            var m := Written(DoFill(l1, data[..n]));
            var r := SendLoop(m, data[n..]);
            Ready(m) && SetUp(m.s) && SendLoop(l, data) == (r.0, n + r.1))
  {
    hide Reaches, Ready, Link.Valid, DoFill, Written, PollAll;
    SendFacts(l);
    if data != [] {
      PollAllReady(l);
      PollKeeps(l);
      var l1 := if l.s.avail == 0 then PollAll(l) else l;
      SendFacts(l1);
      if l1.s.avail > 0 {
        FillReady(l1, data[..Min(|data|, l1.tx.size - l1.s.sPos)]);
      }
    }
  }

  lemma FlushReached(l: Local)
    requires Ready(l)
    ensures Reaches(l, FlushCall(l)) && Ready(FlushCall(l))
  {
    hide Reaches, Readable, Strip, Avls;
    ActAndWrite(l, Flush);
  }

  lemma UserReached(l: Local, t: nat, d: nat)
    requires Ready(l) && 16 <= t < TYPES && d < PAYLOADS
    ensures Reaches(l, UserCall(l, t, d)) && Ready(UserCall(l, t, d))
  {
    hide Reaches, Readable, Strip, Avls;
    ActAndWrite(l, SendUser(t, d));
  }

  lemma PreparedReached(l: Local, need: nat)
    requires Ready(l)
    ensures Reaches(l, Prepared(l, need)) && Ready(Prepared(l, need))
    ensures Prepared(l, need).s.sPos == 0 && Prepared(l, need).s.seen == l.s.seen
  {
    hide Reaches, Readable, Strip, Avls, PollAll;
    FlushReached(l);
    var m := FlushCall(l);
    PollAllReady(m);
    PollAllReached(m);
    PollKeeps(m);
    if m.s.avail < need {
      ReachesTrans(l, m, PollAll(m));
    }
  }

  lemma ControlReached(l: Local, halt: bool)
    requires Ready(l) && SetUp(l.s)
    ensures var r := ControlCall(l, if halt then HaltRdy else MarkRdy, if halt then Halt else Marker).0;
            Reaches(l, r) && Ready(r)
  {
    hide Reaches, Readable, Strip, Avls, Prepared;
    PreparedReached(l, 1);
    var m := Prepared(l, 1);
    if m.s.avail >= 1 {
      ActAndWrite(m, if halt then SendHalt else SendMark);
      ReachesTrans(l, m, ControlCall(l, if halt then HaltRdy else MarkRdy, if halt then Halt else Marker).0);
    }
  }

  lemma CallReached(l: Local, args: seq<Qword>)
    requires Ready(l) && SetUp(l.s) && |args| < l.tx.size
    ensures Reaches(l, CallCall(l, args).0) && Ready(CallCall(l, args).0)
  {
    hide Reaches, Readable, Strip, Avls, Prepared, CallSent, FillLoop, Link.Block;
    PreparedReached(l, 2);
    var m := Prepared(l, 2);
    assert m.tx.size == l.tx.size by { PreparedSize(l, 2); }
    if m.s.avail >= 2 {
      CallBlock(m, m.s.(rIdx := m.s.sIdx), args);
      FillLoopSmall(m.(s := m.s.(avail := m.s.avail - 1, sIdx := m.s.sIdx + 1)), args);
      assert m.(s := Flushed(m.s)) == m;
      ActAndWrite(m, SendCall(args));
      ReachesTrans(l, m, CallCall(l, args).0);
    }
  }

  lemma PreparedSize(l: Local, need: nat)
    ensures Prepared(l, need).tx.size == l.tx.size
  {
  }

  /** What the code of a unit needs to know before it receives. */
  lemma RecvFacts(l: Local)
    requires Ready(l)
    ensures l.rx.Valid() && l.s.rArg == 0
    ensures l.s.rPos + l.s.rSize <= l.rx.size && (l.s.rSize > 0 ==> l.s.mque != [] && l.s.mque[0].DataRdy?)
  {
  }

  /** A receive that finds data: the state in which it reads, which is still before the read. */
  lemma DataReached(l: Local)
    requires Ready(l) && (l.s.rSize > 0 || MsgLoop(l).1 == RecvHostData)
    ensures var l1 := if l.s.rSize > 0 then l else MsgLoop(l).0;
      && Ready(l1) && Reaches(l, l1) && l1.s.rSize > 0 && l1.s.rcvd == l.s.rcvd
  {
    hide Reaches, Readable, Strip, MsgLoop, Link.Valid;
    if l.s.rSize > 0 {
      ReachesSame(l);
    } else {
      MsgLoopReady(l);
      MsgLoopRcvd(l);
      MsgLoopReached(l);
    }
  }

  lemma {:induction false} RecvLoopReached(l: Local, want: nat)
    requires Ready(l)
    ensures Reaches(l, RecvLoop(l, want).0) && Ready(RecvLoop(l, want).0)
    ensures var (r, data) := RecvLoop(l, want);
      r.s.rcvd == l.s.rcvd + DataEvents(data) || r.s.rcvd == l.s.rcvd + DataEvents(data) + [Halt]
    decreases want
  {
    hide Reaches, Ready, Readable, Strip, MsgLoop, Link.Valid, Link.Block, DataEvents, DoTakeData, Written;
    ReadyValid(l);
    NoData(l.s.rcvd);
    if want == 0 {
      ReachesSame(l);
    } else if l.s.rSize == 0 && MsgLoop(l).1 != RecvHostData {
      MsgLoopReady(l);
      MsgLoopRcvd(l);
      MsgLoopReached(l);
    } else {
      DataReached(l);
      var l1 := if l.s.rSize > 0 then l else MsgLoop(l).0;
      ReadyValid(l1);
      var n := Min(l1.s.rSize, want);
      TakeDataReady(l1, n);
      TakeDataReached(l1, n);
      var m := Written(DoTakeData(l1, n));
      ReadyValid(m);
      RecvLoopReached(m, want - n);
      ReachesTrans(l, l1, m);
      ReachesTrans(l, m, RecvLoop(l, want).0);
      RecvRegroup(l.s.rcvd, l1.rx.Block(l1.s.rIdx)[l1.s.rPos..l1.s.rPos + n], RecvLoop(m, want - n).1);
    }
  }

  lemma NoData(before: seq<Event>)
    ensures before + DataEvents([]) == before
  {
    assert DataEvents([]) == [];
  }

  lemma RecvRegroup(before: seq<Event>, x: seq<Qword>, y: seq<Qword>)
    ensures before + DataEvents(x) + DataEvents(y) == before + DataEvents(x + y)
    ensures before + DataEvents(x) + DataEvents(y) + [Halt] == before + DataEvents(x + y) + [Halt]
  {
    DataEventsAppend(x, y);
    assert before + DataEvents(x) + DataEvents(y) == before + (DataEvents(x) + DataEvents(y));
  }

  lemma ReadyValid(l: Local)
    requires Ready(l)
    ensures l.tx.Valid() && l.rx.Valid() && l.s.box == [] && !l.s.appIn && l.s.rArg == 0
    ensures l.s.rPos + l.s.rSize <= l.rx.size && (l.s.rSize > 0 ==> l.s.mque != [])
  {
  }

  lemma TakeDataReached(l: Local, n: nat)
    requires Ready(l) && 0 < n <= l.s.rSize
    ensures var m := Written(DoTakeData(l, n));
      && Reaches(l, m)
      && m.s.rcvd == l.s.rcvd + DataEvents(l.rx.Block(l.s.rIdx)[l.s.rPos..l.s.rPos + n])
  {
    hide Reaches, Readable, Strip, Link.Block, DataEvents;
    ActAndWrite(l, TakeData(n));
  }

  /** Only a halt is received by the receive loop itself. */
  lemma MsgLoopRcvd(l: Local)
    ensures MsgLoop(l).0.s.rcvd == l.s.rcvd + (if MsgLoop(l).1 == RecvHalt then [Halt] else [])
  {
    hide PollAll, DropNotes;
    PollKeeps(l);
    DropRcvd(PollAll(l));
  }

  lemma {:induction false} DropRcvd(l: Local)
    ensures DropNotes(l).s.rcvd == l.s.rcvd
    decreases |l.s.mque|
  {
    if l.s.mque != [] && l.s.mque[0].Note? {
      DropRcvd(DoTakeNote(l));
    }
  }

  /** One round of the receiving loop. */
  lemma RecvLoopStep(l: Local, want: nat)
    requires Ready(l)
    ensures want == 0 ==> RecvLoop(l, want) == (l, [])
    ensures want > 0 && l.s.rSize == 0 && MsgLoop(l).1 != RecvHostData ==> RecvLoop(l, want) == (MsgLoop(l).0, [])
    ensures want > 0 && (l.s.rSize > 0 || MsgLoop(l).1 == RecvHostData) ==>
      var l1 := if l.s.rSize > 0 then l else MsgLoop(l).0;
      && Ready(l1) && l1.s.rSize > 0
      && var n := Min(l1.s.rSize, want);
         var m := Written(DoTakeData(l1, n));
         Ready(m)
         && var r := RecvLoop(m, want - n);
            RecvLoop(l, want) == (r.0, l1.rx.Block(l1.s.rIdx)[l1.s.rPos..l1.s.rPos + n] + r.1)
  {
    hide Reaches, Ready, Readable, Strip, MsgLoop, Link.Valid, Link.Block, DataEvents, DoTakeData, Written;
    if want > 0 && (l.s.rSize > 0 || MsgLoop(l).1 == RecvHostData) {
      DataReached(l);
      var l1 := if l.s.rSize > 0 then l else MsgLoop(l).0;
      ReadyValid(l1);
      TakeDataReady(l1, Min(l1.s.rSize, want));
      TakeDataReached(l1, Min(l1.s.rSize, want));
    }
  }

  lemma UserRecvReached(l: Local)
    requires Ready(l)
    ensures Reaches(l, UserRecv(l).0) && Ready(UserRecv(l).0)
  {
    hide Reaches, Readable, Strip, MsgLoop;
    MsgLoopReady(l);
    MsgLoopReached(l);
    var m := MsgLoop(l).0;
    if UserRecv(l).1 {
      TakeReady(m, [HostMsg(m.s.mque[0].msgType, m.s.mque[0].msgData)]);
      ReachesOne(m, TakeUser);
      WrittenNothing(UserRecv(l).0);
      ReachesTrans(l, m, UserRecv(l).0);
    }
  }

  lemma WrittenNothing(l: Local)
    requires l.s.box == [] && !l.s.appIn && |l.tx.q| <= RING_SLOTS
    ensures Written(l) == l
  {
    assert l.tx.q + l.s.box == l.tx.q;
  }

  lemma MarkerRecvReached(l: Local)
    requires Ready(l)
    ensures Reaches(l, MarkerRecv(l).0) && Ready(MarkerRecv(l).0)
  {
    hide Reaches, Readable, Strip, MsgLoop;
    MsgLoopReady(l);
    MsgLoopReached(l);
    ReachesSame(l);
    var m := MsgLoop(l).0;
    if MarkerRecv(l).1 {
      TakeReady(m, [Marker]);
      ActAndWrite(m, TakeMark);
      ReachesTrans(l, m, MarkerRecv(l).0);
    }
  }

  lemma CallRecvReached(l: Local)
    requires Ready(l)
    ensures Reaches(l, CallRecv(l).0) && Ready(CallRecv(l).0)
    ensures var r := CallRecv(l);
            r.1 ==> r.0.s.rcvd == l.s.rcvd + [Call(r.2)]
  {
    hide Reaches, Readable, Strip, MsgLoop, Link.Block;
    MsgLoopReady(l);
    MsgLoopReached(l);
    MsgLoopRcvd(l);
    var m := MsgLoop(l).0;
    if CallRecv(l).1 {
      var k := m.s.mque[0].argc;
      var m1 := Written(DoTake(m, k, if k == 0 then [Call([])] else []));
      ActAndWrite(m, TakeCall);
      if k == 0 {
        TakeReady(m, [Call([])]);
        ReachesTrans(l, m, m1);
      } else {
        ActAndWrite(m1, TakeArgs);
        ArgsReady(m);
        ReachesTrans(l, m, m1);
        ReachesTrans(l, m1, CallRecv(l).0);
      }
    }
  }

  lemma ArgsReady(l: Local)
    requires Ready(l) && |l.s.mque| > 1 && l.s.rSize == 0 && l.s.mque[0].CallRdy?
    requires l.s.mque[0].argc > 0 && l.s.mque[1] == DataRdy(l.s.mque[0].argc)
    ensures var k := l.s.mque[0].argc;
            var m := Written(DoTake(l, k, []));
            forall evs :: Ready(Written(DoTake(m, 0, evs)))
  {
    hide Strip, Announced;
    var k := l.s.mque[0].argc;
    var m := Written(DoTake(l, k, []));
    ReadableFront(l.s.mque, Strip(l.rx.q), l.rx.size);
    ReadableFront(l.s.mque[1..], Strip(l.rx.q), l.rx.size);
    FrontGone(l.s, m.s, l.rx.q, []);
    forall evs ensures Announced(Written(DoTake(m, 0, evs)).s, l.rx.q, []) {
      FrontGone(m.s, Written(DoTake(m, 0, evs)).s, l.rx.q, []);
    }
  }
}
