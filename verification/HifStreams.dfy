/** What the calls of a unit do with the stream of messages that is on its way to it, and with the credits
    that lie in its ring: said of the streams themselves, without the loops that the calls are made of. */
module HifStreams {
  import opened HifProtocol
  import opened HifSafety
  import opened HifNotes
  import opened HifCalls

  // ------------------------------------------------------------------------------------------
  // The lock
  // ------------------------------------------------------------------------------------------

  /** Receiving that counts no credit and hands no block back. */
  predicate NeedsNoLock(l: Local, a: Action) {
    match a
    case Poll => l.rx.q != [] && !l.rx.q[0].Avl?
    case SeeData => true
    case TakeData(n) => n != l.s.rSize
    case TakeUser => true
    case TakeNote => true
    case _ => false
  }

  /** While the timer's messages wait for slots the application may do just what needs no lock, as if none
      waited, and it may begin to wait itself. */
  lemma LockHeld(l: Local, a: Action)
    requires l.tx.Valid() && l.rx.Valid() && l.s.box != [] && !l.s.appIn && !a.WriteSlot? && !a.WaitLock?
    ensures Enabled(l, a) <==> NeedsNoLock(l, a) && Enabled(l.(s := l.s.(box := [])), a)
    ensures Enabled(l, WaitLock) && Apply(l, WaitLock).s.appIn
  {
    hide Link.Valid, FillLoop;
  }

  /** The application waits for slots just as long as its own messages do, or those for which it began to
      wait; the timer's flush does not hold it up, and while it waits only slots are written. */
  lemma WhoWaits(l: Local, a: Action)
    requires l.tx.Valid() && l.rx.Valid() && (l.s.appIn ==> l.s.box != []) && Enabled(l, a)
    ensures var m := Apply(l, a).s;
      m.appIn <==> m.box != [] && (l.s.appIn || a.WaitLock? || (l.s.box == [] && !a.Tick?))
    ensures l.s.appIn ==> a.WriteSlot?
  {
    hide Link.Valid, FillLoop;
  }

  // ------------------------------------------------------------------------------------------
  // What polling brings in
  // ------------------------------------------------------------------------------------------

  /** All messages for the unit, oldest first: those of its queue, and those of the ring it reads. */
  function Stream(l: Local): seq<Msg> { l.s.mque + Strip(l.rx.q) }

  /** As many of them as the queue has room for. */
  function Brought(l: Local): (q: seq<Msg>)
    ensures |q| <= QUE_CAPACITY && q <= Stream(l)
  {
    if |Stream(l)| <= QUE_CAPACITY then Stream(l) else Stream(l)[..QUE_CAPACITY]
  }

  /** The credits that lie in the ring in front of the message at which the queue, which holds `n`, is full. */
  function Gain(q: seq<Msg>, n: nat): nat {
    if q == [] || n >= QUE_CAPACITY then 0
    else if q[0].Avl? then 1 + Gain(q[1..], n)
    else Gain(q[1..], n + 1)
  }

  /** The credits that a unit has when it has polled. */
  function Credits(l: Local): int { l.s.avail + Gain(l.rx.q, |l.s.mque|) }

  lemma {:induction false} PollGives(l: Local)
    requires |l.s.mque| <= QUE_CAPACITY
    ensures PollAll(l).s.mque == Brought(l) && Stream(PollAll(l)) == Stream(l)
    ensures PollAll(l).s.avail == Credits(l) == Credits(PollAll(l))
    decreases |l.rx.q|
  {
    hide Strip;
    if l.rx.q == [] || |l.s.mque| >= QUE_CAPACITY {
      NothingPolled(l);
    } else {
      PollItems(l.s.mque, l.rx.q, []);
      assert l.rx.q + [] == l.rx.q && l.rx.q[1..] + [] == l.rx.q[1..];
      PollGives(DoPoll(l));
    }
  }

  lemma NothingPolled(l: Local)
    requires |l.s.mque| <= QUE_CAPACITY && (l.rx.q == [] || |l.s.mque| == QUE_CAPACITY)
    ensures Brought(l) == l.s.mque
  {
  }

  /** Message `i` is the first one that is not a note. */
  predicate FirstAt(q: seq<Msg>, i: nat) {
    i < |q| && !q[i].Note? && forall j :: 0 <= j < i ==> q[j].Note?
  }

  lemma {:induction false} NotesDropped(l: Local, i: nat)
    requires i <= |l.s.mque| && (forall j :: 0 <= j < i ==> l.s.mque[j].Note?)
    requires i < |l.s.mque| ==> !l.s.mque[i].Note?
    ensures var m := DropNotes(l);
      && m.s.mque == l.s.mque[i..] && m.tx == l.tx && m.rx == l.rx
      && m.s == l.s.(mque := m.s.mque, seen := m.s.seen)
    decreases i
  {
    if i > 0 {
      NotesDropped(DoTakeNote(l), i - 1);
    }
  }

  // ------------------------------------------------------------------------------------------
  // What is announced
  // ------------------------------------------------------------------------------------------

  /** The state of a unit that has polled, and taken `i` notes. */
  predicate Looked(l: Local, m: Local, i: nat) {
    && i <= |Brought(l)| && m.s.mque == Brought(l)[i..] && Stream(m) == Stream(l)[i..]
    && m.tx == l.tx && m.rx.blks == l.rx.blks && m.rx.size == l.rx.size && m.s.avail == Credits(l)
    && m.s == l.s.(mque := m.s.mque, seen := m.s.seen, avail := m.s.avail)
  }

  lemma LookedAt(l: Local, i: nat)
    requires |l.s.mque| <= QUE_CAPACITY && i <= |Brought(l)|
    requires (forall j :: 0 <= j < i ==> Brought(l)[j].Note?) && (i < |Brought(l)| ==> !Brought(l)[i].Note?)
    ensures Looked(l, DropNotes(PollAll(l)), i)
  {
    hide Strip, PollAll, DropNotes, Brought;
    var p := PollAll(l);
    PollGives(l);
    PollRest(l);
    NotesDropped(p, i);
    assert Stream(DropNotes(p)) == Stream(p)[i..];
  }

  lemma {:induction false} PollRest(l: Local)
    ensures var p := PollAll(l); p.s == l.s.(mque := p.s.mque, avail := p.s.avail)
    decreases |l.rx.q|
  {
    if l.rx.q != [] && |l.s.mque| < QUE_CAPACITY {
      PollRest(DoPoll(l));
    }
  }

  /** The receive loop announces exactly the kind of the first message that is not a note, among those
      that the queue has room for; a call is announced when its arguments are among them too. */
  lemma KindAnnounced(l: Local, i: nat)
    requires Ready(l) && FirstAt(Brought(l), i)
    ensures var (m, t, q) := (MsgLoop(l).0, MsgLoop(l).1, Brought(l));
      && (t == RecvType.RecvHostMsg <==> q[i].User?)
      && (t == RecvMarker <==> q[i].MarkRdy?)
      && (t == RecvHostData <==> q[i].DataRdy?)
      && (t == RecvHalt <==> q[i].HaltRdy?)
      && (t == RecvCall <==> q[i].CallRdy? && (q[i].argc > 0 ==> i + 1 < |q|))
      && (t == RecvIdle <==> q[i].CallRdy? && q[i].argc > 0 && i + 1 == |q|)
    ensures var (m, q) := (MsgLoop(l).0, Brought(l));
      && (!q[i].HaltRdy? && !q[i].DataRdy? ==> Looked(l, m, i))
      && (q[i].DataRdy? ==> m.s.rSize == (if l.s.rSize == 0 then q[i].size else l.s.rSize)
                            && Looked(l, m.(s := m.s.(rSize := l.s.rSize)), i))
      && (q[i].HaltRdy? ==> m.s.mque == q[i + 1..] && m.s.rcvd == l.s.rcvd + [Halt] && m.s.rIdx == l.s.rIdx + 1
                            && m.tx.q == Latest(l.tx.q + [Avl]))
  {
    hide Strip, PollAll, DropNotes, Readable, Announced, Latest;
    LookedAt(l, i);
    var p := DropNotes(PollAll(l));
    assert p.s.mque[0] == Brought(l)[i];
    NeverAvl(l, i);
    if p.s.mque[0].HaltRdy? {
      assert p.s.mque[1..] == Brought(l)[i + 1..];
      assert [] + [Avl] == [Avl];
    }
  }

  /** AVL messages do not get into the queue. */
  lemma NeverAvl(l: Local, i: nat)
    requires Ready(l) && i < |Brought(l)|
    ensures !Brought(l)[i].Avl?
  {
    hide Strip;
    ReadableAt(Stream(l), l.rx.size, i);
  }

  lemma {:induction false} ReadableAt(q: seq<Msg>, size: nat, i: nat)
    requires Readable(q, size) && i < |q|
    ensures !q[i].Avl? && (q[i].DataRdy? ==> 0 < q[i].size <= size)
    ensures q[i].CallRdy? && q[i].argc > 0 ==> q[i].argc < size && (i + 1 < |q| ==> q[i + 1] == DataRdy(q[i].argc))
    decreases i
  {
    if i > 0 { ReadableAt(q[1..], size, i - 1); }
  }

  /** With nothing but notes nothing is announced. */
  lemma NothingAnnounced(l: Local)
    requires Ready(l) && forall j :: 0 <= j < |Brought(l)| ==> Brought(l)[j].Note?
    ensures MsgLoop(l).1 == RecvIdle && Looked(l, MsgLoop(l).0, |Brought(l)|)
    ensures !UserRecv(l).1 && !MarkerRecv(l).1 && !CallRecv(l).1
    ensures UserRecv(l).0.s.rcvd == CallRecv(l).0.s.rcvd == MarkerRecv(l).0.s.rcvd == l.s.rcvd
  {
    hide Strip, PollAll, DropNotes, Readable, Announced;
    LookedAt(l, |Brought(l)|);
  }

  // ------------------------------------------------------------------------------------------
  // What is received
  // ------------------------------------------------------------------------------------------

  /** A user message is received exactly when it comes first; with it go the notes before it. */
  lemma UserReceived(l: Local, i: nat)
    requires Ready(l) && FirstAt(Brought(l), i)
    ensures var (m, ok, q) := (UserRecv(l).0, UserRecv(l).1, Brought(l));
      && (ok <==> q[i].User?)
      && (ok ==> m.s.mque == q[i + 1..] && m.s.rcvd == l.s.rcvd + [HostMsg(q[i].msgType, q[i].msgData)] && m.tx == l.tx)
      && (!ok && !q[i].HaltRdy? ==> m.s.mque == q[i..] && m.s.rcvd == l.s.rcvd && m.tx == l.tx)
  {
    hide Strip, MsgLoop, Readable, Announced, Brought;
    KindAnnounced(l, i);
    var p := MsgLoop(l).0;
    if Brought(l)[i].User? {
      assert p.s.mque[0] == Brought(l)[i] && p.s.mque[1..] == Brought(l)[i + 1..];
    }
  }

  /** A marker is received exactly when it comes first and no data is left; its block goes back. */
  lemma MarkerReceived(l: Local, i: nat)
    requires Ready(l) && FirstAt(Brought(l), i)
    ensures var (m, ok, q) := (MarkerRecv(l).0, MarkerRecv(l).1, Brought(l));
      && (ok <==> l.s.rSize == 0 && q[i].MarkRdy?)
      && (ok ==> m.s.mque == q[i + 1..] && m.s.rcvd == l.s.rcvd + [Marker] && m.s.rIdx == l.s.rIdx + 1
                 && m.tx.q == Latest(l.tx.q + [Avl]))
      && (!ok && !q[i].HaltRdy? ==> m.s.rcvd == l.s.rcvd && m.tx == l.tx)
  {
    hide Strip, MsgLoop, Readable, Announced, Brought, Latest;
    KindAnnounced(l, i);
    var p := MsgLoop(l).0;
    if l.s.rSize == 0 && Brought(l)[i].MarkRdy? {
      assert p.s.mque[0] == Brought(l)[i] && p.s.mque[1..] == Brought(l)[i + 1..];
      assert [] + [Avl] == [Avl];
    }
  }

  /** A call is received exactly when it comes first and its arguments have come too, which are those in
      the block behind its own; both blocks go back. */
  lemma CallReceived(l: Local, i: nat)
    requires Ready(l) && FirstAt(Brought(l), i)
    ensures var (m, ok, args) := CallRecv(l);
      var q := Brought(l);
      && (ok <==> q[i].CallRdy? && (q[i].argc > 0 ==> i + 1 < |q|))
      && (ok ==>
            var k := q[i].argc;
            && k <= l.rx.size && args == l.rx.Block(l.s.rIdx + 1)[..k] && m.s.rcvd == l.s.rcvd + [Call(args)]
            && m.s.mque == q[if k == 0 then i + 1 else i + 2..]
            && m.s.rIdx == l.s.rIdx + (if k == 0 then 1 else 2)
            && m.tx.q == Latest(l.tx.q + (if k == 0 then [Avl] else [Avl, Avl])))
      && (!ok && !q[i].HaltRdy? ==> m.s.rcvd == l.s.rcvd && m.tx == l.tx)
  {
    hide Strip, MsgLoop, Readable, Announced, Brought, Latest, Link.Block;
    KindAnnounced(l, i);
    MsgLoopReady(l);
    var p := MsgLoop(l).0;
    if CallRecv(l).1 {
      assert p.s.mque[0] == Brought(l)[i] && p.s.mque[1..] == Brought(l)[i + 1..];
      CallTaken(p);
      SameBlock(l.rx, p.rx, l.s.rIdx + 1, p.s.mque[0].argc);
      assert p.s.mque[0].argc > 0 ==> p.s.mque[1..][1..] == Brought(l)[i + 2..];
    }
  }

  lemma CallTaken(p: Local)
    requires Ready(p) && p.s.mque != [] && p.s.mque[0].CallRdy? && p.s.mque[0].argc < p.rx.size
    requires p.s.mque[0].argc > 0 ==> |p.s.mque| > 1 && p.s.mque[1] == DataRdy(p.s.mque[0].argc)
    ensures var k := p.s.mque[0].argc;
      var a := Written(DoTake(p, k, if k == 0 then [Call([])] else []));
      && a.s.mque == p.s.mque[1..] && a.s.rIdx == p.s.rIdx + 1 && a.tx.q == Latest(p.tx.q + [Avl]) && a.rx == p.rx
      && (k == 0 ==> a.s.rcvd == p.s.rcvd + [Call([])])
      && (k > 0 ==>
            var args := p.rx.Block(p.s.rIdx + 1)[..k];
            var b := Written(DoTake(a, 0, [Call(args)]));
            && b.s.mque == p.s.mque[1..][1..] && b.s.rIdx == p.s.rIdx + 2 && b.s.rcvd == p.s.rcvd + [Call(args)]
            && b.tx.q == Latest(p.tx.q + [Avl, Avl]))
  {
    hide Strip, Readable, Announced, Latest, Link.Block;
    LatestMore(p.tx.q, [Avl], [Avl]);
    assert [Avl] + [Avl] == [Avl, Avl] && [] + [Avl] == [Avl];
    assert p.s.rcvd + [] == p.s.rcvd;
  }

  /** The data that comes first in the stream `q`, up to anything else, when block `b` is read next: at
      most as many notes are passed as the queue has room for. */
  function Leading(q: seq<Msg>, b: nat, rx: Link): seq<Qword>
    requires rx.Valid() && Readable(q, rx.size)
    decreases |q|
  {
    var i := Notes(q);
    NotesReadable(q, rx.size);
    if i >= |q| || i >= QUE_CAPACITY || !q[i].DataRdy? then []
    else rx.Block(b)[..q[i].size] + Leading(q[i + 1..], b + 1, rx)
  }

  /** The notes in front. */
  function Notes(q: seq<Msg>): (i: nat)
    ensures i <= |q| && (forall j :: 0 <= j < i ==> q[j].Note?) && (i < |q| ==> !q[i].Note?)
  {
    if q == [] || !q[0].Note? then 0 else 1 + Notes(q[1..])
  }

  lemma NotesReadable(q: seq<Msg>, size: nat)
    requires Readable(q, size)
    ensures var i := Notes(q);
      i < |q| ==> Readable(q[i + 1..], size) && (q[i].DataRdy? ==> 0 < q[i].size <= size)
  {
    if Notes(q) < |q| {
      ReadableAt(q, size, Notes(q));
      ReadableRest(q, size, Notes(q) + 1);
    }
  }

  lemma {:induction false} ReadableRest(q: seq<Msg>, size: nat, i: nat)
    requires Readable(q, size) && i <= |q|
    ensures Readable(q[i..], size)
    decreases i
  {
    if i > 0 {
      ReadableRest(q[1..], size, i - 1);
      assert q[1..][i - 1..] == q[i..];
    }
  }

  /** The data that a unit can read before it comes to anything else. */
  function Coming(l: Local): seq<Qword>
    requires Ready(l)
  {
    if l.s.rSize == 0 then Leading(Stream(l), l.s.rIdx, l.rx)
    else
      StreamFront(l);
      l.rx.Block(l.s.rIdx)[l.s.rPos..l.s.rPos + l.s.rSize] + Leading(Stream(l)[1..], l.s.rIdx + 1, l.rx)
  }

  lemma StreamFront(l: Local)
    requires Ready(l) && l.s.mque != []
    ensures Stream(l) != [] && Stream(l)[0] == l.s.mque[0] && Readable(Stream(l)[1..], l.rx.size)
    ensures Stream(l)[1..] == l.s.mque[1..] + Strip(l.rx.q)
  {
    hide Strip;
  }

  lemma LookForData(l: Local)
    requires Ready(l) && l.s.rSize == 0
    ensures var (m, t) := MsgLoop(l);
      if t == RecvHostData then Ready(m) && m.s.rSize > 0 && m.rx.blks == l.rx.blks && Coming(m) == Coming(l)
      else Coming(l) == []
  {
    hide Strip, Readable, Announced, MsgLoop, Link.Block;
    var i := Notes(Stream(l));
    MsgLoopReady(l);
    if i < |Brought(l)| {
      assert Brought(l)[i] == Stream(l)[i];
      assert FirstAt(Brought(l), i) by { assert forall j :: 0 <= j < i ==> Brought(l)[j] == Stream(l)[j]; }
      KindAnnounced(l, i);
      if Brought(l)[i].DataRdy? {
        DataFound(l, MsgLoop(l).0, i);
      }
    } else {
      assert forall j :: 0 <= j < |Brought(l)| ==> Brought(l)[j] == Stream(l)[j];
      NothingAnnounced(l);
    }
  }

  lemma DataFound(l: Local, m: Local, i: nat)
    requires Ready(l) && l.s.rSize == 0 && Ready(m) && i == Notes(Stream(l)) && i < |Brought(l)|
    requires Stream(l)[i].DataRdy? && m.s.rSize == Stream(l)[i].size && Looked(l, m.(s := m.s.(rSize := 0)), i)
    ensures Coming(m) == Coming(l)
  {
    hide Strip, Readable, Announced, Brought, Link.Block;
    assert Stream(m.(s := m.s.(rSize := 0))) == Stream(m);
    assert Stream(m)[1..] == Stream(l)[i + 1..];
    assert m.s.rPos == 0;
    SameBlock(l.rx, m.rx, l.s.rIdx, m.s.rSize);
    NotesReadable(Stream(l), l.rx.size);
    SameLeading(Stream(l)[i + 1..], l.s.rIdx + 1, l.rx, m.rx);
  }

  lemma SameBlock(a: Link, b: Link, i: nat, n: nat)
    requires a.Valid() && b.Valid() && a.blks == b.blks && a.size == b.size && n <= a.size
    ensures a.Block(i) == b.Block(i) && b.Block(i)[0..n] == a.Block(i)[..n]
  {
  }

  /** Only the blocks matter. */
  lemma {:induction false} SameLeading(q: seq<Msg>, b: nat, x: Link, y: Link)
    requires x.Valid() && y.Valid() && x.blks == y.blks && x.size == y.size && Readable(q, x.size)
    ensures Leading(q, b, x) == Leading(q, b, y)
    decreases |q|
  {
    hide Readable;
    var i := Notes(q);
    NotesReadable(q, x.size);
    if i < |q| {
      SameLeading(q[i + 1..], b + 1, x, y);
    }
  }

  /** What is left when a piece of the block at the front was read. */
  lemma PieceTaken(l: Local, n: nat)
    requires Ready(l) && 0 < n <= l.s.rSize
    ensures var m := Written(DoTakeData(l, n));
      && Ready(m) && m.rx == l.rx
      && if n < l.s.rSize then m.s.rPos == l.s.rPos + n && m.s.rSize == l.s.rSize - n && m.s.rIdx == l.s.rIdx && m.s.mque == l.s.mque
         else m.s.rSize == 0 && m.s.rIdx == l.s.rIdx + 1 && m.s.mque == l.s.mque[1..]
    ensures l.rx.Valid() && l.s.mque != [] && l.s.rPos + l.s.rSize <= l.rx.size
  {
    TakeDataReady(l, n);
    hide Strip, Readable, Announced, Latest, Link.Block;
  }

  /** The data that is left of the block at the front, and what follows it. */
  lemma ComingMiddle(l: Local)
    requires Ready(l) && l.s.rSize > 0
    ensures l.rx.Valid() && l.s.rPos + l.s.rSize <= l.rx.size && l.s.mque != []
    ensures Stream(l) != [] && Readable(Stream(l)[1..], l.rx.size)
    ensures Coming(l) == l.rx.Block(l.s.rIdx)[l.s.rPos..l.s.rPos + l.s.rSize] + Leading(Stream(l)[1..], l.s.rIdx + 1, l.rx)
  {
    hide Ready, Strip, Leading, Link.Block, Stream, Readable;
    ReadyValid(l);
    StreamFront(l);
  }

  lemma ComingFresh(l: Local)
    requires Ready(l) && l.s.rSize == 0
    ensures l.rx.Valid() && Readable(Stream(l), l.rx.size) && Coming(l) == Leading(Stream(l), l.s.rIdx, l.rx)
  {
    hide Strip, Leading, Link.Block, Readable, Announced;
  }

  lemma Pieces(b: seq<Qword>, p: nat, n: nat, size: nat, rest: seq<Qword>)
    requires n <= size && p + size <= |b|
    ensures b[p..p + size] + rest == b[p..p + n] + (b[p + n..p + size] + rest)
  {
    assert b[p..p + size] == b[p..p + n] + b[p + n..p + size];
  }

  /** A piece of the block at the front is read. */
  lemma ReadSome(l: Local, n: nat)
    requires Ready(l) && 0 < n <= l.s.rSize
    ensures var m := Written(DoTakeData(l, n));
      && Ready(m)
      && var x := l.rx.Block(l.s.rIdx)[l.s.rPos..l.s.rPos + n];
         |x| == n && Coming(l) == x + Coming(m)
  {
    hide Ready, Strip, Written, DoTakeData, Leading, Coming, Link.Block, Link.Valid, Readable;
    PieceTaken(l, n);
    ComingMiddle(l);
    var m := Written(DoTakeData(l, n));
    var rest := Leading(Stream(l)[1..], l.s.rIdx + 1, l.rx);
    if n < l.s.rSize {
      assert Stream(m) == Stream(l);
      ComingMiddle(m);
      Pieces(l.rx.Block(l.s.rIdx), l.s.rPos, n, l.s.rSize, rest);
    } else {
      assert Stream(m) == Stream(l)[1..];
      ComingFresh(m);
    }
  }

  /** Receiving data returns just the data that comes first, as much of it as is wanted. */
  lemma {:induction false} DataReceived(l: Local, want: nat)
    requires Ready(l)
    ensures RecvLoop(l, want).1 == Coming(l)[..Min(want, |Coming(l)|)]
    decreases want
  {
    hide Ready, Readable, Strip, MsgLoop, RecvLoop, Coming, Link.Block, DoTakeData, Written, Leading;
    RecvLoopStep(l, want);
    if want > 0 {
      if l.s.rSize == 0 { LookForData(l); }
      if l.s.rSize > 0 || MsgLoop(l).1 == RecvHostData {
        var l1 := if l.s.rSize > 0 then l else MsgLoop(l).0;
        var n := Min(l1.s.rSize, want);
        ReadyValid(l1);
        ReadSome(l1, n);
        DataReceived(Written(DoTakeData(l1, n)), want - n);
      }
    }
  }

  // ------------------------------------------------------------------------------------------
  // What is sent
  // ------------------------------------------------------------------------------------------

  /** The message that hands a started block over. */
  function Started(l: Local): seq<Msg> {
    if l.s.sPos > 0 then [DataRdy(l.s.sPos)] else []
  }

  lemma CreditsSame(l: Local, m: Local)
    requires m.rx.q == l.rx.q && m.s.mque == l.s.mque
    ensures Credits(m) == Credits(l) + (m.s.avail - l.s.avail)
  {
  }

  /** A flush hands the started block over, and nothing else. */
  lemma FlushSent(l: Local)
    requires Ready(l)
    ensures var m := FlushCall(l);
      && m.tx.q == Latest(l.tx.q + Started(l)) && m.s.sent == l.s.sent && m.s.sPos == 0
      && m.s.avail == l.s.avail - |Started(l)| && m.s.sIdx == l.s.sIdx + |Started(l)|
      && m.tx.blks == l.tx.blks && m.rx == l.rx && m.s.mque == l.s.mque
  {
    hide Latest, Strip, Readable, Announced;
    assert [] + Started(l) == Started(l);
  }

  /** A user message goes behind the started block. */
  lemma UserSent(l: Local, t: nat, d: nat)
    requires Ready(l)
    ensures var m := UserCall(l, t, d);
      && m.tx.q == Latest(l.tx.q + (Started(l) + [User(t, d)])) && m.s.sent == l.s.sent + [HostMsg(t, d)]
      && m.s.avail == l.s.avail - |Started(l)| && m.tx.blks == l.tx.blks && m.rx == l.rx && m.s.mque == l.s.mque
  {
    hide Latest, Strip, Readable, Announced;
    assert [] + Started(l) + [User(t, d)] == Started(l) + [User(t, d)];
  }

  lemma PreparedIs(l: Local, need: nat)
    requires Ready(l)
    ensures var m := Prepared(l, need);
      && Ready(m) && m.tx.q == Latest(l.tx.q + Started(l)) && m.tx.blks == l.tx.blks && m.s.sent == l.s.sent && m.s.sPos == 0
      && m.s.sIdx == l.s.sIdx + |Started(l)|
      && (m.s.avail >= need <==> Credits(l) - |Started(l)| >= need)
      && Credits(m) == Credits(l) - |Started(l)| && m.s.box == []
      && m.s.mque == (if l.s.avail - |Started(l)| >= need then l.s.mque else Brought(l))
  {
    hide Latest, Strip, Readable, Announced, PollAll, Gain;
    var f := FlushCall(l);
    FlushSent(l);
    PreparedReached(l, need);
    CreditsSame(l, f);
    FlushReached(l);
    PollGives(f);
    PollRest(f);
    CreditsGrow(f);
  }

  lemma CreditsGrow(l: Local)
    ensures Credits(l) >= l.s.avail
  {
  }

  /** A marker or a halt is sent exactly when there is a credit, or one is found in the ring: it goes
      behind the started block and takes a block.  Otherwise that block goes alone.  The ring is not read
      while the unit has a credit. */
  lemma ControlSent(l: Local, m: Msg, e: Event)
    requires Ready(l)
    ensures var (r, ok) := ControlCall(l, m, e);
      && (ok <==> Credits(l) - |Started(l)| >= 1)
      && (ok ==> r.s.sent == l.s.sent + [e] && r.tx.q == Latest(l.tx.q + (Started(l) + [m]))
                 && r.s.sIdx == l.s.sIdx + |Started(l)| + 1 && Credits(r) == Credits(l) - |Started(l)| - 1)
      && (!ok ==> r.s.sent == l.s.sent && r.tx.q == Latest(l.tx.q + Started(l)))
      && r.s.mque == (if l.s.avail - |Started(l)| >= 1 then l.s.mque else Brought(l))
  {
    hide Latest, Strip, Readable, Announced, Prepared, Gain, Brought;
    PreparedIs(l, 1);
    LatestMore(l.tx.q, Started(l), [m]);
    assert [] + [m] == [m];
  }

  /** A call with arguments smaller than a block is sent exactly when there are two credits: its message
      takes one block, and its arguments another one. */
  lemma CallSentOrNot(l: Local, args: seq<Qword>)
    requires Ready(l) && |args| < l.tx.size
    ensures var (r, ok) := CallCall(l, args);
      var n := |args|;
      && (ok <==> Credits(l) - |Started(l)| >= 2)
      && (ok ==> r.s.sent == l.s.sent + [Call(args)]
                 && r.tx.q == Latest(l.tx.q + (Started(l) + (if n == 0 then [CallRdy(0)] else [CallRdy(n), DataRdy(n)])))
                 && r.tx.Valid() && n <= r.tx.size && r.tx.Block(l.s.sIdx + |Started(l)| + 1)[..n] == args)
      && (!ok ==> r.s.sent == l.s.sent && r.tx.q == Latest(l.tx.q + Started(l)))
      && r.s.mque == (if l.s.avail - |Started(l)| >= 2 then l.s.mque else Brought(l))
  {
    hide Latest, Strip, Readable, Announced, Prepared, Gain, Brought, CallSent, FillLoop, Link.Block;
    PreparedIs(l, 2);
    var p := Prepared(l, 2);
    PreparedSize(l, 2);
    var y := if |args| == 0 then [CallRdy(0)] else [CallRdy(|args|), DataRdy(|args|)];
    if p.s.avail >= 2 {
      CallBlock(p, p.s.(rIdx := p.s.sIdx), args);
      LatestMore(l.tx.q, Started(l), y);
      CallKeepsRing(p, args);
      var c := CallSent(p, args);
      SameBlock(c.tx, Written(c).tx, p.s.sIdx + 1, |args|);
      assert [] + y == y;
    }
  }

  lemma CallKeepsRing(l: Local, args: seq<Qword>)
    requires l.tx.Valid() && l.s.sPos == 0
    ensures CallSent(l, args).tx.q == l.tx.q
  {
    hide FillLoop;
  }

  /** The quadwords for which there are credits, those found in the ring included. */
  function Room(l: Local): int { Credits(l) * l.tx.size - l.s.sPos }

  lemma OneBlock(c: int, size: nat)
    ensures (c - 1) * size == c * size - size
  {
  }

  lemma Enough(c: int, size: nat)
    requires c >= 1
    ensures c * size >= size
  {
  }

  lemma NoRoom(c: int, size: nat)
    requires c <= 0
    ensures c * size <= 0
  {
  }

  /** As much data is sent as there are credits for, and nothing is skipped. */
  lemma {:induction false} DataSent(l: Local, data: seq<Qword>)
    requires Ready(l) && SetUp(l.s)
    ensures var (r, n) := SendLoop(l, data);
      && n == (if |data| <= Room(l) then |data| else Room(l))
      && r.s.sent == l.s.sent + DataEvents(data[..n])
    decreases |data|
  {
    hide Ready, Latest, Strip, Readable, Announced, SendLoop, PollAll, Gain, DoFill, Written, Link.Valid, Room;
    SendLoopStep(l, data);
    RoomIsNat(l);
    if data == [] {
      NoData(l.s.sent);
      assert data[..0] == [];
    } else {
      var l1 := if l.s.avail == 0 then PollAll(l) else l;
      PollRoom(l);
      SendFacts(l1);
      RoomIsNat(l1);
      if l1.s.avail > 0 {
        var n := Min(|data|, l1.tx.size - l1.s.sPos);
        FillRoom(l1, data[..n]);
        var m := Written(DoFill(l1, data[..n]));
        DataSent(m, data[n..]);
        RoomIsNat(m);
        SendFacts(m);
        var k := SendLoop(m, data[n..]).1;
        assert data[..n] + data[n..][..k] == data[..n + k];
        RecvRegroup(l.s.sent, data[..n], data[n..][..k]);
      } else {
        NoData(l.s.sent);
        assert data[..0] == [];
      }
    }
  }

  /** The ring is read just when the unit's own credits are too few for the data. */
  lemma {:induction false} PolledWhenShort(l: Local, data: seq<Qword>)
    requires Ready(l) && SetUp(l.s)
    ensures SendLoop(l, data).0.s.mque == if |data| <= l.s.avail * l.tx.size - l.s.sPos then l.s.mque else Brought(l)
    decreases |data|
  {
    hide Ready, Latest, Strip, Readable, Announced, SendLoop, PollAll, Gain, DoFill, Written, Link.Valid, Brought;
    SendLoopStep(l, data);
    OwnRoom(l);
    if data != [] {
      var l1 := if l.s.avail == 0 then PollAll(l) else l;
      PollRoom(l);
      SendFacts(l1);
      OwnBrought(l);
      if l1.s.avail > 0 {
        var n := Min(|data|, l1.tx.size - l1.s.sPos);
        FillQueue(l1, data[..n]);
        PolledWhenShort(Written(DoFill(l1, data[..n])), data[n..]);
      }
    }
  }

  lemma OwnRoom(l: Local)
    requires Ready(l)
    ensures l.s.avail * l.tx.size >= l.s.sPos && (l.s.avail == 0 ==> l.s.avail * l.tx.size == l.s.sPos == 0)
  {
    hide Strip, Readable, Announced;
    if l.s.avail > 0 { Enough(l.s.avail, l.tx.size); }
  }

  lemma OwnBrought(l: Local)
    requires Ready(l)
    ensures PollAll(l).s.mque == Brought(l) == Brought(PollAll(l))
  {
    hide Strip, Readable, Announced, PollAll, Gain;
    PollGives(l);
  }

  lemma FillQueue(l: Local, data: seq<Qword>)
    requires Ready(l) && l.s.avail > 0 && |data| > 0 && l.s.sPos + |data| <= l.tx.size
    ensures var m := Written(DoFill(l, data));
      && m.s.mque == l.s.mque && Brought(m) == Brought(l)
      && m.s.avail * m.tx.size - m.s.sPos == l.s.avail * l.tx.size - l.s.sPos - |data|
  {
    hide Strip, Readable, Announced, Gain, Overwrite, DataEvents, Latest;
    OneBlock(l.s.avail, l.tx.size);
  }

  lemma RoomIsNat(l: Local)
    requires Ready(l)
    ensures Room(l) >= 0 && (l.s.avail > 0 ==> Room(l) >= l.tx.size - l.s.sPos)
  {
    hide Strip, Readable, Announced;
    CreditsGrow(l);
    if Credits(l) >= 1 {
      Enough(Credits(l), l.tx.size);
    } else {
      assert Credits(l) == 0 && l.s.sPos == 0;
    }
  }

  /** Without a credit the unit polls; without one then there is no room. */
  lemma PollRoom(l: Local)
    requires Ready(l)
    ensures var l1 := if l.s.avail == 0 then PollAll(l) else l;
      Room(l1) == Room(l) && l1.s.sent == l.s.sent && l1.tx.size == l.tx.size && (l1.s.avail <= 0 ==> Room(l) == 0)
  {
    hide Strip, Readable, Announced, PollAll, Gain;
    PollGives(l);
    PollRest(l);
  }

  lemma FillRoom(l: Local, data: seq<Qword>)
    requires Ready(l) && l.s.avail > 0 && |data| > 0 && l.s.sPos + |data| <= l.tx.size
    ensures var m := Written(DoFill(l, data));
      Room(m) == Room(l) - |data| && m.s.sent == l.s.sent + DataEvents(data)
  {
    hide Strip, Readable, Announced, Gain, Overwrite, DataEvents, Latest;
    var m := Written(DoFill(l, data));
    CreditsSame(l, m);
    OneBlock(Credits(l), l.tx.size);
  }
}
