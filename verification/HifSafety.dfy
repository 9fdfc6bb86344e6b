/** What every step of the host/coprocessor protocol keeps, in each direction: credits are
    conserved, blocks in use are not overwritten, and the events received so far followed by the
    events on their way are the events sent. */
module HifSafety {
  import opened HifProtocol

  // ------------------------------------------------------------------------------------------
  // Message sequences
  // ------------------------------------------------------------------------------------------

  /** The messages without the AVL messages, which belong to the other direction. */
  function Strip(q: seq<Msg>): seq<Msg> {
    if q == [] then [] else (if q[0].Avl? then [] else [q[0]]) + Strip(q[1..])
  }

  function Avls(q: seq<Msg>): nat {
    if q == [] then 0 else (if q[0].Avl? then 1 else 0) + Avls(q[1..])
  }

  /** The number of blocks handed over by `q`. */
  function Rdys(q: seq<Msg>): nat {
    if q == [] then 0 else (if IsRdy(q[0]) then 1 else 0) + Rdys(q[1..])
  }

  /** A stream the receiver can take: data blocks are not empty and fit, the arguments of a call
      are smaller than a block and come right behind it. */
  predicate WellFormed(q: seq<Msg>, size: nat) {
    q == [] ||
    (&& !q[0].Avl?
     && (q[0].DataRdy? ==> 0 < q[0].size <= size)
     && (q[0].CallRdy? && q[0].argc > 0 ==> q[0].argc < size && |q| > 1 && q[1] == DataRdy(q[0].argc))
     && WellFormed(q[1..], size))
  }

  /** The events that the messages `q` stand for when the next block to be read is `b`. */
  function Decode(q: seq<Msg>, b: nat, l: Link): seq<Event>
    requires l.Valid() && WellFormed(q, l.size)
  {
    if q == [] then []
    else match q[0]
      case DataRdy(n) => DataEvents(l.Block(b)[..n]) + Decode(q[1..], b + 1, l)
      case MarkRdy => [Marker] + Decode(q[1..], b + 1, l)
      case HaltRdy => [Halt] + Decode(q[1..], b + 1, l)
      case CallRdy(k) =>
        if k == 0 then [Call([])] + Decode(q[1..], b + 1, l)
        else
          assert WellFormed(q[1..], l.size) && q[1..] != [];
          [Call(l.Block(b + 1)[..k])] + Decode(q[1..][1..], b + 2, l)
      case User(t, d) => [HostMsg(t, d)] + Decode(q[1..], b, l)
      case Note(t, d) => Decode(q[1..], b, l)
  }

  lemma {:induction false} StripOnly(x: seq<Msg>, y: seq<Msg>)
    ensures Strip(x + y) == Strip(x) + Strip(y)
  {
    if x == [] {
      assert x + y == y;
    } else {
      var h := if x[0].Avl? then [] else [x[0]];
      StripOnly(x[1..], y);
      StripCons(x + y);
      StripCons(x);
      assert (x + y)[1..] == x[1..] + y;
      Associate(h, Strip(x[1..]), Strip(y));
    }
  }

  lemma StripCons(q: seq<Msg>)
    requires q != []
    ensures Strip(q) == (if q[0].Avl? then [] else [q[0]]) + Strip(q[1..])
  {
  }

  lemma Associate(a: seq<Msg>, b: seq<Msg>, c: seq<Msg>)
    ensures a + (b + c) == (a + b) + c
  {
  }

  lemma {:induction false} AvlsOnly(x: seq<Msg>, y: seq<Msg>)
    ensures Avls(x + y) == Avls(x) + Avls(y)
  {
    if x == [] {
      assert x + y == y;
    } else {
      AvlsOnly(x[1..], y);
      assert (x + y)[1..] == x[1..] + y;
    }
  }

  lemma {:induction false} RdysOnly(x: seq<Msg>, y: seq<Msg>)
    ensures Rdys(x + y) == Rdys(x) + Rdys(y)
  {
    if x == [] {
      assert x + y == y;
    } else {
      RdysOnly(x[1..], y);
      assert (x + y)[1..] == x[1..] + y;
    }
  }

  lemma StripAppend(x: seq<Msg>, y: seq<Msg>)
    ensures Strip(x + y) == Strip(x) + Strip(y)
    ensures Avls(x + y) == Avls(x) + Avls(y)
    ensures Rdys(x + y) == Rdys(x) + Rdys(y)
  {
    hide *;
    StripOnly(x, y);
    AvlsOnly(x, y);
    RdysOnly(x, y);
  }

  lemma {:induction false} WellFormedAppend(x: seq<Msg>, y: seq<Msg>, size: nat)
    requires WellFormed(x, size) && WellFormed(y, size)
    ensures WellFormed(x + y, size)
  {
    if x == [] {
      assert x + y == y;
    } else {
      WellFormedAppend(x[1..], y, size);
      assert (x + y)[1..] == x[1..] + y;
    }
  }

  lemma {:induction false} DecodeAppend(x: seq<Msg>, y: seq<Msg>, b: nat, l: Link)
    requires l.Valid() && WellFormed(x, l.size) && WellFormed(y, l.size)
    ensures WellFormed(x + y, l.size)
    ensures Decode(x + y, b, l) == Decode(x, b, l) + Decode(y, b + Rdys(x), l)
    decreases |x|
  {
    hide DataEvents, Link.Block;
    WellFormedAppend(x, y, l.size);
    if x == [] {
      assert x + y == y;
    } else {
      assert (x + y)[1..] == x[1..] + y;
      if x[0].CallRdy? && x[0].argc > 0 {
        assert (x + y)[1..][1..] == x[1..][1..] + y;
        DecodeAppend(x[1..][1..], y, b + 2, l);
      } else {
        DecodeAppend(x[1..], y, if IsRdy(x[0]) then b + 1 else b, l);
      }
    }
  }

  /** Only the blocks handed over and not yet handed back matter. */
  ghost predicate SameBlocks(l: Link, l': Link, from: nat, to: nat)
    requires l.Valid() && l'.Valid()
  {
    && l'.size == l.size
    && |l'.blks| == |l.blks|
    && forall i: nat :: from <= i < to ==> l'.Block(i) == l.Block(i)
  }

  lemma {:induction false} DecodeFrame(q: seq<Msg>, b: nat, l: Link, l': Link)
    requires l.Valid() && l'.Valid() && SameBlocks(l, l', b, b + Rdys(q))
    requires WellFormed(q, l.size)
    ensures Decode(q, b, l') == Decode(q, b, l)
    decreases |q|
  {
    if q != [] {
      if q[0].CallRdy? && q[0].argc > 0 {
        assert Rdys(q[1..]) == 1 + Rdys(q[1..][1..]);
        DecodeFrame(q[1..][1..], b + 2, l, l');
      } else {
        DecodeFrame(q[1..], if IsRdy(q[0]) then b + 1 else b, l, l');
      }
    }
  }

  lemma Multiple(k: int, n: nat)
    ensures k >= 1 ==> n * k >= n
    ensures k <= 0 ==> n * k <= 0
  {
  }

  /** Blocks less than a whole array apart are different blocks. */
  lemma {:induction false} DifferentBlocks(i: nat, j: nat, n: nat)
    requires i < j < i + n
    ensures i % n != j % n
  {
    if i % n == j % n {
      var a, b := i / n, j / n;
      assert n * b - n * a == n * (b - a);
      Multiple(b - a, n);
      assert false;
    }
  }

  /** Writing block `i` leaves the blocks from `from` up to `i` alone when they are fewer than all. */
  lemma WriteFrame(l: Link, l': Link, from: nat, i: nat)
    requires l.Valid() && l'.Valid() && from <= i < from + |l.blks|
    requires l'.size == l.size && |l'.blks| == |l.blks|
    requires forall k :: 0 <= k < |l.blks| && k != i % |l.blks| ==> l'.blks[k] == l.blks[k]
    ensures SameBlocks(l, l', from, i)
  {
    forall j: nat | from <= j < i ensures l'.Block(j) == l.Block(j) {
      DifferentBlocks(j, i, |l.blks|);
    }
  }

  // ------------------------------------------------------------------------------------------
  // The invariant of one direction
  // ------------------------------------------------------------------------------------------

  /** The messages from S that R has not finished with, oldest first. */
  function Items(S: Side, R: Side, tx: Link): seq<Msg> {
    R.mque + Strip(tx.q + S.box)
  }

  /** The events still owed by the block at the front and the messages behind it. */
  function Remaining(R: Side, q: seq<Msg>, l: Link): seq<Event>
    requires l.Valid() && WellFormed(q, l.size)
    requires R.rSize > 0 || R.rArg > 0 ==> q != []
    requires R.rPos + R.rSize <= l.size && R.rArg <= l.size
  {
    if R.rSize > 0 then
      DataEvents(l.Block(R.rIdx)[R.rPos..R.rPos + R.rSize]) + Decode(q[1..], R.rIdx + 1, l)
    else if R.rArg > 0 then
      [Call(l.Block(R.rIdx)[..R.rArg])] + Decode(q[1..], R.rIdx + 1, l)
    else Decode(q, R.rIdx, l)
  }

  /** The receiver's place in the block at the front of its queue. */
  predicate ReaderOk(R: Side, size: nat) {
    && R.rPos + R.rSize <= size && R.rArg < size
    && (R.rSize == 0 ==> R.rPos == 0)
    && (R.rSize > 0 ==> R.rArg == 0 && R.mque != [] && R.mque[0] == DataRdy(R.rPos + R.rSize))
    && (R.rArg > 0 ==> R.rSize == 0 && R.mque != [] && R.mque[0] == DataRdy(R.rArg))
  }

  predicate Flowing(S: Side, R: Side, tx: Link) {
    && tx.Valid()
    && WellFormed(Items(S, R, tx), tx.size)
    && ReaderOk(R, tx.size)
    && |tx.q| <= RING_SLOTS && |R.mque| <= QUE_CAPACITY
  }

  predicate CreditsOk(S: Side, R: Side, tx: Link, back: Link) {
    && S.avail >= 0
    && S.avail + Rdys(Items(S, R, tx)) + Avls(back.q + R.box) == |tx.blks|
    && S.sIdx == R.rIdx + Rdys(Items(S, R, tx))
    && S.sPos < tx.size
    && (S.sPos > 0 ==> S.avail > 0)
  }

  /** Everything sent has been received, is on its way, or is in the block being filled. */
  predicate StreamOk(S: Side, R: Side, tx: Link)
    requires Flowing(S, R, tx) && S.sPos < tx.size
  {
    S.sent == R.rcvd + Remaining(R, Items(S, R, tx), tx) + DataEvents(tx.Block(S.sIdx)[..S.sPos])
  }

  predicate DirInv(S: Side, R: Side, tx: Link, back: Link) {
    Flowing(S, R, tx) && CreditsOk(S, R, tx, back) && StreamOk(S, R, tx)
  }

  lemma RdysFirst(q: seq<Msg>)
    ensures q != [] ==> Rdys(q) == (if IsRdy(q[0]) then 1 else 0) + Rdys(q[1..])
  {
  }

  lemma FirstWellFormed(q: seq<Msg>, size: nat)
    requires WellFormed(q, size)
    ensures q != [] ==> WellFormed(q[1..], size)
  {
  }

  lemma RemainingAppend(R: Side, q: seq<Msg>, y: seq<Msg>, l: Link)
    requires l.Valid() && WellFormed(q, l.size) && WellFormed(y, l.size)
    requires R.rSize > 0 || R.rArg > 0 ==> q != [] && IsRdy(q[0])
    requires R.rPos + R.rSize <= l.size && R.rArg <= l.size
    ensures WellFormed(q + y, l.size)
    ensures Remaining(R, q + y, l) == Remaining(R, q, l) + Decode(y, R.rIdx + Rdys(q), l)
  {
    hide WellFormed, Decode, DataEvents, Link.Block, Link.Valid, Rdys;
    RdysFirst(q);
    FirstWellFormed(q, l.size);
    WellFormedAppend(q, y, l.size);
    if R.rSize > 0 || R.rArg > 0 {
      assert (q + y)[1..] == q[1..] + y;
      DecodeAppend(q[1..], y, R.rIdx + 1, l);
    } else {
      DecodeAppend(q, y, R.rIdx, l);
    }
  }

  lemma RemainingFrame(R: Side, q: seq<Msg>, l: Link, l': Link)
    requires l.Valid() && l'.Valid() && WellFormed(q, l.size)
    requires R.rSize > 0 || R.rArg > 0 ==> q != [] && IsRdy(q[0])
    requires R.rPos + R.rSize <= l.size && R.rArg <= l.size
    requires SameBlocks(l, l', R.rIdx, R.rIdx + Rdys(q))
    ensures Remaining(R, q, l') == Remaining(R, q, l)
  {
    hide WellFormed, Decode, DataEvents, Link.Block, Link.Valid, Rdys;
    RdysFirst(q);
    FirstWellFormed(q, l.size);
    if R.rSize > 0 || R.rArg > 0 {
      DecodeFrame(q[1..], R.rIdx + 1, l, l');
    } else {
      DecodeFrame(q, R.rIdx, l, l');
    }
  }

  // ------------------------------------------------------------------------------------------
  // Sending
  // ------------------------------------------------------------------------------------------

  lemma Regroup(a: seq<Event>, b: seq<Event>, p: seq<Event>, evs: seq<Event>, d: seq<Event>, p': seq<Event>)
    requires p + evs == d + p'
    ensures a + b + p + evs == a + (b + d) + p'
  {
    assert a + b + p + evs == a + b + (p + evs);
    assert a + (b + d) + p' == a + b + (d + p');
  }

  lemma StripMore(m: seq<Msg>, q: seq<Msg>, box: seq<Msg>, y: seq<Msg>)
    ensures m + Strip(q + (box + y)) == (m + Strip(q + box)) + Strip(y)
    ensures Rdys(m + Strip(q + (box + y))) == Rdys(m + Strip(q + box)) + Rdys(Strip(y))
  {
    hide *;
    assert q + (box + y) == (q + box) + y;
    StripAppend(q + box, y);
    StripAppend(m + Strip(q + box), Strip(y));
    assert m + (Strip(q + box) + Strip(y)) == (m + Strip(q + box)) + Strip(y);
  }

  lemma StripFirst(m: Msg, rest: seq<Msg>)
    ensures Strip([m] + rest) == (if m.Avl? then [] else [m]) + Strip(rest)
    ensures Avls([m] + rest) == (if m.Avl? then 1 else 0) + Avls(rest)
  {
    assert ([m] + rest)[1..] == rest;
  }

  lemma ItemsAppend(S: Side, S': Side, R: Side, tx: Link, tx': Link, y: seq<Msg>)
    requires S'.box == S.box + y && tx'.q == tx.q && Strip(y) == y
    ensures Items(S', R, tx') == Items(S, R, tx) + y
    ensures Rdys(Items(S, R, tx) + y) == Rdys(Items(S, R, tx)) + Rdys(y)
  {
    StripMore(R.mque, tx.q, S.box, y);
  }

  lemma RemainingOfMore(R: Side, q: seq<Msg>, y: seq<Msg>, l: Link, l': Link)
    requires l.Valid() && l'.Valid() && WellFormed(q, l.size) && WellFormed(y, l.size)
    requires R.rSize > 0 || R.rArg > 0 ==> q != [] && IsRdy(q[0])
    requires R.rPos + R.rSize <= l.size && R.rArg <= l.size
    requires SameBlocks(l, l', R.rIdx, R.rIdx + Rdys(q))
    ensures WellFormed(q + y, l.size)
    ensures Remaining(R, q + y, l') == Remaining(R, q, l) + Decode(y, R.rIdx + Rdys(q), l')
  {
    RemainingFrame(R, q, l, l');
    RemainingAppend(R, q, y, l');
  }

  /** S puts the messages `y` into its box, after changing at most blocks it holds credits for,
      and `evs` is what it sent by doing so. */
  lemma SenderStep(S: Side, S': Side, R: Side, tx: Link, tx': Link, back: Link, y: seq<Msg>, evs: seq<Event>)
    requires DirInv(S, R, tx, back)
    requires tx'.Valid() && tx'.q == tx.q && SameBlocks(tx, tx', R.rIdx, S.sIdx)
    requires WellFormed(y, tx.size) && Strip(y) == y && Avls(y) == 0
    requires S'.box == S.box + y
    requires S'.sIdx == S.sIdx + Rdys(y) && S'.avail == S.avail - Rdys(y) && S'.avail >= 0
    requires S'.sPos < tx.size && (S'.sPos > 0 ==> S'.avail > 0)
    requires S'.sent == S.sent + evs
    requires Decode(y, S.sIdx, tx') + DataEvents(tx'.Block(S'.sIdx)[..S'.sPos])
          == DataEvents(tx.Block(S.sIdx)[..S.sPos]) + evs
    ensures DirInv(S', R, tx', back)
  {
    hide Strip, Avls, Rdys, WellFormed, Decode, DataEvents, Link.Block;
    var it := Items(S, R, tx);
    ItemsAppend(S, S', R, tx, tx', y);
    RemainingOfMore(R, it, y, tx, tx');
    Regroup(R.rcvd, Remaining(R, it, tx), DataEvents(tx.Block(S.sIdx)[..S.sPos]), evs,
            Decode(y, S.sIdx, tx'), DataEvents(tx'.Block(S'.sIdx)[..S'.sPos]));
  }

  /** The direction in which S receives does not notice messages that are not AVL messages. */
  lemma ReceiverUnaffected(R: Side, S: Side, S': Side, rx: Link, tx: Link, tx': Link, y: seq<Msg>)
    requires DirInv(R, S, rx, tx)
    requires Avls(y) == 0 && S'.box == S.box + y && tx'.q == tx.q
    requires S'.mque == S.mque && S'.rIdx == S.rIdx && S'.rSize == S.rSize && S'.rPos == S.rPos
    requires S'.rArg == S.rArg && S'.rcvd == S.rcvd
    ensures DirInv(R, S', rx, tx')
  {
    hide Strip, Avls, Rdys, WellFormed, Decode, DataEvents, Link.Block;
    assert tx'.q + S'.box == (tx.q + S.box) + y;
    StripAppend(tx.q + S.box, y);
    assert Items(R, S', rx) == Items(R, S, rx);
  }

  lemma OneMessage(m: Msg, size: nat)
    requires !m.Avl? && (m.DataRdy? ==> 0 < m.size <= size) && (m.CallRdy? ==> m.argc == 0)
    ensures WellFormed([m], size) && Strip([m]) == [m] && Avls([m]) == 0
    ensures Rdys([m]) == if IsRdy(m) then 1 else 0
  {
    assert [m][1..] == [];
  }

  lemma DecodeOne(m: Msg, b: nat, l: Link)
    requires l.Valid() && WellFormed([m], l.size)
    ensures Decode([m], b, l) ==
            match m
            case DataRdy(n) => DataEvents(l.Block(b)[..n])
            case MarkRdy => [Marker]
            case HaltRdy => [Halt]
            case CallRdy(k) => [Call([])]
            case User(t, d) => [HostMsg(t, d)]
            case Note(t, d) => []
            case Avl => []
  {
    assert [m][1..] == [];
  }

  /** Handing a started block over sends nothing new. */
  lemma FlushStep(S: Side, R: Side, tx: Link, rx: Link)
    requires DirInv(S, R, tx, rx) && DirInv(R, S, rx, tx)
    ensures DirInv(Flushed(S), R, tx, rx) && DirInv(R, Flushed(S), rx, tx)
  {
    hide Strip, Avls, Rdys, WellFormed, Decode, DataEvents, Link.Block;
    if S.sPos > 0 {
      var m := DataRdy(S.sPos);
      OneMessage(m, tx.size);
      DecodeOne(m, S.sIdx, tx);
      SenderStep(S, Flushed(S), R, tx, tx, rx, [m], []);
      ReceiverUnaffected(R, S, Flushed(S), rx, tx, tx, [m]);
    }
  }

  lemma DataEventsAppend(x: seq<Qword>, y: seq<Qword>)
    ensures DataEvents(x + y) == DataEvents(x) + DataEvents(y)
  {
  }

  /** Both directions are in order when one unit has view `l` and the other one is R. */
  predicate BothOk(l: Local, R: Side) {
    DirInv(l.s, R, l.tx, l.rx) && DirInv(R, l.s, l.rx, l.tx)
  }

  lemma FillBlock(l: Local, R: Side, data: seq<Qword>)
    requires l.tx.Valid() && |data| > 0 && l.s.sPos + |data| <= l.tx.size
    requires R.rIdx <= l.s.sIdx < R.rIdx + |l.tx.blks|
    ensures var l' := DoFill(l, data);
      && l'.tx.Valid() && SameBlocks(l.tx, l'.tx, R.rIdx, l.s.sIdx)
      && DataEvents(l'.tx.Block(l.s.sIdx)[..l.s.sPos + |data|])
         == DataEvents(l.tx.Block(l.s.sIdx)[..l.s.sPos]) + DataEvents(data)
  {
    var l' := DoFill(l, data);
    WriteFrame(l.tx, l'.tx, R.rIdx, l.s.sIdx);
    assert l'.tx.Block(l.s.sIdx)[..l.s.sPos + |data|] == l.tx.Block(l.s.sIdx)[..l.s.sPos] + data;
    DataEventsAppend(l.tx.Block(l.s.sIdx)[..l.s.sPos], data);
  }

  lemma FillStep(l: Local, R: Side, data: seq<Qword>)
    requires BothOk(l, R) && l.s.box == [] && l.s.avail > 0 && |data| > 0 && l.s.sPos + |data| <= l.tx.size
    ensures BothOk(DoFill(l, data), R)
  {
    hide Strip, Avls, Rdys, WellFormed, Decode, DataEvents, Link.Block, Overwrite;
    var S, tx := l.s, l.tx;
    var l' := DoFill(l, data);
    FillBlock(l, R, data);
    var n := S.sPos + |data|;
    OneMessage(DataRdy(n), tx.size);
    DecodeOne(DataRdy(n), S.sIdx, l'.tx);
    NoMessage(tx.size, S.sIdx, l'.tx);
    var y := if n == tx.size then [DataRdy(n)] else [];
    SenderStep(S, l'.s, R, tx, l'.tx, l.rx, y, DataEvents(data));
    ReceiverUnaffected(R, S, l'.s, l.rx, tx, l'.tx, y);
  }

  lemma NoMessage(size: nat, b: nat, l: Link)
    requires l.Valid() && l.size == size
    ensures WellFormed([], size) && Strip([]) == [] && Avls([]) == 0 && Rdys([]) == 0
    ensures Decode([], b, l) == [] && DataEvents([]) == []
  {
  }

  /** A user message, a marker, a halt or a note, sent when nothing is half filled. */
  lemma SendOneStep(l: Local, S': Side, R: Side, m: Msg, evs: seq<Event>)
    requires BothOk(l, R)
    requires m.User? || m.MarkRdy? || m.HaltRdy? || m.Note?
    requires l.s.sPos == 0 || m.Note?
    requires IsRdy(m) ==> l.s.avail >= 1
    requires S' == l.s.(box := l.s.box + [m], sent := l.s.sent + evs,
                        sIdx := l.s.sIdx + (if IsRdy(m) then 1 else 0),
                        avail := l.s.avail - (if IsRdy(m) then 1 else 0))
    requires evs == match m
                    case User(t, d) => [HostMsg(t, d)]
                    case MarkRdy => [Marker]
                    case HaltRdy => [Halt]
                    case Note(t, d) => []
    ensures BothOk(l.(s := S'), R)
  {
    hide Strip, Avls, Rdys, WellFormed, Decode, DataEvents, Link.Block;
    OneMessage(m, l.tx.size);
    DecodeOne(m, l.s.sIdx, l.tx);
    SenderStep(l.s, S', R, l.tx, l.tx, l.rx, [m], evs);
    ReceiverUnaffected(R, l.s, S', l.rx, l.tx, l.tx, [m]);
  }

  /** The messages of a call whose arguments are smaller than a block. */
  lemma CallMessages(k: nat, size: nat)
    requires k < size
    ensures var y := if k == 0 then [CallRdy(0)] else [CallRdy(k), DataRdy(k)];
            WellFormed(y, size) && Strip(y) == y && Avls(y) == 0 && Rdys(y) == (if k == 0 then 1 else 2)
  {
    if k == 0 {
      OneMessage(CallRdy(0), size);
    } else {
      var y := [CallRdy(k), DataRdy(k)];
      assert y[1..] == [DataRdy(k)];
      OneMessage(DataRdy(k), size);
    }
  }

  /** Arguments smaller than a block stay in the one block they are put into. */
  lemma FillLoopSmall(l: Local, args: seq<Qword>)
    requires l.tx.Valid() && l.s.sPos == 0 && l.s.avail >= 1 && |args| < l.tx.size
    ensures FillLoop(l, args) == (DoFill(l, args), |args|)
  {
    if args == [] {
      var i := l.s.sIdx % |l.tx.blks|;
      assert Overwrite(l.tx.blks[i], 0, args) == l.tx.blks[i];
      assert l.tx.blks[i := l.tx.blks[i]] == l.tx.blks;
      assert l.s.sent + DataEvents(args) == l.s.sent;
    } else {
      assert args[..|args|] == args && args[|args|..] == [];
    }
  }

  lemma CallBlock(l: Local, R: Side, args: seq<Qword>)
    requires l.tx.Valid() && |args| < l.tx.size && R.rIdx <= l.s.sIdx + 1 < R.rIdx + |l.tx.blks|
    requires l.s.sPos == 0 && l.s.avail >= 2
    ensures var l' := CallSent(l, args);
      && SameBlocks(l.tx, l'.tx, R.rIdx, l.s.sIdx + 1)
      && l'.tx.Block(l.s.sIdx + 1)[..|args|] == args
      && var k := |args|;
         l'.s == l.s.(box := l.s.box + (if k == 0 then [CallRdy(0)] else [CallRdy(k), DataRdy(k)]),
                      avail := l.s.avail - (if k == 0 then 1 else 2),
                      sIdx := l.s.sIdx + (if k == 0 then 1 else 2),
                      sent := l.s.sent + [Call(args)])
  {
    var l1 := l.(s := l.s.(avail := l.s.avail - 1, sIdx := l.s.sIdx + 1));
    FillLoopSmall(l1, args);
    var l' := CallSent(l, args);
    WriteFrame(l.tx, l'.tx, R.rIdx, l.s.sIdx + 1);
  }

  lemma DecodeCall(args: seq<Qword>, b: nat, l: Link)
    requires l.Valid() && |args| < l.size && l.Block(b + 1)[..|args|] == args
    ensures var y := if |args| == 0 then [CallRdy(0)] else [CallRdy(|args|), DataRdy(|args|)];
            WellFormed(y, l.size) && Decode(y, b, l) == [Call(args)]
  {
    CallMessages(|args|, l.size);
    if |args| == 0 {
      assert [CallRdy(0)][1..] == [];
    } else {
      var y := [CallRdy(|args|), DataRdy(|args|)];
      assert y[1..] == [DataRdy(|args|)] && y[1..][1..] == [];
    }
  }

  lemma CallStep(l: Local, R: Side, args: seq<Qword>)
    requires BothOk(l, R) && l.s.sPos == 0 && l.s.avail >= 2 && |args| < l.tx.size
    ensures BothOk(CallSent(l, args), R)
  {
    hide Strip, Avls, Rdys, WellFormed, Decode, DataEvents, Link.Block, CallSent;
    var l' := CallSent(l, args);
    var y := if |args| == 0 then [CallRdy(0)] else [CallRdy(|args|), DataRdy(|args|)];
    CallMessages(|args|, l.tx.size);
    CallBlock(l, R, args);
    DecodeCall(args, l.s.sIdx, l'.tx);
    NoMessage(l.tx.size, l.s.sIdx, l.tx);
    SenderStep(l.s, l'.s, R, l.tx, l'.tx, l.rx, y, [Call(args)]);
    ReceiverUnaffected(R, l.s, l'.s, l.rx, l.tx, l'.tx, y);
  }

  // ------------------------------------------------------------------------------------------
  // Rings
  // ------------------------------------------------------------------------------------------

  lemma WriteStep(l: Local, R: Side)
    requires BothOk(l, R) && l.s.box != [] && |l.tx.q| < RING_SLOTS
    ensures BothOk(DoWriteSlot(l), R)
  {
    hide Strip, Avls, Rdys, WellFormed, Decode, DataEvents;
    var S, tx := l.s, l.tx;
    var l' := DoWriteSlot(l);
    assert l'.tx.q + l'.s.box == tx.q + S.box;
    assert Items(l'.s, R, l'.tx) == Items(S, R, tx);
    assert Items(R, l'.s, l.rx) == Items(R, S, l.rx);
    RemainingFrame(R, Items(S, R, tx), tx, l'.tx);
    SameReader(l'.s, S, Items(R, S, l.rx), l.rx);
  }

  lemma SameReader(R': Side, R: Side, q: seq<Msg>, l: Link)
    requires l.Valid() && WellFormed(q, l.size)
    requires R.rSize > 0 || R.rArg > 0 ==> q != []
    requires R.rPos + R.rSize <= l.size && R.rArg <= l.size
    requires R'.rSize == R.rSize && R'.rArg == R.rArg && R'.rPos == R.rPos && R'.rIdx == R.rIdx
    ensures Remaining(R', q, l) == Remaining(R, q, l)
  {
    hide Decode, DataEvents, Link.Block;
  }

  lemma PollItems(mque: seq<Msg>, q: seq<Msg>, box: seq<Msg>)
    requires q != []
    ensures (if q[0].Avl? then mque else mque + [q[0]]) + Strip(q[1..] + box) == mque + Strip(q + box)
    ensures Avls(q + box) == (if q[0].Avl? then 1 else 0) + Avls(q[1..] + box)
  {
    assert q + box == [q[0]] + (q[1..] + box);
    StripFirst(q[0], q[1..] + box);
  }

  lemma PollStep(l: Local, R: Side)
    requires BothOk(l, R) && l.rx.q != [] && (l.rx.q[0].Avl? || |l.s.mque| < QUE_CAPACITY)
    ensures BothOk(DoPoll(l), R)
  {
    hide Strip, Avls, Rdys, WellFormed, Decode, DataEvents, Remaining;
    var S, rx := l.s, l.rx;
    var l' := DoPoll(l);
    PollItems(S.mque, rx.q, R.box);
    assert Items(R, l'.s, l'.rx) == Items(R, S, rx);
    assert Items(l'.s, R, l.tx) == Items(S, R, l.tx);
    RemainingFrame(S, Items(R, S, rx), rx, l'.rx);
    SameReader(l'.s, S, Items(R, S, rx), l'.rx);
  }

  // ------------------------------------------------------------------------------------------
  // Receiving
  // ------------------------------------------------------------------------------------------

  /** Taking the front message never disturbs the other direction. */
  lemma SenderUnaffected(S: Side, S': Side, R: Side, tx: Link, back: Link, y: seq<Msg>)
    requires DirInv(S, R, tx, back)
    requires Strip(y) == [] && S'.box == S.box + y
    requires S'.avail == S.avail && S'.sIdx == S.sIdx && S'.sPos == S.sPos && S'.sent == S.sent
    ensures DirInv(S', R, tx, back)
  {
    hide Strip, Avls, Rdys, WellFormed, Decode, DataEvents, Link.Block;
    StripMore(R.mque, tx.q, S.box, y);
    assert Items(S', R, tx) == Items(S, R, tx);
  }

  /** The front message goes, a block is handed back, and `evs` is what the receiver got. */
  lemma ReceiverStep(R: Side, S: Side, S': Side, rx: Link, back: Link, evs: seq<Event>)
    requires DirInv(R, S, rx, back)
    requires S.mque != [] && S'.mque == S.mque[1..]
    requires S'.rSize == 0 && S'.rPos == 0 && ReaderOk(S', rx.size)
    requires S'.rIdx == S.rIdx + (if IsRdy(S.mque[0]) then 1 else 0)
    requires Avls(S'.box) == Avls(S.box) + (if IsRdy(S.mque[0]) then 1 else 0)
    requires S'.rcvd == S.rcvd + evs
    requires var q := Items(R, S, rx);
             WellFormed(q[1..], rx.size) && Remaining(S, q, rx) == evs + Remaining(S', q[1..], rx)
    ensures DirInv(R, S', rx, back)
  {
    hide Strip, Avls, WellFormed, Decode, DataEvents, Link.Block;
    var q := Items(R, S, rx);
    assert Items(R, S', rx) == q[1..];
    StripAppend(back.q, S.box);
    StripAppend(back.q, S'.box);
    Shift(S.rcvd, evs, Remaining(S', q[1..], rx), DataEvents(rx.Block(R.sIdx)[..R.sPos]));
  }

  lemma Shift(a: seq<Event>, b: seq<Event>, c: seq<Event>, d: seq<Event>)
    ensures a + (b + c) + d == (a + b) + c + d
  {
    assert a + (b + c) == (a + b) + c;
  }

  lemma OneAvl(box: seq<Msg>)
    ensures Avls(box + [Avl]) == Avls(box) + 1 && Strip([Avl]) == [] && Strip([]) == []
  {
    StripAppend(box, [Avl]);
  }

  lemma FrontItem(R: Side, S: Side, rx: Link)
    requires S.mque != []
    ensures Items(R, S, rx) != [] && Items(R, S, rx)[0] == S.mque[0]
    ensures |S.mque| > 1 ==> |Items(R, S, rx)| > 1 && Items(R, S, rx)[1] == S.mque[1]
  {
  }

  lemma TakeStep(l: Local, R: Side, S': Side, evs: seq<Event>)
    requires BothOk(l, R) && l.s.mque != [] && S'.rSize == 0 && S'.rPos == 0 && ReaderOk(S', l.rx.size)
    requires var b := IsRdy(l.s.mque[0]);
             S' == l.s.(mque := l.s.mque[1..], box := if b then l.s.box + [Avl] else l.s.box,
                        rIdx := if b then l.s.rIdx + 1 else l.s.rIdx,
                        rSize := 0, rPos := 0, rArg := S'.rArg, rcvd := l.s.rcvd + evs)
    requires var q := Items(R, l.s, l.rx);
             WellFormed(q[1..], l.rx.size) && Remaining(l.s, q, l.rx) == evs + Remaining(S', q[1..], l.rx)
    ensures BothOk(l.(s := S'), R)
  {
    hide Strip, Avls, Rdys, WellFormed, Decode, DataEvents, Link.Block;
    OneAvl(l.s.box);
    SenderUnaffected(l.s, S', R, l.tx, l.rx, if IsRdy(l.s.mque[0]) then [Avl] else []);
    ReceiverStep(R, l.s, S', l.rx, l.tx, evs);
  }

  lemma TakeSimpleStep(l: Local, R: Side, evs: seq<Event>)
    requires BothOk(l, R) && l.s.mque != [] && (IsRdy(l.s.mque[0]) ==> l.s.box == [])
    requires var m := l.s.mque[0];
             m.User? || m.Note? || m.MarkRdy? || m.HaltRdy? || m == CallRdy(0)
    requires evs == match l.s.mque[0]
                    case User(t, d) => [HostMsg(t, d)]
                    case Note(t, d) => []
                    case MarkRdy => [Marker]
                    case HaltRdy => [Halt]
                    case CallRdy(k) => [Call([])]
    ensures BothOk(DoTake(l, 0, evs), R) && l.s.rArg == 0
  {
    hide Strip, Avls, Rdys, DataEvents, Link.Block;
    FrontItem(R, l.s, l.rx);
    TakeStep(l, R, DoTake(l, 0, evs).s, evs);
  }

  lemma SeeDataStep(l: Local, R: Side)
    requires BothOk(l, R)
    requires l.s.mque != [] && l.s.mque[0].DataRdy? && l.s.rSize == 0 && l.s.rArg == 0
    ensures BothOk(l.(s := l.s.(rSize := l.s.mque[0].size)), R)
  {
    hide Strip, Avls, Rdys, DataEvents, Link.Block;
    var S' := l.s.(rSize := l.s.mque[0].size);
    var q := Items(R, l.s, l.rx);
    FrontItem(R, l.s, l.rx);
    assert Items(R, S', l.rx) == q;
    assert l.rx.Block(l.s.rIdx)[0..l.s.mque[0].size] == l.rx.Block(l.s.rIdx)[..l.s.mque[0].size];
    assert Remaining(S', q, l.rx) == Remaining(l.s, q, l.rx);
    OneAvl(l.s.box);
    SenderUnaffected(l.s, S', R, l.tx, l.rx, []);
  }

  lemma TakeRestStep(l: Local, R: Side)
    requires BothOk(l, R) && l.s.rSize > 0 && l.s.mque != [] && l.s.box == []
    requires l.s.rPos + l.s.rSize <= l.rx.size
    ensures BothOk(DoTakeData(l, l.s.rSize), R)
  {
    hide Strip, Avls, Rdys, Decode, DataEvents, Link.Block, Link.Valid, CreditsOk, StreamOk;
    FrontItem(R, l.s, l.rx);
    TakeStep(l, R, DoTakeData(l, l.s.rSize).s, DataEvents(l.rx.Block(l.s.rIdx)[l.s.rPos..l.s.rPos + l.s.rSize]));
  }

  lemma TakePartStep(l: Local, R: Side, n: nat)
    requires BothOk(l, R) && 0 < n < l.s.rSize && l.s.mque != []
    requires l.s.rPos + n <= l.rx.size
    ensures BothOk(DoTakeData(l, n), R)
  {
    hide Strip, Avls, Rdys, Decode, DataEvents, Link.Block, Link.Valid, WellFormed, Remaining;
    var S, rx := l.s, l.rx;
    var q := Items(R, S, rx);
    FrontItem(R, S, rx);
    var S' := DoTakeData(l, n).s;
    OneAvl(S.box);
    SenderUnaffected(S, S', R, l.tx, rx, []);
    assert Items(R, S', rx) == q;
    RemainingLess(S, S', q, rx, n);
    var evs := DataEvents(rx.Block(S.rIdx)[S.rPos..S.rPos + n]);
    Shift(S.rcvd, evs, Remaining(S', q, rx), DataEvents(rx.Block(R.sIdx)[..R.sPos]));
  }

  lemma TakeDataStep(l: Local, R: Side, n: nat)
    requires BothOk(l, R) && 0 < n <= l.s.rSize && l.s.mque != []
    requires l.s.rPos + n <= l.rx.size && (n == l.s.rSize ==> l.s.box == [])
    ensures BothOk(DoTakeData(l, n), R)
  {
    hide BothOk, DoTakeData;
    if n == l.s.rSize {
      TakeRestStep(l, R);
    } else {
      TakePartStep(l, R, n);
    }
  }

  lemma RemainingLess(S: Side, S': Side, q: seq<Msg>, l: Link, n: nat)
    requires l.Valid() && WellFormed(q, l.size) && q != []
    requires 0 < n < S.rSize && S.rPos + S.rSize <= l.size && S.rArg <= l.size
    requires S'.rPos == S.rPos + n && S'.rSize == S.rSize - n && S'.rArg == S.rArg && S'.rIdx == S.rIdx
    ensures Remaining(S, q, l) == DataEvents(l.Block(S.rIdx)[S.rPos..S.rPos + n]) + Remaining(S', q, l)
  {
    hide Strip, Rdys, Decode, DataEvents, Link.Block, Link.Valid;
    var b := l.Block(S.rIdx);
    var x, y := b[S.rPos..S.rPos + n], b[S.rPos + n..S.rPos + S.rSize];
    assert b[S.rPos..S.rPos + S.rSize] == x + y;
    DataEventsAppend(x, y);
    var d := Decode(q[1..], S.rIdx + 1, l);
    assert (DataEvents(x) + DataEvents(y)) + d == DataEvents(x) + (DataEvents(y) + d);
  }

  lemma TakeCallStep(l: Local, R: Side)
    requires BothOk(l, R) && l.s.mque != [] && l.s.mque[0].CallRdy? && l.s.box == []
    requires l.s.mque[0].argc > 0 && |l.s.mque| >= 2
    ensures BothOk(DoTake(l, l.s.mque[0].argc, []), R)
  {
    hide Strip, Avls, Rdys, DataEvents, Link.Block;
    FrontItem(R, l.s, l.rx);
    TakeStep(l, R, DoTake(l, l.s.mque[0].argc, []).s, []);
  }

  lemma TakeArgsStep(l: Local, R: Side)
    requires BothOk(l, R) && l.s.mque != [] && l.s.rArg > 0 && l.s.box == [] && l.s.rArg <= l.rx.size
    ensures BothOk(DoTake(l, 0, [Call(l.rx.Block(l.s.rIdx)[..l.s.rArg])]), R)
  {
    hide Strip, Avls, Rdys, DataEvents, Link.Block;
    FrontItem(R, l.s, l.rx);
    var evs := [Call(l.rx.Block(l.s.rIdx)[..l.s.rArg])];
    TakeStep(l, R, DoTake(l, 0, evs).s, evs);
  }

  // ------------------------------------------------------------------------------------------
  // All actions
  // ------------------------------------------------------------------------------------------

  predicate Sends(a: Action) {
    a.Fill? || a.Flush? || a.Tick? || a.SendUser? || a.SendNote? || a.SendMark? || a.SendHalt? || a.SendCall?
  }

  lemma SendKeepsInv(l: Local, R: Side, a: Action)
    requires BothOk(l, R) && Sends(a) && Allowed(l, a)
    requires a.SendCall? ==> |a.args| < l.tx.size
    ensures BothOk(Effect(l, a), R)
  {
    hide Strip, Avls, Rdys, WellFormed, Decode, DataEvents, Link.Block;
    FlushStep(l.s, R, l.tx, l.rx);
    var l1 := l.(s := Flushed(l.s));
    match a
    case Fill(data) => FillStep(l, R, data);
    case Flush =>
    case Tick =>
    case SendUser(t, d) => SendOneStep(l1, DoUser(l, t, d).s, R, User(t, d), [HostMsg(t, d)]);
    case SendNote(t, d) => SendOneStep(l, Effect(l, a).s, R, Note(t, d), []);
    case SendMark => SendOneStep(l1, DoControl(l, MarkRdy, Marker).s, R, MarkRdy, [Marker]);
    case SendHalt => SendOneStep(l1, DoControl(l, HaltRdy, Halt).s, R, HaltRdy, [Halt]);
    case SendCall(args) => CallStep(l1, R, args);
  }

  lemma TakeKeepsInv(l: Local, R: Side, a: Action)
    requires BothOk(l, R) && !Sends(a) && !a.WriteSlot? && !a.Poll? && !a.WaitLock? && Allowed(l, a)
    ensures BothOk(Effect(l, a), R)
  {
    hide Strip, Avls, Rdys, WellFormed, Decode, DataEvents, Link.Block;
    match a
    case SeeData => SeeDataStep(l, R);
    case TakeData(n) => TakeDataStep(l, R, n);
    case TakeUser => TakeSimpleStep(l, R, [HostMsg(l.s.mque[0].msgType, l.s.mque[0].msgData)]);
    case TakeNote =>
      TakeSimpleStep(l, R, []);
      var m := DoTake(l, 0, []);
      assert l.s.rcvd + [] == l.s.rcvd;
      ThreadIrrelevant(m, R, l.s.appIn, DoTakeNote(l).s.seen);
    case TakeMark => TakeSimpleStep(l, R, [Marker]);
    case TakeHalt => TakeSimpleStep(l, R, [Halt]);
    case TakeCall =>
      if l.s.mque[0].argc == 0 {
        TakeSimpleStep(l, R, [Call([])]);
      } else {
        TakeCallStep(l, R);
      }
    case TakeArgs => TakeArgsStep(l, R);
  }

  /** Which thread waits, and what the unit knows of its blocks, makes no difference to what is on its
      way. */
  lemma ThreadIrrelevant(l: Local, R: Side, b: bool, seen: set<nat>)
    requires BothOk(l, R)
    ensures BothOk(l.(s := l.s.(appIn := b, seen := seen)), R)
  {
    hide Strip, Avls, Rdys, WellFormed, Decode, DataEvents, Link.Block;
    var S' := l.s.(appIn := b, seen := seen);
    assert Items(S', R, l.tx) == Items(l.s, R, l.tx);
    assert Items(R, S', l.rx) == Items(R, l.s, l.rx);
    SameReader(S', l.s, Items(R, l.s, l.rx), l.rx);
  }

  /** Whatever one unit does keeps both directions in order. */
  lemma ActionKeepsInv(l: Local, R: Side, a: Action)
    requires BothOk(l, R) && Startable(l, a)
    requires a.SendCall? ==> |a.args| < l.tx.size
    ensures BothOk(Apply(l, a), R)
  {
    hide Strip, Avls, Rdys, WellFormed, Decode, DataEvents, Link.Block;
    if Sends(a) {
      SendKeepsInv(l, R, a);
    } else if a.WriteSlot? {
      WriteStep(l, R);
    } else if a.Poll? {
      PollStep(l, R);
    } else if !a.WaitLock? {
      TakeKeepsInv(l, R, a);
    }
    var m := Effect(l, a);
    ThreadIrrelevant(m, R, Apply(l, a).s.appIn, m.s.seen);
  }
}
