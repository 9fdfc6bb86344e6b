/** A unit of the host/coprocessor interface, as the object that both libraries keep: the host's
    and the coprocessor's class are mirror images and differ in the numbers of the messages, and in how
    they know their blocks: the host's unit made them, the coprocessor's is told where they are.
    Every call is proved to do what HifCalls says.  A thread that waits for an empty slot is stopped
    until the other unit polls, which it is taken to do; HifDeadlock says when it may not. */
module HifUnit {
  import opened Powers
  import opened HifProtocol
  import opened HifSafety
  import opened HifNotes
  import opened HifRuns
  import opened HifCalls
  import opened HifMessages
  import opened HifQueue

  /** The rows of a block array. */
  ghost function Rows(a: array2<Qword>): seq<seq<Qword>>
    reads a
  {
    seq(a.Length0, i requires 0 <= i < a.Length0 reads a =>
      seq(a.Length1, j requires 0 <= j < a.Length1 reads a => a[i, j]))
  }

  lemma RowsShape(a: array2<Qword>)
    ensures |Rows(a)| == a.Length0
    ensures forall i :: 0 <= i < a.Length0 ==> |Rows(a)[i]| == a.Length1
    ensures forall i, j :: 0 <= i < a.Length0 && 0 <= j < a.Length1 ==> Rows(a)[i][j] == a[i, j]
  {
  }

  /** `data` copied into row `i` from column `p` on. */
  method CopyRow(a: array2<Qword>, i: nat, p: nat, data: seq<Qword>)
    requires i < a.Length0 && p + |data| <= a.Length1
    modifies a
    ensures |old(Rows(a))| == a.Length0 && |old(Rows(a))[i]| == a.Length1
    ensures Rows(a) == old(Rows(a))[i := Overwrite(old(Rows(a))[i], p, data)]
  {
    hide Rows, Overwrite;
    ghost var was := Rows(a);
    RowsShape(a);
    forall j | 0 <= j < |data| {
      a[i, p + j] := data[j];
    }
    ghost var now := Rows(a);
    RowsShape(a);
    OverwriteIs(was[i], p, data, now[i]);
    forall k | 0 <= k < a.Length0 && k != i
      ensures now[k] == was[k]
    {
      RowEqual(now[k], was[k]);
    }
  }

  lemma OverwriteIs(b: seq<Qword>, p: nat, data: seq<Qword>, r: seq<Qword>)
    requires p + |data| <= |b| == |r|
    requires forall j :: 0 <= j < |b| ==> r[j] == if p <= j < p + |data| then data[j - p] else b[j]
    ensures r == Overwrite(b, p, data)
  {
  }

  lemma RowEqual(x: seq<Qword>, y: seq<Qword>)
    requires |x| == |y| && forall j :: 0 <= j < |x| ==> x[j] == y[j]
    ensures x == y
  {
  }

  /** A piece of row `i`. */
  method ReadRow(a: array2<Qword>, i: nat, from: nat, n: nat) returns (r: seq<Qword>)
    requires i < a.Length0 && from + n <= a.Length1
    ensures |Rows(a)| == a.Length0 && |Rows(a)[i]| == a.Length1
    ensures r == Rows(a)[i][from..from + n]
  {
    RowsShape(a);
    r := [];
    for j := 0 to n
      invariant |r| == j
      invariant forall k :: 0 <= k < j ==> r[k] == Rows(a)[i][from + k]
    {
      r := r + [a[i, from + j]];
    }
  }

  // Blocks are found by their addresses, which count bytes.

  /** The address of the block with index `idx`, in a ring of `cnt` blocks of `size` quadwords. */
  function BlkAdr(adr: nat, size: nat, cnt: nat, idx: nat): nat
    requires cnt > 0
  {
    adr + 8 * (size * (idx % cnt))
  }

  /** The row of an array at `adr` that lies at address `ptr`. */
  function RowOf(ptr: nat, adr: nat, size: nat): int
    requires size > 0
  {
    (ptr - adr) / 8 / size
  }

  lemma FirstBlk(adr: nat, size: nat, cnt: nat)
    requires cnt > 0
    ensures BlkAdr(adr, size, cnt, 0) == adr
  {
  }

  lemma RowAt(adr: nat, size: nat, cnt: nat, idx: nat)
    requires size > 0 && cnt > 0
    ensures RowOf(BlkAdr(adr, size, cnt, idx), adr, size) == idx % cnt
  {
    assert (8 * (size * (idx % cnt))) / 8 == size * (idx % cnt);
    Quotient(size, idx % cnt);
  }

  lemma Quotient(n: nat, i: nat)
    requires n > 0
    ensures (n * i) / n == i
  {
    var q := (n * i) / n;
    assert n * (i - q) == n * i - n * q;
    assert n * (q - i) == n * q - n * i;
    Multiple(i - q, n);
    Multiple(q - i, n);
  }

  /** The word of a parameter message, and what the receiver takes from it. */
  function ParamWord(sizeW: nat, cntW: nat, timer: nat): nat { sizeW + 0x100 * cntW + 0x1_0000 * timer }

  function ParamSize(d: nat): nat { if d % 0x100 < 3 then 0 else Pow2(d % 0x100 - 3) }

  function ParamCnt(d: nat): nat { Pow2(d / 0x100 % 0x100) }

  lemma ParamFields(sizeW: nat, cntW: nat, timer: nat)
    requires 3 <= sizeW < 0x100 && cntW < 0x100 && timer < 0x1_0000_0000
    ensures var d := ParamWord(sizeW, cntW, timer);
      d < PAYLOADS && ParamSize(d) == Pow2(sizeW - 3) && ParamCnt(d) == Pow2(cntW)
  {
    var d := ParamWord(sizeW, cntW, timer);
    assert d / 0x100 == cntW + 0x100 * timer;
  }

  /** An array of blocks as it is announced: where it lies, and the size and number of its blocks. */
  datatype Place = Place(adr: nat, size: nat, cnt: nat)

  /** A message that sets a unit up says what is true of the blocks it reads and of those it fills. */
  predicate Right(m: Msg, rd: Place, wr: Place) {
    m.Note? ==>
      && (m.msgType == IBLK_ADR ==> m.msgData == rd.adr)
      && (m.msgType == OBLK_ADR ==> m.msgData == wr.adr)
      && (m.msgType == IBLK_PARAM ==> ParamSize(m.msgData) == rd.size && ParamCnt(m.msgData) == rd.cnt)
      && (m.msgType == OBLK_PARAM ==> ParamSize(m.msgData) == wr.size && ParamCnt(m.msgData) == wr.cnt)
  }

  predicate AllRight(q: seq<Msg>, rd: Place, wr: Place) {
    forall i :: 0 <= i < |q| ==> Right(q[i], rd, wr)
  }

  function Slot(start: nat, i: nat): (k: nat)
    ensures k < RING_SLOTS
  {
    (start + i) % RING_SLOTS
  }

  /** The ring `a` holds the messages `q`, the oldest one in slot `start`; all other slots are empty. */
  ghost predicate RingHolds(a: array<nat>, start: nat, q: seq<Msg>, d: Dir)
    reads a
  {
    && a.Length == RING_SLOTS && |q| <= RING_SLOTS
    && (forall i {:trigger Slot(start, i)} :: 0 <= i < |q| ==>
          IsValidWord(a[Slot(start, i)]) && ToMsg(d, a[Slot(start, i)]) == q[i])
    && (forall i {:trigger Slot(start, i)} :: |q| <= i < RING_SLOTS ==> !IsValidWord(a[Slot(start, i)]))
  }

  /** The slot behind the last message is empty, and a word put there is the new last message. */
  method PutSlot(a: array<nat>, idx: nat, word: nat, ghost q: seq<Msg>, d: Dir)
    requires |q| < RING_SLOTS && RingHolds(a, idx + RING_SLOTS - |q|, q, d) && IsValidWord(word)
    modifies a
    ensures old(!IsValidWord(a[idx % RING_SLOTS]))
    ensures RingHolds(a, idx + RING_SLOTS - |q|, q + [ToMsg(d, word)], d)
  {
    hide ToMsg, IsValidWord;
    ghost var start := idx + RING_SLOTS - |q|;
    assert Slot(start, |q|) == idx % RING_SLOTS;
    a[idx % RING_SLOTS] := word;
    assert forall i {:trigger Slot(start, i)} :: 0 <= i < RING_SLOTS && i != |q| ==> Slot(start, i) != idx % RING_SLOTS;
  }

  lemma EmptySlot(a: array<nat>, idx: nat, q: seq<Msg>, d: Dir)
    requires RingHolds(a, idx, q, d)
    ensures a.Length == RING_SLOTS && (IsValidWord(a[idx % RING_SLOTS]) <==> q != [])
  {
    assert Slot(idx, 0) == idx % RING_SLOTS;
  }

  /** The slot that is written next is taken just when the ring is full. */
  lemma FullSlot(a: array<nat>, idx: nat, q: seq<Msg>, d: Dir)
    requires |q| <= RING_SLOTS && RingHolds(a, idx + RING_SLOTS - |q|, q, d)
    ensures a.Length == RING_SLOTS && (IsValidWord(a[idx % RING_SLOTS]) <==> |q| == RING_SLOTS)
  {
    if |q| == RING_SLOTS {
      assert Slot(idx, 0) == idx % RING_SLOTS;
    } else {
      assert Slot(idx + RING_SLOTS - |q|, |q|) == idx % RING_SLOTS;
    }
  }

  lemma SlotNext(idx: nat, i: nat)
    requires i < RING_SLOTS
    ensures Slot(idx + 1, i) == Slot(idx, i + 1)
    ensures i + 1 < RING_SLOTS ==> Slot(idx, i + 1) != idx % RING_SLOTS
  {
  }

  /** A valid word at the reading position is the oldest message; clearing it removes the message. */
  method ClearSlot(a: array<nat>, idx: nat, ghost q: seq<Msg>, d: Dir)
    requires RingHolds(a, idx, q, d) && IsValidWord(a[idx % RING_SLOTS])
    modifies a
    ensures q != [] && old(ToMsg(d, a[idx % RING_SLOTS])) == q[0]
    ensures RingHolds(a, idx + 1, q[1..], d)
  {
    hide ToMsg, Slot;
    EmptySlot(a, idx, q, d);
    FirstSlot(idx);
    assert ToMsg(d, a[Slot(idx, 0)]) == q[0];
    a[idx % RING_SLOTS] := 0;
    forall i {:trigger Slot(idx + 1, i)} | 0 <= i < RING_SLOTS
      ensures i < |q| - 1 ==> IsValidWord(a[Slot(idx + 1, i)]) && ToMsg(d, a[Slot(idx + 1, i)]) == q[1..][i]
      ensures i >= |q| - 1 ==> !IsValidWord(a[Slot(idx + 1, i)])
    {
      SlotNext(idx, i);
      if i == RING_SLOTS - 1 {
        LastSlot(idx);
      }
    }
  }

  lemma OldestIs(a: array<nat>, idx: nat, q: seq<Msg>, d: Dir)
    requires RingHolds(a, idx, q, d) && IsValidWord(a[idx % RING_SLOTS])
    ensures q != [] && q[0] == ToMsg(d, a[idx % RING_SLOTS])
  {
    hide ToMsg, IsValidWord;
    assert Slot(idx, 0) == idx % RING_SLOTS;
  }

  lemma FirstSlot(idx: nat)
    ensures Slot(idx, 0) == idx % RING_SLOTS
  {
  }

  lemma LastSlot(idx: nat)
    ensures Slot(idx + 1, RING_SLOTS - 1) == idx % RING_SLOTS
  {
  }

  lemma RingZero(a: array<nat>, d: Dir)
    requires RingHolds(a, 0, [], d)
    ensures RingHolds(a, RING_SLOTS, [], d)
  {
    hide ToMsg, IsValidWord;
    assert forall i {:trigger Slot(RING_SLOTS, i)} :: 0 <= i < RING_SLOTS ==> Slot(RING_SLOTS, i) == Slot(0, i);
  }

  lemma RingStart(a: array<nat>, q: seq<Msg>, d: Dir)
    requires |q| <= RING_SLOTS && RingHolds(a, |q| + RING_SLOTS - |q|, q, d)
    ensures RingHolds(a, 0, q, d)
  {
    hide ToMsg, IsValidWord;
    assert forall i {:trigger Slot(0, i)} :: 0 <= i < RING_SLOTS ==> Slot(0, i) == Slot(RING_SLOTS, i);
  }

  /** The block addresses and sizes as they arrive. */
  function FirstParams(params: seq<nat>): (r: seq<nat>)
    requires |params| == 4
    ensures |r| == 4
  {
    [params[0] % PAYLOADS, params[1] % PAYLOADS, params[2] % PAYLOADS, params[3] % PAYLOADS]
  }

  /** One message behind the started block. */
  ghost function WithMsg(l: Local, m: Msg, e: Event): Local {
    var s1 := Flushed(l.s);
    l.(s := s1.(box := s1.box + [m], sent := s1.sent + [e]))
  }

  /** Data behind what the block being filled holds already. */
  ghost function Copied(l: Local, data: seq<Qword>): Local
    requires l.tx.Valid() && l.s.sPos + |data| <= l.tx.size
  {
    var i := l.s.sIdx % |l.tx.blks|;
    l.(s := l.s.(sPos := l.s.sPos + |data|),
       tx := l.tx.(blks := l.tx.blks[i := Overwrite(l.tx.blks[i], l.s.sPos, data)]))
  }

  /** Sending `data` from `l0` comes to sending the rest of it, behind the first `cnt`, from `l`. */
  ghost predicate SendsRest(l: Local, l0: Local, data: seq<Qword>, cnt: nat)
    requires cnt <= |data| && l.tx.Valid() && l.s.sPos < l.tx.size && l0.tx.Valid() && l0.s.sPos < l0.tx.size
  {
    var r := SendLoop(l, data[cnt..]);
    (r.0, cnt + r.1) == SendLoop(l0, data)
  }

  /** One round of the sending loop. */
  lemma RestStep(l: Local, l0: Local, data: seq<Qword>, cnt: nat)
    requires cnt < |data| && Ready(l) && SetUp(l.s) && l0.tx.Valid() && l0.s.sPos < l0.tx.size
    requires l.tx.Valid() && l.s.sPos < l.tx.size && SendsRest(l, l0, data, cnt)
    ensures var l1 := if l.s.avail == 0 then PollAll(l) else l;
      && Ready(l1) && SetUp(l1.s) && l1.tx.Valid() && l1.s.sPos < l1.tx.size
      && (l1.s.avail <= 0 ==> (l1, cnt) == SendLoop(l0, data))
      && (l1.s.avail > 0 ==>
            var n := Min(|data| - cnt, l1.tx.size - l1.s.sPos);
            var m := Written(DoFill(l1, data[cnt..cnt + n]));
            0 < n && Ready(m) && SetUp(m.s) && m.tx.Valid() && m.s.sPos < m.tx.size && SendsRest(m, l0, data, cnt + n))
  {
    hide PollAll, DoFill, Written, SendLoop, Ready, Link.Valid;
    SendLoopStep(l, data[cnt..]);
    var l1 := if l.s.avail == 0 then PollAll(l) else l;
    SendFacts(l1);
    if l1.s.avail > 0 {
      var n := Min(|data| - cnt, l1.tx.size - l1.s.sPos);
      assert data[cnt..cnt + n] == data[cnt..][..n] && data[cnt..][n..] == data[cnt + n..];
      SendFacts(Written(DoFill(l1, data[cnt..cnt + n])));
    }
  }

  lemma RestDone(l: Local, l0: Local, data: seq<Qword>)
    requires l0.tx.Valid() && l0.s.sPos < l0.tx.size && l.tx.Valid() && l.s.sPos < l.tx.size
    ensures SendsRest(l, l0, data, |data|) ==> (l, |data|) == SendLoop(l0, data)
    ensures SendsRest(l0, l0, data, 0)
  {
    assert data[0..] == data && data[|data|..] == [];
  }

  ghost predicate IsFirst(q: seq<Msg>, blkCnt: nat, params: seq<nat>, timer: nat)
    requires |params| == 4
  {
    exists flush :: FlushMsgs(flush) && q == FirstMsgs(blkCnt, params, timer, flush)
  }

  lemma FirstOf(blkCnt: nat, p: seq<nat>, timer: nat, flush: seq<Msg>)
    requires |p| == 4 && FlushMsgs(flush)
    ensures var head := [Note(IBLK_ADR, p[0]), Note(OBLK_ADR, p[1]), Note(IBLK_PARAM, p[2]), Note(OBLK_PARAM, p[3])];
            IsFirst(head + AvlMsgs(blkCnt) + [Note(0, timer)] + flush, blkCnt, p, timer)
    ensures flush == [] ==>
            var head := [Note(IBLK_ADR, p[0]), Note(OBLK_ADR, p[1]), Note(IBLK_PARAM, p[2]), Note(OBLK_PARAM, p[3])];
            IsFirst(head + AvlMsgs(blkCnt) + [Note(0, timer)], blkCnt, p, timer)
  {
    var head := [Note(IBLK_ADR, p[0]), Note(OBLK_ADR, p[1]), Note(IBLK_PARAM, p[2]), Note(OBLK_PARAM, p[3])];
    assert FirstMsgs(blkCnt, p, timer, flush) == head + AvlMsgs(blkCnt) + [Note(0, timer)] + flush;
    var q := head + AvlMsgs(blkCnt) + [Note(0, timer)];
    assert flush == [] ==> q + flush == q;
  }

  /** How the two tests of a word say which message it is. */
  lemma WordTests(d: Dir, w: nat)
    ensures var t, p, m := TypeOf(w), DataOf(w), ToMsg(d, w);
      && (t == AvlCmd(d) <==> m.Avl?)
      && (t == RdyCmd(d) && p % 8 == 0 ==> m == DataRdy(p / 8))
      && (t == RdyCmd(d) && p % 8 == DQ_NULL ==> m == MarkRdy)
      && (t == RdyCmd(d) && p % 8 == DQ_CALL ==> m == CallRdy(p / 8))
      && (t == RdyCmd(d) && p % 8 == DQ_HALT ==> m == HaltRdy)
      && (t == RdyCmd(d) && p % 8 !in {0, DQ_NULL, DQ_CALL, DQ_HALT} ==> m.Note?)
      && (m.Note? ==> m == Note(t, p))
      && (t !in {AvlCmd(d), RdyCmd(d)} ==> m == if t >= 16 then User(t, p) else Note(t, p))
  {
    hide TypeOf, DataOf;
  }

  /** A call's message, sent before its arguments' block. */
  ghost function CallMsgSent(l: Local, args: seq<Qword>): Local
    requires l.tx.Valid() && |args| <= l.tx.size
  {
    var m := Copied(l.(s := l.s.(avail := l.s.avail - 1, sIdx := l.s.sIdx + 1, sPos := 0)), args);
    m.(s := m.s.(sent := m.s.sent + [Call(args)]), tx := m.tx.(q := Latest(m.tx.q + [CallRdy(|args|)])))
  }

  lemma ArgsThenFlush(l: Local, args: seq<Qword>)
    requires l.tx.Valid() && l.s.sPos == 0 && l.s.avail >= 2 && |args| < l.tx.size && l.s.box == [] && !l.s.appIn
    ensures Written(CallSent(l, args)) == FlushCall(CallMsgSent(l, args))
  {
    hide Overwrite, FillLoop, Latest;
    FillLoopSmall(l.(s := l.s.(avail := l.s.avail - 1, sIdx := l.s.sIdx + 1)), args);
    var q, m := l.tx.q, [CallRdy(|args|)];
    var d := if args == [] then [] else [DataRdy(|args|)];
    LatestMore(q, m, d);
    assert [] + m == m && m + [] == m && [] + [DataRdy(|args|)] == [DataRdy(|args|)];
    var x, y := CallSent(l, args), CallMsgSent(l, args);
    assert x.s.box == m + d;
    assert Flushed(y.s).box == d;
  }

  /** Polling and taking messages loses nothing of what must be told. */
  lemma PolledTold(l: Local, rd: Place, wr: Place)
    requires Told(l.s.mque, l.rx.q, l.s.seen) && AllRight(l.s.mque, rd, wr) && AllRight(l.rx.q, rd, wr) && l.rx.q != []
    ensures var m := DoPoll(l);
      Told(m.s.mque, m.rx.q, m.s.seen) && AllRight(m.s.mque, rd, wr) && AllRight(m.rx.q, rd, wr)
  {
    hide Told, Right;
    assert Right(l.rx.q[0], rd, wr);
    PollAnnounced(l, []);
  }

  lemma RestRight(q: seq<Msg>, rd: Place, wr: Place)
    requires AllRight(q, rd, wr) && q != []
    ensures AllRight(q[1..], rd, wr) && Right(q[0], rd, wr)
  {
  }

  class Unit {
    const tx: Dir
    const rx: Dir
    // the ring this unit writes, the ring it reads, and the queue of messages taken from it
    const wrQue: array<nat>
    var wrQueIdx: nat
    const rdQue: array<nat>
    var rdQueIdx: nat
    const msgQue: CQueue<nat>
    // the blocks this unit fills: the array and where it lies, what the unit knows of them, and its place
    const wrBlk: array2<Qword>
    const wrAdr: nat
    var wrBase: nat
    var wrSize: nat
    var wrCnt: nat
    var wrPtr: nat
    var availCnt: int
    var wrIdx: nat
    var wrBlkIdx: nat
    // the blocks this unit reads
    const rdBlk: array2<Qword>
    const rdAdr: nat
    var rdBase: nat
    var rdSize: nat
    var rdCnt: nat
    var rdPtr: nat
    var rdBlkIdx: nat
    var rdIdx: nat
    var dataSize: nat
    var rtnArgc: nat

    /** The unit as the protocol sees it. */
    ghost var l: Local

    ghost predicate Valid()
      reads this, wrQue, rdQue, msgQue, msgQue.que, wrBlk, rdBlk
    {
      Sound() && Pointers()
    }

    /** Everything but what the unit knows of its blocks. */
    ghost predicate Sound()
      reads this, wrQue, rdQue, msgQue, msgQue.que, wrBlk, rdBlk
    {
      && Shape() && Fields()
      && msgQue.Valid() && ToMsgs(rx, msgQue.Contents()) == l.s.mque
      && RingHolds(wrQue, wrQueIdx + RING_SLOTS - |l.tx.q|, l.tx.q, tx)
      && RingHolds(rdQue, rdQueIdx, l.rx.q, rx)
      && Rows(wrBlk) == l.tx.blks && Rows(rdBlk) == l.rx.blks
    }

    ghost predicate Shape()
      reads this
    {
      && tx != rx && wrQue != rdQue && wrQue != msgQue.que && rdQue != msgQue.que && wrBlk != rdBlk
      && msgQue.size == RING_SLOTS && |l.tx.q| <= RING_SLOTS
      && 2 <= wrBlk.Length0 && 1 <= wrBlk.Length1 <= 0x40_0000
      && 2 <= rdBlk.Length0 && 1 <= rdBlk.Length1 <= 0x40_0000
      && wrIdx <= wrBlk.Length1
    }

    ghost predicate Fields()
      reads this
    {
      && l.s == Side([], availCnt, wrBlkIdx, wrIdx, l.s.mque, rdBlkIdx, dataSize, rdIdx, rtnArgc,
                     l.s.sent, l.s.rcvd, false, l.s.seen)
      && l.tx.size == wrBlk.Length1 && |l.tx.blks| == wrBlk.Length0
      && l.rx.size == rdBlk.Length1 && |l.rx.blks| == rdBlk.Length0
    }

    ghost function RdPlace(): Place { Place(rdAdr, rdBlk.Length1, rdBlk.Length0) }

    ghost function WrPlace(): Place { Place(wrAdr, wrBlk.Length1, wrBlk.Length0) }

    /** What the unit was told is true, and its pointers point to the blocks in use. */
    ghost predicate Pointers()
      reads this
    {
      && Told(l.s.mque, l.rx.q, l.s.seen)
      && AllRight(l.s.mque, RdPlace(), WrPlace()) && AllRight(l.rx.q, RdPlace(), WrPlace())
      && WrPointer() && RdPointer()
    }

    ghost predicate WrPointer()
      reads this
    {
      && wrBlk.Length0 > 0
      && (SetUp(l.s) || (wrBlkIdx == 0 && wrIdx == 0))
      && (OBLK_ADR in l.s.seen ==>
            wrBase == wrAdr && wrPtr == BlkAdr(wrAdr, wrBlk.Length1, wrBlk.Length0, wrBlkIdx))
      && (OBLK_PARAM in l.s.seen ==> wrSize == wrBlk.Length1 && wrCnt == wrBlk.Length0)
    }

    ghost predicate RdPointer()
      reads this
    {
      && rdBlk.Length0 > 0
      && (CanRead(l.s) || rdBlkIdx == 0)
      && (IBLK_ADR in l.s.seen ==>
            rdBase == rdAdr && rdPtr == BlkAdr(rdAdr, rdBlk.Length1, rdBlk.Length0, rdBlkIdx))
      && (IBLK_PARAM in l.s.seen ==> rdSize == rdBlk.Length1 && rdCnt == rdBlk.Length0)
    }

    /** A new unit.  The host's rings are cleared; it announces its blocks and gives the
        coprocessor one credit for each outbound block.  The coprocessor starts without credits, and
        its fields for the blocks are null or not set at all. */
    constructor (host: bool, wrQue: array<nat>, rdQue: array<nat>, wrBlk: array2<Qword>, rdBlk: array2<Qword>,
                 wrAdr: nat, rdAdr: nat, ghost waiting: seq<Msg>, params: seq<nat>, timer: nat, needFlush: bool, flushAdr: nat)
      requires wrQue != rdQue && wrBlk != rdBlk && |params| == 4
      requires RingHolds(wrQue, 0, [], if host then In else Out)
      requires RingHolds(rdQue, 0, waiting, if host then Out else In)
      requires Told([], waiting, if host then ALL_SEEN else {})
      requires AllRight(waiting, Place(rdAdr, rdBlk.Length1, rdBlk.Length0), Place(wrAdr, wrBlk.Length1, wrBlk.Length0))
      requires 2 <= wrBlk.Length0 <= 64 && 1 <= wrBlk.Length1 <= 0x40_0000
      requires 2 <= rdBlk.Length0 <= 64 && 1 <= rdBlk.Length1 <= 0x40_0000
      modifies wrQue
      ensures Valid() && fresh(msgQue) && fresh(msgQue.que)
      ensures this.wrQue == wrQue && this.rdQue == rdQue && this.wrBlk == wrBlk && this.rdBlk == rdBlk
      ensures this.wrAdr == wrAdr && this.rdAdr == rdAdr && tx == (if host then In else Out)
      ensures l.s == Side([], if host then wrBlk.Length0 else 0, 0, 0, [], 0, 0, 0, 0, [], [], false,
                          if host then ALL_SEEN else {})
      ensures l.rx.q == waiting && (!host ==> l.tx.q == [])
      ensures host ==> IsFirst(l.tx.q, rdBlk.Length0, FirstParams(params), timer % PAYLOADS)
      ensures RingHolds(wrQue, 0, l.tx.q, tx) && (!host ==> unchanged(wrQue))
    {
      hide BlkAdr, Told, AllRight, ToMsg, IsValidWord, NewWord, ParamSize, ParamCnt, Begins;
      tx, rx := if host then In else Out, if host then Out else In;
      this.wrQue, this.rdQue, this.wrBlk, this.rdBlk := wrQue, rdQue, wrBlk, rdBlk;
      this.wrAdr, this.rdAdr := wrAdr, rdAdr;
      wrBase, rdBase := if host then wrAdr else 0, if host then rdAdr else 0;
      wrPtr, rdPtr := if host then wrAdr else 0, if host then rdAdr else 0;
      if host {
        wrSize, wrCnt, rdSize, rdCnt := wrBlk.Length1, wrBlk.Length0, rdBlk.Length1, rdBlk.Length0;
      }
      wrQueIdx, rdQueIdx := 0, 0;
      msgQue := new CQueue<nat>(RING_SLOTS);
      availCnt := if host then wrBlk.Length0 else 0;
      wrIdx, wrBlkIdx, rdBlkIdx, rdIdx, dataSize, rtnArgc := 0, 0, 0, 0, 0, 0;
      l := Local(Side([], if host then wrBlk.Length0 else 0, 0, 0, [], 0, 0, 0, 0, [], [], false,
                      if host then ALL_SEEN else {}),
                 Link([], Rows(wrBlk), wrBlk.Length1), Link(waiting, Rows(rdBlk), rdBlk.Length1));
      new;
      FirstBlk(wrAdr, wrBlk.Length1, wrBlk.Length0);
      FirstBlk(rdAdr, rdBlk.Length1, rdBlk.Length0);
      RowsShape(wrBlk);
      RowsShape(rdBlk);
      RingZero(wrQue, tx);
      NothingTold(RdPlace(), WrPlace());
      assert ToMsgs(rx, msgQue.Contents()) == [];
      assert Sound() by { hide ToMsgs, Rows, RingHolds; }
      hide Sound;
      if host {
        SendFirst(params, timer, needFlush, flushAdr);
        RingStart(wrQue, l.tx.q, tx);
      }
    }

    /** The messages of a new host unit. */
    method SendFirst(params: seq<nat>, timer: nat, needFlush: bool, flushAdr: nat)
      requires Valid() && tx == In && l.tx.q == [] && wrQueIdx == 0 && rdBlk.Length0 <= 64 && |params| == 4
      modifies this`wrQueIdx, this`l, wrQue
      ensures Valid() && l == old(l).(tx := old(l).tx.(q := l.tx.q)) && wrQueIdx == |l.tx.q|
      ensures IsFirst(l.tx.q, rdBlk.Length0, FirstParams(params), timer % PAYLOADS)
    {
      hide Valid, ToMsg, NewWord;
      var p := FirstParams(params);
      ghost var head := [Note(IBLK_ADR, p[0]), Note(OBLK_ADR, p[1]), Note(IBLK_PARAM, p[2]), Note(OBLK_PARAM, p[3])];
      for i := 0 to 4
        invariant Valid() && l == old(l).(tx := old(l).tx.(q := head[..i])) && wrQueIdx == i
      {
        NoteMessage(In, 1 + i, params[i]);
        SendMsgInternal(1 + i, params[i]);
      }
      assert head[..4] == head;
      assert head + AvlMsgs(0) == head;
      for i := 0 to rdBlk.Length0
        invariant Valid() && l == old(l).(tx := old(l).tx.(q := head + AvlMsgs(i))) && wrQueIdx == 4 + i
      {
        var idx := (i + 0x1_0000_0000 - 16) % 0x1_0000_0000;
        AvlMessage(In, idx);
        SendMsgInternal(AvlCmd(In), idx);
        assert head + AvlMsgs(i) + [Avl] == head + AvlMsgs(i + 1);
      }
      NoteMessage(In, 0, timer);
      SendMsgInternal(0, timer);
      FirstOf(rdBlk.Length0, p, timer % PAYLOADS, []);
      if needFlush {
        NoteMessage(In, FLSH_ADR, flushAdr);
        SendMsgInternal(FLSH_ADR, flushAdr);
        FirstOf(rdBlk.Length0, p, timer % PAYLOADS, [Note(FLSH_ADR, flushAdr % PAYLOADS)]);
      }
    }

    // ----------------------------------------------------------------------------------------
    // Rings
    // ----------------------------------------------------------------------------------------

    /** A control message is put into the next slot of the ring, as soon as it is empty. */
    method SendMsgInternal(msgType: nat, msgData: nat)
      requires Valid()
      modifies this`wrQueIdx, this`l, wrQue
      ensures Valid() && wrQueIdx == old(wrQueIdx) + 1
      ensures l == old(l).(tx := old(l).tx.(q := Latest(old(l).tx.q + [ToMsg(tx, NewWord(msgType, msgData))])))
    {
      hide RingHolds, Rows, ToMsg, ToMsgs, NewWord, IsValidWord, Latest, CQueue.Valid, CQueue.Contents, Told, AllRight;
      ghost var q := l.tx.q;
      LatestOne(q, ToMsg(tx, NewWord(msgType, msgData)));
      FullSlot(wrQue, wrQueIdx, l.tx.q, tx);
      while IsValidWord(wrQue[wrQueIdx % RING_SLOTS])
        invariant Valid() && wrQueIdx == old(wrQueIdx) && l == old(l).(tx := old(l).tx.(q := l.tx.q))
        invariant l.tx.q == if |l.tx.q| == RING_SLOTS then q else if |q| == RING_SLOTS then q[1..] else q
        invariant wrQue.Length == RING_SLOTS && (IsValidWord(wrQue[wrQueIdx % RING_SLOTS]) <==> |l.tx.q| == RING_SLOTS)
        decreases |l.tx.q|
      {
        OtherPolls();
        FullSlot(wrQue, wrQueIdx, l.tx.q, tx);
      }
      WordFields(msgType, msgData);
      PutSlot(wrQue, wrQueIdx, NewWord(msgType, msgData), l.tx.q, tx);
      wrQueIdx := wrQueIdx + 1;
      l := l.(tx := l.tx.(q := l.tx.q + [ToMsg(tx, NewWord(msgType, msgData))]));
    }

    /** While a thread waits for its slot, the other unit polls the oldest message of the full ring, and
        clears the slot. */
    method OtherPolls()
      requires Valid() && |l.tx.q| == RING_SLOTS
      modifies this`l, wrQue
      ensures Valid() && l == old(l).(tx := old(l).tx.(q := old(l).tx.q[1..]))
    {
      hide RingHolds, Rows, ToMsg, ToMsgs, IsValidWord, CQueue.Valid, CQueue.Contents, Told, AllRight;
      EmptySlot(wrQue, wrQueIdx, l.tx.q, tx);
      ClearSlot(wrQue, wrQueIdx, l.tx.q, tx);
      l := l.(tx := l.tx.(q := l.tx.q[1..]));
    }

    /** Messages are taken from the ring until it is empty or the queue is full. */
    method QueMsgs()
      requires Valid()
      modifies this`availCnt, this`rdQueIdx, this`l, rdQue, msgQue, msgQue.que
      ensures Valid() && l == PollAll(old(l))
    {
      hide Valid, IsValidWord, DoPoll;
      while true
        invariant Valid() && PollAll(l) == PollAll(old(l))
        decreases |l.rx.q|
      {
        var more, word := NextWord();
        if !more {
          break;
        }
        TakeFromRing(word);
      }
    }

    /** The word at the reading position, if it is valid and the queue has room for it. */
    method NextWord() returns (more: bool, word: nat)
      requires Valid()
      ensures more <==> l.rx.q != [] && |l.s.mque| < QUE_CAPACITY
      ensures more ==> rdQue.Length == RING_SLOTS && word == rdQue[rdQueIdx % RING_SLOTS] && IsValidWord(word)
    {
      hide RingHolds, Rows, ToMsg, ToMsgs, CQueue.Valid, CQueue.Contents, IsValidWord;
      var full := msgQue.IsFull();
      EmptySlot(rdQue, rdQueIdx, l.rx.q, rx);
      ToMsgsParts(rx, msgQue.Contents());
      word := rdQue[rdQueIdx % RING_SLOTS];
      more := IsValidWord(word) && !full;
    }

    /** The body of the polling loop: one message, which is not the AVL message of this direction,
        goes to the queue; an AVL message is one more block. */
    method TakeFromRing(word: nat)
      requires Valid() && rdQue.Length == RING_SLOTS && word == rdQue[rdQueIdx % RING_SLOTS] && IsValidWord(word)
      requires |l.s.mque| < QUE_CAPACITY
      modifies this`availCnt, this`rdQueIdx, this`l, rdQue, msgQue, msgQue.que
      ensures Valid()
      ensures old(l).rx.q != [] && l == DoPoll(old(l)) && |l.rx.q| < |old(l).rx.q|
    {
      hide RingHolds, Rows, ToMsg, ToMsgs, CQueue.Valid, CQueue.Contents, TypeOf, IsValidWord, Told, AllRight;
      OldestIs(rdQue, rdQueIdx, l.rx.q, rx);
      ToMsgsParts(rx, msgQue.Contents());
      CountOrQueue(word);
      // the slot is cleared for the writer
      ClearSlot(rdQue, rdQueIdx, l.rx.q, rx);
      Polled();
    }

    /** The message has left the ring. */
    method Polled()
      requires l.rx.q != [] && Shape() && Pointers()
      requires l.s == Side([], if l.rx.q[0].Avl? then availCnt - 1 else availCnt, wrBlkIdx, wrIdx, l.s.mque, rdBlkIdx,
                           dataSize, rdIdx, rtnArgc, l.s.sent, l.s.rcvd, false, l.s.seen)
      requires l.tx.size == wrBlk.Length1 && |l.tx.blks| == wrBlk.Length0
      requires l.rx.size == rdBlk.Length1 && |l.rx.blks| == rdBlk.Length0
      modifies this`rdQueIdx, this`l
      ensures l == DoPoll(old(l)) && rdQueIdx == old(rdQueIdx) + 1
      ensures Shape() && Fields() && Pointers()
    {
      hide Told, AllRight, BlkAdr;
      PolledTold(l, RdPlace(), WrPlace());
      rdQueIdx := rdQueIdx + 1;
      l := DoPoll(l);
    }

    method CountOrQueue(word: nat)
      requires msgQue.Valid() && msgQue.size == RING_SLOTS && |msgQue.Contents()| < QUE_CAPACITY
      modifies this`availCnt, msgQue, msgQue.que
      ensures msgQue.Valid() && msgQue.size == RING_SLOTS
      ensures var m := ToMsg(rx, word);
        && availCnt == old(availCnt) + (if m.Avl? then 1 else 0)
        && ToMsgs(rx, msgQue.Contents()) == ToMsgs(rx, old(msgQue.Contents())) + (if m.Avl? then [] else [m])
    {
      hide ToMsg, ToMsgs, CQueue.Valid, CQueue.Contents, TypeOf;
      WordTests(rx, word);
      if TypeOf(word) == AvlCmd(rx) {
        availCnt := availCnt + 1;
      } else {
        ghost var q := msgQue.Contents();
        msgQue.Push(word);
        ToMsgsMore(rx, q, word);
      }
    }

    // ----------------------------------------------------------------------------------------
    // Sending
    // ----------------------------------------------------------------------------------------

    /** The block being filled is given up for the next one. */
    method NextBlk()
      requires Valid() && availCnt > 0 && SetUp(l.s)
      modifies this`availCnt, this`wrIdx, this`wrBlkIdx, this`wrPtr, this`l
      ensures Valid()
      ensures l == old(l).(s := old(l).s.(avail := old(l).s.avail - 1, sIdx := old(l).s.sIdx + 1, sPos := 0))
    {
      hide RingHolds, Rows, ToMsgs, CQueue.Valid, CQueue.Contents, Told, AllRight, BlkAdr;
      StepOn();
      l := l.(s := l.s.(avail := availCnt, sIdx := wrBlkIdx, sPos := 0));
    }

    method StepOn()
      requires wrCnt > 0
      modifies this`availCnt, this`wrIdx, this`wrBlkIdx, this`wrPtr
      ensures availCnt == old(availCnt) - 1 && wrIdx == 0 && wrBlkIdx == old(wrBlkIdx) + 1
      ensures wrPtr == BlkAdr(wrBase, wrSize, wrCnt, wrBlkIdx)
    {
      availCnt := availCnt - 1;
      wrIdx := 0;
      wrBlkIdx := wrBlkIdx + 1;
      wrPtr := BlkAdr(wrBase, wrSize, wrCnt, wrBlkIdx);
    }

    /** The ghost record of what was sent and received is extended. */
    ghost method Record(s: seq<Event>, r: seq<Event>)
      requires Valid()
      modifies this`l
      ensures Valid() && l == old(l).(s := old(l).s.(sent := old(l).s.sent + s, rcvd := old(l).s.rcvd + r))
    {
      hide RingHolds, Rows, ToMsgs, CQueue.Valid, CQueue.Contents, Told, AllRight;
      l := l.(s := l.s.(sent := l.s.sent + s, rcvd := l.s.rcvd + r));
    }

    /** Hands the started block over; with `ctl` an empty block goes as a marker or a halt. */
    method FlushBlk(ctl: nat)
      requires Valid()
      requires ctl in {0, DQ_NULL, DQ_HALT} && (ctl != 0 ==> wrIdx == 0)
      requires wrIdx > 0 || ctl != 0 ==> availCnt > 0
      requires ctl != 0 ==> SetUp(l.s)
      modifies this`availCnt, this`wrIdx, this`wrBlkIdx, this`wrPtr, this`wrQueIdx, this`l, wrQue
      ensures Valid()
      ensures ctl == 0 ==> l == FlushCall(old(l))
      ensures ctl == DQ_NULL ==> l == Written(DoControl(old(l), MarkRdy, Marker))
      ensures ctl == DQ_HALT ==> l == Written(DoControl(old(l), HaltRdy, Halt))
    {
      hide Valid, ToMsg, NewWord, Latest;
      ValidFields();
      if wrIdx == 0 && ctl == 0 {
        WrittenNothing(l);
        return;
      }
      BlockMessages(tx, wrIdx);
      var size := wrIdx * 8 + ctl;
      NextBlk();
      SendMsgInternal(RdyCmd(tx), size);
      assert [] + [ToMsg(tx, NewWord(RdyCmd(tx), size))] == [ToMsg(tx, NewWord(RdyCmd(tx), size))];
      Record(if ctl == DQ_NULL then [Marker] else if ctl == DQ_HALT then [Halt] else [], []);
    }

    lemma ValidFields()
      requires Valid()
      ensures Shape() && Fields() && l.tx.Valid() && l.rx.Valid() && (wrIdx > 0 ==> SetUp(l.s))
    {
      hide RingHolds, Rows, ToMsgs, CQueue.Valid, CQueue.Contents, Told, AllRight;
      RowsShape(wrBlk);
      RowsShape(rdBlk);
    }

    /** Data copied behind what the block holds already. */
    method CopyIn(data: seq<Qword>)
      requires Valid() && SetUp(l.s) && wrIdx + |data| <= wrBlk.Length1
      modifies this`wrIdx, this`l, wrBlk
      ensures Valid() && old(l).tx.Valid()
      ensures l == Copied(old(l), data)
    {
      hide RingHolds, Rows, ToMsgs, CQueue.Valid, CQueue.Contents, Overwrite, Told, AllRight;
      ValidFields();
      RowAt(wrAdr, wrBlk.Length1, wrBlk.Length0, wrBlkIdx);
      CopyRow(wrBlk, RowOf(wrPtr, wrAdr, wrBlk.Length1), wrIdx, data);
      wrIdx := wrIdx + |data|;
      l := Copied(l, data);
    }

    /** A piece of data that fits is copied into the block, which goes when it is full. */
    method FillPart(data: seq<Qword>)
      requires Valid() && SetUp(l.s) && availCnt > 0 && |data| > 0 && wrIdx + |data| <= wrBlk.Length1
      modifies this`availCnt, this`wrIdx, this`wrBlkIdx, this`wrPtr, this`wrQueIdx, this`l, wrQue, wrBlk
      ensures Valid() && old(l).tx.Valid()
      ensures l == Written(DoFill(old(l), data))
    {
      hide Valid, Overwrite, DataEvents, Link.Valid;
      ValidFields();
      CopyIn(data);
      Record(DataEvents(data), []);
      ValidFields();
      WrittenNothing(l);
      if wrIdx == wrBlk.Length1 {
        FlushBlk(0);
      }
    }

    /** Whether there is a credit; messages are polled when there is none. */
    method HasCredit() returns (ok: bool)
      requires Valid() && Ready(l)
      modifies this`availCnt, this`rdQueIdx, this`l, rdQue, msgQue, msgQue.que
      ensures Valid() && l == (if old(l).s.avail == 0 then PollAll(old(l)) else old(l))
      ensures ok <==> availCnt != 0
    {
      hide Valid, Ready, PollAll;
      ValidFields();
      if availCnt == 0 {
        QueMsgs();
      }
      ok := availCnt != 0;
    }

    /** As much of `data` as there are credits for; the number of quadwords sent. */
    method SendData(data: seq<Qword>) returns (cnt: nat)
      requires Valid() && Ready(l) && SetUp(l.s)
      modifies this, wrQue, wrBlk, rdQue, msgQue, msgQue.que
      ensures Valid()
      ensures l.tx.Valid() && old(l).tx.Valid() && old(l).s.sPos < old(l).tx.size && (l, cnt) == SendLoop(old(l), data)
    {
      hide Valid, Shape, Ready, Link.Valid, PollAll, DoFill, Written, SendLoop, SendsRest;
      SendFacts(l);
      RestDone(l, l, data);
      cnt := 0;
      while cnt < |data|
        invariant cnt <= |data| && Valid() && Ready(l) && SetUp(l.s)
        invariant l.tx.Valid() && l.s.sPos < l.tx.size
        invariant SendsRest(l, old(l), data, cnt)
      {
        RestStep(l, old(l), data, cnt);
        var ok := HasCredit();
        SendFacts(l);
        ValidFields();
        if !ok {
          return;
        }
        var n := Min(|data| - cnt, wrBlk.Length1 - wrIdx);
        FillPart(data[cnt..cnt + n]);
        ValidFields();
        cnt := cnt + n;
      }
      RestDone(l, old(l), data);
    }

    /** A user message, behind the data sent before it.  It goes as the word that is made of it, which
        is the message itself when type and data fit their bit fields. */
    method SendHostMsg(msgType: nat, msgData: nat)
      requires Valid() && Ready(l) && 16 <= msgType
      modifies this, wrQue
      ensures Valid()
      ensures l == Written(WithMsg(old(l), ToMsg(tx, NewWord(msgType, msgData)), HostMsg(msgType, msgData)))
      ensures msgType < TYPES && msgData < PAYLOADS ==> l == UserCall(old(l), msgType, msgData)
    {
      hide Valid, Ready, Link.Valid, ToMsg, NewWord, Latest;
      SendFacts(l);
      ValidFields();
      UserMessageIff(tx, msgType, msgData);
      FlushBlk(0);
      SendMsgInternal(msgType, msgData);
      Record([HostMsg(msgType, msgData)], []);
      LatestMore(old(l).tx.q, Flushed(old(l).s).box, [ToMsg(tx, NewWord(msgType, msgData))]);
    }

    /** A marker or the halt message; false when there is no block for it. */
    method SendControl(halt: bool) returns (ok: bool)
      requires Valid() && Ready(l) && SetUp(l.s)
      modifies this, wrQue, rdQue, msgQue, msgQue.que
      ensures Valid()
      ensures (l, ok) == ControlCall(old(l), if halt then HaltRdy else MarkRdy, if halt then Halt else Marker)
    {
      hide Valid, Ready, Link.Valid, Prepared, Written, DoControl;
      Prepare(1);
      SendFacts(l);
      ValidFields();
      if availCnt < 1 {
        return false;
      }
      FlushBlk(if halt then DQ_HALT else DQ_NULL);
      return true;
    }

    /** A started block goes; when fewer than `need` credits are left, messages are polled. */
    method Prepare(need: nat)
      requires Valid() && Ready(l)
      modifies this, wrQue, rdQue, msgQue, msgQue.que
      ensures Valid() && Ready(l) && wrIdx == 0 && l.s.seen == old(l).s.seen
      ensures l == Prepared(old(l), need)
    {
      hide Valid, Ready, Link.Valid, FlushCall, PollAll;
      SendFacts(l);
      ValidFields();
      PreparedReached(l, need);
      FlushBlk(0);
      ValidFields();
      if availCnt < need {
        QueMsgs();
      }
      ValidFields();
    }

    /** A call, or a return, with arguments that leave room in a block; false without two credits. */
    method SendCall(args: seq<Qword>) returns (ok: bool)
      requires Valid() && Ready(l) && SetUp(l.s) && |args| < wrBlk.Length1
      modifies this, wrQue, wrBlk, rdQue, msgQue, msgQue.que
      ensures Valid() && (l, ok) == CallCall(old(l), args)
    {
      hide Valid, Ready, Link.Valid, Prepared, Written, CallSent;
      SendFacts(l);
      Prepare(2);
      SendFacts(l);
      ValidFields();
      if availCnt < 2 {
        return false;
      }
      SendArgs(args);
      return true;
    }

    /** The call's own block, and the arguments in the next one, which goes behind the call's message. */
    method SendArgs(args: seq<Qword>)
      requires Valid() && SetUp(l.s) && l.tx.Valid() && availCnt >= 2 && wrIdx == 0 && |args| < wrBlk.Length1
      requires l.s.box == [] && !l.s.appIn
      modifies this, wrQue, wrBlk
      ensures Valid() && l == Written(CallSent(old(l), args))
    {
      hide Valid, Link.Valid, ToMsg, NewWord, CallMsgSent, CallSent;
      ValidFields();
      ArgsThenFlush(l, args);
      SendCallMsg(args);
      ValidFields();
      FlushBlk(0);
    }

    method SendCallMsg(args: seq<Qword>)
      requires Valid() && SetUp(l.s) && l.tx.Valid() && availCnt >= 2 && wrIdx == 0 && |args| < wrBlk.Length1
      modifies this, wrQue, wrBlk
      ensures Valid() && |args| <= old(l).tx.size && l == CallMsgSent(old(l), args)
      ensures SetUp(l.s) && availCnt == old(availCnt) - 1
    {
      hide Valid, Link.Valid, ToMsg, NewWord, Overwrite;
      ValidFields();
      NextBlk();
      ValidFields();
      CopyIn(args);
      ValidFields();
      BlockMessages(tx, |args|);
      SendMsgInternal(RdyCmd(tx), |args| * 8 + DQ_CALL);
      ValidFields();
      Record([Call(args)], []);
      ValidFields();
    }

    // ----------------------------------------------------------------------------------------
    // Receiving
    // ----------------------------------------------------------------------------------------

    /** The block being read is handed back. */
    method ReleaseBlk()
      requires Valid() && CanRead(l.s)
      modifies this`wrQueIdx, this`l, this`rdBlkIdx, this`rdPtr, this`rdIdx, wrQue
      ensures Valid() && l == Written(old(l).(s := Release(old(l).s)))
    {
      hide RingHolds, Rows, ToMsg, ToMsgs, NewWord, CQueue.Valid, CQueue.Contents, Told, AllRight, BlkAdr;
      AvlMessage(tx, rdBlkIdx);
      SendMsgInternal(AvlCmd(tx), rdBlkIdx);
      rdBlkIdx := rdBlkIdx + 1;
      rdPtr := BlkAdr(rdBase, rdSize, rdCnt, rdBlkIdx);
      rdIdx := 0;
      l := l.(s := l.s.(rIdx := rdBlkIdx, rPos := 0));
    }

    /** The front message goes, and what it stands for is received. */
    method PopFront(ghost evs: seq<Event>)
      requires Valid() && l.s.mque != [] && !l.s.mque[0].Note?
      modifies this`l, msgQue
      ensures Valid() && l == old(l).(s := old(l).s.(mque := old(l).s.mque[1..], rcvd := old(l).s.rcvd + evs))
    {
      hide RingHolds, Rows, ToMsg, ToMsgs, CQueue.Valid, CQueue.Contents, Told, AllRight;
      FrontTold();
      ToMsgsParts(rx, msgQue.Contents());
      msgQue.Pop();
      l := l.(s := l.s.(mque := l.s.mque[1..], rcvd := l.s.rcvd + evs));
    }

    lemma NoteTold()
      requires Valid() && l.s.mque != [] && l.s.mque[0].Note?
      ensures var m := l.s.mque[0];
        && Told(l.s.mque[1..], l.rx.q, l.s.seen + {m.msgType}) && Right(m, RdPlace(), WrPlace())
        && AllRight(l.s.mque[1..], RdPlace(), WrPlace())
        && (m.msgType in ALL_SEEN ==> m.msgType !in l.s.seen)
    {
      hide RingHolds, Rows, ToMsg, ToMsgs, CQueue.Valid, CQueue.Contents, Begins, Pending, AllRight, Right;
      FrontFirst(l.s, l.rx.q, []);
      FirstUnseen(l.s.seen);
      FrontGone(l.s, DoTakeNote(l).s, l.rx.q, []);
      RestRight(l.s.mque, RdPlace(), WrPlace());
    }

    /** A message with a block comes when the unit knows its blocks. */
    lemma FrontTold()
      requires Valid() && l.s.mque != [] && !l.s.mque[0].Note?
      ensures Told(l.s.mque[1..], l.rx.q, l.s.seen) && SetUp(l.s) && CanRead(l.s)
      ensures AllRight(l.s.mque[1..], RdPlace(), WrPlace())
    {
      hide RingHolds, Rows, ToMsg, ToMsgs, CQueue.Valid, CQueue.Contents, Begins, Pending, AllRight, Right;
      FrontGone(l.s, l.s.(mque := l.s.mque[1..]), l.rx.q, []);
      SetUpBeforeRead(l.s, l.rx.q, []);
      RestRight(l.s.mque, RdPlace(), WrPlace());
    }

    /** What a note tells about the blocks is kept. */
    method Learn(msgType: nat, msgData: nat)
      requires Sound()
      modifies this`rdBase, this`rdPtr, this`wrBase, this`wrPtr, this`rdSize, this`rdCnt, this`wrSize, this`wrCnt
      ensures Sound()
      ensures if msgType == IBLK_ADR then rdBase == rdPtr == msgData else unchanged(this`rdBase, this`rdPtr)
      ensures if msgType == OBLK_ADR then wrBase == wrPtr == msgData else unchanged(this`wrBase, this`wrPtr)
      ensures if msgType == IBLK_PARAM then rdSize == ParamSize(msgData) && rdCnt == ParamCnt(msgData)
              else unchanged(this`rdSize, this`rdCnt)
      ensures if msgType == OBLK_PARAM then wrSize == ParamSize(msgData) && wrCnt == ParamCnt(msgData)
              else unchanged(this`wrSize, this`wrCnt)
    {
      hide RingHolds, Rows, ToMsgs, CQueue.Valid, CQueue.Contents, ParamSize, ParamCnt;
      if msgType == IBLK_ADR {
        rdBase, rdPtr := msgData, msgData;
      } else if msgType == OBLK_ADR {
        wrBase, wrPtr := msgData, msgData;
      } else if msgType == IBLK_PARAM {
        rdSize, rdCnt := ParamSize(msgData), ParamCnt(msgData);
      } else if msgType == OBLK_PARAM {
        wrSize, wrCnt := ParamSize(msgData), ParamCnt(msgData);
      }
    }

    method PopNote()
      requires Sound() && l.s.mque != [] && l.s.mque[0].Note?
      modifies this`l, msgQue
      ensures Sound() && l == DoTakeNote(old(l))
    {
      hide RingHolds, Rows, ToMsg, ToMsgs, CQueue.Valid, CQueue.Contents;
      ToMsgsParts(rx, msgQue.Contents());
      msgQue.Pop();
      l := DoTakeNote(l);
    }

    /** The note at the front goes; if it tells about the blocks, that is kept. */
    method TakeNote(word: nat)
      requires Valid() && l.s.mque != [] && l.s.mque[0].Note? && ToMsg(rx, word) == l.s.mque[0]
      modifies this, msgQue
      ensures Valid() && l == DoTakeNote(old(l))
    {
      hide Sound, ToMsg, TypeOf, DataOf, Told, AllRight, ParamSize, ParamCnt, BlkAdr;
      WordTests(rx, word);
      NoteTold();
      FirstBlk(rdAdr, rdBlk.Length1, rdBlk.Length0);
      FirstBlk(wrAdr, wrBlk.Length1, wrBlk.Length0);
      Learn(TypeOf(word), DataOf(word));
      PopNote();
    }

    /** The front message goes and hands its block back. */
    method TakeBlk(ghost evs: seq<Event>)
      requires Valid()
      requires l.s.mque != [] && IsRdy(l.s.mque[0])
      modifies this`wrQueIdx, this`l, this`rdBlkIdx, this`rdPtr, this`rdIdx, wrQue, msgQue
      ensures Valid() && l == Written(DoTake(old(l), old(l).s.rArg, evs))
    {
      hide Valid;
      FrontTold();
      PopFront(evs);
      ReleaseBlk();
    }

    /** Messages are queued and notes dropped; the front of the queue decides. */
    method MsgLoop() returns (t: RecvType)
      requires Valid()
      modifies this, wrQue, rdQue, msgQue, msgQue.que
      ensures Valid() && (l, t) == HifCalls.MsgLoop(old(l))
    {
      hide Valid, PollAll, LookAtFront, ToMsg;
      QueMsgs();
      ghost var l1 := l;
      while true
        invariant Valid() && DropNotes(l) == DropNotes(l1)
        decreases |l.s.mque|
      {
        var empty, word := Front();
        if empty || !IsNoteWord(rx, word) {
          t := LookAtQueue();
          return;
        }
        ValidFields();
        TakeNote(word);
      }
    }

    /** The front of the message queue, if any. */
    method Front() returns (empty: bool, word: nat)
      requires Valid()
      ensures empty <==> l.s.mque == []
      ensures !empty ==> ToMsg(rx, word) == l.s.mque[0]
    {
      hide RingHolds, Rows, ToMsg, ToMsgs, CQueue.Valid, CQueue.Contents;
      ToMsgsParts(rx, msgQue.Contents());
      word := 0;
      empty := msgQue.IsEmpty();
      if !empty {
        word := msgQue.Front();
      }
    }

    /** What the message at the front says. */
    method LookAtQueue() returns (t: RecvType)
      requires Valid()
      modifies this, wrQue, msgQue
      ensures Valid() && (l, t) == LookAtFront(old(l))
    {
      hide RingHolds, Rows, ToMsg, ToMsgs, TypeOf, DataOf, CQueue.Valid, CQueue.Contents, DoTake, Written, Told, AllRight;
      var empty, word := Front();
      if empty {
        return RecvIdle;
      }
      WordTests(rx, word);
      var msgType, msgData := TypeOf(word), DataOf(word);
      if msgType == RdyCmd(rx) && msgData % 8 == DQ_NULL {
        return RecvMarker;
      } else if msgType == RdyCmd(rx) && msgData % 8 == 0 {
        if dataSize == 0 {
          dataSize := msgData / 8;
          l := l.(s := l.s.(rSize := dataSize));
        }
        return RecvHostData;
      } else if msgType == RdyCmd(rx) && msgData % 8 == DQ_CALL {
        // a call is only there when its arguments are
        var n := msgQue.Size();
        ToMsgsParts(rx, msgQue.Contents());
        return if msgData / 8 == 0 || n >= 2 then RecvCall else RecvIdle;
      } else if msgType == RdyCmd(rx) && msgData % 8 == DQ_HALT {
        TakeBlk([Halt]);
        return RecvHalt;
      }
      return if msgType >= 16 then RecvType.RecvHostMsg else RecvIdle;
    }

    /** `n` quadwords of the block at the front are read; it goes back when it is empty. */
    method ReadPart(n: nat) returns (chunk: seq<Qword>)
      requires Valid() && 0 < n <= dataSize && l.s.mque != [] && l.s.mque[0].DataRdy? && rdIdx + n <= rdBlk.Length1
      modifies this`wrQueIdx, this`l, this`rdBlkIdx, this`rdPtr, this`rdIdx, this`dataSize, wrQue, msgQue
      ensures Valid() && old(l).rx.Valid() && l == Written(DoTakeData(old(l), n))
      ensures chunk == old(l).rx.Block(old(l).s.rIdx)[old(l).s.rPos..old(l).s.rPos + n]
    {
      hide Valid, DataEvents, Link.Valid;
      ValidFields();
      FrontTold();
      chunk := ReadBlk(rdIdx, n);
      Advance(n, chunk);
      ValidFields();
      if dataSize == 0 {
        PopFront([]);
        ReleaseBlk();
        assert l.s.rcvd + [] == l.s.rcvd;
      } else {
        WrittenNothing(l);
      }
    }

    method ReadBlk(from: nat, n: nat) returns (chunk: seq<Qword>)
      requires Valid() && CanRead(l.s) && from + n <= rdBlk.Length1
      ensures l.rx.Valid() && chunk == l.rx.Block(l.s.rIdx)[from..from + n]
    {
      hide RingHolds, Rows, ToMsgs, CQueue.Valid, CQueue.Contents, Told, AllRight;
      ValidFields();
      RowAt(rdAdr, rdBlk.Length1, rdBlk.Length0, rdBlkIdx);
      chunk := ReadRow(rdBlk, RowOf(rdPtr, rdAdr, rdBlk.Length1), from, n);
    }

    method Advance(n: nat, ghost chunk: seq<Qword>)
      requires Valid() && n <= dataSize
      modifies this`l, this`rdIdx, this`dataSize
      ensures Valid()
      ensures l == old(l).(s := old(l).s.(rPos := old(l).s.rPos + n, rSize := old(l).s.rSize - n,
                                          rcvd := old(l).s.rcvd + DataEvents(chunk)))
    {
      hide RingHolds, Rows, ToMsgs, CQueue.Valid, CQueue.Contents, DataEvents, Told, AllRight;
      rdIdx := rdIdx + n;
      dataSize := dataSize - n;
      l := l.(s := l.s.(rPos := rdIdx, rSize := dataSize, rcvd := l.s.rcvd + DataEvents(chunk)));
    }

    /** Up to `want` quadwords of received data. */
    method RecvData(want: nat) returns (data: seq<Qword>)
      requires Valid() && Ready(l)
      modifies this, wrQue, rdQue, msgQue, msgQue.que
      ensures Valid() && (l, data) == RecvLoop(old(l), want)
    {
      hide Valid, Shape, Ready, Link.Valid, Link.Block, HifCalls.MsgLoop, DoTakeData, Written, RecvLoop;
      data := [];
      assert data + RecvLoop(l, want).1 == RecvLoop(l, want).1;
      while |data| < want
        invariant |data| <= want && Valid() && Ready(l)
        invariant var r := RecvLoop(l, want - |data|);
                  (r.0, data + r.1) == RecvLoop(old(l), want)
      {
        ValidFields();
        RecvFacts(l);
        RecvLoopStep(l, want - |data|);
        assert data + [] == data;
        if dataSize == 0 {
          var t := MsgLoop();
          if t != RecvHostData {
            return;
          }
          ValidFields();
          RecvFacts(l);
        }
        var n := Min(dataSize, want - |data|);
        var chunk := ReadPart(n);
        ghost var rest := RecvLoop(l, want - |data| - n);
        assert data + (chunk + rest.1) == (data + chunk) + rest.1;
        data := data + chunk;
      }
      RecvLoopStep(l, 0);
      assert data + [] == data;
    }

    method RecvHostMsg() returns (ok: bool, msgType: nat, msgData: nat)
      requires Valid() && Ready(l)
      modifies this, wrQue, rdQue, msgQue, msgQue.que
      ensures Valid() && (l, ok) == UserRecv(old(l))
      ensures ok ==> l.s.rcvd == old(l).s.rcvd + [HostMsg(msgType, msgData)]
    {
      hide Valid, Ready, Link.Valid, HifCalls.MsgLoop, ToMsg, TypeOf, DataOf;
      MsgLoopReady(l);
      MsgLoopRcvd(l);
      RecvFacts(l);
      ok, msgType, msgData := false, 0, 0;
      var t := MsgLoop();
      if t == RecvType.RecvHostMsg {
        var empty, word := Front();
        WordTests(rx, word);
        ok, msgType, msgData := true, TypeOf(word), DataOf(word);
        PopFront([HostMsg(msgType, msgData)]);
      }
    }

    method RecvHostDataMarker() returns (ok: bool)
      requires Valid() && Ready(l)
      modifies this, wrQue, rdQue, msgQue, msgQue.que
      ensures Valid() && (l, ok) == MarkerRecv(old(l))
    {
      hide Valid, Ready, Link.Valid, HifCalls.MsgLoop, DoTake, Written;
      ValidFields();
      if dataSize > 0 {
        return false;
      }
      MsgLoopReady(l);
      RecvFacts(l);
      var t := MsgLoop();
      RecvFacts(l);
      if t != RecvMarker {
        return false;
      }
      TakeBlk([Marker]);
      return true;
    }

    /** A call, or a return, with its arguments.  The caller allows for `want` quadwords; as many are
        copied from the block, and the first ones are the arguments. */
    method RecvCallArgs(want: nat) returns (ok: bool, argc: nat, args: seq<Qword>)
      requires Valid() && Ready(l) && want <= rdBlk.Length1
      requires var (l1, t) := HifCalls.MsgLoop(l);
               t == RecvCall && l1.s.mque != [] && l1.s.mque[0].CallRdy? ==> l1.s.mque[0].argc <= want
      modifies this, wrQue, rdQue, msgQue, msgQue.que
      ensures Valid() && argc <= |args| && (l, ok, args[..argc]) == CallRecv(old(l))
      ensures argc > 0 ==> l.rx.Valid() && |args| == want && l.s.rIdx > 0 && args == l.rx.Block(l.s.rIdx - 1)[..want]
    {
      hide Valid, Ready, Link.Valid, Link.Block, HifCalls.MsgLoop, ToMsg, TypeOf, DataOf;
      ValidFields();
      MsgLoopReady(l);
      RecvFacts(l);
      ok, argc, args := false, 0, [];
      var t := MsgLoop();
      if t != RecvCall {
        return;
      }
      ok := true;
      RecvFacts(l);
      var empty, word := Front();
      WordTests(rx, word);
      ValidFields();
      argc := DataOf(word) / 8;
      args := TakeCallArgs(argc, want);
      ValidFields();
      if argc > 0 {
        assert l.rx.Block(l.s.rIdx - 1)[..want][..argc] == l.rx.Block(l.s.rIdx - 1)[..argc];
      }
    }

    /** The call's block goes back, and then the one with its `argc` arguments. */
    method TakeCallArgs(argc: nat, want: nat) returns (args: seq<Qword>)
      requires Valid() && l.s.mque != [] && l.s.mque[0] == CallRdy(argc)
      requires argc < rdBlk.Length1 && argc <= want <= rdBlk.Length1 && l.s.rArg == 0
      requires argc > 0 ==> |l.s.mque| > 1 && l.s.mque[1] == DataRdy(argc)
      modifies this, wrQue, msgQue
      ensures Valid() && old(l).rx.Valid()
      ensures argc == 0 ==> args == [] && l == Written(DoTake(old(l), 0, [Call([])]))
      ensures argc > 0 ==>
        var l2 := Written(DoTake(old(l), argc, []));
        && |args| == want && args == l2.rx.Block(l2.s.rIdx)[..want]
        && l == Written(DoTake(l2, 0, [Call(args[..argc])]))
    {
      hide Valid, Link.Valid, Link.Block;
      ValidFields();
      args := [];
      FrontTold();
      SetArgc(argc);
      ValidFields();
      TakeBlk(if argc == 0 then [Call([])] else []);
      ValidFields();
      if argc > 0 {
        args := ReadBlk(0, want);
        SetArgc(0);
        ValidFields();
        TakeBlk([Call(args[..argc])]);
      }
    }

    method SetArgc(argc: nat)
      requires Valid()
      modifies this`l, this`rtnArgc
      ensures Valid() && l == old(l).(s := old(l).s.(rArg := argc))
    {
      hide RingHolds, Rows, ToMsgs, CQueue.Valid, CQueue.Contents, Told, AllRight;
      rtnArgc := argc;
      l := l.(s := l.s.(rArg := argc));
    }
  }

  lemma GoodWidths(sizeW: nat, cntW: nat)
    requires 16 <= sizeW <= 25 && 4 <= cntW <= 6
    ensures Pow2(cntW) in {16, 32, 64} && 0x2000 <= Pow2(sizeW - 3) <= 0x40_0000
  {
    assert Pow2(4) == 16 && Pow2(5) == 32 && Pow2(6) == 64;
    assert Pow2(8) == 256;
    assert Pow2(13) == 0x2000 && Pow2(14) == 0x4000 && Pow2(15) == 0x8000 && Pow2(16) == 0x1_0000;
    assert Pow2(17) == 0x2_0000 && Pow2(18) == 0x4_0000 && Pow2(19) == 0x8_0000 && Pow2(20) == 0x10_0000;
    assert Pow2(21) == 0x20_0000 && Pow2(22) == 0x40_0000;
  }

  /** The first messages are right when the parameters are. */
  lemma FirstRight(n: nat, params: seq<nat>, timer: nat, flush: seq<Msg>, rd: Place, wr: Place)
    requires |params| == 4 && FlushMsgs(flush)
    requires params[0] == rd.adr && params[1] == wr.adr
    requires ParamSize(params[2]) == rd.size && ParamCnt(params[2]) == rd.cnt
    requires ParamSize(params[3]) == wr.size && ParamCnt(params[3]) == wr.cnt
    ensures AllRight(FirstMsgs(n, params, timer, flush), rd, wr)
  {
  }

  /** A host unit is made on cleared rings, and a coprocessor unit on the other ends of the same
      rings and blocks: together they are a start of the protocol. */
  method Start(inQue: array<nat>, outQue: array<nat>, inBlk: array2<Qword>, outBlk: array2<Qword>,
               inAdr: nat, outAdr: nat, inSizeW: nat, inCntW: nat, outSizeW: nat, outCntW: nat, outTimer: nat,
               timer: nat, needFlush: bool, flushAdr: nat)
    returns (host: Unit, cop: Unit)
    requires inQue != outQue && inBlk != outBlk
    requires inQue.Length == RING_SLOTS && (forall i :: 0 <= i < RING_SLOTS ==> inQue[i] == 0)
    requires outQue.Length == RING_SLOTS && (forall i :: 0 <= i < RING_SLOTS ==> outQue[i] == 0)
    requires 16 <= inSizeW <= 25 && 4 <= inCntW <= 6 && 16 <= outSizeW <= 25 && 4 <= outCntW <= 6
    requires inBlk.Length0 == Pow2(inCntW) && inBlk.Length1 == Pow2(inSizeW - 3)
    requires outBlk.Length0 == Pow2(outCntW) && outBlk.Length1 == Pow2(outSizeW - 3)
    requires inAdr < PAYLOADS && outAdr < PAYLOADS && outTimer < 0x1_0000_0000
    modifies inQue, outQue
    ensures host.Valid() && cop.Valid()
    ensures host.wrQue == cop.rdQue && host.rdQue == cop.wrQue && host.wrBlk == cop.rdBlk && host.rdBlk == cop.wrBlk
    ensures host.wrAdr == cop.rdAdr == inAdr && host.rdAdr == cop.wrAdr == outAdr
    ensures host.l == View(Sys(host.l.s, cop.l.s, host.l.tx, cop.l.tx), true)
    ensures cop.l == View(Sys(host.l.s, cop.l.s, host.l.tx, cop.l.tx), false)
    ensures Init(Sys(host.l.s, cop.l.s, host.l.tx, cop.l.tx))
  {
    hide Rows, ToMsg, ToMsgs, CQueue.Valid, CQueue.Contents, FirstMsgs, Told, AllRight, ParamSize, ParamCnt, ParamWord,
      Pow2, Init, IsFirst;
    GoodWidths(inSizeW, inCntW);
    GoodWidths(outSizeW, outCntW);
    ParamFields(inSizeW, inCntW, 0);
    ParamFields(outSizeW, outCntW, outTimer);
    var params := [inAdr, outAdr, ParamWord(inSizeW, inCntW, 0), ParamWord(outSizeW, outCntW, outTimer)];
    assert FirstParams(params) == params;
    NothingTold(Place(outAdr, outBlk.Length1, outBlk.Length0), Place(inAdr, inBlk.Length1, inBlk.Length0));
    host := new Unit(true, inQue, outQue, inBlk, outBlk, inAdr, outAdr, [], params, timer, needFlush, flushAdr);
    host.ValidFields();
    ghost var rd, wr := Place(inAdr, inBlk.Length1, inBlk.Length0), Place(outAdr, outBlk.Length1, outBlk.Length0);
    FirstTold(host.l.tx, outBlk.Length0, params, timer % PAYLOADS, rd, wr);
    cop := new Unit(false, outQue, inQue, outBlk, inBlk, outAdr, inAdr, host.l.tx.q, params, timer, needFlush, flushAdr);
    cop.ValidFields();
    StartIsInit(Sys(host.l.s, cop.l.s, host.l.tx, cop.l.tx), params, timer % PAYLOADS);
  }

  lemma StartIsInit(y: Sys, params: seq<nat>, timer: nat)
    requires y.Valid() && GoodParams(|y.inn.blks|, y.inn.size, |y.out.blks|, y.out.size)
    requires y.host == Side([], |y.inn.blks|, 0, 0, [], 0, 0, 0, 0, [], [], false, ALL_SEEN)
    requires y.cop == Side([], 0, 0, 0, [], 0, 0, 0, 0, [], [], false, {})
    requires y.out.q == [] && |params| == 4 && IsFirst(y.inn.q, |y.out.blks|, params, timer)
    ensures Init(y)
  {
  }

  lemma NothingTold(rd: Place, wr: Place)
    ensures Told([], [], ALL_SEEN) && AllRight([], rd, wr)
  {
    PendingLess(ALL_SEEN, 0);
  }

  lemma FirstTold(tx: Link, n: nat, p: seq<nat>, timer: nat, rd: Place, wr: Place)
    requires |p| == 4 && tx.Valid() && IsFirst(tx.q, n, p, timer)
    requires p[0] == rd.adr && p[1] == wr.adr
    requires ParamSize(p[2]) == rd.size && ParamCnt(p[2]) == rd.cnt
    requires ParamSize(p[3]) == wr.size && ParamCnt(p[3]) == wr.cnt
    ensures Told([], tx.q, {}) && AllRight(tx.q, rd, wr)
  {
    hide ParamSize, ParamCnt, FirstMsgs, Strip, Begins;
    var flush :| FlushMsgs(flush) && tx.q == FirstMsgs(n, p, timer, flush);
    FirstMessages(n, p, timer, flush, tx);
    FirstRight(n, p, timer, flush, rd, wr);
    assert [] + Strip(tx.q) == Strip(tx.q);
    assert Pending({}) == [IBLK_ADR, OBLK_ADR, IBLK_PARAM, OBLK_PARAM];
  }
}
