/** The host/coprocessor interface as a state machine on values.

    Two units talk through two links, one in each direction.  A link carries a ring of control
    messages and an array of data blocks.  A unit is run by several threads (the application's
    thread and a flush timer); everything one thread does while it holds the unit's lock is one
    action here, except that every copy of a control message into a ring slot is an action of its
    own: the messages of a locked section wait in `box`, and no other thread gets the lock
    before the box is empty.  The thread whose messages wait does nothing else meanwhile: `appIn`
    tells the application's thread from the timer's, which does nothing but flush.  An
    interleaving of the threads is a sequence of actions. */
module HifProtocol {

  type Qword = x: int | 0 <= x < 0x1_0000_0000_0000_0000

  /** What an application sends and what it receives, in order. */
  datatype Event =
    | Data(q: Qword)
    | HostMsg(msgType: nat, msgData: nat)
    | Marker
    | Call(args: seq<Qword>)
    | Halt

  /** Control messages.  The first four hand a data block over (xBLK_RDY with the four values of
      the low bits), Avl hands one back (xBLK_AVL), User is an application message and Note
      one that the receive loop takes by itself: the addresses and parameters of the blocks, which
      set the coprocessor's unit up, and others, which are dropped. */
  datatype Msg =
    | DataRdy(size: nat)
    | MarkRdy
    | CallRdy(argc: nat)
    | HaltRdy
    | Avl
    | User(msgType: nat, msgData: nat)
    | Note(msgType: nat, msgData: nat)

  predicate IsRdy(m: Msg) { m.DataRdy? || m.MarkRdy? || m.CallRdy? || m.HaltRdy? }

  /** The types of messages and their data: the bit fields have 7 and 56 bits. */
  const TYPES: nat := 128
  const PAYLOADS: nat := 0x100_0000_0000_0000

  /** The messages that tell the coprocessor's unit where the blocks are and how large, and reports
      of failed assertions, which are the only notes sent later. */
  const IBLK_ADR: nat := 1
  const OBLK_ADR: nat := 2
  const IBLK_PARAM: nat := 3
  const OBLK_PARAM: nat := 4
  const FLSH_ADR: nat := 7
  const ASSERT: nat := 10
  const ASSERT_COLL: nat := 11

  /** Slots of a control ring, and the capacity of the queue that a unit fills from it. */
  const RING_SLOTS: nat := 512
  const QUE_CAPACITY: nat := 511

  /** One direction: the messages copied into the ring and not yet cleared, and the data blocks. */
  datatype Link = Link(q: seq<Msg>, blks: seq<seq<Qword>>, size: nat) {
    predicate Valid() {
      && 2 <= |blks|
      && 1 <= size
      && forall i :: 0 <= i < |blks| ==> |blks[i]| == size
    }

    function Block(i: nat): (b: seq<Qword>)
      requires Valid()
      ensures |b| == size
    {
      blks[i % |blks|]
    }
  }

  /** One unit.  `avail`, `sIdx`, `sPos` belong to the block being filled; `mque`, `rIdx`, `rPos`,
      `rSize` to the block being read; `rArg` is the size of the argument block that must follow
      a call whose message was already taken.  `sent` and `rcvd` record the events.  `appIn` says that
      the application's thread waits inside a call: the box is its own, or it wants the lock.  `seen`
      are the types of the notes taken; a host's unit knows its blocks from the start. */
  datatype Side = Side(
    box: seq<Msg>, avail: int, sIdx: nat, sPos: nat,
    mque: seq<Msg>, rIdx: nat, rSize: nat, rPos: nat, rArg: nat,
    sent: seq<Event>, rcvd: seq<Event>, appIn: bool, seen: set<nat>)

  /** What one unit can see: its own fields, the link it writes and the link it reads. */
  datatype Local = Local(s: Side, tx: Link, rx: Link)

  /** Tick is the timer's flush, and WaitLock a call that finds the lock taken by the timer; but for
      these and WriteSlot, all actions are the application's. */
  datatype Action =
    | Fill(data: seq<Qword>)
    | Flush
    | SendUser(msgType: nat, msgData: nat)
    | SendNote(msgType: nat, msgData: nat)
    | SendMark
    | SendHalt
    | SendCall(args: seq<Qword>)
    | WriteSlot
    | Poll
    | SeeData
    | TakeData(n: nat)
    | TakeUser
    | TakeNote
    | TakeMark
    | TakeHalt
    | TakeCall
    | TakeArgs
    | Tick
    | WaitLock

  function DataEvents(d: seq<Qword>): (r: seq<Event>)
    ensures |r| == |d|
  {
    seq(|d|, i requires 0 <= i < |d| => Data(d[i]))
  }

  /** `new` written into block `b` from position `p` on. */
  function Overwrite(b: seq<Qword>, p: nat, data: seq<Qword>): (r: seq<Qword>)
    requires p + |data| <= |b|
    ensures |r| == |b|
  {
    b[..p] + data + b[p + |data|..]
  }

  /** The block being filled is handed over with message `m`. */
  function NextBlk(s: Side, m: Msg): Side {
    s.(avail := s.avail - 1, sIdx := s.sIdx + 1, sPos := 0, box := s.box + [m])
  }

  /** A started block is handed over; an empty one is kept. */
  function Flushed(s: Side): Side {
    if s.sPos == 0 then s else NextBlk(s, DataRdy(s.sPos))
  }

  /** The block being read is handed back. */
  function Release(s: Side): Side {
    s.(rIdx := s.rIdx + 1, rPos := 0, box := s.box + [Avl])
  }

  /** Data copied into the block being filled, which is handed over when it is full. */
  function DoFill(l: Local, data: seq<Qword>): Local
    requires l.tx.Valid() && l.s.sPos + |data| <= l.tx.size
  {
    var i := l.s.sIdx % |l.tx.blks|;
    var s1 := l.s.(sPos := l.s.sPos + |data|, sent := l.s.sent + DataEvents(data));
    l.(s := if s1.sPos == l.tx.size then Flushed(s1) else s1,
       tx := l.tx.(blks := l.tx.blks[i := Overwrite(l.tx.blks[i], l.s.sPos, data)]))
  }

  /** The loop that copies data into blocks as long as there is a credit; also the number of
      quadwords copied. */
  function FillLoop(l: Local, data: seq<Qword>): (r: (Local, nat))
    requires l.tx.Valid() && l.s.sPos < l.tx.size
    ensures r.0.tx.Valid() && r.0.tx.size == l.tx.size && |r.0.tx.blks| == |l.tx.blks|
    ensures r.0.s.sPos < l.tx.size && r.1 <= |data|
    ensures r.0.rx == l.rx && r.0.tx.q == l.tx.q
    decreases |data|
  {
    if data == [] || l.s.avail <= 0 then (l, 0)
    else
      var n := if |data| < l.tx.size - l.s.sPos then |data| else l.tx.size - l.s.sPos;
      var r := FillLoop(DoFill(l, data[..n]), data[n..]);
      (r.0, n + r.1)
  }

  /** A call sent when no block is started: an empty block goes with the call message, and the
      arguments are put into the next block.  A block that they fill is handed over at once,
      before the call message. */
  function CallSent(l: Local, args: seq<Qword>): (r: Local)
    requires l.tx.Valid() && l.s.sPos == 0
    ensures r.tx.Valid() && r.tx.size == l.tx.size && |r.tx.blks| == |l.tx.blks|
    ensures r.rx == l.rx && r.tx.q == l.tx.q
  {
    var l1 := l.(s := l.s.(avail := l.s.avail - 1, sIdx := l.s.sIdx + 1));
    var l2 := FillLoop(l1, args).0;
    l2.(s := Flushed(l2.s.(box := l2.s.box + [CallRdy(|args|)], sent := l.s.sent + [Call(args)])))
  }

  /** All arguments find room in the blocks that are available. */
  predicate ArgsFit(l: Local, args: seq<Qword>)
    requires l.tx.Valid() && l.s.sPos == 0
  {
    FillLoop(l.(s := l.s.(avail := l.s.avail - 1, sIdx := l.s.sIdx + 1)), args).1 == |args|
  }

  /** The application's thread is not inside a call. */
  predicate AppFree(s: Side) { s.box == [] || !s.appIn }

  /** A unit knows the address and the size of the blocks it fills. */
  predicate SetUp(s: Side) { OBLK_ADR in s.seen && OBLK_PARAM in s.seen }

  /** It knows those of the blocks it reads. */
  predicate CanRead(s: Side) { IBLK_ADR in s.seen && IBLK_PARAM in s.seen }

  /** Data is put into a block, or a new block is begun. */
  predicate Uses(a: Action) { a.Fill? || a.SendMark? || a.SendHalt? || a.SendCall? }

  /** What the code lets a thread do. */
  predicate Startable(l: Local, a: Action)
    requires l.tx.Valid() && l.rx.Valid()
  {
    (a.WriteSlot? || a.Tick? || AppFree(l.s)) && Allowed(l, a)
  }

  /** What a thread may do: its application uses blocks only when the unit was set up.  The code leaves
      this to the application; HifSetup shows what happens otherwise. */
  predicate Enabled(l: Local, a: Action): (e: bool)
    requires l.tx.Valid() && l.rx.Valid()
    ensures e ==> Startable(l, a)
  {
    Startable(l, a) && (Uses(a) ==> SetUp(l.s))
  }

  /** What a thread that is not waiting may do.  `box == []` says that the lock is free.  User
      messages must fit their bit fields.  Nothing here keeps a block from being handed over without
      a credit: that this never happens is proved. */
  predicate Allowed(l: Local, a: Action)
    requires l.tx.Valid() && l.rx.Valid()
  {
    match a
    case Fill(data) => l.s.box == [] && l.s.avail > 0 && |data| > 0 && l.s.sPos + |data| <= l.tx.size
    case Flush => l.s.box == []
    case SendUser(t, d) => l.s.box == [] && 16 <= t < TYPES && d < PAYLOADS
    case SendNote(t, d) => l.s.box == [] && t in {ASSERT, ASSERT_COLL}
    case SendMark => l.s.box == [] && Flushed(l.s).avail >= 1
    case SendHalt => l.s.box == [] && Flushed(l.s).avail >= 1
    case SendCall(args) => l.s.box == [] && Flushed(l.s).avail >= 2 && ArgsFit(l.(s := Flushed(l.s)), args)
    case WriteSlot => l.s.box != [] && |l.tx.q| < RING_SLOTS
    case Poll => l.rx.q != [] && |l.s.mque| < QUE_CAPACITY && (l.rx.q[0].Avl? ==> l.s.box == [])
    case SeeData => l.s.mque != [] && l.s.mque[0].DataRdy? && l.s.rSize == 0 && l.s.rArg == 0
    case TakeData(n) => 0 < n <= l.s.rSize && l.s.mque != [] && l.s.mque[0].DataRdy?
                        && l.s.rPos + n <= l.rx.size && (n == l.s.rSize ==> l.s.box == [])
    case TakeUser => l.s.mque != [] && l.s.mque[0].User?
    case TakeNote => l.s.mque != [] && l.s.mque[0].Note?
    case TakeMark => l.s.mque != [] && l.s.mque[0].MarkRdy? && l.s.box == []
    case TakeHalt => l.s.mque != [] && l.s.mque[0].HaltRdy? && l.s.box == []
    case TakeCall => l.s.mque != [] && l.s.mque[0].CallRdy? && l.s.box == []
                     && (l.s.mque[0].argc > 0 ==> |l.s.mque| >= 2)
    case TakeArgs => l.s.rArg > 0 && l.s.mque != [] && l.s.mque[0].DataRdy?
                     && l.s.rArg <= l.rx.size && l.s.box == []
    case Tick => l.s.box == []
    case WaitLock => l.s.box != []
  }

  /** A user message, behind the data sent before it. */
  function DoUser(l: Local, t: nat, d: nat): Local {
    var s1 := Flushed(l.s);
    l.(s := s1.(box := s1.box + [User(t, d)], sent := s1.sent + [HostMsg(t, d)]))
  }

  /** A marker or a halt, which takes an empty block. */
  function DoControl(l: Local, m: Msg, e: Event): Local {
    l.(s := NextBlk(Flushed(l.s), m).(sent := l.s.sent + [e]))
  }

  function DoWriteSlot(l: Local): Local
    requires l.s.box != []
  {
    l.(s := l.s.(box := l.s.box[1..]), tx := l.tx.(q := l.tx.q + [l.s.box[0]]))
  }

  /** The oldest message of the ring: a credit is counted, anything else is queued. */
  function DoPoll(l: Local): Local
    requires l.rx.q != []
  {
    l.(s := if l.rx.q[0].Avl? then l.s.(avail := l.s.avail + 1) else l.s.(mque := l.s.mque + [l.rx.q[0]]),
       rx := l.rx.(q := l.rx.q[1..]))
  }

  /** `n` quadwords read from the block at the front, which is handed back when it is empty. */
  function DoTakeData(l: Local, n: nat): Local
    requires l.rx.Valid() && n <= l.s.rSize && l.s.mque != [] && l.s.rPos + n <= l.rx.size
  {
    var s1 := l.s.(rcvd := l.s.rcvd + DataEvents(l.rx.Block(l.s.rIdx)[l.s.rPos..l.s.rPos + n]),
                   rPos := l.s.rPos + n, rSize := l.s.rSize - n);
    l.(s := if s1.rSize == 0 then Release(s1.(mque := s1.mque[1..])) else s1)
  }

  /** The front message goes; a message that came with a block hands it back. */
  function DoTake(l: Local, rArg: nat, evs: seq<Event>): Local
    requires l.s.mque != []
  {
    var s1 := l.s.(mque := l.s.mque[1..], rArg := rArg, rcvd := l.s.rcvd + evs);
    l.(s := if IsRdy(l.s.mque[0]) then Release(s1) else s1)
  }

  /** A note is taken, and what it says is known from now on. */
  function DoTakeNote(l: Local): Local
    requires l.s.mque != [] && l.s.mque[0].Note?
  {
    l.(s := l.s.(mque := l.s.mque[1..], seen := l.s.seen + {l.s.mque[0].msgType}))
  }

  /** Whether the application's thread is inside a call after an action whose messages wait. */
  predicate AppStays(s: Side, a: Action) {
    match a
    case WriteSlot => s.appIn
    case Tick => false
    case WaitLock => true
    case _ => s.box == []
  }

  function Apply(l: Local, a: Action): (r: Local)
    requires l.tx.Valid() && l.rx.Valid() && Startable(l, a)
    ensures r.tx.Valid() && r.rx.Valid()
    ensures r.tx.size == l.tx.size && r.rx.size == l.rx.size
    ensures |r.tx.blks| == |l.tx.blks| && r.rx.blks == l.rx.blks
  {
    var m := Effect(l, a);
    m.(s := m.s.(appIn := m.s.box != [] && AppStays(l.s, a)))
  }

  function Effect(l: Local, a: Action): (r: Local)
    requires l.tx.Valid() && l.rx.Valid() && Allowed(l, a)
    ensures r.tx.Valid() && r.rx.Valid()
    ensures r.tx.size == l.tx.size && r.rx.size == l.rx.size
    ensures |r.tx.blks| == |l.tx.blks| && r.rx.blks == l.rx.blks
  {
    match a
    case Fill(data) => DoFill(l, data)
    case Flush => l.(s := Flushed(l.s))
    case SendUser(t, d) => DoUser(l, t, d)
    case SendNote(t, d) => l.(s := l.s.(box := l.s.box + [Note(t, d)]))
    case SendMark => DoControl(l, MarkRdy, Marker)
    case SendHalt => DoControl(l, HaltRdy, Halt)
    case SendCall(args) => CallSent(l.(s := Flushed(l.s)), args)
    case WriteSlot => DoWriteSlot(l)
    case Poll => DoPoll(l)
    case SeeData => l.(s := l.s.(rSize := l.s.mque[0].size))
    case TakeData(n) => DoTakeData(l, n)
    case TakeUser => DoTake(l, l.s.rArg, [HostMsg(l.s.mque[0].msgType, l.s.mque[0].msgData)])
    case TakeNote => DoTakeNote(l)
    case TakeMark => DoTake(l, l.s.rArg, [Marker])
    case TakeHalt => DoTake(l, l.s.rArg, [Halt])
    case TakeCall => DoTake(l, l.s.mque[0].argc, if l.s.mque[0].argc == 0 then [Call([])] else [])
    case TakeArgs => DoTake(l, 0, [Call(l.rx.Block(l.s.rIdx)[..l.s.rArg])])
    case Tick => l.(s := Flushed(l.s))
    case WaitLock => l
  }

  // ------------------------------------------------------------------------------------------
  // Both units together
  // ------------------------------------------------------------------------------------------

  datatype Sys = Sys(host: Side, cop: Side, inn: Link, out: Link) {
    predicate Valid() { inn.Valid() && out.Valid() }
  }

  datatype Step = Step(byHost: bool, act: Action)

  function View(y: Sys, byHost: bool): Local {
    if byHost then Local(y.host, y.inn, y.out) else Local(y.cop, y.out, y.inn)
  }

  predicate StepStartable(y: Sys, t: Step)
    requires y.Valid()
  {
    Startable(View(y, t.byHost), t.act)
  }

  predicate StepEnabled(y: Sys, t: Step): (e: bool)
    requires y.Valid()
    ensures e ==> StepStartable(y, t)
  {
    Enabled(View(y, t.byHost), t.act)
  }

  function StepApply(y: Sys, t: Step): (r: Sys)
    requires y.Valid() && StepStartable(y, t)
    ensures r.Valid()
  {
    var l := Apply(View(y, t.byHost), t.act);
    if t.byHost then y.(host := l.s, inn := l.tx, out := l.rx)
    else y.(cop := l.s, out := l.tx, inn := l.rx)
  }

  /** `ts` is a run from `y`: each step is one that a thread may take in the state reached. */
  predicate IsRun(y: Sys, ts: seq<Step>)
    requires y.Valid()
    decreases |ts|
  {
    ts == [] || (StepEnabled(y, ts[0]) && IsRun(StepApply(y, ts[0]), ts[1..]))
  }

  /** The arguments of every call are smaller than a block of the link they go over. */
  predicate CallsFit(y: Sys, ts: seq<Step>) {
    forall i :: 0 <= i < |ts| && ts[i].act.SendCall? ==>
      |ts[i].act.args| < (if ts[i].byHost then y.inn.size else y.out.size)
  }

  function RunApply(y: Sys, ts: seq<Step>): (r: Sys)
    requires y.Valid() && IsRun(y, ts)
    ensures r.Valid()
    decreases |ts|
  {
    if ts == [] then y else RunApply(StepApply(y, ts[0]), ts[1..])
  }

  // ------------------------------------------------------------------------------------------
  // Start
  // ------------------------------------------------------------------------------------------

  /** The numbers of blocks and their sizes in quadwords, as the library's constructor accepts
      them: 16 to 64 blocks of 64 KB to 32 MB in each direction. */
  predicate GoodParams(iCnt: nat, iSize: nat, oCnt: nat, oSize: nat) {
    && iCnt in {16, 32, 64} && oCnt in {16, 32, 64}
    && 0x2000 <= iSize <= 0x40_0000 && 0x2000 <= oSize <= 0x40_0000
  }

  function AvlMsgs(n: nat): (r: seq<Msg>)
    ensures |r| == n
    ensures forall i :: 0 <= i < n ==> r[i].Avl?
  {
    if n == 0 then [] else AvlMsgs(n - 1) + [Avl]
  }

  /** The messages of a newly made host unit: block addresses and sizes (`params`), one AVL message
      for each outbound block, the control timer and, on some platforms, the flush address. */
  function FirstMsgs(oCnt: nat, params: seq<nat>, timer: nat, flush: seq<Msg>): seq<Msg>
    requires |params| == 4
  {
    [Note(IBLK_ADR, params[0]), Note(OBLK_ADR, params[1]), Note(IBLK_PARAM, params[2]), Note(OBLK_PARAM, params[3])]
    + AvlMsgs(oCnt) + [Note(0, timer)] + flush
  }

  predicate FlushMsgs(flush: seq<Msg>) {
    flush == [] || (|flush| == 1 && flush[0].Note? && flush[0].msgType == FLSH_ADR)
  }

  const ALL_SEEN: set<nat> := {IBLK_ADR, OBLK_ADR, IBLK_PARAM, OBLK_PARAM}

  ghost predicate Init(y: Sys) {
    && y.Valid()
    && GoodParams(|y.inn.blks|, y.inn.size, |y.out.blks|, y.out.size)
    && y.host == Side([], |y.inn.blks|, 0, 0, [], 0, 0, 0, 0, [], [], false, ALL_SEEN)
    && y.cop == Side([], 0, 0, 0, [], 0, 0, 0, 0, [], [], false, {})
    && y.out.q == []
    && exists params, timer, flush ::
         && |params| == 4 && FlushMsgs(flush)
         && y.inn.q == FirstMsgs(|y.out.blks|, params, timer, flush)
  }
}
