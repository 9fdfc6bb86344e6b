/** How a unit comes to know its blocks: the messages that set it up come first, in their order, and
    come only once.  The receive loop takes them all before it takes anything else. */
module HifNotes {
  import opened HifProtocol
  import opened HifSafety

  predicate SetsUp(m: Msg) { m.Note? && m.msgType in ALL_SEEN }

  /** The types of the set-up messages that were not taken. */
  function Pending(seen: set<nat>): (p: seq<nat>)
    ensures |p| <= 4
  {
    (if IBLK_ADR in seen then [] else [IBLK_ADR]) + (if OBLK_ADR in seen then [] else [OBLK_ADR])
    + (if IBLK_PARAM in seen then [] else [IBLK_PARAM]) + (if OBLK_PARAM in seen then [] else [OBLK_PARAM])
  }

  lemma PendingLess(seen: set<nat>, t: nat)
    ensures Pending(seen) != [] && t == Pending(seen)[0] ==> Pending(seen + {t}) == Pending(seen)[1..]
    ensures t !in ALL_SEEN ==> Pending(seen + {t}) == Pending(seen)
    ensures Pending(seen) == [] <==> ALL_SEEN <= seen
    ensures Pending(seen) == [] ==> Pending(seen + {t}) == []
  {
    var p := Pending(seen);
    if p != [] && t == p[0] {
      var a := if IBLK_ADR in seen then [] else [IBLK_ADR];
      var b := if OBLK_ADR in seen then [] else [OBLK_ADR];
      var c := if IBLK_PARAM in seen then [] else [IBLK_PARAM];
      var d := if OBLK_PARAM in seen then [] else [OBLK_PARAM];
      assert p == a + (b + (c + d));
    }
  }

  lemma FirstUnseen(seen: set<nat>)
    ensures Pending(seen) != [] ==> Pending(seen)[0] !in seen
  {
  }

  /** The messages begin with notes of the types `p`, and no others set the unit up. */
  predicate Begins(items: seq<Msg>, p: seq<nat>) {
    && |p| <= |items|
    && (forall i :: 0 <= i < |p| ==> items[i].Note? && items[i].msgType == p[i])
    && (forall i :: |p| <= i < |items| ==> !SetsUp(items[i]))
  }

  predicate Plain(box: seq<Msg>) {
    forall i :: 0 <= i < |box| ==> !SetsUp(box[i])
  }

  /** What is missing comes first, in the queue of unit `s` or in the ring `q` that it reads; the other
      unit's box holds nothing of it. */
  predicate Announced(s: Side, q: seq<Msg>, box: seq<Msg>) {
    Told(s.mque, q, s.seen) && Plain(box)
  }

  predicate Told(mque: seq<Msg>, q: seq<Msg>, seen: set<nat>) {
    Begins(mque + Strip(q), Pending(seen))
  }

  lemma FrontFirst(s: Side, q: seq<Msg>, box: seq<Msg>)
    requires Announced(s, q, box) && s.mque != []
    ensures Pending(s.seen) != [] ==> s.mque[0].Note? && s.mque[0].msgType == Pending(s.seen)[0]
    ensures Pending(s.seen) == [] ==> !SetsUp(s.mque[0])
    ensures s.mque[1..] + Strip(q) == (s.mque + Strip(q))[1..]
  {
    hide Strip, Pending;
    assert (s.mque + Strip(q))[0] == s.mque[0];
  }

  /** A unit reads nothing from a block before it knows both kinds of blocks. */
  lemma SetUpBeforeRead(s: Side, q: seq<Msg>, box: seq<Msg>)
    requires Announced(s, q, box) && s.mque != [] && !s.mque[0].Note?
    ensures SetUp(s) && CanRead(s)
  {
    FrontFirst(s, q, box);
    PendingLess(s.seen, 0);
  }

  /** The front message goes. */
  lemma FrontGone(s: Side, s': Side, q: seq<Msg>, box: seq<Msg>)
    requires Announced(s, q, box) && s.mque != [] && s'.mque == s.mque[1..]
    requires s'.seen == if s.mque[0].Note? then s.seen + {s.mque[0].msgType} else s.seen
    ensures Announced(s', q, box)
  {
    hide Strip, Pending;
    FrontFirst(s, q, box);
    PendingLess(s.seen, if s.mque[0].Note? then s.mque[0].msgType else 0);
    var items := s.mque + Strip(q);
    assert forall i :: 0 <= i < |items[1..]| ==> items[1..][i] == items[i + 1];
  }

  lemma {:induction false} FillPlain(l: Local, data: seq<Qword>)
    requires l.tx.Valid() && l.s.sPos < l.tx.size && Plain(l.s.box)
    ensures Plain(FillLoop(l, data).0.s.box)
    ensures FillLoop(l, data).0.s.mque == l.s.mque && FillLoop(l, data).0.s.seen == l.s.seen
    decreases |data|
  {
    if data != [] && l.s.avail > 0 {
      var n := if |data| < l.tx.size - l.s.sPos then |data| else l.tx.size - l.s.sPos;
      FillPlain(DoFill(l, data[..n]), data[n..]);
    }
  }

  lemma SendPlain(l: Local, a: Action)
    requires l.tx.Valid() && l.rx.Valid() && Startable(l, a) && Sends(a) && Plain(l.s.box)
    ensures var m := Apply(l, a);
      && Plain(m.s.box) && m.tx.q == l.tx.q && m.rx.q == l.rx.q
      && m.s.mque == l.s.mque && m.s.seen == l.s.seen
  {
    hide FillLoop;
    if a.SendCall? {
      var l1 := l.(s := Flushed(l.s));
      FillPlain(l1.(s := l1.s.(avail := l1.s.avail - 1, sIdx := l1.s.sIdx + 1)), a.args);
    }
  }

  lemma RingGrows(q: seq<Msg>, m: Msg)
    ensures Strip(q + [m]) == Strip(q) + (if m.Avl? then [] else [m])
  {
    hide Strip;
    StripAppend(q, [m]);
    StripFirst(m, []);
    assert Strip([]) == [] by { StripAppend([], []); }
    assert [m] + [] == [m];
  }

  lemma WritePlain(l: Local, R: Side)
    requires Announced(R, l.tx.q, l.s.box) && l.s.box != []
    ensures var m := DoWriteSlot(l); Announced(R, m.tx.q, m.s.box)
  {
    hide Strip, Pending;
    var m := l.s.box[0];
    RingGrows(l.tx.q, m);
    assert R.mque + Strip(l.tx.q + [m]) == (R.mque + Strip(l.tx.q)) + (if m.Avl? then [] else [m]);
  }

  lemma PollAnnounced(l: Local, box: seq<Msg>)
    requires Announced(l.s, l.rx.q, box) && l.rx.q != []
    ensures var m := DoPoll(l); Announced(m.s, m.rx.q, box)
  {
    hide Strip, Pending, Begins;
    PollItems(l.s.mque, l.rx.q, []);
    assert l.rx.q + [] == l.rx.q && l.rx.q[1..] + [] == l.rx.q[1..];
  }

  lemma TakePlain(l: Local, R: Side, a: Action)
    requires l.tx.Valid() && l.rx.Valid() && Startable(l, a) && !Sends(a) && !a.WriteSlot? && !a.Poll?
    requires Announced(l.s, l.rx.q, R.box) && Announced(R, l.tx.q, l.s.box)
    ensures var m := Apply(l, a); Announced(m.s, m.rx.q, R.box) && Announced(R, m.tx.q, m.s.box)
  {
    hide Strip, Pending, Begins, Link.Block, DataEvents;
    var m := Apply(l, a);
    if m.s.mque != l.s.mque {
      FrontGone(l.s, m.s, l.rx.q, R.box);
    }
  }

  /** Whatever a unit does, both units are still told what they need to know. */
  lemma AnnouncedKept(l: Local, R: Side, a: Action)
    requires l.tx.Valid() && l.rx.Valid() && Startable(l, a)
    requires Announced(l.s, l.rx.q, R.box) && Announced(R, l.tx.q, l.s.box)
    ensures var m := Apply(l, a); Announced(m.s, m.rx.q, R.box) && Announced(R, m.tx.q, m.s.box)
  {
    hide Strip, Pending, Begins, Link.Block, DataEvents;
    if Sends(a) {
      hide Startable;
      SendPlain(l, a);
    } else if a.WriteSlot? {
      WritePlain(l, R);
    } else if a.Poll? {
      PollAnnounced(l, R.box);
    } else {
      TakePlain(l, R, a);
    }
  }

  predicate Inv(y: Sys) {
    && DirInv(y.host, y.cop, y.inn, y.out) && DirInv(y.cop, y.host, y.out, y.inn)
    && Announced(y.cop, y.inn.q, y.host.box) && Announced(y.host, y.out.q, y.cop.box)
  }

  // ------------------------------------------------------------------------------------------
  // Blocks are used only when they are known
  // ------------------------------------------------------------------------------------------

  /** A unit that was not set up has not begun a block. */
  predicate Untouched(s: Side) { SetUp(s) || (s.sIdx == 0 && s.sPos == 0) }

  lemma UntouchedKept(l: Local, a: Action)
    requires l.tx.Valid() && l.rx.Valid() && Enabled(l, a) && Untouched(l.s)
    ensures Untouched(Apply(l, a).s) && (SetUp(l.s) ==> SetUp(Apply(l, a).s))
  {
    hide Link.Block, DataEvents, FillLoop;
    if a.SendCall? {
      var l1 := l.(s := Flushed(l.s));
      CallSeen(l1, a.args);
    }
  }

  lemma CallSeen(l: Local, args: seq<Qword>)
    requires l.tx.Valid() && l.s.sPos == 0
    ensures CallSent(l, args).s.seen == l.s.seen
  {
    hide FillLoop;
    SeenStays(l.(s := l.s.(avail := l.s.avail - 1, sIdx := l.s.sIdx + 1)), args);
  }

  lemma {:induction false} SeenStays(l: Local, data: seq<Qword>)
    requires l.tx.Valid() && l.s.sPos < l.tx.size
    ensures FillLoop(l, data).0.s.seen == l.s.seen
    decreases |data|
  {
    if data != [] && l.s.avail > 0 {
      var n := if |data| < l.tx.size - l.s.sPos then |data| else l.tx.size - l.s.sPos;
      SeenStays(DoFill(l, data[..n]), data[n..]);
    }
  }
}
