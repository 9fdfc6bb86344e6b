/** The parser of loops on top of the lexer: whenever it comes to a loop, it reads the header and has
    the lexer play the body back.  The tokens that it meets otherwise are those of the program with
    all loops unrolled, whatever the nesting. */
module LoopParser {
  import opened Wrappers
  import opened LoopUnroll
  import opened LoopBounds
  import opened LoopNest
  import C = ConstExpr
  import opened LoopItems
  import P = ConstParser

  // ------------------------------------------------------------------------------------------
  // Headers
  // ------------------------------------------------------------------------------------------

  /** The lexer has moved on, but not out of the list being played back. */
  twostate predicate SameLoop(lx: Lexer)
    reads lx
  {
    && lx.Valid() && !lx.recording && lx.level == old(lx.level) && lx.playback == old(lx.playback)
    && lx.removed == old(lx.removed) && |lx.records| == |old(lx.records)| == lx.level + 1
    && (lx.level >= 0 ==>
          lx.file == old(lx.file) && lx.records == old(lx.records)[lx.level := old(lx.records)[lx.level].(pos := lx.records[lx.level].pos)])
  }

  /** The next token, which is one of those that can be read without leaving the list. */
  method NextWithin(lx: Lexer) returns (tk: Tok)
    requires lx.Valid() && !lx.recording && lx.Window() != []
    modifies lx
    ensures SameLoop(lx) && lx.token == tk && old(lx.Window()) == [tk] + lx.Window()
    ensures Eof in old(lx.Upcoming()) ==> P.HasEnd(lx) && (tk != Eof ==> Eof in lx.Upcoming())
  {
    hide Lexer.Window, Left;
    P.WindowFirst(lx);
    tk := P.NextToken(lx);
  }

  lemma First(t: Tok, w: seq<Tok>, u: Tok, v: seq<Tok>)
    requires [t] + w == [u] + v
    ensures t == u && w == v
  {
    assert ([t] + w)[0] == t && ([t] + w)[1..] == w && ([u] + v)[0] == u && ([u] + v)[1..] == v;
  }

  /** What ends a value in a header. */
  predicate EndsBound(tail: seq<Tok>) { tail != [] && tail[0] in {SEMICOLON, CLOSE} }

  /** A constant expression, of which the first token was read. */
  method ParseBound(o: C.Ops<int>, lx: Lexer, ghost b: Bound, ghost tail: seq<Tok>) returns (v: int)
    requires P.HasEnd(lx) && BoundOk(b) && ClosedBound(b, {}) && EndsBound(tail)
    requires [lx.token] + lx.Window() == BoundText(b) + tail
    modifies lx
    ensures SameLoop(lx) && Eof in lx.Upcoming() && v == Value(o, b, map[]) && [lx.token] + lx.Window() == tail
  {
    hide Lexer.Valid, Lexer.Window, Lexer.Upcoming, Left, BoundText, Value, BoundOk, ClosedBound, C.Parse, P.Ahead, P.Goes;
    ghost var was := P.PlaceOf(lx);
    ghost var more := BoundAhead(o, lx, b, tail);
    P.GoesNowhere(lx);
    var r; ghost var m;
    r, m := P.ParseConstExpr(lx, o, was, 0);
    v := r.value;
    BoundRead(lx, was, BoundText(b), tail, more, m);
  }

  /** The evaluator finds the expression at the current token. */
  lemma BoundAhead(o: C.Ops<int>, lx: Lexer, b: Bound, tail: seq<Tok>) returns (more: seq<Tok>)
    requires P.HasEnd(lx) && BoundOk(b) && ClosedBound(b, {}) && EndsBound(tail)
    requires [lx.token] + lx.Window() == BoundText(b) + tail
    ensures C.Parse(o, P.Ahead(lx)) == Some((Value(o, b, map[]), P.AsConsts(tail + more)))
    ensures var a := P.PlaceOf(lx);
      a.ahead == BoundText(b) + (tail + more) && a.window == a.ahead[1..][..|a.window|]
      && |a.window| + 1 == |BoundText(b)| + |tail| && BoundText(b) != []
  {
    hide Lexer.Window, Lexer.Upcoming, BoundText, Value, BoundOk, ClosedBound, C.Parse, P.AsConsts;
    P.WindowFirst(lx);
    more := lx.Upcoming()[|lx.Window()|..];
    WholeText(lx.token, lx.Window(), lx.Upcoming(), BoundText(b), tail);
    EndIsGuard(tail + more);
    BoundTaken(o, b, tail + more);
    BoundStarts(b);
  }

  lemma BoundStarts(b: Bound)
    requires BoundOk(b)
    ensures BoundText(b) != []
  {
    C.FirstTok(b, 14);
  }

  lemma BoundRead(lx: Lexer, was: P.Place, b: seq<Tok>, tail: seq<Tok>, more: seq<Tok>, m: nat)
    requires P.HasEnd(lx) && P.Goes(was, P.PlaceOf(lx), m) && P.Ahead(lx) == P.AsConsts(tail + more)
    requires was.ahead == b + (tail + more) && was.window == was.ahead[1..][..|was.window|]
    requires |was.window| + 1 == |b| + |tail| && b != [] && EndsBound(tail)
    ensures P.Stays(was, P.PlaceOf(lx)) && [lx.token] + lx.Window() == tail && Eof in lx.Upcoming()
  {
    hide Lexer.Window, Lexer.Upcoming, P.AsConsts, P.Goes, P.Stays;
    var z := P.PlaceOf(lx);
    Arrived(was, z, lx.token, b, tail, more, m);
    assert z.ahead[0] == tail[0] && tail[0] != Eof;
  }

  lemma WholeText(t: Tok, w: seq<Tok>, u: seq<Tok>, b: seq<Tok>, tail: seq<Tok>)
    requires w <= u && [t] + w == b + tail
    ensures [t] + u == b + (tail + u[|w|..])
  {
    assert u == w + u[|w|..];
    assert [t] + u == ([t] + w) + u[|w|..];
  }

  lemma EndIsGuard(rest: seq<Tok>)
    requires EndsBound(rest)
    ensures C.Guard(P.AsConsts(rest)).ExprEnd?
  {
  }

  /** As many tokens were read as the expression has. */
  lemma Arrived(a: P.Place, z: P.Place, t: Tok, b: seq<Tok>, tail: seq<Tok>, more: seq<Tok>, m: nat)
    requires P.Goes(a, z, m) && a.ahead == b + (tail + more) && P.AsConsts(z.ahead) == P.AsConsts(tail + more)
    requires |a.window| + 1 == |b| + |tail| && |a.ahead| > 0 && a.window == a.ahead[1..][..|a.window|]
    requires EndsBound(tail) && z.ahead != [] && z.ahead[0] == t && b != []
    ensures P.Stays(a, z) && [t] + z.window == tail
  {
    assert |z.ahead| == |tail + more|;
    assert m == |b|;
    assert z.ahead == tail + more;
    assert z.window == a.window[m..];
    assert a.window == (b + tail)[1..];
  }

  /** The next token, which is known. */
  method Expect(lx: Lexer, ghost u: Tok, ghost v: seq<Tok>) returns (tk: Tok)
    requires lx.Valid() && !lx.recording && lx.Window() == [u] + v && Eof in lx.Upcoming() && u != Eof
    modifies lx
    ensures SameLoop(lx) && lx.token == tk == u && lx.Window() == v && Eof in lx.Upcoming()
  {
    hide Lexer.Valid, Lexer.Window, Lexer.Upcoming;
    tk := NextWithin(lx);
    First(tk, lx.Window(), u, v);
  }

  /** The tokens of a header behind its first one are read, and with them the values of the loop. */
  method ParseHeader(o: C.Ops<int>, lx: Lexer, ghost f: Stmt, ghost tail: seq<Tok>) returns (x: string, init: int, exit: int, inc: int)
    requires lx.Valid() && !lx.recording && Eof in lx.Upcoming() && f.For? && Closed(f, {}) && HeaderOk(f)
    requires [lx.token] + lx.Window() == Header(f) + tail
    modifies lx
    ensures SameLoop(lx) && lx.Window() == tail
    ensures x == f.x && init == Value(o, f.lo, map[]) && exit == Value(o, f.hi, map[]) && inc == StepValue(o, f.step, map[])
  {
    hide Lexer.Valid, Lexer.Window, Lexer.Upcoming, Left, BoundText, StepText, Value, Header;
    ghost var t2 := [SEMICOLON] + ([Id(f.x)] + (StepText(f.step) + ([CLOSE] + tail)));
    ghost var t1 := [SEMICOLON] + ([Id(f.x)] + ([LESS] + (BoundText(f.hi) + t2)));
    ghost var t0 := BoundText(f.lo) + t1;
    HeaderText(f, tail);
    First(lx.token, lx.Window(), FOR, [OPEN] + ([INT] + ([Id(f.x)] + ([EQUAL] + t0))));
    x := ParseStart(lx, f.x, t0);
    init := ParseBound(o, lx, f.lo, t1);
    First(lx.token, lx.Window(), SEMICOLON, [Id(f.x)] + ([LESS] + (BoundText(f.hi) + t2)));
    exit := ParseLimit(o, lx, f, t2);
    First(lx.token, lx.Window(), SEMICOLON, [Id(f.x)] + (StepText(f.step) + ([CLOSE] + tail)));
    var tk := Expect(lx, Id(f.x), StepText(f.step) + ([CLOSE] + tail));
    inc := ParseStep(o, lx, f.step, tail);
  }

  /** Up to the first token of the first value. */
  method ParseStart(lx: Lexer, ghost y: string, ghost t0: seq<Tok>) returns (x: string)
    requires lx.Valid() && !lx.recording && Eof in lx.Upcoming() && t0 != []
    requires lx.Window() == [OPEN] + ([INT] + ([Id(y)] + ([EQUAL] + t0)))
    modifies lx
    ensures SameLoop(lx) && P.HasEnd(lx) && x == y && [lx.token] + lx.Window() == t0
  {
    hide Lexer.Valid, Lexer.Window, Lexer.Upcoming;
    var tk := Expect(lx, OPEN, [INT] + ([Id(y)] + ([EQUAL] + t0)));
    tk := Expect(lx, INT, [Id(y)] + ([EQUAL] + t0));
    tk := Expect(lx, Id(y), [EQUAL] + t0);
    x := tk.name;
    tk := Expect(lx, EQUAL, t0);
    tk := NextWithin(lx);
  }

  /** The value below which the control variable stays. */
  method ParseLimit(o: C.Ops<int>, lx: Lexer, ghost f: Stmt, ghost t2: seq<Tok>) returns (exit: int)
    requires lx.Valid() && !lx.recording && Eof in lx.Upcoming()
    requires f.For? && ClosedBound(f.hi, {}) && BoundOk(f.hi) && EndsBound(t2)
    requires lx.Window() == [Id(f.x)] + ([LESS] + (BoundText(f.hi) + t2)) && BoundText(f.hi) + t2 != []
    modifies lx
    ensures SameLoop(lx) && Eof in lx.Upcoming() && exit == Value(o, f.hi, map[]) && [lx.token] + lx.Window() == t2
  {
    hide Lexer.Valid, Lexer.Window, Lexer.Upcoming, BoundText, Value;
    var tk := Expect(lx, Id(f.x), [LESS] + (BoundText(f.hi) + t2));
    tk := Expect(lx, LESS, BoundText(f.hi) + t2);
    tk := NextWithin(lx);
    exit := ParseBound(o, lx, f.hi, t2);
  }

  /** The tokens of a header one by one. */
  lemma HeaderText(f: Stmt, tail: seq<Tok>)
    requires f.For?
    ensures var t2 := [SEMICOLON] + ([Id(f.x)] + (StepText(f.step) + ([CLOSE] + tail)));
            var t1 := [SEMICOLON] + ([Id(f.x)] + ([LESS] + (BoundText(f.hi) + t2)));
            var t0 := BoundText(f.lo) + t1;
      Header(f) + tail == [FOR] + ([OPEN] + ([INT] + ([Id(f.x)] + ([EQUAL] + t0)))) && t0 != [] && BoundText(f.hi) + t2 != []
  {
    hide BoundText, StepText;
    var a, b, c := BoundText(f.lo), BoundText(f.hi), StepText(f.step);
    var t2 := [SEMICOLON] + ([Id(f.x)] + (c + ([CLOSE] + tail)));
    var t1 := [SEMICOLON] + ([Id(f.x)] + ([LESS] + (b + t2)));
    assert ([SEMICOLON, Id(f.x)] + (c + [CLOSE])) + tail == t2;
    var h2 := [SEMICOLON, Id(f.x)] + (c + [CLOSE]);
    assert ([SEMICOLON, Id(f.x), LESS] + (b + h2)) + tail == t1 by {
      assert (b + h2) + tail == b + (h2 + tail);
    }
    var h1 := [SEMICOLON, Id(f.x), LESS] + (b + h2);
    assert (a + h1) + tail == a + (h1 + tail);
    assert Header(f) == [FOR, OPEN, INT, Id(f.x), EQUAL] + (a + h1);
  }

  /** The end of a header: a sum behind +=, or ++. */
  method ParseStep(o: C.Ops<int>, lx: Lexer, ghost b: Option<Bound>, ghost tail: seq<Tok>) returns (inc: int)
    requires lx.Valid() && !lx.recording && Eof in lx.Upcoming() && (b.Some? ==> ClosedBound(b.value, {}) && BoundOk(b.value))
    requires lx.Window() == StepText(b) + ([CLOSE] + tail)
    modifies lx
    ensures SameLoop(lx) && inc == StepValue(o, b, map[]) && lx.Window() == tail
  {
    hide Lexer.Valid, Lexer.Window, Lexer.Upcoming, Left, BoundText, Value;
    StepFirst(b, tail);
    var tk := NextWithin(lx);
    if b.Some? {
      First(tk, lx.Window(), PLUS_EQUAL, BoundText(b.value) + ([CLOSE] + tail));
    } else {
      First(tk, lx.Window(), PLUS_PLUS, [CLOSE] + tail);
    }
    if tk == PLUS_EQUAL {
      tk := NextWithin(lx);
      inc := ParseBound(o, lx, b.value, [CLOSE] + tail);
      First(lx.token, lx.Window(), CLOSE, tail);
    } else {
      tk := NextWithin(lx);
      First(tk, lx.Window(), CLOSE, tail);
      inc := 1;
    }
  }

  lemma StepFirst(b: Option<Bound>, tail: seq<Tok>)
    ensures b.None? ==> StepText(b) + ([CLOSE] + tail) == [PLUS_PLUS] + ([CLOSE] + tail)
    ensures b.Some? ==> StepText(b) + ([CLOSE] + tail) == [PLUS_EQUAL] + (BoundText(b.value) + ([CLOSE] + tail))
  {
  }

  // ------------------------------------------------------------------------------------------
  // The parser
  // ------------------------------------------------------------------------------------------

  /** All items that were begun have been read, up to item `k` of the program. */
  ghost predicate Holds(lx: Lexer, prog: seq<Item>, fs: seq<Frame>, k: nat)
    reads lx
  {
    && lx.Valid() && !lx.recording && AllFit(lx.records, fs) && k <= |prog| && Good(prog, false)
    && lx.Behind() == TextOf(prog[k..]) + [Eof]
  }

  /** The first token of item `c` has been read. */
  ghost predicate Begun(lx: Lexer, prog: seq<Item>, fs: seq<Frame>, k: nat, c: Item)
    reads lx
  {
    && lx.Valid() && !lx.recording && k <= |prog| && Good(prog, false)
    && GoodItem(c) && ItemText(c) != [] && lx.token == ItemText(c)[0]
    && if lx.playback then Reads(lx.records, fs, c) && lx.Behind() == TextOf(prog[k..]) + [Eof]
       else fs == [] && 0 < k && c == prog[k - 1] && lx.file == ItemText(c)[1..] + (TextOf(prog[k..]) + [Eof])
  }

  lemma BegunFacts(lx: Lexer, prog: seq<Item>, fs: seq<Frame>, k: nat, c: Item)
    requires Begun(lx, prog, fs, k, c)
    ensures AllOk(lx.records, fs) && |lx.records| == lx.level + 1 && (lx.playback <==> lx.level >= 0)
    ensures c.Token? ==> lx.token == c.t && c.t != FOR && c.t != Eof
    ensures c.Loop? ==> lx.token == FOR && c.f.For? && Wf(c.f) && Closed(c.f, {}) && HeaderOk(c.f)
    ensures lx.playback <==> lx.records != []
  {
    lx.LevelFacts(0);
    ItemTextFirst(c);
    if lx.playback { ReadsOk(lx.records, fs, c); }
  }

  /** The end of the file is still to come. */
  lemma BegunEnd(lx: Lexer, prog: seq<Item>, fs: seq<Frame>, k: nat, c: Item)
    requires Begun(lx, prog, fs, k, c)
    ensures Eof in lx.Upcoming()
  {
    hide AllPlaying, RestAll, TextOf, ItemText, Good, Reads;
    lx.LevelFacts(0);
    var behind := lx.Behind();
    assert behind[|behind| - 1] == Eof;
  }

  /** A token is an item that is read at once. */
  lemma TokenRead(lx: Lexer, prog: seq<Item>, fs: seq<Frame>, k: nat, c: Item)
    requires Begun(lx, prog, fs, k, c) && c.Token?
    ensures Holds(lx, prog, fs, k)
  {
    hide FrameOk, Items, Left, Text, At;
    lx.LevelFacts(0);
    assert ItemText(c)[1..] == [];
    if lx.playback {
      var n := |lx.records| - 1;
      assert forall i :: 0 <= i < n ==> lx.records[..n][i] == lx.records[i] && fs[..n][i] == fs[i];
    } else {
      assert [] + (TextOf(prog[k..]) + [Eof]) == TextOf(prog[k..]) + [Eof];
    }
  }

  /** What comes next when no loop is being played back. */
  lemma TopItem(prog: seq<Item>, k: nat, tk: Tok, file: seq<Tok>)
    requires Good(prog, false) && k <= |prog| && [tk] + file == TextOf(prog[k..]) + [Eof]
    ensures k == |prog| ==> tk == Eof && file == []
    ensures k < |prog| ==>
      var c := prog[k];
      GoodItem(c) && ItemText(c) != [] && tk == ItemText(c)[0] && file == ItemText(c)[1..] + (TextOf(prog[k + 1..]) + [Eof])
  {
    hide ItemText, GoodItem, Good;
    if k == |prog| {
      assert TextOf(prog[k..]) + [Eof] == [Eof] + [];
      First(tk, file, Eof, []);
    } else {
      var c := prog[k];
      GoodAt(prog, k);
      ItemTextFirst(c);
      assert prog[k..][0] == c && prog[k..][1..] == prog[k + 1..];
      assert TextOf(prog[k..]) + [Eof] == [ItemText(c)[0]] + (ItemText(c)[1..] + (TextOf(prog[k + 1..]) + [Eof]));
      First(tk, file, ItemText(c)[0], ItemText(c)[1..] + (TextOf(prog[k + 1..]) + [Eof]));
    }
  }

  /** Where the parser is after it has gone on from the items `its` of loops and item `k` of the program. */
  ghost predicate WentOn(lx: Lexer, prog: seq<Item>, its: seq<Item>, k: nat, more: bool, c: Item, gs: seq<Frame>, j: nat)
    reads lx
  {
    if !more then lx.token == Eof && its == [] && k == |prog|
    else
      && Begun(lx, prog, gs, j, c) && AllOk(lx.records, gs)
      && if lx.playback then j == k && its == [c] + ComingAll(lx.records, gs)
         else its == [] && k < |prog| && j == k + 1 && c == prog[k] && ComingAll(lx.records, gs) == []
  }

  /** The token that was read, with no loop being played back, begins the next item of the program. */
  lemma NextAtTop(lx: Lexer, prog: seq<Item>, k: nat) returns (more: bool, c: Item, j: nat)
    requires lx.Valid() && !lx.recording && !lx.playback && Good(prog, false) && k <= |prog|
    requires [lx.token] + lx.file == TextOf(prog[k..]) + [Eof]
    ensures WentOn(lx, prog, [], k, more, c, [], j)
  {
    hide ItemText, GoodItem, Good, TextOf;
    TopItem(prog, k, lx.token, lx.file);
    more := k < |prog|;
    c, j := if more then prog[k] else Token(Eof), if more then k + 1 else k;
    lx.LevelFacts(0);
  }

  /** The parser reads the first token of the next item. */
  method NextItem(lx: Lexer, ghost prog: seq<Item>, ghost fs: seq<Frame>, ghost k: nat)
    returns (ghost more: bool, ghost c: Item, ghost gs: seq<Frame>, ghost j: nat)
    requires Holds(lx, prog, fs, k)
    modifies lx
    ensures AllOk(old(lx.records), fs) && WentOn(lx, prog, ComingAll(old(lx.records), fs), k, more, c, gs, j)
  {
    hide Fits, Coming, Items, Good, TextOf, Rest, RestAll, Playing, Left, GoodItem, ItemText, At;
    lx.LevelFacts(0);
    FitOk(lx.records, fs);
    ghost var rs, file, was := lx.records, lx.file, lx.playback;
    SomethingBehind(lx, prog, k);
    var tk := lx.GetNextToken();
    lx.LevelFacts(0);
    c, gs := Turn(rs, fs);
    if lx.playback {
      more, j := true, k;
    } else {
      gs := [];
      assert [tk] + lx.file == TextOf(prog[k..]) + [Eof];
      more, c, j := NextAtTop(lx, prog, k);
    }
  }

  lemma SomethingBehind(lx: Lexer, prog: seq<Item>, k: nat)
    requires lx.Valid() && !lx.recording && k <= |prog| && lx.Behind() == TextOf(prog[k..]) + [Eof]
    ensures lx.Upcoming() != []
  {
    assert (TextOf(prog[k..]) + [Eof])[|TextOf(prog[k..])|] == Eof;
  }

  /** What stands behind the loop that was begun, in the list being played back or in the file. */
  ghost function Beyond(lx: Lexer, prog: seq<Item>, fs: seq<Frame>, k: nat, l: Item): seq<Tok>
    requires Begun(lx, prog, fs, k, l)
    reads lx
  {
    if lx.playback then
      var n := |lx.records| - 1;
      TextOf(Items(Now(lx.records[n], fs[n]))[fs[n].k..])
    else TextOf(prog[k..]) + [Eof]
  }

  lemma BeyondFollows(lx: Lexer, prog: seq<Item>, fs: seq<Frame>, k: nat, l: Item)
    requires Begun(lx, prog, fs, k, l) && l.Loop?
    ensures l.f.For? && [lx.token] + lx.Window() == Header(l.f) + (Text(l.f.body) + Beyond(lx, prog, fs, k, l))
    ensures !lx.playback ==> Beyond(lx, prog, fs, k, l) != []
  {
    hide Items, Header, FrameOk, TextOf, At;
    lx.LevelFacts(0);
    ItemTextFirst(l);
    var t, tail := Text(l.f), Beyond(lx, prog, fs, k, l);
    assert lx.Window() == t[1..] + tail;
    assert [t[0]] + (t[1..] + tail) == t + tail;
    assert t + tail == Header(l.f) + (Text(l.f.body) + tail);
  }

  /** No else that belongs to the loop comes behind it. */
  lemma NoElse(its: seq<Item>, i: nat, rest: seq<Tok>)
    requires Good(its, false) && i < |its| && its[i].Loop? && its[i].f.For?
    requires rest == [] || rest[0] != ELSE
    ensures var t := TextOf(its[i + 1..]) + rest; OpenEnd(its[i].f.body) && t != [] ==> t[0] != ELSE
  {
    hide Text, Wf, Closed;
    GoodAt(its, i);
    if i + 1 < |its| {
      GoodAt(its, i + 1);
      ItemTextFirst(its[i + 1]);
      assert its[i + 1..][0] == its[i + 1];
    }
  }

  lemma BeyondNoElse(lx: Lexer, prog: seq<Item>, fs: seq<Frame>, k: nat, l: Item)
    requires Begun(lx, prog, fs, k, l) && l.Loop?
    ensures l.f.For? && (OpenEnd(l.f.body) && Beyond(lx, prog, fs, k, l) != [] ==> Beyond(lx, prog, fs, k, l)[0] != ELSE)
  {
    hide Items, TextOf, At, Left, Text, OpenEnd, Wf;
    ItemTextFirst(l);
    if lx.playback {
      var n := |lx.records| - 1;
      NowGood(lx.records[n], fs[n]);
      var its := Items(Now(lx.records[n], fs[n]));
      NoElse(its, fs[n].k - 1, []);
      assert TextOf(its[fs[n].k..]) + [] == TextOf(its[fs[n].k..]);
    } else {
      NoElse(prog, k - 1, [Eof]);
    }
  }

  /** What is known of a loop that runs. */
  lemma LoopFacts(o: C.Ops<int>, f: Stmt, inside: bool)
    requires f.For? && Wf(f) && Closed(f, {}) && Work(o, f, map[], inside).Some?
    ensures StepValue(o, f.step, map[]) > 0 && (inside ==> Value(o, f.lo, map[]) < Value(o, f.hi, map[]))
    ensures Wf(f.body) && Free(f.body, f.x) && Closed(f.body, {f.x})
  {
    assert {} + {f.x} == {f.x};
  }

  lemma BodySkips(w: seq<Tok>, body: Stmt, tail: seq<Tok>)
    requires Wf(body) && w == Text(body) + tail && (OpenEnd(body) && tail != [] ==> tail[0] != ELSE)
    ensures Skip(w, 0) == Some(|Text(body)|) && w[..|Text(body)|] == Text(body) && w[|Text(body)|..] == tail
  {
    hide Text, Wf, OpenEnd, Skip;
    assert tail != [] ==> w[|Text(body)|] == tail[0];
    SkipsText(w, 0, body);
  }

  /** The outer loops when the loop that was begun has been read over. */
  lemma OuterFit(rs: seq<Record>, fs: seq<Frame>, l: Item, os: seq<Record>, tail: seq<Tok>)
    requires Reads(rs, fs, l) && |os| == |rs| && AllPlaying(os)
    requires var n := |rs| - 1; os == rs[n := rs[n].(pos := os[n].pos)]
    requires var n := |rs| - 1; -1 <= os[n].pos < |os[n].list|
    requires var n := |rs| - 1; Left(os[n]) == tail == TextOf(Items(Now(rs[n], fs[n]))[fs[n].k..])
    ensures AllFit(os, fs) && AllOk(os, fs) && AllOk(rs, fs) && ComingAll(os, fs) == ComingAll(rs, fs)
  {
    hide Items, TextOf, ItemText, GoodItem, At, Left, Text, Wf, Free, Closed, Playing;
    var n := |rs| - 1;
    ReadsOk(rs, fs, l);
    assert [] + tail == tail;
    assert Fits(os[n], fs[n], []);
    assert os[..n] == rs[..n];
    forall i | 0 <= i < |os| ensures Fits(os[i], fs[i], []) {
      if i < n { assert Fits(rs[..n][i], fs[..n][i], []); }
    }
    FitOk(os, fs);
    assert Coming(os[n], fs[n]) == Coming(rs[n], fs[n]);
  }

  /** A new loop on top of the others. */
  lemma OneLoopMore(os: seq<Record>, fs: seq<Frame>, b: Record, body: Stmt)
    requires AllFit(os, fs) && Playing(b) && b.pos == -1 && b.list == Text(body)
    requires Wf(body) && Free(body, b.ctrlVar) && Closed(body, {b.ctrlVar})
    ensures AllFit(os + [b], fs + [Frame(body, 0)]) && AllOk(os + [b], fs + [Frame(body, 0)]) && AllOk(os, fs)
    ensures ComingAll(os + [b], fs + [Frame(body, 0)])
         == Copies(b.ctrlVar, b.value, b.exit, b.inc, body) + ComingAll(os, fs)
  {
    hide Items, TextOf, Left, Text, Wf, Free, Closed, Playing, FrameOk, Copies;
    BodyFits(b, body);
    var rs, gs := os + [b], fs + [Frame(body, 0)];
    forall i | 0 <= i < |rs| ensures Fits(rs[i], gs[i], []) {
      if i < |os| { assert rs[i] == os[i] && gs[i] == fs[i]; }
    }
    FitOk(rs, gs);
    FitOk(os, fs);
    assert rs[..|os|] == os && gs[..|os|] == fs;
  }

  /** The header of the loop that was begun has been read, and its body comes next. */
  ghost predicate AtBody(lx: Lexer, prog: seq<Item>, fs: seq<Frame>, k: nat, f: Stmt, os: seq<Record>, its: seq<Item>)
    requires f.For?
    reads lx
  {
    && lx.Valid() && !lx.recording && k <= |prog| && Good(prog, false)
    && Skip(lx.Window(), 0) == Some(|Text(f.body)|) && lx.Window()[..|Text(f.body)|] == Text(f.body)
    && os == Lexer.Outer(lx.records, |Text(f.body)|) && |os| == |lx.records|
    && (AllPlaying(os) ==> AllFit(os, fs) && AllOk(os, fs) && ComingAll(os, fs) == its)
    && if lx.playback then lx.Behind() == TextOf(prog[k..]) + [Eof]
       else os == [] && its == [] && lx.file == Text(f.body) + (TextOf(prog[k..]) + [Eof])
  }

  method LoopHeader(o: C.Ops<int>, lx: Lexer, ghost prog: seq<Item>, ghost fs: seq<Frame>, ghost k: nat, ghost l: Item)
    returns (x: string, init: int, exit: int, inc: int, ghost os: seq<Record>)
    requires Begun(lx, prog, fs, k, l) && l.Loop?
    modifies lx
    ensures l.f.For? && AllOk(old(lx.records), fs) && lx.playback == old(lx.playback)
    ensures AtBody(lx, prog, fs, k, l.f, os, ComingAll(old(lx.records), fs))
    ensures x == l.f.x && init == Value(o, l.f.lo, map[]) && exit == Value(o, l.f.hi, map[]) && inc == StepValue(o, l.f.step, map[])
  {
    hide Fits, Coming, Items, Good, TextOf, Rest, RestAll, Playing, AllPlaying, Left, GoodItem, ItemText, At, Text, Wf, Closed, Free,
      Lexer.Window, Skip, Header, Reads, ComingAll, AllOk, AllFit, Value, Work;
    BegunFacts(lx, prog, fs, k, l);
    ghost var f, tail := l.f, Beyond(lx, prog, fs, k, l);
    BeyondFollows(lx, prog, fs, k, l);
    BeyondNoElse(lx, prog, fs, k, l);
    ghost var rs := lx.records;
    BegunEnd(lx, prog, fs, k, l);
    x, init, exit, inc := ParseHeader(o, lx, f, Text(f.body) + tail);
    ghost var n := |Text(f.body)|;
    WfBody(f);
    BodySkips(lx.Window(), f.body, tail);
    lx.LevelFacts(n);
    OuterIs(lx, n);
    os := Lexer.Outer(lx.records, n);
    if !lx.playback {
      NothingPlayed(rs, fs, os);
    } else if AllPlaying(os) {
      OuterFit(rs, fs, l, os, tail);
    }
  }

  lemma WfBody(f: Stmt)
    requires f.For? && Wf(f)
    ensures Wf(f.body)
  {
  }

  /** The parser has come to a loop: it reads the header, and the lexer plays the body back. */
  method ParseLoop(o: C.Ops<int>, lx: Lexer, ghost prog: seq<Item>, ghost fs: seq<Frame>, ghost k: nat, ghost l: Item)
    returns (ghost more: bool, ghost c: Item, ghost gs: seq<Frame>, ghost j: nat)
    requires Begun(lx, prog, fs, k, l) && l.Loop? && Work(o, l.f, map[], lx.playback).Some?
    modifies lx
    ensures AllOk(old(lx.records), fs) && l.f.For?
    ensures var f := l.f;
            var its := Copies(f.x, Value(o, f.lo, map[]), Value(o, f.hi, map[]), StepValue(o, f.step, map[]), f.body);
            WentOn(lx, prog, its + ComingAll(old(lx.records), fs), k, more, c, gs, j)
  {
    hide Fits, Coming, Items, Good, TextOf, Rest, RestAll, Playing, AllPlaying, Left, GoodItem, ItemText, At, Text, Wf, Closed, Free,
      Lexer.Window, Skip, Header, Copies, Reads, ComingAll, AllOk, AllFit, Value, Work;
    BegunFacts(lx, prog, fs, k, l);
    LoopFacts(o, l.f, lx.playback);
    var x, init, exit, inc, os := LoopHeader(o, lx, prog, fs, k, l);
    ghost var its := ComingAll(old(lx.records), fs);
    if init < exit {
      more, j := true, k;
      c, gs := PlayBody(o, lx, prog, fs, k, l.f, x, init, exit, inc, os, its);
    } else {
      gs := [];
      more, c, j := LeaveLoop(o, lx, prog, fs, k, l.f, x, init, exit, inc, os);
    }
  }

  /** The body is recorded and played back. */
  method PlayBody(o: C.Ops<int>, lx: Lexer, ghost prog: seq<Item>, ghost fs: seq<Frame>, ghost k: nat, ghost f: Stmt,
                  x: string, init: int, exit: int, inc: int, ghost os: seq<Record>, ghost its: seq<Item>)
    returns (ghost c: Item, ghost gs: seq<Frame>)
    requires f.For? && AtBody(lx, prog, fs, k, f, os, its)
    requires x == f.x && init == Value(o, f.lo, map[]) && exit == Value(o, f.hi, map[]) && inc == StepValue(o, f.step, map[])
    requires inc > 0 && init < exit && Wf(f.body) && Free(f.body, f.x) && Closed(f.body, {f.x})
    modifies lx
    ensures Begun(lx, prog, gs, k, c) && AllOk(lx.records, gs) && lx.playback
    ensures Copies(f.x, Value(o, f.lo, map[]), Value(o, f.hi, map[]), StepValue(o, f.step, map[]), f.body) + its
         == [c] + ComingAll(lx.records, gs)
  {
    hide Fits, Coming, Items, Good, TextOf, Rest, RestAll, Playing, AllPlaying, Left, GoodItem, ItemText, At, Text, Wf, Closed, Free,
      Lexer.Window, Skip, Header, Copies, Reads, ComingAll, AllOk, AllFit, Value;
    ghost var n, file, was := |Text(f.body)|, lx.file, lx.playback;
    ghost var tail := TextOf(prog[k..]) + [Eof];
    lx.LevelFacts(n);
    Behind(file, Text(f.body), tail, was);
    lx.ForStatement(x, init, exit, inc, n);
    lx.LevelFacts(0);
    c, gs := LoopBegun(os, fs, Record(Text(f.body), x, init, exit, inc, -1), f.body);
    assert lx.Behind() == tail;
  }

  /** A loop that is not inside another one runs not even once. */
  method LeaveLoop(o: C.Ops<int>, lx: Lexer, ghost prog: seq<Item>, ghost fs: seq<Frame>, ghost k: nat, ghost f: Stmt,
                   x: string, init: int, exit: int, inc: int, ghost os: seq<Record>)
    returns (ghost more: bool, ghost c: Item, ghost j: nat)
    requires f.For? && AtBody(lx, prog, fs, k, f, os, [])
    requires x == f.x && init == Value(o, f.lo, map[]) && exit == Value(o, f.hi, map[]) && inc == StepValue(o, f.step, map[])
    requires inc > 0 && init >= exit && !lx.playback
    modifies lx
    ensures WentOn(lx, prog, [], k, more, c, [], j) && !lx.playback
    ensures Copies(f.x, Value(o, f.lo, map[]), Value(o, f.hi, map[]), StepValue(o, f.step, map[]), f.body) == []
  {
    hide Fits, Coming, Items, Good, TextOf, Rest, RestAll, Playing, AllPlaying, Left, GoodItem, ItemText, At, Text, Wf, Closed, Free,
      Lexer.Window, Skip, Header, Copies, Reads, ComingAll, AllOk, AllFit, Value;
    ghost var tail := TextOf(prog[k..]) + [Eof];
    lx.LevelFacts(|Text(f.body)|);
    Behind(lx.file, Text(f.body), tail, false);
    lx.ForStatement(x, init, exit, inc, |Text(f.body)|);
    lx.LevelFacts(0);
    NoCopies(o, f);
    more, c, j := NextAtTop(lx, prog, k);
  }

  lemma Behind(file: seq<Tok>, body: seq<Tok>, tail: seq<Tok>, was: bool)
    requires tail != []
    ensures !was && file == body + tail ==>
              |body| < |file| && [file[|body|]] + file[|body| + 1..] == tail && file[|body|..] == tail
  {
    assert !was && file == body + tail ==> file[|body|] == tail[0] && file[|body| + 1..] == tail[1..];
    assert tail == [tail[0]] + tail[1..];
  }

  lemma NothingPlayed(rs: seq<Record>, fs: seq<Frame>, os: seq<Record>)
    requires rs == os == [] && fs == []
    ensures AllFit(os, fs) && AllOk(os, fs) && AllOk(rs, fs) && ComingAll(os, fs) == ComingAll(rs, fs) == []
  {
  }

  lemma NoCopies(o: C.Ops<int>, f: Stmt)
    requires f.For? && Value(o, f.lo, map[]) >= Value(o, f.hi, map[])
    ensures Copies(f.x, Value(o, f.lo, map[]), Value(o, f.hi, map[]), StepValue(o, f.step, map[]), f.body) == []
  {
  }

  lemma OuterIs(lx: Lexer, n: nat)
    requires lx.Valid() && !lx.recording && n <= |lx.Window()|
    ensures var os := Lexer.Outer(lx.records, n);
      if !lx.playback then os == []
      else
        var r := lx.records[lx.level].(pos := lx.records[lx.level].pos + n);
        os == lx.records[lx.level := r] && -1 <= r.pos < |r.list| && Left(r) == lx.Window()[n..]
  {
    lx.LevelFacts(n);
    hide SubstAll;
    if lx.playback { LeftSkip(lx.records[lx.level], n); }
  }

  /** The first item of a loop that has begun to run. */
  lemma LoopBegun(os: seq<Record>, fs: seq<Frame>, b: Record, body: Stmt) returns (c: Item, gs: seq<Frame>)
    requires AllFit(os, fs) && AllOk(os, fs) && Wf(body) && Free(body, b.ctrlVar) && Closed(body, {b.ctrlVar})
    requires b.list == Text(body) && b.pos == -1 && b.value < b.exit && b.inc > 0
    ensures var rs := NextRecords(os + [b]);
      && rs != [] && Reads(rs, gs, c) && AllOk(rs, gs) && GoodItem(c) && ItemText(c) != [] && At(rs[|rs| - 1]) == ItemText(c)[0]
      && Copies(b.ctrlVar, b.value, b.exit, b.inc, body) + ComingAll(os, fs) == [c] + ComingAll(rs, gs)
  {
    hide Items, TextOf, Left, Text, Wf, Free, Closed, Copies, Fits, AllFit, AllOk, ComingAll, At;
    BodyPlays(b, body);
    OneLoopMore(os, fs, b, body);
    c, gs := Turn(os + [b], fs + [Frame(body, 0)]);
  }

  lemma BodyPlays(b: Record, body: Stmt)
    requires Wf(body) && b.list == Text(body) && b.pos == -1 && b.value < b.exit && b.inc > 0
    ensures Playing(b)
  {
    TextNotEmpty(body);
    TextBraces(body);
  }

  /** The items that are still to come, with the one that was begun. */
  ghost predicate Remains(o: C.Ops<int>, lx: Lexer, prog: seq<Item>, fs: seq<Frame>, k: nat, c: Item, rest: seq<Tok>, work: nat)
    reads lx
  {
    && Begun(lx, prog, fs, k, c) && AllOk(lx.records, fs)
    && rest == FullOf(o, [c]) + (FullOf(o, ComingAll(lx.records, fs)) + FullOf(o, prog[k..]))
    && Some(work) == Plus(WorkOf(o, [c], lx.playback), Plus(WorkOf(o, ComingAll(lx.records, fs), true), WorkOf(o, prog[k..], false)))
  }

  lemma OneOf(o: C.Ops<int>, c: Item, inside: bool)
    ensures FullOf(o, [c]) == (if c.Token? then [c.t] else Full(o, c.f, map[]))
    ensures WorkOf(o, [c], inside) == (if c.Token? then Some(1) else Work(o, c.f, map[], inside))
    ensures FullOf(o, []) == [] && WorkOf(o, [], inside) == Some(0)
  {
    assert [c][1..] == [];
  }

  lemma GoesOn(o: C.Ops<int>, lx: Lexer, prog: seq<Item>, its: seq<Item>, k: nat, more: bool, c: Item, gs: seq<Frame>, j: nat, work: nat)
    requires k <= |prog| && WentOn(lx, prog, its, k, more, c, gs, j)
    requires Some(work) == Plus(WorkOf(o, its, true), WorkOf(o, prog[k..], false))
    ensures more ==> Remains(o, lx, prog, gs, j, c, FullOf(o, its) + FullOf(o, prog[k..]), work) && lx.token != Eof
    ensures !more ==> FullOf(o, its) + FullOf(o, prog[k..]) == [] && lx.token == Eof
  {
    hide Begun, ComingAll, AllOk, FullOf, WorkOf, Full, Work;
    OneOf(o, c, lx.playback);
    if more {
      BegunFacts(lx, prog, gs, j, c);
      if lx.playback {
        Front(o, c, ComingAll(lx.records, gs), FullOf(o, prog[k..]), true);
      } else {
        assert prog[k..] == [c] + prog[j..];
        Front(o, c, prog[j..], [], false);
        Nothing(FullOf(o, prog[k..]), FullOf(o, [c]), FullOf(o, prog[j..]));
      }
    } else {
      assert prog[k..] == [];
    }
  }

  lemma Front(o: C.Ops<int>, c: Item, its: seq<Item>, tail: seq<Tok>, inside: bool)
    ensures FullOf(o, [c] + its) + tail == FullOf(o, [c]) + (FullOf(o, its) + tail)
    ensures WorkOf(o, [c] + its, inside) == Plus(WorkOf(o, [c], inside), WorkOf(o, its, inside))
  {
    hide FullOf, WorkOf;
    OfAppend(o, [c], its);
    WorkAppend(o, [c], its, inside);
    assert FullOf(o, [c]) + FullOf(o, its) + tail == FullOf(o, [c]) + (FullOf(o, its) + tail);
  }

  lemma Nothing(a: seq<Tok>, b: seq<Tok>, c: seq<Tok>)
    ensures [] + a == a && [] + c == c && a + [] == a && c + [] == c
  {
  }

  /** A loop and its passes come to the same tokens, and entering the loop is some work. */
  lemma LoopIsCopies(o: C.Ops<int>, l: Item, its: seq<Item>, inside: bool, rest: seq<Tok>, w: nat, more: Option<nat>)
    requires l.Loop? && l.f.For? && Wf(l.f)
    requires Some(w) == Plus(WorkOf(o, [l], inside), Plus(WorkOf(o, its, true), more))
    ensures var f := l.f;
            var all := Copies(f.x, Value(o, f.lo, map[]), Value(o, f.hi, map[]), StepValue(o, f.step, map[]), f.body) + its;
      && FullOf(o, [l]) + (FullOf(o, its) + rest) == FullOf(o, all) + rest
      && w > 0 && Plus(WorkOf(o, all, true), more) == Some(w - 1)
  {
    hide FullOf, WorkOf, Copies, Value, Wf;
    var f := l.f;
    LoopFree(f);
    OneOf(o, l, inside);
    var cs := Copies(f.x, Value(o, f.lo, map[]), Value(o, f.hi, map[]), StepValue(o, f.step, map[]), f.body);
    CopiesFull(o, f.x, Value(o, f.lo, map[]), Value(o, f.hi, map[]), StepValue(o, f.step, map[]), f.body);
    OfAppend(o, cs, its);
    WorkAppend(o, cs, its, true);
    assert FullOf(o, cs) + (FullOf(o, its) + rest) == FullOf(o, cs) + FullOf(o, its) + rest;
  }

  lemma LoopFree(f: Stmt)
    requires f.For? && Wf(f)
    ensures Free(f.body, f.x)
  {
  }

  /** A token that is not part of a loop's header. */
  lemma TokenTaken(o: C.Ops<int>, c: Item, inside: bool, a: seq<Tok>, rest: seq<Tok>, w: nat, more: Option<nat>)
    requires c.Token? && Some(w) == Plus(WorkOf(o, [c], inside), more)
    ensures FullOf(o, [c]) + (a + rest) == [c.t] + (a + rest) && w > 0 && more == Some(w - 1)
  {
    OneOf(o, c, inside);
  }

  /** What is left behind an item: nothing, or the items from the next one on. */
  ghost predicate Follows(o: C.Ops<int>, lx: Lexer, prog: seq<Item>, more: bool, fs: seq<Frame>, k: nat, c: Item, rest: seq<Tok>, work: nat)
    reads lx
  {
    if more then Remains(o, lx, prog, fs, k, c, rest, work) && lx.token != Eof else rest == [] && lx.token == Eof
  }

  lemma RemainsFacts(o: C.Ops<int>, lx: Lexer, prog: seq<Item>, fs: seq<Frame>, k: nat, c: Item, rest: seq<Tok>, work: nat)
    requires Remains(o, lx, prog, fs, k, c, rest, work)
    ensures c.Token? ==> lx.token == c.t && c.t != FOR
    ensures c.Loop? ==> lx.token == FOR && c.f.For? && Wf(c.f) && Work(o, c.f, map[], lx.playback).Some?
    ensures k <= |prog|
  {
    hide ComingAll, AllOk, FullOf, Work, Wf;
    BegunFacts(lx, prog, fs, k, c);
    OneOf(o, c, lx.playback);
  }

  /** The parser comes through a loop's header, to the first item behind it. */
  method StepLoop(o: C.Ops<int>, lx: Lexer, ghost prog: seq<Item>, ghost fs: seq<Frame>, ghost k: nat, ghost c: Item,
                  ghost rest: seq<Tok>, ghost work: nat)
    returns (ghost more: bool, ghost gs: seq<Frame>, ghost j: nat, ghost d: Item)
    requires Remains(o, lx, prog, fs, k, c, rest, work) && c.Loop?
    modifies lx
    ensures work > 0 && Follows(o, lx, prog, more, gs, j, d, rest, work - 1)
  {
    hide ComingAll, AllOk, FullOf, WorkOf, Full, Work, Copies, WentOn, Value, Wf, Begun;
    RemainsFacts(o, lx, prog, fs, k, c, rest, work);
    ghost var its, tail, f := ComingAll(lx.records, fs), FullOf(o, prog[k..]), c.f;
    LoopIsCopies(o, c, its, lx.playback, tail, work, WorkOf(o, prog[k..], false));
    its := Copies(f.x, Value(o, f.lo, map[]), Value(o, f.hi, map[]), StepValue(o, f.step, map[]), f.body) + its;
    more, d, gs, j := ParseLoop(o, lx, prog, fs, k, c);
    GoesOn(o, lx, prog, its, k, more, d, gs, j, work - 1);
  }

  /** The parser takes a token, and reads on. */
  method StepToken(o: C.Ops<int>, lx: Lexer, ghost prog: seq<Item>, ghost fs: seq<Frame>, ghost k: nat, ghost c: Item,
                   ghost rest: seq<Tok>, ghost work: nat)
    returns (t: Tok, ghost more: bool, ghost gs: seq<Frame>, ghost j: nat, ghost d: Item, ghost rest': seq<Tok>)
    requires Remains(o, lx, prog, fs, k, c, rest, work) && c.Token?
    modifies lx
    ensures work > 0 && rest == [t] + rest' && Follows(o, lx, prog, more, gs, j, d, rest', work - 1)
  {
    hide ComingAll, AllOk, FullOf, WorkOf, Full, Work, Copies, WentOn, Value, Wf, Begun;
    RemainsFacts(o, lx, prog, fs, k, c, rest, work);
    ghost var its, tail := ComingAll(lx.records, fs), FullOf(o, prog[k..]);
    TokenTaken(o, c, lx.playback, FullOf(o, its), tail, work, Plus(WorkOf(o, its, true), WorkOf(o, prog[k..], false)));
    TokenRead(lx, prog, fs, k, c);
    t, rest' := lx.token, FullOf(o, its) + tail;
    more, d, gs, j := NextItem(lx, prog, fs, k);
    GoesOn(o, lx, prog, its, k, more, d, gs, j, work - 1);
  }

  /** The program is read.  What the parser meets besides headers of loops is the program with all loops
      unrolled: if every loop counts up, and loops within loops run at least once. */
  method Unroll(o: C.Ops<int>, lx: Lexer, ghost ss: seq<Stmt>) returns (out: seq<Tok>)
    requires lx.Valid() && !lx.recording && !lx.playback && lx.file == TextAll(ss) + [Eof]
    requires WfAll(ss) && ClosedAll(ss, {}) && WorkAll(o, ss, map[], false).Some?
    modifies lx
    ensures out == FullAll(o, ss, map[]) && lx.token == Eof
  {
    hide Remains, FullAll, WorkAll, WfAll, ClosedAll, TextAll;
    ghost var more, prog, fs, k, c, work := ReadFirst(o, lx, ss);
    ghost var rest := FullAll(o, ss, map[]);
    out := [];
    while lx.token != Eof
      invariant Follows(o, lx, prog, more, fs, k, c, rest, work)
      invariant out + rest == FullAll(o, ss, map[])
      decreases work
    {
      RemainsFacts(o, lx, prog, fs, k, c, rest, work);
      if lx.token == FOR {
        more, fs, k, c := StepLoop(o, lx, prog, fs, k, c, rest, work);
      } else {
        var t;
        t, more, fs, k, c, rest := StepToken(o, lx, prog, fs, k, c, rest, work);
        assert out + ([t] + rest) == out + [t] + rest;
        out := out + [t];
      }
      work := work - 1;
    }
  }

  /** The first token of the program is read. */
  method ReadFirst(o: C.Ops<int>, lx: Lexer, ghost ss: seq<Stmt>)
    returns (ghost more: bool, ghost prog: seq<Item>, ghost fs: seq<Frame>, ghost k: nat, ghost c: Item, ghost work: nat)
    requires lx.Valid() && !lx.recording && !lx.playback && lx.file == TextAll(ss) + [Eof]
    requires WfAll(ss) && ClosedAll(ss, {}) && WorkAll(o, ss, map[], false).Some?
    modifies lx
    ensures Follows(o, lx, prog, more, fs, k, c, FullAll(o, ss, map[]), work)
  {
    hide ComingAll, FullOf, WorkOf, Full, Work, FullAll, WorkAll, WfAll, ClosedAll, TextAll, WentOn, Begun;
    prog, work := ItemsAll(ss), WorkAll(o, ss, map[], false).value;
    Start(lx, ss);
    more, c, fs, k := NextItem(lx, prog, [], 0);
    ItemsFullAll(o, ss, false);
    StartOn(o, prog, work);
    GoesOn(o, lx, prog, [], 0, more, c, fs, k, work);
  }

  lemma Start(lx: Lexer, ss: seq<Stmt>)
    requires lx.Valid() && !lx.recording && !lx.playback && lx.file == TextAll(ss) + [Eof]
    requires WfAll(ss) && ClosedAll(ss, {})
    ensures Holds(lx, ItemsAll(ss), [], 0) && lx.records == []
  {
    hide TextOf, Good;
    lx.LevelFacts(0);
    ItemsTextAll(ss);
    ItemsGoodAll(ss);
    assert ItemsAll(ss)[0..] == ItemsAll(ss);
    assert [] + lx.file == lx.file;
  }

  lemma StartOn(o: C.Ops<int>, prog: seq<Item>, work: nat)
    requires WorkOf(o, prog, false) == Some(work)
    ensures prog[0..] == prog && Plus(WorkOf(o, [], true), WorkOf(o, prog, false)) == Some(work)
    ensures FullOf(o, []) + FullOf(o, prog) == FullOf(o, prog) && (AllOk([], []) ==> ComingAll([], []) == [])
  {
    OneOf(o, Token(Eof), true);
  }
}
