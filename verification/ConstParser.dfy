/** The parser of constant expressions reads its tokens from the lexer, which may be playing loops back.  It
    does what the evaluator does with the tokens to come, and does not leave the list being played back
    when the expression ends in it. */
module ConstParser {
  import opened Wrappers
  import opened LoopUnroll
  import C = ConstExpr

  /** A token as the evaluator sees it. */
  function AsConst(t: Tok): C.Tok<int> {
    if t.Num? then C.Num(t.v)
    else if t == Id("true") then C.Num(1)
    else if t == Id("false") then C.Num(0)
    else if t == OPEN then C.LParen else if t == CLOSE then C.RParen
    else if t == COLON then C.Colon else if t == QUESTION then C.Question
    else if t == PLUS then C.Plus else if t == MINUS then C.Minus
    else if t == TILDA then C.Tilda else if t == BANG then C.Bang
    else if t == ASTERISK then C.Asterisk else if t == SLASH then C.Slash else if t == PERCENT then C.Percent
    else if t == LESS_LESS then C.LessLess else if t == GREATER_GREATER then C.GreaterGreater
    else if t == AMPERSAND then C.Ampersand else if t == CAROT then C.Carot else if t == VBAR then C.Vbar
    else C.Tok.Other
  }

  function AsConsts(ts: seq<Tok>): (r: seq<C.Tok<int>>)
    ensures |r| == |ts|
  {
    seq(|ts|, i requires 0 <= i < |ts| => AsConst(ts[i]))
  }

  lemma AsConstsParts(ts: seq<Tok>)
    ensures ts != [] ==> AsConsts(ts)[0] == AsConst(ts[0]) && AsConsts(ts)[1..] == AsConsts(ts[1..])
  {
  }

  lemma AsConstsAppend(a: seq<Tok>, b: seq<Tok>)
    ensures AsConsts(a + b) == AsConsts(a) + AsConsts(b)
  {
  }

  // ------------------------------------------------------------------------------------------
  // Where the lexer is
  // ------------------------------------------------------------------------------------------

  /** The current token and those to come, those that come before the end of the list being played back,
      and what only changes when that list is left. */
  datatype Place = Place(ahead: seq<Tok>, window: seq<Tok>, level: int, playback: bool, removed: Option<Tok>,
                         file: seq<Tok>, records: seq<Record>)

  ghost predicate Reads(lx: Lexer)
    reads lx
  {
    lx.Valid() && !lx.recording
  }

  ghost function PlaceOf(lx: Lexer): Place
    requires Reads(lx)
    reads lx
  {
    Place([lx.token] + lx.Upcoming(), lx.Window(), lx.level, lx.playback, lx.removed, lx.file, lx.records)
  }

  /** The lexer has moved on, but not out of the list being played back. */
  predicate Stays(a: Place, b: Place) {
    && b.level == a.level && b.playback == a.playback && b.removed == a.removed
    && |b.records| == |a.records| == a.level + 1
    && (a.level >= 0 ==>
          b.file == a.file && b.records == a.records[a.level := a.records[a.level].(pos := b.records[a.level].pos)])
  }

  /** It has moved on by `n` tokens. */
  predicate Goes(a: Place, b: Place, n: nat) {
    && n <= |a.ahead| && b.ahead == a.ahead[n..]
    && (n <= |a.window| ==> b.window == a.window[n..] && Stays(a, b))
  }

  lemma GoesTwice(a: Place, b: Place, c: Place, n: nat, m: nat)
    requires Goes(a, b, n) && Goes(b, c, m)
    ensures Goes(a, c, n + m)
  {
    assert a.ahead[n..][m..] == a.ahead[n + m..];
    if n + m <= |a.window| {
      assert a.window[n..][m..] == a.window[n + m..];
    }
  }

  lemma GoesNowhere(lx: Lexer)
    requires Reads(lx)
    ensures Goes(PlaceOf(lx), PlaceOf(lx), 0)
  {
    hide AllPlaying, Lexer.Window, Lexer.Upcoming;
  }

  lemma InWindow(lx: Lexer)
    requires lx.Valid() && !lx.recording && lx.Window() != []
    ensures lx.Upcoming() != []
    ensures lx.playback ==>
      var r := lx.records[lx.level];
      var r1 := r.(pos := r.pos + 1);
      && NextRecords(lx.records) == lx.records[lx.level := r1]
      && -1 <= r1.pos < |r1.list| && Left(r) == [At(r1)] + Left(r1)
  {
    hide Rest, RestAll, AllPlaying, Passes, SubstAll, Left;
    lx.LevelFacts(0);
    if lx.playback {
      lx.Top();
      StepWithin(lx.records, lx.records[lx.level]);
    } else {
      lx.NoRecords();
    }
  }

  lemma {:induction false} StepWithin(rs: seq<Record>, r: Record)
    requires rs != [] && r == rs[|rs| - 1] && Playing(r) && Left(r) != []
    ensures var r1 := r.(pos := r.pos + 1);
      && NextRecords(rs) == rs[|rs| - 1 := r1] && -1 <= r1.pos < |r1.list| && Left(r) == [At(r1)] + Left(r1)
      && Rest(r) != []
  {
    RestStep(r);
    LeftSkip(r, 1);
    LeftAt(r, 0);
    assert Left(r) == [Left(r)[0]] + Left(r)[1..];
  }

  /** The list being played back comes first. */
  lemma WindowFirst(lx: Lexer)
    requires Reads(lx)
    ensures lx.Window() <= lx.Upcoming()
  {
    hide Rest, RestAll, AllPlaying, Passes, SubstAll;
    lx.LevelFacts(0);
    if lx.playback {
      lx.Top();
      RestSkip0(lx.records[lx.level]);
    } else {
      lx.NoRecords();
    }
  }

  lemma RestSkip0(r: Record)
    requires Playing(r)
    ensures Left(r) <= Rest(r)
  {
  }

  method NextToken(lx: Lexer) returns (tk: Tok)
    requires Reads(lx) && lx.Upcoming() != []
    modifies lx
    ensures Reads(lx) && lx.token == tk && Goes(old(PlaceOf(lx)), PlaceOf(lx), 1)
    ensures old(lx.Upcoming()) == [tk] + lx.Upcoming()
    ensures Eof in old(lx.Upcoming()) ==> Eof in PlaceOf(lx).ahead
    ensures old(lx.Window()) != [] ==> old(lx.Window()) == [tk] + lx.Window()
  {
    hide SubstAll, Left, RestAll, AllPlaying;
    lx.LevelFacts(0);
    if lx.Window() != [] {
      InWindow(lx);
    }
    tk := lx.GetNextToken();
    lx.LevelFacts(0);
  }

  // ------------------------------------------------------------------------------------------
  // The parser
  // ------------------------------------------------------------------------------------------

  /** The current token and those to come, as the evaluator sees them. */
  ghost function Ahead(lx: Lexer): seq<C.Tok<int>>
    requires Reads(lx)
    reads lx
  {
    AsConsts(PlaceOf(lx).ahead)
  }

  /** Tokens can be read: the end of the file is still to come. */
  ghost predicate HasEnd(lx: Lexer): (e: bool)
    ensures e ==> Reads(lx)
    reads lx
  {
    Reads(lx) && Eof in PlaceOf(lx).ahead
  }

  lemma Current(lx: Lexer)
    requires Reads(lx)
    ensures Ahead(lx) != [] && Ahead(lx)[0] == AsConst(lx.token)
  {
    AsConstsParts(PlaceOf(lx).ahead);
  }

  /** The current token, which is not the end of the file, is passed over. */
  method PassOver(lx: Lexer, ghost was: Place, ghost n: nat)
    requires HasEnd(lx) && lx.token != Eof && Goes(was, PlaceOf(lx), n)
    modifies lx
    ensures HasEnd(lx) && Goes(was, PlaceOf(lx), n + 1)
    ensures |old(Ahead(lx))| > 0 && Ahead(lx) == old(Ahead(lx))[1..]
  {
    hide Lexer.Valid, Lexer.Upcoming, Lexer.Window, Goes;
    ghost var a, here := PlaceOf(lx).ahead, PlaceOf(lx);
    assert a[0] == lx.token && a[1..] == lx.Upcoming();
    assert Eof in lx.Upcoming();
    var tk := NextToken(lx);
    AsConstsParts(a);
    GoesTwice(was, here, PlaceOf(lx), n, 1);
  }

  /** The value of the expression at the current token.  The lexer went on by `n` tokens before, and has
      gone on by `m` afterwards. */
  method ParseConstExpr(lx: Lexer, o: C.Ops<int>, ghost was: Place, ghost n: nat)
    returns (value: Option<int>, ghost m: nat)
    requires HasEnd(lx) && Goes(was, PlaceOf(lx), n)
    modifies lx
    ensures HasEnd(lx) && Goes(was, PlaceOf(lx), m) && |Ahead(lx)| <= |old(Ahead(lx))|
    ensures var r := C.Parse(o, old(Ahead(lx)));
            if r.None? then value.None? else value == Some(r.value.0) && Ahead(lx) == r.value.1
    decreases |Ahead(lx)|, 2
  {
    hide C.Loop, C.Operand, C.Next, HasEnd, Ahead, PlaceOf, Goes;
    var vs: seq<int>, os: seq<C.Tok<int>> := [], [C.ExprBegin];
    var go := true;
    value, m := None, n;
    while go
      invariant HasEnd(lx) && Goes(was, PlaceOf(lx), m) && |Ahead(lx)| <= |old(Ahead(lx))| && (go || value.Some?)
      invariant C.Parse(o, old(Ahead(lx))) ==
                if go then C.Loop(o, Ahead(lx), vs, os) else Some((value.value, Ahead(lx)))
      decreases |Ahead(lx)|, go
    {
      var ok, v;
      ok, vs, os, m := ParsePrefix(lx, o, vs, os, was, m);
      if !ok {
        return None, m;
      }
      v, m := ParseOperand(lx, o, was, m);
      if v.None? {
        return None, m;
      }
      ok, go, vs, os, m := ParseOperator(lx, o, vs + [v.value], os, was, m);
      if !ok {
        return None, m;
      }
      if !go {
        value := Some(vs[0]);
      }
    }
  }

  /** A prefix operator, if there is one. */
  method ParsePrefix(lx: Lexer, o: C.Ops<int>, vs: seq<int>, os: seq<C.Tok<int>>, ghost was: Place, ghost n: nat)
    returns (ok: bool, vs': seq<int>, os': seq<C.Tok<int>>, ghost m: nat)
    requires HasEnd(lx) && Goes(was, PlaceOf(lx), n)
    modifies lx
    ensures HasEnd(lx) && Goes(was, PlaceOf(lx), m) && |Ahead(lx)| <= |old(Ahead(lx))|
    ensures C.Loop(o, old(Ahead(lx)), vs, os) == if ok then C.Operand(o, Ahead(lx), vs', os') else None
  {
    hide C.Reduce, C.Operand, HasEnd, Ahead, PlaceOf, Goes;
    Current(lx);
    ok, vs', os', m := true, vs, os, n;
    if C.IsPrefix(AsConst(lx.token)) {
      ok, vs', os' := C.ParseEvalConstExpr(o, C.AsUnary(AsConst(lx.token)), vs, os);
      PassOver(lx, was, n);
      m := n + 1;
    }
  }

  /** What follows an operand: an operator, or the end of the expression. */
  method ParseOperator(lx: Lexer, o: C.Ops<int>, vs: seq<int>, os: seq<C.Tok<int>>, ghost was: Place, ghost n: nat)
    returns (ok: bool, go: bool, vs': seq<int>, os': seq<C.Tok<int>>, ghost m: nat)
    requires HasEnd(lx) && Goes(was, PlaceOf(lx), n)
    modifies lx
    ensures HasEnd(lx) && Goes(was, PlaceOf(lx), m)
    ensures |Ahead(lx)| <= |old(Ahead(lx))| && (go ==> |Ahead(lx)| < |old(Ahead(lx))|)
    ensures ok && !go ==> |vs'| == 1
    ensures C.Next(o, old(Ahead(lx)), vs, os) ==
            if !ok then None else if go then C.Loop(o, Ahead(lx), vs', os') else Some((vs'[0], Ahead(lx)))
    decreases |Ahead(lx)|, 1
  {
    hide C.Reduce, C.Loop, C.Parse, HasEnd, Ahead, PlaceOf, Goes;
    Current(lx);
    go, m := false, n;
    var tk := if C.IsBinary(AsConst(lx.token)) || lx.token == QUESTION then AsConst(lx.token) else C.ExprEnd;
    assert tk == C.Guard(Ahead(lx));
    ok, vs', os' := C.ParseEvalConstExpr(o, tk, vs, os);
    if !ok {
      return;
    }
    if tk.ExprEnd? {
      ok := |vs'| == 1 && os' == [];
      return;
    }
    go := true;
    PassOver(lx, was, m);
    m := m + 1;
    if tk.Question? {
      var w;
      w, m := ParseMiddle(lx, o, was, m);
      if w.None? {
        return false, false, vs', os', m;
      }
      vs' := vs' + [w.value];
    }
  }

  /** The middle operand of a conditional, and the colon behind it. */
  method ParseMiddle(lx: Lexer, o: C.Ops<int>, ghost was: Place, ghost n: nat) returns (value: Option<int>, ghost m: nat)
    requires HasEnd(lx) && Goes(was, PlaceOf(lx), n)
    modifies lx
    ensures HasEnd(lx) && Goes(was, PlaceOf(lx), m) && |Ahead(lx)| <= |old(Ahead(lx))|
    ensures var r := C.Parse(o, old(Ahead(lx)));
            if r.None? || r.value.1 == [] || !r.value.1[0].Colon? then value.None?
            else value == Some(r.value.0) && Ahead(lx) == r.value.1[1..]
    decreases |Ahead(lx)|, 3
  {
    hide C.Parse, HasEnd, Ahead, PlaceOf, Goes;
    value, m := ParseConstExpr(lx, o, was, n);
    Current(lx);
    if value.None? || lx.token != COLON {
      return None, m;
    }
    PassOver(lx, was, m);
    m := m + 1;
  }

  /** A number, or an expression in parentheses. */
  method ParseOperand(lx: Lexer, o: C.Ops<int>, ghost was: Place, ghost n: nat) returns (value: Option<int>, ghost m: nat)
    requires HasEnd(lx) && Goes(was, PlaceOf(lx), n)
    modifies lx
    ensures HasEnd(lx) && Goes(was, PlaceOf(lx), m)
    ensures |Ahead(lx)| <= |old(Ahead(lx))| && (value.Some? ==> |Ahead(lx)| < |old(Ahead(lx))|)
    ensures forall vs, os ::
      C.Operand(o, old(Ahead(lx)), vs, os) ==
        if value.None? then None else C.Next(o, Ahead(lx), vs + [value.value], os)
    decreases |Ahead(lx)|, 0
  {
    hide C.Next, C.Parse, HasEnd, Ahead, PlaceOf, Goes;
    Current(lx);
    m := n;
    var tk := AsConst(lx.token);
    if tk.Num? {
      value := Some(tk.v);
      PassOver(lx, was, m);
      m := m + 1;
    } else if tk.LParen? {
      PassOver(lx, was, m);
      value, m := ParseConstExpr(lx, o, was, m + 1);
      Current(lx);
      if value.None? || lx.token != CLOSE {
        return None, m;
      }
      PassOver(lx, was, m);
      m := m + 1;
    } else {
      return None, m;
    }
  }
}
