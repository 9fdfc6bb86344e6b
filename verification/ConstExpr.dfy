/** The evaluator for constant expressions: one pass over the tokens with a stack of operands and a
    stack of operators, steered by the table of precedences (a smaller number binds tighter).  The
    arithmetic of the values is left open. */
module ConstExpr {

  import opened Wrappers

  /** Tokens, and the three entries that only occur on the operator stack or as its guard. */
  datatype Tok<V> =
    | Num(v: V) | LParen | RParen | Colon | Other
    | Plus | Minus | Tilda | Bang
    | Asterisk | Slash | Percent | LessLess | GreaterGreater | Ampersand | Carot | Vbar
    | Question
    | UnaryPlus | UnaryMinus | ExprBegin | ExprEnd

  /** What the operators do to values. */
  datatype Ops<!V> = Ops(bin: (Tok<V>, V, V) -> V, un: (Tok<V>, V) -> V, truth: V -> bool)

  function Prec<V>(t: Tok<V>): int {
    match t
    case LParen => 0
    case UnaryPlus => 3 case UnaryMinus => 3 case Tilda => 3 case Bang => 3
    case Asterisk => 4 case Slash => 4 case Percent => 4
    case Plus => 5 case Minus => 5
    case LessLess => 6 case GreaterGreater => 6
    case Ampersand => 9 case Carot => 10 case Vbar => 11
    case Question => 14
    case ExprBegin => 17 case ExprEnd => 18
    case _ => -1
  }

  predicate AssocLR(prec: int) { prec != 3 && prec != 14 && prec != 15 }

  predicate IsBinary<V>(t: Tok<V>) {
    4 <= Prec(t) <= 11
  }

  predicate IsPrefix<V>(t: Tok<V>) {
    t.Minus? || t.Plus? || t.Tilda? || t.Bang?
  }

  /** The name under which a prefix operator goes onto the stack. */
  function AsUnary<V>(t: Tok<V>): Tok<V> {
    if t.Minus? then UnaryMinus else if t.Plus? then UnaryPlus else t
  }

  // ------------------------------------------------------------------------------------------
  // The evaluator
  // ------------------------------------------------------------------------------------------

  /** The operator on the stack is carried out before `tk` is looked at further. */
  predicate Pops<V>(tk: Tok<V>, top: Tok<V>) {
    Prec(tk) > Prec(top) || (Prec(tk) == Prec(top) && AssocLR(Prec(tk)))
  }

  /** One operator carried out; None where the code runs into an assertion, as for `!`. */
  function Execute<V>(o: Ops<V>, top: Tok<V>, vs: seq<V>): Option<seq<V>> {
    var n := |vs|;
    if top.UnaryPlus? || top.UnaryMinus? || top.Tilda? then
      if n < 1 then None else Some(vs[..n - 1] + [o.un(top, vs[n - 1])])
    else if top.Question? then
      if n < 3 then None else Some(vs[..n - 3] + [if o.truth(vs[n - 3]) then vs[n - 2] else vs[n - 1]])
    else if n < 2 || !IsBinary(top) then None
    else Some(vs[..n - 2] + [o.bin(top, vs[n - 2], vs[n - 1])])
  }

  /** Operators are carried out until `tk` can be pushed, or the start of the expression is reached. */
  function Reduce<V>(o: Ops<V>, tk: Tok<V>, vs: seq<V>, os: seq<Tok<V>>): Option<(seq<V>, seq<Tok<V>>)>
    decreases |os|
  {
    if os == [] then None
    else
      var n := |os| - 1;
      if Pops(tk, os[n]) then
        if os[n].ExprBegin? then
          if |vs| == 1 && n == 0 then Some((vs, [])) else None
        else
          var r := Execute(o, os[n], vs);
          if r.None? then None else Reduce(o, tk, r.value, os[..n])
      else Some((vs, os + [tk]))
  }

  /** An expression and the tokens behind it. */
  function Parse<V>(o: Ops<V>, ts: seq<Tok<V>>): (r: Option<(V, seq<Tok<V>>)>)
    ensures r.Some? ==> |r.value.1| < |ts|
    decreases |ts|, 3
  {
    Loop(o, ts, [], [ExprBegin])
  }

  /** An operand, with its prefix operator if it has one, and what follows. */
  function Loop<V>(o: Ops<V>, ts: seq<Tok<V>>, vs: seq<V>, os: seq<Tok<V>>): (r: Option<(V, seq<Tok<V>>)>)
    ensures r.Some? ==> |r.value.1| < |ts|
    decreases |ts|, 2
  {
    if ts == [] then None
    else if IsPrefix(ts[0]) then
      var r := Reduce(o, AsUnary(ts[0]), vs, os);
      if r.None? then None else Operand(o, ts[1..], r.value.0, r.value.1)
    else Operand(o, ts, vs, os)
  }

  function Operand<V>(o: Ops<V>, ts: seq<Tok<V>>, vs: seq<V>, os: seq<Tok<V>>): (r: Option<(V, seq<Tok<V>>)>)
    ensures r.Some? ==> |r.value.1| < |ts|
    decreases |ts|, 1
  {
    if ts == [] then None
    else if ts[0].Num? then Next(o, ts[1..], vs + [ts[0].v], os)
    else if ts[0].LParen? then
      var r := Parse(o, ts[1..]);
      if r.None? || r.value.1 == [] || !r.value.1[0].RParen? then None
      else Next(o, r.value.1[1..], vs + [r.value.0], os)
    else None
  }

  /** The token that the stacks are reduced for: an operator, or the end of the expression. */
  function Guard<V>(ts: seq<Tok<V>>): Tok<V> {
    if ts != [] && (IsBinary(ts[0]) || ts[0].Question?) then ts[0] else ExprEnd
  }

  function Next<V>(o: Ops<V>, ts: seq<Tok<V>>, vs: seq<V>, os: seq<Tok<V>>): (r: Option<(V, seq<Tok<V>>)>)
    ensures r.Some? ==> |r.value.1| <= |ts|
    decreases |ts|, 4
  {
    var s := Reduce(o, Guard(ts), vs, os);
    if s.None? then None
    else if Guard(ts).ExprEnd? then
      if |s.value.0| == 1 && s.value.1 == [] then Some((s.value.0[0], ts)) else None
    else if IsBinary(ts[0]) then Loop(o, ts[1..], s.value.0, s.value.1)
    else
      var r := Parse(o, ts[1..]);
      if r.None? || r.value.1 == [] || !r.value.1[0].Colon? then None
      else Loop(o, r.value.1[1..], s.value.0 + [r.value.0], s.value.1)
  }

  // ------------------------------------------------------------------------------------------
  // Expressions
  // ------------------------------------------------------------------------------------------

  datatype Expr<V> =
    | Lit(v: V)
    | Paren(e: Expr<V>)
    | Un(op: Tok<V>, e: Expr<V>)
    | Bin(op: Tok<V>, l: Expr<V>, r: Expr<V>)
    | Cond(c: Expr<V>, l: Expr<V>, r: Expr<V>)

  /** A tree over the operators of the language. */
  predicate Legal<V>(e: Expr<V>) {
    match e
    case Lit(_) => true
    case Paren(x) => Legal(x)
    case Un(op, x) => IsPrefix(op) && Legal(x)
    case Bin(op, l, r) => IsBinary(op) && Legal(l) && Legal(r)
    case Cond(c, l, r) => Legal(c) && Legal(l) && Legal(r)
  }

  function Level<V>(e: Expr<V>): int {
    match e
    case Lit(_) => 0
    case Paren(_) => 0
    case Un(_, _) => 3
    case Bin(op, _, _) => Prec(op)
    case Cond(_, _, _) => 14
  }

  /** The tree in tokens, in parentheses where it does not bind tight enough for its place.  A
      prefix operator stands in front of a number or a parenthesis. */
  function Print<V>(e: Expr<V>, lvl: int): seq<Tok<V>>
    decreases e, 1
  {
    if Level(e) <= lvl then Text(e) else [LParen] + Text(e) + [RParen]
  }

  function Text<V>(e: Expr<V>): seq<Tok<V>>
    decreases e, 0
  {
    match e
    case Lit(v) => [Num(v)]
    case Paren(x) => [LParen] + Print(x, 14) + [RParen]
    case Un(op, x) => [op] + Print(x, 0)
    case Bin(op, l, r) => Print(l, Prec(op)) + [op] + Print(r, Prec(op) - 1)
    case Cond(c, l, r) => Print(c, 13) + [Question] + Print(l, 14) + [Colon] + Print(r, 14)
  }

  function Value<V>(o: Ops<V>, e: Expr<V>): V {
    match e
    case Lit(v) => v
    case Paren(x) => Value(o, x)
    case Un(op, x) => o.un(AsUnary(op), Value(o, x))
    case Bin(op, l, r) => o.bin(op, Value(o, l), Value(o, r))
    case Cond(c, l, r) => if o.truth(Value(o, c)) then Value(o, l) else Value(o, r)
  }

  predicate HasBang<V>(e: Expr<V>) {
    match e
    case Lit(_) => false
    case Paren(x) => HasBang(x)
    case Un(op, x) => op.Bang? || HasBang(x)
    case Bin(_, l, r) => HasBang(l) || HasBang(r)
    case Cond(c, l, r) => HasBang(c) || HasBang(l) || HasBang(r)
  }

  // ------------------------------------------------------------------------------------------
  // The round trip
  // ------------------------------------------------------------------------------------------

  /** What follows is not an operator that binds tighter than `lvl`. */
  predicate Stops<V>(rest: seq<Tok<V>>, lvl: int) {
    Prec(Guard(rest)) > lvl || (Prec(Guard(rest)) == lvl && AssocLR(lvl))
  }

  /** The operator on the stack waits for an operand of this level. */
  predicate Waits<V>(os: seq<Tok<V>>, lvl: int) {
    os != [] && (Prec(os[|os| - 1]) > lvl || (Prec(os[|os| - 1]) == lvl && !AssocLR(lvl)))
  }

  /** The evaluator's view of an operand that is a tree. */
  function Taken<V>(o: Ops<V>, e: Expr<V>, rest: seq<Tok<V>>, vs: seq<V>, os: seq<Tok<V>>): Option<(V, seq<Tok<V>>)> {
    if HasBang(e) then None else Next(o, rest, vs + [Value(o, e)], os)
  }

  lemma SameNext<V>(o: Ops<V>, ts: seq<Tok<V>>, vs: seq<V>, os: seq<Tok<V>>, vs': seq<V>, os': seq<Tok<V>>)
    requires Reduce(o, Guard(ts), vs, os) == Reduce(o, Guard(ts), vs', os')
    ensures Next(o, ts, vs, os) == Next(o, ts, vs', os')
  {
  }

  /** An operator that `tk` does not bind tighter than is carried out. */
  lemma PopOne<V>(o: Ops<V>, tk: Tok<V>, vs: seq<V>, os: seq<Tok<V>>, top: Tok<V>)
    requires Pops(tk, top) && !top.ExprBegin?
    ensures var r := Execute(o, top, vs);
            Reduce(o, tk, vs, os + [top]) == if r.None? then None else Reduce(o, tk, r.value, os)
  {
    assert (os + [top])[..|os|] == os;
  }

  lemma PushOne<V>(o: Ops<V>, tk: Tok<V>, vs: seq<V>, os: seq<Tok<V>>)
    requires os != [] && !Pops(tk, os[|os| - 1])
    ensures Reduce(o, tk, vs, os) == Some((vs, os + [tk]))
  {
  }

  lemma {:induction false} FirstTok<V>(e: Expr<V>, lvl: int)
    requires Legal(e)
    ensures Print(e, lvl) != []
    ensures Level(e) == 0 || Level(e) > lvl ==> Print(e, lvl)[0].Num? || Print(e, lvl)[0].LParen?
  {
  }

  /** A tree in parentheses is one operand. */
  lemma {:induction false} ParenTaken<V>(o: Ops<V>, e: Expr<V>, rest: seq<Tok<V>>, vs: seq<V>, os: seq<Tok<V>>)
    requires Legal(e)
    requires Parse(o, Print(e, 14) + ([RParen] + rest)) ==
             if HasBang(e) then None else Some((Value(o, e), [RParen] + rest))
    ensures Operand(o, [LParen] + Print(e, 14) + [RParen] + rest, vs, os) == Taken(o, e, rest, vs, os)
  {
    var ts := [LParen] + Print(e, 14) + [RParen] + rest;
    assert ts[1..] == Print(e, 14) + ([RParen] + rest);
    assert ([RParen] + rest)[1..] == rest;
  }

  /** A whole expression, up to a token that cannot continue it: its text is consumed, its value
      returned, and both stacks end up empty; but an expression with `!` ends in an assertion. */
  lemma {:induction false} ParseTaken<V>(o: Ops<V>, e: Expr<V>, rest: seq<Tok<V>>)
    requires Legal(e) && Guard(rest).ExprEnd?
    ensures Parse(o, Print(e, 14) + rest) == if HasBang(e) then None else Some((Value(o, e), rest))
    decreases e, 2
  {
    hide Text, Reduce;
    LoopTaken(o, e, 14, rest, [], [ExprBegin]);
    assert [] + [Value(o, e)] == [Value(o, e)];
    EndParse(o, Value(o, e));
  }

  lemma EndParse<V>(o: Ops<V>, v: V)
    ensures Reduce(o, ExprEnd, [v], [ExprBegin]) == Some(([v], []))
  {
  }

  lemma {:induction false} LoopTaken<V>(o: Ops<V>, e: Expr<V>, lvl: int, rest: seq<Tok<V>>, vs: seq<V>, os: seq<Tok<V>>)
    requires Legal(e) && 3 <= lvl <= 14 && Stops(rest, lvl) && Waits(os, lvl)
    ensures Loop(o, Print(e, lvl) + rest, vs, os) == Taken(o, e, rest, vs, os)
    decreases e, if Level(e) > lvl then 4 else 1
  {
    hide Next, Reduce, Parse, Text, Taken;
    if Level(e) > lvl || e.Lit? || e.Paren? {
      PrimaryTaken(o, e, lvl, rest, vs, os);
      FirstTok(e, lvl);
      assert (Print(e, lvl) + rest)[0] == Print(e, lvl)[0];
    } else if e.Un? {
      UnTaken(o, e, lvl, rest, vs, os);
    } else if e.Bin? {
      BinTaken(o, e, lvl, rest, vs, os);
    } else {
      CondTaken(o, e, rest, vs, os);
    }
  }

  /** A number, or a tree in parentheses. */
  lemma {:induction false} PrimaryTaken<V>(o: Ops<V>, e: Expr<V>, lvl: int, rest: seq<Tok<V>>, vs: seq<V>, os: seq<Tok<V>>)
    requires Legal(e) && 0 <= lvl <= 14 && (Level(e) > lvl || e.Lit? || e.Paren?)
    ensures Operand(o, Print(e, lvl) + rest, vs, os) == Taken(o, e, rest, vs, os)
    decreases e, if Level(e) > lvl then 3 else 0
  {
    hide Next, Reduce;
    if Level(e) > lvl {
      ParseTaken(o, e, [RParen] + rest);
      ParenTaken(o, e, rest, vs, os);
    } else if e.Lit? {
      assert ([Num(e.v)] + rest)[1..] == rest;
    } else {
      ParseTaken(o, e.e, [RParen] + rest);
      ParenTaken(o, e.e, rest, vs, os);
    }
  }

  lemma {:induction false} UnTaken<V>(o: Ops<V>, e: Expr<V>, lvl: int, rest: seq<Tok<V>>, vs: seq<V>, os: seq<Tok<V>>)
    requires Legal(e) && e.Un? && 3 <= lvl <= 14 && Stops(rest, lvl) && Waits(os, lvl)
    ensures Loop(o, Print(e, lvl) + rest, vs, os) == Taken(o, e, rest, vs, os)
    decreases e, 0
  {
    var ts := Print(e.e, 0) + rest;
    var un := AsUnary(e.op);
    assert Print(e, lvl) + rest == [e.op] + ts;
    PushOne(o, un, vs, os);
    LoopPrefix(o, e.op, ts, vs, os);
    PrimaryTaken(o, e.e, 0, rest, vs, os + [un]);
    hide Next, Operand, Loop, Reduce, Text, Print;
    if !HasBang(e.e) {
      var vs1 := vs + [Value(o, e.e)];
      PopOne(o, Guard(rest), vs1, os, un);
      if un.Bang? {
        NextNone(o, rest, vs1, os + [un]);
      } else {
        assert vs1[..|vs1| - 1] == vs;
        SameNext(o, rest, vs1, os + [un], vs + [Value(o, e)], os);
      }
    }
  }

  lemma LoopPrefix<V>(o: Ops<V>, op: Tok<V>, ts: seq<Tok<V>>, vs: seq<V>, os: seq<Tok<V>>)
    requires IsPrefix(op) && Reduce(o, AsUnary(op), vs, os) == Some((vs, os + [AsUnary(op)]))
    ensures Loop(o, [op] + ts, vs, os) == Operand(o, ts, vs, os + [AsUnary(op)])
  {
    assert ([op] + ts)[1..] == ts;
  }

  lemma NextNone<V>(o: Ops<V>, ts: seq<Tok<V>>, vs: seq<V>, os: seq<Tok<V>>)
    requires Reduce(o, Guard(ts), vs, os).None?
    ensures Next(o, ts, vs, os).None?
  {
  }

  lemma {:induction false} BinTaken<V>(o: Ops<V>, e: Expr<V>, lvl: int, rest: seq<Tok<V>>, vs: seq<V>, os: seq<Tok<V>>)
    requires Legal(e) && e.Bin? && Prec(e.op) <= lvl <= 14 && Stops(rest, lvl) && Waits(os, lvl)
    ensures Loop(o, Print(e, lvl) + rest, vs, os) == Taken(o, e, rest, vs, os)
    decreases e, 0
  {
    hide Next, Loop, Reduce, Text, Print, Legal;
    var p := Prec(e.op);
    var ts := Print(e.r, p - 1) + rest;
    BinText(e, lvl, rest);
    LoopTaken(o, e.l, p, [e.op] + ts, vs, os);
    if !HasBang(e.l) {
      var vs1 := vs + [Value(o, e.l)];
      PushOne(o, e.op, vs1, os);
      NextBinary(o, e.op, ts, vs1, os);
      LoopTaken(o, e.r, p - 1, rest, vs1, os + [e.op]);
      if !HasBang(e.r) {
        var vs2 := vs1 + [Value(o, e.r)];
        PopOne(o, Guard(rest), vs2, os, e.op);
        assert vs2[..|vs2| - 2] == vs;
        SameNext(o, rest, vs2, os + [e.op], vs + [Value(o, e)], os);
      }
    }
  }

  lemma BinText<V>(e: Expr<V>, lvl: int, rest: seq<Tok<V>>)
    requires Legal(e) && e.Bin? && Prec(e.op) <= lvl
    ensures IsBinary(e.op) && Legal(e.l) && Legal(e.r)
    ensures Print(e, lvl) + rest == Print(e.l, Prec(e.op)) + ([e.op] + (Print(e.r, Prec(e.op) - 1) + rest))
  {
    assert Text(e) == Print(e.l, Prec(e.op)) + [e.op] + Print(e.r, Prec(e.op) - 1);
  }

  lemma NextBinary<V>(o: Ops<V>, op: Tok<V>, ts: seq<Tok<V>>, vs: seq<V>, os: seq<Tok<V>>)
    requires IsBinary(op) && Reduce(o, op, vs, os) == Some((vs, os + [op]))
    ensures Next(o, [op] + ts, vs, os) == Loop(o, ts, vs, os + [op])
  {
    assert ([op] + ts)[1..] == ts;
  }

  lemma {:induction false} CondTaken<V>(o: Ops<V>, e: Expr<V>, rest: seq<Tok<V>>, vs: seq<V>, os: seq<Tok<V>>)
    requires Legal(e) && e.Cond? && Stops(rest, 14) && Waits(os, 14)
    ensures Loop(o, Print(e, 14) + rest, vs, os) == Taken(o, e, rest, vs, os)
    decreases e, 0
  {
    hide Next, Loop, Reduce, Text, Print, Parse, Legal;
    var ts2 := Print(e.r, 14) + rest;
    var ts1 := Print(e.l, 14) + ([Colon] + ts2);
    CondText(e, rest);
    LoopTaken(o, e.c, 13, [Question] + ts1, vs, os);
    if !HasBang(e.c) {
      var vs1 := vs + [Value(o, e.c)];
      PushOne(o, Question, vs1, os);
      ParseTaken(o, e.l, [Colon] + ts2);
      NextQuestion(o, ts1, vs1, os);
      if !HasBang(e.l) {
        assert ([Colon] + ts2)[1..] == ts2;
        var vs2 := vs1 + [Value(o, e.l)];
        LoopTaken(o, e.r, 14, rest, vs2, os + [Question]);
        if !HasBang(e.r) {
          var vs3 := vs2 + [Value(o, e.r)];
          PopOne(o, Guard(rest), vs3, os, Question);
          assert vs3[..|vs3| - 3] == vs;
          SameNext(o, rest, vs3, os + [Question], vs + [Value(o, e)], os);
        }
      }
    }
  }

  lemma CondText<V>(e: Expr<V>, rest: seq<Tok<V>>)
    requires Legal(e) && e.Cond?
    ensures Legal(e.c) && Legal(e.l) && Legal(e.r)
    ensures Print(e, 14) + rest ==
            Print(e.c, 13) + ([Question] + (Print(e.l, 14) + ([Colon] + (Print(e.r, 14) + rest))))
  {
    assert Text(e) == Print(e.c, 13) + [Question] + Print(e.l, 14) + [Colon] + Print(e.r, 14);
  }

  lemma NextQuestion<V>(o: Ops<V>, ts: seq<Tok<V>>, vs: seq<V>, os: seq<Tok<V>>)
    requires Reduce(o, Question, vs, os) == Some((vs, os + [Question]))
    ensures Next(o, [Question] + ts, vs, os) ==
            var r := Parse(o, ts);
            if r.None? || r.value.1 == [] || !r.value.1[0].Colon? then None
            else Loop(o, r.value.1[1..], vs + [r.value.0], os + [Question])
  {
    assert ([Question] + ts)[1..] == ts;
  }

  // ------------------------------------------------------------------------------------------
  // The stacks
  // ------------------------------------------------------------------------------------------

  /** Operators are carried out on the two stacks. */
  method ParseEvalConstExpr<V>(o: Ops<V>, tk: Tok<V>, operands: seq<V>, operators: seq<Tok<V>>)
    returns (ok: bool, vs: seq<V>, os: seq<Tok<V>>)
    ensures ok <==> Reduce(o, tk, operands, operators).Some?
    ensures ok ==> Reduce(o, tk, operands, operators) == Some((vs, os))
  {
    vs, os := operands, operators;
    while true
      invariant Reduce(o, tk, operands, operators) == Reduce(o, tk, vs, os)
      decreases |os|
    {
      if os == [] {
        return false, vs, os;
      }
      var top := os[|os| - 1];
      if !Pops(tk, top) {
        os := os + [tk];
        return true, vs, os;
      }
      os := os[..|os| - 1];
      if top.ExprBegin? {
        ok := |vs| == 1 && os == [];
        return;
      }
      var r := Execute(o, top, vs);
      if r.None? {
        return false, vs, os;
      }
      vs := r.value;
    }
  }
}
