/** The grammar of constant expressions, level by level, without a table of precedences: it is the text
    that the evaluator reads. */
module ConstGrammar {
  import opened Wrappers
  import opened ConstExpr

  /** The binary operators of levels 2 to 7, those that bind tightest first. */
  predicate OnLevel<V>(t: Tok<V>, k: nat) {
    match k
    case 2 => t.Asterisk? || t.Slash? || t.Percent?
    case 3 => t.Plus? || t.Minus?
    case 4 => t.LessLess? || t.GreaterGreater?
    case 5 => t.Ampersand?
    case 6 => t.Carot?
    case 7 => t.Vbar?
    case _ => false
  }

  function LevelOf<V>(t: Tok<V>): (k: nat)
    ensures k <= 7 && (k >= 2 ==> OnLevel(t, k)) && (k < 2 ==> forall j :: !OnLevel(t, j))
  {
    if OnLevel(t, 2) then 2 else if OnLevel(t, 3) then 3 else if OnLevel(t, 4) then 4
    else if OnLevel(t, 5) then 5 else if OnLevel(t, 6) then 6 else if OnLevel(t, 7) then 7 else 0
  }

  function InParens<V>(p: seq<Tok<V>>): seq<Tok<V>> { [LParen] + p + [RParen] }

  /** `e` where something of level `k` is asked for, in parentheses if it is of a higher one.  On level 0
      are numbers and what stands in parentheses, on level 1 a prefix operator and something of level 0,
      on levels 2 to 7 binary operators, with something of the same level on their left and something
      of the next tighter one on their right, and on level 8 the conditional. */
  function Phrase<V>(e: Expr<V>, k: nat): seq<Tok<V>>
    decreases e
  {
    match e
    case Lit(v) => [Num(v)]
    case Paren(x) => InParens(Phrase(x, 8))
    case Un(op, x) =>
      var p := [op] + Phrase(x, 0);
      if k >= 1 then p else InParens(p)
    case Bin(op, l, r) =>
      var n := LevelOf(op);
      var p := Phrase(l, n) + [op] + Phrase(r, if n == 0 then 0 else n - 1);
      if k >= n then p else InParens(p)
    case Cond(c, l, r) =>
      var p := Phrase(c, 7) + [Question] + Phrase(l, 8) + [Colon] + Phrase(r, 8);
      if k >= 8 then p else InParens(p)
  }

  /** The numbers of the table that belong to level `k`. */
  predicate Between(k: nat, lvl: int) {
    match k
    case 0 => 0 <= lvl < 3
    case 1 => lvl == 3
    case 2 => lvl == 4
    case 3 => lvl == 5
    case 4 => 6 <= lvl < 9
    case 5 => lvl == 9
    case 6 => lvl == 10
    case 7 => 11 <= lvl < 14
    case 8 => lvl == 14
    case _ => false
  }

  lemma TableAgrees<V>(t: Tok<V>)
    ensures IsBinary(t) <==> LevelOf(t) >= 2
    ensures IsBinary(t) ==> Between(LevelOf(t), Prec(t)) && Between(LevelOf(t) - 1, Prec(t) - 1)
    ensures forall k, lvl :: IsBinary(t) && Between(k, lvl) ==> (Prec(t) <= lvl <==> LevelOf(t) <= k)
  {
  }

  lemma BinPhrase<V>(op: Tok<V>, l: Expr<V>, r: Expr<V>, k: nat)
    requires LevelOf(op) >= 2
    ensures var p := Phrase(l, LevelOf(op)) + [op] + Phrase(r, LevelOf(op) - 1);
      Phrase(Bin(op, l, r), k) == if k >= LevelOf(op) then p else InParens(p)
    ensures LevelOf(op) <= k <= 8 && Legal(l) && Legal(r) ==> Legal(Bin(op, l, r))
    ensures HasBang(Bin(op, l, r)) <==> HasBang(l) || HasBang(r)
  {
    TableAgrees(op);
  }

  lemma BinPrint<V>(op: Tok<V>, l: Expr<V>, r: Expr<V>, lvl: int)
    ensures var p := Print(l, Prec(op)) + [op] + Print(r, Prec(op) - 1);
      Print(Bin(op, l, r), lvl) == if Prec(op) <= lvl then p else InParens(p)
  {
  }

  /** The grammar and the table make the same text. */
  lemma {:induction false} PhraseIsPrint<V>(e: Expr<V>, k: nat, lvl: int)
    requires Legal(e) && Between(k, lvl)
    ensures Phrase(e, k) == Print(e, lvl)
    decreases e
  {
    match e
    case Lit(_) =>
    case Paren(x) => PhraseIsPrint(x, 8, 14);
    case Un(_, x) => PhraseIsPrint(x, 0, 0);
    case Bin(op, l, r) =>
      assert IsBinary(op) && Legal(l) && Legal(r);
      TableAgrees(op);
      PhraseIsPrint(l, LevelOf(op), Prec(op));
      PhraseIsPrint(r, LevelOf(op) - 1, Prec(op) - 1);
      hide Phrase, Print, Legal, Prec, LevelOf;
      BinPhrase(op, l, r, k);
      BinPrint(op, l, r, lvl);
    case Cond(c, l, r) =>
      PhraseIsPrint(c, 7, 13);
      PhraseIsPrint(l, 8, 14);
      PhraseIsPrint(r, 8, 14);
  }

  /** What can follow an expression. */
  predicate Stop<V>(rest: seq<Tok<V>>) {
    rest != [] ==> !rest[0].Question? && LevelOf(rest[0]) == 0
  }

  /** The evaluator reads every phrase of the grammar, and gives the value of its tree. */
  lemma PhraseTaken<V>(o: Ops<V>, e: Expr<V>, rest: seq<Tok<V>>)
    requires Legal(e) && Stop(rest)
    ensures Parse(o, Phrase(e, 8) + rest) == if HasBang(e) then None else Some((Value(o, e), rest))
  {
    hide Parse, Print, Phrase;
    if rest != [] { TableAgrees(rest[0]); }
    PhraseIsPrint(e, 8, 14);
    ParseTaken(o, e, rest);
  }

  // ------------------------------------------------------------------------------------------
  // In tokens
  // ------------------------------------------------------------------------------------------

  lemma LitIs<V>(o: Ops<V>, v: V, k: nat)
    ensures Phrase(Lit(v), k) == [Num(v)] && Legal(Lit(v)) && !HasBang(Lit(v)) && Value(o, Lit(v)) == v
  {
  }

  lemma BinIs<V>(o: Ops<V>, op: Tok<V>, l: Expr<V>, r: Expr<V>, k: nat)
    requires 2 <= LevelOf(op) <= k <= 8 && Legal(l) && Legal(r) && !HasBang(l) && !HasBang(r)
    ensures var e := Bin(op, l, r);
      && Phrase(e, k) == Phrase(l, LevelOf(op)) + [op] + Phrase(r, LevelOf(op) - 1)
      && Legal(e) && !HasBang(e) && Value(o, e) == o.bin(op, Value(o, l), Value(o, r))
  {
    BinPhrase(op, l, r, k);
  }

  lemma ParenIs<V>(o: Ops<V>, x: Expr<V>, k: nat)
    requires Legal(x) && !HasBang(x)
    ensures var e := Paren(x);
      Phrase(e, k) == [LParen] + Phrase(x, 8) + [RParen] && Legal(e) && !HasBang(e) && Value(o, e) == Value(o, x)
  {
  }

  lemma UnIs<V>(o: Ops<V>, u: Tok<V>, un: Tok<V>, x: Expr<V>, k: nat)
    requires (u.Minus? && un.UnaryMinus?) || (u.Plus? && un.UnaryPlus?) || (u.Tilda? && un.Tilda?)
    requires Legal(x) && !HasBang(x) && k >= 1
    ensures var e := Un(u, x);
      Phrase(e, k) == [u] + Phrase(x, 0) && Legal(e) && !HasBang(e) && Value(o, e) == o.un(un, Value(o, x))
  {
  }

  lemma CondIs<V>(o: Ops<V>, c: Expr<V>, l: Expr<V>, r: Expr<V>)
    requires Legal(c) && Legal(l) && Legal(r) && !HasBang(c) && !HasBang(l) && !HasBang(r)
    ensures var e := Cond(c, l, r);
      && Phrase(e, 8) == Phrase(c, 7) + [Question] + Phrase(l, 8) + [Colon] + Phrase(r, 8)
      && Legal(e) && !HasBang(e) && Value(o, e) == if o.truth(Value(o, c)) then Value(o, l) else Value(o, r)
  {
  }

  /** Two numbers and an operator. */
  lemma Two<V>(o: Ops<V>, a: V, p: Tok<V>, b: V, k: nat)
    requires 2 <= LevelOf(p) <= k <= 8
    ensures var e := Bin(p, Lit(a), Lit(b));
      Phrase(e, k) == [Num(a), p, Num(b)] && Legal(e) && !HasBang(e) && Value(o, e) == o.bin(p, a, b)
  {
    hide Phrase, Legal, HasBang, Value, LevelOf;
    LitIs(o, a, LevelOf(p));
    LitIs(o, b, LevelOf(p) - 1);
    BinIs(o, p, Lit(a), Lit(b), k);
  }

  /** Of two operators the one of the tighter level is carried out first, and of one level the left one. */
  lemma TwoOperators<V>(o: Ops<V>, a: V, p: Tok<V>, b: V, q: Tok<V>, c: V, rest: seq<Tok<V>>)
    requires 2 <= LevelOf(p) && 2 <= LevelOf(q) && Stop(rest)
    ensures Parse(o, [Num(a), p, Num(b), q, Num(c)] + rest) ==
            Some((if LevelOf(q) < LevelOf(p) then o.bin(p, a, o.bin(q, b, c)) else o.bin(q, o.bin(p, a, b), c), rest))
  {
    hide Parse, Phrase, Legal, HasBang, Value, LevelOf, Stop;
    if LevelOf(q) < LevelOf(p) {
      var e := Bin(q, Lit(b), Lit(c));
      Two(o, b, q, c, LevelOf(p) - 1);
      LitIs(o, a, LevelOf(p));
      BinIs(o, p, Lit(a), e, 8);
      PhraseTaken(o, Bin(p, Lit(a), e), rest);
      assert [Num(a)] + [p] + [Num(b), q, Num(c)] == [Num(a), p, Num(b), q, Num(c)];
    } else {
      var e := Bin(p, Lit(a), Lit(b));
      Two(o, a, p, b, LevelOf(q));
      LitIs(o, c, LevelOf(q) - 1);
      BinIs(o, q, e, Lit(c), 8);
      PhraseTaken(o, Bin(q, e, Lit(c)), rest);
      assert [Num(a), p, Num(b)] + [q] + [Num(c)] == [Num(a), p, Num(b), q, Num(c)];
    }
  }

  /** Parentheses come first. */
  lemma Parentheses<V>(o: Ops<V>, a: V, p: Tok<V>, b: V, q: Tok<V>, c: V, rest: seq<Tok<V>>)
    requires 2 <= LevelOf(p) && 2 <= LevelOf(q) && Stop(rest)
    ensures Parse(o, [Num(a), p, LParen, Num(b), q, Num(c), RParen] + rest) == Some((o.bin(p, a, o.bin(q, b, c)), rest))
    ensures Parse(o, [LParen, Num(a), p, Num(b), RParen, q, Num(c)] + rest) == Some((o.bin(q, o.bin(p, a, b), c), rest))
  {
    hide Parse, Phrase, Legal, HasBang, Value, LevelOf, Stop;
    var x, y := Bin(q, Lit(b), Lit(c)), Bin(p, Lit(a), Lit(b));
    Two(o, b, q, c, 8);
    Two(o, a, p, b, 8);
    ParenIs(o, x, LevelOf(p) - 1);
    ParenIs(o, y, LevelOf(q));
    LitIs(o, a, LevelOf(p));
    LitIs(o, c, LevelOf(q) - 1);
    BinIs(o, p, Lit(a), Paren(x), 8);
    BinIs(o, q, Paren(y), Lit(c), 8);
    PhraseTaken(o, Bin(p, Lit(a), Paren(x)), rest);
    PhraseTaken(o, Bin(q, Paren(y), Lit(c)), rest);
    assert [Num(a)] + [p] + ([LParen] + [Num(b), q, Num(c)] + [RParen]) == [Num(a), p, LParen, Num(b), q, Num(c), RParen];
    assert ([LParen] + [Num(a), p, Num(b)] + [RParen]) + [q] + [Num(c)] == [LParen, Num(a), p, Num(b), RParen, q, Num(c)];
  }

  /** A prefix operator takes the next operand only. */
  lemma Prefix<V>(o: Ops<V>, u: Tok<V>, un: Tok<V>, a: V, p: Tok<V>, b: V, rest: seq<Tok<V>>)
    requires (u.Minus? && un.UnaryMinus?) || (u.Plus? && un.UnaryPlus?) || (u.Tilda? && un.Tilda?)
    requires 2 <= LevelOf(p) && Stop(rest)
    ensures Parse(o, [u, Num(a), p, Num(b)] + rest) == Some((o.bin(p, o.un(un, a), b), rest))
    ensures Parse(o, [Num(b), p, u, Num(a)] + rest) == Some((o.bin(p, b, o.un(un, a)), rest))
  {
    hide Parse, Phrase, Legal, HasBang, Value, LevelOf, Stop;
    var x := Un(u, Lit(a));
    LitIs(o, a, 0);
    UnIs(o, u, un, Lit(a), LevelOf(p));
    UnIs(o, u, un, Lit(a), LevelOf(p) - 1);
    LitIs(o, b, LevelOf(p));
    LitIs(o, b, LevelOf(p) - 1);
    BinIs(o, p, x, Lit(b), 8);
    BinIs(o, p, Lit(b), x, 8);
    PhraseTaken(o, Bin(p, x, Lit(b)), rest);
    PhraseTaken(o, Bin(p, Lit(b), x), rest);
    assert ([u] + [Num(a)]) + [p] + [Num(b)] == [u, Num(a), p, Num(b)];
    assert [Num(b)] + [p] + ([u] + [Num(a)]) == [Num(b), p, u, Num(a)];
  }

  /** The conditional takes everything before it as its condition, and everything behind the colon, another
      conditional too, as its last operand. */
  lemma Conditional<V>(o: Ops<V>, a: V, p: Tok<V>, b: V, c: V, d: V, e: V, rest: seq<Tok<V>>)
    requires 2 <= LevelOf(p) && Stop(rest)
    ensures Parse(o, [Num(a), p, Num(b), Question, Num(c), Colon, Num(d), p, Num(e)] + rest)
         == Some((if o.truth(o.bin(p, a, b)) then c else o.bin(p, d, e), rest))
    ensures Parse(o, [Num(a), Question, Num(b), Colon, Num(c), Question, Num(d), Colon, Num(e)] + rest)
         == Some((if o.truth(a) then b else if o.truth(c) then d else e, rest))
  {
    hide Parse, Phrase, Legal, HasBang, Value, LevelOf, Stop;
    Two(o, a, p, b, 7);
    Two(o, d, p, e, 8);
    LitIs(o, a, 7); LitIs(o, b, 8); LitIs(o, c, 8); LitIs(o, c, 7); LitIs(o, d, 8); LitIs(o, e, 8);
    var x, y, z := Bin(p, Lit(a), Lit(b)), Bin(p, Lit(d), Lit(e)), Cond(Lit(c), Lit(d), Lit(e));
    CondIs(o, x, Lit(c), y);
    CondIs(o, Lit(c), Lit(d), Lit(e));
    CondIs(o, Lit(a), Lit(b), z);
    PhraseTaken(o, Cond(x, Lit(c), y), rest);
    PhraseTaken(o, Cond(Lit(a), Lit(b), z), rest);
    assert [Num(a), p, Num(b)] + [Question] + [Num(c)] + [Colon] + [Num(d), p, Num(e)]
        == [Num(a), p, Num(b), Question, Num(c), Colon, Num(d), p, Num(e)];
    assert [Num(a)] + [Question] + [Num(b)] + [Colon] + ([Num(c)] + [Question] + [Num(d)] + [Colon] + [Num(e)])
        == [Num(a), Question, Num(b), Colon, Num(c), Question, Num(d), Colon, Num(e)];
  }

  // ------------------------------------------------------------------------------------------
  // What is refused
  // ------------------------------------------------------------------------------------------

  predicate StartsOperand<V>(t: Tok<V>) { t.Num? || t.LParen? }

  predicate Prefixes<V>(t: Tok<V>) { t.Plus? || t.Minus? || t.Tilda? || t.Bang? }

  /** An operand is missing, at the start or behind a prefix operator; a second prefix operator is none. */
  lemma NoOperand<V>(o: Ops<V>, ts: seq<Tok<V>>)
    requires ts == [] || !StartsOperand(ts[0])
    ensures ts == [] || !Prefixes(ts[0]) ==> Parse(o, ts).None?
    ensures forall u :: Prefixes(u) ==> Parse(o, [u] + ts).None?
  {
    hide Reduce;
    assert forall vs, os :: Operand(o, ts, vs, os).None?;
    if ts == [] || !Prefixes(ts[0]) {
      assert Loop(o, ts, [], [ExprBegin]).None?;
    }
    forall u: Tok<V> | Prefixes(u) ensures Parse(o, [u] + ts).None? {
      PushOne(o, AsUnary(u), [], [ExprBegin]);
      LoopPrefix(o, u, ts, [], [ExprBegin]);
    }
  }

  /** A parenthesis that is not closed, and a conditional without a colon. */
  lemma NotClosed<V>(o: Ops<V>, a: V, b: V, rest: seq<Tok<V>>)
    requires Stop(rest)
    ensures rest == [] || !rest[0].RParen? ==> Parse(o, [LParen, Num(a)] + rest).None?
    ensures rest == [] || !rest[0].Colon? ==> Parse(o, [Num(a), Question, Num(b)] + rest).None?
  {
    LitTaken(o, a, rest);
    LitTaken(o, b, rest);
    hide Parse, Stop, Reduce;
    var ts, us := [LParen] + ([Num(a)] + rest), [Num(a)] + ([Question] + ([Num(b)] + rest));
    assert [LParen, Num(a)] + rest == ts && [Num(a), Question, Num(b)] + rest == us;
    LoopIs(o, ts);
    LoopIs(o, us);
    if rest == [] || !rest[0].RParen? { ParenOpen(o, [Num(a)] + rest); }
    assert [] + [a] == [a];
    PushOne(o, Question, [a], [ExprBegin]);
    NextQuestion(o, [Num(b)] + rest, [a], [ExprBegin]);
    NumFirst(o, a, [Question] + ([Num(b)] + rest));
  }

  lemma ParenOpen<V>(o: Ops<V>, ts: seq<Tok<V>>)
    requires Parse(o, ts).Some? && (Parse(o, ts).value.1 == [] || !Parse(o, ts).value.1[0].RParen?)
    ensures Loop(o, [LParen] + ts, [], [ExprBegin]).None?
  {
    assert ([LParen] + ts)[1..] == ts;
  }

  lemma NumFirst<V>(o: Ops<V>, a: V, ts: seq<Tok<V>>)
    ensures Loop(o, [Num(a)] + ts, [], [ExprBegin]) == Next(o, ts, [a], [ExprBegin])
  {
    assert ([Num(a)] + ts)[1..] == ts && [] + [a] == [a];
  }

  lemma LitTaken<V>(o: Ops<V>, v: V, rest: seq<Tok<V>>)
    requires Stop(rest)
    ensures Parse(o, [Num(v)] + rest) == Some((v, rest))
  {
    hide Parse, Phrase, Legal, HasBang, Value, Stop;
    LitIs(o, v, 8);
    PhraseTaken(o, Lit(v), rest);
  }

  lemma LoopIs<V>(o: Ops<V>, ts: seq<Tok<V>>)
    ensures Parse(o, ts) == Loop(o, ts, [], [ExprBegin])
  {
  }
}
