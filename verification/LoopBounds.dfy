/** The values in the header of a loop: constant expressions that may mention the control variables of
    outer loops, as trees and as tokens. */
module LoopBounds {
  import opened Wrappers
  import opened LoopUnroll
  import opened ConstParser
  import C = ConstExpr

  datatype Leaf = Const(v: int) | Var(name: string)

  type Bound = C.Expr<Leaf>

  type Env = map<string, int>

  /** The same operator on numbers. */
  function OpOf(t: C.Tok<Leaf>): C.Tok<int> {
    match t
    case Num(_) => C.Num(0)
    case LParen => C.LParen case RParen => C.RParen case Colon => C.Colon case Other => C.Tok.Other
    case Plus => C.Plus case Minus => C.Minus case Tilda => C.Tilda case Bang => C.Bang
    case Asterisk => C.Asterisk case Slash => C.Slash case Percent => C.Percent
    case LessLess => C.LessLess case GreaterGreater => C.GreaterGreater
    case Ampersand => C.Ampersand case Carot => C.Carot case Vbar => C.Vbar
    case Question => C.Question
    case UnaryPlus => C.UnaryPlus case UnaryMinus => C.UnaryMinus
    case ExprBegin => C.ExprBegin case ExprEnd => C.ExprEnd
  }

  function LeafValue(l: Leaf, env: Env): int {
    match l
    case Const(v) => v
    case Var(y) => if y in env then env[y] else 0
  }

  /** The expression with the values of the variables put in. */
  function Known(b: Bound, env: Env): C.Expr<int> {
    match b
    case Lit(l) => C.Lit(LeafValue(l, env))
    case Paren(e) => C.Paren(Known(e, env))
    case Un(op, e) => C.Un(OpOf(op), Known(e, env))
    case Bin(op, l, r) => C.Bin(OpOf(op), Known(l, env), Known(r, env))
    case Cond(c, l, r) => C.Cond(Known(c, env), Known(l, env), Known(r, env))
  }

  function Value(o: C.Ops<int>, b: Bound, env: Env): int {
    C.Value(o, Known(b, env))
  }

  /** An expression that the evaluator takes: `!` ends in an assertion. */
  predicate BoundOk(b: Bound) { C.Legal(b) && !C.HasBang(b) }

  /** A bound mentions only the variables `xs`. */
  predicate ClosedBound(b: Bound, xs: set<string>) {
    match b
    case Lit(l) => l.Var? ==> l.name in xs
    case Paren(e) => ClosedBound(e, xs)
    case Un(_, e) => ClosedBound(e, xs)
    case Bin(_, l, r) => ClosedBound(l, xs) && ClosedBound(r, xs)
    case Cond(c, l, r) => ClosedBound(c, xs) && ClosedBound(l, xs) && ClosedBound(r, xs)
  }

  function SubstBound(b: Bound, x: string, v: int): Bound {
    match b
    case Lit(l) => if l == Var(x) then C.Lit(Const(v)) else b
    case Paren(e) => C.Paren(SubstBound(e, x, v))
    case Un(op, e) => C.Un(op, SubstBound(e, x, v))
    case Bin(op, l, r) => C.Bin(op, SubstBound(l, x, v), SubstBound(r, x, v))
    case Cond(c, l, r) => C.Cond(SubstBound(c, x, v), SubstBound(l, x, v), SubstBound(r, x, v))
  }

  lemma {:induction false} SubstKnown(b: Bound, x: string, v: int, env: Env)
    ensures Known(SubstBound(b, x, v), env) == Known(b, env[x := v])
  {
    match b
    case Lit(_) =>
    case Paren(e) => SubstKnown(e, x, v, env);
    case Un(_, e) => SubstKnown(e, x, v, env);
    case Bin(_, l, r) =>
      SubstKnown(l, x, v, env);
      SubstKnown(r, x, v, env);
    case Cond(c, l, r) =>
      SubstKnown(c, x, v, env);
      SubstKnown(l, x, v, env);
      SubstKnown(r, x, v, env);
  }

  lemma SubstBoundValue(o: C.Ops<int>, b: Bound, x: string, v: int, env: Env)
    ensures Value(o, SubstBound(b, x, v), env) == Value(o, b, env[x := v])
  {
    SubstKnown(b, x, v, env);
  }

  lemma {:induction false} SubstBoundOk(b: Bound, x: string, v: int)
    ensures C.Legal(SubstBound(b, x, v)) == C.Legal(b) && C.HasBang(SubstBound(b, x, v)) == C.HasBang(b)
    ensures C.Level(SubstBound(b, x, v)) == C.Level(b)
  {
    match b
    case Lit(_) =>
    case Paren(e) => SubstBoundOk(e, x, v);
    case Un(_, e) => SubstBoundOk(e, x, v);
    case Bin(_, l, r) =>
      SubstBoundOk(l, x, v);
      SubstBoundOk(r, x, v);
    case Cond(c, l, r) =>
      SubstBoundOk(c, x, v);
      SubstBoundOk(l, x, v);
      SubstBoundOk(r, x, v);
  }

  lemma {:induction false} SubstClosedBound(b: Bound, x: string, v: int, xs: set<string>)
    requires ClosedBound(b, xs)
    ensures ClosedBound(SubstBound(b, x, v), xs - {x})
  {
    match b
    case Lit(_) =>
    case Paren(e) => SubstClosedBound(e, x, v, xs);
    case Un(_, e) => SubstClosedBound(e, x, v, xs);
    case Bin(_, l, r) =>
      SubstClosedBound(l, x, v, xs);
      SubstClosedBound(r, x, v, xs);
    case Cond(c, l, r) =>
      SubstClosedBound(c, x, v, xs);
      SubstClosedBound(l, x, v, xs);
      SubstClosedBound(r, x, v, xs);
  }

  // ------------------------------------------------------------------------------------------
  // Text
  // ------------------------------------------------------------------------------------------

  /** A token of an expression as the lexer gives it; the last case does not occur in expressions. */
  function FromConst(t: C.Tok<Leaf>): Tok {
    match t
    case Num(l) => if l.Const? then Num(l.v) else Id(l.name)
    case LParen => OPEN case RParen => CLOSE case Colon => COLON case Question => QUESTION
    case Plus => PLUS case Minus => MINUS case Tilda => TILDA case Bang => BANG
    case Asterisk => ASTERISK case Slash => SLASH case Percent => PERCENT
    case LessLess => LESS_LESS case GreaterGreater => GREATER_GREATER
    case Ampersand => AMPERSAND case Carot => CAROT case Vbar => VBAR
    case _ => Other(29)
  }

  function FromConsts(ts: seq<C.Tok<Leaf>>): (r: seq<Tok>)
    ensures |r| == |ts|
  {
    seq(|ts|, i requires 0 <= i < |ts| => FromConst(ts[i]))
  }

  lemma FromAppend(a: seq<C.Tok<Leaf>>, b: seq<C.Tok<Leaf>>)
    ensures FromConsts(a + b) == FromConsts(a) + FromConsts(b)
  {
  }

  lemma FromOne(t: C.Tok<Leaf>)
    ensures FromConsts([t]) == [FromConst(t)]
  {
  }

  function BoundText(b: Bound): seq<Tok> { FromConsts(C.Print(b, 14)) }

  lemma SubstAppend(a: seq<Tok>, b: seq<Tok>, x: string, v: int)
    ensures SubstAll(a + b, x, v) == SubstAll(a, x, v) + SubstAll(b, x, v)
  {
  }

  lemma SubstOne(t: Tok, x: string, v: int)
    ensures SubstAll([t], x, v) == [Subst(t, x, v)]
  {
  }

  /** An operator or parenthesis. */
  predicate Fixed(t: C.Tok<Leaf>) {
    C.IsPrefix(t) || C.IsBinary(t) || t.LParen? || t.RParen? || t.Question? || t.Colon?
  }

  // Putting a value in

  function Shown(ts: seq<C.Tok<Leaf>>, x: string, v: int): seq<Tok> { SubstAll(FromConsts(ts), x, v) }

  lemma ShownAppend(a: seq<C.Tok<Leaf>>, b: seq<C.Tok<Leaf>>, x: string, v: int)
    ensures Shown(a + b, x, v) == Shown(a, x, v) + Shown(b, x, v)
  {
    hide SubstAll, FromConsts;
    FromAppend(a, b);
    SubstAppend(FromConsts(a), FromConsts(b), x, v);
  }

  lemma ShownFixed(t: C.Tok<Leaf>, x: string, v: int)
    requires Fixed(t)
    ensures Shown([t], x, v) == FromConsts([t])
  {
  }

  lemma {:induction false} PrintSubst(b: Bound, lvl: int, x: string, v: int)
    requires C.Legal(b)
    ensures Shown(C.Print(b, lvl), x, v) == FromConsts(C.Print(SubstBound(b, x, v), lvl))
    decreases b, 1
  {
    hide Shown, FromConsts, C.Text;
    ExprSubst(b, x, v);
    SubstBoundOk(b, x, v);
    if C.Level(b) > lvl {
      InParens(C.Text(b), C.Text(SubstBound(b, x, v)), x, v);
    }
  }

  lemma InParens(a: seq<C.Tok<Leaf>>, b: seq<C.Tok<Leaf>>, x: string, v: int)
    requires Shown(a, x, v) == FromConsts(b)
    ensures Shown([C.LParen] + a + [C.RParen], x, v) == FromConsts([C.LParen] + b + [C.RParen])
  {
    hide Shown, FromConsts;
    ShownFixed(C.LParen, x, v);
    ShownFixed(C.RParen, x, v);
    Joined([C.LParen], a, [C.LParen], b, x, v);
    Joined([C.LParen] + a, [C.RParen], [C.LParen] + b, [C.RParen], x, v);
  }

  lemma Joined(a: seq<C.Tok<Leaf>>, b: seq<C.Tok<Leaf>>, a': seq<C.Tok<Leaf>>, b': seq<C.Tok<Leaf>>, x: string, v: int)
    requires Shown(a, x, v) == FromConsts(a') && Shown(b, x, v) == FromConsts(b')
    ensures Shown(a + b, x, v) == FromConsts(a' + b')
  {
    hide Shown, FromConsts;
    ShownAppend(a, b, x, v);
    FromAppend(a', b');
  }

  lemma {:induction false} ExprSubst(b: Bound, x: string, v: int)
    requires C.Legal(b)
    ensures Shown(C.Text(b), x, v) == FromConsts(C.Text(SubstBound(b, x, v)))
    decreases b, 0
  {
    hide Shown, FromConsts, C.Print;
    match b {
      case Lit(l) => LitSubst(l, x, v);
      case Paren(e) =>
        PrintSubst(e, 14, x, v);
        InParens(C.Print(e, 14), C.Print(SubstBound(e, x, v), 14), x, v);
      case Un(op, e) =>
        PrintSubst(e, 0, x, v);
        ShownFixed(op, x, v);
        Joined([op], C.Print(e, 0), [op], C.Print(SubstBound(e, x, v), 0), x, v);
      case Bin(op, l, r) =>
        PrintSubst(l, C.Prec(op), x, v);
        PrintSubst(r, C.Prec(op) - 1, x, v);
        Three(C.Print(l, C.Prec(op)), op, C.Print(r, C.Prec(op) - 1), C.Print(SubstBound(l, x, v), C.Prec(op)),
              C.Print(SubstBound(r, x, v), C.Prec(op) - 1), x, v);
      case Cond(c, l, r) =>
        PrintSubst(c, 13, x, v);
        PrintSubst(l, 14, x, v);
        PrintSubst(r, 14, x, v);
        Three(C.Print(c, 13), C.Question, C.Print(l, 14), C.Print(SubstBound(c, x, v), 13), C.Print(SubstBound(l, x, v), 14), x, v);
        Three(C.Print(c, 13) + [C.Question] + C.Print(l, 14), C.Colon, C.Print(r, 14),
              C.Print(SubstBound(c, x, v), 13) + [C.Question] + C.Print(SubstBound(l, x, v), 14), C.Print(SubstBound(r, x, v), 14), x, v);
    }
  }

  lemma LitSubst(l: Leaf, x: string, v: int)
    ensures Shown([C.Num(l)], x, v) == FromConsts([C.Num(if l == Var(x) then Const(v) else l)])
  {
  }

  lemma Three(a: seq<C.Tok<Leaf>>, t: C.Tok<Leaf>, b: seq<C.Tok<Leaf>>, a': seq<C.Tok<Leaf>>, b': seq<C.Tok<Leaf>>,
              x: string, v: int)
    requires Fixed(t) && Shown(a, x, v) == FromConsts(a') && Shown(b, x, v) == FromConsts(b')
    ensures Shown(a + [t] + b, x, v) == FromConsts(a' + [t] + b')
  {
    hide Shown, FromConsts;
    ShownFixed(t, x, v);
    Joined(a, [t], a', [t], x, v);
    Joined(a + [t], b, a' + [t], b', x, v);
  }

  /** What is played back of a bound is the text of the bound with the value put in. */
  lemma BoundTextSubst(b: Bound, x: string, v: int)
    requires BoundOk(b)
    ensures SubstAll(BoundText(b), x, v) == BoundText(SubstBound(b, x, v))
  {
    PrintSubst(b, 14, x, v);
  }

  // Reading the text back

  function Reading(ts: seq<C.Tok<Leaf>>): seq<C.Tok<int>> { AsConsts(FromConsts(ts)) }

  lemma ReadingAppend(a: seq<C.Tok<Leaf>>, b: seq<C.Tok<Leaf>>)
    ensures Reading(a + b) == Reading(a) + Reading(b)
  {
    hide AsConsts, FromConsts;
    FromAppend(a, b);
    AsConstsAppend(FromConsts(a), FromConsts(b));
  }

  lemma ReadingFixed(t: C.Tok<Leaf>)
    requires Fixed(t)
    ensures Reading([t]) == [OpOf(t)]
    ensures C.Prec(OpOf(t)) == C.Prec(t) && C.IsPrefix(OpOf(t)) == C.IsPrefix(t) && C.IsBinary(OpOf(t)) == C.IsBinary(t)
  {
  }

  lemma {:induction false} KnownOk(b: Bound, env: Env)
    requires C.Legal(b)
    ensures C.Legal(Known(b, env)) && C.HasBang(Known(b, env)) == C.HasBang(b) && C.Level(Known(b, env)) == C.Level(b)
  {
    match b
    case Lit(_) =>
    case Paren(e) => KnownOk(e, env);
    case Un(op, e) =>
      ReadingFixed(op);
      KnownOk(e, env);
    case Bin(op, l, r) =>
      ReadingFixed(op);
      KnownOk(l, env);
      KnownOk(r, env);
    case Cond(c, l, r) =>
      KnownOk(c, env);
      KnownOk(l, env);
      KnownOk(r, env);
  }

  /** The text of a bound without variables reads as the expression of its numbers. */
  lemma {:induction false} PrintKnown(b: Bound, lvl: int)
    requires C.Legal(b) && ClosedBound(b, {})
    ensures Reading(C.Print(b, lvl)) == C.Print(Known(b, map[]), lvl)
    decreases b, 1
  {
    hide Reading, C.Text;
    TextKnown(b);
    KnownOk(b, map[]);
    if C.Level(b) > lvl {
      ReadParens(C.Text(b));
    }
  }

  lemma ReadParens(a: seq<C.Tok<Leaf>>)
    ensures Reading([C.LParen] + a + [C.RParen]) == [C.LParen] + Reading(a) + [C.RParen]
  {
    hide Reading;
    ReadingFixed(C.LParen);
    ReadingFixed(C.RParen);
    ReadingAppend([C.LParen], a);
    ReadingAppend([C.LParen] + a, [C.RParen]);
  }

  lemma {:induction false} TextKnown(b: Bound)
    requires C.Legal(b) && ClosedBound(b, {})
    ensures Reading(C.Text(b)) == C.Text(Known(b, map[]))
    decreases b, 0
  {
    hide Reading, C.Print;
    match b {
      case Lit(l) => LitKnown(l);
      case Paren(e) =>
        PrintKnown(e, 14);
        ReadParens(C.Print(e, 14));
      case Un(op, e) =>
        PrintKnown(e, 0);
        ReadingFixed(op);
        ReadingAppend([op], C.Print(e, 0));
      case Bin(op, l, r) =>
        PrintKnown(l, C.Prec(op));
        PrintKnown(r, C.Prec(op) - 1);
        ReadThree(C.Print(l, C.Prec(op)), op, C.Print(r, C.Prec(op) - 1));
      case Cond(c, l, r) =>
        PrintKnown(c, 13);
        PrintKnown(l, 14);
        PrintKnown(r, 14);
        ReadThree(C.Print(c, 13), C.Question, C.Print(l, 14));
        ReadThree(C.Print(c, 13) + [C.Question] + C.Print(l, 14), C.Colon, C.Print(r, 14));
    }
  }

  lemma LitKnown(l: Leaf)
    requires l.Const?
    ensures Reading([C.Num(l)]) == [C.Num(l.v)]
  {
  }

  lemma ReadThree(a: seq<C.Tok<Leaf>>, t: C.Tok<Leaf>, b: seq<C.Tok<Leaf>>)
    requires Fixed(t)
    ensures Reading(a + [t] + b) == Reading(a) + [OpOf(t)] + Reading(b)
    ensures C.Prec(OpOf(t)) == C.Prec(t)
  {
    hide Reading;
    ReadingFixed(t);
    ReadingAppend(a, [t]);
    ReadingAppend(a + [t], b);
  }

  /** The evaluator takes just the text of a bound, and gives its value. */
  lemma BoundTaken(o: C.Ops<int>, b: Bound, rest: seq<Tok>)
    requires BoundOk(b) && ClosedBound(b, {}) && C.Guard(AsConsts(rest)).ExprEnd?
    ensures C.Parse(o, AsConsts(BoundText(b) + rest)) == Some((Value(o, b, map[]), AsConsts(rest)))
  {
    hide C.Parse, C.Print, AsConsts;
    PrintKnown(b, 14);
    KnownOk(b, map[]);
    AsConstsAppend(BoundText(b), rest);
    C.ParseTaken(o, Known(b, map[]), AsConsts(rest));
  }
}
