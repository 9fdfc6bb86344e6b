/** What the unrolling of a loop is, said of the values that its control variable takes, and of the tokens
    that a loop is written in. */
module LoopValues {
  import opened Wrappers
  import opened LoopUnroll
  import opened ConstParser
  import opened LoopBounds
  import opened LoopNest
  import C = ConstExpr

  function Number(n: int): Bound { C.Lit(Const(n)) }

  /** `n` pieces in a row. */
  function Row(n: nat, piece: nat -> seq<Tok>): seq<Tok> {
    if n == 0 then [] else Row(n - 1, piece) + piece(n - 1)
  }

  /** A loop that ends with ++ counts up by one. */
  lemma PlusPlusIsOne(o: C.Ops<int>, x: string, lo: Bound, hi: Bound, body: Stmt, env: Env, inside: bool)
    ensures Full(o, For(x, lo, hi, None, body), env) == Full(o, For(x, lo, hi, Some(Number(1)), body), env)
    ensures Work(o, For(x, lo, hi, None, body), env, inside) == Work(o, For(x, lo, hi, Some(Number(1)), body), env, inside)
  {
  }

  /** The body once for each of `n` values, from the first one on in steps, which are all the values below
      the limit, in ascending order. */
  lemma StepByStep(o: C.Ops<int>, x: string, lo: Bound, hi: Bound, step: int, n: nat, body: Stmt, env: Env)
    requires var a, b := Value(o, lo, env), Value(o, hi, env);
             step > 0 && (n > 0 ==> a + (n - 1) * step < b) && b <= a + n * step
    ensures Full(o, For(x, lo, hi, Some(Number(step)), body), env)
         == Row(n, i => Full(o, body, env[x := Value(o, lo, env) + i * step]))
  {
    hide Full, Row, Value;
    InSteps(o, x, Value(o, lo, env), Value(o, hi, env), step, n, body, env);
    ForIs(o, x, lo, hi, step, body, env);
  }

  lemma ForIs(o: C.Ops<int>, x: string, lo: Bound, hi: Bound, step: int, body: Stmt, env: Env)
    ensures Full(o, For(x, lo, hi, Some(Number(step)), body), env)
         == FullValues(o, x, Value(o, lo, env), Value(o, hi, env), step, body, env)
  {
  }

  /** Without a step, once for every value from the first one up to the limit. */
  lemma OneByOne(o: C.Ops<int>, x: string, lo: Bound, hi: Bound, n: nat, body: Stmt, env: Env)
    requires var a, b := Value(o, lo, env), Value(o, hi, env); n == if a < b then b - a else 0
    ensures Full(o, For(x, lo, hi, None, body), env) == Row(n, i => Full(o, body, env[x := Value(o, lo, env) + i]))
  {
    hide Full, Row, Value;
    PlusPlusIsOne(o, x, lo, hi, body, env, false);
    StepByStep(o, x, lo, hi, 1, n, body, env);
    SameRow(n, i => Full(o, body, env[x := Value(o, lo, env) + i * 1]), i => Full(o, body, env[x := Value(o, lo, env) + i]));
  }

  lemma {:induction false} SameRow(n: nat, f: nat -> seq<Tok>, g: nat -> seq<Tok>)
    requires forall i: nat :: i < n ==> f(i) == g(i)
    ensures Row(n, f) == Row(n, g)
  {
    if n > 0 { SameRow(n - 1, f, g); }
  }

  /** The body with one of the values of the loop. */
  function Piece(o: C.Ops<int>, x: string, a: int, step: int, body: Stmt, env: Env): nat -> seq<Tok> {
    i => Full(o, body, env[x := a + i * step])
  }

  lemma {:induction false} InSteps(o: C.Ops<int>, x: string, a: int, b: int, step: int, n: nat, body: Stmt, env: Env)
    requires step > 0 && (n > 0 ==> a + (n - 1) * step < b) && b <= a + n * step
    ensures FullValues(o, x, a, b, step, body, env) == Row(n, Piece(o, x, a, step, body, env))
    decreases n
  {
    if n == 0 {
      assert a + n * step == a;
    } else {
      hide Full, Row, FullValues, Piece;
      Times(n, step);
      InSteps(o, x, a + step, b, step, n - 1, body, env);
      FirstStep(o, x, a, b, step, body, env);
      PieceNext(o, x, a, step, body, env);
      RowFirst(n, Piece(o, x, a, step, body, env), Piece(o, x, a + step, step, body, env));
    }
  }

  lemma PieceNext(o: C.Ops<int>, x: string, a: int, step: int, body: Stmt, env: Env)
    requires step > 0
    ensures var (f, g) := (Piece(o, x, a, step, body, env), Piece(o, x, a + step, step, body, env));
      f(0) == Full(o, body, env[x := a]) && forall i: nat :: f(i + 1) == g(i)
  {
    hide Full;
    assert 0 * step == 0;
    forall i: nat ensures a + (i + 1) * step == a + step + i * step { }
  }

  lemma FirstStep(o: C.Ops<int>, x: string, a: int, b: int, step: int, body: Stmt, env: Env)
    requires step > 0 && a < b
    ensures FullValues(o, x, a, b, step, body, env) == Full(o, body, env[x := a]) + FullValues(o, x, a + step, b, step, body, env)
  {
  }

  lemma Times(n: nat, step: int)
    requires n > 0 && step > 0
    ensures (n - 1) * step == n * step - step >= 0 && (n > 1 ==> (n - 2) * step == n * step - step - step)
  {
    Steps(n - 1, step);
  }

  lemma Steps(k: nat, step: int)
    requires step > 0
    ensures k * step >= 0
  {
  }

  lemma {:induction false} RowFirst(n: nat, f: nat -> seq<Tok>, g: nat -> seq<Tok>)
    requires n > 0 && forall i: nat :: i < n - 1 ==> f(i + 1) == g(i)
    ensures Row(n, f) == f(0) + Row(n - 1, g)
    decreases n
  {
    if n > 1 {
      RowFirst(n - 1, f, g);
      assert Row(n, f) == f(0) + Row(n - 2, g) + g(n - 2);
    }
  }

  /** A statement without loops is its own text, with numbers in place of the control variables. */
  lemma PlainIs(o: C.Ops<int>, ts: seq<Tok>, env: Env)
    ensures var r := Full(o, Plain(ts), env);
      && |r| == |ts|
      && forall i :: 0 <= i < |ts| ==>
           r[i] == if ts[i].Id? && ts[i].name in env then Num(env[ts[i].name]) else ts[i]
  {
  }

  // ------------------------------------------------------------------------------------------
  // Loops that can be unrolled
  // ------------------------------------------------------------------------------------------

  /** The value that a loop takes for the k-th time, the first being the 0-th. */
  function Nth(a: int, step: int, k: nat): int { a + k * step }

  /** Every loop that is reached counts up, and runs at least once if it is inside another one. */
  ghost predicate Runs(o: C.Ops<int>, s: Stmt, env: Env, inside: bool) {
    match s
    case Plain(_) => true
    case Block(ss) => forall i :: 0 <= i < |ss| ==> Runs(o, ss[i], env, inside)
    case Guard(_, _, th, el) => Runs(o, th, env, inside) && forall i :: 0 <= i < |el| ==> Runs(o, el[i], env, inside)
    case For(x, lo, hi, step, body) =>
      var a, b, s := Value(o, lo, env), Value(o, hi, env), StepValue(o, step, env);
      s > 0 && (inside ==> a < b) && forall k: nat | Nth(a, s, k) < b :: Runs(o, body, env[x := Nth(a, s, k)], true)
  }

  /** There is an end to the work just for these. */
  lemma {:induction false} WorkIff(o: C.Ops<int>, s: Stmt, env: Env, inside: bool)
    ensures Work(o, s, env, inside).Some? <==> Runs(o, s, env, inside)
    decreases s, 0, 0
  {
    match s
    case Plain(_) =>
    case Block(ss) => WorkAllIff(o, ss, env, inside);
    case Guard(_, _, th, el) =>
      WorkIff(o, th, env, inside);
      WorkAllIff(o, el, env, inside);
    case For(x, lo, hi, step, body) =>
      if StepValue(o, step, env) > 0 {
        WorkValuesIff(o, x, Value(o, lo, env), Value(o, hi, env), StepValue(o, step, env), body, env);
      }
  }

  lemma {:induction false} WorkAllIff(o: C.Ops<int>, ss: seq<Stmt>, env: Env, inside: bool)
    ensures WorkAll(o, ss, env, inside).Some? <==> forall i :: 0 <= i < |ss| ==> Runs(o, ss[i], env, inside)
    decreases ss, 0, 0
  {
    hide Runs, Work;
    if ss != [] {
      WorkIff(o, ss[0], env, inside);
      WorkAllIff(o, ss[1..], env, inside);
      assert forall i :: 0 <= i < |ss| - 1 ==> ss[i + 1] == ss[1..][i];
      assert forall i :: 0 < i < |ss| ==> ss[i] == ss[1..][i - 1];
    }
  }

  lemma {:induction false} WorkValuesIff(o: C.Ops<int>, x: string, v: int, hi: int, step: int, body: Stmt, env: Env)
    requires step > 0
    ensures WorkValues(o, x, v, hi, step, body, env).Some? <==>
            forall k: nat | Nth(v, step, k) < hi :: Runs(o, body, env[x := Nth(v, step, k)], true)
    decreases body, 1, hi - v
  {
    hide Runs, Work;
    NthNext(v, v + step, step);
    if v < hi {
      WorkIff(o, body, env[x := v], true);
      WorkValuesIff(o, x, v + step, hi, step, body, env);
    }
  }

  lemma NthNext(v: int, w: int, step: int)
    requires step > 0 && w == v + step
    ensures Nth(v, step, 0) == v
    ensures forall k: nat :: Nth(v, step, k) >= v
    ensures forall k: nat :: Nth(w, step, k) == Nth(v, step, k + 1)
    ensures forall k: nat | k > 0 :: Nth(v, step, k) == Nth(w, step, k - 1)
  {
    forall k: nat ensures Nth(v, step, k) >= v { Steps(k, step); }
  }

  // ------------------------------------------------------------------------------------------
  // Two loops
  // ------------------------------------------------------------------------------------------

  function Cell(i: Tok, j: Tok): seq<Tok> { [Id("f"), OPEN, i, PLUS, j, CLOSE, SEMICOLON] }

  /** for (int i = 0; i < 3; i++) for (int j = i; j < 3; j += 2) f(i + j); */
  function Outer(): Stmt { For("i", Number(0), Number(3), None, Inner()) }

  function Inner(): Stmt { For("j", C.Lit(Var("i")), Number(3), Some(Number(2)), Plain(Cell(Id("i"), Id("j")))) }

  lemma InnerFull(o: C.Ops<int>, i: int)
    requires 0 <= i < 3
    ensures var r := Full(o, Inner(), map["i" := i]);
      r == if i == 0 then Cell(Num(0), Num(0)) + Cell(Num(0), Num(2)) else Cell(Num(i), Num(i))
    ensures Work(o, Inner(), map["i" := i], true).Some?
  {
    var cell, env := Plain(Cell(Id("i"), Id("j"))), map["i" := i];
    assert FullValues(o, "j", i + 4, 3, 2, cell, env) == [];
    assert FullValues(o, "j", i + 2, 3, 2, cell, env) == if i == 0 then Cell(Num(0), Num(2)) else [] by {
      assert env["j" := 2]["i"] == i;
    }
    assert Full(o, cell, env["j" := i]) == Cell(Num(i), Num(i));
    WorkIff(o, Inner(), env, true);
  }

  lemma CellOk()
    ensures PlainOk(Cell(Id("i"), Id("j")))
  {
    var call := Cell(Id("i"), Id("j"));
    BalancedNone(call, LBRACE, RBRACE);
    hide Balanced;
  }

  lemma NumberOk(n: int)
    ensures BoundOk(Number(n)) && forall xs :: ClosedBound(Number(n), xs)
    ensures BoundOk(C.Lit(Var("i"))) && forall xs | "i" in xs :: ClosedBound(C.Lit(Var("i")), xs)
  {
  }

  /** The parser takes the two loops, and unrolls them to four statements. */
  lemma TwoLoops(o: C.Ops<int>)
    ensures Wf(Outer()) && Closed(Outer(), {}) && Work(o, Outer(), map[], false).Some?
    ensures Full(o, Outer(), map[])
         == Cell(Num(0), Num(0)) + Cell(Num(0), Num(2)) + Cell(Num(1), Num(1)) + Cell(Num(2), Num(2))
  {
    OuterFull(o);
    CellOk();
    NumberOk(0);
    NumberOk(2);
    NumberOk(3);
    hide Full, Work, PlainOk, BoundOk, Number, ClosedBound, Cell;
    assert Free(Plain(Cell(Id("i"), Id("j"))), "i") && Free(Plain(Cell(Id("i"), Id("j"))), "j") by { FirstOfCell(); }
  }

  lemma FirstOfCell()
    ensures Cell(Id("i"), Id("j"))[..1] == [Id("f")]
  {
  }

  lemma OuterFull(o: C.Ops<int>)
    ensures Work(o, Outer(), map[], false).Some?
    ensures Full(o, Outer(), map[])
         == Cell(Num(0), Num(0)) + Cell(Num(0), Num(2)) + Cell(Num(1), Num(1)) + Cell(Num(2), Num(2))
  {
    var env: Env := map[];
    assert env["i" := 0] == map["i" := 0] && env["i" := 1] == map["i" := 1] && env["i" := 2] == map["i" := 2];
    InnerFull(o, 0);
    InnerFull(o, 1);
    InnerFull(o, 2);
    hide Inner, Cell;
    assert FullValues(o, "i", 3, 3, 1, Inner(), env) == [];
    assert FullValues(o, "i", 2, 3, 1, Inner(), env) == Cell(Num(2), Num(2));
    assert FullValues(o, "i", 1, 3, 1, Inner(), env) == Cell(Num(1), Num(1)) + Cell(Num(2), Num(2));
    assert WorkValues(o, "i", 2, 3, 1, Inner(), env).Some?;
    assert WorkValues(o, "i", 1, 3, 1, Inner(), env).Some?;
  }

  // ------------------------------------------------------------------------------------------
  // Tokens
  // ------------------------------------------------------------------------------------------

  /** The tokens of values in headers. */
  lemma Spelling(n: int)
    ensures AsConsts([OPEN, CLOSE, COLON, QUESTION, PLUS, MINUS, TILDA, BANG])
         == [C.LParen, C.RParen, C.Colon, C.Question, C.Plus, C.Minus, C.Tilda, C.Bang]
    ensures AsConsts([ASTERISK, SLASH, PERCENT, LESS_LESS, GREATER_GREATER, AMPERSAND, CAROT, VBAR])
         == [C.Asterisk, C.Slash, C.Percent, C.LessLess, C.GreaterGreater, C.Ampersand, C.Carot, C.Vbar]
    ensures AsConsts([Num(n), Id("true"), Id("false")]) == [C.Num(n), C.Num(1), C.Num(0)]
  {
  }

  /** for (int x = a; x < b; x++) body */
  lemma WrittenPlusPlus(x: string, a: int, b: int, body: Stmt)
    ensures Text(For(x, Number(a), Number(b), None, body)) ==
      [FOR, OPEN, INT, Id(x), EQUAL, Num(a), SEMICOLON, Id(x), LESS, Num(b), SEMICOLON, Id(x), PLUS_PLUS, CLOSE] + Text(body)
  {
    NumberText(a);
    NumberText(b);
    hide BoundText;
  }

  /** for (int x = a; x < b; x += s) body */
  lemma WrittenStep(x: string, a: int, b: int, s: int, body: Stmt)
    ensures Text(For(x, Number(a), Number(b), Some(Number(s)), body)) ==
      [FOR, OPEN, INT, Id(x), EQUAL, Num(a), SEMICOLON, Id(x), LESS, Num(b), SEMICOLON, Id(x), PLUS_EQUAL, Num(s), CLOSE]
      + Text(body)
  {
    NumberText(a);
    NumberText(b);
    NumberText(s);
    hide BoundText;
  }

  lemma NumberText(n: int)
    ensures BoundText(Number(n)) == [Num(n)]
  {
    assert C.Print(Number(n), 14) == [C.Num(Const(n))];
    FromOne(C.Num(Const(n)));
  }
}
