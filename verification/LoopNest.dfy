/** Statements with loops within loops: their text, their full unrolling, and where they end.  A loop and
    its copies with the value in place of the control variable unroll to the same tokens. */
module LoopNest {
  import opened Wrappers
  import opened LoopUnroll
  import opened LoopBounds
  import C = ConstExpr

  /** Plain is a statement that ends with its first semicolon, Guard an if or a switch, `el` its else
      branch if it has one.  A loop without `step` counts up by one. */
  datatype Stmt =
    | Plain(ts: seq<Tok>)
    | Block(ss: seq<Stmt>)
    | Guard(kw: Tok, cond: seq<Tok>, th: Stmt, el: seq<Stmt>)
    | For(x: string, lo: Bound, hi: Bound, step: Option<Bound>, body: Stmt)

  function StepValue(o: C.Ops<int>, b: Option<Bound>, env: Env): int {
    if b.None? then 1 else Value(o, b.value, env)
  }

  // ------------------------------------------------------------------------------------------
  // The reference
  // ------------------------------------------------------------------------------------------

  function PutIn(ts: seq<Tok>, env: Env): seq<Tok> {
    seq(|ts|, i requires 0 <= i < |ts| => if ts[i].Id? && ts[i].name in env then Num(env[ts[i].name]) else ts[i])
  }

  /** All loops unrolled, with the values of their variables put in. */
  function Full(o: C.Ops<int>, s: Stmt, env: Env): seq<Tok>
    decreases s, 0, 0
  {
    match s
    case Plain(ts) => PutIn(ts, env)
    case Block(ss) => [LBRACE] + FullAll(o, ss, env) + [RBRACE]
    case Guard(kw, cond, th, el) =>
      [kw, OPEN] + PutIn(cond, env) + [CLOSE] + Full(o, th, env) + (if el == [] then [] else [ELSE] + FullAll(o, el, env))
    case For(x, lo, hi, step, body) => FullValues(o, x, Value(o, lo, env), Value(o, hi, env), StepValue(o, step, env), body, env)
  }

  function FullAll(o: C.Ops<int>, ss: seq<Stmt>, env: Env): seq<Tok>
    decreases ss, 0, 0
  {
    if ss == [] then [] else Full(o, ss[0], env) + FullAll(o, ss[1..], env)
  }

  function FullValues(o: C.Ops<int>, x: string, v: int, hi: int, step: int, body: Stmt, env: Env): seq<Tok>
    decreases body, 1, hi - v
  {
    if v >= hi || step <= 0 then [] else Full(o, body, env[x := v]) + FullValues(o, x, v + step, hi, step, body, env)
  }

  function Plus(a: Option<nat>, b: Option<nat>): Option<nat> {
    if a.Some? && b.Some? then Some(a.value + b.value) else None
  }

  /** How many tokens and loops the unrolling goes through.  None when a loop does not count up, or when
      a loop inside another one runs not even once. */
  function Work(o: C.Ops<int>, s: Stmt, env: Env, inside: bool): Option<nat>
    decreases s, 0, 0
  {
    match s
    case Plain(ts) => Some(|ts|)
    case Block(ss) => Plus(Some(2), WorkAll(o, ss, env, inside))
    case Guard(kw, cond, th, el) =>
      Plus(Some(|cond| + 3), Plus(Work(o, th, env, inside),
        if el == [] then Some(0) else Plus(Some(1), WorkAll(o, el, env, inside))))
    case For(x, lo, hi, step, body) =>
      if StepValue(o, step, env) <= 0 || (inside && Value(o, lo, env) >= Value(o, hi, env)) then None
      else Plus(Some(1), WorkValues(o, x, Value(o, lo, env), Value(o, hi, env), StepValue(o, step, env), body, env))
  }

  function WorkAll(o: C.Ops<int>, ss: seq<Stmt>, env: Env, inside: bool): Option<nat>
    decreases ss, 0, 0
  {
    if ss == [] then Some(0) else Plus(Work(o, ss[0], env, inside), WorkAll(o, ss[1..], env, inside))
  }

  function WorkValues(o: C.Ops<int>, x: string, v: int, hi: int, step: int, body: Stmt, env: Env): Option<nat>
    decreases body, 1, hi - v
  {
    if v >= hi || step <= 0 then Some(0)
    else Plus(Work(o, body, env[x := v], true), WorkValues(o, x, v + step, hi, step, body, env))
  }

  // ------------------------------------------------------------------------------------------
  // What statements may look like
  // ------------------------------------------------------------------------------------------

  /** The depth of nesting behind `ts`; None if more is closed than was opened. */
  function Depth(ts: seq<Tok>, open: Tok, close: Tok, d: nat): Option<nat>
    decreases |ts|
  {
    if ts == [] then Some(d)
    else if ts[0] == close then (if d == 0 then None else Depth(ts[1..], open, close, d - 1))
    else if ts[0] == open then Depth(ts[1..], open, close, d + 1)
    else Depth(ts[1..], open, close, d)
  }

  predicate Balanced(ts: seq<Tok>, open: Tok, close: Tok) { Depth(ts, open, close, 0) == Some(0) }

  /** No loop begins, and no list or file ends, among these tokens. */
  predicate Ordinary(ts: seq<Tok>) { FOR !in ts && Eor !in ts && Eof !in ts }

  predicate PlainOk(ts: seq<Tok>) {
    && ts != [] && ts[|ts| - 1] == SEMICOLON && SEMICOLON !in ts[..|ts| - 1]
    && (|ts| > 1 ==> Starts(ts[0]))
    && Ordinary(ts) && Balanced(ts, LBRACE, RBRACE)
  }

  /** An else behind the statement would belong to it. */
  predicate OpenEnd(s: Stmt) {
    match s
    case Plain(_) => false
    case Block(_) => false
    case Guard(kw, _, th, el) => if el != [] then OpenEnd(el[0]) else kw == IF || OpenEnd(th)
    case For(_, _, _, _, body) => OpenEnd(body)
  }

  /** No loop within has `x` as its own control variable, and no statement begins with it. */
  predicate Free(s: Stmt, x: string) {
    match s
    case Plain(ts) => ts == [] || ts[0] != Id(x)
    case Block(ss) => FreeAll(ss, x)
    case Guard(_, _, th, el) => Free(th, x) && FreeAll(el, x)
    case For(y, _, _, _, body) => y != x && Free(body, x)
  }

  predicate FreeAll(ss: seq<Stmt>, x: string) {
    ss == [] || (Free(ss[0], x) && FreeAll(ss[1..], x))
  }

  /** The evaluator takes the values in the header of a loop. */
  predicate HeaderOk(f: Stmt)
    requires f.For?
  {
    BoundOk(f.lo) && BoundOk(f.hi) && (f.step.Some? ==> BoundOk(f.step.value))
  }

  predicate Wf(s: Stmt) {
    match s
    case Plain(ts) => PlainOk(ts)
    case Block(ss) => WfAll(ss)
    case Guard(kw, cond, th, el) =>
      && kw in {IF, SWITCH} && Ordinary(cond) && Balanced(cond, OPEN, CLOSE) && Balanced(cond, LBRACE, RBRACE)
      && Wf(th) && WfAll(el) && |el| <= 1 && (el != [] ==> kw == IF && !OpenEnd(th))
    case For(x, _, _, _, body) => HeaderOk(s) && Wf(body) && Free(body, x)
  }

  predicate WfAll(ss: seq<Stmt>) {
    ss == [] || (Wf(ss[0]) && WfAll(ss[1..]))
  }

  /** Bounds mention only variables of enclosing loops. */
  predicate Closed(s: Stmt, xs: set<string>) {
    match s
    case Plain(_) => true
    case Block(ss) => ClosedAll(ss, xs)
    case Guard(_, _, th, el) => Closed(th, xs) && ClosedAll(el, xs)
    case For(x, lo, hi, step, body) =>
      && ClosedBound(lo, xs) && ClosedBound(hi, xs) && (step.Some? ==> ClosedBound(step.value, xs))
      && Closed(body, xs + {x})
  }

  predicate ClosedAll(ss: seq<Stmt>, xs: set<string>) {
    ss == [] || (Closed(ss[0], xs) && ClosedAll(ss[1..], xs))
  }

  // ------------------------------------------------------------------------------------------
  // Putting a value in
  // ------------------------------------------------------------------------------------------

  function SubstStep(b: Option<Bound>, x: string, v: int): Option<Bound> {
    if b.None? then None else Some(SubstBound(b.value, x, v))
  }

  function SubstStmt(s: Stmt, x: string, v: int): Stmt {
    match s
    case Plain(ts) => Plain(SubstAll(ts, x, v))
    case Block(ss) => Block(SubstStmts(ss, x, v))
    case Guard(kw, cond, th, el) => Guard(kw, SubstAll(cond, x, v), SubstStmt(th, x, v), SubstStmts(el, x, v))
    case For(y, lo, hi, step, body) =>
      For(y, SubstBound(lo, x, v), SubstBound(hi, x, v), SubstStep(step, x, v), SubstStmt(body, x, v))
  }

  function SubstStmts(ss: seq<Stmt>, x: string, v: int): (r: seq<Stmt>)
    ensures |r| == |ss|
  {
    if ss == [] then [] else [SubstStmt(ss[0], x, v)] + SubstStmts(ss[1..], x, v)
  }

  lemma SubstFirst(ss: seq<Stmt>, x: string, v: int)
    requires ss != []
    ensures var r := SubstStmts(ss, x, v); r[0] == SubstStmt(ss[0], x, v) && r[1..] == SubstStmts(ss[1..], x, v)
  {
  }

  lemma SubstBounds(o: C.Ops<int>, s: Stmt, x: string, v: int, env: Env)
    requires s.For?
    ensures var r := SubstStmt(s, x, v);
      && Value(o, r.lo, env) == Value(o, s.lo, env[x := v]) && Value(o, r.hi, env) == Value(o, s.hi, env[x := v])
      && StepValue(o, r.step, env) == StepValue(o, s.step, env[x := v])
  {
    SubstBoundValue(o, s.lo, x, v, env);
    SubstBoundValue(o, s.hi, x, v, env);
    if s.step.Some? { SubstBoundValue(o, s.step.value, x, v, env); }
  }

  lemma PutInSubst(ts: seq<Tok>, x: string, v: int, env: Env)
    ensures PutIn(SubstAll(ts, x, v), env) == PutIn(ts, env[x := v])
  {
  }

  /** Putting a value in first is unrolling with the value known. */
  lemma {:induction false} SubstFull(o: C.Ops<int>, s: Stmt, x: string, v: int, env: Env)
    requires Free(s, x)
    ensures Full(o, SubstStmt(s, x, v), env) == Full(o, s, env[x := v])
    decreases s, 0, 0
  {
    hide PutIn, SubstAll;
    match s {
      case Plain(ts) => PutInSubst(ts, x, v, env);
      case Block(ss) => SubstFullAll(o, ss, x, v, env);
      case Guard(kw, cond, th, el) =>
        PutInSubst(cond, x, v, env);
        SubstFull(o, th, x, v, env);
        SubstFullAll(o, el, x, v, env);
      case For(y, lo, hi, step, body) =>
        SubstBounds(o, s, x, v, env);
        var r := SubstStmt(s, x, v);
        SubstFullValues(o, y, Value(o, r.lo, env), Value(o, r.hi, env), StepValue(o, r.step, env), body, x, v, env);
    }
  }

  lemma {:induction false} SubstFullAll(o: C.Ops<int>, ss: seq<Stmt>, x: string, v: int, env: Env)
    requires FreeAll(ss, x)
    ensures FullAll(o, SubstStmts(ss, x, v), env) == FullAll(o, ss, env[x := v])
    decreases ss, 0, 0
  {
    if ss != [] {
      SubstFirst(ss, x, v);
      SubstFull(o, ss[0], x, v, env);
      SubstFullAll(o, ss[1..], x, v, env);
    }
  }

  lemma {:induction false} SubstFullValues(o: C.Ops<int>, y: string, w: int, hi: int, step: int, body: Stmt, x: string, v: int, env: Env)
    requires Free(body, x) && y != x
    ensures FullValues(o, y, w, hi, step, SubstStmt(body, x, v), env) == FullValues(o, y, w, hi, step, body, env[x := v])
    decreases body, 1, hi - w
  {
    if w < hi && step > 0 {
      assert env[y := w][x := v] == env[x := v][y := w];
      SubstFull(o, body, x, v, env[y := w]);
      SubstFullValues(o, y, w + step, hi, step, body, x, v, env);
    }
  }

  lemma {:induction false} SubstWork(o: C.Ops<int>, s: Stmt, x: string, v: int, env: Env, inside: bool)
    requires Free(s, x)
    ensures Work(o, SubstStmt(s, x, v), env, inside) == Work(o, s, env[x := v], inside)
    decreases s, 0, 0
  {
    hide SubstAll;
    match s {
      case Plain(ts) =>
      case Block(ss) => SubstWorkAll(o, ss, x, v, env, inside);
      case Guard(kw, cond, th, el) =>
        SubstWork(o, th, x, v, env, inside);
        SubstWorkAll(o, el, x, v, env, inside);
      case For(y, lo, hi, step, body) =>
        SubstBounds(o, s, x, v, env);
        var r := SubstStmt(s, x, v);
        SubstWorkValues(o, y, Value(o, r.lo, env), Value(o, r.hi, env), StepValue(o, r.step, env), body, x, v, env);
    }
  }

  lemma {:induction false} SubstWorkAll(o: C.Ops<int>, ss: seq<Stmt>, x: string, v: int, env: Env, inside: bool)
    requires FreeAll(ss, x)
    ensures WorkAll(o, SubstStmts(ss, x, v), env, inside) == WorkAll(o, ss, env[x := v], inside)
    decreases ss, 0, 0
  {
    if ss != [] {
      SubstFirst(ss, x, v);
      SubstWork(o, ss[0], x, v, env, inside);
      SubstWorkAll(o, ss[1..], x, v, env, inside);
    }
  }

  lemma {:induction false} SubstWorkValues(o: C.Ops<int>, y: string, w: int, hi: int, step: int, body: Stmt, x: string, v: int, env: Env)
    requires Free(body, x) && y != x
    ensures WorkValues(o, y, w, hi, step, SubstStmt(body, x, v), env) == WorkValues(o, y, w, hi, step, body, env[x := v])
    decreases body, 1, hi - w
  {
    if w < hi && step > 0 {
      assert env[y := w][x := v] == env[x := v][y := w];
      SubstWork(o, body, x, v, env[y := w], true);
      SubstWorkValues(o, y, w + step, hi, step, body, x, v, env);
    }
  }

  // ------------------------------------------------------------------------------------------
  // What putting a value in keeps
  // ------------------------------------------------------------------------------------------

  lemma {:induction false} SubstDepth(ts: seq<Tok>, x: string, v: int, open: Tok, close: Tok, d: nat)
    requires !open.Id? && !close.Id? && !open.Num? && !close.Num?
    ensures Depth(SubstAll(ts, x, v), open, close, d) == Depth(ts, open, close, d)
    decreases |ts|
  {
    if ts != [] {
      assert SubstAll(ts, x, v)[1..] == SubstAll(ts[1..], x, v);
      SubstDepth(ts[1..], x, v, open, close, if ts[0] == close && d > 0 then d - 1 else if ts[0] == open then d + 1 else d);
    }
  }

  lemma SubstOrdinary(ts: seq<Tok>, x: string, v: int)
    requires Ordinary(ts)
    ensures Ordinary(SubstAll(ts, x, v))
  {
    var r := SubstAll(ts, x, v);
    forall i | 0 <= i < |r| ensures r[i] != FOR && r[i] != Eor && r[i] != Eof {
      assert ts[i] in ts;
    }
  }

  lemma SubstPlain(ts: seq<Tok>, x: string, v: int)
    requires PlainOk(ts) && ts[0] != Id(x)
    ensures PlainOk(SubstAll(ts, x, v))
  {
    SubstOrdinary(ts, x, v);
    SubstDepth(ts, x, v, LBRACE, RBRACE, 0);
    var r := SubstAll(ts, x, v);
    forall i | 0 <= i < |r| - 1 ensures r[i] != SEMICOLON {
      assert ts[i] in ts[..|ts| - 1];
    }
  }

  lemma PlainFirst(ts: seq<Tok>)
    requires PlainOk(ts)
    ensures ts != []
  {
  }

  lemma {:induction false} SubstOpenEnd(s: Stmt, x: string, v: int)
    ensures OpenEnd(SubstStmt(s, x, v)) == OpenEnd(s)
  {
    match s {
      case Plain(_) =>
      case Block(_) =>
      case Guard(_, _, th, el) =>
        SubstOpenEnd(th, x, v);
        if el != [] { SubstFirst(el, x, v); SubstOpenEnd(el[0], x, v); }
      case For(_, _, _, _, body) => SubstOpenEnd(body, x, v);
    }
  }

  lemma {:induction false} SubstFree(s: Stmt, x: string, v: int, y: string)
    requires Free(s, y)
    ensures Free(SubstStmt(s, x, v), y)
  {
    match s {
      case Plain(_) =>
      case Block(ss) => SubstFreeAll(ss, x, v, y);
      case Guard(_, _, th, el) =>
        SubstFree(th, x, v, y);
        SubstFreeAll(el, x, v, y);
      case For(_, _, _, _, body) => SubstFree(body, x, v, y);
    }
  }

  lemma {:induction false} SubstFreeAll(ss: seq<Stmt>, x: string, v: int, y: string)
    requires FreeAll(ss, y)
    ensures FreeAll(SubstStmts(ss, x, v), y)
  {
    if ss != [] {
      SubstFirst(ss, x, v);
      SubstFree(ss[0], x, v, y);
      SubstFreeAll(ss[1..], x, v, y);
    }
  }

  lemma {:induction false} SubstWf(s: Stmt, x: string, v: int)
    requires Wf(s) && Free(s, x)
    ensures Wf(SubstStmt(s, x, v))
  {
    hide PlainOk, Ordinary, Depth, SubstAll;
    match s {
      case Plain(ts) =>
        PlainFirst(ts);
        SubstPlain(ts, x, v);
      case Block(ss) => SubstWfAll(ss, x, v);
      case Guard(kw, cond, th, el) =>
        SubstOrdinary(cond, x, v);
        SubstDepth(cond, x, v, OPEN, CLOSE, 0);
        SubstDepth(cond, x, v, LBRACE, RBRACE, 0);
        SubstWf(th, x, v);
        SubstWfAll(el, x, v);
        SubstOpenEnd(th, x, v);
      case For(y, lo, hi, step, body) =>
        SubstBoundOk(lo, x, v);
        SubstBoundOk(hi, x, v);
        if step.Some? { SubstBoundOk(step.value, x, v); }
        SubstWf(body, x, v);
        SubstFree(body, x, v, y);
    }
  }

  lemma {:induction false} SubstWfAll(ss: seq<Stmt>, x: string, v: int)
    requires WfAll(ss) && FreeAll(ss, x)
    ensures WfAll(SubstStmts(ss, x, v))
  {
    if ss != [] {
      SubstFirst(ss, x, v);
      SubstWf(ss[0], x, v);
      SubstWfAll(ss[1..], x, v);
    }
  }

  lemma {:induction false} SubstClosed(s: Stmt, x: string, v: int, xs: set<string>)
    requires Closed(s, xs) && Free(s, x)
    ensures Closed(SubstStmt(s, x, v), xs - {x})
  {
    match s {
      case Plain(_) =>
      case Block(ss) => SubstClosedAll(ss, x, v, xs);
      case Guard(_, _, th, el) =>
        SubstClosed(th, x, v, xs);
        SubstClosedAll(el, x, v, xs);
      case For(y, lo, hi, step, body) =>
        SubstClosedBound(lo, x, v, xs);
        SubstClosedBound(hi, x, v, xs);
        if step.Some? { SubstClosedBound(step.value, x, v, xs); }
        SubstClosed(body, x, v, xs + {y});
        assert xs + {y} - {x} == xs - {x} + {y};
    }
  }

  lemma {:induction false} SubstClosedAll(ss: seq<Stmt>, x: string, v: int, xs: set<string>)
    requires ClosedAll(ss, xs) && FreeAll(ss, x)
    ensures ClosedAll(SubstStmts(ss, x, v), xs - {x})
  {
    if ss != [] {
      SubstFirst(ss, x, v);
      SubstClosed(ss[0], x, v, xs);
      SubstClosedAll(ss[1..], x, v, xs);
    }
  }

  // ------------------------------------------------------------------------------------------
  // Text
  // ------------------------------------------------------------------------------------------

  function StepText(b: Option<Bound>): seq<Tok> {
    if b.None? then [PLUS_PLUS] else [PLUS_EQUAL] + BoundText(b.value)
  }

  function Header(f: Stmt): seq<Tok>
    requires f.For?
  {
    [FOR, OPEN, INT, Id(f.x), EQUAL] + (BoundText(f.lo) + ([SEMICOLON, Id(f.x), LESS] + (BoundText(f.hi)
    + ([SEMICOLON, Id(f.x)] + (StepText(f.step) + [CLOSE])))))
  }

  /** The tokens of the source text. */
  function Text(s: Stmt): seq<Tok> {
    match s
    case Plain(ts) => ts
    case Block(ss) => [LBRACE] + TextAll(ss) + [RBRACE]
    case Guard(kw, cond, th, el) => [kw, OPEN] + cond + [CLOSE] + Text(th) + (if el == [] then [] else [ELSE] + TextAll(el))
    case For(_, _, _, _, body) => Header(s) + Text(body)
  }

  function TextAll(ss: seq<Stmt>): seq<Tok> {
    if ss == [] then [] else Text(ss[0]) + TextAll(ss[1..])
  }

  lemma StepTextSubst(b: Option<Bound>, x: string, v: int)
    requires b.Some? ==> BoundOk(b.value)
    ensures SubstAll(StepText(b), x, v) == StepText(SubstStep(b, x, v))
  {
    if b.Some? {
      BoundTextSubst(b.value, x, v);
      SubstAppend([PLUS_EQUAL], BoundText(b.value), x, v);
      assert SubstAll([PLUS_EQUAL], x, v) == [PLUS_EQUAL];
    } else {
      assert SubstAll([PLUS_PLUS], x, v) == [PLUS_PLUS];
    }
  }

  lemma FixedTokens(y: string, x: string, v: int)
    requires y != x
    ensures SubstAll([FOR, OPEN, INT, Id(y), EQUAL], x, v) == [FOR, OPEN, INT, Id(y), EQUAL]
    ensures SubstAll([SEMICOLON, Id(y), LESS], x, v) == [SEMICOLON, Id(y), LESS]
    ensures SubstAll([SEMICOLON, Id(y)], x, v) == [SEMICOLON, Id(y)]
    ensures SubstAll([CLOSE], x, v) == [CLOSE]
  {
  }

  lemma HeaderSubst(f: Stmt, x: string, v: int)
    requires f.For? && f.x != x && HeaderOk(f)
    ensures SubstAll(Header(f), x, v) == Header(SubstStmt(f, x, v))
  {
    hide BoundText, StepText, SubstAll;
    var a, b, c, d := [FOR, OPEN, INT, Id(f.x), EQUAL], [SEMICOLON, Id(f.x), LESS], [SEMICOLON, Id(f.x)], [CLOSE];
    FixedTokens(f.x, x, v);
    BoundTextSubst(f.lo, x, v);
    BoundTextSubst(f.hi, x, v);
    StepTextSubst(f.step, x, v);
    var l, h, s := BoundText(f.lo), BoundText(f.hi), StepText(f.step);
    SubstAppend(a, l + (b + (h + (c + (s + d)))), x, v);
    SubstAppend(l, b + (h + (c + (s + d))), x, v);
    SubstAppend(b, h + (c + (s + d)), x, v);
    SubstAppend(h, c + (s + d), x, v);
    SubstAppend(c, s + d, x, v);
    SubstAppend(s, d, x, v);
  }

  lemma SubstKeeps(t: Tok, x: string, v: int)
    requires !t.Id?
    ensures SubstAll([t], x, v) == [t] && forall u: Tok :: !u.Id? ==> SubstAll([u, t], x, v) == [u, t]
  {
  }

  /** What is played back for one value is the text of the statement with the value put in. */
  lemma {:induction false} TextSubst(s: Stmt, x: string, v: int)
    requires Wf(s) && Free(s, x)
    ensures SubstAll(Text(s), x, v) == Text(SubstStmt(s, x, v))
  {
    hide SubstAll, Header, PlainOk, Ordinary, Depth;
    match s {
      case Plain(_) =>
      case Block(ss) =>
        TextSubstAll(ss, x, v);
        SubstKeeps(LBRACE, x, v);
        SubstKeeps(RBRACE, x, v);
        SubstAppend([LBRACE] + TextAll(ss), [RBRACE], x, v);
        SubstAppend([LBRACE], TextAll(ss), x, v);
      case Guard(kw, cond, th, el) =>
        TextSubst(th, x, v);
        TextSubstAll(el, x, v);
        GuardSubst(kw, cond, Text(th), TextAll(el), el != [], x, v);
      case For(_, _, _, _, body) =>
        HeaderSubst(s, x, v);
        TextSubst(body, x, v);
        SubstAppend(Header(s), Text(body), x, v);
    }
  }

  lemma GuardSubst(kw: Tok, cond: seq<Tok>, th: seq<Tok>, el: seq<Tok>, more: bool, x: string, v: int)
    requires !kw.Id?
    ensures SubstAll([kw, OPEN] + cond + [CLOSE] + th + (if more then [ELSE] + el else []), x, v)
         == [kw, OPEN] + SubstAll(cond, x, v) + [CLOSE] + SubstAll(th, x, v) + (if more then [ELSE] + SubstAll(el, x, v) else [])
  {
    SubstKeeps(OPEN, x, v);
    SubstKeeps(CLOSE, x, v);
    SubstKeeps(ELSE, x, v);
    hide SubstAll;
    SubstAppend([kw, OPEN] + cond + [CLOSE] + th, if more then [ELSE] + el else [], x, v);
    SubstAppend([kw, OPEN] + cond + [CLOSE], th, x, v);
    SubstAppend([kw, OPEN] + cond, [CLOSE], x, v);
    SubstAppend([kw, OPEN], cond, x, v);
    SubstAppend([ELSE], el, x, v);
    SubstNothing(x, v);
  }

  lemma SubstNothing(x: string, v: int)
    ensures SubstAll([], x, v) == []
  {
  }

  lemma {:induction false} TextSubstAll(ss: seq<Stmt>, x: string, v: int)
    requires WfAll(ss) && FreeAll(ss, x)
    ensures SubstAll(TextAll(ss), x, v) == TextAll(SubstStmts(ss, x, v))
  {
    hide SubstAll, Text;
    if ss == [] {
      SubstNothing(x, v);
    } else {
      SubstFirst(ss, x, v);
      TextSubst(ss[0], x, v);
      TextSubstAll(ss[1..], x, v);
      SubstAppend(Text(ss[0]), TextAll(ss[1..]), x, v);
    }
  }

  // ------------------------------------------------------------------------------------------
  // Where a statement ends
  // ------------------------------------------------------------------------------------------

  lemma {:induction false} DepthAppend(a: seq<Tok>, b: seq<Tok>, open: Tok, close: Tok, d: nat)
    requires Depth(a, open, close, d).Some?
    ensures Depth(a + b, open, close, d) == Depth(b, open, close, Depth(a, open, close, d).value)
    decreases |a|
  {
    if a == [] {
      assert a + b == b;
    } else {
      assert (a + b)[1..] == a[1..] + b;
      DepthAppend(a[1..], b, open, close, if a[0] == close then d - 1 else if a[0] == open then d + 1 else d);
    }
  }

  /** Nested text is nested at every depth. */
  lemma {:induction false} DepthShift(a: seq<Tok>, open: Tok, close: Tok, d: nat, k: nat)
    requires Depth(a, open, close, d).Some?
    ensures Depth(a, open, close, d + k) == Some(Depth(a, open, close, d).value + k)
    decreases |a|
  {
    if a != [] {
      DepthShift(a[1..], open, close, if a[0] == close then d - 1 else if a[0] == open then d + 1 else d, k);
    }
  }

  lemma BalancedAppend(a: seq<Tok>, b: seq<Tok>, open: Tok, close: Tok)
    requires Balanced(a, open, close) && Balanced(b, open, close)
    ensures Balanced(a + b, open, close)
  {
    DepthAppend(a, b, open, close, 0);
  }

  lemma BalancedNone(ts: seq<Tok>, open: Tok, close: Tok)
    requires open !in ts && close !in ts
    ensures Balanced(ts, open, close)
    decreases |ts|
  {
    if ts != [] {
      assert ts[0] in ts;
      BalancedNone(ts[1..], open, close);
    }
  }

  predicate InBound(t: Tok) {
    t.Num? || t.Id? || t in {PLUS, MINUS, TILDA, BANG, ASTERISK, SLASH, PERCENT, LESS_LESS, GREATER_GREATER,
                             AMPERSAND, CAROT, VBAR, QUESTION, COLON, OPEN, CLOSE}
  }

  predicate Bracketed(ts: seq<C.Tok<Leaf>>) {
    (forall t :: t in FromConsts(ts) ==> InBound(t)) && Balanced(FromConsts(ts), OPEN, CLOSE)
  }

  lemma BracketedTwo(a: seq<C.Tok<Leaf>>, b: seq<C.Tok<Leaf>>)
    requires Bracketed(a) && Bracketed(b)
    ensures Bracketed(a + b)
  {
    hide Depth, FromConsts;
    FromAppend(a, b);
    BalancedAppend(FromConsts(a), FromConsts(b), OPEN, CLOSE);
  }

  lemma BracketedOne(t: C.Tok<Leaf>)
    requires t.Num? || (Fixed(t) && !t.LParen? && !t.RParen?)
    ensures Bracketed([t])
  {
    FromOne(t);
    assert [FromConst(t)][1..] == [];
  }

  lemma BracketedParens(ts: seq<C.Tok<Leaf>>)
    requires Bracketed(ts)
    ensures Bracketed([C.LParen] + ts + [C.RParen])
  {
    FromAppend([C.LParen], ts);
    FromAppend([C.LParen] + ts, [C.RParen]);
    FromOne(C.LParen);
    FromOne(C.RParen);
    hide FromConsts;
    InBrackets(FromConsts(ts), OPEN, CLOSE);
  }

  /** The text of a bound is made of operators, and closes what it opens. */
  lemma {:induction false} PrintBracketed(b: Bound, lvl: int)
    requires C.Legal(b)
    ensures Bracketed(C.Print(b, lvl))
    decreases b, 1
  {
    hide Bracketed, C.Text;
    ExprBracketed(b);
    if C.Level(b) > lvl { BracketedParens(C.Text(b)); }
  }

  lemma {:induction false} ExprBracketed(b: Bound)
    requires C.Legal(b)
    ensures Bracketed(C.Text(b))
    decreases b, 0
  {
    hide Bracketed, C.Print;
    match b {
      case Lit(l) => BracketedOne(C.Num(l));
      case Paren(e) =>
        PrintBracketed(e, 14);
        BracketedParens(C.Print(e, 14));
      case Un(op, e) =>
        PrintBracketed(e, 0);
        BracketedOne(op);
        BracketedTwo([op], C.Print(e, 0));
      case Bin(op, l, r) =>
        PrintBracketed(l, C.Prec(op));
        PrintBracketed(r, C.Prec(op) - 1);
        BracketedThree(C.Print(l, C.Prec(op)), op, C.Print(r, C.Prec(op) - 1));
      case Cond(c, l, r) =>
        PrintBracketed(c, 13);
        PrintBracketed(l, 14);
        PrintBracketed(r, 14);
        BracketedThree(C.Print(c, 13), C.Question, C.Print(l, 14));
        BracketedThree(C.Print(c, 13) + [C.Question] + C.Print(l, 14), C.Colon, C.Print(r, 14));
    }
  }

  lemma BracketedThree(a: seq<C.Tok<Leaf>>, t: C.Tok<Leaf>, b: seq<C.Tok<Leaf>>)
    requires Bracketed(a) && Bracketed(b) && Fixed(t) && !t.LParen? && !t.RParen?
    ensures Bracketed(a + [t] + b)
  {
    hide Bracketed;
    BracketedOne(t);
    BracketedTwo(a, [t]);
    BracketedTwo(a + [t], b);
  }

  lemma BoundTextPlain(b: Bound)
    requires BoundOk(b)
    ensures (forall t :: t in BoundText(b) ==> InBound(t)) && Balanced(BoundText(b), OPEN, CLOSE)
  {
    hide FromConsts, C.Print, Depth;
    PrintBracketed(b, 14);
  }

  /** What stands in the parentheses of a header. */
  function HeaderInner(f: Stmt): seq<Tok>
    requires f.For?
  {
    [INT, Id(f.x), EQUAL] + BoundText(f.lo) + [SEMICOLON, Id(f.x), LESS] + BoundText(f.hi)
    + [SEMICOLON, Id(f.x)] + StepText(f.step)
  }

  lemma HeaderParts(f: Stmt)
    requires f.For?
    ensures Header(f) == [FOR, OPEN] + HeaderInner(f) + [CLOSE]
  {
    hide BoundText, StepText;
    var a, b, c, d := [INT, Id(f.x), EQUAL], [SEMICOLON, Id(f.x), LESS], [SEMICOLON, Id(f.x)], [CLOSE];
    assert [FOR, OPEN, INT, Id(f.x), EQUAL] == [FOR, OPEN] + a;
    HeaderRegroup([FOR, OPEN], a, BoundText(f.lo), b, BoundText(f.hi), c, StepText(f.step), d);
  }

  lemma HeaderRegroup(z: seq<Tok>, a: seq<Tok>, l: seq<Tok>, b: seq<Tok>, h: seq<Tok>, c: seq<Tok>, s: seq<Tok>, d: seq<Tok>)
    ensures (z + a) + (l + (b + (h + (c + (s + d))))) == z + (a + l + b + h + c + s) + d
  {
    assert a + (l + (b + (h + (c + s)))) == a + l + b + h + c + s;
    assert l + (b + (h + (c + (s + d)))) == (l + (b + (h + (c + s)))) + d;
  }

  predicate InHeader(t: Tok) {
    InBound(t) || t in {INT, EQUAL, SEMICOLON, LESS, PLUS_EQUAL, PLUS_PLUS}
  }

  /** Inside its parentheses a header closes what it opens, and has no braces. */
  lemma HeaderPlain(f: Stmt)
    requires f.For? && HeaderOk(f)
    ensures (forall t :: t in HeaderInner(f) ==> InHeader(t)) && Balanced(HeaderInner(f), OPEN, CLOSE)
  {
    hide BoundText, Depth;
    var a, b, c := [INT, Id(f.x), EQUAL], [SEMICOLON, Id(f.x), LESS], [SEMICOLON, Id(f.x)];
    var l, h, s := BoundText(f.lo), BoundText(f.hi), StepText(f.step);
    BoundTextPlain(f.lo);
    BoundTextPlain(f.hi);
    StepPlain(f.step);
    BalancedNone(a, OPEN, CLOSE);
    BalancedNone(b, OPEN, CLOSE);
    BalancedNone(c, OPEN, CLOSE);
    BalancedAppend(a, l, OPEN, CLOSE);
    BalancedAppend(a + l, b, OPEN, CLOSE);
    BalancedAppend(a + l + b, h, OPEN, CLOSE);
    BalancedAppend(a + l + b + h, c, OPEN, CLOSE);
    BalancedAppend(a + l + b + h + c, s, OPEN, CLOSE);
  }

  lemma StepPlain(b: Option<Bound>)
    requires b.Some? ==> BoundOk(b.value)
    ensures (forall t :: t in StepText(b) ==> InHeader(t)) && Balanced(StepText(b), OPEN, CLOSE)
  {
    hide BoundText, Depth;
    BalancedNone([PLUS_PLUS], OPEN, CLOSE);
    BalancedNone([PLUS_EQUAL], OPEN, CLOSE);
    if b.Some? {
      BoundTextPlain(b.value);
      BalancedAppend([PLUS_EQUAL], BoundText(b.value), OPEN, CLOSE);
    }
  }

  /** A header is balanced, and has no special tokens but its first. */
  lemma HeaderBraces(f: Stmt)
    requires f.For? && HeaderOk(f)
    ensures Balanced(Header(f), LBRACE, RBRACE) && Eor !in Header(f) && Eof !in Header(f)
    ensures Balanced(HeaderInner(f), OPEN, CLOSE) && Eof !in HeaderInner(f)
  {
    hide Header, HeaderInner, Depth;
    HeaderPlain(f);
    HeaderParts(f);
    BalancedNone(Header(f), LBRACE, RBRACE);
  }

  lemma {:induction false} TextBraces(s: Stmt)
    requires Wf(s)
    ensures Balanced(Text(s), LBRACE, RBRACE) && Eor !in Text(s) && Eof !in Text(s)
  {
    hide Depth, Header;
    match s {
      case Plain(_) =>
      case Block(ss) =>
        TextBracesAll(ss);
        BracedBalanced(TextAll(ss));
      case Guard(kw, cond, th, el) =>
        TextBraces(th);
        TextBracesAll(el);
        hide Text, TextAll;
        var a, b := [kw, OPEN], [CLOSE];
        BalancedNone(a, LBRACE, RBRACE);
        BalancedNone(b, LBRACE, RBRACE);
        BalancedNone([ELSE], LBRACE, RBRACE);
        BalancedNone([], LBRACE, RBRACE);
        BalancedAppend(a, cond, LBRACE, RBRACE);
        BalancedAppend(a + cond, b, LBRACE, RBRACE);
        BalancedAppend(a + cond + b, Text(th), LBRACE, RBRACE);
        BalancedAppend([ELSE], TextAll(el), LBRACE, RBRACE);
        BalancedAppend(a + cond + b + Text(th), if el == [] then [] else [ELSE] + TextAll(el), LBRACE, RBRACE);
        GuardText(s);
      case For(_, _, _, _, body) =>
        TextBraces(body);
        HeaderBraces(s);
        BalancedAppend(Header(s), Text(body), LBRACE, RBRACE);
    }
  }

  lemma GuardText(s: Stmt)
    requires s.Guard?
    ensures Text(s) == [s.kw, OPEN] + s.cond + [CLOSE] + Text(s.th) + (if s.el == [] then [] else [ELSE] + TextAll(s.el))
  {
  }

  lemma BracedBalanced(ts: seq<Tok>)
    requires Balanced(ts, LBRACE, RBRACE)
    ensures Balanced([LBRACE] + ts + [RBRACE], LBRACE, RBRACE)
  {
    InBrackets(ts, LBRACE, RBRACE);
  }

  lemma InBrackets(ts: seq<Tok>, open: Tok, close: Tok)
    requires Balanced(ts, open, close) && open != close
    ensures Balanced([open] + ts + [close], open, close)
  {
    var all := [open] + ts + [close];
    assert all[1..] == ts + [close];
    DepthShift(ts, open, close, 0, 1);
    DepthAppend(ts, [close], open, close, 1);
  }

  lemma {:induction false} TextBracesAll(ss: seq<Stmt>)
    requires WfAll(ss)
    ensures Balanced(TextAll(ss), LBRACE, RBRACE) && Eor !in TextAll(ss) && Eof !in TextAll(ss)
  {
    hide Text;
    if ss != [] {
      TextBraces(ss[0]);
      TextBracesAll(ss[1..]);
      BalancedAppend(Text(ss[0]), TextAll(ss[1..]), LBRACE, RBRACE);
    }
  }

  /** Text that closes what it opens is passed when `close` is looked for. */
  lemma {:induction false} PassNested(w: seq<Tok>, i: nat, ts: seq<Tok>, open: Tok, close: Tok, d: nat)
    requires (open == LBRACE && close == RBRACE) || (open == OPEN && close == CLOSE)
    requires i + |ts| <= |w| && w[i..i + |ts|] == ts && Eof !in ts && Depth(ts, open, close, d).Some?
    ensures StopAt(w, i, close, d) == StopAt(w, i + |ts|, close, Depth(ts, open, close, d).value)
    decreases |ts|
  {
    if ts != [] {
      assert w[i] == ts[0] && w[i + 1..i + 1 + |ts[1..]|] == ts[1..];
      assert ts[0] in ts;
      PassNested(w, i + 1, ts[1..], open, close, if ts[0] == close then d - 1 else if ts[0] == open then d + 1 else d);
    }
  }

  /** So are tokens in which a semicolon is looked for. */
  lemma {:induction false} PassPlain(w: seq<Tok>, i: nat, ts: seq<Tok>)
    requires i + |ts| <= |w| && w[i..i + |ts|] == ts && Eof !in ts && SEMICOLON !in ts
    ensures StopAt(w, i, SEMICOLON, 0) == StopAt(w, i + |ts|, SEMICOLON, 0)
    decreases |ts|
  {
    if ts != [] {
      assert w[i] == ts[0] && w[i + 1..i + 1 + |ts[1..]|] == ts[1..];
      assert ts[0] in ts;
      PassPlain(w, i + 1, ts[1..]);
    }
  }

  /** `s` lies in `w` from index `i` on, and no else that would belong to it comes behind it. */
  predicate LiesAt(w: seq<Tok>, i: nat, s: Stmt) {
    && i + |Text(s)| <= |w| && w[i..i + |Text(s)|] == Text(s)
    && (OpenEnd(s) && i + |Text(s)| < |w| ==> w[i + |Text(s)|] != ELSE)
  }

  /** Reading over a statement ends right behind its text. */
  lemma {:induction false} SkipsText(w: seq<Tok>, i: nat, s: Stmt)
    requires Wf(s) && LiesAt(w, i, s)
    ensures Skip(w, i) == Some(i + |Text(s)|)
    decreases s, 1
  {
    match s {
      case Plain(ts) => SkipsPlain(w, i, ts);
      case Block(ss) => SkipsBlock(w, i, ss);
      case Guard(kw, cond, th, el) => SkipsGuard(w, i, s);
      case For(_, _, _, _, body) => SkipsFor(w, i, s);
    }
  }

  /** A part of what lies in `w`. */
  lemma PartOf(w: seq<Tok>, i: nat, t: seq<Tok>, a: nat, b: nat)
    requires i + |t| <= |w| && w[i..i + |t|] == t && a <= b <= |t|
    ensures w[i + a..i + b] == t[a..b]
  {
    forall k | 0 <= k < b - a ensures w[i + a..i + b][k] == t[a..b][k] {
      assert w[i..i + |t|][a + k] == w[i + a + k];
    }
  }

  lemma TokenOf(w: seq<Tok>, i: nat, t: seq<Tok>, a: nat)
    requires i + |t| <= |w| && w[i..i + |t|] == t && a < |t|
    ensures w[i + a] == t[a]
  {
    assert w[i..i + |t|][a] == w[i + a];
  }

  lemma StopHere(w: seq<Tok>, i: nat, stop: Tok)
    requires i < |w| && w[i] == stop && stop != Eof
    ensures StopAt(w, i, stop, 0) == Some(i)
  {
  }

  lemma SkipsPlain(w: seq<Tok>, i: nat, ts: seq<Tok>)
    requires PlainOk(ts) && i + |ts| <= |w| && w[i..i + |ts|] == ts
    ensures Skip(w, i) == Some(i + |ts|)
  {
    hide Depth, StopAt, Balanced;
    var n := |ts| - 1;
    TokenOf(w, i, ts, 0);
    TokenOf(w, i, ts, n);
    if n > 0 {
      var mid := ts[1..n];
      PartOf(w, i, ts, 1, n);
      forall t | t in mid ensures t in ts[..n] && t in ts {
        var k :| 0 <= k < |mid| && mid[k] == t;
        assert ts[..n][k + 1] == t && ts[k + 1] == t;
      }
      PassPlain(w, i + 1, mid);
      StopHere(w, i + n, SEMICOLON);
    }
  }

  lemma SkipsBlock(w: seq<Tok>, i: nat, ss: seq<Stmt>)
    requires WfAll(ss) && LiesAt(w, i, Block(ss))
    ensures Skip(w, i) == Some(i + |Text(Block(ss))|)
  {
    hide TextAll;
    TextBracesAll(ss);
    SkipsBraced(w, i, TextAll(ss));
  }

  lemma SkipsBraced(w: seq<Tok>, i: nat, ts: seq<Tok>)
    requires Balanced(ts, LBRACE, RBRACE) && Eof !in ts
    requires i + |ts| + 2 <= |w| && w[i..i + |ts| + 2] == [LBRACE] + ts + [RBRACE]
    ensures Skip(w, i) == Some(i + |ts| + 2)
  {
    hide Depth, StopAt;
    var all := [LBRACE] + ts + [RBRACE];
    var n := |ts|;
    TokenOf(w, i, all, 0);
    TokenOf(w, i, all, n + 1);
    PartOf(w, i, all, 1, n + 1);
    assert all[1..n + 1] == ts;
    PassNested(w, i + 1, ts, LBRACE, RBRACE, 0);
    StopHere(w, i + 1 + n, RBRACE);
  }

  /** A keyword, and what stands in parentheses behind it. */
  lemma SkipsParens(w: seq<Tok>, i: nat, kw: Tok, inner: seq<Tok>)
    requires Balanced(inner, OPEN, CLOSE) && Eof !in inner
    requires i + |inner| + 3 <= |w| && w[i..i + |inner| + 3] == [kw, OPEN] + inner + [CLOSE]
    ensures w[i] == kw && StopAt(w, i + 2, CLOSE, 0) == Some(i + 2 + |inner|)
  {
    hide Depth, StopAt;
    var all := [kw, OPEN] + inner + [CLOSE];
    var n := |inner|;
    TokenOf(w, i, all, 0);
    TokenOf(w, i, all, n + 2);
    PartOf(w, i, all, 2, n + 2);
    assert all[2..n + 2] == inner;
    PassNested(w, i + 2, inner, OPEN, CLOSE, 0);
    StopHere(w, i + 2 + n, CLOSE);
  }

  /** Three pieces that lie behind each other in `w`. */
  lemma Pieces(w: seq<Tok>, i: nat, a: seq<Tok>, b: seq<Tok>, c: seq<Tok>)
    requires i + |a| + |b| + |c| <= |w| && w[i..i + (|a| + |b| + |c|)] == a + b + c
    ensures w[i..i + |a|] == a && w[i + |a|..i + |a| + |b|] == b && w[i + |a| + |b|..i + |a| + |b| + |c|] == c
  {
    var t := a + b + c;
    PartOf(w, i, t, 0, |a|);
    PartOf(w, i, t, |a|, |a| + |b|);
    PartOf(w, i, t, |a| + |b|, |t|);
    assert t[..|a|] == a && t[|a|..|a| + |b|] == b && t[|a| + |b|..] == c;
  }

  lemma OneText(s: Stmt)
    ensures TextAll([s]) == Text(s)
  {
    assert TextAll([s][1..]) == [];
  }

  lemma {:induction false} SkipsGuard(w: seq<Tok>, i: nat, s: Stmt)
    requires Wf(s) && s.Guard? && LiesAt(w, i, s)
    ensures Skip(w, i) == Some(i + |Text(s)|)
    decreases s, 0
  {
    hide StopAt, Depth, Text, TextAll, Balanced, Skip, OpenEnd, Ordinary;
    var t := Text(s.th);
    var c := i + |s.cond| + 3;
    GuardParts(w, i, s);
    SkipsText(w, c, s.th);
    if s.el != [] {
      SkipsText(w, c + |t| + 1, s.el[0]);
    }
    GuardSkips(w, i, c, c + |t|, s.kw);
  }

  /** Where the parts of an if or a switch lie. */
  lemma GuardParts(w: seq<Tok>, i: nat, s: Stmt)
    requires Wf(s) && s.Guard? && LiesAt(w, i, s)
    ensures var c := i + |s.cond| + 3;
            var j := c + |Text(s.th)|;
      && i < |w| && w[i] == s.kw && StopAt(w, i + 2, CLOSE, 0) == Some(c - 1) && LiesAt(w, c, s.th)
      && (s.el == [] ==> j == i + |Text(s)| && (s.kw == IF && j < |w| ==> w[j] != ELSE))
      && (s.el != [] ==> s.el == [s.el[0]] && Wf(s.el[0]) && LiesAt(w, j + 1, s.el[0])
                         && j < |w| && w[j] == ELSE && j + 1 + |Text(s.el[0])| == i + |Text(s)|)
  {
    hide StopAt, Depth, Text, TextAll, Balanced, Ordinary;
    GuardText(s);
    GuardWf(s);
    var a, t := [s.kw, OPEN] + s.cond + [CLOSE], Text(s.th);
    var j := i + |a| + |t|;
    if s.el == [] {
      assert a + t + [] == Text(s);
      Pieces(w, i, a, t, []);
    } else {
      var e := s.el[0];
      OneText(e);
      var b := [ELSE] + Text(e);
      Pieces(w, i, a, t, b);
      TokenOf(w, j, b, 0);
      PartOf(w, j, b, 1, |b|);
      assert b[1..] == Text(e);
    }
    SkipsParens(w, i, s.kw, s.cond);
  }

  lemma GuardWf(s: Stmt)
    requires Wf(s) && s.Guard?
    ensures s.kw in {IF, SWITCH} && Wf(s.th) && Balanced(s.cond, OPEN, CLOSE) && Eof !in s.cond
    ensures s.el != [] ==> s.el == [s.el[0]] && Wf(s.el[0]) && s.kw == IF && !OpenEnd(s.th) && OpenEnd(s) == OpenEnd(s.el[0])
    ensures s.el == [] ==> OpenEnd(s) == (s.kw == IF || OpenEnd(s.th))
  {
    hide Depth;
  }

  /** The steps of reading over an if or a switch. */
  lemma GuardSkips(w: seq<Tok>, i: nat, c: nat, j: nat, kw: Tok)
    requires i < |w| && w[i] == kw && kw in {IF, SWITCH} && c > 0 && StopAt(w, i + 2, CLOSE, 0) == Some(c - 1)
    requires Skip(w, c) == Some(j)
    ensures Skip(w, i) == if kw == IF && j < |w| && w[j] == ELSE then Skip(w, j + 1) else Some(j)
  {
    hide StopAt;
  }

  lemma {:induction false} SkipsFor(w: seq<Tok>, i: nat, s: Stmt)
    requires Wf(s) && s.For? && LiesAt(w, i, s)
    ensures Skip(w, i) == Some(i + |Text(s)|)
    decreases s, 0
  {
    hide StopAt, Depth, Header, HeaderInner;
    HeaderParts(s);
    HeaderBraces(s);
    Pieces(w, i, Header(s), Text(s.body), []);
    assert Header(s) + Text(s.body) + [] == Text(s);
    SkipsParens(w, i, FOR, HeaderInner(s));
    SkipsText(w, i + |Header(s)|, s.body);
  }
}
