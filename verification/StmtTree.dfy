/** Statement lists of the SystemC front end as they lie in memory, and what they mean.  A list is
    a chain of nodes linked by `next`; an if has two more lists.  After the transformations parts
    of a list are shared, so the nodes form a DAG; a `Tree` is the list spelled out, in which a
    shared node occurs several times. */
module StmtTree {

  /** Switch statements are opaque here: an exit cannot be embedded in one. */
  datatype Kind = Assign | Switch | If | Break | Return

  class Node {
    const st: Kind
    const expr: int
    var next: Node?
    var c1: Node?
    var c2: Node?
  }

  datatype Tree = End | At(n: Node, a: Tree, b: Tree, rest: Tree)

  function HeadOr(t: Tree, q: Node?): Node? {
    if t.End? then q else t.n
  }

  function Nodes(t: Tree): set<Node> {
    match t
    case End => {}
    case At(n, a, b, rest) => {n} + Nodes(a) + Nodes(b) + Nodes(rest)
  }

  function Size(t: Tree): nat {
    match t
    case End => 0
    case At(n, a, b, rest) => 3 + Size(a) + Size(b) + Size(rest)
  }

  function Append(x: Tree, y: Tree): Tree {
    match x
    case End => y
    case At(n, a, b, rest) => At(n, a, b, Append(rest, y))
  }

  /** The links in memory are those of `t`, and the last statement is followed by `q`. */
  ghost predicate LinkedTo(t: Tree, q: Node?)
    reads Nodes(t)
  {
    match t
    case End => true
    case At(n, a, b, rest) =>
      && n.next == HeadOr(rest, q) && n.c1 == HeadOr(a, null) && n.c2 == HeadOr(b, null)
      && LinkedTo(a, null) && LinkedTo(b, null) && LinkedTo(rest, q)
  }

  /** No node occurs twice. */
  ghost predicate Tidy(t: Tree) {
    match t
    case End => true
    case At(n, a, b, rest) =>
      && n !in Nodes(a) + Nodes(b) + Nodes(rest)
      && Nodes(a) !! Nodes(b) && Nodes(a) !! Nodes(rest) && Nodes(b) !! Nodes(rest)
      && Tidy(a) && Tidy(b) && Tidy(rest)
  }

  predicate IsExit(k: Kind) { k.Break? || k.Return? }

  /** An exit statement occurs in the list or inside its ifs. */
  predicate Emb(t: Tree) {
    match t
    case End => false
    case At(n, a, b, rest) => IsExit(n.st) || (n.st.If? && (Emb(a) || Emb(b))) || Emb(rest)
  }

  /** The list starts with an if that an exit is embedded in. */
  predicate EmbIf(t: Tree) {
    t.At? && t.n.st.If? && (Emb(t.a) || Emb(t.b))
  }

  predicate EndsExit(t: Tree) {
    t.At? && if t.rest.End? then IsExit(t.n.st) else EndsExit(t.rest)
  }

  /** Only ifs have branches, and an exit, which is of kind `exit`, only ends a list. */
  predicate Wf(t: Tree, exit: Kind) {
    match t
    case End => true
    case At(n, a, b, rest) =>
      && (!n.st.If? ==> a == End && b == End)
      && (IsExit(n.st) ==> n.st == exit && rest == End)
      && Wf(a, exit) && Wf(b, exit) && Wf(rest, exit)
  }

  // ------------------------------------------------------------------------------------------
  // Meaning
  // ------------------------------------------------------------------------------------------

  /** What assignments, switches and returns do to the state, and what conditions say.  The state
      holds the returned value too. */
  datatype Sem<!S> = Sem(act: (int, S) -> S, cond: (int, S) -> bool)

  /** The list run with early exit; also whether it was left by an exit statement. */
  function Eval<S>(m: Sem<S>, t: Tree, s: S): (S, bool) {
    match t
    case End => (s, false)
    case At(n, a, b, rest) =>
      match n.st
      case Break => (s, true)
      case Return => (m.act(n.expr, s), true)
      case If =>
        var r := if m.cond(n.expr, s) then Eval(m, a, s) else Eval(m, b, s);
        if r.1 then r else Eval(m, rest, r.0)
      case _ => Eval(m, rest, m.act(n.expr, s))
  }

  /** The list run with `return` as a plain store that does not leave it, as a Verilog task does. */
  function Store<S>(m: Sem<S>, t: Tree, s: S): S {
    match t
    case End => s
    case At(n, a, b, rest) =>
      match n.st
      case Break => Store(m, rest, s)
      case If => Store(m, rest, if m.cond(n.expr, s) then Store(m, a, s) else Store(m, b, s))
      case _ => Store(m, rest, m.act(n.expr, s))
  }

  lemma {:induction false} EvalAppend<S>(m: Sem<S>, x: Tree, y: Tree, s: S)
    ensures Eval(m, Append(x, y), s) == if Eval(m, x, s).1 then Eval(m, x, s) else Eval(m, y, Eval(m, x, s).0)
  {
    match x
    case End =>
    case At(n, a, b, rest) =>
      match n.st {
        case Break =>
        case Return =>
        case If =>
          var r := if m.cond(n.expr, s) then Eval(m, a, s) else Eval(m, b, s);
          EvalAppend(m, rest, y, r.0);
        case Assign => EvalAppend(m, rest, y, m.act(n.expr, s));
        case Switch => EvalAppend(m, rest, y, m.act(n.expr, s));
      }
  }

  lemma {:induction false} NoExitNoLeave<S>(m: Sem<S>, t: Tree, s: S)
    requires !Emb(t)
    ensures !Eval(m, t, s).1
  {
    match t
    case End =>
    case At(n, a, b, rest) =>
      if n.st.If? {
        NoExitNoLeave(m, a, s);
        NoExitNoLeave(m, b, s);
        NoExitNoLeave(m, rest, (if m.cond(n.expr, s) then Eval(m, a, s) else Eval(m, b, s)).0);
      } else {
        NoExitNoLeave(m, rest, m.act(n.expr, s));
      }
  }

  // ------------------------------------------------------------------------------------------
  // The transformation
  // ------------------------------------------------------------------------------------------

  /** The list `t`, of which exits of kind `exit` are removed from all ifs but where they can do no
      harm, followed by `p`: what follows an if with an embedded exit goes into both branches. */
  function T(t: Tree, p: Tree, exit: Kind): Tree {
    match t
    case End => p
    case At(n, a, b, rest) =>
      if IsExit(n.st) then (if exit.Return? then At(n, a, b, End) else End)
      else if EmbIf(t) then
        var q := T(rest, p, exit);
        At(n, T(a, q, exit), T(b, q, exit), End)
      else At(n, a, b, T(rest, p, exit))
  }

  /** Every if with an embedded exit is the last statement of its list, at every depth. */
  predicate Normal(t: Tree) {
    match t
    case End => true
    case At(n, a, b, rest) =>
      && (IsExit(n.st) ==> rest == End)
      && (EmbIf(t) ==> rest == End && Normal(a) && Normal(b))
      && Normal(rest)
  }

  lemma {:induction false} NormalT(t: Tree, p: Tree)
    requires Wf(t, Return) && Normal(p)
    ensures Normal(T(t, p, Return))
  {
    match t
    case End =>
    case At(n, a, b, rest) =>
      NormalT(rest, p);
      if EmbIf(t) {
        var q := T(rest, p, Return);
        NormalT(a, q);
        NormalT(b, q);
      }
  }

  /** The transformed list does what the list does and then, unless it was left, what `p` does. */
  lemma {:induction false} ReturnsKept<S>(m: Sem<S>, t: Tree, p: Tree, s: S)
    requires Wf(t, Return)
    ensures Eval(m, T(t, p, Return), s) == if Eval(m, t, s).1 then Eval(m, t, s) else Eval(m, p, Eval(m, t, s).0)
  {
    match t
    case End =>
    case At(n, a, b, rest) =>
      if n.st.If? {
        var r := if m.cond(n.expr, s) then Eval(m, a, s) else Eval(m, b, s);
        ReturnsKept(m, rest, p, r.0);
        if EmbIf(t) {
          var q := T(rest, p, Return);
          ReturnsKept(m, a, q, s);
          ReturnsKept(m, b, q, s);
        }
      } else if !IsExit(n.st) {
        ReturnsKept(m, rest, p, m.act(n.expr, s));
      }
  }

  /** Where every if with a return is last, a return can as well be a plain store. */
  lemma {:induction false} NormalStores<S>(m: Sem<S>, t: Tree, s: S)
    requires Normal(t) && Wf(t, Return)
    ensures Store(m, t, s) == Eval(m, t, s).0
  {
    match t
    case End =>
    case At(n, a, b, rest) =>
      if n.st.If? {
        if EmbIf(t) {
          NormalStores(m, a, s);
          NormalStores(m, b, s);
        } else {
          NoExitStores(m, a, s);
          NoExitStores(m, b, s);
          NoExitNoLeave(m, a, s);
          NoExitNoLeave(m, b, s);
          NormalStores(m, rest, if m.cond(n.expr, s) then Store(m, a, s) else Store(m, b, s));
        }
      } else if !IsExit(n.st) {
        NormalStores(m, rest, m.act(n.expr, s));
      }
  }

  lemma {:induction false} NoExitStores<S>(m: Sem<S>, t: Tree, s: S)
    requires !Emb(t)
    ensures Store(m, t, s) == Eval(m, t, s).0
  {
    match t
    case End =>
    case At(n, a, b, rest) =>
      if n.st.If? {
        NoExitStores(m, a, s);
        NoExitStores(m, b, s);
        NoExitNoLeave(m, a, s);
        NoExitNoLeave(m, b, s);
        NoExitStores(m, rest, if m.cond(n.expr, s) then Store(m, a, s) else Store(m, b, s));
      } else {
        NoExitStores(m, rest, m.act(n.expr, s));
      }
  }

  lemma {:induction false} WfT(t: Tree, p: Tree, exit: Kind)
    requires Wf(t, exit) && Wf(p, exit)
    ensures Wf(T(t, p, exit), exit)
  {
    match t
    case End =>
    case At(n, a, b, rest) =>
      WfT(rest, p, exit);
      if EmbIf(t) {
        var q := T(rest, p, exit);
        WfT(a, q, exit);
        WfT(b, q, exit);
      }
  }

  /** What comes before the first if with an embedded exit stays as it is, and is not copied. */
  lemma {:induction false} LeadingKept(x: Tree, y: Tree, p: Tree, exit: Kind)
    requires !Emb(x)
    ensures T(Append(x, y), p, exit) == Append(x, T(y, p, exit))
    ensures T(x, p, exit) == Append(x, p)
  {
    match x
    case End =>
    case At(_, _, _, rest) => LeadingKept(rest, y, p, exit);
  }

  /** Removing embedded returns keeps the final state and the returned value, although a return
      no longer leaves the function. */
  lemma ReturnsPreserved<S>(m: Sem<S>, t: Tree, s: S)
    requires Wf(t, Return)
    ensures Store(m, T(t, End, Return), s) == Eval(m, t, s).0
    ensures Normal(T(t, End, Return))
  {
    ReturnsKept(m, t, End, s);
    NormalT(t, End);
    WfT(t, End, Return);
    NormalStores(m, T(t, End, Return), s);
  }

  // ------------------------------------------------------------------------------------------
  // Breaks
  // ------------------------------------------------------------------------------------------

  /** A case list without the break that ends it, and that break. */
  function Body(t: Tree): Tree {
    if t.End? || (t.rest.End? && IsExit(t.n.st)) then End else At(t.n, t.a, t.b, Body(t.rest))
  }

  function Tail(t: Tree): Tree {
    if t.End? then End else if t.rest.End? && IsExit(t.n.st) then t else Tail(t.rest)
  }

  /** A case list without embedded breaks. */
  function Unbroken(t: Tree): Tree {
    Append(T(Body(t), End, Break), Tail(t))
  }

  lemma {:induction false} NoExitT(t: Tree, p: Tree)
    requires !Emb(p) && Wf(t, Break)
    ensures !Emb(T(t, p, Break))
  {
    match t
    case End =>
    case At(n, a, b, rest) =>
      NoExitT(rest, p);
      if EmbIf(t) {
        NoExitT(a, T(rest, p, Break));
        NoExitT(b, T(rest, p, Break));
      }
  }

  lemma {:induction false} BreaksKept<S>(m: Sem<S>, t: Tree, p: Tree, s: S)
    requires Wf(t, Break)
    ensures Eval(m, T(t, p, Break), s) ==
            if Eval(m, t, s).1 then (Eval(m, t, s).0, false) else Eval(m, p, Eval(m, t, s).0)
  {
    match t
    case End =>
    case At(n, a, b, rest) =>
      if n.st.If? {
        var r := if m.cond(n.expr, s) then Eval(m, a, s) else Eval(m, b, s);
        BreaksKept(m, rest, p, r.0);
        if EmbIf(t) {
          var q := T(rest, p, Break);
          BreaksKept(m, a, q, s);
          BreaksKept(m, b, q, s);
        } else {
          NoExitNoLeave(m, a, s);
          NoExitNoLeave(m, b, s);
        }
      } else if !IsExit(n.st) {
        BreaksKept(m, rest, p, m.act(n.expr, s));
      }
  }

  lemma {:induction false} BodyAndTail(t: Tree, exit: Kind)
    requires Wf(t, exit)
    ensures Append(Body(t), Tail(t)) == t && Wf(Body(t), exit) && !EndsExit(Body(t))
    ensures Tail(t) == End || (Tail(t).n.st == exit && Tail(t) == At(Tail(t).n, End, End, End))
    ensures Tail(t) == End <==> !EndsExit(t)
  {
    if t.At? && t.rest.At? {
      BodyAndTail(t.rest, exit);
    }
  }

  /** Removing embedded breaks keeps the final state of a case; a break is left at most at the
      very end, where there was one, and the case is still left by it. */
  lemma BreaksPreserved<S>(m: Sem<S>, t: Tree, s: S)
    requires Wf(t, Break)
    ensures Eval(m, Unbroken(t), s).0 == Eval(m, t, s).0
    ensures EndsExit(t) ==> Eval(m, Unbroken(t), s).1 && Eval(m, t, s).1
    ensures Tail(t) == End || Tail(t) == At(Tail(t).n, End, End, End)
    ensures !Emb(T(Body(t), End, Break))
  {
    BodyAndTail(t, Break);
    BreaksKept(m, Body(t), End, s);
    EvalAppend(m, Body(t), Tail(t), s);
    EvalAppend(m, T(Body(t), End, Break), Tail(t), s);
    NoExitT(Body(t), End);
  }
}
