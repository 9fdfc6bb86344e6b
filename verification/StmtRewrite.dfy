/** The transformations on the linked nodes.  The function and the case pass differ in three places
    only, so they are one method here with the kind of exit as a parameter.  A list in memory is
    given as three pieces: `l`, whose nodes occur nowhere else; `p`, a part that was moved here and is
    shared with another branch, which is normal already; and `k`, the break that ends a case. */
module StmtRewrite {
  import opened StmtTree

  // ------------------------------------------------------------------------------------------
  // Trees
  // ------------------------------------------------------------------------------------------

  ghost predicate Pieces(l: Tree, p: Tree, k: Tree, exit: Kind) {
    && exit in {Break, Return} && Wf(l, exit) && Wf(p, exit) && Tidy(l) && Normal(p)
    && Nodes(l) !! Nodes(p) + Nodes(k)
    && (exit.Return? ==> k == End && (!EndsExit(l) || p == End))
    && (exit.Break? ==> !EndsExit(l) && !Emb(p))
    && (k != End ==> p == End && k == At(k.n, End, End, End) && k.n.st == Break)
  }

  /** Where the three pieces start. */
  function Head3(l: Tree, p: Tree, k: Tree): Node? {
    HeadOr(l, HeadOr(p, HeadOr(k, null)))
  }

  ghost predicate Linked3(l: Tree, p: Tree, k: Tree)
    reads Nodes(l) + Nodes(p) + Nodes(k)
  {
    LinkedTo(l, HeadOr(p, HeadOr(k, null))) && LinkedTo(p, HeadOr(k, null)) && LinkedTo(k, null)
  }

  lemma {:induction false} AppendMore(x: Tree, y: Tree, z: Tree)
    ensures Append(Append(x, y), z) == Append(x, Append(y, z))
    ensures Nodes(Append(x, y)) == Nodes(x) + Nodes(y)
    ensures forall q :: HeadOr(Append(x, y), q) == HeadOr(x, HeadOr(y, q))
  {
    if x.At? { AppendMore(x.rest, y, z); }
  }

  lemma {:induction false} AppendLinked(x: Tree, y: Tree, q: Node?)
    ensures LinkedTo(Append(x, y), q) <==> LinkedTo(x, HeadOr(y, q)) && LinkedTo(y, q)
  {
    AppendMore(x, y, End);
    if x.At? {
      AppendMore(x.rest, y, End);
      AppendLinked(x.rest, y, q);
    }
  }

  lemma {:induction false} NodesT(t: Tree, p: Tree, exit: Kind)
    ensures Nodes(T(t, p, exit)) <= Nodes(t) + Nodes(p)
  {
    if t.At? {
      NodesT(t.rest, p, exit);
      if EmbIf(t) {
        NodesT(t.a, T(t.rest, p, exit), exit);
        NodesT(t.b, T(t.rest, p, exit), exit);
      }
    }
  }

  lemma HeadT(t: Tree, p: Tree, exit: Kind)
    requires exit in {Break, Return} && Wf(t, exit) && (exit.Break? ==> !EndsExit(t))
    ensures forall q :: HeadOr(T(t, p, exit), q) == HeadOr(t, HeadOr(p, q))
  {
  }

  lemma {:induction false} ExitCuts(t: Tree, p: Tree, q: Tree, exit: Kind)
    requires exit in {Break, Return} && Wf(t, exit) && EndsExit(t)
    ensures T(t, p, exit) == T(t, q, exit)
    ensures exit.Break? ==> T(t, p, exit) == T(Body(t), End, exit)
  {
    if t.rest.At? {
      ExitCuts(t.rest, p, q, exit);
    }
  }

  function Last(t: Tree): Node
    requires t.At?
  {
    if t.rest.End? then t.n else Last(t.rest)
  }

  /** The last statement of the list does not occur anywhere else in it. */
  ghost predicate LastOnce(t: Tree) {
    t.At? ==>
      && Last(t) !in Nodes(t.a) + Nodes(t.b)
      && (t.rest.At? ==> t.n != Last(t) && LastOnce(t.rest))
  }

  lemma {:induction false} LastIn(t: Tree)
    requires t.At?
    ensures Last(t) in Nodes(t)
  {
    if t.rest.At? { LastIn(t.rest); }
  }

  lemma {:induction false} TidyLast(t: Tree)
    requires Tidy(t)
    ensures LastOnce(t)
  {
    if t.At? && t.rest.At? {
      LastIn(t.rest);
      TidyLast(t.rest);
    }
  }

  lemma {:induction false} LastOnceT(t: Tree, exit: Kind)
    requires Tidy(t)
    ensures LastOnce(T(t, End, exit))
  {
    if t.At? {
      var q := T(t.rest, End, exit);
      NodesT(t.rest, End, exit);
      LastOnceT(t.rest, exit);
      if EmbIf(t) {
        NodesT(t.a, q, exit);
        NodesT(t.b, q, exit);
      } else if q.At? {
        LastIn(q);
      }
    }
  }

  /** A new link behind the last statement. */
  lemma {:induction false} Relink(t: Tree, q: Node?, q': Node?, m: map<Node, Links>)
    requires t.At? && LinkedIn(t, q, m) && LastOnce(t)
    requires forall n <- Nodes(t) :: n in m && LinksOf(n) == if n == Last(t) then m[n].(next := q') else m[n]
    ensures LinkedTo(t, q')
  {
    assert t.n in Nodes(t);
    SameLinks(t.a, null, m);
    SameLinks(t.b, null, m);
    if t.rest.At? {
      Relink(t.rest, q, q', m);
    }
  }

  // ------------------------------------------------------------------------------------------
  // Memory
  // ------------------------------------------------------------------------------------------

  /** A list in memory can be read in one way only. */
  lemma {:induction false} OneReading(t: Tree, u: Tree)
    requires LinkedTo(t, null) && LinkedTo(u, null) && HeadOr(t, null) == HeadOr(u, null)
    ensures t == u
  {
    if t.At? && u.At? {
      OneReading(t.a, u.a);
      OneReading(t.b, u.b);
      OneReading(t.rest, u.rest);
    }
  }

  datatype Links = Links(next: Node?, c1: Node?, c2: Node?)

  ghost function LinksOf(n: Node): Links
    reads n
  {
    Links(n.next, n.c1, n.c2)
  }

  /** The nodes of `t` have the links that `m` says. */
  ghost predicate Has(t: Tree, m: map<Node, Links>)
    reads Nodes(t)
  {
    forall n <- Nodes(t) :: n in m && m[n] == LinksOf(n)
  }

  lemma Snapshot(s: set<Node>) returns (m: map<Node, Links>)
    ensures forall n <- s :: n in m && m[n] == LinksOf(n)
  {
    m := map n <- s :: LinksOf(n);
  }

  /** LinkedTo as it was at the moment `m`. */
  ghost predicate LinkedIn(t: Tree, q: Node?, m: map<Node, Links>) {
    match t
    case End => true
    case At(n, a, b, rest) =>
      && n in m && m[n] == Links(HeadOr(rest, q), HeadOr(a, null), HeadOr(b, null))
      && LinkedIn(a, null, m) && LinkedIn(b, null, m) && LinkedIn(rest, q, m)
  }

  lemma {:induction false} SameLinks(t: Tree, q: Node?, m: map<Node, Links>)
    requires Has(t, m)
    ensures LinkedTo(t, q) <==> LinkedIn(t, q, m)
  {
    match t
    case End =>
    case At(n, a, b, rest) =>
      assert n in Nodes(t);
      SameLinks(a, null, m);
      SameLinks(b, null, m);
      SameLinks(rest, q, m);
  }

  /** All nodes of a tree at hand exist, so that a call that changes none of them keeps its links. */
  lemma {:induction false} Allocated(t: Tree)
    ensures forall n <- Nodes(t) :: allocated(n)
  {
    if t.At? {
      Allocated(t.a);
      Allocated(t.b);
      Allocated(t.rest);
    }
  }

  /** Whether an exit is embedded in the list. */
  method IsEmbedded(head: Node?, exit: Kind, ghost t: Tree) returns (found: bool)
    requires LinkedTo(t, null) && head == HeadOr(t, null) && Wf(t, exit) && exit in {Break, Return}
    ensures found <==> Emb(t)
    decreases Size(t)
  {
    var p := head;
    ghost var r := t;
    while p != null
      invariant LinkedTo(r, null) && p == HeadOr(r, null) && Wf(r, exit)
      invariant (Emb(t) <==> Emb(r)) && Size(r) <= Size(t)
      decreases Size(r)
    {
      if p.st == exit {
        return true;
      }
      if p.st == If {
        Allocated(r);
        var inner := BranchEmbedded(p, exit, r);
        assert LinkedTo(r, null);
        if inner {
          return true;
        }
      }
      p := p.next;
      r := r.rest;
    }
    return false;
  }

  method BranchEmbedded(p: Node, exit: Kind, ghost r: Tree) returns (found: bool)
    requires r.At? && p == r.n && p.st == If && exit in {Break, Return}
    requires p.c1 == HeadOr(r.a, null) && p.c2 == HeadOr(r.b, null) && LinkedTo(r.a, null) && LinkedTo(r.b, null)
    requires Wf(r.a, exit) && Wf(r.b, exit)
    ensures found <==> EmbIf(r)
    decreases Size(r), 0
  {
    Allocated(r.b);
    found := IsEmbedded(p.c1, exit, r.a);
    assert LinkedTo(r.b, null);
    if !found {
      found := IsEmbedded(p.c2, exit, r.b);
    }
  }

  // ------------------------------------------------------------------------------------------
  // Searching
  // ------------------------------------------------------------------------------------------

  /** `lr` and `pr` are what is left of `l` and `p` behind the statements `pre`, which stay. */
  ghost predicate Passed(l: Tree, p: Tree, k: Tree, pre: Tree, lr: Tree, pr: Tree, exit: Kind) {
    && Pieces(lr, pr, k, exit)
    && T(l, p, exit) == Append(pre, T(lr, pr, exit))
    && Nodes(pre) <= Nodes(l) + Nodes(p) && Nodes(lr) <= Nodes(l) && Nodes(pr) <= Nodes(p)
    && Nodes(pre) !! Nodes(lr)
    && Size(lr) <= Size(l) && Size(pr) <= Size(p)
  }

  lemma PassOne(l: Tree, p: Tree, k: Tree, pre: Tree, lr: Tree, pr: Tree, exit: Kind)
    requires Passed(l, p, k, pre, lr, pr, exit)
    requires lr.At? || pr.At?
    requires var t := if lr.At? then lr else pr; !EmbIf(t)
    ensures var t := if lr.At? then lr else pr;
            Passed(l, p, k, Append(pre, At(t.n, t.a, t.b, End)),
                   if lr.At? then lr.rest else End, if lr.At? then pr else pr.rest, exit)
  {
    var t := if lr.At? then lr else pr;
    var one := At(t.n, t.a, t.b, End);
    var lr', pr' := if lr.At? then lr.rest else End, if lr.At? then pr else pr.rest;
    AppendMore(pre, one, T(lr', pr', exit));
  }

  lemma PassStart(l: Tree, p: Tree, k: Tree, exit: Kind)
    requires Pieces(l, p, k, exit)
    ensures Passed(l, p, k, End, l, p, exit)
  {
  }

  lemma PassFacts(l: Tree, p: Tree, k: Tree, pre: Tree, lr: Tree, pr: Tree, exit: Kind)
    requires Passed(l, p, k, pre, lr, pr, exit)
    ensures Wf(lr, exit) && Wf(pr, exit) && exit in {Break, Return} && (k != End ==> k == At(k.n, End, End, End) && k.n.st == Break)
  {
  }

  /** In memory the first statement of what is left is now passed. */
  lemma PassLinks(k: Tree, pre: Tree, lr: Tree, pr: Tree)
    requires LinkedTo(pre, Head3(lr, pr, k)) && Linked3(lr, pr, k) && (lr.At? || pr.At?)
    ensures var t := if lr.At? then lr else pr;
            var lr', pr' := if lr.At? then lr.rest else End, if lr.At? then pr else pr.rest;
      && LinkedTo(t.a, null) && LinkedTo(t.b, null) && t.n == Head3(lr, pr, k)
      && t.n.c1 == HeadOr(t.a, null) && t.n.c2 == HeadOr(t.b, null)
      && t.n.next == Head3(lr', pr', k)
      && Linked3(lr', pr', k)
      && LinkedTo(Append(pre, At(t.n, t.a, t.b, End)), Head3(lr', pr', k))
  {
    hide Nodes;
    var t := if lr.At? then lr else pr;
    AppendLinked(pre, At(t.n, t.a, t.b, End), t.n.next);
  }

  /** The first if with an embedded exit, if any. */
  method FindIf(head: Node?, exit: Kind, ghost l: Tree, ghost p: Tree, ghost k: Tree)
    returns (n: Node?, ghost pre: Tree, ghost lr: Tree, ghost pr: Tree)
    requires Pieces(l, p, k, exit) && Linked3(l, p, k) && head == Head3(l, p, k)
    ensures Passed(l, p, k, pre, lr, pr, exit)
    ensures LinkedTo(pre, Head3(lr, pr, k)) && Linked3(lr, pr, k)
    ensures n == null ==> lr == End && pr == End
    ensures n != null ==> n == Head3(lr, pr, k) && (EmbIf(lr) || (lr == End && EmbIf(pr)))
  {
    hide Passed, Pieces, Linked3, T, Append, Nodes, Normal, Emb;
    n, pre, lr, pr := head, End, l, p;
    PassStart(l, p, k, exit);
    while n != null
      invariant Passed(l, p, k, pre, lr, pr, exit)
      invariant LinkedTo(pre, Head3(lr, pr, k)) && Linked3(lr, pr, k)
      invariant n == Head3(lr, pr, k) || (n == null && lr == End && pr == End)
      decreases Size(lr) + Size(pr), n
    {
      PassFacts(l, p, k, pre, lr, pr, exit);
      LastOfK(k, lr, pr);
      ghost var t := if lr.At? then lr else pr;
      if n.st == If {
        PassLinks(k, pre, lr, pr);
        Allocated(pre); Allocated(lr); Allocated(pr); Allocated(k);
        var found := BranchEmbedded(n, exit, t);
        assert LinkedTo(pre, Head3(lr, pr, k)) && Linked3(lr, pr, k);
        if found {
          return;
        }
      }
      if t.At? {
        PassLinks(k, pre, lr, pr);
        PassOne(l, p, k, pre, lr, pr, exit);
        pre := Append(pre, At(t.n, t.a, t.b, End));
        lr, pr := if lr.At? then lr.rest else End, if lr.At? then pr else pr.rest;
      }
      n := n.next;
    }
  }

  lemma LastOfK(k: Tree, lr: Tree, pr: Tree)
    requires Linked3(lr, pr, k) && (k != End ==> k == At(k.n, End, End, End) && k.n.st == Break)
    ensures lr == End && pr == End && k != End ==> k.n.next == null && k.n.st == Break && Head3(lr, pr, k) == k.n
  {
  }

  // ------------------------------------------------------------------------------------------
  // Cutting and joining
  // ------------------------------------------------------------------------------------------

  function LastOr(t: Tree, d: Node?): Node? {
    if t.End? then d else LastOr(t.rest, t.n)
  }

  function Init(t: Tree): Tree
    requires t.At?
  {
    if t.rest.End? then End else At(t.n, t.a, t.b, Init(t.rest))
  }

  lemma {:induction false} LastIs(t: Tree, d: Node?)
    requires t.At?
    ensures LastOr(t, d) == Last(t)
    ensures EndsExit(t) <==> IsExit(Last(t).st)
    ensures EndsExit(t) ==> Body(t) == Init(t)
  {
    if t.rest.At? { LastIs(t.rest, t.n); }
  }

  lemma {:induction false} BodyFacts(t: Tree, exit: Kind)
    requires Wf(t, exit) && Tidy(t) && EndsExit(t)
    ensures Wf(Body(t), exit) && Tidy(Body(t)) && !EndsExit(Body(t))
    ensures Nodes(Body(t)) <= Nodes(t) - {Last(t)} && Size(Body(t)) <= Size(t)
  {
    if t.rest.At? {
      BodyFacts(t.rest, exit);
      LastIn(t.rest);
    }
  }

  lemma {:induction false} InitLinked(t: Tree, m: map<Node, Links>)
    requires t.At? && LinkedIn(t, null, m)
    ensures LinkedIn(Init(t), Last(t), m) && HeadOr(Init(t), Last(t)) == t.n
  {
    if t.rest.At? { InitLinked(t.rest, m); }
  }

  lemma {:induction false} LastExit(t: Tree, exit: Kind)
    requires t.At? && Wf(t, exit)
    ensures EndsExit(t) ==> Last(t).st == exit && Emb(t)
  {
    if t.rest.At? { LastExit(t.rest, exit); }
  }

  lemma {:induction false} LastLink(t: Tree, q: Node?)
    requires t.At? && LinkedTo(t, q)
    ensures Last(t).next == q
  {
    if t.rest.At? { LastLink(t.rest, q); }
  }

  /** The last statement, and the one before it. */
  method FindTail(head: Node?, ghost w: Tree) returns (prev: Node?, cur: Node?)
    requires LinkedTo(w, null) && head == HeadOr(w, null)
    ensures cur == null <==> w.End?
    ensures w.At? ==> cur == Last(w) && prev == LastOr(Init(w), null)
  {
    prev, cur := null, head;
    ghost var r := w;
    while cur != null && cur.next != null
      invariant LinkedTo(r, null) && cur == HeadOr(r, null) && (r.At? <==> w.At?)
      invariant r.At? ==> Last(w) == Last(r) && LastOr(Init(w), null) == LastOr(Init(r), prev)
      decreases Size(r)
    {
      prev, cur := cur, cur.next;
      r := r.rest;
    }
  }

  /** The last statement before the break that ends the list, which starts behind `n`. */
  method FindBreak(n: Node, ghost q: Tree, ghost k: Tree) returns (st: Node)
    requires n.next == HeadOr(q, HeadOr(k, null)) && LinkedTo(q, HeadOr(k, null))
    requires !Emb(q) && (k != End ==> k.n.st == Break)
    ensures st == LastOr(q, n) && st.next == HeadOr(k, null)
  {
    st := n;
    ghost var r := q;
    while st.next != null && st.next.st != Break
      invariant st.next == HeadOr(r, HeadOr(k, null)) && LinkedTo(r, HeadOr(k, null)) && !Emb(r)
      invariant LastOr(q, n) == LastOr(r, st)
      decreases Size(r)
    {
      st := st.next;
      r := r.rest;
    }
  }

  /** The break that ends the list is cut off. */
  method Cut(n: Node, ghost q: Tree, ghost k: Tree, ghost m: map<Node, Links>) returns (brk: Node?)
    requires n.next == HeadOr(q, HeadOr(k, null)) && LinkedTo(q, HeadOr(k, null))
    requires !Emb(q) && (k != End ==> k.n.st == Break && n !in Nodes(q) && LastOnce(q))
    requires Has(q, m)
    modifies n, Nodes(q)
    ensures brk == HeadOr(k, null) && n.next == HeadOr(q, null) && LinkedTo(q, null)
    ensures n.c1 == old(n.c1) && n.c2 == old(n.c2) && (k == End ==> n.next == old(n.next) && Has(q, m))
  {
    Allocated(q);
    var st := FindBreak(n, q, k);
    assert Has(q, m) && LinkedTo(q, HeadOr(k, null));
    SameLinks(q, HeadOr(k, null), m);
    if q.At? {
      LastIs(q, n);
      LastIn(q);
    }
    brk := st.next;
    st.next := null;
    if k == End {
      SameLinks(q, null, m);
    } else if q.At? {
      Relink(q, HeadOr(k, null), null, m);
    }
  }

  function BranchOf(n: Node, first: bool): Node?
    reads n
  {
    if first then n.c1 else n.c2
  }

  /** What is known of a branch of an if before `q` is joined to it: it is `x`, of which no node
      occurs elsewhere, or it is `y`, which is shared and normal; then there is nothing to join. */
  ghost predicate BranchOk(x: Tree, y: Tree, q: Tree, exit: Kind) {
    && exit in {Break, Return}
    && (y == End || (x == End && q == End))
    && Wf(x, exit) && Tidy(x) && Nodes(x) !! Nodes(q)
    && Wf(y, exit) && Normal(y) && Wf(q, exit) && Normal(q)
    && (exit.Break? ==> !Emb(y) && !Emb(q))
  }

  method SetBranch(n: Node, first: bool, p: Node?)
    modifies n
    ensures BranchOf(n, first) == p && BranchOf(n, !first) == old(BranchOf(n, !first)) && n.next == old(n.next)
  {
    if first {
      n.c1 := p;
    } else {
      n.c2 := p;
    }
  }

  /** A branch with the post list joined to it: its own part and its shared part. */
  ghost function Joined(x: Tree, y: Tree, q: Tree, exit: Kind): (Tree, Tree) {
    if y != End then (End, y)
    else if EndsExit(x) then (if exit.Break? then Body(x) else x, End)
    else (x, q)
  }

  lemma JoinedOk(x: Tree, y: Tree, q: Tree, exit: Kind)
    requires BranchOk(x, y, q, exit)
    ensures var (x', z) := Joined(x, y, q, exit);
      && Pieces(x', z, End, exit)
      && T(x', z, exit) == (if y == End then T(x, q, exit) else y)
      && Nodes(x') <= Nodes(x) && Nodes(z) <= Nodes(y) + Nodes(q)
      && Size(x') <= Size(x) && Size(z) <= Size(y) + Size(q)
  {
    if EndsExit(x) {
      BodyFacts(x, exit);
      ExitCuts(x, q, End, exit);
    }
  }

  /** What the end of a branch says about its pieces. */
  lemma TailFacts(x: Tree, exit: Kind)
    requires x.At? && Wf(x, exit) && exit in {Break, Return}
    ensures Last(x) in Nodes(x) && (EndsExit(x) <==> Last(x).st == exit)
    ensures EndsExit(x) ==> Emb(x) && Body(x) == Init(x)
    ensures Init(x) == End <==> LastOr(Init(x), null) == null
    ensures Init(x) != End ==> LastOr(Init(x), null) == Last(Init(x)) && Last(Init(x)) in Nodes(Init(x))
    ensures Nodes(Init(x)) <= Nodes(x)
    ensures Tidy(x) ==> LastOnce(x) && LastOnce(Init(x)) && Nodes(Init(x)) <= Nodes(x) - {Last(x)}
  {
    LastIn(x);
    LastIs(x, null);
    LastExit(x, exit);
    InitFacts(x);
    if Init(x).At? {
      LastIs(Init(x), null);
    }
  }

  lemma {:induction false} InitFacts(x: Tree)
    requires x.At?
    ensures Nodes(Init(x)) <= Nodes(x) && (Init(x).At? ==> Last(Init(x)) in Nodes(Init(x)))
    ensures Tidy(x) ==> LastOnce(x) && LastOnce(Init(x)) && Tidy(Init(x)) && Nodes(Init(x)) <= Nodes(x) - {Last(x)}
  {
    if x.rest.At? {
      InitFacts(x.rest);
      LastIn(x.rest);
    }
    if Init(x).At? {
      LastIn(Init(x));
    }
    if Tidy(x) {
      TidyLast(x);
      TidyLast(Init(x));
    }
  }

  /** The post list is joined to a branch unless the branch ends in an exit; a break is removed. */
  method AppendPost(n: Node, first: bool, post: Node?, exit: Kind, ghost x: Tree, ghost y: Tree, ghost q: Tree,
                    ghost m: map<Node, Links>)
    requires BranchOk(x, y, q, exit) && LinkedTo(q, null) && post == HeadOr(q, null)
    requires LinkedTo(x, null) && LinkedTo(y, null) && BranchOf(n, first) == HeadOr(x, HeadOr(y, null))
    requires y == End ==> n !in Nodes(x) + Nodes(q)
    requires Has(y, m) && Has(q, m)
    modifies n, Nodes(x), Nodes(y)
    ensures var (x', z) := Joined(x, y, q, exit);
            Linked3(x', z, End) && BranchOf(n, first) == Head3(x', z, End)
    ensures BranchOf(n, !first) == old(BranchOf(n, !first)) && n.next == old(n.next)
    ensures y != End ==> LinksOf(n) == old(LinksOf(n))
    ensures Has(y, m) && Has(q, m)
  {
    assert !EndsExit(End);
    hide Wf, Tidy, Normal, Emb, T, Nodes, Body, EndsExit, Last, LastOr, Init, LastOnce, LinkedTo, LinkedIn;
    Allocated(x); Allocated(y); Allocated(q);
    ghost var w := if y == End then x else y;
    var prev, cur := FindTail(BranchOf(n, first), w);
    assert LinkedTo(x, null) && LinkedTo(y, null) && LinkedTo(q, null) && Has(y, m) && Has(q, m);
    if cur == null {
      SetBranch(n, first, post);
    } else {
      JoinTail(n, first, prev, cur, post, exit, x, y, q, m);
    }
    EndLinked(q, y);
  }

  method JoinTail(n: Node, first: bool, prev: Node?, cur: Node, post: Node?, exit: Kind,
                  ghost x: Tree, ghost y: Tree, ghost q: Tree, ghost m: map<Node, Links>)
    requires BranchOk(x, y, q, exit) && LinkedTo(q, null) && post == HeadOr(q, null)
    requires LinkedTo(x, null) && LinkedTo(y, null) && BranchOf(n, first) == HeadOr(x, HeadOr(y, null))
    requires y == End ==> n !in Nodes(x) + Nodes(q)
    requires Has(y, m) && Has(q, m)
    requires var w := if y == End then x else y; w.At? && cur == Last(w) && prev == LastOr(Init(w), null)
    modifies n, Nodes(x), Nodes(y)
    ensures var (x', z) := Joined(x, y, q, exit);
            Linked3(x', z, End) && BranchOf(n, first) == Head3(x', z, End)
    ensures BranchOf(n, !first) == old(BranchOf(n, !first)) && n.next == old(n.next)
    ensures y != End ==> LinksOf(n) == old(LinksOf(n))
    ensures Has(y, m) && Has(q, m)
  {
    assert !EndsExit(End);
    hide Wf, Tidy, Normal, Emb, T, Nodes, Body, EndsExit, Last, LastOr, Init, LastOnce, LinkedTo, LinkedIn, Has;
    TailFacts(if y == End then x else y, exit);
    LastLink(if y == End then x else y, null);
    if cur.st != exit {
      SetLast(cur, post, x, y, q, m);
    } else if exit == Break {
      if prev == null {
        SetBranch(n, first, null);
      } else {
        DropLast(prev, x);
      }
    }
    EndLinked(q, y);
  }

  lemma EndLinked(q: Tree, y: Tree)
    ensures LinkedTo(End, null) && LinkedTo(End, HeadOr(q, null)) && LinkedTo(End, HeadOr(y, null))
  {
  }

  /** The last node gets a new link; in a shared list it is the link that it has. */
  method SetLast(cur: Node, post: Node?, ghost x: Tree, ghost y: Tree, ghost q: Tree, ghost m: map<Node, Links>)
    requires LinkedTo(x, null) && (y == End ==> x.At? && cur == Last(x) && LastOnce(x))
    requires y != End ==> x == End && post == null && cur == Last(y) && cur.next == null
    requires Has(y, m) && Has(q, m) && LinkedTo(q, null) && LinkedTo(y, null)
    requires if y == End then cur !in Nodes(q) else q == End
    modifies cur
    ensures Has(y, m) && Has(q, m) && LinkedTo(q, null) && LinkedTo(y, null)
    ensures LinkedTo(x, post) && cur.c1 == old(cur.c1) && cur.c2 == old(cur.c2) && cur.next == post
  {
    ghost var mx := Snapshot(Nodes(x));
    SameLinks(x, null, mx);
    SameLinks(y, null, m);
    cur.next := post;
    if y == End {
      Relink(x, null, post, mx);
    }
    SameLinks(y, null, m);
  }

  /** The node before the last one becomes the last. */
  method DropLast(prev: Node, ghost x: Tree)
    requires LinkedTo(x, null) && x.At? && Init(x).At? && prev == Last(Init(x)) && LastOnce(Init(x))
    requires prev in Nodes(Init(x)) && Nodes(Init(x)) <= Nodes(x)
    modifies prev
    ensures LinkedTo(Init(x), null) && HeadOr(Init(x), null) == x.n
  {
    hide Nodes;
    ghost var m := Snapshot(Nodes(x));
    SameLinks(x, null, m);
    InitLinked(x, m);
    prev.next := null;
    Relink(Init(x), Last(x), null, m);
  }

  // ------------------------------------------------------------------------------------------
  // The passes
  // ------------------------------------------------------------------------------------------

  /** What follows an if goes into one of its branches, which is then transformed itself. */
  method TransformIfList(n: Node, first: bool, post: Node?, exit: Kind, ghost x: Tree, ghost y: Tree, ghost q: Tree,
                         ghost m: map<Node, Links>)
    requires BranchOk(x, y, q, exit) && LinkedTo(q, null) && post == HeadOr(q, null)
    requires LinkedTo(x, null) && LinkedTo(y, null) && BranchOf(n, first) == HeadOr(x, HeadOr(y, null))
    requires y == End ==> n !in Nodes(x) + Nodes(q)
    requires Has(y, m) && Has(q, m)
    modifies n, Nodes(x), Nodes(y), Nodes(q)
    ensures var r := if y == End then T(x, q, exit) else y; LinkedTo(r, null) && BranchOf(n, first) == HeadOr(r, null)
    ensures BranchOf(n, !first) == old(BranchOf(n, !first)) && n.next == old(n.next)
    ensures y != End ==> LinksOf(n) == old(LinksOf(n))
    ensures Has(y, m) && Has(q, m)
    decreases Size(x), Size(y) + Size(q) + 1
  {
    hide Wf, Tidy, Normal, Emb, T, Nodes, Body, EndsExit, Pieces;
    Allocated(x); Allocated(y); Allocated(q);
    ghost var (x', z) := Joined(x, y, q, exit);
    JoinedOk(x, y, q, exit);
    PiecesHead(x', z, exit);
    AppendPost(n, first, post, exit, x, y, q, m);
    JoinedShared(x, y, q, exit, m);
    Transform(BranchOf(n, first), exit, x', z, End, m);
  }

  lemma PiecesHead(x: Tree, z: Tree, exit: Kind)
    requires Pieces(x, z, End, exit)
    ensures HeadOr(T(x, z, exit), null) == Head3(x, z, End)
    ensures Nodes(End) == {}
  {
    HeadT(x, z, exit);
  }

  lemma JoinedShared(x: Tree, y: Tree, q: Tree, exit: Kind, m: map<Node, Links>)
    requires Has(y, m) && Has(q, m)
    ensures Has(Joined(x, y, q, exit).1, m)
  {
  }

  /** The statements in front of the if, which stay, and what has become of the if. */
  lemma PassedLinks(l: Tree, p: Tree, k: Tree, pre: Tree, lr: Tree, pr: Tree, exit: Kind, mx: map<Node, Links>)
    requires Passed(l, p, k, pre, lr, pr, exit)
    requires LinkedIn(pre, Head3(lr, pr, k), mx) && Has(pre, mx)
    requires LinkedTo(T(lr, pr, exit), HeadOr(k, null))
    ensures LinkedTo(T(l, p, exit), HeadOr(k, null))
  {
    SameLinks(pre, Head3(lr, pr, k), mx);
    HeadT(lr, pr, exit);
    AppendLinked(pre, T(lr, pr, exit), HeadOr(k, null));
  }

  lemma EndT(k: Tree, exit: Kind)
    ensures LinkedTo(T(End, End, exit), HeadOr(k, null))
  {
  }

  /** Nodes of `p` are shared: they have the links `m` before and after. */
  lemma KeptLinks(p: Tree, pr: Tree, m: map<Node, Links>)
    requires Has(p, m) && Nodes(pr) <= Nodes(p)
    ensures Has(pr, m)
  {
  }

  /** The statements from the next if with an embedded exit on. */
  method TransformRest(head: Node?, exit: Kind, ghost l: Tree, ghost p: Tree, ghost k: Tree, ghost m: map<Node, Links>)
    requires Pieces(l, p, k, exit) && Linked3(l, p, k) && head == Head3(l, p, k) && Has(p, m)
    modifies Nodes(l), Nodes(p)
    ensures LinkedTo(T(l, p, exit), HeadOr(k, null)) && Has(p, m)
    decreases Size(l), Size(p), 2
  {
    hide Wf, Tidy, Normal, Emb, EmbIf, T, Body, EndsExit, Nodes, Append;
    Allocated(l); Allocated(p);
    var n, pre, lr, pr := FindIf(head, exit, l, p, k);
    assert Has(p, m);
    Allocated(pre);
    ghost var mx := Snapshot(Nodes(pre));
    SameLinks(pre, Head3(lr, pr, k), mx);
    EndT(k, exit);
    KeptLinks(p, pr, m);
    if n != null {
      Transform(n, exit, lr, pr, k, m);
    }
    PassedLinks(l, p, k, pre, lr, pr, exit, mx);
  }

  /** Every if with an embedded exit takes what follows it into its branches; the last one first. */
  method Transform(head: Node?, exit: Kind, ghost l: Tree, ghost p: Tree, ghost k: Tree, ghost m: map<Node, Links>)
    requires Pieces(l, p, k, exit) && Linked3(l, p, k) && head == Head3(l, p, k) && Has(p, m)
    modifies Nodes(l), Nodes(p)
    ensures LinkedTo(T(l, p, exit), HeadOr(k, null)) && Has(p, m)
    decreases Size(l), Size(p), 1
  {
    hide Wf, Tidy, Normal, Emb, EmbIf, T, Body, EndsExit, Nodes, Append;
    Allocated(l); Allocated(p);
    var n, pre, lr, pr := FindIf(head, exit, l, p, k);
    assert Has(p, m);
    Allocated(pre);
    ghost var mx := Snapshot(Nodes(pre));
    SameLinks(pre, Head3(lr, pr, k), mx);
    EndT(k, exit);
    KeptLinks(p, pr, m);
    if n != null {
      TransformIf(n, exit, lr, pr, k, m);
    }
    PassedLinks(l, p, k, pre, lr, pr, exit, mx);
  }

  /** The if and its pieces: in a list of its own, or in a shared one, where it is the last. */
  ghost predicate IfOk(n: Node, own: bool, xa: Tree, ya: Tree, xb: Tree, yb: Tree, q: Tree, exit: Kind) {
    && BranchOk(xa, ya, q, exit) && BranchOk(xb, yb, q, exit)
    && (own ==> ya == End && yb == End && Nodes(xa) !! Nodes(xb) && n !in Nodes(xa) + Nodes(xb) + Nodes(q))
    && (!own ==> xa == End && xb == End && q == End)
  }

  lemma EmptyTree(m: map<Node, Links>, exit: Kind)
    ensures T(End, End, exit) == End
    ensures Nodes(End) == {} && LinkedTo(End, null) && Has(End, m)
  {
  }

  /** `post` goes into both branches, and only a break stays behind the if. */
  method Divide(n: Node, brk: Node?, exit: Kind, ghost own: bool, ghost xa: Tree, ghost ya: Tree,
                ghost xb: Tree, ghost yb: Tree, ghost q: Tree, ghost m: map<Node, Links>)
    requires IfOk(n, own, xa, ya, xb, yb, q, exit)
    requires LinkedTo(xa, null) && LinkedTo(ya, null) && LinkedTo(xb, null) && LinkedTo(yb, null) && LinkedTo(q, null)
    requires n.next == HeadOr(q, null)
    requires n.c1 == HeadOr(xa, HeadOr(ya, null)) && n.c2 == HeadOr(xb, HeadOr(yb, null))
    requires Has(ya, m) && Has(yb, m) && Has(q, m)
    requires !own ==> n in m && m[n] == LinksOf(n) && brk == null
    modifies n, Nodes(xa), Nodes(ya), Nodes(xb), Nodes(yb), Nodes(q)
    ensures own ==> LinkedTo(T(xa, q, exit), null) && LinkedTo(T(xb, q, exit), null) && n.next == brk
                    && n.c1 == HeadOr(T(xa, q, exit), null) && n.c2 == HeadOr(T(xb, q, exit), null)
    ensures !own ==> m[n] == LinksOf(n)
    ensures Has(ya, m) && Has(yb, m) && Has(q, m)
    decreases Size(xa) + Size(xb), Size(ya) + Size(yb) + Size(q) + 2, 0
  {
    hide Wf, Tidy, Normal, Emb, EmbIf, T, Body, EndsExit, Nodes, LinkedTo, LinkedIn;
    EmptyTree(m, exit);
    NodesT(xa, q, exit);
    Allocated(xa); Allocated(ya); Allocated(xb); Allocated(yb); Allocated(q);
    SameLinks(ya, null, m);
    SameLinks(yb, null, m);
    SameLinks(q, null, m);
    var post := n.next;
    n.next := brk;
    SameLinks(ya, null, m);
    SameLinks(yb, null, m);
    SameLinks(q, null, m);
    TransformIfList(n, true, post, exit, xa, ya, q, m);
    assert !own ==> LinksOf(n) == m[n];
    SameLinks(yb, null, m);
    SameLinks(q, null, m);
    ghost var ma := Snapshot(Nodes(T(xa, q, exit)));
    Allocated(T(xa, q, exit));
    if own { SameLinks(T(xa, q, exit), null, ma); }
    TransformIfList(n, false, post, exit, xb, yb, q, m);
    if own { SameLinks(T(xa, q, exit), null, ma); }
  }

  /** How the if lies in memory when the list behind it is `q` already. */
  ghost predicate IfLinks(n: Node, xa: Tree, ya: Tree, xb: Tree, yb: Tree, q: Tree, k: Tree)
    reads n, Nodes(xa), Nodes(ya), Nodes(xb), Nodes(yb), Nodes(q)
  {
    && LinkedTo(xa, null) && LinkedTo(ya, null) && LinkedTo(xb, null) && LinkedTo(yb, null)
    && LinkedTo(q, HeadOr(k, null)) && n.next == HeadOr(q, HeadOr(k, null))
    && n.c1 == HeadOr(xa, HeadOr(ya, null)) && n.c2 == HeadOr(xb, HeadOr(yb, null))
  }

  /** Where the shared nodes `p` are among the pieces. */
  ghost predicate SharedOk(n: Node, own: bool, xa: Tree, ya: Tree, xb: Tree, yb: Tree, q: Tree, k: Tree, p: Tree) {
    && (k != End ==> own && p == End && LastOnce(q) && k.n.st == Break)
    && (own ==> Nodes(p) !! Nodes(xa) + Nodes(xb) + {n})
    && (!own ==> Nodes(ya) <= Nodes(p) && Nodes(yb) <= Nodes(p) && n in Nodes(p))
  }

  /** In a case the break that ends the list is cut off; the shared nodes `p` do not change. */
  method CutOff(n: Node, exit: Kind, ghost q: Tree, ghost k: Tree, ghost p: Tree, ghost m: map<Node, Links>)
    returns (brk: Node?)
    requires n.next == HeadOr(q, HeadOr(k, null)) && LinkedTo(q, HeadOr(k, null)) && Has(p, m)
    requires exit in {Break, Return} && if exit.Return? then k == End else !Emb(q)
    requires k != End ==> k.n.st == Break && n !in Nodes(q) && LastOnce(q) && p == End
    modifies n, Nodes(q)
    ensures brk == HeadOr(k, null) && n.next == HeadOr(q, null) && LinkedTo(q, null) && Has(p, m)
    ensures n.c1 == old(n.c1) && n.c2 == old(n.c2)
  {
    hide Emb, Nodes, LinkedTo, LastOnce;
    EmptyTree(m, exit);
    Allocated(p);
    brk := null;
    if exit == Break {
      ghost var mq := Snapshot(Nodes(q));
      brk := Cut(n, q, k, mq);
    }
  }

  method CutAndDivide(n: Node, exit: Kind, ghost own: bool, ghost xa: Tree, ghost ya: Tree,
                      ghost xb: Tree, ghost yb: Tree, ghost q: Tree, ghost k: Tree, ghost p: Tree,
                      ghost m: map<Node, Links>)
    requires IfOk(n, own, xa, ya, xb, yb, q, exit) && SharedOk(n, own, xa, ya, xb, yb, q, k, p)
    requires IfLinks(n, xa, ya, xb, yb, q, k) && Has(p, m) && (exit.Return? ==> k == End)
    modifies n, Nodes(xa), Nodes(ya), Nodes(xb), Nodes(yb), Nodes(q)
    ensures own ==> LinkedTo(At(n, T(xa, q, exit), T(xb, q, exit), End), HeadOr(k, null))
    ensures Has(p, m)
    decreases Size(xa) + Size(xb), Size(ya) + Size(yb) + Size(q) + 2, 1
  {
    hide Wf, Tidy, Normal, Emb, EmbIf, T, Body, EndsExit, Nodes, LinkedIn, LinkedTo, LastOnce;
    EmptyTree(m, exit);
    Allocated(xa); Allocated(xb); Allocated(p);
    if !own {
      KeptLinks(p, ya, m);
      KeptLinks(p, yb, m);
      SameLinks(ya, null, m);
      SameLinks(yb, null, m);
    }
    var brk := CutOff(n, exit, q, k, p, m);
    ghost var m2 := Snapshot(Nodes(q) + Nodes(p));
    assert Has(p, m2) && Has(q, m2);
    if !own {
      KeptLinks(p, ya, m);
      KeptLinks(p, yb, m);
      SameLinks(ya, null, m);
      SameLinks(yb, null, m);
      KeptLinks(p, ya, m2);
      KeptLinks(p, yb, m2);
    }
    Divide(n, brk, exit, own, xa, ya, xb, yb, q, m2);
    assert Has(p, m2);
    if own {
      IfLinked(n, T(xa, q, exit), T(xb, q, exit), brk);
    }
  }

  lemma IfLinked(n: Node, a: Tree, b: Tree, q: Node?)
    requires LinkedTo(a, null) && LinkedTo(b, null)
    requires n.next == q && n.c1 == HeadOr(a, null) && n.c2 == HeadOr(b, null)
    ensures LinkedTo(At(n, a, b, End), q)
  {
  }

  /** The pieces of the if, and what they are known to be before its rest is transformed. */
  lemma IfFacts(n: Node, exit: Kind, l: Tree, p: Tree, k: Tree)
    requires Pieces(l, p, k, exit) && (EmbIf(l) || (l == End && EmbIf(p)))
    requires n == if l.At? then l.n else p.n
    ensures var t := if l.At? then l else p;
            var own := l.At?;
            var r, s := if own then l.rest else End, if own then p else End;
            var q := T(r, s, exit);
      && Pieces(r, s, k, exit) && Size(r) <= Size(l)
      && (own ==> Size(t.a) + Size(t.b) < Size(l) && Size(r) < Size(l)
                  && T(l, p, exit) == At(n, T(t.a, q, exit), T(t.b, q, exit), End)
                  && Nodes(r) !! Nodes(t.a) + Nodes(t.b) + {n})
      && (!own ==> t.rest == End && k == End && q == End && T(l, p, exit) == p
                   && Size(t.a) + Size(t.b) + 2 < Size(p))
      && IfOk(n, own, if own then t.a else End, if own then End else t.a,
              if own then t.b else End, if own then End else t.b, q, exit)
      && SharedOk(n, own, if own then t.a else End, if own then End else t.a,
                  if own then t.b else End, if own then End else t.b, q, k, p)
      && Nodes(t.a) + Nodes(t.b) + {n} <= Nodes(if own then l else p)
      && Nodes(r) <= Nodes(l) && Nodes(q) <= Nodes(r) + Nodes(s) && Nodes(End) == {}
      && HeadOr(q, HeadOr(k, null)) == Head3(r, s, k)
      && (own ==> Nodes(p) !! Nodes(t.a) + Nodes(t.b) + {n})
  {
    if l.At? {
      NodesT(l.rest, p, exit);
      WfT(l.rest, p, exit);
      HeadT(l.rest, p, exit);
      if exit.Return? {
        NormalT(l.rest, p);
      } else {
        NoExitT(l.rest, p);
        NoExitNormal(T(l.rest, p, exit));
      }
      LastOnceT(l.rest, exit);
    }
  }

  lemma {:induction false} NoExitNormal(t: Tree)
    requires !Emb(t)
    ensures Normal(t)
  {
    if t.At? { NoExitNormal(t.rest); }
  }

  method TransformIf(n: Node, exit: Kind, ghost l: Tree, ghost p: Tree, ghost k: Tree, ghost m: map<Node, Links>)
    requires Pieces(l, p, k, exit) && Linked3(l, p, k) && n == Head3(l, p, k) && Has(p, m)
    requires EmbIf(l) || (l == End && EmbIf(p))
    modifies Nodes(l), Nodes(p)
    ensures LinkedTo(T(l, p, exit), HeadOr(k, null)) && Has(p, m)
    decreases Size(l), Size(p), 0
  {
    IfFacts(n, exit, l, p, k);
    hide Wf, Tidy, Normal, Emb, EmbIf, T, Body, EndsExit, Nodes, LinkedIn, LastOnce, Pieces, IfOk, SharedOk, Has;
    ghost var own, t := l.At?, if l.At? then l else p;
    ghost var r, s := if own then l.rest else End, if own then p else End;
    ghost var xa, ya := if own then t.a else End, if own then End else t.a;
    ghost var xb, yb := if own then t.b else End, if own then End else t.b;
    Allocated(t.a); Allocated(t.b); Allocated(p);
    EmptyTree(m, exit);
    SameLinks(p, HeadOr(k, null), m);
    TransformRest(n.next, exit, r, s, k, m);
    assert Has(p, m);
    CutAndDivide(n, exit, own, xa, ya, xb, yb, T(r, s, exit), k, p, m);
    SameLinks(p, HeadOr(k, null), m);
  }

  /** The kind of statement list that a pass starts with: no node occurs twice, and an exit, if any,
      ends a list. */
  ghost predicate Starts(head: Node?, w: Tree, exit: Kind)
    reads Nodes(w)
  {
    LinkedTo(w, null) && head == HeadOr(w, null) && Wf(w, exit) && Tidy(w)
  }

  /** The function pass. */
  method TransformFunctionStatementListForReturns(head: Node?, ghost w: Tree)
    requires Starts(head, w, Return)
    modifies Nodes(w)
    ensures LinkedTo(T(w, End, Return), null) && head == HeadOr(T(w, End, Return), null)
  {
    HeadT(w, End, Return);
    Transform(head, Return, w, End, End, map[]);
  }

  /** The case pass. */
  method TransformCaseStatementListToRemoveBreaks(head: Node?, ghost w: Tree)
    requires Starts(head, w, Break)
    modifies Nodes(w)
    ensures LinkedTo(Unbroken(w), null) && head == HeadOr(Unbroken(w), null)
  {
    BodyAndTail(w, Break);
    AppendLinked(Body(w), Tail(w), null);
    BodyTidy(w);
    AppendMore(Body(w), Tail(w), End);
    HeadT(Body(w), End, Break);
    Allocated(Tail(w));
    Transform(head, Break, Body(w), End, Tail(w), map[]);
    AppendLinked(T(Body(w), End, Break), Tail(w), null);
    AppendMore(T(Body(w), End, Break), Tail(w), End);
  }

  lemma {:induction false} BodyTidy(t: Tree)
    requires Tidy(t)
    ensures Tidy(Body(t)) && Nodes(Body(t)) !! Nodes(Tail(t)) && Nodes(Body(t)) + Nodes(Tail(t)) <= Nodes(t)
  {
    if t.At? { BodyTidy(t.rest); }
  }
}
