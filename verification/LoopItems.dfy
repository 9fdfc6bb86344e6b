/** Statements as the lists of tokens and loops that the parser meets one after the other, and how such
    a list is related to the records of the lexer. */
module LoopItems {
  import opened Wrappers
  import opened LoopUnroll
  import opened LoopBounds
  import opened LoopNest
  import C = ConstExpr

  datatype Item = Token(t: Tok) | Loop(f: Stmt)

  function Toks(ts: seq<Tok>): (r: seq<Item>)
    ensures |r| == |ts|
  {
    if ts == [] then [] else [Token(ts[0])] + Toks(ts[1..])
  }

  function Items(s: Stmt): seq<Item> {
    match s
    case Plain(ts) => Toks(ts)
    case Block(ss) => [Token(LBRACE)] + (ItemsAll(ss) + [Token(RBRACE)])
    case Guard(kw, cond, th, el) =>
      [Token(kw), Token(OPEN)] + (Toks(cond) + ([Token(CLOSE)] + (Items(th) + (if el == [] then [] else [Token(ELSE)] + ItemsAll(el)))))
    case For(_, _, _, _, _) => [Loop(s)]
  }

  function ItemsAll(ss: seq<Stmt>): seq<Item> {
    if ss == [] then [] else Items(ss[0]) + ItemsAll(ss[1..])
  }

  function ItemText(i: Item): seq<Tok> {
    if i.Token? then [i.t] else Text(i.f)
  }

  function TextOf(its: seq<Item>): seq<Tok> {
    if its == [] then [] else ItemText(its[0]) + TextOf(its[1..])
  }

  function FullOf(o: C.Ops<int>, its: seq<Item>): seq<Tok> {
    if its == [] then [] else (if its[0].Token? then [its[0].t] else Full(o, its[0].f, map[])) + FullOf(o, its[1..])
  }

  function WorkOf(o: C.Ops<int>, its: seq<Item>, inside: bool): Option<nat> {
    if its == [] then Some(0)
    else Plus(if its[0].Token? then Some(1) else Work(o, its[0].f, map[], inside), WorkOf(o, its[1..], inside))
  }

  // Text

  lemma {:induction false} TextAppend(a: seq<Item>, b: seq<Item>)
    ensures TextOf(a + b) == TextOf(a) + TextOf(b)
  {
    hide ItemText;
    if a == [] {
      assert a + b == b;
    } else {
      assert (a + b)[1..] == a[1..] + b;
      TextAppend(a[1..], b);
    }
  }

  lemma {:induction false} TextToks(ts: seq<Tok>)
    ensures TextOf(Toks(ts)) == ts
  {
    if ts != [] {
      assert ts == [ts[0]] + ts[1..];
      TextToks(ts[1..]);
    }
  }

  /** A token in front of items. */
  lemma TextToken(t: Tok, b: seq<Item>)
    ensures TextOf([Token(t)] + b) == [t] + TextOf(b) && TextOf([]) == []
  {
    assert ([Token(t)] + b)[1..] == b;
  }

  lemma {:induction false} ItemsText(s: Stmt)
    ensures TextOf(Items(s)) == Text(s)
  {
    hide TextOf, ItemText, Toks;
    match s {
      case Plain(ts) => TextToks(ts);
      case Block(ss) =>
        ItemsTextAll(ss);
        TextToken(LBRACE, ItemsAll(ss) + [Token(RBRACE)]);
        TextAppend(ItemsAll(ss), [Token(RBRACE)]);
        assert [Token(RBRACE)] == [Token(RBRACE)] + [];
        TextToken(RBRACE, []);
      case Guard(kw, cond, th, el) =>
        ItemsText(th);
        ItemsTextAll(el);
        TextToks(cond);
        GuardItemsText(kw, Toks(cond), Items(th), if el == [] then [] else [Token(ELSE)] + ItemsAll(el));
        TextToken(ELSE, ItemsAll(el));
      case For(_, _, _, _, _) => OneLoopText(s);
    }
  }

  lemma OneLoopText(s: Stmt)
    ensures TextOf([Loop(s)]) == Text(s)
  {
    assert [Loop(s)][1..] == [];
  }

  lemma GuardItemsText(kw: Tok, cond: seq<Item>, th: seq<Item>, el: seq<Item>)
    ensures var its := [Token(kw), Token(OPEN)] + (cond + ([Token(CLOSE)] + (th + el)));
      TextOf(its) == [kw, OPEN] + TextOf(cond) + [CLOSE] + TextOf(th) + TextOf(el)
  {
    hide TextOf;
    var c, b := [Token(CLOSE)] + (th + el), cond + ([Token(CLOSE)] + (th + el));
    assert [Token(kw), Token(OPEN)] + b == [Token(kw)] + ([Token(OPEN)] + b);
    TextToken(kw, [Token(OPEN)] + b);
    TextToken(OPEN, b);
    TextAppend(cond, c);
    TextToken(CLOSE, th + el);
    TextAppend(th, el);
  }

  lemma {:induction false} ItemsTextAll(ss: seq<Stmt>)
    ensures TextOf(ItemsAll(ss)) == TextAll(ss)
  {
    hide Text, Items;
    if ss != [] {
      ItemsText(ss[0]);
      ItemsTextAll(ss[1..]);
      TextAppend(Items(ss[0]), ItemsAll(ss[1..]));
    }
  }

  // Unrolling

  lemma {:induction false} OfAppend(o: C.Ops<int>, a: seq<Item>, b: seq<Item>)
    ensures FullOf(o, a + b) == FullOf(o, a) + FullOf(o, b)
  {
    hide Full;
    if a == [] {
      assert a + b == b;
    } else {
      assert (a + b)[1..] == a[1..] + b;
      OfAppend(o, a[1..], b);
    }
  }

  lemma {:induction false} WorkAppend(o: C.Ops<int>, a: seq<Item>, b: seq<Item>, inside: bool)
    ensures WorkOf(o, a + b, inside) == Plus(WorkOf(o, a, inside), WorkOf(o, b, inside))
  {
    hide Work;
    if a == [] {
      assert a + b == b;
    } else {
      assert (a + b)[1..] == a[1..] + b;
      WorkAppend(o, a[1..], b, inside);
    }
  }

  lemma {:induction false} ToksOf(o: C.Ops<int>, ts: seq<Tok>, inside: bool)
    ensures FullOf(o, Toks(ts)) == ts && WorkOf(o, Toks(ts), inside) == Some(|ts|) && PutIn(ts, map[]) == ts
  {
    if ts != [] {
      assert ts == [ts[0]] + ts[1..];
      ToksOf(o, ts[1..], inside);
    }
  }

  lemma OfToken(o: C.Ops<int>, t: Tok, b: seq<Item>, inside: bool)
    ensures FullOf(o, [Token(t)] + b) == [t] + FullOf(o, b) && FullOf(o, []) == []
    ensures WorkOf(o, [Token(t)] + b, inside) == Plus(Some(1), WorkOf(o, b, inside)) && WorkOf(o, [], inside) == Some(0)
  {
    assert ([Token(t)] + b)[1..] == b;
  }

  lemma OneLoop(o: C.Ops<int>, s: Stmt, inside: bool)
    ensures FullOf(o, [Loop(s)]) == Full(o, s, map[]) && WorkOf(o, [Loop(s)], inside) == Work(o, s, map[], inside)
  {
    assert [Loop(s)][1..] == [];
  }

  lemma GuardItems(o: C.Ops<int>, kw: Tok, cond: seq<Item>, th: seq<Item>, el: seq<Item>, inside: bool)
    ensures var its := [Token(kw), Token(OPEN)] + (cond + ([Token(CLOSE)] + (th + el)));
      && FullOf(o, its) == [kw, OPEN] + FullOf(o, cond) + [CLOSE] + FullOf(o, th) + FullOf(o, el)
      && WorkOf(o, its, inside) == Plus(Some(3), Plus(WorkOf(o, cond, inside), Plus(WorkOf(o, th, inside), WorkOf(o, el, inside))))
  {
    hide FullOf, WorkOf;
    var c, b := [Token(CLOSE)] + (th + el), cond + ([Token(CLOSE)] + (th + el));
    assert [Token(kw), Token(OPEN)] + b == [Token(kw)] + ([Token(OPEN)] + b);
    OfToken(o, kw, [Token(OPEN)] + b, inside);
    OfToken(o, OPEN, b, inside);
    OfAppend(o, cond, c);
    WorkAppend(o, cond, c, inside);
    OfToken(o, CLOSE, th + el, inside);
    OfAppend(o, th, el);
    WorkAppend(o, th, el, inside);
  }

  lemma {:induction false} ItemsFull(o: C.Ops<int>, s: Stmt, inside: bool)
    ensures FullOf(o, Items(s)) == Full(o, s, map[]) && WorkOf(o, Items(s), inside) == Work(o, s, map[], inside)
  {
    hide FullOf, WorkOf, Toks, PutIn;
    match s {
      case Plain(ts) => ToksOf(o, ts, inside);
      case Block(ss) =>
        ItemsFullAll(o, ss, inside);
        OfToken(o, LBRACE, ItemsAll(ss) + [Token(RBRACE)], inside);
        OfAppend(o, ItemsAll(ss), [Token(RBRACE)]);
        WorkAppend(o, ItemsAll(ss), [Token(RBRACE)], inside);
        assert [Token(RBRACE)] == [Token(RBRACE)] + [];
        OfToken(o, RBRACE, [], inside);
      case Guard(kw, cond, th, el) =>
        ItemsFull(o, th, inside);
        ItemsFullAll(o, el, inside);
        ToksOf(o, cond, inside);
        GuardItems(o, kw, Toks(cond), Items(th), if el == [] then [] else [Token(ELSE)] + ItemsAll(el), inside);
        OfToken(o, ELSE, ItemsAll(el), inside);
        GuardFull(o, s, inside);
      case For(_, _, _, _, _) => OneLoop(o, s, inside);
    }
  }

  lemma GuardFull(o: C.Ops<int>, s: Stmt, inside: bool)
    requires s.Guard?
    ensures Work(o, s, map[], inside) == Plus(Some(3), Plus(Some(|s.cond|), Plus(Work(o, s.th, map[], inside),
              if s.el == [] then Some(0) else Plus(Some(1), WorkAll(o, s.el, map[], inside)))))
  {
  }

  lemma {:induction false} ItemsFullAll(o: C.Ops<int>, ss: seq<Stmt>, inside: bool)
    ensures FullOf(o, ItemsAll(ss)) == FullAll(o, ss, map[]) && WorkOf(o, ItemsAll(ss), inside) == WorkAll(o, ss, map[], inside)
  {
    hide Full, Work, Items;
    if ss != [] {
      ItemsFull(o, ss[0], inside);
      ItemsFullAll(o, ss[1..], inside);
      OfAppend(o, Items(ss[0]), ItemsAll(ss[1..]));
      WorkAppend(o, Items(ss[0]), ItemsAll(ss[1..]), inside);
    }
  }

  // ------------------------------------------------------------------------------------------
  // Well-formed lists
  // ------------------------------------------------------------------------------------------

  predicate GoodItem(i: Item) {
    if i.Token? then i.t != FOR && i.t != Eor && i.t != Eof else i.f.For? && Wf(i.f) && Closed(i.f, {})
  }

  /** No loop that an else would belong to has one behind it; `tail` says that one may come behind the list. */
  predicate Good(its: seq<Item>, tail: bool) {
    its == [] ||
    (&& GoodItem(its[0])
     && (its[0].Loop? && (if |its| > 1 then its[1] == Token(ELSE) else tail) ==> !OpenEnd(its[0].f))
     && Good(its[1..], tail))
  }

  lemma {:induction false} GoodAppend(a: seq<Item>, b: seq<Item>, tail: bool)
    requires Good(b, tail) && Good(a, if b == [] then tail else b[0] == Token(ELSE))
    ensures Good(a + b, tail)
    decreases |a|
  {
    hide GoodItem;
    if a == [] {
      assert a + b == b;
    } else {
      assert (a + b)[1..] == a[1..] + b;
      GoodAppend(a[1..], b, tail);
    }
  }

  lemma {:induction false} GoodAt(its: seq<Item>, i: nat)
    requires Good(its, false) && i < |its|
    ensures GoodItem(its[i])
    ensures its[i].Loop? && i + 1 < |its| && its[i + 1] == Token(ELSE) ==> !OpenEnd(its[i].f)
    decreases i
  {
    if i > 0 { GoodAt(its[1..], i - 1); }
  }

  lemma {:induction false} GoodToks(ts: seq<Tok>, tail: bool)
    requires Ordinary(ts)
    ensures Good(Toks(ts), tail)
    decreases |ts|
  {
    if ts != [] {
      assert ts[0] in ts && Ordinary(ts[1..]);
      assert Toks(ts)[1..] == Toks(ts[1..]);
      GoodToks(ts[1..], tail);
    }
  }

  lemma GoodToken(t: Tok, b: seq<Item>, tail: bool)
    requires GoodItem(Token(t)) && Good(b, tail)
    ensures Good([Token(t)] + b, tail)
  {
    assert ([Token(t)] + b)[1..] == b;
  }

  /** No statement begins with an else. */
  lemma FirstItem(s: Stmt)
    requires Wf(s)
    ensures Items(s) != [] && Items(s)[0] != Token(ELSE)
  {
  }

  lemma {:induction false} ItemsGood(s: Stmt, tail: bool)
    requires Wf(s) && Closed(s, {}) && (tail ==> !OpenEnd(s))
    ensures Good(Items(s), tail)
    decreases s
  {
    hide Toks, Good;
    match s {
      case Plain(ts) => GoodToks(ts, tail);
      case Block(ss) =>
        ItemsGoodAll(ss);
        GoodNone(tail);
        assert [Token(RBRACE)] == [Token(RBRACE)] + [];
        GoodToken(RBRACE, [], tail);
        GoodAppend(ItemsAll(ss), [Token(RBRACE)], tail);
        GoodToken(LBRACE, ItemsAll(ss) + [Token(RBRACE)], tail);
      case Guard(kw, cond, th, el) =>
        var rest := if el == [] then [] else [Token(ELSE)] + ItemsAll(el);
        if el == [] {
          GoodNone(tail);
          ItemsGood(th, tail);
        } else {
          assert el == [el[0]];
          ItemsGood(el[0], tail);
          OneItem(el[0]);
          GoodToken(ELSE, ItemsAll(el), tail);
          ItemsGood(th, true);
        }
        GoodAppend(Items(th), rest, tail);
        GoodToken(CLOSE, Items(th) + rest, tail);
        GoodToks(cond, false);
        GoodAppend(Toks(cond), [Token(CLOSE)] + (Items(th) + rest), tail);
        GoodTwo(kw, Toks(cond) + ([Token(CLOSE)] + (Items(th) + rest)), tail);
      case For(_, _, _, _, _) => GoodLoop(s, tail);
    }
  }

  lemma GoodTwo(kw: Tok, b: seq<Item>, tail: bool)
    requires kw in {IF, SWITCH} && Good(b, tail)
    ensures Good([Token(kw), Token(OPEN)] + b, tail)
  {
    assert [Token(kw), Token(OPEN)] + b == [Token(kw)] + ([Token(OPEN)] + b);
    GoodToken(OPEN, b, tail);
    GoodToken(kw, [Token(OPEN)] + b, tail);
  }

  lemma GoodNone(tail: bool)
    ensures Good([], tail)
  {
  }

  lemma GoodLoop(s: Stmt, tail: bool)
    requires s.For? && Wf(s) && Closed(s, {}) && (tail ==> !OpenEnd(s))
    ensures Good([Loop(s)], tail)
  {
    assert [Loop(s)][1..] == [];
  }

  lemma OneItem(s: Stmt)
    ensures ItemsAll([s]) == Items(s)
  {
    assert [s][1..] == [] && ItemsAll([]) == [];
  }

  lemma {:induction false} ItemsGoodAll(ss: seq<Stmt>)
    requires WfAll(ss) && ClosedAll(ss, {})
    ensures Good(ItemsAll(ss), false)
    decreases ss
  {
    hide Good, Items;
    if ss == [] {
      GoodNone(false);
    } else {
      ItemsGood(ss[0], false);
      ItemsGoodAll(ss[1..]);
      if ss[1..] != [] {
        FirstItem(ss[1..][0]);
        assert ItemsAll(ss[1..])[0] == Items(ss[1..][0])[0];
      }
      GoodAppend(Items(ss[0]), ItemsAll(ss[1..]), false);
    }
  }

  // ------------------------------------------------------------------------------------------
  // Loops that are being played back
  // ------------------------------------------------------------------------------------------

  /** The items of all passes with the values from `v` on. */
  function Copies(x: string, v: int, hi: int, step: int, body: Stmt): seq<Item>
    decreases hi - v
  {
    if v >= hi || step <= 0 then [] else Items(SubstStmt(body, x, v)) + Copies(x, v + step, hi, step, body)
  }

  /** The passes of a loop unroll to what the loop unrolls to. */
  lemma {:induction false} CopiesFull(o: C.Ops<int>, x: string, v: int, hi: int, step: int, body: Stmt)
    requires Free(body, x)
    ensures FullOf(o, Copies(x, v, hi, step, body)) == FullValues(o, x, v, hi, step, body, map[])
    ensures WorkOf(o, Copies(x, v, hi, step, body), true) == WorkValues(o, x, v, hi, step, body, map[])
    decreases hi - v
  {
    if v < hi && step > 0 {
      var s := SubstStmt(body, x, v);
      ItemsFull(o, s, true);
      SubstFull(o, body, x, v, map[]);
      SubstWork(o, body, x, v, map[], true);
      CopiesFull(o, x, v + step, hi, step, body);
      OfAppend(o, Items(s), Copies(x, v + step, hi, step, body));
      WorkAppend(o, Items(s), Copies(x, v + step, hi, step, body), true);
    }
  }

  /** The loop that a record plays back, and how many items of the pass have been read. */
  datatype Frame = Frame(body: Stmt, k: nat)

  /** The body in the pass that is being played. */
  function Now(r: Record, f: Frame): Stmt { SubstStmt(f.body, r.ctrlVar, r.value) }

  predicate FrameOk(r: Record, f: Frame) {
    && Playing(r) && Wf(f.body) && Free(f.body, r.ctrlVar) && Closed(f.body, {r.ctrlVar})
    && r.list == Text(f.body) && f.k <= |Items(Now(r, f))|
  }

  /** The rest of the pass is `pre` and the items not yet read. */
  predicate Fits(r: Record, f: Frame, pre: seq<Tok>) {
    FrameOk(r, f) && Left(r) == pre + TextOf(Items(Now(r, f))[f.k..])
  }

  function Coming(r: Record, f: Frame): seq<Item>
    requires FrameOk(r, f)
  {
    Items(Now(r, f))[f.k..] + Copies(r.ctrlVar, r.value + r.inc, r.exit, r.inc, f.body)
  }

  predicate AllFit(rs: seq<Record>, fs: seq<Frame>) {
    |rs| == |fs| && forall i :: 0 <= i < |rs| ==> Fits(rs[i], fs[i], [])
  }

  predicate AllOk(rs: seq<Record>, fs: seq<Frame>) {
    |rs| == |fs| && forall i :: 0 <= i < |rs| ==> FrameOk(rs[i], fs[i])
  }

  /** The items still to come from all loops that are being played back, the innermost one first. */
  function ComingAll(rs: seq<Record>, fs: seq<Frame>): seq<Item>
    requires AllOk(rs, fs)
  {
    if rs == [] then []
    else
      var n := |rs| - 1;
      Coming(rs[n], fs[n]) + ComingAll(rs[..n], fs[..n])
  }

  lemma NowGood(r: Record, f: Frame)
    requires FrameOk(r, f)
    ensures Wf(Now(r, f)) && Closed(Now(r, f), {}) && Good(Items(Now(r, f)), false)
    ensures SubstAll(r.list, r.ctrlVar, r.value) == TextOf(Items(Now(r, f)))
  {
    SubstWf(f.body, r.ctrlVar, r.value);
    SubstClosed(f.body, r.ctrlVar, r.value, {r.ctrlVar});
    assert {r.ctrlVar} - {r.ctrlVar} == {};
    ItemsGood(Now(r, f), false);
    TextSubst(f.body, r.ctrlVar, r.value);
    ItemsText(Now(r, f));
  }

  lemma {:induction false} TextNotEmpty(s: Stmt)
    requires Wf(s)
    ensures Text(s) != []
  {
    if s.Plain? { PlainFirst(s.ts); }
  }

  lemma ItemTextFirst(i: Item)
    requires GoodItem(i)
    ensures ItemText(i) != [] && ItemText(i) == [ItemText(i)[0]] + ItemText(i)[1..]
    ensures i.Loop? ==> ItemText(i)[0] == FOR
  {
  }

  /** The next item of the pass. */
  lemma TakeItem(r: Record, f: Frame) returns (c: Item)
    requires Fits(r, f, []) && r.pos + 1 < |r.list|
    ensures f.k < |Items(Now(r, f))| && c == Items(Now(r, f))[f.k] && GoodItem(c) && ItemText(c) != []
    ensures Fits(Stepped(r), f.(k := f.k + 1), ItemText(c)[1..]) && At(Stepped(r)) == ItemText(c)[0]
    ensures Coming(r, f) == [c] + Coming(Stepped(r), f.(k := f.k + 1))
  {
    hide Items, SubstStmt, SubstAll, Text, Copies, Good, GoodItem, Wf, Free, Closed, ItemText;
    NowGood(r, f);
    var its := Items(Now(r, f));
    var r1 := Stepped(r);
    LeftSkip(r, 1);
    LeftAt(r, 0);
    assert Now(r1, f.(k := f.k + 1)) == Now(r, f);
    assert its[f.k..] != [];
    c := its[f.k];
    GoodAt(its, f.k);
    ItemTextFirst(c);
    assert its[f.k..] == [c] + its[f.k + 1..];
    assert its[f.k..][0] == c && its[f.k..][1..] == its[f.k + 1..];
    assert Left(r) == ItemText(c) + TextOf(its[f.k + 1..]);
    Cut(ItemText(c), TextOf(its[f.k + 1..]));
  }

  lemma Cut(a: seq<Tok>, b: seq<Tok>)
    requires a != []
    ensures (a + b)[0] == a[0] && (a + b)[1..] == a[1..] + b
  {
  }

  /** A pass is over exactly when all its items have been read. */
  lemma PassOver(r: Record, f: Frame)
    requires Fits(r, f, [])
    ensures r.pos + 1 == |r.list| ==> Items(Now(r, f))[f.k..] == []
  {
    hide SubstAll, Text, Copies, SubstStmt, Items, Good;
    NowGood(r, f);
    var its := Items(Now(r, f));
    if f.k < |its| {
      GoodAt(its, f.k);
      TextOfSome(its[f.k..]);
    }
  }

  lemma TextOfSome(its: seq<Item>)
    requires its != [] && GoodItem(its[0])
    ensures TextOf(its) != []
  {
    ItemTextFirst(its[0]);
  }

  /** The start of the next pass. */
  lemma NewPass(r: Record, f: Frame)
    requires Fits(r, f, []) && r.pos + 1 == |r.list| && r.value + r.inc < r.exit
    ensures var r0 := r.(value := r.value + r.inc, pos := -1);
      Fits(r0, Frame(f.body, 0), []) && Coming(r, f) == Coming(r0, Frame(f.body, 0)) && Stepped(r) == Stepped(r0)
  {
    hide Items, Text, SubstStmt, SubstAll, Wf, Free, Closed, TextOf;
    PassOver(r, f);
    var r0 := r.(value := r.value + r.inc, pos := -1);
    BodyFits(r0, f.body);
    assert Coming(r, f) == [] + Copies(r.ctrlVar, r.value + r.inc, r.exit, r.inc, f.body);
  }

  /** A record at the start of a pass. */
  lemma BodyFits(b: Record, body: Stmt)
    requires Playing(b) && b.pos == -1 && b.list == Text(body)
    requires Wf(body) && Free(body, b.ctrlVar) && Closed(body, {b.ctrlVar})
    ensures Fits(b, Frame(body, 0), [])
    ensures Coming(b, Frame(body, 0)) == Copies(b.ctrlVar, b.value, b.exit, b.inc, body)
  {
    hide Items, SubstStmt, Text, Wf, Free, Closed, Good, GoodItem;
    NowGood(b, Frame(body, 0));
    assert b.list[0..] == b.list;
    var its := Items(Now(b, Frame(body, 0)));
    assert its[0..] == its;
    assert [] + TextOf(its) == TextOf(its);
  }

  /** The first token of item `c` has been read, and the innermost loop goes on behind it. */
  predicate Reads(ns: seq<Record>, gs: seq<Frame>, c: Item) {
    && |ns| == |gs| > 0 && GoodItem(c) && ItemText(c) != []
    && var n := |ns| - 1;
       && AllFit(ns[..n], gs[..n]) && Fits(ns[n], gs[n], ItemText(c)[1..]) && At(ns[n]) == ItemText(c)[0]
       && gs[n].k > 0 && c == Items(Now(ns[n], gs[n]))[gs[n].k - 1]
  }

  lemma ReadsOk(ns: seq<Record>, gs: seq<Frame>, c: Item)
    requires Reads(ns, gs, c)
    ensures AllOk(ns, gs)
  {
    hide FrameOk, Items, ItemText, GoodItem, At, TextOf, Left;
    var n := |ns| - 1;
    forall i | 0 <= i < |ns| ensures FrameOk(ns[i], gs[i]) {
      if i < n { assert Fits(ns[..n][i], gs[..n][i], []); }
    }
  }

  lemma FitIsOk(r: Record, f: Frame, pre: seq<Tok>)
    requires Fits(r, f, pre)
    ensures FrameOk(r, f)
  {
  }

  lemma FitOk(rs: seq<Record>, fs: seq<Frame>)
    requires AllFit(rs, fs)
    ensures AllOk(rs, fs)
  {
    hide FrameOk;
  }

  /** The innermost loop has come to item `c`. */
  lemma TurnTop(rs: seq<Record>, fs: seq<Frame>, r1: Record, f1: Frame, c: Item)
    requires |rs| == |fs| > 0 && FrameOk(rs[|rs| - 1], fs[|rs| - 1]) && FrameOk(r1, f1)
    requires AllFit(rs, fs) && GoodItem(c) && ItemText(c) != []
    requires Fits(r1, f1, ItemText(c)[1..]) && At(r1) == ItemText(c)[0] && f1.k > 0 && c == Items(Now(r1, f1))[f1.k - 1]
    requires var n := |rs| - 1; Coming(rs[n], fs[n]) == [c] + Coming(r1, f1)
    ensures var n := |rs| - 1;
            var ns, gs := rs[n := r1], fs[n := f1];
      && Reads(ns, gs, c) && AllOk(rs, fs) && AllOk(ns, gs) && ComingAll(rs, fs) == [c] + ComingAll(ns, gs)
  {
    hide FrameOk, Coming, GoodItem, ItemText, Items, At;
    var n := |rs| - 1;
    SamePrefix(rs, fs, r1, f1);
    FitOk(rs, fs);
    ReadsOk(rs[n := r1], fs[n := f1], c);
    assert ([c] + Coming(r1, f1)) + ComingAll(rs[..n], fs[..n]) == [c] + (Coming(r1, f1) + ComingAll(rs[..n], fs[..n]));
  }

  /** What the lexer's next step means for the items: the next one is begun, if there is one. */
  lemma {:induction false} Turn(rs: seq<Record>, fs: seq<Frame>) returns (c: Item, gs: seq<Frame>)
    requires AllFit(rs, fs)
    ensures AllOk(rs, fs)
    ensures NextRecords(rs) == [] ==> ComingAll(rs, fs) == []
    ensures var ns := NextRecords(rs);
      ns != [] ==> Reads(ns, gs, c) && AllOk(ns, gs) && ComingAll(rs, fs) == [c] + ComingAll(ns, gs)
    decreases |rs|
  {
    hide Items, FrameOk, Fits, Coming, GoodItem, ItemText, At, Stepped, Finished, Reads;
    FitOk(rs, fs);
    if rs == [] {
      c, gs := Token(Eof), [];
    } else {
      var n := |rs| - 1;
      var r, f := rs[n], fs[n];
      assert AllFit(rs[..n], fs[..n]);
      if Finished(r) {
        LoopOver(r, f);
        c, gs := Turn(rs[..n], fs[..n]);
      } else {
        var f1;
        c, f1 := NextInLoop(r, f);
        gs := fs[n := f1];
        FitIsOk(r, f, []);
        FitIsOk(Stepped(r), f1, ItemText(c)[1..]);
        TurnTop(rs, fs, Stepped(r), f1, c);
      }
    }
  }

  /** The next item of a loop that is not done: of this pass, or the first one of the next pass. */
  lemma NextInLoop(r: Record, f: Frame) returns (c: Item, f1: Frame)
    requires Fits(r, f, []) && !Finished(r)
    ensures GoodItem(c) && ItemText(c) != [] && Fits(Stepped(r), f1, ItemText(c)[1..])
    ensures At(Stepped(r)) == ItemText(c)[0] && f1.k > 0 && c == Items(Now(Stepped(r), f1))[f1.k - 1]
    ensures Coming(r, f) == [c] + Coming(Stepped(r), f1)
  {
    hide Items, SubstStmt, SubstAll, Text, Copies, Good, GoodItem, Wf, Free, Closed, ItemText, Left, Coming;
    if r.pos + 1 < |r.list| {
      c := TakeItem(r, f);
      f1 := f.(k := f.k + 1);
    } else {
      NewPass(r, f);
      var r0 := r.(value := r.value + r.inc, pos := -1);
      NotEmptyList(r);
      c := TakeItem(r0, Frame(f.body, 0));
      f1 := Frame(f.body, 1);
    }
  }

  lemma NotEmptyList(r: Record)
    requires Playing(r)
    ensures r.list != []
  {
  }

  lemma LoopOver(r: Record, f: Frame)
    requires Fits(r, f, []) && Finished(r)
    ensures Coming(r, f) == []
  {
    PassOver(r, f);
  }

  lemma SamePrefix(rs: seq<Record>, fs: seq<Frame>, r: Record, f: Frame)
    requires |rs| == |fs| > 0
    ensures var n := |rs| - 1;
      && rs[n := r][..n] == rs[..n] && fs[n := f][..n] == fs[..n] && rs[n := r][n] == r && fs[n := f][n] == f
  {
  }
}
