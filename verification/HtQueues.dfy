/** The hardware queues of the simulation library and the registers that the Verilog generator emits
    for them.  Indices have one bit more than a slot number and wrap; `cap` is the number of slots, a
    power of two, and cutting an index down to the slot number is written as subtraction.  The block
    queue decides whether it is empty with a write index that is one clock old. */
module HtQueues {

  import opened Wrappers
  import opened Powers

  /** An index below 2 * cap, from a sum below 4 * cap. */
  function Wrap(x: nat, cap: nat): nat { if x < 2 * cap then x else x - 2 * cap }

  /** The slot of an index. */
  function Slot(x: nat, cap: nat): nat {
    if x < cap then x else if x < 2 * cap then x - cap else x - 2 * cap
  }

  // ------------------------------------------------------------------------------------------
  // The registers of both models
  // ------------------------------------------------------------------------------------------

  datatype Regs = Regs(wr: nat, rd: nat, wr2: nat)

  datatype Clock = Clock(push: bool, pop: bool, reset: bool)

  predicate RegsOk(r: Regs, cap: nat) { r.wr < 2 * cap && r.rd < 2 * cap && r.wr2 < 2 * cap }

  /** The size as the class computes it, and the count as the emitted statements do, in a register
      that is one bit wider than a slot number. */
  function Size(r: Regs, cap: nat): int {
    if r.wr >= r.rd then r.wr - r.rd else r.wr + 2 * cap - r.rd
  }

  function Count(r: Regs, cap: nat): int
    requires cap > 0
  {
    (r.wr - r.rd) % (2 * cap)
  }

  predicate IsEmpty(r: Regs, block: bool) { if block then r.wr2 == r.rd else r.wr == r.rd }

  /** A clock of the class: on reset the write index is cleared after its old value has gone to
      the delayed one. */
  function ClassClock(r: Regs, c: Clock, cap: nat): Regs {
    Regs(if c.reset then 0 else if c.push then Wrap(r.wr + 1, cap) else r.wr,
         if c.reset then 0 else if c.pop then Wrap(r.rd + 1, cap) else r.rd,
         r.wr)
  }

  /** A clock of the emitted statements: on reset all registers are cleared. */
  function EmittedClock(r: Regs, c: Clock, cap: nat): Regs
    requires cap > 0
  {
    Regs(if c.reset then 0 else if c.push then (r.wr + 1) % (2 * cap) else r.wr,
         if c.reset then 0 else if c.pop then (r.rd + 1) % (2 * cap) else r.rd,
         if c.reset then 0 else r.wr)
  }

  /** What a user can see of a queue; whether it is full is a comparison of its size. */
  datatype Look = Look(empty: bool, size: int)

  function ClassLook(r: Regs, block: bool, cap: nat): Look { Look(IsEmpty(r, block), Size(r, cap)) }

  function EmittedLook(r: Regs, block: bool, cap: nat): Look
    requires cap > 0
  {
    Look(IsEmpty(r, block), Count(r, cap))
  }

  lemma SmallMod(x: int, m: int)
    requires 0 < m
    ensures 0 <= x < m ==> x % m == x
    ensures m <= x < 2 * m ==> x % m == x - m
    ensures -m <= x < 0 ==> x % m == x + m
  {
    if 0 <= x < m {
      Unique(x, m, 0, x);
    } else if m <= x < 2 * m {
      Unique(x, m, 1, x - m);
    } else if -m <= x < 0 {
      Unique(x, m, -1, x + m);
    }
  }

  lemma Multiple(k: int, m: int)
    requires m > 0
    ensures k >= 1 ==> k * m >= m
    ensures k <= -1 ==> k * m <= -m
  {
  }

  lemma Unique(x: int, m: int, q: int, s: int)
    requires 0 < m && 0 <= s < m && x == q * m + s
    ensures x % m == s
  {
    var q', s' := x / m, x % m;
    var k := q - q';
    assert k * m == q * m - q' * m;
    Multiple(k, m);
  }

  /** The same registers look the same in both models. */
  lemma SameLook(r: Regs, block: bool, cap: nat)
    requires cap > 0 && RegsOk(r, cap)
    ensures ClassLook(r, block, cap) == EmittedLook(r, block, cap)
  {
    SmallMod(r.wr - r.rd, 2 * cap);
  }

  /** After one more clock the two models look the same exactly when the queue is not a block queue
      that is reset while its write index is away from zero. */
  lemma ClockAgreesIff(r: Regs, c: Clock, block: bool, cap: nat)
    requires cap > 0 && RegsOk(r, cap)
    ensures ClassLook(ClassClock(r, c, cap), block, cap) == EmittedLook(EmittedClock(r, c, cap), block, cap)
            <==> !(block && c.reset && r.wr != 0)
    ensures !(c.reset && r.wr != 0) ==> ClassClock(r, c, cap) == EmittedClock(r, c, cap)
    ensures RegsOk(ClassClock(r, c, cap), cap)
  {
    SmallMod(r.wr + 1, 2 * cap);
    SmallMod(r.rd + 1, 2 * cap);
    SameLook(EmittedClock(r, c, cap), block, cap);
    SameLook(ClassClock(r, c, cap), block, cap);
  }

  function ClassRun(r: Regs, cs: seq<Clock>, cap: nat): Regs
    decreases |cs|
  {
    if cs == [] then r else ClassRun(ClassClock(r, cs[0], cap), cs[1..], cap)
  }

  function EmittedRun(r: Regs, cs: seq<Clock>, cap: nat): Regs
    requires cap > 0
    decreases |cs|
  {
    if cs == [] then r else EmittedRun(EmittedClock(r, cs[0], cap), cs[1..], cap)
  }

  /** Resets come only when the write index is zero, as at power-up, or for a second clock. */
  predicate CleanResets(r: Regs, cs: seq<Clock>, cap: nat)
    decreases |cs|
  {
    cs == [] || ((cs[0].reset ==> r.wr == 0) && CleanResets(ClassClock(r, cs[0], cap), cs[1..], cap))
  }

  /** The two models look the same before every clock and at the end. */
  predicate SameLooks(r: Regs, e: Regs, cs: seq<Clock>, block: bool, cap: nat)
    requires cap > 0
    decreases |cs|
  {
    && ClassLook(r, block, cap) == EmittedLook(e, block, cap)
    && (cs == [] || SameLooks(ClassClock(r, cs[0], cap), EmittedClock(e, cs[0], cap), cs[1..], block, cap))
  }

  /** From the same registers the two models of a block queue look the same throughout a run exactly when
      it is reset only at a zero write index; they have the same registers then. */
  lemma {:induction false} BlockRunsAgreeIff(r: Regs, cs: seq<Clock>, cap: nat)
    requires cap > 0 && RegsOk(r, cap)
    ensures SameLooks(r, r, cs, true, cap) <==> CleanResets(r, cs, cap)
    ensures CleanResets(r, cs, cap) ==> ClassRun(r, cs, cap) == EmittedRun(r, cs, cap)
    decreases |cs|
  {
    SameLook(r, true, cap);
    if cs != [] {
      ClockAgreesIff(r, cs[0], true, cap);
      BlockRunsAgreeIff(ClassClock(r, cs[0], cap), cs[1..], cap);
    }
  }

  /** The two models of a distributed queue look the same throughout every run, whenever it is reset:
      only the delayed write index, which nobody looks at, may differ. */
  lemma {:induction false} DistRunsAgree(r: Regs, e: Regs, cs: seq<Clock>, cap: nat)
    requires cap > 0 && RegsOk(r, cap) && r.wr == e.wr && r.rd == e.rd
    ensures SameLooks(r, e, cs, false, cap)
    ensures var z, x := ClassRun(r, cs, cap), EmittedRun(e, cs, cap); z.wr == x.wr && z.rd == x.rd
    decreases |cs|
  {
    SameLook(r, false, cap);
    if cs != [] {
      SmallMod(r.wr + 1, 2 * cap);
      SmallMod(r.rd + 1, 2 * cap);
      DistRunsAgree(ClassClock(r, cs[0], cap), EmittedClock(e, cs[0], cap), cs[1..], cap);
    }
  }

  /** Two reset clocks bring the models together from any registers. */
  lemma TwoResets(r: Regs, e: Regs, c1: Clock, c2: Clock, cap: nat)
    requires cap > 0 && c1.reset && c2.reset
    ensures ClassRun(r, [c1, c2], cap) == EmittedRun(e, [c1, c2], cap) == Regs(0, 0, 0)
  {
    assert [c1, c2][1..] == [c2] && [c2][1..] == [];
    assert ClassRun(r, [c1, c2], cap) == ClassRun(ClassClock(r, c1, cap), [c2], cap);
    assert EmittedRun(e, [c1, c2], cap) == EmittedRun(EmittedClock(e, c1, cap), [c2], cap);
  }

  // ------------------------------------------------------------------------------------------
  // The queue
  // ------------------------------------------------------------------------------------------

  /** The registers and the memory hold the entries `q`, of which the first `seen` can be popped. */
  ghost predicate Holds<T>(r: Regs, mem: seq<T>, q: seq<T>, seen: nat, block: bool, cap: nat) {
    && cap > 0 && |mem| == cap && r.rd < 2 * cap
    && |q| <= cap && |q| - 1 <= seen <= |q| && (!block ==> seen == |q|)
    && r.wr == Wrap(r.rd + |q|, cap)
    && (block ==> r.wr2 == Wrap(r.rd + seen, cap))
    && Entries(r.rd, mem, q, cap)
  }

  /** The entries lie in the memory from index `rd` on. */
  ghost predicate Entries<T>(rd: nat, mem: seq<T>, q: seq<T>, cap: nat) {
    |mem| == cap && forall i: nat :: i < |q| ==> SlotAt(rd, i, cap) < cap && mem[SlotAt(rd, i, cap)] == q[i]
  }

  /** The slot of the entry `i` behind an index. */
  function SlotAt(x: nat, i: nat, cap: nat): nat {
    Slot(x + i, cap)
  }

  lemma SlotNext(rd: nat, i: nat, cap: nat)
    requires cap > 0 && rd < 2 * cap && i <= cap
    ensures SlotAt(rd, i, cap) < cap
    ensures i < cap ==> SlotAt(Wrap(rd + 1, cap), i, cap) == SlotAt(rd, i + 1, cap)
    ensures Slot(Wrap(rd + i, cap), cap) == SlotAt(rd, i, cap)
  {
  }

  lemma SlotsDiffer(rd: nat, i: nat, j: nat, cap: nat)
    requires rd < 2 * cap && i < j < cap
    ensures SlotAt(rd, i, cap) != SlotAt(rd, j, cap)
  {
  }

  /** Size, full, empty and front say what they should about the entries. */
  lemma HoldsLook<T>(r: Regs, mem: seq<T>, q: seq<T>, seen: nat, block: bool, cap: nat)
    requires Holds(r, mem, q, seen, block, cap)
    ensures Size(r, cap) == |q|
    ensures IsEmpty(r, block) <==> seen == 0
    ensures Slot(r.rd, cap) < cap && (q != [] ==> mem[Slot(r.rd, cap)] == q[0])
  {
    assert SlotAt(r.rd, 0, cap) == Slot(r.rd, cap);
  }

  /** The memory behind a push. */
  function Stored<T>(r: Regs, mem: seq<T>, push: Option<T>, cap: nat): seq<T>
    requires Slot(r.wr, cap) < |mem|
  {
    if push.Some? then mem[Slot(r.wr, cap) := push.value] else mem
  }

  /** The entries, and how many of them can be popped, behind a clock. */
  ghost function NextEntries<T>(q: seq<T>, push: Option<T>, pop: bool): seq<T> {
    (if pop && q != [] then q[1..] else q) + if push.Some? then [push.value] else []
  }

  ghost function NextSeen<T>(q: seq<T>, push: Option<T>, pop: bool, block: bool): nat {
    if block then (if pop && q != [] then |q| - 1 else |q|) else |NextEntries(q, push, pop)|
  }

  /** One clock without reset: the front leaves, the pushed entry joins, and what was there before
      the clock can be popped now. */
  lemma ClockHolds<T>(r: Regs, mem: seq<T>, q: seq<T>, seen: nat, block: bool, cap: nat, push: Option<T>, pop: bool)
    requires Holds(r, mem, q, seen, block, cap)
    requires push.Some? ==> |q| < cap
    requires pop ==> seen > 0
    ensures Slot(r.wr, cap) < cap
    ensures Holds(ClassClock(r, Clock(push.Some?, pop, false), cap), Stored(r, mem, push, cap),
                  NextEntries(q, push, pop), NextSeen(q, push, pop, block), block, cap)
  {
    hide Slot, SlotAt, Wrap, Entries;
    SlotNext(r.rd, |q|, cap);
    IndexClock(r, |q|, push.Some?, pop, cap);
    var mem1, q1 := Stored(r, mem, push, cap), q + if push.Some? then [push.value] else [];
    if push.Some? {
      Pushed(r.rd, mem, q, push.value, cap);
    } else {
      assert q1 == q;
    }
    assert (if pop then q1[1..] else q1) == (if pop then q[1..] else q) + (if push.Some? then [push.value] else []);
    if pop {
      Popped(r.rd, mem1, q1, cap);
    }
  }

  lemma Pushed<T>(rd: nat, mem: seq<T>, q: seq<T>, x: T, cap: nat)
    requires rd < 2 * cap && |q| < cap && Entries(rd, mem, q, cap)
    ensures SlotAt(rd, |q|, cap) < cap
    ensures Entries(rd, mem[SlotAt(rd, |q|, cap) := x], q + [x], cap)
  {
    SlotNext(rd, |q|, cap);
    var mem' := mem[SlotAt(rd, |q|, cap) := x];
    forall i: nat | i <= |q| ensures SlotAt(rd, i, cap) < cap && mem'[SlotAt(rd, i, cap)] == (q + [x])[i] {
      SlotNext(rd, i, cap);
      if i < |q| { SlotsDiffer(rd, i, |q|, cap); }
    }
  }

  lemma Popped<T>(rd: nat, mem: seq<T>, q: seq<T>, cap: nat)
    requires 0 < cap && rd < 2 * cap && 0 < |q| <= cap && Entries(rd, mem, q, cap)
    ensures Entries(Wrap(rd + 1, cap), mem, q[1..], cap)
  {
    hide SlotAt, Wrap;
    var rd', q' := Wrap(rd + 1, cap), q[1..];
    forall i: nat | i < |q'| ensures SlotAt(rd', i, cap) < cap && mem[SlotAt(rd', i, cap)] == q'[i] {
      SlotNext(rd, i, cap);
      var j: nat := i + 1;
      assert j < |q| && q'[i] == q[j];
      assert mem[SlotAt(rd, j, cap)] == q[j];
    }
  }

  /** The indices behind a clock without reset, when `n` entries are held. */
  lemma IndexClock(r: Regs, n: nat, push: bool, pop: bool, cap: nat)
    requires cap > 0 && r.rd < 2 * cap && n <= cap
    requires r.wr == Wrap(r.rd + n, cap) && (push ==> n < cap) && (pop ==> n > 0)
    ensures var r' := ClassClock(r, Clock(push, pop, false), cap);
            var n1 := if pop then n - 1 else n;
            var n2 := if push then n1 + 1 else n1;
      && r'.rd == (if pop then Wrap(r.rd + 1, cap) else r.rd) && r'.rd < 2 * cap
      && r'.wr == Wrap(r'.rd + n2, cap)
      && r'.wr2 == Wrap(r'.rd + n1, cap)
  {
    WrapTwice(r.rd, n, cap);
    if pop {
      WrapOne(r.rd, n - 1, cap);
      WrapOne(r.rd, n, cap);
    }
  }

  lemma WrapOne(rd: nat, n: nat, cap: nat)
    requires rd < 2 * cap && n < 2 * cap
    ensures Wrap(Wrap(rd + 1, cap) + n, cap) == Wrap(rd + (n + 1), cap)
  {
  }

  lemma WrapTwice(rd: nat, n: nat, cap: nat)
    requires rd < 2 * cap && n < 2 * cap
    ensures Wrap(Wrap(rd + n, cap) + 1, cap) == Wrap(rd + (n + 1), cap)
  {
  }

  /** A queue that is reset with its write index at zero, or a second time, is empty. */
  lemma ResetHolds<T>(r: Regs, mem: seq<T>, c: Clock, block: bool, cap: nat)
    requires cap > 0 && |mem| == cap && c.reset
    ensures Holds(ClassClock(r, c, cap), mem, [], 0, block, cap) <==> !block || r.wr == 0
  {
  }

  class HtQue<T(0)> {
    const block: bool
    const bits: nat
    const que: array<T>
    var pushData: T
    var rdIdx: nat
    var wrIdx: nat
    var cmpWrIdx: nat
    var cmpRdIdx: nat
    var cmpWrIdx2: nat
    var bPop: bool
    var bPush: bool
    var wasReset: bool
    ghost var entries: seq<T>
    ghost var seen: nat

    ghost function Cap(): nat
    {
      Pow2(bits)
    }

    ghost function R(): Regs
      reads this
    {
      Regs(cmpWrIdx, cmpRdIdx, cmpWrIdx2)
    }

    /** Indices in range, as they are at any time. */
    ghost predicate InRange()
      reads this
    {
      && que.Length == Cap() && RegsOk(R(), Cap())
      && (wasReset ==> Slot(wrIdx, Cap()) == Slot(cmpWrIdx, Cap()) < Cap() && Slot(rdIdx, Cap()) == Slot(cmpRdIdx, Cap()) < Cap())
      && (!wasReset ==> !bPush && !bPop && R() == Regs(0, 0, 0))
    }

    /** The queue holds its entries. */
    ghost predicate Valid()
      reads this, que
    {
      && InRange() && wasReset && Holds(R(), que[..], entries, seen, block, Cap())
      && (bPush ==> |entries| < Cap()) && (bPop ==> seen > 0)
    }

    constructor (block: bool, bits: nat)
      requires bits < if block then 18 else 10
      ensures InRange() && !wasReset && fresh(que) && this.block == block && this.bits == bits
    {
      this.block, this.bits := block, bits;
      que := new T[Pow2(bits)];
      rdIdx, wrIdx, cmpWrIdx, cmpRdIdx, cmpWrIdx2 := 0, 0, 0, 0, 0;
      bPop, bPush, wasReset := false, false, false;
      entries, seen := [], 0;
      pushData := *;
    }

    /** Push asks for room, and does nothing before the first reset. */
    method Push(data: T)
      requires InRange() && (wasReset ==> Valid() && !bPush && |entries| < Cap())
      modifies this`bPush, this`pushData
      ensures if wasReset then Valid() && bPush && pushData == data else InRange()
    {
      if wasReset {
        bPush := true;
        pushData := data;
      }
    }

    method Pop()
      requires InRange() && (wasReset ==> Valid() && !bPop && seen > 0)
      modifies this`bPop
      ensures if wasReset then Valid() && bPop else InRange()
    {
      if wasReset {
        bPop := true;
      }
    }

    method Status() returns (empty: bool, size: int, front: T)
      requires Valid()
      ensures (empty <==> seen == 0) && size == |entries|
      ensures seen > 0 ==> front == entries[0]
    {
      HoldsLook(R(), que[..], entries, seen, block, Cap());
      empty := if block then cmpWrIdx2 == cmpRdIdx else cmpWrIdx == cmpRdIdx;
      size := if cmpWrIdx >= cmpRdIdx then cmpWrIdx - cmpRdIdx else cmpWrIdx + 2 * que.Length - cmpRdIdx;
      front := que[Slot(rdIdx, que.Length)];
    }

    /** A clock: pending pushes and pops take effect. */
    method Tick(reset: bool)
      requires InRange() && (bPush || bPop ==> Valid())
      modifies this, que
      ensures InRange() && !bPush && !bPop && wasReset == (old(wasReset) || reset)
      ensures R() == ClassClock(old(R()), Clock(old(bPush), old(bPop), reset), Cap())
      ensures reset ==> entries == [] && (Valid() <==> !block || old(cmpWrIdx) == 0)
      ensures !reset && old(Valid()) ==> Valid()
      ensures !reset && old(Valid()) ==>
        var push := if old(bPush) then Some(old(pushData)) else None;
        && entries == NextEntries(old(entries), push, old(bPop))
        && seen == NextSeen(old(entries), push, old(bPop), block)
    {
      hide Slot, Wrap, Holds, Pow2, NextEntries, NextSeen;
      ghost var cap := Cap();
      ghost var r, mem := R(), que[..];
      ghost var push := if bPush then Some(pushData) else None;
      if Valid() {
        ClockHolds(r, mem, entries, seen, block, cap, push, bPop);
      }
      ResetHolds(r, mem, Clock(bPush, bPop, true), block, cap);
      if reset {
        entries, seen := [], 0;
      } else {
        entries, seen := NextEntries(entries, push, bPop), NextSeen(entries, push, bPop, block);
      }
      PushClock(reset);
      PopClock(reset);
      wasReset := wasReset || reset;
      assert R() == ClassClock(r, Clock(old(bPush), old(bPop), reset), cap);
    }

    method PushClock(reset: bool)
      requires que.Length == Cap() && cmpWrIdx < 2 * Cap() && (bPush ==> Slot(wrIdx, Cap()) == Slot(cmpWrIdx, Cap()) < Cap())
      modifies this`cmpWrIdx, this`cmpWrIdx2, this`wrIdx, this`bPush, que
      ensures cmpWrIdx2 == old(cmpWrIdx) && !bPush
      ensures cmpWrIdx == (if reset then 0 else if old(bPush) then Wrap(old(cmpWrIdx) + 1, Cap()) else old(cmpWrIdx))
      ensures cmpWrIdx < 2 * Cap() && Slot(wrIdx, Cap()) == Slot(cmpWrIdx, Cap()) < Cap()
      ensures que[..] == if old(bPush) && !reset then old(que[..])[Slot(old(cmpWrIdx), Cap()) := pushData] else old(que[..])
    {
      hide Pow2;
      // the delayed index takes the old value, also on reset
      cmpWrIdx2 := cmpWrIdx;
      if reset {
        wrIdx := 0;
      } else if bPush {
        que[Slot(wrIdx, que.Length)] := pushData;
        wrIdx := cmpWrIdx + 1;
      } else {
        wrIdx := cmpWrIdx;
      }
      cmpWrIdx := Wrap(wrIdx, que.Length);
      bPush := false;
    }

    method PopClock(reset: bool)
      requires que.Length == Cap() && cmpRdIdx < 2 * Cap()
      modifies this`cmpRdIdx, this`rdIdx, this`bPop
      ensures cmpRdIdx == (if reset then 0 else if old(bPop) then Wrap(old(cmpRdIdx) + 1, Cap()) else old(cmpRdIdx))
      ensures cmpRdIdx < 2 * Cap() && Slot(rdIdx, Cap()) == Slot(cmpRdIdx, Cap()) < Cap() && !bPop
    {
      hide Pow2;
      rdIdx := if reset then 0 else if bPop then cmpRdIdx + 1 else cmpRdIdx;
      cmpRdIdx := Wrap(rdIdx, que.Length);
      bPop := false;
    }
  }
}
