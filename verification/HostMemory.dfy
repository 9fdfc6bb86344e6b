/** The host memory of the interface: one allocation in which every region gets its place.  Regions
    are sorted by NUMA set and size, largest first, and laid one behind the other; each set starts
    on a boundary of two megabytes. */
module HostMemory {

  import opened Powers

  const PAGE: nat := 0x20_0000
  const SIZE_LIMIT: nat := 0x100_0000_0000_0000
  const MAX_SETS: nat := 255

  datatype Region = Region(size: nat, numaSet: nat)

  predicate RegionsOk(rs: seq<Region>) {
    forall i :: 0 <= i < |rs| ==> rs[i].size < SIZE_LIMIT && rs[i].numaSet < MAX_SETS
  }

  /** The size in the low 56 bits and the NUMA set above. */
  function SortKey(r: Region): nat { r.numaSet * SIZE_LIMIT + r.size }

  function RoundUp(x: nat): nat {
    (x + PAGE - 1) / PAGE * PAGE
  }

  lemma RoundedUp(x: nat)
    ensures x <= RoundUp(x) < x + PAGE && RoundUp(x) % PAGE == 0
  {
  }

  /** `p` lists each of the regions once. */
  predicate Permutation(p: seq<nat>, n: nat) {
    && |p| == n
    && (forall i :: 0 <= i < n ==> p[i] < n)
    && (forall i, j :: 0 <= i < j < n ==> p[i] != p[j])
  }

  predicate Sorted(p: seq<nat>, rs: seq<Region>)
    requires forall i :: 0 <= i < |p| ==> p[i] < |rs|
  {
    forall i, j :: 0 <= i < j < |p| ==> SortKey(rs[p[i]]) >= SortKey(rs[p[j]])
  }

  /** The first `i` places hold the largest keys, in order. */
  predicate Done(p: seq<nat>, rs: seq<Region>, i: nat)
    requires forall k :: 0 <= k < |p| ==> p[k] < |rs|
  {
    forall k, l :: 0 <= k < i && k < l < |p| ==> SortKey(rs[p[k]]) >= SortKey(rs[p[l]])
  }

  /** Place `i` holds the largest key up to place `j`. */
  predicate Largest(p: seq<nat>, rs: seq<Region>, i: nat, j: nat)
    requires i < |p| && forall k :: 0 <= k < |p| ==> p[k] < |rs|
  {
    forall l :: i < l < j && l < |p| ==> SortKey(rs[p[i]]) >= SortKey(rs[p[l]])
  }

  /** The exchange sort of the pointers. */
  method SortPointers(p: array<nat>, rs: seq<Region>)
    requires Permutation(p[..], |rs|)
    modifies p
    ensures Permutation(p[..], |rs|) && Sorted(p[..], rs)
  {
    hide SortKey, Done, Largest;
    var n := |rs|;
    assert Done(p[..], rs, 0) by { NothingDone(p[..], rs); }
    for i := 0 to n
      invariant p.Length == n && Permutation(p[..], n) && Done(p[..], rs, i)
    {
      assert Largest(p[..], rs, i, i + 1) by { NothingSeen(p[..], rs, i); }
      for j := i + 1 to n
        invariant p.Length == n && Permutation(p[..], n) && Done(p[..], rs, i) && Largest(p[..], rs, i, j)
      {
        Compared(p[..], rs, i, j);
        if SortKey(rs[p[i]]) < SortKey(rs[p[j]]) {
          ghost var was := p[..];
          p[i], p[j] := p[j], p[i];
          assert p[..] == was[i := was[j]][j := was[i]];
        }
      }
      OneMoreDone(p[..], rs, i);
    }
    AllDone(p[..], rs);
  }

  lemma NothingDone(p: seq<nat>, rs: seq<Region>)
    requires forall k :: 0 <= k < |p| ==> p[k] < |rs|
    ensures Done(p, rs, 0)
  {
  }

  lemma NothingSeen(p: seq<nat>, rs: seq<Region>, i: nat)
    requires i < |p| && forall k :: 0 <= k < |p| ==> p[k] < |rs|
    ensures Largest(p, rs, i, i + 1)
  {
  }

  /** One comparison, with the exchange if there is one. */
  lemma Compared(p: seq<nat>, rs: seq<Region>, i: nat, j: nat)
    requires Permutation(p, |rs|) && i < j < |p| && Done(p, rs, i) && Largest(p, rs, i, j)
    ensures SortKey(rs[p[i]]) >= SortKey(rs[p[j]]) ==> Largest(p, rs, i, j + 1)
    ensures SortKey(rs[p[i]]) < SortKey(rs[p[j]]) ==>
              var q := p[i := p[j]][j := p[i]];
              Permutation(q, |rs|) && Done(q, rs, i) && Largest(q, rs, i, j + 1)
  {
    hide SortKey;
  }

  lemma OneMoreDone(p: seq<nat>, rs: seq<Region>, i: nat)
    requires Permutation(p, |rs|) && i < |p| && Done(p, rs, i) && Largest(p, rs, i, |p|)
    ensures Done(p, rs, i + 1)
  {
    hide SortKey;
  }

  lemma AllDone(p: seq<nat>, rs: seq<Region>)
    requires Permutation(p, |rs|) && Done(p, rs, |p|)
    ensures Sorted(p, rs)
  {
    hide SortKey;
  }

  // ------------------------------------------------------------------------------------------
  // Offsets
  // ------------------------------------------------------------------------------------------

  /** The first free byte behind the first `k` regions of the order `p`. */
  function End(p: seq<nat>, rs: seq<Region>, k: nat): nat
    requires k <= |p| == |rs| && Permutation(p, |rs|)
    decreases k, 0
  {
    if k == 0 then 0 else Offset(p, rs, k - 1) + rs[p[k - 1]].size
  }

  /** Where the region number `k` in the order goes. */
  function Offset(p: seq<nat>, rs: seq<Region>, k: nat): nat
    requires k < |p| == |rs| && Permutation(p, |rs|)
    decreases k, 1
  {
    if k == 0 || rs[p[k]].numaSet != rs[p[k - 1]].numaSet then RoundUp(End(p, rs, k)) else End(p, rs, k)
  }

  /** The first `k` regions of the order have their offsets. */
  ghost predicate Placed(o: seq<nat>, p: seq<nat>, rs: seq<Region>, k: nat)
    requires k <= |p| == |rs| == |o| && Permutation(p, |rs|)
  {
    forall i :: 0 <= i < k ==> o[p[i]] == Offset(p, rs, i)
  }

  lemma PlaceOne(o: seq<nat>, p: seq<nat>, rs: seq<Region>, k: nat)
    requires k < |p| == |rs| == |o| && Permutation(p, |rs|) && Placed(o, p, rs, k)
    ensures p[k] < |o| && Placed(o[p[k] := Offset(p, rs, k)], p, rs, k + 1)
  {
    hide Offset;
  }

  lemma PermutationLength(p: seq<nat>, n: nat)
    requires Permutation(p, n)
    ensures |p| == n
  {
  }

  lemma NonePlaced(o: seq<nat>, p: seq<nat>, rs: seq<Region>)
    requires |p| == |rs| == |o| && Permutation(p, |rs|)
    ensures Placed(o, p, rs, 0)
  {
  }

  lemma SetInRange(p: seq<nat>, rs: seq<Region>, i: nat)
    requires Permutation(p, |rs|) && RegionsOk(rs) && i < |p|
    ensures p[i] < |rs| && rs[p[i]].numaSet < MAX_SETS
  {
  }

  /** Offsets for all regions, and the size of the whole. */
  method Layout(p: seq<nat>, rs: seq<Region>) returns (offsets: array<nat>, memSize: nat)
    requires Permutation(p, |rs|) && RegionsOk(rs)
    ensures offsets.Length == |rs| && fresh(offsets)
    ensures Placed(offsets[..], p, rs, |rs|)
    ensures memSize == RoundUp(End(p, rs, |rs|))
  {
    hide End, Offset, RoundUp, Placed, Permutation, RegionsOk;
    PermutationLength(p, |rs|);
    offsets := new nat[|rs|];
    var offset: nat, prevNumaSet: nat := 0, MAX_SETS;
    EndStep(p, rs, 0);
    NonePlaced(offsets[..], p, rs);
    for i := 0 to |rs|
      invariant |p| == |rs| && (i > 0 ==> p[i - 1] < |rs|) && offset == End(p, rs, i)
      invariant prevNumaSet == if i > 0 then rs[p[i - 1]].numaSet else MAX_SETS
      invariant Placed(offsets[..], p, rs, i)
    {
      EndStep(p, rs, i);
      EndStep(p, rs, i + 1);
      SetInRange(p, rs, i);
      if rs[p[i]].numaSet != prevNumaSet {
        offset := RoundUp(offset);
        prevNumaSet := rs[p[i]].numaSet;
      }
      SetMemOffset(offsets, p, rs, i, offset);
      offset := offset + rs[p[i]].size;
    }
    memSize := RoundUp(offset);
  }

  method SetMemOffset(offsets: array<nat>, p: seq<nat>, rs: seq<Region>, k: nat, offset: nat)
    requires k < |p| == |rs| == offsets.Length && Permutation(p, |rs|)
    requires Placed(offsets[..], p, rs, k) && offset == Offset(p, rs, k)
    modifies offsets
    ensures Placed(offsets[..], p, rs, k + 1)
  {
    hide Offset, Placed;
    PlaceOne(offsets[..], p, rs, k);
    ghost var was := offsets[..];
    offsets[p[k]] := offset;
    assert offsets[..] == was[p[k] := offset];
  }

  lemma EndStep(p: seq<nat>, rs: seq<Region>, k: nat)
    requires k <= |p| == |rs| && Permutation(p, |rs|)
    ensures End(p, rs, 0) == 0
    ensures k < |p| ==>
      Offset(p, rs, k) == if k == 0 || rs[p[k]].numaSet != rs[p[k - 1]].numaSet then RoundUp(End(p, rs, k)) else End(p, rs, k)
    ensures k > 0 ==> End(p, rs, k) == Offset(p, rs, k - 1) + rs[p[k - 1]].size
    ensures k < |p| ==> Offset(p, rs, k) >= End(p, rs, k)
  {
    RoundedUp(End(p, rs, k));
    hide RoundUp;
  }

  /** One region ends before a later one starts. */
  lemma {:induction false} OneBehindOther(p: seq<nat>, rs: seq<Region>, i: nat, k: nat)
    requires i < k <= |p| == |rs| && Permutation(p, |rs|)
    ensures Offset(p, rs, i) + rs[p[i]].size <= End(p, rs, k)
    ensures k < |p| ==> Offset(p, rs, i) + rs[p[i]].size <= Offset(p, rs, k)
    decreases k
  {
    hide RoundUp;
    EndStep(p, rs, k);
    if i + 1 < k {
      OneBehindOther(p, rs, i, k - 1);
    }
  }

  /** Inside a set each region begins where the one before ends. */
  lemma NoGaps(p: seq<nat>, rs: seq<Region>, k: nat)
    requires Permutation(p, |rs|) && 0 < k < |rs| && rs[p[k]].numaSet == rs[p[k - 1]].numaSet
    ensures Offset(p, rs, k) == Offset(p, rs, k - 1) + rs[p[k - 1]].size
  {
    hide RoundUp;
  }

  /** Less than 2 MB is left between two sets, and behind the last region. */
  lemma NoWaste(p: seq<nat>, rs: seq<Region>, k: nat)
    requires Permutation(p, |rs|) && 0 < k < |rs|
    ensures Offset(p, rs, k) < Offset(p, rs, k - 1) + rs[p[k - 1]].size + 0x20_0000
    ensures RoundUp(End(p, rs, |rs|)) < Offset(p, rs, |rs| - 1) + rs[p[|rs| - 1]].size + 0x20_0000
    ensures Offset(p, rs, 0) == 0
  {
    RoundedUp(End(p, rs, k));
    RoundedUp(End(p, rs, |rs|));
    RoundedUp(0);
    hide RoundUp;
  }

  /** Regions do not overlap. */
  lemma RegionsDisjoint(p: seq<nat>, rs: seq<Region>, i: nat, k: nat)
    requires Permutation(p, |rs|) && i < |rs| && k < |rs| && i != k
    ensures Offset(p, rs, i) + rs[p[i]].size <= Offset(p, rs, k) || Offset(p, rs, k) + rs[p[k]].size <= Offset(p, rs, i)
  {
    if i < k { OneBehindOther(p, rs, i, k); } else { OneBehindOther(p, rs, k, i); }
  }

  /** A region lies within the allocation. */
  lemma RegionWithin(p: seq<nat>, rs: seq<Region>, i: nat)
    requires Permutation(p, |rs|) && i < |rs|
    ensures Offset(p, rs, i) + rs[p[i]].size <= RoundUp(End(p, rs, |rs|))
  {
    OneBehindOther(p, rs, i, |rs|);
    RoundedUp(End(p, rs, |rs|));
  }

  lemma KeyOrder(a: Region, b: Region)
    requires a.size < SIZE_LIMIT && b.size < SIZE_LIMIT && SortKey(a) >= SortKey(b)
    ensures a.numaSet >= b.numaSet && (a.numaSet == b.numaSet ==> a.size >= b.size)
  {
  }

  /** The regions between two of the same NUMA set are of that set: each set is one run. */
  lemma SetIsOneRun(p: seq<nat>, rs: seq<Region>, i: nat, j: nat, k: nat)
    requires Permutation(p, |rs|) && Sorted(p, rs) && RegionsOk(rs)
    requires i <= j <= k < |rs| && rs[p[i]].numaSet == rs[p[k]].numaSet
    ensures rs[p[j]].numaSet == rs[p[i]].numaSet && rs[p[i]].size >= rs[p[j]].size >= rs[p[k]].size
  {
    KeyOrder(rs[p[i]], rs[p[j]]);
    KeyOrder(rs[p[j]], rs[p[k]]);
  }

  /** The first region of a set starts on a boundary. */
  lemma SetStart(p: seq<nat>, rs: seq<Region>, k: nat)
    requires Permutation(p, |rs|) && k < |rs|
    requires k == 0 || rs[p[k]].numaSet != rs[p[k - 1]].numaSet
    ensures Offset(p, rs, k) % PAGE == 0
  {
    RoundedUp(End(p, rs, k));
  }

  // ------------------------------------------------------------------------------------------
  // Alignment
  // ------------------------------------------------------------------------------------------

  ghost predicate Divides(d: nat, x: int) {
    exists q :: x == d * q
  }

  lemma DividesSum(d: nat, x: int, y: int)
    requires Divides(d, x) && Divides(d, y)
    ensures Divides(d, x + y)
  {
    var a :| x == d * a;
    var b :| y == d * b;
    assert x + y == d * (a + b);
  }

  lemma DividesTrans(c: nat, d: nat, x: int)
    requires Divides(c, d) && Divides(d, x)
    ensures Divides(c, x)
  {
    var a :| d == c * a;
    var b :| x == d * b;
    Associative(c, a, b);
    assert x == c * (a * b);
  }

  lemma Associative(c: int, a: int, b: int)
    ensures (c * a) * b == c * (a * b)
  {
  }

  lemma {:induction false} PowersDivide(a: nat, b: nat)
    requires a <= b
    ensures Divides(Pow2(a), Pow2(b))
    decreases b
  {
    if a == b {
      assert Pow2(b) == Pow2(a) * 1;
    } else {
      PowersDivide(a, b - 1);
      var q :| Pow2(b - 1) == Pow2(a) * q;
      assert Pow2(b) == Pow2(a) * (2 * q);
    }
  }

  lemma {:induction false} PowersGrow(a: nat, b: nat)
    requires Pow2(a) <= Pow2(b)
    ensures a <= b
  {
    if a > b {
      Larger(b, a);
    }
  }

  lemma {:induction false} Larger(b: nat, a: nat)
    requires b < a
    ensures Pow2(b) < Pow2(a)
    decreases a
  {
    if b + 1 < a { Larger(b, a - 1); }
  }

  lemma PageIsPower()
    ensures Pow2(21) == PAGE
  {
    assert Pow2(10) == 1024;
    assert Pow2(20) == 1024 * 1024 by { PowersAdd(10, 10); }
  }

  lemma {:induction false} PowersAdd(a: nat, b: nat)
    ensures Pow2(a + b) == Pow2(a) * Pow2(b)
    decreases b
  {
    if b > 0 {
      PowersAdd(a, b - 1);
      Associative(2, Pow2(a), Pow2(b - 1));
      Associative(Pow2(a), 2, Pow2(b - 1));
    }
  }

  /** The smaller of two powers of two divides both. */
  function Alignment(w: nat): nat { if w < 21 then Pow2(w) else PAGE }

  lemma AlignmentDivides(w: nat, v: nat)
    requires Pow2(w) <= Pow2(v)
    ensures Divides(Alignment(w), PAGE) && Divides(Alignment(w), Pow2(v)) && Divides(Alignment(w), Alignment(v))
  {
    PageIsPower();
    PowersGrow(w, v);
    var u := if w < 21 then w else 21;
    PowersDivide(u, 21);
    PowersDivide(u, v);
    PowersDivide(u, if v < 21 then v else 21);
  }

  /** All sizes in the run of region `k`'s set up to `k` are powers of two: then region `k` is aligned
      to its size, or to two megabytes when it is larger. */
  lemma {:induction false} PowersAligned(p: seq<nat>, rs: seq<Region>, w: seq<nat>, k: nat)
    requires Permutation(p, |rs|) && Sorted(p, rs) && RegionsOk(rs) && k < |rs| == |w|
    requires forall i :: 0 <= i <= k && rs[p[i]].numaSet == rs[p[k]].numaSet ==> rs[p[i]].size == Pow2(w[i])
    ensures Divides(Alignment(w[k]), Offset(p, rs, k))
    decreases k
  {
    if k == 0 || rs[p[k]].numaSet != rs[p[k - 1]].numaSet {
      SetStart(p, rs, k);
      PageDivides(Offset(p, rs, k));
      AlignmentDivides(w[k], w[k]);
      DividesTrans(Alignment(w[k]), PAGE, Offset(p, rs, k));
    } else {
      PowersAligned(p, rs, w, k - 1);
      EndStep(p, rs, k);
      KeyOrder(rs[p[k - 1]], rs[p[k]]);
      AlignmentDivides(w[k], w[k - 1]);
      DividesTrans(Alignment(w[k]), Alignment(w[k - 1]), Offset(p, rs, k - 1));
      DividesSum(Alignment(w[k]), Offset(p, rs, k - 1), rs[p[k - 1]].size);
    }
  }

  lemma PageDivides(x: nat)
    requires x % PAGE == 0
    ensures Divides(PAGE, x)
  {
    assert x == PAGE * (x / PAGE);
  }

  // ------------------------------------------------------------------------------------------
  // Units
  // ------------------------------------------------------------------------------------------

  datatype AeAu = AeAu(ae: nat, au: nat)

  /** The map from units to places on the coprocessor: unit after unit over all engines. */
  method UnitMap(aeCnt: nat, auCnt: nat) returns (map_: seq<AeAu>)
    ensures |map_| == auCnt * aeCnt
    ensures forall u :: 0 <= u < |map_| ==> map_[u].ae < aeCnt && map_[u].au < auCnt && u == map_[u].au * aeCnt + map_[u].ae
  {
    map_ := [];
    for auId := 0 to auCnt
      invariant |map_| == auId * aeCnt
      invariant forall u :: 0 <= u < |map_| ==> map_[u].ae < aeCnt && map_[u].au < auId && u == map_[u].au * aeCnt + map_[u].ae
    {
      for aeId := 0 to aeCnt
        invariant |map_| == auId * aeCnt + aeId
        invariant forall u :: 0 <= u < |map_| ==> map_[u].ae < aeCnt && map_[u].au <= auId && u == map_[u].au * aeCnt + map_[u].ae
      {
        map_ := map_ + [AeAu(aeId, auId)];
      }
    }
  }

  lemma Times(x: nat, y: nat, c: nat)
    requires x < y
    ensures x * c + c <= y * c
  {
    var k := y - x;
    assert k * c == y * c - x * c;
    Multiple(k, c);
  }

  lemma Multiple(k: nat, c: nat)
    requires k >= 1
    ensures k * c >= c
  {
  }

  /** The control queues of two units on the same engine do not overlap and lie in the engine's
      region; units at the same place are one unit. */
  lemma ControlQueuesDisjoint(aeCnt: nat, auCnt: nat, queSize: nat, u1: nat, u2: nat, a: AeAu, b: AeAu)
    requires a.ae < aeCnt && a.au < auCnt && u1 == a.au * aeCnt + a.ae
    requires b.ae < aeCnt && b.au < auCnt && u2 == b.au * aeCnt + b.ae
    requires u1 != u2 && a.ae == b.ae
    ensures a.au != b.au
    ensures a.au * queSize + queSize <= b.au * queSize || b.au * queSize + queSize <= a.au * queSize
    ensures a.au * queSize + queSize <= auCnt * queSize
  {
    if a.au < b.au { Times(a.au, b.au, queSize); } else if b.au < a.au { Times(b.au, a.au, queSize); }
    Times(a.au, auCnt, queSize);
  }

  // ------------------------------------------------------------------------------------------
  // The allocation
  // ------------------------------------------------------------------------------------------

  function Elems(p: seq<nat>): set<nat> {
    if p == [] then {} else Elems(p[..|p| - 1]) + {p[|p| - 1]}
  }

  function UpTo(n: nat): set<nat> {
    if n == 0 then {} else UpTo(n - 1) + {n - 1}
  }

  lemma {:induction false} DistinctCount(p: seq<nat>)
    requires forall i, j :: 0 <= i < j < |p| ==> p[i] != p[j]
    ensures |Elems(p)| == |p| && forall x: nat :: x in Elems(p) <==> x in p
  {
    if p != [] {
      var n := |p| - 1;
      var q, x := p[..n], p[n];
      assert Elems(p) == Elems(q) + {x};
      hide Elems;
      assert p == q + [x];
      DistinctCount(q);
      assert x !in q;
      assert forall y: nat :: y in p <==> y in q || y == x;
    }
  }

  lemma {:induction false} RangeCount(n: nat)
    ensures |UpTo(n)| == n && forall x: nat :: x in UpTo(n) <==> x < n
  {
    if n > 0 { RangeCount(n - 1); }
  }

  lemma {:induction false} SubsetCount(a: set<nat>, b: set<nat>)
    requires a <= b
    ensures |a| <= |b|
  {
    if a != {} {
      var x :| x in a;
      SubsetCount(a - {x}, b - {x});
    }
  }

  /** Every region is somewhere in the order. */
  lemma Onto(p: seq<nat>, n: nat, a: nat) returns (i: nat)
    requires Permutation(p, n) && a < n
    ensures i < n && p[i] == a
  {
    DistinctCount(p);
    RangeCount(n);
    if a !in p {
      SubsetCount(Elems(p), UpTo(n) - {a});
    }
    i :| 0 <= i < |p| && p[i] == a;
  }

  /** Any two regions of the allocation are apart. */
  lemma RegionsApart(o: seq<nat>, p: seq<nat>, rs: seq<Region>, a: nat, b: nat)
    requires Permutation(p, |rs|) && |o| == |rs| == |p| && Placed(o, p, rs, |rs|)
    requires a < |rs| && b < |rs| && a != b
    ensures TwoApart(o, rs, a, b)
  {
    hide Offset, End, RoundUp;
    var i := Onto(p, |rs|, a);
    var k := Onto(p, |rs|, b);
    RegionsDisjoint(p, rs, i, k);
  }

  /** Every region lies within the allocation, also when it is the only one. */
  lemma RegionsWithin(o: seq<nat>, p: seq<nat>, rs: seq<Region>, a: nat)
    requires Permutation(p, |rs|) && |o| == |rs| == |p| && Placed(o, p, rs, |rs|) && a < |rs|
    ensures Within(o, rs, RoundUp(End(p, rs, |rs|)), a)
  {
    hide Offset, End, RoundUp;
    var i := Onto(p, |rs|, a);
    RegionWithin(p, rs, i);
  }

  predicate TwoApart(o: seq<nat>, rs: seq<Region>, a: nat, b: nat)
    requires |o| == |rs| && a < |rs| && b < |rs|
  {
    o[a] + rs[a].size <= o[b] || o[b] + rs[b].size <= o[a]
  }

  predicate Within(o: seq<nat>, rs: seq<Region>, memSize: nat, a: nat)
    requires |o| == |rs| && a < |rs|
  {
    o[a] + rs[a].size <= memSize
  }

  ghost predicate Apart(o: seq<nat>, rs: seq<Region>, memSize: nat)
    requires |o| == |rs|
  {
    && (forall a, b :: 0 <= a < |rs| && 0 <= b < |rs| && a != b ==> TwoApart(o, rs, a, b))
    && (forall a :: 0 <= a < |rs| ==> Within(o, rs, memSize, a))
  }

  lemma AllApart(o: seq<nat>, p: seq<nat>, rs: seq<Region>)
    requires Permutation(p, |rs|) && |o| == |rs| == |p| && Placed(o, p, rs, |rs|)
    ensures Apart(o, rs, RoundUp(End(p, rs, |rs|))) && RoundUp(End(p, rs, |rs|)) % PAGE == 0
  {
    hide Offset, End, RoundUp, Placed, Permutation, TwoApart, Within;
    var memSize := RoundUp(End(p, rs, |rs|));
    RoundedUp(End(p, rs, |rs|));
    forall a, b | 0 <= a < |rs| && 0 <= b < |rs| && a != b
      ensures TwoApart(o, rs, a, b)
    {
      RegionsApart(o, p, rs, a, b);
    }
    forall a | 0 <= a < |rs|
      ensures Within(o, rs, memSize, a)
    {
      RegionsWithin(o, p, rs, a);
    }
  }

  /** Sorting, then laying out. */
  method AllocHifMem(rs: seq<Region>) returns (offsets: array<nat>, memSize: nat, ghost p: seq<nat>)
    requires RegionsOk(rs)
    ensures Permutation(p, |rs|) && Sorted(p, rs)
    ensures offsets.Length == |rs| && Placed(offsets[..], p, rs, |rs|)
    ensures Apart(offsets[..], rs, memSize) && memSize % PAGE == 0
  {
    hide Offset, End, RoundUp, Placed, Sorted, Apart;
    var ptrs := new nat[|rs|](i => i);
    SortPointers(ptrs, rs);
    p := ptrs[..];
    offsets, memSize := Layout(ptrs[..], rs);
    AllApart(offsets[..], p, rs);
  }
}
