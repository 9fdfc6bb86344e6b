/** The map of valid address ranges: ranges that overlap or touch are merged on insertion. */
module AddrRanges {

  /** Addresses from `base` up to, and not including, `end`. */
  datatype Range = Range(base: nat, end: nat, coproc: bool)

  const LIMIT: nat := 0x1_0000_0000_0000_0000

  predicate Has(r: Range, x: int) { r.base <= x < r.end }

  predicate Covered(s: seq<Range>, x: int) {
    exists i :: 0 <= i < |s| && Has(s[i], x)
  }

  /** In ascending order, none of them empty, with a gap between neighbours. */
  predicate Separate(s: seq<Range>) {
    && (forall i :: 0 <= i < |s| ==> s[i].base < s[i].end)
    && (forall i, j :: 0 <= i < j < |s| ==> s[i].end < s[j].base)
  }

  /** The ranges have an address in common or are neighbours. */
  predicate Touch(a: Range, b: Range) { a.base <= b.end && b.base <= a.end }

  /** `r` has the flag of the last of the inserted ranges that it is made of. */
  ghost predicate LastFlag(r: Range, ins: seq<Range>) {
    exists j :: 0 <= j < |ins| && Within(ins[j], r) && ins[j].coproc == r.coproc
      && forall k :: j < k < |ins| ==> !Touch(ins[k], r)
  }

  predicate Within(a: Range, b: Range) { b.base <= a.base && a.end <= b.end }

  lemma CoveredAppend(a: seq<Range>, b: seq<Range>, x: int)
    ensures Covered(a + b, x) <==> Covered(a, x) || Covered(b, x)
  {
    if Covered(a, x) {
      var i :| 0 <= i < |a| && Has(a[i], x);
      assert (a + b)[i] == a[i];
    }
    if Covered(b, x) {
      var i :| 0 <= i < |b| && Has(b[i], x);
      assert (a + b)[|a| + i] == b[i];
    }
  }

  /** Another insertion away from `r` does not matter to it. */
  lemma FlagStays(r: Range, ins: seq<Range>, n: Range)
    requires LastFlag(r, ins) && !Touch(n, r)
    ensures LastFlag(r, ins + [n])
  {
    var j :| 0 <= j < |ins| && Within(ins[j], r) && ins[j].coproc == r.coproc
             && forall k :: j < k < |ins| ==> !Touch(ins[k], r);
    assert (ins + [n])[j] == ins[j];
  }

  lemma FlagNew(r: Range, ins: seq<Range>, n: Range)
    requires Within(n, r) && n.coproc == r.coproc
    ensures LastFlag(r, ins + [n])
  {
    assert (ins + [n])[|ins|] == n;
  }

  lemma Without(s: seq<Range>, i: nat, x: int)
    requires i < |s|
    ensures Covered(s, x) <==> Covered(s[..i] + s[i + 1..], x) || Has(s[i], x)
  {
    hide Has;
    assert s == s[..i] + ([s[i]] + s[i + 1..]);
    CoveredAppend(s[..i], [s[i]] + s[i + 1..], x);
    CoveredAppend([s[i]], s[i + 1..], x);
    CoveredAppend(s[..i], s[i + 1..], x);
    CoveredOne(s[i], x);
  }

  lemma CoveredOne(r: Range, x: int)
    ensures Covered([r], x) <==> Has(r, x)
  {
    assert [r][0] == r;
  }

  /** The ranges `s` and the addresses from `b` to `e` are the ranges `ins` and `n`. */
  ghost predicate Same(s: seq<Range>, b: nat, e: nat, ins: seq<Range>, n: Range) {
    forall x :: Covered(s, x) || b <= x < e <==> Covered(ins, x) || Has(n, x)
  }

  function Min(a: nat, b: nat): nat { if a < b then a else b }

  function Max(a: nat, b: nat): nat { if a < b then b else a }

  /** A range that overlaps or touches is taken over. */
  lemma TakenOver(s: seq<Range>, i: nat, b: nat, e: nat, ins: seq<Range>, n: Range)
    requires Same(s, b, e, ins, n) && i < |s| && s[i].base <= e && b <= s[i].end && b < e
    ensures Same(s[..i] + s[i + 1..], Min(b, s[i].base), Max(e, s[i].end), ins, n)
  {
    hide Covered;
    forall x
      ensures Covered(s[..i] + s[i + 1..], x) || Min(b, s[i].base) <= x < Max(e, s[i].end) <==> Covered(ins, x) || Has(n, x)
    {
      Without(s, i, x);
      assert Covered(s, x) || b <= x < e <==> Covered(ins, x) || Has(n, x);
    }
  }

  lemma StillSeparate(s: seq<Range>, i: nat)
    requires Separate(s) && i < |s|
    ensures Separate(s[..i] + s[i + 1..])
  {
    var z := s[..i] + s[i + 1..];
    assert forall k :: 0 <= k < |z| ==> z[k] == s[if k < i then k else k + 1];
  }

  /** A range put between others. */
  function Put(s: seq<Range>, r: Range, i: nat): seq<Range>
    requires i <= |s|
  {
    s[..i] + [r] + s[i..]
  }

  predicate Fits(s: seq<Range>, r: Range, i: nat) {
    && i <= |s| && r.base < r.end
    && (forall k :: 0 <= k < i ==> s[k].end < r.base) && (forall k :: i <= k < |s| ==> r.end < s[k].base)
  }

  lemma PutSeparate(s: seq<Range>, r: Range, i: nat)
    requires Separate(s) && Fits(s, r, i)
    ensures Separate(Put(s, r, i)) && Put(s, r, i)[i] == r
    ensures forall k :: 0 <= k <= |s| && k != i ==> Put(s, r, i)[k] == s[if k < i then k else k - 1] && !Touch(r, Put(s, r, i)[k])
  {
    var z := Put(s, r, i);
    assert forall k :: 0 <= k < i ==> z[k] == s[k];
    assert forall k :: i < k < |z| ==> z[k] == s[k - 1];
  }

  lemma PutCovers(s: seq<Range>, r: Range, i: nat, ins: seq<Range>, n: Range)
    requires i <= |s| && Same(s, r.base, r.end, ins, n)
    ensures forall x :: Covered(Put(s, r, i), x) <==> Covered(ins + [n], x)
  {
    var z := Put(s, r, i);
    assert z[i] == r && z[..i] + z[i + 1..] == s;
    hide Covered;
    forall x ensures Covered(z, x) <==> Covered(ins + [n], x) {
      Without(z, i, x);
      CoveredAppend(ins, [n], x);
      CoveredOne(n, x);
      assert Covered(s, x) || r.base <= x < r.end <==> Covered(ins, x) || Has(n, x);
    }
  }

  lemma PutFlags(s: seq<Range>, r: Range, i: nat, ins: seq<Range>, n: Range)
    requires Separate(s) && Fits(s, r, i) && Within(n, r) && n.coproc == r.coproc
    requires forall k :: 0 <= k < |s| ==> LastFlag(s[k], ins)
    ensures forall k :: 0 <= k <= |s| ==> LastFlag(Put(s, r, i)[k], ins + [n])
  {
    PutSeparate(s, r, i);
    hide LastFlag, Put;
    forall k | 0 <= k <= |s| ensures LastFlag(Put(s, r, i)[k], ins + [n]) {
      if k == i {
        FlagNew(r, ins, n);
      } else {
        FlagStays(Put(s, r, i)[k], ins, n);
      }
    }
  }

  class AddrRangeMap {
    var ranges: seq<Range>
    ghost var ins: seq<Range>

    ghost predicate Valid()
      reads this
    {
      && Separate(ranges)
      && (forall x :: Covered(ranges, x) <==> Covered(ins, x))
      && (forall i :: 0 <= i < |ranges| ==> LastFlag(ranges[i], ins))
    }

    constructor ()
      ensures Valid() && ranges == [] && ins == []
    {
      ranges, ins := [], [];
    }

    /** A range that is not empty and does not wrap around. */
    method Insert(base: nat, size: nat, coproc: bool)
      requires Valid() && size > 0 && base + size < LIMIT
      modifies this
      ensures Valid() && ins == old(ins) + [Range(base, base + size, coproc)]
    {
      ghost var n := Range(base, base + size, coproc);
      assert Same(ranges, base, base + size, ins, n);
      hide Covered, LastFlag, Same, Touch;
      var b: nat, e: nat, i: nat := base, base + size, 0;
      while i < |ranges| && e >= ranges[i].base
        invariant i <= |ranges| && Separate(ranges) && b <= base && base + size <= e
        invariant forall k :: 0 <= k < i ==> ranges[k].end < b
        invariant ins == old(ins) && Same(ranges, b, e, ins, n)
        invariant forall k :: 0 <= k < |ranges| ==> LastFlag(ranges[k], ins)
        decreases |ranges| - i
      {
        if ranges[i].end < b {
          i := i + 1;
        } else {
          // overlap
          TakenOver(ranges, i, b, e, ins, n);
          StillSeparate(ranges, i);
          b, e := Min(b, ranges[i].base), Max(e, ranges[i].end);
          ranges := ranges[..i] + ranges[i + 1..];
        }
      }
      Place(Range(b, e, coproc), i, n);
      ins := ins + [n];
    }

    /** The merged range goes where the order of the map puts it. */
    method Place(r: Range, ghost i: nat, ghost n: Range)
      requires Separate(ranges) && i <= |ranges| && Within(n, r) && n.coproc == r.coproc && n.base < n.end
      requires (forall k :: 0 <= k < i ==> ranges[k].end < r.base) && (i < |ranges| ==> r.end < ranges[i].base)
      requires Same(ranges, r.base, r.end, ins, n)
      requires forall k :: 0 <= k < |ranges| ==> LastFlag(ranges[k], ins)
      modifies this`ranges
      ensures Separate(ranges) && (forall x :: Covered(ranges, x) <==> Covered(ins + [n], x))
      ensures forall k :: 0 <= k < |ranges| ==> LastFlag(ranges[k], ins + [n])
    {
      hide Covered, LastFlag, Same, Touch;
      assert i < |ranges| ==> forall k :: i < k < |ranges| ==> ranges[i].end < ranges[k].base;
      assert Fits(ranges, r, i);
      var k := LowerBound(r.base);
      assert k < |ranges| ==> ranges[k].end > r.base;
      assert i < |ranges| ==> ranges[i].end > r.base;
      PutSeparate(ranges, r, i);
      PutCovers(ranges, r, i, ins, n);
      PutFlags(ranges, r, i, ins, n);
      ranges := ranges[..k] + [r] + ranges[k..];
    }

    /** The first range that does not end at or before `addr`. */
    method LowerBound(addr: nat) returns (k: nat)
      requires Separate(ranges)
      ensures k <= |ranges| && (forall j :: 0 <= j < k ==> ranges[j].end <= addr)
      ensures forall j :: k <= j < |ranges| ==> ranges[j].end > addr
    {
      k := 0;
      while k < |ranges| && ranges[k].end <= addr
        invariant k <= |ranges| && forall j :: 0 <= j < k ==> ranges[j].end <= addr
      {
        k := k + 1;
      }
      if k < |ranges| {
        assert forall j :: k < j < |ranges| ==> ranges[k].end < ranges[j].base;
      }
    }

    /** Whether the address was ever inserted, and then the flag of the last insertion into the
        range of addresses around it. */
    method Find(addr: nat) returns (found: bool, coproc: bool)
      requires Valid()
      ensures found <==> Covered(ins, addr)
      ensures found ==> exists r :: Has(r, addr) && r in ranges && r.coproc == coproc && LastFlag(r, ins)
    {
      var k := LowerBound(addr);
      found := k < |ranges| && ranges[k].base <= addr && addr < ranges[k].end;
      coproc := false;
      if found {
        coproc := ranges[k].coproc;
        assert Has(ranges[k], addr);
      } else {
        forall j | 0 <= j < |ranges| ensures !Has(ranges[j], addr) {
          if k < j {
            assert ranges[k].end < ranges[j].base;
          }
        }
      }
    }
  }
}
