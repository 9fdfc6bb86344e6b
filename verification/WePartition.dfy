/** The write enables of a distributed RAM: the data bits are divided into intervals, which are split
    so that every range of bits that is ever written starts and ends on a boundary. */
module WePartition {

  datatype Width = Width(high: int, low: int)

  /** The intervals follow each other from bit `from` up to bit `to`, exclusive. */
  predicate Partition(s: seq<Width>, from: int, to: int) {
    if s == [] then from == to
    else s[0].low == from && from <= s[0].high && Partition(s[1..], s[0].high + 1, to)
  }

  /** The bits at which an interval starts. */
  function Starts(s: seq<Width>): set<int> {
    if s == [] then {} else {s[0].low} + Starts(s[1..])
  }

  /** The interval that bit `cut` lies in is divided in front of that bit. */
  function SplitAt(s: seq<Width>, cut: int): seq<Width> {
    if s == [] || cut == s[0].low then s
    else if s[0].low < cut <= s[0].high then [Width(cut - 1, s[0].low), Width(s[0].high, cut)] + s[1..]
    else [s[0]] + SplitAt(s[1..], cut)
  }

  /** The bits from `low` to `high` are made of whole intervals. */
  ghost predicate Whole(s: seq<Width>, high: int, low: int) {
    exists i, j :: 0 <= i <= j < |s| && s[i].low == low && s[j].high == high
  }

  ghost predicate Inside(w: Width, s: seq<Width>) {
    exists j :: 0 <= j < |s| && s[j].low <= w.low && w.high <= s[j].high
  }

  /** Every interval of `t` lies within one of `s`. */
  ghost predicate Refines(t: seq<Width>, s: seq<Width>) {
    forall i :: 0 <= i < |t| ==> Inside(t[i], s)
  }

  lemma {:induction false} PartitionBounds(s: seq<Width>, from: int, to: int)
    requires Partition(s, from, to)
    ensures from <= to && (s != [] ==> from < to)
    ensures forall x <- Starts(s) :: from <= x < to
    ensures s != [] ==> from in Starts(s)
  {
    if s != [] { PartitionBounds(s[1..], s[0].high + 1, to); }
  }

  /** Splitting keeps a partition and adds just the cut to its boundaries. */
  lemma {:induction false} SplitKeeps(s: seq<Width>, from: int, to: int, cut: int)
    requires Partition(s, from, to) && from <= cut <= to
    ensures Partition(SplitAt(s, cut), from, to)
    ensures Starts(SplitAt(s, cut)) == Starts(s) + if cut < to then {cut} else {}
  {
    PartitionBounds(s, from, to);
    if s == [] || cut == s[0].low {
    } else if cut <= s[0].high {
      var t := SplitAt(s, cut);
      assert t[1..] == [Width(s[0].high, cut)] + s[1..] && t[1..][1..] == s[1..];
      PartitionBounds(s[1..], s[0].high + 1, to);
    } else {
      SplitKeeps(s[1..], s[0].high + 1, to, cut);
      assert SplitAt(s, cut)[1..] == SplitAt(s[1..], cut);
    }
  }

  lemma RefinesSelf(s: seq<Width>)
    ensures Refines(s, s)
  {
    forall i | 0 <= i < |s| ensures Inside(s[i], s) {
      assert s[i].low <= s[i].low && s[i].high <= s[i].high;
    }
  }

  lemma {:induction false} SplitRefines(s: seq<Width>, cut: int)
    ensures Refines(SplitAt(s, cut), s)
  {
    var t := SplitAt(s, cut);
    if s == [] || cut == s[0].low {
      RefinesSelf(s);
    } else if s[0].low < cut <= s[0].high {
      forall i | 0 <= i < |t| ensures Inside(t[i], s) {
        var j := if i < 2 then 0 else i - 1;
        assert s[j].low <= t[i].low && t[i].high <= s[j].high;
      }
    } else {
      SplitRefines(s[1..], cut);
      var t1 := SplitAt(s[1..], cut);
      assert t == [s[0]] + t1;
      hide SplitAt;
      forall i | 0 <= i < |t| ensures Inside(t[i], s) {
        if i == 0 {
          assert s[0].low <= t[0].low && t[0].high <= s[0].high;
        } else {
          assert t[i] == t1[i - 1] && Inside(t1[i - 1], s[1..]);
          InsideTail(t[i], s);
        }
      }
    }
  }

  lemma InsideTail(w: Width, s: seq<Width>)
    requires s != [] && Inside(w, s[1..])
    ensures Inside(w, s)
  {
    var j :| 0 <= j < |s[1..]| && s[1..][j].low <= w.low && w.high <= s[1..][j].high;
    assert s[j + 1].low <= w.low && w.high <= s[j + 1].high;
  }

  lemma RefinesTrans(a: seq<Width>, b: seq<Width>, c: seq<Width>)
    requires Refines(a, b) && Refines(b, c)
    ensures Refines(a, c)
  {
    forall i | 0 <= i < |a| ensures Inside(a[i], c) {
      assert Inside(a[i], b);
      var k :| 0 <= k < |b| && b[k].low <= a[i].low && a[i].high <= b[k].high;
      assert Inside(b[k], c);
      var j :| 0 <= j < |c| && c[j].low <= b[k].low && b[k].high <= c[j].high;
      assert c[j].low <= a[i].low && a[i].high <= c[j].high;
    }
  }

  /** A cut behind the first interval is a boundary already. */
  lemma SplitNothing(s: seq<Width>, cut: int)
    requires s != [] && s[0].low <= s[0].high && s[0].high + 1 == cut && (|s| > 1 ==> s[1].low == cut)
    ensures SplitAt(s, cut) == s
  {
    assert s == [s[0]] + s[1..];
  }

  lemma SplitEmpty(cut: int)
    ensures SplitAt([], cut) == []
  {
  }

  lemma SplitLater(s: seq<Width>, i: nat, cut: int)
    requires i < |s| && cut != s[i].low && !(s[i].low < cut <= s[i].high)
    ensures s[..i] + SplitAt(s[i..], cut) == s[..i + 1] + SplitAt(s[i + 1..], cut)
  {
    assert s[i..][1..] == s[i + 1..];
    assert SplitAt(s[i..], cut) == [s[i]] + SplitAt(s[i + 1..], cut);
  }

  lemma SplitHere(s: seq<Width>, i: nat, cut: int)
    requires i < |s| && s[i].low < cut <= s[i].high
    ensures s[..i] + SplitAt(s[i..], cut) == s[..i] + [Width(cut - 1, s[i].low), Width(s[i].high, cut)] + s[i + 1..]
  {
    assert s[i..][1..] == s[i + 1..];
    assert SplitAt(s[i..], cut) == [Width(cut - 1, s[i].low), Width(s[i].high, cut)] + s[i + 1..];
  }

  lemma {:induction false} FindStart(s: seq<Width>, x: int) returns (i: nat)
    requires x in Starts(s)
    ensures i < |s| && s[i].low == x
  {
    if s[0].low == x {
      i := 0;
    } else {
      i := FindStart(s[1..], x);
      i := i + 1;
    }
  }

  lemma {:induction false} Consecutive(s: seq<Width>, from: int, to: int, i: nat)
    requires Partition(s, from, to) && i < |s|
    ensures s[i].low <= s[i].high < to
    ensures s[i].high + 1 == if i + 1 < |s| then s[i + 1].low else to
    ensures forall j :: i < j < |s| ==> s[i].low < s[j].low
  {
    PartitionBounds(s[1..], s[0].high + 1, to);
    if i == 0 {
      forall j | 0 < j < |s| ensures s[0].low < s[j].low {
        Above(s[1..], s[0].high + 1, to, j - 1);
      }
      if |s| > 1 { assert s[1] == s[1..][0]; }
    } else {
      Consecutive(s[1..], s[0].high + 1, to, i - 1);
      assert forall j :: i < j < |s| ==> s[j] == s[1..][j - 1];
    }
  }

  lemma FirstLow(s: seq<Width>, from: int, to: int)
    requires Partition(s, from, to) && s != []
    ensures s[0].low == from
  {
  }

  lemma {:induction false} Above(s: seq<Width>, from: int, to: int, i: nat)
    requires Partition(s, from, to) && i < |s|
    ensures from <= s[i].low
  {
    if i > 0 { Above(s[1..], s[0].high + 1, to, i - 1); }
  }

  lemma InOrder(s: seq<Width>, from: int, to: int, i: nat, j: nat)
    requires Partition(s, from, to) && i < |s| && j < |s| && s[i].low < s[j].low
    ensures i < j
  {
    Consecutive(s, from, to, j);
  }

  /** Both cuts of a range of bits. */
  lemma SubRangeKeeps(s: seq<Width>, w: int, high: int, low: int)
    requires Partition(s, 0, w) && 0 <= low <= high < w
    ensures var t := SplitAt(SplitAt(s, low), high + 1);
      && Partition(t, 0, w) && Whole(t, high, low) && Refines(t, s)
      && Starts(t) == Starts(s) + {low} + if high + 1 < w then {high + 1} else {}
  {
    hide SplitAt, Partition, Starts, Refines, Whole;
    var mid := SplitAt(s, low);
    SplitKeeps(s, 0, w, low);
    SplitRefines(s, low);
    SplitKeeps(mid, 0, w, high + 1);
    SplitRefines(mid, high + 1);
    RefinesTrans(SplitAt(mid, high + 1), mid, s);
    BoundariesMeanWhole(SplitAt(mid, high + 1), w, high, low);
  }

  /** All bits are whole intervals at any time. */
  lemma AllBits(s: seq<Width>, w: int)
    requires Partition(s, 0, w) && w > 0
    ensures Whole(s, w - 1, 0) && 0 in Starts(s)
  {
    StartsFirst(s, 0, w);
    hide Partition, Starts, Whole;
    BoundariesMeanWhole(s, w, w - 1, 0);
  }

  lemma StartsFirst(s: seq<Width>, from: int, to: int)
    requires Partition(s, from, to) && from < to
    ensures from in Starts(s)
  {
  }

  /** A range with boundaries on both sides consists of whole intervals. */
  lemma BoundariesMeanWhole(s: seq<Width>, w: int, high: int, low: int)
    requires Partition(s, 0, w) && 0 <= low <= high < w
    requires low in Starts(s) && (high + 1 == w || high + 1 in Starts(s))
    ensures Whole(s, high, low)
  {
    var i := FindStart(s, low);
    Consecutive(s, 0, w, i);
    if high + 1 == w {
      Consecutive(s, 0, w, |s| - 1);
      assert s[i].low == low && s[|s| - 1].high == high;
    } else {
      var j := FindStart(s, high + 1);
      InOrder(s, 0, w, i, j);
      Consecutive(s, 0, w, j - 1);
      assert s[i].low == low && s[j - 1].high == high;
    }
  }

  class WriteEnables {
    const width: int
    var weWidth: seq<Width>

    ghost predicate Valid()
      reads this
    {
      Partition(weWidth, 0, width)
    }

    constructor (dataWidth: int)
      requires dataWidth > 0
      ensures Valid() && width == dataWidth && Starts(weWidth) == {0}
    {
      width := dataWidth;
      weWidth := [Width(dataWidth - 1, 0)];
    }

    /** A range of bits is written somewhere. */
    method SetSubRange(highBit: int, lowBit: int)
      requires Valid() && 0 <= lowBit <= highBit < width
      modifies this
      ensures Valid() && Whole(weWidth, highBit, lowBit) && Refines(weWidth, old(weWidth))
      ensures Starts(weWidth) == old(Starts(weWidth)) + {lowBit} + if highBit + 1 < width then {highBit + 1} else {}
    {
      hide SplitAt, Partition, Starts, Refines, Whole;
      if highBit - lowBit + 1 == width {
        AllBits(weWidth, width);
        RefinesSelf(weWidth);
        return;
      }
      SubRangeKeeps(weWidth, width, highBit, lowBit);
      SplitLow(lowBit);
      SplitHigh(highBit);
    }

    method SplitLow(lowBit: int)
      requires Valid() && 0 <= lowBit < width
      modifies this
      ensures Valid() && weWidth == SplitAt(old(weWidth), lowBit)
    {
      SplitKeeps(weWidth, 0, width, lowBit);
      var i := 0;
      while i < |weWidth|
        invariant i <= |weWidth| && weWidth == old(weWidth)
        invariant SplitAt(weWidth, lowBit) == weWidth[..i] + SplitAt(weWidth[i..], lowBit)
      {
        var w := weWidth[i];
        if lowBit == w.low {
          break;
        }
        if lowBit > w.low && lowBit <= w.high {
          SplitHere(weWidth, i, lowBit);
          weWidth := weWidth[..i] + [Width(lowBit - 1, w.low), Width(w.high, lowBit)] + weWidth[i + 1..];
          return;
        }
        SplitLater(weWidth, i, lowBit);
        i := i + 1;
      }
      assert weWidth[..i] + weWidth[i..] == weWidth;
    }

    method SplitHigh(highBit: int)
      requires Valid() && highBit >= 0
      modifies this
      ensures weWidth == SplitAt(old(weWidth), highBit + 1)
    {
      var i := 0;
      hide SplitAt, Partition;
      assert weWidth[..0] + SplitAt(weWidth[0..], highBit + 1) == SplitAt(weWidth, highBit + 1);
      SplitEmpty(highBit + 1);
      if weWidth != [] { FirstLow(weWidth, 0, width); }
      while i < |weWidth|
        invariant i <= |weWidth| && weWidth == old(weWidth)
        invariant SplitAt(weWidth, highBit + 1) == weWidth[..i] + SplitAt(weWidth[i..], highBit + 1)
        invariant i < |weWidth| ==> weWidth[i].low != highBit + 1
      {
        var w := weWidth[i];
        Consecutive(weWidth, 0, width, i);
        if highBit == w.high {
          // the next interval starts behind the range already
          SplitNothing(weWidth[i..], highBit + 1);
          break;
        }
        if highBit >= w.low && highBit < w.high {
          SplitHere(weWidth, i, highBit + 1);
          weWidth := weWidth[..i] + [Width(highBit, w.low), Width(w.high, highBit + 1)] + weWidth[i + 1..];
          return;
        }
        SplitLater(weWidth, i, highBit + 1);
        i := i + 1;
      }
      assert weWidth[..i] + weWidth[i..] == weWidth;
    }
  }
}
