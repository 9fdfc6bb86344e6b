/** The log of edits of a source line, which maps a position in the edited line back to the offset
    of the character in the input file. */
module LinePos {

  /** A character of the edited line: where it came from, or text put in. */
  datatype Char = FromFile(offset: int) | New

  datatype Edit = Insert(pos: nat, len: nat) | Delete(pos: nat, len: nat)

  datatype Delta = Delta(pos: int, delta: int)

  function News(n: nat): seq<Char> { seq(n, _ => New) }

  predicate EditOk(line: seq<Char>, e: Edit) {
    if e.Insert? then e.pos <= |line| else e.pos + e.len <= |line|
  }

  /** What an edit does to the line. */
  function Edited(line: seq<Char>, e: Edit): seq<Char>
    requires EditOk(line, e)
  {
    if e.Insert? then line[..e.pos] + News(e.len) + line[e.pos..] else line[..e.pos] + line[e.pos + e.len..]
  }

  function Shift(e: Edit): int { if e.Insert? then e.len else 0 - e.len as int }

  /** The number of entries in front of the first one at or behind the edit. */
  function Before(d: seq<Delta>, pos: int): (k: nat)
    ensures k <= |d|
  {
    if d == [] || d[0].pos >= pos then 0 else 1 + Before(d[1..], pos)
  }

  function Moved(d: seq<Delta>, pos: int, step: int): (r: seq<Delta>)
    ensures |r| == |d|
  {
    seq(|d|, i requires 0 <= i < |d| => if d[i].pos >= pos then Delta(d[i].pos + step, d[i].delta) else d[i])
  }

  /** What an edit does to the log: entries at or behind it move, and an entry for it goes in front
      of the first of them. */
  function Logged(d: seq<Delta>, e: Edit): seq<Delta> {
    var k := Before(d, e.pos);
    d[..k] + [Delta(e.pos, -Shift(e))] + Moved(d[k..], e.pos, Shift(e))
  }

  /** The sum of the entries up to the first one behind `p`; the entries need not be in order. */
  function Sum(d: seq<Delta>, p: int): int {
    if d == [] || p < d[0].pos then 0 else d[0].delta + Sum(d[1..], p)
  }

  function Offset(base: int, d: seq<Delta>, p: int): int { base + p + Sum(d, p) }

  /** The log finds every character that came from the file. */
  predicate Tracks(base: int, d: seq<Delta>, line: seq<Char>) {
    forall p :: 0 <= p < |line| && line[p].FromFile? ==> line[p].offset == Offset(base, d, p)
  }

  lemma {:induction false} BeforeAll(d: seq<Delta>, pos: int)
    ensures forall i :: 0 <= i < Before(d, pos) ==> d[i].pos < pos
    ensures Before(d, pos) < |d| ==> d[Before(d, pos)].pos >= pos
  {
    if d != [] && d[0].pos < pos {
      BeforeAll(d[1..], pos);
    }
  }

  lemma {:induction false} SumAppend(a: seq<Delta>, b: seq<Delta>, p: int)
    requires forall i :: 0 <= i < |a| ==> a[i].pos <= p
    ensures Sum(a + b, p) == Sum(a, p) + Sum(b, p)
  {
    if a == [] {
      assert a + b == b;
    } else {
      SumAppend(a[1..], b, p);
      assert (a + b)[1..] == a[1..] + b;
    }
  }

  lemma {:induction false} SumEnd(a: seq<Delta>, b: seq<Delta>, p: int)
    requires b != [] ==> b[0].pos > p
    ensures Sum(a + b, p) == Sum(a, p)
  {
    if a == [] {
      assert a + b == b;
    } else {
      SumEnd(a[1..], b, p);
      assert (a + b)[1..] == a[1..] + b;
    }
  }

  /** Moving the entries at or behind `pos` moves the positions behind it with them. */
  lemma {:induction false} SumMoved(d: seq<Delta>, pos: int, step: int, p: int)
    requires pos <= p && pos <= p + step
    ensures Sum(Moved(d, pos, step), p + step) == Sum(d, p)
  {
    if d != [] {
      SumMoved(d[1..], pos, step, p);
      assert Moved(d, pos, step)[1..] == Moved(d[1..], pos, step);
    }
  }

  /** A position in front of the edit keeps its offset. */
  lemma FrontKeeps(d: seq<Delta>, e: Edit, p: int)
    requires p < e.pos
    ensures Sum(Logged(d, e), p) == Sum(d, p)
  {
    var k := Before(d, e.pos);
    BeforeAll(d, e.pos);
    hide Before, Moved;
    var rest := [Delta(e.pos, -Shift(e))] + Moved(d[k..], e.pos, Shift(e));
    assert Logged(d, e) == d[..k] + rest;
    assert d == d[..k] + d[k..];
    SumEnd(d[..k], rest, p);
    SumEnd(d[..k], d[k..], p);
  }

  /** A position behind the edit moves with it. */
  lemma BackMoves(d: seq<Delta>, e: Edit, p: int)
    requires e.pos <= p && e.pos <= p + Shift(e)
    ensures p + Shift(e) + Sum(Logged(d, e), p + Shift(e)) == p + Sum(d, p)
  {
    var k := Before(d, e.pos);
    BeforeAll(d, e.pos);
    hide Before, Moved, Sum;
    var tail := Moved(d[k..], e.pos, Shift(e));
    var one := [Delta(e.pos, -Shift(e))];
    assert Logged(d, e) == d[..k] + (one + tail);
    assert d == d[..k] + d[k..];
    SumAppend(d[..k], one + tail, p + Shift(e));
    assert (one + tail)[1..] == tail;
    SumAppend(d[..k], d[k..], p);
    SumMoved(d[k..], e.pos, Shift(e), p);
    AllIn(d[..k], p, p + Shift(e));
    SumFirst(one + tail, p + Shift(e));
  }

  lemma SumFirst(d: seq<Delta>, p: int)
    requires d != [] && d[0].pos <= p
    ensures Sum(d, p) == d[0].delta + Sum(d[1..], p)
  {
  }

  lemma {:induction false} AllIn(a: seq<Delta>, p: int, p': int)
    requires forall i :: 0 <= i < |a| ==> a[i].pos <= p && a[i].pos <= p'
    ensures Sum(a, p) == Sum(a, p')
  {
    if a != [] { AllIn(a[1..], p, p'); }
  }

  /** A character of inserted text is counted on from the position in front of it, less the length of the
      text: the offsets of the text are those of as many characters before it. */
  lemma InsertedOffset(base: int, d: seq<Delta>, pos: nat, len: nat, p: int)
    requires pos <= p < pos + len
    ensures Offset(base, Logged(d, Insert(pos, len)), p) == Offset(base, d, pos - 1) + (p - (pos - 1)) - len
  {
    var e := Insert(pos, len);
    var k := Before(d, pos);
    BeforeAll(d, pos);
    hide Before, Sum;
    var tail := Moved(d[k..], pos, len);
    var one := [Delta(pos, -Shift(e))];
    assert Logged(d, e) == d[..k] + (one + tail);
    assert d == d[..k] + d[k..];
    SumAppend(d[..k], one + tail, p);
    SumFirst(one + tail, p);
    assert (one + tail)[1..] == tail;
    SumBehind(tail, p);
    SumEnd(d[..k], d[k..], pos - 1);
    AllIn(d[..k], p, pos - 1);
  }

  lemma SumBehind(d: seq<Delta>, p: int)
    requires d != [] ==> p < d[0].pos
    ensures Sum(d, p) == 0
  {
  }

  lemma EditTracks(base: int, d: seq<Delta>, line: seq<Char>, e: Edit)
    requires Tracks(base, d, line) && EditOk(line, e)
    ensures Tracks(base, Logged(d, e), Edited(line, e))
  {
    var z := Edited(line, e);
    hide Sum, Logged;
    forall p | 0 <= p < |z| && z[p].FromFile? ensures z[p].offset == Offset(base, Logged(d, e), p) {
      if p < e.pos {
        FrontKeeps(d, e, p);
        assert z[p] == line[p];
      } else {
        assert p >= e.pos + (if e.Insert? then e.len else 0);
        BackMoves(d, e, p - Shift(e));
        assert z[p] == line[p - Shift(e)];
      }
    }
  }

  predicate EditsOk(line: seq<Char>, es: seq<Edit>)
    decreases |es|
  {
    es == [] || (EditOk(line, es[0]) && EditsOk(Edited(line, es[0]), es[1..]))
  }

  function AllEdited(line: seq<Char>, es: seq<Edit>): seq<Char>
    requires EditsOk(line, es)
    decreases |es|
  {
    if es == [] then line else AllEdited(Edited(line, es[0]), es[1..])
  }

  function AllLogged(d: seq<Delta>, es: seq<Edit>): seq<Delta>
    decreases |es|
  {
    if es == [] then d else AllLogged(Logged(d, es[0]), es[1..])
  }

  /** After any edits, overlapping ones too, every surviving character is found in the file. */
  lemma {:induction false} EditsTrack(base: int, d: seq<Delta>, line: seq<Char>, es: seq<Edit>)
    requires Tracks(base, d, line) && EditsOk(line, es)
    ensures Tracks(base, AllLogged(d, es), AllEdited(line, es))
    decreases |es|
  {
    hide Tracks, Edited, Logged, EditOk;
    if es != [] {
      EditTracks(base, d, line, es[0]);
      EditsTrack(base, Logged(d, es[0]), Edited(line, es[0]), es[1..]);
    }
  }

  /** Deleting around an earlier edit leaves the log out of order. */
  lemma LogUnsorted()
    ensures var d := AllLogged([], [Insert(6, 2), Delete(4, 5)]);
            |d| == 2 && d[1].pos < d[0].pos
  {
    var d1 := Logged([], Insert(6, 2));
    assert d1 == [Delta(6, -2)];
    var d2 := Logged(d1, Delete(4, 5));
    assert d1[..0] == [] && d1[0..] == d1;
    assert d2 == [Delta(4, 5), Delta(1, -2)];
    assert [Insert(6, 2), Delete(4, 5)][1..] == [Delete(4, 5)] && [Delete(4, 5)][1..] == [];
  }

  lemma EntriesMoved(d: seq<Delta>, r: seq<Delta>, k: nat, pos: int, step: int)
    requires k <= |d| == |r| && (forall j :: 0 <= j < k ==> r[j] == d[j])
    requires forall j :: k <= j < |d| ==> r[j] == if d[j].pos >= pos then Delta(d[j].pos + step, d[j].delta) else d[j]
    ensures r[..k] == d[..k] && r[k..] == Moved(d[k..], pos, step)
  {
    assert forall j :: 0 <= j < |d| - k ==> r[k..][j] == r[k + j] && d[k..][j] == d[k + j];
  }

  class LinePosLog {
    var baseOffset: int
    var deltaList: seq<Delta>
    ghost var line: seq<Char>

    ghost predicate Valid()
      reads this
    {
      Tracks(baseOffset, deltaList, line)
    }

    constructor (baseOffset: int, ghost n: nat)
      ensures Valid() && this.baseOffset == baseOffset && deltaList == []
      ensures line == seq(n, i => FromFile(baseOffset + i))
    {
      this.baseOffset := baseOffset;
      deltaList := [];
      line := seq(n, i => FromFile(baseOffset + i));
    }

    method Insert(linePos: nat, length: nat)
      requires Valid() && linePos <= |line|
      modifies this
      ensures Valid() && baseOffset == old(baseOffset)
      ensures line == Edited(old(line), Edit.Insert(linePos, length))
      ensures deltaList == Logged(old(deltaList), Edit.Insert(linePos, length))
    {
      EditTracks(baseOffset, deltaList, line, Edit.Insert(linePos, length));
      line := Edited(line, Edit.Insert(linePos, length));
      Enter(linePos, length);
    }

    method Delete(linePos: nat, length: nat)
      requires Valid() && linePos + length <= |line|
      modifies this
      ensures Valid() && baseOffset == old(baseOffset)
      ensures line == Edited(old(line), Edit.Delete(linePos, length))
      ensures deltaList == Logged(old(deltaList), Edit.Delete(linePos, length))
    {
      EditTracks(baseOffset, deltaList, line, Edit.Delete(linePos, length));
      line := Edited(line, Edit.Delete(linePos, length));
      Enter(linePos, 0 - length as int);
    }

    /** The loop of both edits: the entries at or behind the edit are moved. */
    method Enter(linePos: nat, length: int)
      modifies this`deltaList
      ensures var k := Before(old(deltaList), linePos);
              deltaList == old(deltaList)[..k] + [Delta(linePos, -length)] + Moved(old(deltaList)[k..], linePos, length)
    {
      ghost var d := deltaList;
      BeforeAll(d, linePos);
      var foundFirst, newDeltaPos := false, |deltaList|;
      var i := 0;
      while i < |deltaList|
        invariant i <= |deltaList| == |d|
        invariant foundFirst == (Before(d, linePos) < i)
        invariant newDeltaPos == if foundFirst then Before(d, linePos) else |d|
        invariant forall j :: 0 <= j < |d| ==>
                    deltaList[j] == if j < i && d[j].pos >= linePos then Delta(d[j].pos + length, d[j].delta) else d[j]
      {
        if deltaList[i].pos >= linePos {
          if !foundFirst {
            foundFirst, newDeltaPos := true, i;
          }
          deltaList := deltaList[i := Delta(deltaList[i].pos + length, deltaList[i].delta)];
        }
        i := i + 1;
      }
      var k := newDeltaPos;
      EntriesMoved(d, deltaList, k, linePos, length);
      deltaList := deltaList[..k] + [Delta(linePos, -length)] + deltaList[k..];
    }

    method GetInputFileOffset(linePos: int) returns (offset: int)
      requires Valid()
      ensures offset == Offset(baseOffset, deltaList, linePos)
      ensures 0 <= linePos < |line| && line[linePos].FromFile? ==> offset == line[linePos].offset
    {
      offset := baseOffset + linePos;
      var i := 0;
      while i < |deltaList|
        invariant i <= |deltaList|
        invariant Offset(baseOffset, deltaList, linePos) == offset + Sum(deltaList[i..], linePos)
      {
        if linePos < deltaList[i].pos {
          break;
        }
        offset := offset + deltaList[i].delta;
        i := i + 1;
      }
    }
  }
}
