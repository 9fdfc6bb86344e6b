/** The fixed-size queue between a unit's ring and its receive calls: an array used as a ring, of
    which one entry always stays free. */
module HifQueue {

  lemma Wrap(x: nat, n: nat)
    requires n > 0 && x < 2 * n
    ensures x % n == if x < n then x else x - n
  {
    if x < n { Remainder(x, n, 0, x); } else { Remainder(x, n, 1, x - n); }
  }

  lemma Remainder(x: nat, n: nat, q: nat, r: nat)
    requires r < n && x == q * n + r
    ensures x % n == r
  {
    var k, d := x / n, x % n;
    assert (k - q) * n == r - d;
    if k > q { AtLeast(k - q, n); }
    if k < q { AtLeast(q - k, n); }
  }

  lemma AtLeast(k: nat, n: nat)
    requires k > 0
    ensures k * n >= n
  {
  }

  /** `cnt` entries of a ring from position `rd` on. */
  ghost function Window<T>(q: seq<T>, rd: nat, cnt: nat): (r: seq<T>)
    requires rd < |q| && cnt <= |q|
    ensures |r| == cnt
  {
    if rd + cnt <= |q| then q[rd..rd + cnt] else q[rd..] + q[..rd + cnt - |q|]
  }

  lemma WindowMore<T>(q: seq<T>, rd: nat, cnt: nat, wr: nat, x: T)
    requires rd < |q| && cnt < |q| && wr == if rd + cnt < |q| then rd + cnt else rd + cnt - |q|
    ensures Window(q[wr := x], rd, cnt + 1) == Window(q, rd, cnt) + [x]
  {
    var a, b := Window(q[wr := x], rd, cnt + 1), Window(q, rd, cnt) + [x];
    forall i | 0 <= i <= cnt ensures a[i] == b[i] {
    }
  }

  class CQueue<T(0)> {
    const size: nat
    const que: array<T>
    var cnt: nat
    var wrIdx: nat
    var rdIdx: nat

    ghost predicate Valid()
      reads this, que
    {
      && 1 < size == que.Length
      && rdIdx < size && wrIdx < size && cnt < size
      && wrIdx == (if rdIdx + cnt < size then rdIdx + cnt else rdIdx + cnt - size)
    }

    ghost function Contents(): (r: seq<T>)
      requires Valid()
      reads this, que
      ensures |r| == cnt
    {
      Window(que[..], rdIdx, cnt)
    }

    constructor (n: nat)
      requires n > 1
      ensures Valid() && size == n && Contents() == [] && fresh(que)
    {
      size := n;
      que := new T[n];
      cnt, wrIdx, rdIdx := 0, 0, 0;
    }

    /** Compares the two positions, as the threads on both ends do. */
    method IsEmpty() returns (b: bool)
      requires Valid()
      ensures b <==> Contents() == []
    {
      b := rdIdx == wrIdx;
    }

    /** One entry less than the array holds. */
    method IsFull() returns (b: bool)
      requires Valid()
      ensures |Contents()| < size && (b <==> |Contents()| == size - 1)
    {
      Wrap(wrIdx + 1, size);
      b := (wrIdx + 1) % size == rdIdx;
    }

    method Size() returns (n: nat)
      requires Valid()
      ensures n == |Contents()|
    {
      n := cnt;
    }

    method Front() returns (x: T)
      requires Valid() && Contents() != []
      ensures x == Contents()[0]
    {
      x := que[rdIdx];
    }

    method Pop()
      requires Valid() && Contents() != []
      modifies this
      ensures Valid()
      ensures Contents() == old(Contents())[1..]
    {
      Wrap(rdIdx + 1, size);
      rdIdx := (rdIdx + 1) % size;
      cnt := cnt - 1;
    }

    /** The caller has seen that the queue is not full. */
    method Push(x: T)
      requires Valid() && |Contents()| < size - 1
      modifies this, que
      ensures Valid()
      ensures Contents() == old(Contents()) + [x]
    {
      hide Window;
      Wrap(wrIdx + 1, size);
      ghost var was := que[..];
      que[wrIdx] := x;
      assert que[..] == was[wrIdx := x];
      WindowMore(was, rdIdx, cnt, wrIdx, x);
      wrIdx := (wrIdx + 1) % size;
      cnt := cnt + 1;
    }
  }
}
