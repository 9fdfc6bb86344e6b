/** The memory trace: requests are written as differences to the request before, in as few bytes as
    they need.  A file is a sequence of cells, the fixed part of a record being one cell. */
module MemTrace {

  import opened Wrappers

  const LIMIT: nat := 0x1_0000_0000_0000_0000

  /** An address: its bits from 13 up, and the 13 bits below. */
  datatype Addr = Addr(hi: nat, low: bv13)

  /** A request as the simulation hands it over, with times in ps. */
  datatype Req = Req(start: nat, comp: nat, addr: Addr)

  /** A request as it is read back, with times in ns. */
  datatype Entry = Entry(start: int, comp: int, addr: Addr)

  /** The part of a record's fixed bit fields that the times and the address go into. */
  datatype Fmt = Fmt(mc: bv13, bank: bv13, startSize: nat, startSign: bool, compSize: nat, addrSize: nat, addrSign: bool)

  datatype Cell = Head(fmt: Fmt) | Byte(b: nat)

  /** The writer's and the reader's running values. */
  datatype State = State(prevStart: int, prevAddr: int)

  predicate ReqOk(r: Req) {
    r.start <= r.comp < LIMIT / 2 && r.addr.hi < LIMIT / 0x2000
  }

  /** Division as in C. */
  function CDiv(x: int, y: int): int
    requires y > 0
  {
    if x >= 0 then x / y else -((-x) / y)
  }

  function Abs(x: int): nat { if x < 0 then -x else x }

  /** How many bytes hold the value: 1, 2, 4 or 8, given as their logarithm. */
  function CprsInt(v: nat): (k: nat)
    ensures k <= 3
  {
    if v < 0x100 then 0 else if v < 0x1_0000 then 1 else if v < 0x1_0000_0000 then 2 else 3
  }

  function Width(k: nat): nat { if k == 0 then 1 else if k == 1 then 2 else if k == 2 then 4 else 8 }

  /** The low `n` bytes of a value, the lowest first. */
  function Bytes(v: nat, n: nat): (s: seq<Cell>)
    ensures |s| == n
  {
    if n == 0 then [] else [Byte(v % 256)] + Bytes(v / 256, n - 1)
  }

  /** The value of the first `n` bytes; None when the file ends before. */
  function Value(file: seq<Cell>, n: nat): Option<nat> {
    if n == 0 then Some(0)
    else if file == [] || file[0].Head? then None
    else
      var v := Value(file[1..], n - 1);
      if v.None? then None else Some(file[0].b + 256 * v.value)
  }

  // ------------------------------------------------------------------------------------------
  // Writing and reading
  // ------------------------------------------------------------------------------------------

  function Bank(low: bv13): bv13 { ((low >> 6) & 0x78) | ((low >> 3) & 0x7) }

  function Mc(low: bv13): bv13 { (low >> 6) & 0x7 }

  function LowBits(mc: bv13, bank: bv13): bv13 {
    ((bank << 6) & 0x1fc0) | (mc << 6) | ((bank << 3) & 0x38)
  }

  function StartDelta(w: State, r: Req): int { CDiv(r.start - w.prevStart, 1000) }

  function CompDelta(r: Req): nat
    requires r.start <= r.comp
  {
    (r.comp - r.start) / 1000
  }

  function WriteReq(w: State, r: Req): (State, seq<Cell>)
    requires r.start <= r.comp
  {
    var s, c, a := StartDelta(w, r), CompDelta(r), r.addr.hi - w.prevAddr;
    var f := Fmt(Mc(r.addr.low), Bank(r.addr.low), CprsInt(Abs(s)), s < 0, CprsInt(c), CprsInt(Abs(a)), a < 0);
    (State(w.prevStart + s * 1000, w.prevAddr + a),
     [Head(f)] + Bytes(Abs(s), Width(f.startSize)) + Bytes(c, Width(f.compSize)) + Bytes(Abs(a), Width(f.addrSize)))
  }

  function Signed(neg: bool, v: int): int { if neg then -v else v }

  /** A value of `n` bytes, and the rest of the file. */
  function ReadInt(file: seq<Cell>, n: nat): Option<(nat, seq<Cell>)> {
    if |file| < n || Value(file, n).None? then None else Some((Value(file, n).value, file[n..]))
  }

  /** The next entry, the running values and the rest of the file. */
  function ReadReq(s: State, file: seq<Cell>): Option<(State, Entry, seq<Cell>)> {
    if file == [] || !file[0].Head? then None
    else
      var f := file[0].fmt;
      var r1 := ReadInt(file[1..], Width(f.startSize));
      if r1.None? then None else
      var r2 := ReadInt(r1.value.1, Width(f.compSize));
      if r2.None? then None else
      var r3 := ReadInt(r2.value.1, Width(f.addrSize));
      if r3.None? then None else
      Some(Received(s, f, r1.value.0, r2.value.0, r3.value.0, r3.value.1))
  }

  function Received(s: State, f: Fmt, v1: nat, v2: nat, v3: nat, rest: seq<Cell>): (State, Entry, seq<Cell>) {
    var start := s.prevStart + Signed(f.startSign, v1);
    var hi := s.prevAddr + Signed(f.addrSign, v3);
    (State(start, hi), Entry(start, start + v2, Addr(Abs(hi), LowBits(f.mc, f.bank))), rest)
  }

  predicate AllOk(rs: seq<Req>) {
    rs == [] || (ReqOk(rs[0]) && AllOk(rs[1..]))
  }

  function WriteAll(w: State, rs: seq<Req>): seq<Cell>
    requires AllOk(rs)
    decreases |rs|
  {
    if rs == [] then [] else WriteReq(w, rs[0]).1 + WriteAll(WriteReq(w, rs[0]).0, rs[1..])
  }

  function ReadAll(s: State, file: seq<Cell>): Option<seq<Entry>>
    decreases |file|
  {
    if file == [] then Some([])
    else
      var r := ReadReq(s, file);
      if r.None? || |r.value.2| >= |file| then None
      else
        var t := ReadAll(r.value.0, r.value.2);
        if t.None? then None else Some([r.value.1] + t.value)
  }

  // ------------------------------------------------------------------------------------------
  // The round trip
  // ------------------------------------------------------------------------------------------

  function Room(n: nat): nat { if n == 0 then 1 else 256 * Room(n - 1) }

  lemma {:induction false} BytesValue(v: nat, n: nat, rest: seq<Cell>)
    requires v < Room(n)
    ensures Value(Bytes(v, n) + rest, n) == Some(v)
  {
    if n > 0 {
      BytesValue(v / 256, n - 1, rest);
      assert (Bytes(v, n) + rest)[1..] == Bytes(v / 256, n - 1) + rest;
    }
  }

  /** The size that is chosen is always enough. */
  lemma SizeSuffices(v: nat)
    requires v < LIMIT
    ensures v < Room(Width(CprsInt(v)))
  {
    assert Room(1) == 0x100;
    assert Room(2) == 0x1_0000;
    assert Room(3) == 0x100_0000;
    assert Room(4) == 0x1_0000_0000;
    assert Room(5) == 0x100_0000_0000;
    assert Room(6) == 0x1_0000_0000_0000;
    assert Room(7) == 0x100_0000_0000_0000;
    assert Room(8) == LIMIT;
  }

  /** It is the least of 1, 2, 4 and 8 bytes that is. */
  lemma SizeIsLeast(v: nat, n: nat)
    requires v < LIMIT && n in {1, 2, 4, 8} && v < Room(n)
    ensures Width(CprsInt(v)) in {1, 2, 4, 8} && Width(CprsInt(v)) <= n
  {
    assert Room(1) == 0x100;
    assert Room(2) == 0x1_0000;
    assert Room(3) == 0x100_0000;
    assert Room(4) == 0x1_0000_0000;
  }

  /** Byte `i` of a value in the file is its digit `i` in base 256, and the digits are those of the value. */
  lemma {:induction false} Digits(v: nat, n: nat, i: nat)
    requires i < n
    ensures Bytes(v, n)[i] == Byte(Shifted(v, i) % 256)
    decreases i
  {
    if i > 0 { Digits(v / 256, n - 1, i - 1); }
  }

  /** The value without its last `i` digits. */
  function Shifted(v: nat, i: nat): nat {
    if i == 0 then v else Shifted(v / 256, i - 1)
  }

  /** The bank number of a record is made of address bits 12 to 9 and 5 to 3, and its controller number is
      address bits 8 to 6. */
  lemma Fields(low: bv13)
    ensures Bank(low) == ((low >> 9) << 3) | ((low >> 3) & 7) && Mc(low) == (low >> 6) & 7
    ensures low == 0x1e00 ==> Bank(low) == 0x78 && Mc(low) == 0
    ensures low == 0x1c0 ==> Mc(low) == 7
    ensures low == 0x38 ==> Bank(low) == 7 && Mc(low) == 0
  {
  }

  /** A record has the start as its distance in ns from the one before, cut towards zero, the duration in whole ns,
      and the distance of the address's upper part; each in the fewest of 1, 2, 4 and 8 bytes. */
  lemma RecordIs(w: State, r: Req) returns (f: Fmt, s: nat, c: nat, a: nat)
    requires ReqOk(r)
    ensures var (z, cells) := WriteReq(w, r);
      && cells == [Head(f)] + Bytes(s, Width(f.startSize)) + Bytes(c, Width(f.compSize)) + Bytes(a, Width(f.addrSize))
      && f.startSize == CprsInt(s) && f.compSize == CprsInt(c) && f.addrSize == CprsInt(a)
      && z.prevStart == (if f.startSign then w.prevStart - 1000 * s else w.prevStart + 1000 * s)
      && z.prevAddr == r.addr.hi == (if f.addrSign then w.prevAddr - a else w.prevAddr + a)
      && (f.addrSign <==> r.addr.hi < w.prevAddr)
      && f.mc == Mc(r.addr.low) && f.bank == Bank(r.addr.low)
    ensures Abs(r.start - w.prevStart) - 1000 < 1000 * s <= Abs(r.start - w.prevStart)
    ensures r.comp - r.start - 1000 < 1000 * c <= r.comp - r.start
  {
    f, s, c, a := WriteReq(w, r).1[0].fmt, Abs(StartDelta(w, r)), CompDelta(r), Abs(r.addr.hi - w.prevAddr);
    DivClose(r.start - w.prevStart);
    hide Bytes;
  }

  /** Bits 9 to 12 and 3 to 5 come back as they were; bits 6 to 8 come back with bits 3 to 5 or-ed in,
      and bits 0 to 2 as zero. */
  lemma LowBitsBack(low: bv13)
    ensures LowBits(Mc(low), Bank(low)) == (low & 0x1ff8) | ((low << 3) & 0x1c0)
  {
  }

  /** The address comes back, but for its place within a quadword, exactly when bits 6 to 8 are set
      wherever bits 3 to 5 are. */
  lemma AddressBackIff(low: bv13)
    ensures LowBits(Mc(low), Bank(low)) == low & 0x1ff8 <==> ((low << 3) & 0x1c0) & !low == 0
  {
  }

  /** How an entry compares with the request: its start is less than a nanosecond off, its completion
      less than two, and address bits 13 and up, 9 to 12 and 3 to 5 are the same. */
  predicate Close(r: Req, e: Entry) {
    && -1000 < e.start * 1000 - r.start < 1000
    && -2000 < e.comp * 1000 - r.comp < 2000
    && e.addr.hi == r.addr.hi
    && e.addr.low & 0x1e38 == r.addr.low & 0x1e38
  }

  lemma KeptBits(low: bv13)
    ensures LowBits(Mc(low), Bank(low)) & 0x1e38 == low & 0x1e38
  {
  }

  lemma DivClose(x: int)
    ensures -1000 < x - CDiv(x, 1000) * 1000 < 1000
    ensures x >= 0 ==> CDiv(x, 1000) >= 0
    ensures x < 0 ==> x <= CDiv(x, 1000) * 1000 <= 0
  {
  }

  /** The reader counts in ns what the writer counts in ps. */
  predicate InStep(w: State, s: State) {
    w.prevStart == 1000 * s.prevStart && w.prevAddr == s.prevAddr && 0 <= w.prevStart < LIMIT / 2 && 0 <= w.prevAddr < LIMIT
  }

  lemma OneRecord(w: State, s: State, r: Req, rest: seq<Cell>)
    requires InStep(w, s) && ReqOk(r)
    ensures var (w', cells) := WriteReq(w, r);
            var b := ReadReq(s, cells + rest);
      && b.Some? && InStep(w', b.value.0) && Close(r, b.value.1) && b.value.2 == rest
      && b.value.1.addr.low == (r.addr.low & 0x1ff8) | ((r.addr.low << 3) & 0x1c0) && |cells| > 0
  {
    var ds, dc, da := StartDelta(w, r), CompDelta(r), r.addr.hi - w.prevAddr;
    DeltasFit(w, r);
    var f := WriteReq(w, r).1[0].fmt;
    SignedAbs(ds);
    SignedAbs(da);
    hide Bytes, Room, CDiv, LowBits, Mc, Bank, CprsInt, Width, ReadReq, Signed, Abs, StartDelta, CompDelta;
    ReadBack(s, f, Abs(ds), dc, Abs(da), rest);
    ReceivedClose(w, s, r, f, rest);
  }

  lemma SignedAbs(x: int)
    ensures Signed(x < 0, Abs(x)) == x
    ensures x >= 0 ==> Abs(x) == x
  {
  }

  lemma ReceivedClose(w: State, s: State, r: Req, f: Fmt, rest: seq<Cell>)
    requires InStep(w, s) && ReqOk(r) && f == WriteReq(w, r).1[0].fmt
    ensures var b := Received(s, f, Abs(StartDelta(w, r)), CompDelta(r), Abs(r.addr.hi - w.prevAddr), rest);
      && InStep(WriteReq(w, r).0, b.0) && Close(r, b.1)
      && b.1.addr.low == (r.addr.low & 0x1ff8) | ((r.addr.low << 3) & 0x1c0)
  {
    hide WriteReq, Received, LowBits, Mc, Bank, CDiv, Abs, StartDelta, CompDelta;
    ReceivedIs(w, s, r, f, rest);
    TimesClose(w, s, r);
    LowBitsBack(r.addr.low);
    KeptBits(r.addr.low);
  }

  lemma ReceivedIs(w: State, s: State, r: Req, f: Fmt, rest: seq<Cell>)
    requires InStep(w, s) && ReqOk(r) && f == WriteReq(w, r).1[0].fmt
    ensures WriteReq(w, r).0 == State(w.prevStart + StartDelta(w, r) * 1000, r.addr.hi)
    ensures var b := Received(s, f, Abs(StartDelta(w, r)), CompDelta(r), Abs(r.addr.hi - w.prevAddr), rest);
            var e := s.prevStart + StartDelta(w, r);
      b.0 == State(e, r.addr.hi) && b.1 == Entry(e, e + CompDelta(r), Addr(r.addr.hi, LowBits(Mc(r.addr.low), Bank(r.addr.low))))
  {
    hide Bytes, Width, CprsInt, LowBits, Mc, Bank, CDiv, Signed, Abs, StartDelta, CompDelta;
    SignedAbs(StartDelta(w, r));
    SignedAbs(r.addr.hi - w.prevAddr);
    SignedAbs(r.addr.hi);
  }

  lemma TimesClose(w: State, s: State, r: Req)
    requires InStep(w, s) && ReqOk(r)
    ensures var e := s.prevStart + StartDelta(w, r);
      && w.prevStart + StartDelta(w, r) * 1000 == 1000 * e && 0 <= e && 1000 * e < LIMIT / 2
      && -1000 < e * 1000 - r.start < 1000 && -2000 < (e + CompDelta(r)) * 1000 - r.comp < 2000
  {
    DeltasFit(w, r);
    hide Room, CDiv, CprsInt, Width, Abs, StartDelta, CompDelta;
  }

  lemma DeltasFit(w: State, r: Req)
    requires ReqOk(r) && 0 <= w.prevStart < LIMIT / 2 && 0 <= w.prevAddr < LIMIT
    ensures Abs(StartDelta(w, r)) < Room(Width(CprsInt(Abs(StartDelta(w, r)))))
    ensures CompDelta(r) < Room(Width(CprsInt(CompDelta(r))))
    ensures Abs(r.addr.hi - w.prevAddr) < Room(Width(CprsInt(Abs(r.addr.hi - w.prevAddr))))
    ensures var p := w.prevStart + StartDelta(w, r) * 1000; -1000 < r.start - p < 1000 && 0 <= p < LIMIT / 2
    ensures 0 <= (r.comp - r.start) - CompDelta(r) * 1000 < 1000
  {
    DivClose(r.start - w.prevStart);
    hide Room, Width, CprsInt;
    SizeSuffices(Abs(StartDelta(w, r)));
    SizeSuffices(CompDelta(r));
    SizeSuffices(Abs(r.addr.hi - w.prevAddr));
  }

  lemma StartsInOrder(r: Req)
    requires ReqOk(r)
    ensures r.start <= r.comp
  {
  }

  lemma IntBack(v: nat, n: nat, rest: seq<Cell>)
    requires v < Room(n)
    ensures ReadInt(Bytes(v, n) + rest, n) == Some((v, rest))
  {
    BytesValue(v, n, rest);
    assert (Bytes(v, n) + rest)[n..] == rest;
  }

  /** A record is read as it was written, and not a byte more. */
  lemma ReadBack(s: State, f: Fmt, v1: nat, v2: nat, v3: nat, rest: seq<Cell>)
    requires v1 < Room(Width(f.startSize)) && v2 < Room(Width(f.compSize)) && v3 < Room(Width(f.addrSize))
    ensures var cells := [Head(f)] + Bytes(v1, Width(f.startSize)) + Bytes(v2, Width(f.compSize)) + Bytes(v3, Width(f.addrSize));
            ReadReq(s, cells + rest) == Some(Received(s, f, v1, v2, v3, rest))
  {
    var b1, b2, b3 := Bytes(v1, Width(f.startSize)), Bytes(v2, Width(f.compSize)), Bytes(v3, Width(f.addrSize));
    hide Bytes, ReadInt, Room, Width, Received;
    IntBack(v1, Width(f.startSize), b2 + (b3 + rest));
    IntBack(v2, Width(f.compSize), b3 + rest);
    IntBack(v3, Width(f.addrSize), rest);
    var file := [Head(f)] + b1 + b2 + b3 + rest;
    assert file[0] == Head(f) && file[1..] == b1 + (b2 + (b3 + rest));
  }

  /** However many requests are written, each is read back close to what it was: the errors of the
      times do not add up. */
  lemma {:induction false} NoDrift(w: State, s: State, rs: seq<Req>)
    requires InStep(w, s) && AllOk(rs)
    ensures var t := ReadAll(s, WriteAll(w, rs));
            t.Some? && |t.value| == |rs| && forall i :: 0 <= i < |rs| ==> Close(rs[i], t.value[i])
    decreases |rs|
  {
    if rs != [] {
      StartsInOrder(rs[0]);
      hide Close, InStep, ReqOk, WriteReq, ReadReq;
      var (w', cells) := WriteReq(w, rs[0]);
      var rest := WriteAll(w', rs[1..]);
      OneRecord(w, s, rs[0], rest);
      var b := ReadReq(s, cells + rest);
      NoDrift(w', b.value.0, rs[1..]);
    }
  }

  /** A trace that is written and then read from the start. */
  lemma RoundTrip(rs: seq<Req>)
    requires AllOk(rs)
    ensures var t := ReadAll(State(0, 0), WriteAll(State(0, 0), rs));
            t.Some? && |t.value| == |rs| && forall i :: 0 <= i < |rs| ==> Close(rs[i], t.value[i])
  {
    NoDrift(State(0, 0), State(0, 0), rs);
  }

  class Trace {
    var file: seq<Cell>
    var prevStartTime: int
    var prevAddr: int

    function V(): State
      reads this
    {
      State(prevStartTime, prevAddr)
    }

    /** Opened for writing with an empty file, or for reading. */
    constructor (file: seq<Cell>)
      ensures this.file == file && V() == State(0, 0)
    {
      this.file, prevStartTime, prevAddr := file, 0, 0;
    }

    method Write(r: Req)
      requires ReqOk(r)
      modifies this
      ensures V() == WriteReq(old(V()), r).0 && file == old(file) + WriteReq(old(V()), r).1
    {
      var startDelta := CDiv(r.start - prevStartTime, 1000);
      prevStartTime := prevStartTime + startDelta * 1000;
      var startSign := startDelta < 0;
      if startSign {
        startDelta := -startDelta;
      }
      var compDelta := (r.comp - r.start) / 1000;
      var addrDelta := r.addr.hi - prevAddr;
      prevAddr := prevAddr + addrDelta;
      var addrSign := addrDelta < 0;
      if addrSign {
        addrDelta := -addrDelta;
      }
      var fmt := Fmt(Mc(r.addr.low), Bank(r.addr.low), CprsInt(startDelta), startSign,
                     CprsInt(compDelta), CprsInt(addrDelta), addrSign);
      file := file + ([Head(fmt)] + Bytes(startDelta, Width(fmt.startSize)) + Bytes(compDelta, Width(fmt.compSize))
                      + Bytes(addrDelta, Width(fmt.addrSize)));
    }

    /** The next record, if there is one. */
    method Read() returns (e: Option<Entry>)
      modifies this
      ensures var r := ReadReq(old(V()), old(file));
              if r.None? then e.None? else e == Some(r.value.1) && V() == r.value.0 && file == r.value.2
    {
      if file == [] || !file[0].Head? {
        return None;
      }
      var fmt := file[0].fmt;
      var start := ReadInt(file[1..], Width(fmt.startSize));
      if start.None? {
        return None;
      }
      var comp := ReadInt(start.value.1, Width(fmt.compSize));
      if comp.None? {
        return None;
      }
      var addr := ReadInt(comp.value.1, Width(fmt.addrSize));
      if addr.None? {
        return None;
      }
      var startDelta: int, addrDelta: int := start.value.0, addr.value.0;
      if fmt.startSign {
        startDelta := -startDelta;
      }
      if fmt.addrSign {
        addrDelta := -addrDelta;
      }
      prevStartTime := prevStartTime + startDelta;
      prevAddr := prevAddr + addrDelta;
      file := addr.value.1;
      e := Some(Entry(prevStartTime, prevStartTime + comp.value.0, Addr(Abs(prevAddr), LowBits(fmt.mc, fmt.bank))));
    }
  }
}
