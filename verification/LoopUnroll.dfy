/** Loops are unrolled by the lexer: the tokens of a loop's body are recorded and played back once
    for each value of the control variable, also while an outer loop is being played back. */
module LoopUnroll {

  import opened Wrappers

  /** Eor is what a recording gets at the end of the list being played back. */
  datatype Tok = Id(name: string) | Num(v: int) | Other(code: int) | Eor | Eof

  const FOR := Other(1)
  const OPEN := Other(2)
  const INT := Other(3)
  const EQUAL := Other(4)
  const SEMICOLON := Other(5)
  const LESS := Other(6)
  const PLUS_EQUAL := Other(7)
  const CLOSE := Other(8)
  const PLUS := Other(9)
  const PLUS_PLUS := Other(10)
  const IF := Other(11)
  const ELSE := Other(12)
  const SWITCH := Other(13)
  const LBRACE := Other(14)
  const RBRACE := Other(15)
  const MINUS := Other(16)
  const TILDA := Other(17)
  const BANG := Other(18)
  const ASTERISK := Other(19)
  const SLASH := Other(20)
  const PERCENT := Other(21)
  const LESS_LESS := Other(22)
  const GREATER_GREATER := Other(23)
  const AMPERSAND := Other(24)
  const CAROT := Other(25)
  const VBAR := Other(26)
  const QUESTION := Other(27)
  const COLON := Other(28)

  /** The first tokens of statements that go on to the next semicolon: names, and other keywords. */
  predicate Starts(t: Tok) { t.Id? || (t.Other? && t.code >= 32) }

  // ------------------------------------------------------------------------------------------
  // Where a statement ends
  // ------------------------------------------------------------------------------------------

  /** Nested braces, or parentheses, are counted. */
  function NextLevel(t: Tok, stop: Tok, lvl: nat): nat
    requires t == stop ==> lvl > 0
  {
    if t == stop then lvl - 1
    else if (stop == RBRACE && t == LBRACE) || (stop == CLOSE && t == OPEN) then lvl + 1
    else lvl
  }

  /** Where reading from index `i` on comes to the token `stop`, outside of what is nested. */
  function StopAt(w: seq<Tok>, i: nat, stop: Tok, lvl: nat): (r: Option<nat>)
    ensures r.Some? ==> i <= r.value < |w|
    decreases |w| - i
  {
    if i >= |w| || w[i] == Eof then None
    else if w[i] == stop && lvl == 0 then Some(i)
    else StopAt(w, i + 1, stop, NextLevel(w[i], stop, lvl))
  }

  function After(r: Option<nat>): Option<nat> {
    if r.Some? then Some(r.value + 1) else None
  }

  /** The index behind the statement that starts at index `i`; None if it is not complete. */
  function Skip(w: seq<Tok>, i: nat): (r: Option<nat>)
    ensures r.Some? ==> i < r.value <= |w|
    decreases |w| - i
  {
    if i >= |w| then None
    else if w[i] in {IF, SWITCH, FOR} then
      var c := StopAt(w, i + 2, CLOSE, 0);
      if c.None? then None
      else
        var j := Skip(w, c.value + 1);
        if w[i] == IF && j.Some? && j.value < |w| && w[j.value] == ELSE then Skip(w, j.value + 1) else j
    else if w[i] == LBRACE then After(StopAt(w, i + 1, RBRACE, 0))
    else if w[i] == SEMICOLON then Some(i + 1)
    else if Starts(w[i]) then After(StopAt(w, i + 1, SEMICOLON, 0))
    else None
  }

  /** A recorded list: the one token at `pos` was played last. */
  datatype Record = Record(list: seq<Tok>, ctrlVar: string, value: int, exit: int, inc: int, pos: int)

  function Subst(t: Tok, x: string, v: int): Tok {
    if t == Id(x) then Num(v) else t
  }

  function SubstAll(ts: seq<Tok>, x: string, v: int): (r: seq<Tok>)
    ensures |r| == |ts|
  {
    seq(|ts|, i requires 0 <= i < |ts| => Subst(ts[i], x, v))
  }

  /** The body once for each of v, v + inc, ... below the exit value. */
  function Passes(body: seq<Tok>, x: string, v: int, exit: int, inc: int): seq<Tok>
    decreases exit - v
  {
    if v >= exit || inc <= 0 then [] else SubstAll(body, x, v) + Passes(body, x, v + inc, exit, inc)
  }

  /** What a record that is being played back still has to give. */
  function Rest(r: Record): seq<Tok>
    requires -1 <= r.pos < |r.list|
  {
    SubstAll(r.list[r.pos + 1..], r.ctrlVar, r.value) + Passes(r.list, r.ctrlVar, r.value + r.inc, r.exit, r.inc)
  }

  predicate Playing(r: Record) {
    r.list != [] && Eor !in r.list && -1 <= r.pos < |r.list| && r.inc > 0 && r.value < r.exit
  }

  predicate AllPlaying(rs: seq<Record>) {
    forall i :: 0 <= i < |rs| ==> Playing(rs[i])
  }

  function RestAll(rs: seq<Record>): seq<Tok>
    requires AllPlaying(rs)
  {
    if rs == [] then [] else Rest(rs[|rs| - 1]) + RestAll(rs[..|rs| - 1])
  }

  lemma RestAllMore(rs: seq<Record>, r: Record)
    requires AllPlaying(rs) && Playing(r)
    ensures AllPlaying(rs + [r]) && RestAll(rs + [r]) == Rest(r) + RestAll(rs)
  {
    assert (rs + [r])[..|rs|] == rs;
  }

  /** One token of the pass. */
  lemma RestStep(r: Record)
    requires Playing(r) && r.pos + 1 < |r.list|
    ensures Rest(r) == [Subst(r.list[r.pos + 1], r.ctrlVar, r.value)] + Rest(r.(pos := r.pos + 1))
  {
    assert r.list[r.pos + 1..] == [r.list[r.pos + 1]] + r.list[r.pos + 2..];
    assert SubstAll(r.list[r.pos + 1..], r.ctrlVar, r.value)
        == [Subst(r.list[r.pos + 1], r.ctrlVar, r.value)] + SubstAll(r.list[r.pos + 2..], r.ctrlVar, r.value);
  }

  /** The end of a pass: the next value, or nothing more. */
  lemma RestTurn(r: Record)
    requires Playing(r) && r.pos + 1 == |r.list|
    ensures r.value + r.inc < r.exit ==> Rest(r) == Rest(r.(value := r.value + r.inc, pos := -1))
    ensures r.value + r.inc >= r.exit ==> Rest(r) == []
  {
    assert r.list[r.pos + 1..] == [] && SubstAll([], r.ctrlVar, r.value) == [];
    assert r.list[0..] == r.list;
  }

  lemma RestStart(r: Record)
    requires Playing(r) && r.pos == -1
    ensures Rest(r) == Passes(r.list, r.ctrlVar, r.value, r.exit, r.inc) && Rest(r) != []
  {
    assert r.list[0..] == r.list;
  }

  /** What is left of the pass. */
  function Left(r: Record): (w: seq<Tok>)
    requires -1 <= r.pos < |r.list|
    ensures |w| == |r.list| - r.pos - 1
  {
    SubstAll(r.list[r.pos + 1..], r.ctrlVar, r.value)
  }

  /** The pass without its next `n` tokens. */
  lemma LeftSkip(r: Record, n: nat)
    requires -1 <= r.pos && r.pos + n < |r.list|
    ensures Left(r.(pos := r.pos + n)) == Left(r)[n..]
  {
    assert r.list[r.pos + 1..][n..] == r.list[r.pos + n + 1..];
  }

  lemma RestSkip(r: Record, n: nat)
    requires Playing(r) && r.pos + n < |r.list|
    ensures Playing(r.(pos := r.pos + n))
    ensures Rest(r) == Left(r)[..n] + Rest(r.(pos := r.pos + n))
  {
    LeftSkip(r, n);
    hide SubstAll;
    assert Left(r) == Left(r)[..n] + Left(r)[n..];
  }

  lemma LeftAt(r: Record, n: nat)
    requires -1 <= r.pos && r.pos + n + 1 < |r.list|
    ensures Left(r)[n] == At(r.(pos := r.pos + n + 1))
  {
  }

  lemma LeftNoEor(r: Record)
    requires Playing(r)
    ensures Eor !in Left(r)
  {
    forall i | 0 <= i < |Left(r)| ensures Left(r)[i] != Eor {
      assert Left(r)[i] == Subst(r.list[r.pos + 1 + i], r.ctrlVar, r.value);
    }
  }

  /** The record with one more token played. */
  function Stepped(r: Record): Record {
    if r.pos + 1 < |r.list| then r.(pos := r.pos + 1) else r.(value := r.value + r.inc, pos := 0)
  }

  predicate Finished(r: Record) { r.pos + 1 == |r.list| && r.value + r.inc >= r.exit }

  /** The records when the next token is read: those that are done are left. */
  function NextRecords(rs: seq<Record>): seq<Record> {
    if rs == [] then []
    else
      var n := |rs| - 1;
      if Finished(rs[n]) then NextRecords(rs[..n]) else rs[n := Stepped(rs[n])]
  }

  /** The token at the current place of a record. */
  function At(r: Record): Tok {
    if 0 <= r.pos < |r.list| then Subst(r.list[r.pos], r.ctrlVar, r.value) else Eor
  }

  lemma SteppedGives(r: Record)
    requires Playing(r)
    ensures Finished(r) ==> Rest(r) == []
    ensures !Finished(r) ==> Playing(Stepped(r)) && Stepped(r).pos >= 0 && Rest(r) == [At(Stepped(r))] + Rest(Stepped(r))
  {
    if r.pos + 1 < |r.list| {
      RestStep(r);
    } else {
      RestTurn(r);
      if !Finished(r) {
        RestStep(r.(value := r.value + r.inc, pos := -1));
      }
    }
  }

  /** The records and the file before a statement is recorded. */
  predicate IsJob(was: seq<Record>, wasFile: seq<Tok>) {
    |was| >= 1 && was[|was| - 1].list == [] && AllPlaying(was[..|was| - 1]) && Eor !in wasFile
    && (|was| >= 2 ==> Playing(was[|was| - 2]))
  }

  /** The tokens then to be read. */
  function Ahead(was: seq<Record>, wasFile: seq<Tok>): seq<Tok>
    requires IsJob(was, wasFile)
  {
    if |was| >= 2 then Left(was[|was| - 2]) else wasFile
  }

  lemma AheadNoEor(was: seq<Record>, wasFile: seq<Tok>)
    requires IsJob(was, wasFile)
    ensures Eor !in Ahead(was, wasFile)
  {
    if |was| >= 2 { LeftNoEor(was[|was| - 2]); }
  }

  class Lexer {
    var file: seq<Tok>
    var records: seq<Record>
    var recording: bool
    var playback: bool
    var level: int
    var removed: Option<Tok>
    var token: Tok

    ghost predicate Valid()
      reads this
    {
      && -1 <= level && (playback <==> level >= 0) && (playback <==> removed.Some?)
      && |records| == level + 1 + (if recording then 1 else 0)
      && AllPlaying(records[..level + 1]) && Eor !in file
    }

    ghost function Behind(): seq<Tok>
      reads this
    {
      (if removed.Some? then [removed.value] else []) + file
    }

    /** The tokens to come when nothing is recorded. */
    ghost function Upcoming(): seq<Tok>
      requires Valid()
      reads this
    {
      RestAll(records[..level + 1]) + Behind()
    }

    constructor (file: seq<Tok>)
      requires Eor !in file
      ensures Valid() && !recording && Upcoming() == file
    {
      this.file := file;
      records, recording, playback, level, removed, token := [], false, false, -1, None, Eof;
      new;
      assert RestAll([]) + [] + file == file;
    }

    /** The next token of the input files, Eof behind the last one. */
    method GetNextToken2() returns (tk: Tok)
      modifies this`file, this`token
      ensures token == tk
      ensures if old(file) == [] then tk == Eof && file == [] else old(file) == [tk] + file
    {
      if file == [] {
        tk := Eof;
      } else {
        tk := file[0];
        file := file[1..];
      }
      token := tk;
    }

    /** What comes from the current level, and what comes behind it. */
    lemma Top()
      requires Valid() && playback && !recording
      ensures Playing(records[level]) && AllPlaying(records[..level]) && records[..level] + [records[level]] == records
      ensures Upcoming() == Rest(records[level]) + (RestAll(records[..level]) + Behind())
    {
      hide Rest, Playing;
      assert records[..level + 1] == records[..level] + [records[level]];
      assert records[..level + 1][level] == records[level];
      RestAllMore(records[..level], records[level]);
    }

    lemma StillValid(outer: seq<Record>, r: Record)
      requires AllPlaying(outer) && Playing(r) && records == outer + [r] && level == |outer| && !recording
      requires playback && removed.Some? && Eor !in file
      ensures Valid()
    {
      assert records[..level + 1] == records;
    }

    /** The next token, where nothing is recorded. */
    method GetNextToken() returns (tk: Tok)
      requires Valid() && !recording && Upcoming() != []
      modifies this
      ensures Valid() && !recording && token == tk && level <= old(level)
      ensures old(Upcoming()) == [tk] + Upcoming()
      ensures playback ==> records[level].pos >= 0 && tk == At(records[level])
      ensures old(playback) ==> records == NextRecords(old(records)) && file == old(file)
      ensures old(playback) ==> if playback then removed == old(removed) else Some(tk) == old(removed)
      ensures !old(playback) ==> !playback && old(file) == [tk] + file
      decreases |records|
    {
      hide Rest, RestAll, Passes, SubstAll, Playing, AllPlaying, Stepped, At;
      if !playback {
        assert RestAll(records[..level + 1]) == [] by { NoRecords(); }
        tk := GetNextToken2();
        assert RestAll(records[..level + 1]) == [] by { NoRecords(); }
        return;
      }
      Top();
      SteppedGives(records[level]);
      if !Finished(records[level]) {
        Advance();
      } else {
        // the loop is done
        PopLevel();
        if records == [] {
          tk := removed.value;
          removed := None;
          token := tk;
          assert RestAll(records[..level + 1]) == [] by { NoRecords(); }
          return;
        }
        tk := GetNextToken();
        if records == [] {
          return;
        }
      }
      tk := At(records[level]);
      token := tk;
    }

    lemma NoRecords()
      requires level == -1 && records == []
      ensures AllPlaying(records[..level + 1]) && RestAll(records[..level + 1]) == []
    {
    }

    /** The record at the current level is dropped. */
    method PopLevel()
      requires Valid() && !recording && playback && Rest(records[level]) == []
      modifies this`records, this`level, this`playback
      ensures records == old(records)[..|old(records)| - 1] && level == old(level) - 1 && playback == (records != [])
      ensures records != [] ==> Valid() && Upcoming() == old(Upcoming())
      ensures records == [] ==> Behind() == old(Upcoming())
    {
      Top();
      hide Rest, Playing;
      level := level - 1;
      records := records[..|records| - 1];
      playback := records != [];
      assert records[..level + 1] == records;
      assert RestAll([]) == [];
    }

    /** The next token of the list being played back, from its start with the next value when it
        has come to its end. */
    method Advance()
      requires Valid() && !recording && playback && !Finished(records[level])
      modifies this`records
      ensures Valid() && |records| == |old(records)| && records[level].pos >= 0
      ensures old(Upcoming()) == [At(records[level])] + Upcoming()
      ensures records == NextRecords(old(records))
    {
      hide Rest, RestAll, Passes, SubstAll, Playing, AllPlaying, At;
      Top();
      ghost var outer := records[..level];
      var r := records[level];
      SteppedGives(r);
      records := records[level := Stepped(r)];
      assert records == outer + [Stepped(r)] && records[..level] == outer;
      StillValid(outer, Stepped(r));
      Top();
      Regroup(At(Stepped(r)), Rest(Stepped(r)), RestAll(outer) + Behind());
    }

    static lemma Regroup(t: Tok, a: seq<Tok>, b: seq<Tok>)
      ensures [t] + a + b == [t] + (a + b)
    {
    }

    // ----------------------------------------------------------------------------------------
    // Recording
    // ----------------------------------------------------------------------------------------

    /** The other path of GetNextToken: what is read is recorded, and the list being played back is
        not left. */
    method GetRecordedToken() returns (tk: Tok)
      requires Valid() && recording
      modifies this
      ensures token == tk && recording == old(recording) && playback == old(playback) && level == old(level)
      ensures removed == old(removed) && |records| == |old(records)|
      ensures playback && old(records)[level].pos + 1 == |old(records)[level].list| ==>
                tk == Eor && records == old(records) && file == old(file)
      ensures playback && old(records)[level].pos + 1 < |old(records)[level].list| ==>
        var r := old(records)[level];
        var r1 := r.(pos := r.pos + 1);
        var b := old(records)[level + 1];
        && tk == At(r1) && file == old(file)
        && records == old(records)[level := r1][level + 1 := b.(list := b.list + [tk])]
      ensures !playback && old(file) != [] ==>
        && tk == old(file)[0] && file == old(file)[1..]
        && records == [old(records)[0].(list := old(records)[0].list + [tk])]
    {
      if playback {
        var r := records[level];
        assert Playing(records[..level + 1][level]);
        if r.pos + 1 == |r.list| {
          tk := Eor;
          token := tk;
          return;
        }
        records := records[level := r.(pos := r.pos + 1)];
        tk := Subst(r.list[r.pos + 1], r.ctrlVar, r.value);
        token := tk;
      } else {
        tk := GetNextToken2();
      }
      var b := records[|records| - 1];
      records := records[|records| - 1 := b.(list := b.list + [tk])];
    }

    /** A new list is recorded from here on. */
    method RecordTokens()
      requires Valid() && !recording
      modifies this`records, this`recording
      ensures Valid() && recording && records == old(records) + [Record([], "", 0, 0, 0, -1)]
    {
      hide AllPlaying, Playing;
      ghost var was := records;
      WholeTaken(was, Record([], "", 0, 0, 0, -1));
      records := records + [Record([], "", 0, 0, 0, -1)];
      recording := true;
    }

    static lemma WholeTaken(rs: seq<Record>, r: Record)
      ensures rs[..|rs|] == rs && (rs + [r])[..|rs|] == rs
    {
    }

    /** The tokens that can be read without leaving the list being played back. */
    ghost function Window(): seq<Tok>
      requires Valid()
      reads this
    {
      assert level >= 0 ==> records[..level + 1][level] == records[level];
      if level >= 0 then Left(records[level]) else file
    }

    /** `i` tokens were read and recorded. */
    ghost predicate Recorded(was: seq<Record>, wasFile: seq<Tok>, i: nat)
      requires IsJob(was, wasFile) && i <= |Ahead(was, wasFile)|
      reads this
    {
      var list := Ahead(was, wasFile)[..i];
      level == |was| - 2 &&
      if level >= 0 then
        && file == wasFile
        && records == was[level := was[level].(pos := was[level].pos + i)][level + 1 := was[level + 1].(list := list)]
      else
        file == wasFile[i..] && records == [was[0].(list := list)]
    }

    /** The current token is the one at index `c`; behind the end of a list being played back it is Eor. */
    ghost predicate Reading(was: seq<Record>, wasFile: seq<Tok>, c: nat)
      requires IsJob(was, wasFile)
      reads this
    {
      var w := Ahead(was, wasFile);
      && level == |was| - 2 && c <= |w| && (level == -1 ==> c < |w|)
      && token == (if c < |w| then w[c] else Eor)
      && Recorded(was, wasFile, if c < |w| then c + 1 else c)
      && Valid() && recording
    }

    /** The next token of a statement, while it is recorded. */
    method ReadOne(ghost was: seq<Record>, ghost wasFile: seq<Tok>, ghost i: nat)
      requires Valid() && recording && IsJob(was, wasFile) && i <= |Ahead(was, wasFile)| && Recorded(was, wasFile, i)
      requires level == -1 ==> i < |Ahead(was, wasFile)|
      modifies this
      ensures level == old(level) && playback == old(playback) && removed == old(removed)
      ensures Reading(was, wasFile, i)
    {
      hide Left, AllPlaying, At;
      ghost var w := Ahead(was, wasFile);
      if level >= 0 && i < |w| {
        LeftAt(was[level], i);
      }
      var tk := GetRecordedToken();
      if i < |w| {
        assert w[..i + 1] == w[..i] + [w[i]];
        RecordedValid(was, wasFile, i + 1);
      }
    }

    lemma RecordedValid(was: seq<Record>, wasFile: seq<Tok>, i: nat)
      requires IsJob(was, wasFile) && i <= |Ahead(was, wasFile)| && Recorded(was, wasFile, i)
      ensures AllPlaying(records[..level + 1]) && Eor !in file && |records| == level + 2
    {
      if level >= 0 {
        assert records[..level + 1] == was[..level + 1][level := was[level].(pos := was[level].pos + i)];
      }
    }

    /** Tokens are read up to `stop`, outside of nested braces or parentheses. */
    method SkipTo(stop: Tok, ghost was: seq<Record>, ghost wasFile: seq<Tok>, ghost c: nat) returns (ghost e: nat)
      requires IsJob(was, wasFile) && Reading(was, wasFile, c)
      requires StopAt(Ahead(was, wasFile), c + 1, stop, 0).Some?
      modifies this
      ensures level == old(level) && playback == old(playback) && removed == old(removed)
      ensures Some(e) == StopAt(Ahead(was, wasFile), c + 1, stop, 0) && Reading(was, wasFile, e)
    {
      hide Recorded, Left, AllPlaying, Valid;
      ghost var w := Ahead(was, wasFile);
      e := c;
      var lvl := 0;
      while true
        invariant level == old(level) && playback == old(playback) && removed == old(removed)
        invariant e < |w| && Reading(was, wasFile, e)
        invariant StopAt(w, e + 1, stop, lvl) == StopAt(w, c + 1, stop, 0)
        decreases |w| - e
      {
        ReadOne(was, wasFile, e + 1);
        e := e + 1;
        if token == stop {
          if lvl == 0 {
            return;
          }
          lvl := lvl - 1;
        } else if (stop == RBRACE && token == LBRACE) || (stop == CLOSE && token == OPEN) {
          lvl := lvl + 1;
        }
      }
    }

    /** Tokens are read up to `stop`, and one token more. */
    method SkipBehind(stop: Tok, ghost was: seq<Record>, ghost wasFile: seq<Tok>, ghost c: nat) returns (ghost e: nat)
      requires IsJob(was, wasFile) && Reading(was, wasFile, c)
      requires var r := StopAt(Ahead(was, wasFile), c + 1, stop, 0);
               r.Some? && (level == -1 ==> r.value + 1 < |Ahead(was, wasFile)|)
      modifies this
      ensures level == old(level) && playback == old(playback) && removed == old(removed)
      ensures Some(e) == After(StopAt(Ahead(was, wasFile), c + 1, stop, 0)) && Reading(was, wasFile, e)
    {
      hide Recorded, Left, AllPlaying, Valid, StopAt;
      e := SkipTo(stop, was, wasFile, c);
      ReadOne(was, wasFile, e + 1);
      e := e + 1;
    }

    /** The parser reads over one statement, and one token more. */
    method SkipStatement(ghost was: seq<Record>, ghost wasFile: seq<Tok>, ghost c: nat) returns (ghost e: nat)
      requires IsJob(was, wasFile) && Reading(was, wasFile, c)
      requires Skip(Ahead(was, wasFile), c).Some?
      requires level == -1 ==> Skip(Ahead(was, wasFile), c).value < |Ahead(was, wasFile)|
      modifies this
      ensures level == old(level) && playback == old(playback) && removed == old(removed)
      ensures Some(e) == Skip(Ahead(was, wasFile), c) && Reading(was, wasFile, e)
      decreases |Ahead(was, wasFile)| - c, 1
    {
      hide Recorded, Left, AllPlaying, Valid, StopAt, IsJob;
      if token in {IF, SWITCH, FOR} {
        e := SkipGuarded(was, wasFile, c);
      } else if token == LBRACE {
        e := SkipBehind(RBRACE, was, wasFile, c);
      } else if token == SEMICOLON {
        ReadOne(was, wasFile, c + 1);
        e := c + 1;
      } else {
        e := SkipBehind(SEMICOLON, was, wasFile, c);
      }
    }

    /** An if, switch or for: what stands in parentheses, a statement, and an else with another one. */
    method SkipGuarded(ghost was: seq<Record>, ghost wasFile: seq<Tok>, ghost c: nat) returns (ghost e: nat)
      requires IsJob(was, wasFile) && Reading(was, wasFile, c) && token in {IF, SWITCH, FOR}
      requires Skip(Ahead(was, wasFile), c).Some?
      requires level == -1 ==> Skip(Ahead(was, wasFile), c).value < |Ahead(was, wasFile)|
      modifies this
      ensures level == old(level) && playback == old(playback) && removed == old(removed)
      ensures Some(e) == Skip(Ahead(was, wasFile), c) && Reading(was, wasFile, e)
      decreases |Ahead(was, wasFile)| - c, 0
    {
      hide Recorded, Left, AllPlaying, Valid, StopAt, IsJob;
      var isIf := token == IF;
      ReadOne(was, wasFile, c + 1);
      e := SkipBehind(CLOSE, was, wasFile, c + 1);
      e := SkipStatement(was, wasFile, e);
      if isIf && token == ELSE {
        ReadOne(was, wasFile, e + 1);
        e := SkipStatement(was, wasFile, e + 1);
      }
    }

    /** The token behind the statement is taken out of the recording again: at the outermost level it is
        kept aside, further in the list being played back steps back, unless it had come to its end. */
    method DropBeyond(ghost was: seq<Record>, ghost wasFile: seq<Tok>, ghost n: nat)
      requires IsJob(was, wasFile) && Reading(was, wasFile, n)
      modifies this`records, this`removed
      ensures if playback then removed == old(removed) && Recorded(was, wasFile, n)
              else removed == Some(wasFile[n]) && file == wasFile[n + 1..] && records == [was[0].(list := wasFile[..n])]
    {
      hide Left, AllPlaying, Playing;
      ghost var w := Ahead(was, wasFile);
      assert playback <==> level >= 0;
      assert n < |w| ==> w[..n + 1][..n] == w[..n] && w[..n + 1][n] == w[n];
      assert token == Eor <==> n == |w| by { AheadNoEor(was, wasFile); }
      RemoveLastRecordedToken();
    }

    method RemoveLastRecordedToken()
      requires level >= -1 && |records| == level + 2
      requires token != Eor ==> records[level + 1].list != []
      requires level == -1 ==> token != Eor
      modifies this`records, this`removed
      ensures level == -1 ==> removed == Some(old(records)[0].list[|old(records)[0].list| - 1])
      ensures level >= 0 ==> removed == old(removed)
      ensures token == Eor ==> records == old(records)
      ensures token != Eor ==>
        var b := old(records)[level + 1];
        var rs := if level >= 0 then old(records)[level := old(records)[level].(pos := old(records)[level].pos - 1)] else old(records);
        records == rs[level + 1 := b.(list := b.list[..|b.list| - 1])]
    {
      var n := |records| - 1;
      if |records| == 1 {
        removed := Some(records[0].list[|records[0].list| - 1]);
      } else if token != Eor {
        records := records[level := records[level].(pos := records[level].pos - 1)];
      }
      if token != Eor {
        records := records[n := records[n].(list := records[n].list[..|records[n].list| - 1])];
      }
    }

    // ----------------------------------------------------------------------------------------
    // Loops
    // ----------------------------------------------------------------------------------------

    /** The outer records when a statement of `len` tokens has been read over. */
    static ghost function Outer(rs: seq<Record>, len: nat): seq<Record> {
      if rs == [] then [] else rs[|rs| - 1 := rs[|rs| - 1].(pos := rs[|rs| - 1].pos + len)]
    }

    /** A for loop behind its header: the statement is recorded, and played back for each value.
        What the parser reads from then on is the statement once for each value, with the value
        in place of the control variable, and then what followed it. */
    method ForStatement(ctrlVar: string, init: int, exit: int, inc: int, ghost len: nat)
      requires Valid() && !recording && inc > 0
      requires Skip(Window(), 0) == Some(len) && (playback || len < |file|)
      requires init < exit || !playback
      modifies this
      ensures Valid() && !recording
      ensures exists rest :: old(Upcoming()) == old(Window())[..len] + rest
                && [token] + Upcoming() == Passes(old(Window())[..len], ctrlVar, init, exit, inc) + rest
      ensures init < exit ==>
        && playback && token == At(records[level])
        && records == NextRecords(Outer(old(records), len) + [Record(old(Window())[..len], ctrlVar, init, exit, inc, -1)])
        && AllPlaying(Outer(old(records), len))
        && (if old(playback) then removed == old(removed) && file == old(file)
            else removed == Some(old(file)[len]) && file == old(file)[len + 1..])
      ensures init >= exit ==> !playback && token == old(file)[len] && file == old(file)[len + 1..]
    {
      hide Rest, RestAll, Passes, SubstAll, AllPlaying, Left, Skip, Playing, At;
      ghost var outer, rest := RecordBody(ctrlVar, init, exit, inc, len);
      var b := records[level + 1];
      if init < exit {
        playback := true;
        level := level + 1;
        PlaysBody(b, old(Window()), len);
        StartPlayback(outer, b, rest);
        var tk := GetNextToken();
        OneMoreLevel(outer, b);
      } else {
        // the loop is left at once
        records := records[..|records| - 1];
        playback := false;
        token := removed.value;
        removed := None;
        NoRecords();
        NoPasses(b.list, ctrlVar, init, exit, inc);
        assert [token] + Upcoming() == [] + rest;
      }
    }

    /** The statement is recorded, with the values that the control variable shall take. */
    method RecordBody(ctrlVar: string, init: int, exit: int, inc: int, ghost len: nat)
      returns (ghost outer: seq<Record>, ghost rest: seq<Tok>)
      requires Valid() && !recording
      requires Skip(Window(), 0) == Some(len) && (playback || len < |file|)
      modifies this
      ensures !recording && level == old(level) && playback == old(playback) && Eor !in file && Eor !in old(Window())
      ensures outer == Outer(old(records), len) && |outer| == level + 1
      ensures records == outer + [Record(old(Window())[..len], ctrlVar, init, exit, inc, -1)]
      ensures AllPlaying(outer) && rest == RestAll(outer) + Behind() && old(Upcoming()) == old(Window())[..len] + rest
      ensures if playback then removed == old(removed) && file == old(file)
              else removed == Some(old(file)[len]) && file == old(file)[len + 1..]
      ensures removed.Some?
    {
      hide Rest, RestAll, Passes, SubstAll, AllPlaying, Left, Skip, Playing, Upcoming, Window, Valid;
      rest := Split(len);
      LevelFacts(len);
      ReadBody(len);
      var b := records[level + 1].(ctrlVar := ctrlVar, value := init, exit := exit, inc := inc);
      records := records[level + 1 := b];
      recording := false;
      outer := records[..level + 1];
      Continues(outer, rest, old(level), old(records), old(file), old(removed), len);
    }

    lemma LevelFacts(len: nat)
      requires Valid() && !recording && len <= |Window()|
      ensures level >= -1 && |records| == level + 1 && Eor !in file && (playback <==> level >= 0) && (playback <==> removed.Some?)
      ensures playback ==> -1 <= records[level].pos && records[level].pos + len < |records[level].list|
      ensures !playback ==> Window() == file
    {
    }

    /** The statement is read over, and recorded. */
    method ReadBody(ghost len: nat)
      requires Valid() && !recording
      requires Skip(Window(), 0) == Some(len) && (playback || len < |file|)
      modifies this
      ensures recording && level == old(level) && playback == old(playback) && |old(records)| == level + 1
      ensures records == Outer(old(records), len) + [Record(old(Window())[..len], "", 0, 0, 0, -1)]
      ensures if playback then removed == old(removed) && file == old(file)
              else removed == Some(old(file)[len]) && file == old(file)[len + 1..]
    {
      hide Passes, SubstAll, AllPlaying, Left, Skip, Playing, Recorded, IsJob, Valid, Ahead, Window;
      LevelFacts(len);
      JobStarts();
      RecordTokens();
      ghost var was, wasFile := records, file;
      NothingRecorded(was, wasFile);
      ReadStatement(was, wasFile, len);
      RecordedIs(was, wasFile, len);
    }

    method ReadStatement(ghost was: seq<Record>, ghost wasFile: seq<Tok>, ghost len: nat)
      requires Valid() && recording && IsJob(was, wasFile) && Recorded(was, wasFile, 0)
      requires Skip(Ahead(was, wasFile), 0) == Some(len) && (level == -1 ==> len < |Ahead(was, wasFile)|)
      modifies this
      ensures recording && level == old(level) && playback == old(playback)
      ensures if playback then removed == old(removed) && Recorded(was, wasFile, len)
              else removed == Some(wasFile[len]) && file == wasFile[len + 1..] && records == [was[0].(list := wasFile[..len])]
    {
      hide Passes, SubstAll, AllPlaying, Left, Skip, Playing, Recorded, IsJob, Valid, Ahead;
      ReadOne(was, wasFile, 0);
      ghost var n := SkipStatement(was, wasFile, 0);
      DropBeyond(was, wasFile, len);
    }

    lemma JobStarts()
      requires Valid() && !recording
      ensures var was := records + [Record([], "", 0, 0, 0, -1)]; IsJob(was, file) && Ahead(was, file) == Window()
      ensures level == |records| - 1
    {
      hide Left, Playing;
      assert records[..level + 1] == records;
      assert (records + [Record([], "", 0, 0, 0, -1)])[..|records|] == records;
    }

    lemma NothingRecorded(was: seq<Record>, wasFile: seq<Tok>)
      requires IsJob(was, wasFile) && was == records && wasFile == file && level == |was| - 2
      ensures Recorded(was, wasFile, 0)
    {
      hide Left;
    }

    lemma RecordedIs(was: seq<Record>, wasFile: seq<Tok>, n: nat)
      requires IsJob(was, wasFile) && n <= |Ahead(was, wasFile)|
      requires was[|was| - 1] == Record([], "", 0, 0, 0, -1)
      ensures |was| >= 2 && Recorded(was, wasFile, n) ==>
                records == Outer(was[..|was| - 1], n) + [Record(Ahead(was, wasFile)[..n], "", 0, 0, 0, -1)] && file == wasFile
      ensures |was| == 1 ==> Ahead(was, wasFile) == wasFile && was[..|was| - 1] == [] && was == [was[0]]
    {
      hide Left, AllPlaying, Playing;
      if |was| >= 2 && Recorded(was, wasFile, n) {
        var r := was[level].(pos := was[level].pos + n);
        assert was[..level + 1][level := r] == was[level := r][..level + 1];
      }
    }

    static lemma PlaysBody(b: Record, w: seq<Tok>, len: nat)
      requires 0 < len <= |w| && b.list == w[..len] && Eor !in w && b.pos == -1 && b.inc > 0 && b.value < b.exit
      ensures Playing(b)
    {
    }

    static lemma OneMoreLevel(outer: seq<Record>, b: Record)
      requires Playing(b) && b.pos == -1
      ensures NextRecords(outer + [b]) == outer + [Stepped(b)]
    {
      assert (outer + [b])[|outer| := Stepped(b)] == outer + [Stepped(b)];
    }

    static lemma NoPasses(body: seq<Tok>, x: string, init: int, exit: int, inc: int)
      requires init >= exit
      ensures Passes(body, x, init, exit, inc) == []
    {
    }

    /** What comes behind the statement. */
    lemma Split(len: nat) returns (rest: seq<Tok>)
      requires Valid() && !recording && len <= |Window()|
      ensures Upcoming() == Window()[..len] + rest && Eor !in Window()
      ensures playback ==>
        var r := records[level];
        && AllPlaying(records[..level]) && Playing(r.(pos := r.pos + len))
        && rest == Rest(r.(pos := r.pos + len)) + (RestAll(records[..level]) + Behind())
      ensures !playback ==> rest == file[len..] && records == []
    {
      hide Rest, RestAll, Left, Passes, SubstAll, AllPlaying;
      if playback {
        Top();
        var r := records[level];
        RestSkip(r, len);
        LeftNoEor(r);
        rest := Rest(r.(pos := r.pos + len)) + (RestAll(records[..level]) + Behind());
        Associates(Left(r)[..len], Rest(r.(pos := r.pos + len)), RestAll(records[..level]) + Behind());
      } else {
        NoRecords();
        rest := file[len..];
        assert file == file[..len] + rest;
        assert Upcoming() == file;
      }
    }

    static lemma Associates(a: seq<Tok>, b: seq<Tok>, c: seq<Tok>)
      ensures a + b + c == a + (b + c)
    {
    }

    /** After the recording the rest still comes: from the outer records, the token kept aside
        and the file. */
    lemma Continues(outer: seq<Record>, rest: seq<Tok>, lvl: int, was: seq<Record>, wasFile: seq<Tok>,
                    wasRemoved: Option<Tok>, len: nat)
      requires lvl == level >= -1 && |records| == lvl + 2 && outer == records[..lvl + 1] && |was| == lvl + 1
      requires lvl >= 0 ==>
        && -1 <= was[lvl].pos && was[lvl].pos + len < |was[lvl].list|
        && outer == was[lvl := was[lvl].(pos := was[lvl].pos + len)] && file == wasFile && removed == wasRemoved
        && AllPlaying(was[..lvl]) && Playing(was[lvl].(pos := was[lvl].pos + len))
        && rest == Rest(was[lvl].(pos := was[lvl].pos + len)) + (RestAll(was[..lvl]) +
             ((if wasRemoved.Some? then [wasRemoved.value] else []) + wasFile))
      requires lvl == -1 ==> len < |wasFile| && removed == Some(wasFile[len]) && file == wasFile[len + 1..] && rest == wasFile[len..]
      ensures AllPlaying(outer) && rest == RestAll(outer) + Behind()
    {
      hide Rest, Passes, SubstAll, Playing;
      if lvl >= 0 {
        hide RestAll, AllPlaying;
        assert outer == was[..lvl] + [was[lvl].(pos := was[lvl].pos + len)];
        RestAllMore(was[..lvl], was[lvl].(pos := was[lvl].pos + len));
      } else {
        assert outer == [];
      }
    }

    /** A new loop on top of the others. */
    lemma StartPlayback(outer: seq<Record>, b: Record, rest: seq<Tok>)
      requires AllPlaying(outer) && Playing(b) && b.pos == -1 && records == outer + [b] && level == |outer|
      requires !recording && playback && removed.Some? && Eor !in file && rest == RestAll(outer) + Behind()
      ensures Valid() && Upcoming() == Passes(b.list, b.ctrlVar, b.value, b.exit, b.inc) + rest && Upcoming() != []
    {
      RestStart(b);
      hide Rest, RestAll, Passes, SubstAll, Playing, AllPlaying;
      StillValid(outer, b);
      Top();
      assert records[..level] == outer;
    }
  }
}
