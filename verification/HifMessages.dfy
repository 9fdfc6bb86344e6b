/** Control messages as the 64-bit words that lie in the rings: one valid bit, seven bits of type,
    56 bits of data.  A word of zero is an empty slot. */
module HifMessages {
  import opened HifProtocol

  /** The two kinds of rings: from the host to the coprocessor, and back. */
  datatype Dir = In | Out

  function RdyCmd(d: Dir): nat { if d.In? then 5 else 8 }

  function AvlCmd(d: Dir): nat { if d.In? then 6 else 9 }

  // Values of the low three bits of the data of a RDY message; zero is plain data.
  const DQ_NULL: nat := 1
  const DQ_CALL: nat := 6
  const DQ_HALT: nat := 7

  /** The word that the message constructor makes; type and data are cut to their bit fields. */
  function NewWord(msgType: nat, msgData: nat): nat {
    1 + 2 * (msgType % TYPES) + 256 * (msgData % PAYLOADS)
  }

  predicate IsValidWord(w: nat) { w % 2 == 1 }

  function TypeOf(w: nat): nat { (w / 2) % TYPES }

  function DataOf(w: nat): nat { w / 256 }

  /** What a word stands for, as the receiver takes it apart. */
  function ToMsg(d: Dir, w: nat): Msg {
    var t, p := TypeOf(w), DataOf(w);
    if t == AvlCmd(d) then Avl
    else if t == RdyCmd(d) then
      if p % 8 == 0 then DataRdy(p / 8)
      else if p % 8 == DQ_NULL then MarkRdy
      else if p % 8 == DQ_CALL then CallRdy(p / 8)
      else if p % 8 == DQ_HALT then HaltRdy
      else Note(t, p)
    else if t >= 16 then User(t, p)
    else Note(t, p)
  }

  predicate IsNoteWord(d: Dir, w: nat) { ToMsg(d, w).Note? }

  function ToMsgs(d: Dir, q: seq<nat>): seq<Msg> {
    seq(|q|, i requires 0 <= i < |q| => ToMsg(d, q[i]))
  }

  lemma ToMsgsParts(d: Dir, q: seq<nat>)
    ensures |ToMsgs(d, q)| == |q|
    ensures q != [] ==> ToMsgs(d, q)[0] == ToMsg(d, q[0]) && ToMsgs(d, q[1..]) == ToMsgs(d, q)[1..]
    ensures |q| > 1 ==> ToMsgs(d, q)[1] == ToMsg(d, q[1])
  {
  }

  lemma ToMsgsMore(d: Dir, q: seq<nat>, w: nat)
    ensures ToMsgs(d, q + [w]) == ToMsgs(d, q) + [ToMsg(d, w)] && |ToMsgs(d, q)| == |q|
  {
  }

  /** Type and data come back as they were put in, cut to their fields. */
  lemma WordFields(t: nat, p: nat)
    ensures var w := NewWord(t, p);
            IsValidWord(w) && TypeOf(w) == t % TYPES && DataOf(w) == p % PAYLOADS
  {
    var a, b := t % TYPES, p % PAYLOADS;
    var w := 1 + 2 * a + 256 * b;
    assert w / 2 == a + 128 * b;
    assert (a + 128 * b) % 128 == a;
    assert (1 + 2 * a) / 256 == 0;
    assert w / 256 == b;
  }

  /** The message that hands a block over or back arrives as the message it was. */
  lemma BlockMessages(d: Dir, n: nat)
    requires n < 0x1_0000_0000
    ensures ToMsg(d, NewWord(RdyCmd(d), 8 * n)) == DataRdy(n)
    ensures ToMsg(d, NewWord(RdyCmd(d), 8 * n + DQ_CALL)) == CallRdy(n)
    ensures ToMsg(d, NewWord(RdyCmd(d), DQ_NULL)) == MarkRdy
    ensures ToMsg(d, NewWord(RdyCmd(d), DQ_HALT)) == HaltRdy
  {
    hide NewWord, TypeOf, DataOf, IsValidWord;
    WordFields(RdyCmd(d), 8 * n);
    WordFields(RdyCmd(d), 8 * n + DQ_CALL);
    WordFields(RdyCmd(d), DQ_NULL);
    WordFields(RdyCmd(d), DQ_HALT);
  }

  lemma AvlMessage(d: Dir, idx: nat)
    ensures ToMsg(d, NewWord(AvlCmd(d), idx)) == Avl
  {
    WordFields(AvlCmd(d), idx);
  }

  lemma NoteMessage(d: Dir, t: nat, p: nat)
    requires t < 16 && t != AvlCmd(d) && t != RdyCmd(d)
    ensures ToMsg(d, NewWord(t, p)) == Note(t, p % PAYLOADS)
  {
    WordFields(t, p);
  }

  /** A user message survives exactly when its type and data fit their bit fields; the library only
      checks that the type is at least 16. */
  lemma UserMessageIff(d: Dir, t: nat, p: nat)
    requires t >= 16
    ensures ToMsg(d, NewWord(t, p)) == User(t, p) <==> t < TYPES && p < PAYLOADS
  {
    WordFields(t, p);
  }

  /** A user type of 128 or more can be taken for one of the library's own messages. */
  lemma UserTypeTaken()
    ensures ToMsg(In, NewWord(133, 8)) == DataRdy(1)
  {
    WordFields(133, 8);
  }

  /** The words in the rings, in numbers: bit 0, seven bits of type, and data from bit 8 on; the low three bits
      of the data of a RDY message say what it hands over.  Inbound messages have types 5 and 6, and
      outbound ones 8 and 9. */
  lemma Words(n: nat)
    requires n < 0x1_0000_0000
    ensures ToMsg(In, 1 + 2 * 5 + 256 * (8 * n)) == ToMsg(Out, 1 + 2 * 8 + 256 * (8 * n)) == DataRdy(n)
    ensures ToMsg(In, 1 + 2 * 5 + 256 * 1) == ToMsg(Out, 1 + 2 * 8 + 256 * 1) == MarkRdy
    ensures ToMsg(In, 1 + 2 * 5 + 256 * (8 * n + 6)) == ToMsg(Out, 1 + 2 * 8 + 256 * (8 * n + 6)) == CallRdy(n)
    ensures ToMsg(In, 1 + 2 * 5 + 256 * 7) == ToMsg(Out, 1 + 2 * 8 + 256 * 7) == HaltRdy
    ensures ToMsg(In, 1 + 2 * 6 + 256 * n) == ToMsg(Out, 1 + 2 * 9 + 256 * n) == Avl
    ensures forall t :: 16 <= t < 128 ==> ToMsg(In, Word(t, n)) == ToMsg(Out, Word(t, n)) == User(t, n)
    ensures forall t :: 0 <= t <= 4 ==> ToMsg(In, Word(t, n)) == ToMsg(Out, Word(t, n)) == Note(t, n)
    ensures forall t :: 0 <= t < 128 ==> NewWord(t, n) == Word(t, n) && IsValidWord(Word(t, n))
    ensures !IsValidWord(0)
  {
    hide TypeOf, DataOf, NewWord, Word, ToMsg, IsValidWord;
    ReadyWord(0, n, 1 + 2 * 5 + 256 * (8 * n), 1 + 2 * 8 + 256 * (8 * n));
    ReadyWord(1, 0, 1 + 2 * 5 + 256 * 1, 1 + 2 * 8 + 256 * 1);
    ReadyWord(6, n, 1 + 2 * 5 + 256 * (8 * n + 6), 1 + 2 * 8 + 256 * (8 * n + 6));
    ReadyWord(7, 0, 1 + 2 * 5 + 256 * 7, 1 + 2 * 8 + 256 * 7);
    AvailWord(n, 1 + 2 * 6 + 256 * n, 1 + 2 * 9 + 256 * n);
    forall t | 0 <= t < 128 ensures NewWord(t, n) == Word(t, n) && IsValidWord(Word(t, n)) { OtherWord(t, n); }
    forall t | 16 <= t < 128 ensures ToMsg(In, Word(t, n)) == ToMsg(Out, Word(t, n)) == User(t, n) { OtherWord(t, n); }
    forall t | 0 <= t <= 4 ensures ToMsg(In, Word(t, n)) == ToMsg(Out, Word(t, n)) == Note(t, n) { OtherWord(t, n); }
    OtherWord(0, n);
  }

  /** A message that hands a block over. */
  lemma ReadyWord(code: nat, n: nat, inn: nat, out: nat)
    requires code in {0, 1, 6, 7} && n < 0x1_0000_0000
    requires inn == 1 + 2 * 5 + 256 * (8 * n + code) && out == 1 + 2 * 8 + 256 * (8 * n + code)
    ensures ToMsg(In, inn) == ToMsg(Out, out)
         == if code == 0 then DataRdy(n) else if code == 1 then MarkRdy else if code == 6 then CallRdy(n) else HaltRdy
  {
    hide TypeOf, DataOf, NewWord;
    var p := 8 * n + code;
    WordIs(5, p);
    WordIs(8, p);
    Eighth(n, code);
    assert inn == Word(5, p) && out == Word(8, p);
  }

  lemma Eighth(n: nat, code: nat)
    requires code < 8
    ensures (8 * n + code) / 8 == n && (8 * n + code) % 8 == code
  {
  }

  lemma AvailWord(n: nat, inn: nat, out: nat)
    requires n < 0x100_0000_0000_0000 && inn == 1 + 2 * 6 + 256 * n && out == 1 + 2 * 9 + 256 * n
    ensures ToMsg(In, inn) == ToMsg(Out, out) == Avl
  {
    hide TypeOf, DataOf, NewWord;
    WordIs(6, n);
    WordIs(9, n);
    assert inn == Word(6, n) && out == Word(9, n);
  }

  lemma OtherWord(t: nat, p: nat)
    requires t < 128 && p < 0x100_0000_0000_0000
    ensures NewWord(t, p) == Word(t, p) && IsValidWord(Word(t, p)) && !IsValidWord(0)
    ensures 16 <= t ==> ToMsg(In, Word(t, p)) == ToMsg(Out, Word(t, p)) == User(t, p)
    ensures t <= 4 ==> ToMsg(In, Word(t, p)) == ToMsg(Out, Word(t, p)) == Note(t, p)
  {
    WordIs(t, p);
    WordFields(t, p);
    hide TypeOf, DataOf, NewWord, Word;
  }

  function Word(t: nat, p: nat): nat { 1 + 2 * t + 256 * p }

  lemma WordIs(t: nat, p: nat)
    requires t < 128 && p < 0x100_0000_0000_0000
    ensures NewWord(t, p) == Word(t, p) == 1 + 2 * t + 256 * p && TypeOf(Word(t, p)) == t && DataOf(Word(t, p)) == p
  {
    WordFields(t, p);
  }
}
