/** The requests that a sequence of inputs is made of: a write of several quadwords comes in several
    inputs, of which the first one says what it is. */
module Arrivals {

  /** An input that begins a request `tag`: whether that is a write, and its quadwords.  Of the further inputs
      of a write only the number matters. */
  datatype In<T> = In(write: bool, n: nat, tag: T)

  /** The complete requests, in order. */
  function Orders<T>(ins: seq<In<T>>): seq<In<T>>
    decreases |ins|
  {
    if ins == [] then []
    else if !ins[0].write || ins[0].n <= 1 then [ins[0]] + Orders(ins[1..])
    else if |ins| < ins[0].n then []
    else [ins[0]] + Orders(ins[ins[0].n..])
  }

  /** The inputs of the last write when it is not complete. */
  function Begun<T>(ins: seq<In<T>>): (r: seq<In<T>>)
    ensures r != [] ==> r[0].write && |r| < r[0].n
    decreases |ins|
  {
    if ins == [] then []
    else if !ins[0].write || ins[0].n <= 1 then Begun(ins[1..])
    else if |ins| < ins[0].n then ins
    else Begun(ins[ins[0].n..])
  }

  /** One more input. */
  lemma {:induction false} OneMoreInput<T>(ins: seq<In<T>>, x: In<T>)
    ensures Begun(ins) == [] && (!x.write || x.n <= 1) ==> Orders(ins + [x]) == Orders(ins) + [x] && Begun(ins + [x]) == []
    ensures Begun(ins) == [] && x.write && x.n > 1 ==> Orders(ins + [x]) == Orders(ins) && Begun(ins + [x]) == [x]
    ensures Begun(ins) != [] && |Begun(ins)| + 1 == Begun(ins)[0].n ==>
              Orders(ins + [x]) == Orders(ins) + [Begun(ins)[0]] && Begun(ins + [x]) == []
    ensures Begun(ins) != [] && |Begun(ins)| + 1 < Begun(ins)[0].n ==>
              Orders(ins + [x]) == Orders(ins) && Begun(ins + [x]) == Begun(ins) + [x]
    decreases |ins|
  {
    var all := ins + [x];
    if ins == [] {
      assert all == [x] && [x][1..] == [];
    } else if !ins[0].write || ins[0].n <= 1 {
      assert all[1..] == ins[1..] + [x];
      OneMoreInput(ins[1..], x);
    } else if |ins| < ins[0].n {
      if |ins| + 1 == ins[0].n { assert all[ins[0].n..] == []; }
    } else {
      assert all[ins[0].n..] == ins[ins[0].n..] + [x];
      OneMoreInput(ins[ins[0].n..], x);
    }
  }
}
