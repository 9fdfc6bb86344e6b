/** What several of the models use. */
module Wrappers {

  datatype Option<T> = None | Some(value: T)
}

module Powers {

  function Pow2(n: nat): (p: nat)
    ensures p > 0
  {
    if n == 0 then 1 else 2 * Pow2(n - 1)
  }
}

/** The answers of both memory models. */
module Responses {

  /** One quadword of a read, or for a write one quadword stored. */
  datatype Rsp = Rsp(id: nat, qwIdx: nat)

  /** The first `n` quadwords of a request, numbered from zero. */
  function Part(id: nat, n: nat): (s: seq<Rsp>)
    ensures |s| == n
  {
    seq(n, i requires 0 <= i < n => Rsp(id, i))
  }

  lemma PartMore(id: nat, n: nat)
    ensures Part(id, n + 1) == Part(id, n) + [Rsp(id, n)]
    ensures Part(id, 0) == []
  {
  }
}
