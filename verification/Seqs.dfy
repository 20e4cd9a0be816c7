/** Sequences taken apart at their end. */
module Seqs {
  function Last<T>(s: seq<T>): T
    requires s != []
  {
    s[|s| - 1]
  }

  function Front<T>(s: seq<T>): seq<T>
    requires s != []
  {
    s[..|s| - 1]
  }

  lemma FrontLast<T>(s: seq<T>)
    requires s != []
    ensures Front(s) + [Last(s)] == s
  {
  }
}
