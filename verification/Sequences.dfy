/** Small facts about concatenation. */
module Sequences {
  lemma ConcatAssoc<T>(a: seq<T>, b: seq<T>, c: seq<T>)
    ensures (a + b) + c == a + (b + c)
  {
  }

  lemma SplitLast<T>(a: seq<T>, b: seq<T>)
    requires b != []
    ensures b == b[..|b| - 1] + [b[|b| - 1]] && a + b == (a + b[..|b| - 1]) + [b[|b| - 1]]
  {
  }

  lemma Chained<T>(a: seq<T>, b: seq<T>, c: seq<T>, ab: seq<T>, bc: seq<T>, abc: seq<T>)
    requires ab == a + b && bc == b + c && abc == ab + c
    ensures abc == a + bc
  {
  }
}
