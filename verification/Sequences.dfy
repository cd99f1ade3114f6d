/** A sequence as everything but its last element, then the last. */
module Sequences {
  function Last<T>(s: seq<T>): T
    requires s != []
  {
    s[|s| - 1]
  }

  function Front<T>(s: seq<T>): seq<T>
    requires s != []
  {
    s[..|s| - 1]
  }

  lemma Snoc<T>(s: seq<T>, x: T)
    ensures s + [x] != [] && Front(s + [x]) == s && Last(s + [x]) == x
  {
  }

  lemma Regroup<T>(a: seq<T>, b: seq<T>, c: seq<T>)
    ensures a + b + c == a + (b + c)
  {
  }

  /** The prefix one longer is the prefix and the next element. */
  lemma TakeNext<T>(s: seq<T>, i: nat)
    requires i < |s|
    ensures s[..i + 1] == s[..i] + [s[i]]
    ensures Front(s[..i + 1]) == s[..i] && Last(s[..i + 1]) == s[i]
  {
  }
}
