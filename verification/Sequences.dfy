/** Facts about sequences that several parts use. */
module Sequences {
  lemma Associative<T>(a: seq<T>, b: seq<T>, c: seq<T>)
    ensures a + (b + c) == (a + b) + c
  {
  }

  lemma SplitLast<T>(s: seq<T>)
    requires s != []
    ensures s == s[..|s| - 1] + [s[|s| - 1]]
  {
  }

  lemma SplitFirstOff<T>(s: seq<T>)
    requires s != []
    ensures s == [s[0]] + s[1..]
  {
  }

  lemma SplitAround<T>(s: seq<T>, i: nat)
    requires i < |s|
    ensures s == (s[..i] + [s[i]]) + s[i + 1..]
  {
  }

  /** What holds of all elements holds of all after one more of the kind. */
  lemma AllGrown<T>(s: seq<T>, x: T, p: T -> bool)
    requires (forall y | y in s :: p(y)) && p(x)
    ensures forall y | y in s + [x] :: p(y)
  {
  }

  /** The same where the first element may have to meet something else. */
  lemma PlacedGrown<T>(s: seq<T>, x: T, p: (T, bool) -> bool)
    requires (forall i | 0 <= i < |s| :: p(s[i], i == 0)) && p(x, s == [])
    ensures forall i | 0 <= i < |s + [x]| :: p((s + [x])[i], i == 0)
  {
  }

  lemma Cancel<T>(prefix: seq<T>, x: seq<T>, y: seq<T>)
    requires prefix + x == prefix + y
    ensures x == y
  {
    assert (prefix + x)[|prefix|..] == x;
    assert (prefix + y)[|prefix|..] == y;
  }
}
