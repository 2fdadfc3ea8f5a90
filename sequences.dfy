/** Facts about sequences that the string and element filters share. */
module Sequences {

  /** `sub` is `s` with some of its elements left out and the others kept
      in their order. */
  predicate Subsequence<T(==)>(sub: seq<T>, s: seq<T>)
    decreases |s|
  {
    sub == [] || (s != [] && ((sub[0] == s[0] && Subsequence(sub[1..], s[1..])) || Subsequence(sub, s[1..])))
  }
}
