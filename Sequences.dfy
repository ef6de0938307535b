/** Vocabulary shared by the models: optional values and facts about sequences. */
module Sequences {

  datatype Option<+T> = None | Some(value: T)

  /** Number of occurrences of `x` in `s`, counted from the back. */
  function Occurrences<T(==)>(s: seq<T>, x: T): (n: nat)
    ensures n <= |s|
    decreases |s|
  {
    if s == [] then 0
    else Occurrences(s[..|s| - 1], x) + (if s[|s| - 1] == x then 1 else 0)
  }

  /** A prefix never holds more occurrences than the whole sequence. */
  lemma {:induction false} OccurrencesOfPrefix<T>(s: seq<T>, i: nat, x: T)
    requires i <= |s|
    ensures Occurrences(s[..i], x) <= Occurrences(s, x)
    decreases |s|
  {
    if i < |s| {
      assert s[..|s| - 1][..i] == s[..i];
      OccurrencesOfPrefix(s[..|s| - 1], i, x);
    } else {
      assert s[..i] == s;
    }
  }

  /** No element is immediately followed by an equal one. */
  ghost predicate NoAdjacentRepeats<T>(s: seq<T>) {
    forall i :: 0 <= i < |s| - 1 ==> s[i] != s[i + 1]
  }

  /** `sub` can be obtained from `s` by deleting elements, keeping order. */
  ghost predicate IsSubsequence<T>(sub: seq<T>, s: seq<T>)
    decreases |s|
  {
    if sub == [] then true
    else if s == [] then false
    else (sub[0] == s[0] && IsSubsequence(sub[1..], s[1..])) || IsSubsequence(sub, s[1..])
  }

  lemma {:induction false} SubsequenceLength<T>(sub: seq<T>, s: seq<T>)
    requires IsSubsequence(sub, s)
    ensures |sub| <= |s|
    decreases |s|
  {
    if sub != [] {
      if sub[0] == s[0] && IsSubsequence(sub[1..], s[1..]) {
        SubsequenceLength(sub[1..], s[1..]);
      } else {
        SubsequenceLength(sub, s[1..]);
      }
    }
  }
}
