/**
  The two kotlinx.coroutines Flow operators the projections use, `map` and
  `distinctUntilChanged`, as functions from the finite history of values a
  flow has produced to the history of values it emits downstream.
*/
module Flows {
  import opened Sequences

  /** `map(f)`: one emission per upstream value, in order, repeats included. */
  function MapSeq<X, Y>(xs: seq<X>, f: X -> Y): (r: seq<Y>)
    ensures |r| == |xs|
    ensures forall i :: 0 <= i < |xs| ==> r[i] == f(xs[i])
    decreases |xs|
  {
    if xs == [] then [] else [f(xs[0])] + MapSeq(xs[1..], f)
  }

  lemma MapSeqAppend<X, Y>(xs: seq<X>, x: X, f: X -> Y)
    ensures MapSeq(xs + [x], f) == MapSeq(xs, f) + [f(x)]
  {
    assert |MapSeq(xs + [x], f)| == |MapSeq(xs, f) + [f(x)]|;
    forall i | 0 <= i < |xs| + 1
      ensures MapSeq(xs + [x], f)[i] == (MapSeq(xs, f) + [f(x)])[i]
    {
      assert (xs + [x])[i] == if i < |xs| then xs[i] else x;
    }
  }

  /**
    The collector inside `distinctUntilChanged`: `last` is the value it emitted
    last (None before the first emission); an upstream value is passed on
    exactly when it differs from `last`.
  */
  function Suppress<T(==)>(xs: seq<T>, last: Option<T>): (r: seq<T>)
    ensures NoAdjacentRepeats(r)
    ensures IsSubsequence(r, xs)
    ensures r != [] ==> last != Some(r[0])
    decreases |xs|
  {
    if xs == [] then []
    else if last == Some(xs[0]) then Suppress(xs[1..], last)
    else [xs[0]] + Suppress(xs[1..], Some(xs[0]))
  }

  /** `distinctUntilChanged()` with the default structural equality. */
  function DistinctUntilChanged<T(==)>(xs: seq<T>): (r: seq<T>)
    ensures NoAdjacentRepeats(r)
    ensures IsSubsequence(r, xs)
    ensures xs != [] ==> r != [] && r[0] == xs[0]
    ensures xs == [] ==> r == []
  {
    Suppress(xs, None)
  }

  /** The value a collector with memory `last` compares against after `xs`. */
  function LastSeen<T>(xs: seq<T>, last: Option<T>): Option<T> {
    if xs == [] then last else Some(xs[|xs| - 1])
  }

  /** One more upstream value is emitted iff it differs from the last value seen. */
  lemma {:induction false} SuppressAppend<T>(xs: seq<T>, last: Option<T>, x: T)
    ensures Suppress(xs + [x], last) ==
            if LastSeen(xs, last) == Some(x) then Suppress(xs, last) else Suppress(xs, last) + [x]
    decreases |xs|
  {
    if xs != [] {
      assert (xs + [x])[0] == xs[0];
      assert (xs + [x])[1..] == xs[1..] + [x];
      if last == Some(xs[0]) {
        SuppressAppend(xs[1..], last, x);
      } else {
        SuppressAppend(xs[1..], Some(xs[0]), x);
      }
    }
  }

  /** The last value emitted is always the last upstream value. */
  lemma {:induction false} LastEmittedIsLastUpstream<T>(xs: seq<T>)
    requires xs != []
    ensures DistinctUntilChanged(xs) != []
    ensures DistinctUntilChanged(xs)[|DistinctUntilChanged(xs)| - 1] == xs[|xs| - 1]
    decreases |xs|
  {
    var front, x := xs[..|xs| - 1], xs[|xs| - 1];
    assert xs == front + [x];
    SuppressAppend(front, None, x);
    if front != [] {
      LastEmittedIsLastUpstream(front);
    }
  }

  /**
    The streaming rule of `distinctUntilChanged`: a new upstream value is
    emitted exactly when nothing was emitted yet or it differs from the value
    emitted last.
  */
  lemma DistinctUntilChangedStep<T>(xs: seq<T>, x: T)
    ensures var out := DistinctUntilChanged(xs);
            DistinctUntilChanged(xs + [x]) ==
              if out != [] && out[|out| - 1] == x then out else out + [x]
  {
    SuppressAppend(xs, None, x);
    if xs != [] {
      LastEmittedIsLastUpstream(xs);
    }
  }

  /** A history without adjacent repeats passes through unchanged. */
  lemma {:induction false} SuppressKeepsDistinct<T>(xs: seq<T>, last: Option<T>)
    requires NoAdjacentRepeats(xs)
    requires xs != [] ==> last != Some(xs[0])
    ensures Suppress(xs, last) == xs
    decreases |xs|
  {
    if xs != [] {
      SuppressKeepsDistinct(xs[1..], Some(xs[0]));
      assert [xs[0]] + xs[1..] == xs;
    }
  }

  /** Applying `distinctUntilChanged` twice is the same as applying it once. */
  lemma DistinctUntilChangedIdempotent<T>(xs: seq<T>)
    ensures DistinctUntilChanged(DistinctUntilChanged(xs)) == DistinctUntilChanged(xs)
  {
    SuppressKeepsDistinct(DistinctUntilChanged(xs), None);
  }
}
