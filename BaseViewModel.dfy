/**
  BaseViewModel: the host-facing side of the state manager. `setState` and
  `getState` forward to the manager's queues; the `flowOf` overloads project
  the history of published states through 1 to 7 extractors. Extractors are
  plain functions here, where the source passes `KProperty1` references and
  reads them by reflection.

  A projection is a function of the published history only, so every
  projection suppresses repeats on its own output, independently of any
  other projection over the same history.
*/
module BaseViewModel {
  import opened Sequences
  import opened Flows
  import opened FlowMappers
  import opened StateManager

  class BaseViewModel<S(==), R> {
    const stateManager: StateManagerReal<S, R>

    /** The default argument: a fresh `StateManagerReal(initState)`. */
    constructor (initState: S)
      ensures fresh(stateManager) && stateManager.Valid()
      ensures stateManager.current == initState && stateManager.published == [initState]
      ensures stateManager.updates == [] && stateManager.gets == [] && stateManager.delivered == []
    {
      stateManager := new StateManagerReal(initState);
    }

    /** `setState(block)` hands the block to the manager's update queue, unchanged. */
    method SetState(block: S -> S)
      modifies stateManager`updates
      ensures stateManager.updates == old(stateManager.updates) + [block]
    {
      stateManager.Update(block);
    }

    /** `getState(block)` hands the callback to the manager's get queue, unchanged. */
    method GetState(block: R)
      modifies stateManager`gets
      ensures stateManager.gets == old(stateManager.gets) + [block]
    {
      stateManager.Get(block);
    }
  }

  /** `flowOf(mapper)`: the mapped value of every published state, repeats included. */
  function FlowOf<S, T>(published: seq<S>, mapper: S -> T): (r: seq<T>)
    ensures |r| == |published|
    ensures forall i :: 0 <= i < |published| ==> r[i] == mapper(published[i])
  {
    MapSeq(published, mapper)
  }

  /** `flowOf(property)`: the extracted value, with consecutive repeats suppressed. */
  function FlowOf1<S, A(==)>(published: seq<S>, property: S -> A): (r: seq<A>)
    ensures NoAdjacentRepeats(r)
    ensures IsSubsequence(r, MapSeq(published, property))
    ensures published != [] ==> r != [] && r[0] == property(published[0])
  {
    DistinctUntilChanged(MapSeq(published, property))
  }

  /** The tuple builders: the extracted values, in parameter order; two states give equal tuples iff every property agrees. */
  function Tuple2<S(!new), A, B>(p1: S -> A, p2: S -> B): (r: S -> Mapper2<A, B>)
    ensures forall s :: r(s).a == p1(s) && r(s).b == p2(s)
    ensures forall s, t :: r(s) == r(t) <==> (p1(s) == p1(t) && p2(s) == p2(t))
  {
    s => Mapper2(p1(s), p2(s))
  }

  function Tuple3<S(!new), A, B, C>(p1: S -> A, p2: S -> B, p3: S -> C): (r: S -> Mapper3<A, B, C>)
    ensures forall s :: r(s).a == p1(s) && r(s).b == p2(s) && r(s).c == p3(s)
    ensures forall s, t :: r(s) == r(t) <==> (p1(s) == p1(t) && p2(s) == p2(t) && p3(s) == p3(t))
  {
    s => Mapper3(p1(s), p2(s), p3(s))
  }

  function Tuple4<S(!new), A, B, C, D>(p1: S -> A, p2: S -> B, p3: S -> C, p4: S -> D): (r: S -> Mapper4<A, B, C, D>)
    ensures forall s :: r(s).a == p1(s) && r(s).b == p2(s) && r(s).c == p3(s) && r(s).d == p4(s)
    ensures forall s, t :: r(s) == r(t) <==> (p1(s) == p1(t) && p2(s) == p2(t) && p3(s) == p3(t) &&
              p4(s) == p4(t))
  {
    s => Mapper4(p1(s), p2(s), p3(s), p4(s))
  }

  function Tuple5<S(!new), A, B, C, D, E>(p1: S -> A, p2: S -> B, p3: S -> C, p4: S -> D, p5: S -> E)
    : (r: S -> Mapper5<A, B, C, D, E>)
    ensures forall s :: r(s).a == p1(s) && r(s).b == p2(s) && r(s).c == p3(s) && r(s).d == p4(s) &&
              r(s).e == p5(s)
    ensures forall s, t :: r(s) == r(t) <==> (p1(s) == p1(t) && p2(s) == p2(t) && p3(s) == p3(t) &&
              p4(s) == p4(t) && p5(s) == p5(t))
  {
    s => Mapper5(p1(s), p2(s), p3(s), p4(s), p5(s))
  }

  function Tuple6<S(!new), A, B, C, D, E, F>(p1: S -> A, p2: S -> B, p3: S -> C, p4: S -> D, p5: S -> E, p6: S -> F)
    : (r: S -> Mapper6<A, B, C, D, E, F>)
    ensures forall s :: r(s).a == p1(s) && r(s).b == p2(s) && r(s).c == p3(s) && r(s).d == p4(s) &&
              r(s).e == p5(s) && r(s).f == p6(s)
    ensures forall s, t :: r(s) == r(t) <==> (p1(s) == p1(t) && p2(s) == p2(t) && p3(s) == p3(t) &&
              p4(s) == p4(t) && p5(s) == p5(t) && p6(s) == p6(t))
  {
    s => Mapper6(p1(s), p2(s), p3(s), p4(s), p5(s), p6(s))
  }

  function Tuple7<S(!new), A, B, C, D, E, F, G>(p1: S -> A, p2: S -> B, p3: S -> C, p4: S -> D, p5: S -> E,
                                          p6: S -> F, p7: S -> G): (r: S -> Mapper7<A, B, C, D, E, F, G>)
    ensures forall s :: r(s).a == p1(s) && r(s).b == p2(s) && r(s).c == p3(s) && r(s).d == p4(s) &&
              r(s).e == p5(s) && r(s).f == p6(s) && r(s).g == p7(s)
    ensures forall s, t :: r(s) == r(t) <==> (p1(s) == p1(t) && p2(s) == p2(t) && p3(s) == p3(t) &&
              p4(s) == p4(t) && p5(s) == p5(t) && p6(s) == p6(t) && p7(s) == p7(t))
  {
    s => Mapper7(p1(s), p2(s), p3(s), p4(s), p5(s), p6(s), p7(s))
  }

  function FlowOf2<S(!new), A(==), B(==)>(published: seq<S>, p1: S -> A, p2: S -> B): (r: seq<Mapper2<A, B>>)
    ensures NoAdjacentRepeats(r)
    ensures IsSubsequence(r, MapSeq(published, Tuple2(p1, p2)))
    ensures published != [] ==> r != [] && r[0] == Mapper2(p1(published[0]), p2(published[0]))
  {
    DistinctUntilChanged(MapSeq(published, Tuple2(p1, p2)))
  }

  function FlowOf3<S(!new), A(==), B(==), C(==)>(published: seq<S>, p1: S -> A, p2: S -> B, p3: S -> C)
    : (r: seq<Mapper3<A, B, C>>)
    ensures NoAdjacentRepeats(r)
    ensures IsSubsequence(r, MapSeq(published, Tuple3(p1, p2, p3)))
    ensures published != [] ==>
              r != [] && var s := published[0]; r[0] == Mapper3(p1(s), p2(s), p3(s))
  {
    DistinctUntilChanged(MapSeq(published, Tuple3(p1, p2, p3)))
  }

  function FlowOf4<S(!new), A(==), B(==), C(==), D(==)>(published: seq<S>, p1: S -> A, p2: S -> B, p3: S -> C,
                                                  p4: S -> D): (r: seq<Mapper4<A, B, C, D>>)
    ensures NoAdjacentRepeats(r)
    ensures IsSubsequence(r, MapSeq(published, Tuple4(p1, p2, p3, p4)))
    ensures published != [] ==>
              r != [] && var s := published[0]; r[0] == Mapper4(p1(s), p2(s), p3(s), p4(s))
  {
    DistinctUntilChanged(MapSeq(published, Tuple4(p1, p2, p3, p4)))
  }

  function FlowOf5<S(!new), A(==), B(==), C(==), D(==), E(==)>(published: seq<S>, p1: S -> A, p2: S -> B, p3: S -> C,
                                                         p4: S -> D, p5: S -> E): (r: seq<Mapper5<A, B, C, D, E>>)
    ensures NoAdjacentRepeats(r)
    ensures IsSubsequence(r, MapSeq(published, Tuple5(p1, p2, p3, p4, p5)))
    ensures published != [] ==>
              r != [] && var s := published[0]; r[0] == Mapper5(p1(s), p2(s), p3(s), p4(s), p5(s))
  {
    DistinctUntilChanged(MapSeq(published, Tuple5(p1, p2, p3, p4, p5)))
  }

  function FlowOf6<S(!new), A(==), B(==), C(==), D(==), E(==), F(==)>(published: seq<S>, p1: S -> A, p2: S -> B,
                                                                p3: S -> C, p4: S -> D, p5: S -> E, p6: S -> F)
    : (r: seq<Mapper6<A, B, C, D, E, F>>)
    ensures NoAdjacentRepeats(r)
    ensures IsSubsequence(r, MapSeq(published, Tuple6(p1, p2, p3, p4, p5, p6)))
    ensures published != [] ==>
              r != [] && var s := published[0]; r[0] == Mapper6(p1(s), p2(s), p3(s), p4(s), p5(s), p6(s))
  {
    DistinctUntilChanged(MapSeq(published, Tuple6(p1, p2, p3, p4, p5, p6)))
  }

  function FlowOf7<S(!new), A(==), B(==), C(==), D(==), E(==), F(==), G(==)>(published: seq<S>, p1: S -> A, p2: S -> B,
                                                                       p3: S -> C, p4: S -> D, p5: S -> E,
                                                                       p6: S -> F, p7: S -> G)
    : (r: seq<Mapper7<A, B, C, D, E, F, G>>)
    ensures NoAdjacentRepeats(r)
    ensures IsSubsequence(r, MapSeq(published, Tuple7(p1, p2, p3, p4, p5, p6, p7)))
    ensures published != [] ==>
              r != [] && var s := published[0]; r[0] == Mapper7(p1(s), p2(s), p3(s), p4(s), p5(s), p6(s), p7(s))
  {
    DistinctUntilChanged(MapSeq(published, Tuple7(p1, p2, p3, p4, p5, p6, p7)))
  }

  /**
    Any projection emits for a newly published state exactly when its
    projected value differs from that of the previous published state.
  */
  lemma ProjectionStep<S, T>(published: seq<S>, s: S, f: S -> T)
    ensures DistinctUntilChanged(MapSeq(published + [s], f)) ==
            if published != [] && f(s) == f(published[|published| - 1])
            then DistinctUntilChanged(MapSeq(published, f))
            else DistinctUntilChanged(MapSeq(published, f)) + [f(s)]
  {
    MapSeqAppend(published, s, f);
    SuppressAppend(MapSeq(published, f), None, f(s));
  }

  /** The single-property flow emits a new state's value iff it differs from the value it emitted last. */
  lemma FlowOf1Step<S, A>(published: seq<S>, s: S, property: S -> A)
    ensures var out := FlowOf1(published, property);
            FlowOf1(published + [s], property) ==
              if out != [] && out[|out| - 1] == property(s) then out else out + [property(s)]
  {
    MapSeqAppend(published, s, property);
    DistinctUntilChangedStep(MapSeq(published, property), property(s));
  }

  /** A new state whose two extracted properties equal the previous state's produces no emission; any other does. */
  lemma FlowOf2Step<S(!new), A, B>(published: seq<S>, s: S, p1: S -> A, p2: S -> B)
    ensures FlowOf2(published + [s], p1, p2) ==
            if published != [] &&
               var last := published[|published| - 1]; p1(s) == p1(last) && p2(s) == p2(last)
            then FlowOf2(published, p1, p2)
            else FlowOf2(published, p1, p2) + [Mapper2(p1(s), p2(s))]
  {
    ProjectionStep(published, s, Tuple2(p1, p2));
  }

  lemma FlowOf3Step<S(!new), A, B, C>(published: seq<S>, s: S, p1: S -> A, p2: S -> B, p3: S -> C)
    ensures FlowOf3(published + [s], p1, p2, p3) ==
            if published != [] &&
               var last := published[|published| - 1]; p1(s) == p1(last) && p2(s) == p2(last) && p3(s) == p3(last)
            then FlowOf3(published, p1, p2, p3)
            else FlowOf3(published, p1, p2, p3) + [Mapper3(p1(s), p2(s), p3(s))]
  {
    ProjectionStep(published, s, Tuple3(p1, p2, p3));
  }

  lemma FlowOf4Step<S(!new), A, B, C, D>(published: seq<S>, s: S, p1: S -> A, p2: S -> B, p3: S -> C, p4: S -> D)
    ensures FlowOf4(published + [s], p1, p2, p3, p4) ==
            if published != [] &&
               var last := published[|published| - 1];
               p1(s) == p1(last) && p2(s) == p2(last) && p3(s) == p3(last) && p4(s) == p4(last)
            then FlowOf4(published, p1, p2, p3, p4)
            else FlowOf4(published, p1, p2, p3, p4) + [Mapper4(p1(s), p2(s), p3(s), p4(s))]
  {
    ProjectionStep(published, s, Tuple4(p1, p2, p3, p4));
  }

  lemma FlowOf5Step<S(!new), A, B, C, D, E>(published: seq<S>, s: S, p1: S -> A, p2: S -> B, p3: S -> C, p4: S -> D,
                                      p5: S -> E)
    ensures FlowOf5(published + [s], p1, p2, p3, p4, p5) ==
            if published != [] &&
               var last := published[|published| - 1];
               p1(s) == p1(last) && p2(s) == p2(last) && p3(s) == p3(last) && p4(s) == p4(last) &&
               p5(s) == p5(last)
            then FlowOf5(published, p1, p2, p3, p4, p5)
            else FlowOf5(published, p1, p2, p3, p4, p5) + [Mapper5(p1(s), p2(s), p3(s), p4(s), p5(s))]
  {
    ProjectionStep(published, s, Tuple5(p1, p2, p3, p4, p5));
  }

  lemma FlowOf6Step<S(!new), A, B, C, D, E, F>(published: seq<S>, s: S, p1: S -> A, p2: S -> B, p3: S -> C,
                                         p4: S -> D, p5: S -> E, p6: S -> F)
    ensures FlowOf6(published + [s], p1, p2, p3, p4, p5, p6) ==
            if published != [] &&
               var last := published[|published| - 1];
               p1(s) == p1(last) && p2(s) == p2(last) && p3(s) == p3(last) && p4(s) == p4(last) &&
               p5(s) == p5(last) && p6(s) == p6(last)
            then FlowOf6(published, p1, p2, p3, p4, p5, p6)
            else FlowOf6(published, p1, p2, p3, p4, p5, p6) + [Mapper6(p1(s), p2(s), p3(s), p4(s), p5(s), p6(s))]
  {
    ProjectionStep(published, s, Tuple6(p1, p2, p3, p4, p5, p6));
  }

  lemma FlowOf7Step<S(!new), A, B, C, D, E, F, G>(published: seq<S>, s: S, p1: S -> A, p2: S -> B, p3: S -> C,
                                            p4: S -> D, p5: S -> E, p6: S -> F, p7: S -> G)
    ensures FlowOf7(published + [s], p1, p2, p3, p4, p5, p6, p7) ==
            if published != [] &&
               var last := published[|published| - 1];
               p1(s) == p1(last) && p2(s) == p2(last) && p3(s) == p3(last) && p4(s) == p4(last) &&
               p5(s) == p5(last) && p6(s) == p6(last) && p7(s) == p7(last)
            then FlowOf7(published, p1, p2, p3, p4, p5, p6, p7)
            else FlowOf7(published, p1, p2, p3, p4, p5, p6, p7) +
                 [Mapper7(p1(s), p2(s), p3(s), p4(s), p5(s), p6(s), p7(s))]
  {
    ProjectionStep(published, s, Tuple7(p1, p2, p3, p4, p5, p6, p7));
  }

  /**
    Two projections over one history suppress on their own values: over the
    states 0, 1, 3 the identity projection emits all three, while the parity
    projection emits 0 and 1 and stays silent when 1 becomes 3.
  */
  lemma ProjectionsSuppressIndependently()
    ensures FlowOf1([0, 1, 3], (s: int) => s) == [0, 1, 3]
    ensures FlowOf1([0, 1, 3], (s: int) => s % 2) == [0, 1]
  {
    var identity, parity := (s: int) => s, (s: int) => s % 2;
    FlowOf1Step([0, 1], 3, identity);
    FlowOf1Step([0, 1], 3, parity);
    assert [0, 1] + [3] == [0, 1, 3];
  }
}
