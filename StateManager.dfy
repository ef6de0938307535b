/**
  StateManagerReal: one state cell, two unbounded queues (update blocks and
  get callbacks) and one consumer loop that serves them one message at a
  time. The coroutine, executor and `select` machinery is replaced by an
  explicit choice of queue at each step: the caller of `Step` plays the part
  of `select`, which serves whichever channel has a message ready.

  Get callbacks are opaque values of type `R`; what the source does with one
  (invoking it with the current state) is recorded in `delivered` as the
  pair (callback, state passed to it).
*/
module StateManager {
  import opened Sequences
  import opened Flows

  /** Everything the manager holds, as one value. */
  datatype Machine<!S, R> = Machine(
    current: S,               // `_stateFlow.value`
    updates: seq<S -> S>,     // pending messages of `setStateChannel`, head first
    gets: seq<R>,             // pending messages of `getStateChannel`, head first
    published: seq<S>,        // every value the state flow has held, oldest first
    delivered: seq<(R, S)>    // every get callback invoked so far, with its argument
  )

  /** The published history ends with the current state and never repeats a value twice in a row. */
  ghost predicate Consistent<S, R>(m: Machine<S, R>) {
    && m.published != []
    && m.published[|m.published| - 1] == m.current
    && NoAdjacentRepeats(m.published)
  }

  /** `select` can serve the chosen channel only when it holds a message. */
  predicate Ready<S, R>(m: Machine<S, R>, fromUpdates: bool) {
    if fromUpdates then m.updates != [] else m.gets != []
  }

  /**
    One iteration of the consumer loop: an update message applies its block to
    the current state and publishes the result only when it differs; a get
    message hands the current state to its callback and changes nothing else.
  */
  function Serve<S(==), R>(m: Machine<S, R>, fromUpdates: bool): (r: Machine<S, R>)
    requires Ready(m, fromUpdates)
    ensures fromUpdates ==>
              && r.current == m.updates[0](m.current)
              && r.updates == m.updates[1..]
              && r.gets == m.gets
              && r.delivered == m.delivered
              && (r.published == m.published <==> m.updates[0](m.current) == m.current)
    ensures fromUpdates && m.updates[0](m.current) != m.current ==>
              r.published == m.published + [m.updates[0](m.current)]
    ensures !fromUpdates ==>
              && r.current == m.current
              && r.published == m.published
              && r.updates == m.updates
              && r.gets == m.gets[1..]
              && r.delivered == m.delivered + [(m.gets[0], m.current)]
  {
    if fromUpdates then
      var next := m.updates[0](m.current);
      if next != m.current then
        m.(current := next, updates := m.updates[1..], published := m.published + [next])
      else
        m.(updates := m.updates[1..])
    else
      m.(gets := m.gets[1..], delivered := m.delivered + [(m.gets[0], m.current)])
  }

  /** A schedule never asks for more messages than each queue holds. */
  predicate Feasible<S, R>(m: Machine<S, R>, schedule: seq<bool>) {
    Occurrences(schedule, true) <= |m.updates| && Occurrences(schedule, false) <= |m.gets|
  }

  /**
    The loop run for a given schedule of channel choices (`true` serves an
    update, `false` a get). Each queue is consumed from its head, in order.
  */
  function RunSchedule<S(==), R>(m: Machine<S, R>, schedule: seq<bool>): (r: Machine<S, R>)
    requires Feasible(m, schedule)
    ensures r.updates == m.updates[Occurrences(schedule, true)..]
    ensures r.gets == m.gets[Occurrences(schedule, false)..]
    decreases |schedule|
  {
    if schedule == [] then m
    else Serve(RunSchedule(m, schedule[..|schedule| - 1]), schedule[|schedule| - 1])
  }

  /** Running one more step of a feasible schedule is serving one more message. */
  lemma RunScheduleStep<S, R>(m: Machine<S, R>, schedule: seq<bool>, i: nat)
    requires Feasible(m, schedule) && i < |schedule|
    ensures Feasible(m, schedule[..i]) && Feasible(m, schedule[..i + 1])
    ensures Ready(RunSchedule(m, schedule[..i]), schedule[i])
    ensures RunSchedule(m, schedule[..i + 1]) == Serve(RunSchedule(m, schedule[..i]), schedule[i])
  {
    assert schedule[..i + 1][..i] == schedule[..i];
    OccurrencesOfPrefix(schedule, i + 1, true);
    OccurrencesOfPrefix(schedule, i + 1, false);
  }

  /** The state after applying update blocks `fs`, in order, to `s0`. */
  function Fold<S>(s0: S, fs: seq<S -> S>): S
    decreases |fs|
  {
    if fs == [] then s0 else fs[|fs| - 1](Fold(s0, fs[..|fs| - 1]))
  }

  /** Every intermediate state of that fold, after each block. */
  function Scan<S>(s0: S, fs: seq<S -> S>): (r: seq<S>)
    ensures |r| == |fs|
    ensures forall i :: 0 <= i < |fs| ==> r[i] == Fold(s0, fs[..i + 1])
    decreases |fs|
  {
    if fs == [] then []
    else
      var front := fs[..|fs| - 1];
      assert forall j :: 0 <= j <= |front| ==> front[..j] == fs[..j];
      assert fs[..|fs|] == fs;
      Scan(s0, front) + [Fold(s0, fs)]
  }

  /** Serving one message keeps the published history consistent with the cell. */
  lemma ServeKeepsConsistent<S, R>(m: Machine<S, R>, fromUpdates: bool)
    requires Consistent(m) && Ready(m, fromUpdates)
    ensures Consistent(Serve(m, fromUpdates))
  {
  }

  lemma {:induction false} RunKeepsConsistent<S, R>(m: Machine<S, R>, schedule: seq<bool>)
    requires Consistent(m) && Feasible(m, schedule)
    ensures Consistent(RunSchedule(m, schedule))
    decreases |schedule|
  {
    if schedule != [] {
      var front := schedule[..|schedule| - 1];
      RunKeepsConsistent(m, front);
      ServeKeepsConsistent(RunSchedule(m, front), schedule[|schedule| - 1]);
    }
  }

  /**
    Get callbacks never change the state and suppressed updates do not
    matter: after any schedule the state is the fold of the update blocks
    served so far over the starting state.
  */
  lemma {:induction false} RunCurrentIsFold<S, R>(m: Machine<S, R>, schedule: seq<bool>)
    requires Feasible(m, schedule)
    ensures RunSchedule(m, schedule).current == Fold(m.current, m.updates[..Occurrences(schedule, true)])
    decreases |schedule|
  {
    if schedule == [] {
      assert m.updates[..0] == [];
    } else {
      var front := schedule[..|schedule| - 1];
      RunCurrentIsFold(m, front);
      var k := Occurrences(front, true);
      if schedule[|schedule| - 1] {
        assert m.updates[..k + 1][..k] == m.updates[..k];
      }
    }
  }

  /**
    The published history grows by the intermediate states of the fold,
    each appended only when it differs from the state before it.
  */
  lemma {:induction false} RunPublishes<S, R>(m: Machine<S, R>, schedule: seq<bool>)
    requires Feasible(m, schedule)
    ensures RunSchedule(m, schedule).published ==
            m.published + Suppress(Scan(m.current, m.updates[..Occurrences(schedule, true)]), Some(m.current))
    decreases |schedule|
  {
    if schedule == [] {
      assert m.updates[..0] == [];
    } else {
      var front := schedule[..|schedule| - 1];
      var last := schedule[|schedule| - 1];
      var mid := RunSchedule(m, front);
      var k := Occurrences(front, true);
      assert RunSchedule(m, schedule) == Serve(mid, last);
      RunPublishes(m, front);
      RunCurrentIsFold(m, front);
      if last {
        assert Occurrences(schedule, true) == k + 1;
        PublishUpdate(m, mid, k);
      } else {
        assert Occurrences(schedule, true) == k;
      }
    }
  }

  /** Serving the next update block extends the published history as the fold predicts. */
  lemma PublishUpdate<S, R>(m: Machine<S, R>, mid: Machine<S, R>, k: nat)
    requires k < |m.updates| && mid.updates == m.updates[k..]
    requires mid.current == Fold(m.current, m.updates[..k])
    requires mid.published == m.published + Suppress(Scan(m.current, m.updates[..k]), Some(m.current))
    ensures Serve(mid, true).published ==
            m.published + Suppress(Scan(m.current, m.updates[..k + 1]), Some(m.current))
  {
    assert mid.updates[0] == m.updates[k];
    ScanStep(m.current, m.updates, k);
    SuppressAppend(Scan(m.current, m.updates[..k]), Some(m.current), m.updates[k](mid.current));
  }

  /** One more block extends the intermediate states by the new fold; the last state seen is the fold so far. */
  lemma ScanStep<S>(s0: S, fs: seq<S -> S>, k: nat)
    requires k < |fs|
    ensures Scan(s0, fs[..k + 1]) == Scan(s0, fs[..k]) + [fs[k](Fold(s0, fs[..k]))]
    ensures LastSeen(Scan(s0, fs[..k]), Some(s0)) == Some(Fold(s0, fs[..k]))
  {
    var front := fs[..k + 1];
    assert front[..k] == fs[..k];
    if k > 0 {
      assert fs[..k][..k] == fs[..k];
    }
  }

  /**
    From a freshly created manager, the published history is exactly the
    initial state followed by the fold's intermediate states with
    consecutive repeats removed, whatever get callbacks were interleaved.
  */
  lemma PublishedFromFreshManager<S, R>(m: Machine<S, R>, schedule: seq<bool>)
    requires m.published == [m.current] && Feasible(m, schedule)
    ensures RunSchedule(m, schedule).published ==
            DistinctUntilChanged([m.current] + Scan(m.current, m.updates[..Occurrences(schedule, true)]))
  {
    RunPublishes(m, schedule);
    var scan := Scan(m.current, m.updates[..Occurrences(schedule, true)]);
    assert ([m.current] + scan)[0] == m.current;
    assert ([m.current] + scan)[1..] == scan;
  }

  /** Get callbacks are invoked in the order they were queued, one per `false` in the schedule. */
  lemma {:induction false} RunDeliversInOrder<S, R>(m: Machine<S, R>, schedule: seq<bool>)
    requires Feasible(m, schedule)
    ensures var r := RunSchedule(m, schedule);
            && |r.delivered| == |m.delivered| + Occurrences(schedule, false)
            && r.delivered[..|m.delivered|] == m.delivered
            && forall j :: 0 <= j < Occurrences(schedule, false) ==> r.delivered[|m.delivered| + j].0 == m.gets[j]
    decreases |schedule|
  {
    if schedule != [] {
      var front := schedule[..|schedule| - 1];
      RunDeliversInOrder(m, front);
    }
  }

  class StateManagerReal<S(==), R> {
    var current: S
    var updates: seq<S -> S>
    var gets: seq<R>
    var published: seq<S>
    var delivered: seq<(R, S)>

    function Model(): Machine<S, R>
      reads this
    {
      Machine(current, updates, gets, published, delivered)
    }

    ghost predicate Valid()
      reads this
    {
      Consistent(Model())
    }

    /** The state flow starts holding `initState`; nothing is queued. */
    constructor (initState: S)
      ensures Valid()
      ensures current == initState && published == [initState]
      ensures updates == [] && gets == [] && delivered == []
    {
      current := initState;
      updates := [];
      gets := [];
      published := [initState];
      delivered := [];
    }

    /** `update`: `trySend` on an unlimited channel always succeeds and only enqueues. */
    method Update(block: S -> S)
      modifies this`updates
      ensures updates == old(updates) + [block]
      ensures old(Valid()) ==> Valid()
    {
      updates := updates + [block];
    }

    /** `get`: enqueues the callback, nothing else. */
    method Get(block: R)
      modifies this`gets
      ensures gets == old(gets) + [block]
      ensures old(Valid()) ==> Valid()
    {
      gets := gets + [block];
    }

    /** One iteration of the `while (isActive)` loop, serving the head of the chosen channel. */
    method Step(fromUpdates: bool)
      requires Valid() && Ready(Model(), fromUpdates)
      modifies this
      ensures Valid()
      ensures Model() == Serve(old(Model()), fromUpdates)
      ensures fromUpdates ==>
                && updates == old(updates)[1..] && gets == old(gets) && delivered == old(delivered)
                && var next := old(updates[0](current));
                   if next != old(current) then current == next && published == old(published) + [next]
                   else current == old(current) && published == old(published)
      ensures !fromUpdates ==>
                && gets == old(gets)[1..] && updates == old(updates)
                && current == old(current) && published == old(published)
                && delivered == old(delivered) + [(old(gets[0]), old(current))]
    {
      if fromUpdates {
        var block := updates[0];
        updates := updates[1..];
        var newState := block(current);
        if newState != current {
          current := newState;
          published := published + [newState];
        }
      } else {
        var block := gets[0];
        gets := gets[1..];
        delivered := delivered + [(block, current)];
      }
    }

    /** The consumer loop, run for the channel choices `select` makes. */
    method Run(schedule: seq<bool>)
      requires Valid() && Feasible(Model(), schedule)
      modifies this
      ensures Valid()
      ensures Model() == RunSchedule(old(Model()), schedule)
    {
      ghost var start := Model();
      var i := 0;
      while i < |schedule|
        invariant 0 <= i <= |schedule|
        invariant Feasible(start, schedule[..i])
        invariant Valid() && Model() == RunSchedule(start, schedule[..i])
      {
        RunScheduleStep(start, schedule, i);
        Step(schedule[i]);
        i := i + 1;
      }
      assert schedule[..i] == schedule;
    }
  }
}
