/** Splitting the events of one fact into requests: isolated events go alone, the others together in order. */
module AnalyticsBatches {

  function Flattened<E>(batches: seq<seq<E>>): seq<E>
  {
    if batches == [] then [] else Flattened(batches[..|batches| - 1]) + batches[|batches| - 1]
  }

  predicate Alone<E>(batch: seq<E>, isolated: E -> bool)
  {
    |batch| == 1 && isolated(batch[0])
  }

  /** A batch of events that need not go alone. */
  predicate Shared<E>(batch: seq<E>, isolated: E -> bool)
  {
    batch != [] && forall i :: 0 <= i < |batch| ==> !isolated(batch[i])
  }

  /**
   The batches of some events: together they are the events in order, each is an isolated event alone or a
   nonempty run of others, and no run is split over two batches.
   */
  ghost predicate Batched<E>(events: seq<E>, batches: seq<seq<E>>, isolated: E -> bool)
  {
    && Flattened(batches) == events
    && (forall k {:trigger batches[k]} :: 0 <= k < |batches| ==> Alone(batches[k], isolated) || Shared(batches[k], isolated))
    && (forall k {:trigger batches[k]} :: 0 < k < |batches| ==> Alone(batches[k - 1], isolated) || Alone(batches[k], isolated))
  }

  lemma NothingFlattened<E>()
    ensures Flattened<E>([]) == []
  {
  }

  lemma FlattenedNext<E>(batches: seq<seq<E>>, batch: seq<E>)
    ensures Flattened(batches + [batch]) == Flattened(batches) + batch
  {
    assert (batches + [batch])[..|batches|] == batches;
  }

  ghost predicate EndsAlone<E>(batches: seq<seq<E>>, isolated: E -> bool)
  {
    batches != [] ==> Alone(batches[|batches| - 1], isolated)
  }

  /** A batch may follow others when it or the one before it is alone. */
  lemma Follows<E>(events: seq<E>, batches: seq<seq<E>>, batch: seq<E>, isolated: E -> bool)
    requires Batched(events, batches, isolated)
    requires Alone(batch, isolated) || (Shared(batch, isolated) && EndsAlone(batches, isolated))
    ensures Batched(events + batch, batches + [batch], isolated)
  {
    hide Flattened, Alone, Shared;
    FlattenedNext(batches, batch);
  }

  lemma NothingBatched<E>(isolated: E -> bool)
    ensures Batched([], [], isolated)
  {
  }

  /** The batching loop. */
  method BatchEvents<E>(events: seq<E>, isolated: E -> bool) returns (batches: seq<seq<E>>)
    ensures Batched(events, batches, isolated)
  {
    hide Batched;
    var current: seq<E> := [];
    batches := [];
    ghost var done: seq<E> := [];
    NothingBatched(isolated);
    for i := 0 to |events|
      invariant events[..i] == done + current && Batched(done, batches, isolated)
      invariant EndsAlone(batches, isolated) && (current == [] || Shared(current, isolated))
    {
      assert events[..i + 1] == events[..i] + [events[i]];
      if isolated(events[i]) {
        if current != [] {
          Follows(done, batches, current, isolated);
          batches, done := batches + [current], done + current;
          current := [];
        }
        Follows(done, batches, [events[i]], isolated);
        batches, done := batches + [[events[i]]], done + [events[i]];
      } else {
        current := current + [events[i]];
      }
    }
    assert events[..|events|] == events;
    if current != [] {
      Follows(done, batches, current, isolated);
      batches := batches + [current];
    }
  }

  // ---------------------------------------------------------------------------------------------
  // There is only one way
  // ---------------------------------------------------------------------------------------------

  /** The batches of events, the last one first found. */
  lemma LastBatch<E>(events: seq<E>, batches: seq<seq<E>>, isolated: E -> bool)
    requires Batched(events, batches, isolated) && batches != []
    ensures var n, last := |batches| - 1, batches[|batches| - 1];
            && last != [] && |last| <= |events|
            && events == events[..|events| - |last|] + last
            && Batched(events[..|events| - |last|], batches[..n], isolated)
  {
    hide Alone, Shared;
    var n, last := |batches| - 1, batches[|batches| - 1];
    NotEmpty(last, isolated);
    assert events == Flattened(batches[..n]) + last;
    assert events[..|events| - |last|] == Flattened(batches[..n]);
  }

  lemma NotEmpty<E>(batch: seq<E>, isolated: E -> bool)
    ensures Alone(batch, isolated) || Shared(batch, isolated) ==> batch != []
  {
  }

  /** The last batch is the last event if that goes alone, and else reaches back to the last one that does. */
  ghost predicate Reaches<E>(events: seq<E>, n: int, isolated: E -> bool)
  {
    && 0 < n <= |events|
    && if isolated(events[|events| - 1]) then n == 1
       else
         && (forall i :: |events| - n <= i < |events| ==> !isolated(events[i]))
         && (n < |events| ==> isolated(events[|events| - n - 1]))
  }

  lemma LastReaches<E>(events: seq<E>, batches: seq<seq<E>>, isolated: E -> bool)
    requires Batched(events, batches, isolated) && batches != []
    ensures Reaches(events, |batches[|batches| - 1]|, isolated)
  {
    LastBatch(events, batches, isolated);
    var last, fewer := batches[|batches| - 1], batches[..|batches| - 1];
    var before := events[..|events| - |last|];
    assert events[|events| - 1] == last[|last| - 1];
    forall i | |before| <= i < |events| ensures events[i] == last[i - |before|] {
      assert (before + last)[i] == last[i - |before|];
    }
    if !isolated(events[|events| - 1]) && |last| < |events| {
      hide Flattened;
      assert fewer != [] by { NothingFlattened<E>(); }
      LastBatch(before, fewer, isolated);
      assert Alone(batches[|batches| - 2], isolated);
    }
  }

  lemma ReachIsOne<E>(events: seq<E>, m: int, n: int, isolated: E -> bool)
    requires Reaches(events, m, isolated) && Reaches(events, n, isolated)
    ensures m == n
  {
  }

  lemma {:induction false} BatchingIsUnique<E>(events: seq<E>, a: seq<seq<E>>, b: seq<seq<E>>, isolated: E -> bool)
    requires Batched(events, a, isolated) && Batched(events, b, isolated)
    ensures a == b
    decreases |a|
  {
    if a == [] || b == [] {
      hide Alone, Shared;
      if a != [] { LastBatch(events, a, isolated); }
      if b != [] { LastBatch(events, b, isolated); }
    } else {
      LastReaches(events, a, isolated);
      LastReaches(events, b, isolated);
      ReachIsOne(events, |a[|a| - 1]|, |b[|b| - 1]|, isolated);
      LastBatch(events, a, isolated);
      LastBatch(events, b, isolated);
      hide Batched;
      BatchingIsUnique(events[..|events| - |a[|a| - 1]|], a[..|a| - 1], b[..|b| - 1], isolated);
      assert a == a[..|a| - 1] + [a[|a| - 1]] && b == b[..|b| - 1] + [b[|b| - 1]];
    }
  }

  /** The batches, as a function of the events. */
  function Batches<E>(events: seq<E>, isolated: E -> bool): seq<seq<E>>
  {
    if events == [] then []
    else
      var before, event := Batches(events[..|events| - 1], isolated), events[|events| - 1];
      var n := |before| - 1;
      if isolated(event) || before == [] || before[n] == [] || isolated(before[n][0]) then before + [[event]]
      else before[..n] + [before[n] + [event]]
  }

  lemma {:induction false} BatchesAreBatched<E>(events: seq<E>, isolated: E -> bool)
    ensures Batched(events, Batches(events, isolated), isolated)
  {
    if events != [] {
      var before, event := events[..|events| - 1], events[|events| - 1];
      var batches := Batches(before, isolated);
      BatchesAreBatched(before, isolated);
      assert events == before + [event];
      var n := |batches| - 1;
      if isolated(event) || batches == [] || batches[n] == [] || isolated(batches[n][0]) {
        Follows(before, batches, [event], isolated);
      } else {
        Extends(before, batches, event, isolated);
      }
    }
  }

  lemma Extends<E>(events: seq<E>, batches: seq<seq<E>>, event: E, isolated: E -> bool)
    requires Batched(events, batches, isolated) && batches != [] && !isolated(event)
    requires var last := batches[|batches| - 1]; last != [] && !isolated(last[0])
    ensures Batched(events + [event], batches[..|batches| - 1] + [batches[|batches| - 1] + [event]], isolated)
  {
    var n := |batches| - 1;
    LastBatch(events, batches, isolated);
    var before, last := events[..|events| - |batches[n]|], batches[n];
    assert EndsAlone(batches[..n], isolated) by {
      assert n > 0 ==> Alone(batches[n - 1], isolated);
    }
    Follows(before, batches[..n], last + [event], isolated);
    assert before + (last + [event]) == events + [event];
  }
}
