/**
 The analytics queue: any number of callers hand facts and flush requests to one worker over a bounded
 channel. Every interleaving of their steps is a run. What the reducer makes of a fact, which events may go
 out under an API key and which go alone are arbitrary functions.
 */
module AnalyticsQueue {
  import opened Common
  import opened AnalyticsBatches

  const QUEUE_SIZE := 256

  datatype Message<F> = Fact(fact: F) | Flush

  /** How the client is signed in when a fact's events are sent. */
  datatype Auth = SignedOut | ApiKey | Backend | Elsewhere

  datatype Setup<!F, !E, !R> = Setup(start: R, ingest: (R, F) -> (R, seq<E>), withApiKey: E -> bool, isolated: E -> bool)

  /** What the worker is at: between messages, holding a fact, or with requests of a fact still to send. */
  datatype Phase<F, E> = Idle | Holding(fact: F) | Sending(fact: F, rest: seq<seq<E>>)

  /**
   The channel and the worker, with histories: `accepted` is every message the channel took, `ingested` every
   fact the reducer took and the sign-in under which it was sent, `acked` the positions of the flushes answered.
   */
  datatype State<F, E, R> = State(queue: seq<Message<F>>, phase: Phase<F, E>, reducer: R, accepted: seq<Message<F>>,
                                  handled: int, ingested: seq<(F, Auth)>, sent: seq<seq<E>>, acked: set<int>)

  /** `reserved` is a slot the channel keeps for a flush already waiting, which a fact cannot take. */
  datatype Step<F> =
    | TrySend(fact: F, reserved: bool)
    | SendFlush
    | Receive
    | Ingest(auth: Auth)
    | Request

  function Initial<F, E, R>(setup: Setup<F, E, R>): State<F, E, R>
  {
    State([], Idle, setup.start, [], 0, [], [], {})
  }

  function Kept<E>(events: seq<E>, keep: E -> bool): seq<E>
  {
    if events == [] then []
    else
      var last := events[|events| - 1];
      Kept(events[..|events| - 1], keep) + if keep(last) then [last] else []
  }

  /** The events that go out. */
  function Retained<F, E, R>(setup: Setup<F, E, R>, events: seq<E>, auth: Auth): seq<E>
  {
    match auth
    case SignedOut => []
    case ApiKey => Kept(events, setup.withApiKey)
    case Backend => events
    case Elsewhere => []
  }

  /** The event may go out under this sign-in. */
  predicate MaySend<F, E, R>(setup: Setup<F, E, R>, auth: Auth, event: E)
  {
    auth == Backend || (auth == ApiKey && setup.withApiKey(event))
  }

  /** The events that go out are those that may, all of them, in order. */
  ghost predicate Sifted<F, E, R>(setup: Setup<F, E, R>, auth: Auth, events: seq<E>, at: seq<int>, sent: seq<E>)
  {
    && Places(at, |events|) && |at| == |sent|
    && (forall i {:trigger events[i]} :: 0 <= i < |events| ==> (i in at <==> MaySend(setup, auth, events[i])))
    && (forall j :: 0 <= j < |at| ==> sent[j] == events[at[j]])
  }

  lemma SiftedNext<F, E, R>(setup: Setup<F, E, R>, auth: Auth, events: seq<E>, at: seq<int>, sent: seq<E>, event: E)
    requires Sifted(setup, auth, events, at, sent)
    ensures MaySend(setup, auth, event) ==> Sifted(setup, auth, events + [event], at + [|events|], sent + [event])
    ensures !MaySend(setup, auth, event) ==> Sifted(setup, auth, events + [event], at, sent)
  {
    hide MaySend;
    var more := events + [event];
    assert forall i :: 0 <= i < |events| ==> more[i] == events[i];
    forall i { InAppended(at, |events|, i); }
  }

  lemma {:induction false} RetainedMeans<F, E, R>(setup: Setup<F, E, R>, events: seq<E>, auth: Auth)
    returns (at: seq<int>)
    ensures Sifted(setup, auth, events, at, Retained(setup, events, auth))
  {
    hide Sifted;
    if events == [] {
      at := [];
      NothingSifted(setup, auth);
    } else {
      var n := |events| - 1;
      at := RetainedMeans(setup, events[..n], auth);
      SiftedNext(setup, auth, events[..n], at, Retained(setup, events[..n], auth), events[n]);
      assert events == events[..n] + [events[n]];
      var before := Retained(setup, events[..n], auth);
      assert before + [] == before;
      if MaySend(setup, auth, events[n]) {
        at := at + [n];
      }
    }
  }

  lemma NothingSifted<F, E, R>(setup: Setup<F, E, R>, auth: Auth)
    ensures Sifted(setup, auth, [], [], [])
  {
  }

  function Enqueue<F, E, R>(state: State<F, E, R>, message: Message<F>): State<F, E, R>
  {
    state.(queue := state.queue + [message], accepted := state.accepted + [message])
  }

  /** One step; a step that is not enabled changes nothing. */
  function Next<F, E, R>(setup: Setup<F, E, R>, state: State<F, E, R>, step: Step<F>): State<F, E, R>
  {
    match step
    case TrySend(fact, reserved) =>
      if |state.queue| >= QUEUE_SIZE || reserved then state else Enqueue(state, Fact(fact))
    case SendFlush =>
      if |state.queue| >= QUEUE_SIZE then state else Enqueue(state, Flush)
    case Receive =>
      if !state.phase.Idle? || state.queue == [] then state
      else if state.queue[0].Flush? then
        state.(queue := state.queue[1..], acked := state.acked + {state.handled}, handled := state.handled + 1)
      else state.(queue := state.queue[1..], phase := Holding(state.queue[0].fact))
    case Ingest(auth) =>
      if !state.phase.Holding? then state
      else
        var (reducer, events) := setup.ingest(state.reducer, state.phase.fact);
        state.(reducer := reducer, ingested := state.ingested + [(state.phase.fact, auth)],
               phase := Sending(state.phase.fact, Batches(Retained(setup, events, auth), setup.isolated)))
    case Request =>
      if !state.phase.Sending? then state
      else if state.phase.rest == [] then state.(phase := Idle, handled := state.handled + 1)
      else state.(sent := state.sent + [state.phase.rest[0]], phase := Sending(state.phase.fact, state.phase.rest[1..]))
  }

  function Play<F, E, R>(setup: Setup<F, E, R>, steps: seq<Step<F>>): State<F, E, R>
  {
    if steps == [] then Initial(setup) else Next(setup, Play(setup, steps[..|steps| - 1]), steps[|steps| - 1])
  }

  // ---------------------------------------------------------------------------------------------
  // What the histories mean
  // ---------------------------------------------------------------------------------------------

  /** The facts among the messages, in order. */
  function Facts<F>(messages: seq<Message<F>>): seq<F>
  {
    if messages == [] then []
    else
      var last := messages[|messages| - 1];
      Facts(messages[..|messages| - 1]) + if last.Fact? then [last.fact] else []
  }

  function FactsOf<F>(ingested: seq<(F, Auth)>): seq<F>
  {
    seq(|ingested|, i requires 0 <= i < |ingested| => ingested[i].0)
  }

  /** The reducer after these facts. */
  function Reduced<F, E, R>(setup: Setup<F, E, R>, ingested: seq<(F, Auth)>): R
  {
    if ingested == [] then setup.start
    else setup.ingest(Reduced(setup, ingested[..|ingested| - 1]), ingested[|ingested| - 1].0).0
  }

  /** The events of the last of these facts. */
  function EventsOfLast<F, E, R>(setup: Setup<F, E, R>, ingested: seq<(F, Auth)>): seq<E>
    requires ingested != []
  {
    var (fact, auth) := ingested[|ingested| - 1];
    Retained(setup, setup.ingest(Reduced(setup, ingested[..|ingested| - 1]), fact).1, auth)
  }

  /** All events these facts give, in order. */
  function EventsOf<F, E, R>(setup: Setup<F, E, R>, ingested: seq<(F, Auth)>): seq<E>
  {
    if ingested == [] then [] else EventsOf(setup, ingested[..|ingested| - 1]) + EventsOfLast(setup, ingested)
  }

  /** All requests these facts call for, in order. */
  function RequestsOf<F, E, R>(setup: Setup<F, E, R>, ingested: seq<(F, Auth)>): seq<seq<E>>
  {
    if ingested == [] then []
    else RequestsOf(setup, ingested[..|ingested| - 1]) + Batches(EventsOfLast(setup, ingested), setup.isolated)
  }

  /** The message in the worker's hands. */
  function InHand<F, E>(phase: Phase<F, E>): seq<Message<F>>
  {
    match phase
    case Idle => []
    case Holding(fact) => [Fact(fact)]
    case Sending(fact, _) => [Fact(fact)]
  }

  function Unsent<F, E>(phase: Phase<F, E>): seq<seq<E>>
  {
    if phase.Sending? then phase.rest else []
  }

  /**
   What every step keeps: the channel is first in, first out and bounded; the facts ingested are the facts
   accepted, as far as the worker has come; and what was sent and is still to be sent is what they call for.
   */
  ghost predicate Sound<F, E, R>(setup: Setup<F, E, R>, state: State<F, E, R>)
  {
    && |state.queue| <= QUEUE_SIZE
    && 0 <= state.handled <= |state.accepted|
    && state.accepted[state.handled..] == InHand(state.phase) + state.queue
    && FactsOf(state.ingested)
       == Facts(state.accepted[..state.handled]) + (if state.phase.Sending? then [state.phase.fact] else [])
    && state.reducer == Reduced(setup, state.ingested)
    && state.sent + Unsent(state.phase) == RequestsOf(setup, state.ingested)
    && (state.phase.Sending? ==>
          state.ingested != [] && |RequestsOf(setup, state.ingested[..|state.ingested| - 1])| <= |state.sent|)
  }

  /** The flushes answered are exactly the flushes the worker is past. */
  ghost predicate AcksSound<F, E, R>(state: State<F, E, R>)
  {
    forall i {:trigger i in state.acked} :: i in state.acked <==>
      0 <= i < state.handled && i < |state.accepted| && state.accepted[i].Flush?
  }

  // ---------------------------------------------------------------------------------------------
  // Every step keeps it
  // ---------------------------------------------------------------------------------------------

  lemma FactsNext<F>(messages: seq<Message<F>>, message: Message<F>)
    ensures Facts(messages + [message]) == Facts(messages) + (if message.Fact? then [message.fact] else [])
  {
    assert (messages + [message])[..|messages|] == messages;
  }

  lemma FactsOfNext<F>(ingested: seq<(F, Auth)>, fact: F, auth: Auth)
    ensures FactsOf(ingested + [(fact, auth)]) == FactsOf(ingested) + [fact]
  {
  }

  lemma RequestsNext<F, E, R>(setup: Setup<F, E, R>, ingested: seq<(F, Auth)>, fact: F, auth: Auth)
    ensures var (reducer, events) := setup.ingest(Reduced(setup, ingested), fact);
            && Reduced(setup, ingested + [(fact, auth)]) == reducer
            && RequestsOf(setup, ingested + [(fact, auth)])
               == RequestsOf(setup, ingested) + Batches(Retained(setup, events, auth), setup.isolated)
  {
    hide Batches, Retained;
    assert (ingested + [(fact, auth)])[..|ingested|] == ingested;
  }

  lemma EnqueueKeeps<F, E, R>(setup: Setup<F, E, R>, state: State<F, E, R>, message: Message<F>)
    requires Sound(setup, state) && AcksSound(state) && |state.queue| < QUEUE_SIZE
    ensures Sound(setup, Enqueue(state, message)) && AcksSound(Enqueue(state, message))
  {
    hide Facts, FactsOf, Reduced, RequestsOf, InHand;
    var accepted := state.accepted + [message];
    assert accepted[..state.handled] == state.accepted[..state.handled];
    assert accepted[state.handled..] == state.accepted[state.handled..] + [message];
    Associated(InHand(state.phase), state.queue, [message]);
  }

  lemma FlushKeeps<F, E, R>(setup: Setup<F, E, R>, state: State<F, E, R>)
    requires Sound(setup, state) && AcksSound(state) && state.phase.Idle? && state.queue != [] && state.queue[0].Flush?
    ensures Sound(setup, Next(setup, state, Receive)) && AcksSound(Next(setup, state, Receive))
  {
    hide Facts, FactsOf, Reduced, RequestsOf;
    var h := state.handled;
    var waiting := state.accepted[h..];
    assert waiting == [] + state.queue && waiting == state.queue;
    assert state.accepted[h] == waiting[0] && state.accepted[h + 1..] == waiting[1..];
    assert [] + waiting[1..] == waiting[1..];
    assert state.accepted[..h + 1] == state.accepted[..h] + [Message<F>.Flush];
    FactsNext(state.accepted[..h], Message<F>.Flush);
  }

  lemma TakeKeeps<F, E, R>(setup: Setup<F, E, R>, state: State<F, E, R>)
    requires Sound(setup, state) && AcksSound(state) && state.phase.Idle? && state.queue != [] && state.queue[0].Fact?
    ensures Sound(setup, Next(setup, state, Receive)) && AcksSound(Next(setup, state, Receive))
  {
    hide Facts, FactsOf, Reduced, RequestsOf;
    assert [] + state.queue == state.queue;
    assert state.queue == [state.queue[0]] + state.queue[1..];
  }

  lemma IngestKeeps<F, E, R>(setup: Setup<F, E, R>, state: State<F, E, R>, auth: Auth)
    requires Sound(setup, state) && AcksSound(state) && state.phase.Holding?
    ensures Sound(setup, Next(setup, state, Ingest(auth))) && AcksSound(Next(setup, state, Ingest(auth)))
  {
    hide Facts, FactsOf, Reduced, RequestsOf, Batches, Retained;
    var ingested := state.ingested + [(state.phase.fact, auth)];
    assert ingested[..|ingested| - 1] == state.ingested;
    RequestsNext(setup, state.ingested, state.phase.fact, auth);
    FactsOfNext(state.ingested, state.phase.fact, auth);
    var done := Facts(state.accepted[..state.handled]);
    assert done + [] == done;
    assert state.sent + [] == state.sent;
  }

  lemma FinishKeeps<F, E, R>(setup: Setup<F, E, R>, state: State<F, E, R>)
    requires Sound(setup, state) && AcksSound(state) && state.phase.Sending? && state.phase.rest == []
    ensures Sound(setup, Next(setup, state, Request)) && AcksSound(Next(setup, state, Request))
  {
    hide Facts, FactsOf, Reduced, RequestsOf;
    var h, message := state.handled, Fact(state.phase.fact);
    var waiting := state.accepted[h..];
    assert waiting == [message] + state.queue;
    assert state.accepted[h] == waiting[0] && state.accepted[h + 1..] == waiting[1..];
    assert waiting[1..] == state.queue && [] + state.queue == state.queue;
    assert state.accepted[..h + 1] == state.accepted[..h] + [message];
    FactsNext(state.accepted[..h], message);
    var done := Facts(state.accepted[..h + 1]);
    assert done + [] == done;
  }

  lemma RequestKeeps<F, E, R>(setup: Setup<F, E, R>, state: State<F, E, R>)
    requires Sound(setup, state) && AcksSound(state) && state.phase.Sending? && state.phase.rest != []
    ensures Sound(setup, Next(setup, state, Request)) && AcksSound(Next(setup, state, Request))
  {
    hide Facts, FactsOf, Reduced, RequestsOf;
    var rest := state.phase.rest;
    assert rest == [rest[0]] + rest[1..];
    Associated(state.sent, [rest[0]], rest[1..]);
  }

  lemma StepKeeps<F, E, R>(setup: Setup<F, E, R>, state: State<F, E, R>, step: Step<F>)
    requires Sound(setup, state) && AcksSound(state)
    ensures Sound(setup, Next(setup, state, step)) && AcksSound(Next(setup, state, step))
  {
    hide Sound, AcksSound, Batches, Retained;
    match step
    case TrySend(fact, reserved) =>
      if |state.queue| < QUEUE_SIZE && !reserved { EnqueueKeeps(setup, state, Fact(fact)); }
    case SendFlush =>
      if |state.queue| < QUEUE_SIZE { EnqueueKeeps(setup, state, Flush); }
    case Receive =>
      if state.phase.Idle? && state.queue != [] {
        if state.queue[0].Flush? { FlushKeeps(setup, state); } else { TakeKeeps(setup, state); }
      }
    case Ingest(auth) =>
      if state.phase.Holding? { IngestKeeps(setup, state, auth); }
    case Request =>
      if state.phase.Sending? {
        if state.phase.rest == [] { FinishKeeps(setup, state); } else { RequestKeeps(setup, state); }
      }
  }

  /** A fact is taken exactly when fewer than 256 messages wait and no slot is kept; it goes behind them. */
  lemma SendMeans<F, E, R>(setup: Setup<F, E, R>, state: State<F, E, R>, fact: F, reserved: bool)
    ensures var sent := Next(setup, state, TrySend(fact, reserved));
            if |state.queue| < 256 && !reserved
            then sent.queue == state.queue + [Fact(fact)] && sent.accepted == state.accepted + [Fact(fact)]
            else sent == state
    ensures var sent := Next(setup, state, SendFlush);
            if |state.queue| < 256
            then sent.queue == state.queue + [Flush] && sent.accepted == state.accepted + [Flush]
            else sent == state
  {
  }

  /** Every state of every run is sound, and the channel never holds more than 256 messages. */
  lemma {:induction false} EveryRunSound<F, E, R>(setup: Setup<F, E, R>, steps: seq<Step<F>>)
    ensures Sound(setup, Play(setup, steps)) && AcksSound(Play(setup, steps)) && |Play(setup, steps).queue| <= 256
  {
    if steps != [] {
      hide Sound, AcksSound, Next;
      EveryRunSound(setup, steps[..|steps| - 1]);
      StepKeeps(setup, Play(setup, steps[..|steps| - 1]), steps[|steps| - 1]);
      SoundIsBounded(setup, Play(setup, steps));
    }
  }

  lemma SoundIsBounded<F, E, R>(setup: Setup<F, E, R>, state: State<F, E, R>)
    requires Sound(setup, state)
    ensures |state.queue| <= 256
  {
  }

  // ---------------------------------------------------------------------------------------------
  // What a run shows
  // ---------------------------------------------------------------------------------------------

  lemma {:induction false} FactsConcat<F>(a: seq<Message<F>>, b: seq<Message<F>>)
    ensures Facts(a + b) == Facts(a) + Facts(b)
    decreases |b|
  {
    if b == [] {
      assert a + b == a;
    } else {
      FactsConcat(a, b[..|b| - 1]);
      assert (a + b)[..|a + b| - 1] == a + b[..|b| - 1];
    }
  }

  lemma FactsSplit<F>(messages: seq<Message<F>>, i: nat)
    requires i <= |messages|
    ensures Facts(messages) == Facts(messages[..i]) + Facts(messages[i..])
  {
    assert messages == messages[..i] + messages[i..];
    FactsConcat(messages[..i], messages[i..]);
  }

  /**
   Facts are ingested in the order the channel took them, none twice and none skipped; once the worker is idle
   at an empty channel, all of them are.
   */
  lemma IngestedInOrder<F, E, R>(setup: Setup<F, E, R>, steps: seq<Step<F>>)
    ensures var state := Play(setup, steps);
            && FactsOf(state.ingested) <= Facts(state.accepted)
            && (state.phase.Idle? && state.queue == [] ==> FactsOf(state.ingested) == Facts(state.accepted))
  {
    hide Play, FactsOf, Reduced, RequestsOf;
    EveryRunSound(setup, steps);
    var state := Play(setup, steps);
    var h := state.handled;
    FactsSplit(state.accepted, h);
    FactsConcat(InHand(state.phase), state.queue);
    if state.phase.Sending? {
      FactsNext([], Fact(state.phase.fact));
      assert [] + [Fact(state.phase.fact)] == [Fact(state.phase.fact)];
    }
  }

  lemma {:induction false} RequestsPrefix<F, E, R>(setup: Setup<F, E, R>, ingested: seq<(F, Auth)>, n: nat)
    requires n <= |ingested|
    ensures RequestsOf(setup, ingested[..n]) <= RequestsOf(setup, ingested)
    decreases |ingested|
  {
    hide Batches, EventsOfLast;
    if n < |ingested| {
      RequestsPrefix(setup, ingested[..|ingested| - 1], n);
      assert ingested[..|ingested| - 1][..n] == ingested[..n];
    } else {
      assert ingested[..n] == ingested;
    }
  }

  /**
   Once the worker is past a flush it has answered it, and an answered flush is a barrier: every fact the channel
   took before it has been ingested, and every request those facts call for has been made.
   */
  lemma FlushIsBarrier<F, E, R>(setup: Setup<F, E, R>, steps: seq<Step<F>>, i: int)
    requires var state := Play(setup, steps);
             || i in state.acked
             || (0 <= i < state.handled && i < |state.accepted| && state.accepted[i].Flush?)
    ensures var state := Play(setup, steps);
            && i in state.acked && 0 <= i < |state.accepted| && state.accepted[i].Flush?
            && var n := |Facts(state.accepted[..i])|;
               && n <= |state.ingested|
               && FactsOf(state.ingested[..n]) == Facts(state.accepted[..i])
               && RequestsOf(setup, state.ingested[..n]) <= state.sent
  {
    hide Play, Facts, Reduced, RequestsOf;
    EveryRunSound(setup, steps);
    var state := Play(setup, steps);
    var before, handled := state.accepted[..i], state.accepted[..state.handled];
    FactsSplit(handled, i);
    assert handled[..i] == before;
    var n := |Facts(before)|;
    assert FactsOf(state.ingested)[..n] == Facts(before);
    FinishedRequests(setup, state, n);
  }

  lemma FinishedRequests<F, E, R>(setup: Setup<F, E, R>, state: State<F, E, R>, n: nat)
    requires Sound(setup, state) && n <= |Facts(state.accepted[..state.handled])|
    ensures n <= |state.ingested| && RequestsOf(setup, state.ingested[..n]) <= state.sent
  {
    hide Facts, Reduced, RequestsOf;
    if state.phase.Sending? {
      var finished := state.ingested[..|state.ingested| - 1];
      RequestsPrefix(setup, state.ingested, |finished|);
      RequestsPrefix(setup, finished, n);
      assert finished[..n] == state.ingested[..n];
    } else {
      RequestsPrefix(setup, state.ingested, n);
      assert state.sent + [] == state.sent;
    }
  }

  lemma {:induction false} RequestsAreEvents<F, E, R>(setup: Setup<F, E, R>, ingested: seq<(F, Auth)>)
    ensures Flattened(RequestsOf(setup, ingested)) == EventsOf(setup, ingested)
    ensures forall k :: 0 <= k < |RequestsOf(setup, ingested)| ==>
              Alone(RequestsOf(setup, ingested)[k], setup.isolated) || Shared(RequestsOf(setup, ingested)[k], setup.isolated)
  {
    hide Batches, EventsOfLast, Alone, Shared, Flattened;
    if ingested == [] {
      NothingFlattened<E>();
    } else {
      var fewer := ingested[..|ingested| - 1];
      RequestsAreEvents(setup, fewer);
      BatchesAreBatched(EventsOfLast(setup, ingested), setup.isolated);
      FlattenedConcat(RequestsOf(setup, fewer), Batches(EventsOfLast(setup, ingested), setup.isolated));
    }
  }

  lemma {:induction false} FlattenedConcat<E>(a: seq<seq<E>>, b: seq<seq<E>>)
    ensures Flattened(a + b) == Flattened(a) + Flattened(b)
    decreases |b|
  {
    if b == [] {
      assert a + b == a;
    } else {
      var fewer := b[..|b| - 1];
      FlattenedConcat(a, fewer);
      assert (a + b)[..|a + b| - 1] == a + fewer;
      Associated(Flattened(a), Flattened(fewer), b[|b| - 1]);
    }
  }

  /**
   The requests made, put together, are the events of the ingested facts in order, as far as the worker has
   come; no request is empty, and an isolated event goes alone.
   */
  lemma SentIsWhatFactsGive<F, E, R>(setup: Setup<F, E, R>, steps: seq<Step<F>>)
    ensures var state := Play(setup, steps);
            && Flattened(state.sent) <= EventsOf(setup, state.ingested)
            && (!state.phase.Sending? ==> Flattened(state.sent) == EventsOf(setup, state.ingested))
            && forall k :: 0 <= k < |state.sent| ==>
                 Alone(state.sent[k], setup.isolated) || Shared(state.sent[k], setup.isolated)
  {
    hide Play, Facts, FactsOf, Reduced, RequestsOf, EventsOf, Alone, Shared, Flattened;
    EveryRunSound(setup, steps);
    var state := Play(setup, steps);
    RequestsAreEvents(setup, state.ingested);
    FlattenedConcat(state.sent, Unsent(state.phase));
    var requests := RequestsOf(setup, state.ingested);
    assert forall k :: 0 <= k < |state.sent| ==> state.sent[k] == requests[k];
    assert state.sent + [] == state.sent;
  }
}
