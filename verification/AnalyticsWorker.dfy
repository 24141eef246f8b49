/** The analytics worker's loop and the sending of one fact's events. */
module AnalyticsWorker {
  import opened AnalyticsBatches
  import opened AnalyticsQueue

  /** Sending a fact's events: the requests are those the queue's specification calls for. */
  method TrackEvents<F, E, R>(setup: Setup<F, E, R>, events: seq<E>, auth: Auth) returns (requests: seq<seq<E>>)
    ensures requests == Batches(Retained(setup, events, auth), setup.isolated)
    ensures exists at :: Sifted(setup, auth, events, at, Flattened(requests))
    ensures Batched(Flattened(requests), requests, setup.isolated)
  {
    hide Batched, Batches, Kept, Sifted, Flattened;
    ghost var at := RetainedMeans(setup, events, auth);
    BatchesAreBatched(Retained(setup, events, auth), setup.isolated);
    BatchedFlattens(Retained(setup, events, auth), Batches(Retained(setup, events, auth), setup.isolated), setup.isolated);
    if events == [] || auth.SignedOut? || auth.Elsewhere? {
      NoRequests(setup, auth);
      return [];
    }
    var retained := events;
    if auth.ApiKey? {
      retained := Keep(events, setup.withApiKey);
    }
    if retained == [] {
      NoRequests(setup, auth);
      return [];
    }
    requests := BatchEvents(retained, setup.isolated);
    BatchingIsUnique(retained, requests, Batches(retained, setup.isolated), setup.isolated);
  }

  lemma BatchedFlattens<E>(events: seq<E>, batches: seq<seq<E>>, isolated: E -> bool)
    requires Batched(events, batches, isolated)
    ensures Flattened(batches) == events
  {
  }

  lemma NoRequests<F, E, R>(setup: Setup<F, E, R>, auth: Auth)
    ensures Batches<E>([], setup.isolated) == [] && Retained(setup, [], auth) == []
  {
  }

  method Keep<E>(events: seq<E>, keep: E -> bool) returns (kept: seq<E>)
    ensures kept == Kept(events, keep)
  {
    kept := [];
    for i := 0 to |events|
      invariant kept == Kept(events[..i], keep)
    {
      assert events[..i + 1][..i] == events[..i];
      if keep(events[i]) {
        kept := kept + [events[i]];
      }
    }
    assert events[..|events|] == events;
  }

  /** The facts among received messages, with the sign-in under which each was sent. */
  function FactsIn<F>(inputs: seq<(Message<F>, Auth)>): seq<(F, Auth)>
  {
    if inputs == [] then []
    else
      var (message, auth) := inputs[|inputs| - 1];
      FactsIn(inputs[..|inputs| - 1]) + if message.Fact? then [(message.fact, auth)] else []
  }

  // ---------------------------------------------------------------------------------------------
  // The loop and the interleavings
  // ---------------------------------------------------------------------------------------------

  function Messages<F>(inputs: seq<(Message<F>, Auth)>): seq<Message<F>>
  {
    seq(|inputs|, i requires 0 <= i < |inputs| => inputs[i].0)
  }

  /** At each flush, how many requests the facts before it call for. */
  function Answers<F, E, R>(setup: Setup<F, E, R>, inputs: seq<(Message<F>, Auth)>): seq<int>
  {
    if inputs == [] then []
    else
      var before := inputs[..|inputs| - 1];
      Answers(setup, before) + if inputs[|inputs| - 1].0.Flush? then [|RequestsOf(setup, FactsIn(before))|] else []
  }

  /** Everything the worker does with one message it has received, the fact being the next after `ingested`. */
  function MessageSteps<F, E, R>(setup: Setup<F, E, R>, ingested: seq<(F, Auth)>, message: Message<F>, auth: Auth)
    : seq<Step<F>>
  {
    if message.Flush? then [SendFlush, Receive]
    else
      var events := setup.ingest(Reduced(setup, ingested), message.fact).1;
      var requests := Batches(Retained(setup, events, auth), setup.isolated);
      [TrySend(message.fact, false), Receive, Ingest(auth)] + seq(|requests| + 1, _ => Request)
  }

  /** The steps of a run in which each message is sent when the worker has done with the one before. */
  function WorkerSteps<F, E, R>(setup: Setup<F, E, R>, inputs: seq<(Message<F>, Auth)>): seq<Step<F>>
  {
    if inputs == [] then []
    else
      var before, (message, auth) := inputs[..|inputs| - 1], inputs[|inputs| - 1];
      WorkerSteps(setup, before) + MessageSteps(setup, FactsIn(before), message, auth)
  }

  lemma PlayNext<F, E, R>(setup: Setup<F, E, R>, steps: seq<Step<F>>, step: Step<F>)
    ensures Play(setup, steps + [step]) == Next(setup, Play(setup, steps), step)
  {
    hide Next;
    assert (steps + [step])[..|steps|] == steps;
  }

  /** Steps taken in turn after a run. */
  function PlayOn<F, E, R>(setup: Setup<F, E, R>, state: State<F, E, R>, steps: seq<Step<F>>): State<F, E, R>
  {
    if steps == [] then state else Next(setup, PlayOn(setup, state, steps[..|steps| - 1]), steps[|steps| - 1])
  }

  lemma {:induction false} PlayConcat<F, E, R>(setup: Setup<F, E, R>, a: seq<Step<F>>, b: seq<Step<F>>)
    ensures Play(setup, a + b) == PlayOn(setup, Play(setup, a), b)
    decreases |b|
  {
    hide Next;
    if b == [] {
      assert a + b == a;
    } else {
      PlayConcat(setup, a, b[..|b| - 1]);
      assert a + b == (a + b[..|b| - 1]) + [b[|b| - 1]];
      PlayNext(setup, a + b[..|b| - 1], b[|b| - 1]);
    }
  }

  lemma {:induction false} PlayOnConcat<F, E, R>(setup: Setup<F, E, R>, state: State<F, E, R>, a: seq<Step<F>>,
                                                 b: seq<Step<F>>)
    ensures PlayOn(setup, state, a + b) == PlayOn(setup, PlayOn(setup, state, a), b)
    decreases |b|
  {
    hide Next;
    if b == [] {
      assert a + b == a;
    } else {
      assert (a + b)[..|a + b| - 1] == a + b[..|b| - 1];
      PlayOnConcat(setup, state, a, b[..|b| - 1]);
    }
  }

  lemma {:induction false} SomeRequests<F, E, R>(setup: Setup<F, E, R>, state: State<F, E, R>, n: nat)
    requires state.phase.Sending? && n <= |state.phase.rest|
    ensures PlayOn(setup, state, seq(n, _ => Step<F>.Request))
         == state.(sent := state.sent + state.phase.rest[..n], phase := state.phase.(rest := state.phase.rest[n..]))
  {
    var rest := state.phase.rest;
    if n == 0 {
      assert state.sent + [] == state.sent && rest[0..] == rest;
    } else {
      var steps: seq<Step<F>> := seq(n, _ => Request);
      assert steps[..n - 1] == seq(n - 1, _ => Request);
      SomeRequests(setup, state, n - 1);
      assert rest[..n] == rest[..n - 1] + [rest[n - 1]];
      assert rest[n - 1..][0] == rest[n - 1] && rest[n - 1..][1..] == rest[n..];
    }
  }

  lemma AllRequests<F, E, R>(setup: Setup<F, E, R>, state: State<F, E, R>)
    requires state.phase.Sending?
    ensures PlayOn(setup, state, seq(|state.phase.rest| + 1, _ => Step<F>.Request))
         == state.(sent := state.sent + state.phase.rest, phase := Idle, handled := state.handled + 1)
  {
    var rest := state.phase.rest;
    var steps: seq<Step<F>> := seq(|rest| + 1, _ => Request);
    SomeRequests(setup, state, |rest|);
    assert steps[..|rest|] == seq(|rest|, _ => Request);
    assert rest[..|rest|] == rest && rest[|rest|..] == [];
  }

  /** Where the machine stands when the worker has done with these inputs and nothing is waiting. */
  function Rested<F, E, R>(setup: Setup<F, E, R>, inputs: seq<(Message<F>, Auth)>): State<F, E, R>
  {
    State([], Idle, Reduced(setup, FactsIn(inputs)), Messages(inputs), |inputs|, FactsIn(inputs),
          RequestsOf(setup, FactsIn(inputs)), set i | 0 <= i < |inputs| && inputs[i].0.Flush?)
  }

  lemma InputsNext<F>(inputs: seq<(Message<F>, Auth)>, message: Message<F>, auth: Auth)
    ensures var more := inputs + [(message, auth)];
            && FactsIn(more) == FactsIn(inputs) + (if message.Fact? then [(message.fact, auth)] else [])
            && Messages(more) == Messages(inputs) + [message]
            && (set i | 0 <= i < |more| && more[i].0.Flush?)
               == (set i | 0 <= i < |inputs| && inputs[i].0.Flush?) + (if message.Flush? then {|inputs|} else {})
  {
    var more := inputs + [(message, auth)];
    assert more[..|inputs|] == inputs && more[|inputs|] == (message, auth);
    assert forall i :: 0 <= i < |inputs| ==> more[i] == inputs[i];
  }

  lemma FlushRests<F, E, R>(setup: Setup<F, E, R>, inputs: seq<(Message<F>, Auth)>, auth: Auth)
    ensures PlayOn(setup, Rested(setup, inputs), [SendFlush, Receive])
         == Rested(setup, inputs + [(Flush, auth)])
  {
    hide Reduced, RequestsOf, FactsIn, Messages;
    InputsNext(inputs, Flush, auth);
    var facts := FactsIn(inputs);
    assert facts + [] == facts;
    TwoSteps(setup, Rested(setup, inputs), SendFlush, Receive);
  }

  lemma TwoSteps<F, E, R>(setup: Setup<F, E, R>, state: State<F, E, R>, first: Step<F>, second: Step<F>)
    ensures PlayOn(setup, state, [first, second]) == Next(setup, Next(setup, state, first), second)
  {
    hide Next;
    assert [first, second][..1] == [first];
    assert PlayOn(setup, state, [first]) == Next(setup, state, first) by {
      assert [first][..0] == [];
    }
  }

  lemma ThreeSteps<F, E, R>(setup: Setup<F, E, R>, state: State<F, E, R>, a: Step<F>, b: Step<F>, c: Step<F>)
    ensures PlayOn(setup, state, [a, b, c]) == Next(setup, Next(setup, Next(setup, state, a), b), c)
  {
    hide Next;
    TwoSteps(setup, state, a, b);
    assert [a, b, c][..2] == [a, b];
  }

  lemma FactRests<F, E, R>(setup: Setup<F, E, R>, inputs: seq<(Message<F>, Auth)>, fact: F, auth: Auth)
    ensures PlayOn(setup, Rested(setup, inputs), MessageSteps(setup, FactsIn(inputs), Fact(fact), auth))
         == Rested(setup, inputs + [(Fact(fact), auth)])
  {
    hide Reduced, RequestsOf, FactsIn, Messages, Batches, Retained, PlayOn;
    InputsNext(inputs, Fact(fact), auth);
    RequestsNext(setup, FactsIn(inputs), fact, auth);
    var rested := Rested(setup, inputs);
    ThreeSteps(setup, rested, TrySend(fact, false), Receive, Ingest(auth));
    var sending := PlayOn(setup, rested, [TrySend(fact, false), Receive, Ingest(auth)]);
    PlayOnConcat(setup, rested, [TrySend(fact, false), Receive, Ingest(auth)],
                 seq(|sending.phase.rest| + 1, _ => Step<F>.Request));
    AllRequests(setup, sending);
  }

  /** What the loop does with its inputs is one interleaving of the queue's steps. */
  lemma {:induction false} LoopIsAnInterleaving<F, E, R>(setup: Setup<F, E, R>, inputs: seq<(Message<F>, Auth)>)
    ensures Play(setup, WorkerSteps(setup, inputs)) == Rested(setup, inputs)
  {
    hide Next, PlayOn, MessageSteps, Reduced, RequestsOf, FactsIn;
    if inputs == [] {
      NothingRested(setup);
    } else {
      var before := inputs[..|inputs| - 1];
      var (message, auth) := inputs[|inputs| - 1];
      assert inputs == before + [(message, auth)];
      LoopIsAnInterleaving(setup, before);
      PlayConcat(setup, WorkerSteps(setup, before), MessageSteps(setup, FactsIn(before), message, auth));
      OneRests(setup, before, message, auth);
    }
  }

  lemma NothingRested<F, E, R>(setup: Setup<F, E, R>)
    ensures Rested(setup, []) == Initial(setup)
  {
    assert Messages<F>([]) == [];
  }

  lemma OneRests<F, E, R>(setup: Setup<F, E, R>, inputs: seq<(Message<F>, Auth)>, message: Message<F>, auth: Auth)
    ensures PlayOn(setup, Rested(setup, inputs), MessageSteps(setup, FactsIn(inputs), message, auth))
         == Rested(setup, inputs + [(message, auth)])
  {
    hide PlayOn, Rested;
    if message.Flush? {
      FlushRests(setup, inputs, auth);
    } else {
      FactRests(setup, inputs, message.fact, auth);
    }
  }

  /** The messages, each fact with the sign-in under which it was ingested. */
  function Received<F>(messages: seq<Message<F>>, ingested: seq<(F, Auth)>): seq<(Message<F>, Auth)>
    requires |ingested| == |Facts(messages)|
  {
    if messages == [] then []
    else
      var before, last := messages[..|messages| - 1], messages[|messages| - 1];
      if last.Fact? then Received(before, ingested[..|ingested| - 1]) + [(last, ingested[|ingested| - 1].1)]
      else Received(before, ingested) + [(last, SignedOut)]
  }

  lemma {:induction false} ReceivedIs<F>(messages: seq<Message<F>>, ingested: seq<(F, Auth)>)
    requires FactsOf(ingested) == Facts(messages)
    ensures Messages(Received(messages, ingested)) == messages && FactsIn(Received(messages, ingested)) == ingested
    decreases |messages|
  {
    FactsOfLength(ingested);
    if messages != [] {
      hide FactsOf, Messages, FactsIn;
      var before, last, n := messages[..|messages| - 1], messages[|messages| - 1], |ingested| - 1;
      assert messages == before + [last];
      if last.Fact? {
        LastFact(ingested);
        SameFront(FactsOf(ingested[..n]), Facts(before), ingested[n].0, last.fact);
        ReceivedIs(before, ingested[..n]);
        InputsNext(Received(before, ingested[..n]), last, ingested[n].1);
        assert ingested == ingested[..n] + [ingested[n]];
      } else {
        assert Facts(before) + [] == Facts(before);
        ReceivedIs(before, ingested);
        InputsNext(Received(before, ingested), last, SignedOut);
        assert ingested + [] == ingested;
      }
    }
  }

  lemma LastFact<F>(ingested: seq<(F, Auth)>)
    requires ingested != []
    ensures var n := |ingested| - 1; FactsOf(ingested) == FactsOf(ingested[..n]) + [ingested[n].0]
  {
  }

  lemma SameFront<T>(a: seq<T>, b: seq<T>, x: T, y: T)
    requires a + [x] == b + [y]
    ensures a == b && x == y
  {
    assert (a + [x])[..|a|] == a && (b + [y])[..|b|] == b && (a + [x])[|a|] == x && (b + [y])[|b|] == y;
    assert |a + [x]| == |b + [y]|;
  }

  /**
   Conversely, whatever the interleaving, a worker that is between messages has ingested and sent exactly what
   the loop makes of the messages it has received.
   */
  lemma EveryInterleavingIsTheLoop<F, E, R>(setup: Setup<F, E, R>, steps: seq<Step<F>>)
    requires Play(setup, steps).phase.Idle?
    ensures var state := Play(setup, steps);
            && 0 <= state.handled <= |state.accepted| && state.accepted[state.handled..] == state.queue
            && exists inputs :: Messages(inputs) == state.accepted[..state.handled]
                             && state.(queue := [], accepted := state.accepted[..state.handled]) == Rested(setup, inputs)
  {
    hide Play, Facts, FactsOf, Reduced, RequestsOf, FactsIn;
    EveryRunSound(setup, steps);
    var state := Play(setup, steps);
    var h := state.handled;
    var done := Facts(state.accepted[..h]);
    assert done + [] == done && state.sent + [] == state.sent && [] + state.queue == state.queue;
    FactsOfLength(state.ingested);
    ReceivedIs(state.accepted[..h], state.ingested);
    var inputs := Received(state.accepted[..h], state.ingested);
    assert |inputs| == h by { assert |Messages(inputs)| == |inputs|; }
    assert forall i :: 0 <= i < h ==> inputs[i].0 == state.accepted[..h][i] == state.accepted[i];
    assert state.acked == set i | 0 <= i < |inputs| && inputs[i].0.Flush?;
  }

  lemma FactsOfLength<F>(ingested: seq<(F, Auth)>)
    ensures |FactsOf(ingested)| == |ingested|
  {
  }

  class Worker<F, E, R> {
    const setup: Setup<F, E, R>
    var reducer: R
    var sent: seq<seq<E>>
    var acks: seq<int>
    ghost var ingested: seq<(F, Auth)>

    ghost predicate Valid()
      reads this
    {
      reducer == Reduced(setup, ingested) && sent == RequestsOf(setup, ingested)
    }

    constructor (setup: Setup<F, E, R>)
      ensures this.setup == setup && Valid() && ingested == [] && acks == []
    {
      this.setup := setup;
      reducer, sent, acks, ingested := setup.start, [], [], [];
    }

    /** A fact is reduced, and its events are sent before anything else is received. */
    method Handle(fact: F, auth: Auth)
      requires Valid()
      modifies this
      ensures Valid() && ingested == old(ingested) + [(fact, auth)] && acks == old(acks)
    {
      hide Batches, Retained, Reduced, RequestsOf;
      RequestsNext(setup, ingested, fact, auth);
      var (reducer', events) := setup.ingest(reducer, fact);
      var requests := TrackEvents(setup, events, auth);
      var i := 0;
      ghost var before := sent;
      while i < |requests|
        invariant i <= |requests| && sent == before + requests[..i]
        invariant reducer == old(reducer) && acks == old(acks) && ingested == old(ingested)
      {
        assert requests[..i + 1] == requests[..i] + [requests[i]];
        sent := sent + [requests[i]];
        i := i + 1;
      }
      assert requests[..i] == requests;
      reducer, ingested := reducer', ingested + [(fact, auth)];
    }

    /**
     The loop until the channel closes. Each flush is answered with every request of the facts received
     before it already made: `acks` records how many had been made at each answer.
     */
    method Run(inputs: seq<(Message<F>, Auth)>)
      requires Valid() && ingested == [] && acks == []
      modifies this
      ensures Valid() && ingested == FactsIn(inputs)
      ensures acks == Answers(setup, inputs)
      ensures var state := Play(setup, WorkerSteps(setup, inputs));
              && reducer == state.reducer && ingested == state.ingested && sent == state.sent
              && state.accepted == Messages(inputs) && state.phase.Idle? && state.queue == []
    {
      hide Batches, Retained, Reduced, RequestsOf, Play, WorkerSteps;
      LoopIsAnInterleaving(setup, inputs);
      for i := 0 to |inputs|
        invariant Valid() && ingested == FactsIn(inputs[..i]) && acks == Answers(setup, inputs[..i])
      {
        assert inputs[..i + 1][..i] == inputs[..i];
        var (message, auth) := inputs[i];
        if message.Flush? {
          acks := acks + [|sent|];
        } else {
          Handle(message.fact, auth);
        }
      }
      assert inputs[..|inputs|] == inputs;
    }
  }
}
