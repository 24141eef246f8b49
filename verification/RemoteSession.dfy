/**
 The handshake that precedes the worker, the event queue its consumer reads, and what the two phases
 together promise about the whole inbound stream.
 */
module RemoteSession {
  import opened Common
  import opened RemoteProtocol
  import opened RemoteMeaning
  import opened RemoteWorker

  const INITIALIZE_ID := StringId("initialize")
  const INITIALIZED := Notification("initialized", "")
  const CLOSED_EARLY := "connection closed during initialize"

  /** A frame read before the initialize deadline, and the outcome of the write it may cause. */
  datatype Arrival = Arrival(frame: Frame, io: Option<IoError>)

  function Frames(arrivals: seq<Arrival>): (frames: seq<Frame>)
    ensures |frames| == |arrivals|
    ensures forall i :: 0 <= i < |arrivals| ==> frames[i] == arrivals[i].frame
  {
    seq(|arrivals|, i requires 0 <= i < |arrivals| => arrivals[i].frame)
  }

  /** The frame answers the initialize request. */
  predicate Accepts(frame: Frame)
  {
    frame.Text? && frame.message.Response? && frame.message.id == INITIALIZE_ID
  }

  /** Why the handshake fails on this arrival, if it does. */
  function Fails(endpoint: string, protocol: Protocol, arrival: Arrival): Option<IoError>
  {
    match arrival.frame
    case Text(Error(id, error)) =>
      if id == INITIALIZE_ID then Some(IoError(Other, RejectedInitialize(endpoint, error.message))) else None
    case Text(message) => if Unknown(protocol, arrival.frame) then arrival.io else None
    case BadText(err) => Some(IoError(Other, InvalidInitializeResponse(endpoint, err)))
    case Close(reason) =>
      var text := if reason.Some? && reason.value != [] then reason.value else CLOSED_EARLY;
      Some(IoError(ConnectionAborted, ClosedDuringInitialize(endpoint, text)))
    case Failed(err) => Some(IoError(Other, TransportFailedDuringInitialize(endpoint, err)))
    case Ended => Some(IoError(UnexpectedEof, EndedDuringInitialize(endpoint)))
    case Ignored => None
  }

  /** The handshake reads past this arrival. */
  predicate Passes(endpoint: string, protocol: Protocol, arrival: Arrival)
  {
    !Accepts(arrival.frame) && Fails(endpoint, protocol, arrival).None?
  }

  /** The refusals a stream of frames calls for: one per unknown server request, with its own id, in order. */
  function Refusals(protocol: Protocol, frames: seq<Frame>): seq<Message>
  {
    if frames == [] then []
    else
      var last := frames[|frames| - 1];
      Refusals(protocol, frames[..|frames| - 1]) + if Unknown(protocol, last) then [Unsupported(last.message)] else []
  }

  lemma {:induction false} RefusalsDecline(protocol: Protocol, frames: seq<Frame>) returns (at: seq<int>)
    ensures Declines(protocol, frames, at, Refusals(protocol, frames))
  {
    hide Unrecognised, Refuses, Declines;
    if frames == [] {
      at := [];
      NothingDeclined(protocol);
    } else {
      var n := |frames| - 1;
      var before, last := frames[..n], frames[n];
      at := RefusalsDecline(protocol, before);
      UnknownDeclines(protocol, last);
      assert frames == before + [last];
      if Unrecognised(protocol, last) {
        DeclinesTake(protocol, before, at, Refusals(protocol, before), last, Unsupported(last.message));
        at := at + [n];
      } else {
        DeclinesSkip(protocol, before, at, Refusals(protocol, before), last);
        assert Refusals(protocol, before) + [] == Refusals(protocol, before);
      }
    }
  }

  lemma NothingDeclined(protocol: Protocol)
    ensures Declines(protocol, [], [], [])
  {
  }

  lemma UnknownDeclines(protocol: Protocol, frame: Frame)
    ensures Unknown(protocol, frame) <==> Unrecognised(protocol, frame)
    ensures Unknown(protocol, frame) ==> Refuses(frame, Unsupported(frame.message))
  {
  }

  /** What the handshake makes of an arrival, case by case. */
  lemma HandshakeMeans(endpoint: string, protocol: Protocol, arrival: Arrival)
    ensures var frame, initialize := arrival.frame, StringId("initialize");
            var answers := frame.Text? && (frame.message.Response? || frame.message.Error?) && frame.message.id == initialize;
            var unwritten := Unrecognised(protocol, frame) && arrival.io.Some?;
            && (Accepts(frame) <==> answers && frame.message.Response?)
            && (Passes(endpoint, protocol, arrival) <==> frame.Ignored? || (frame.Text? && !answers && !unwritten))
            && (unwritten ==> Fails(endpoint, protocol, arrival) == arrival.io)
            && (answers && frame.message.Error? ==>
                  Fails(endpoint, protocol, arrival)
                  == Some(IoError(Other, RejectedInitialize(endpoint, frame.message.error.message))))
            && (frame.BadText? ==>
                  Fails(endpoint, protocol, arrival)
                  == Some(IoError(Other, InvalidInitializeResponse(endpoint, frame.parseError))))
            && (frame.Failed? ==>
                  Fails(endpoint, protocol, arrival)
                  == Some(IoError(Other, TransportFailedDuringInitialize(endpoint, frame.transportError))))
            && (frame.Ended? ==>
                  Fails(endpoint, protocol, arrival) == Some(IoError(UnexpectedEof, EndedDuringInitialize(endpoint))))
            && (frame.Close? && frame.reason !in {None, Some("")} ==>
                  Fails(endpoint, protocol, arrival)
                  == Some(IoError(ConnectionAborted, ClosedDuringInitialize(endpoint, frame.reason.value))))
            && (frame.Close? && frame.reason in {None, Some("")} ==>
                  Fails(endpoint, protocol, arrival)
                  == Some(IoError(ConnectionAborted,
                                  ClosedDuringInitialize(endpoint, "connection closed during initialize"))))
  {
  }

  /**
   The handshake's loop: it reads up to the first arrival that answers the initialize request or breaks the
   handshake, keeping the events and refusing the unknown requests of everything before it.
   */
  method ReadGreeting(endpoint: string, protocol: Protocol, arrivals: seq<Arrival>)
    returns (events: seq<Event>, refusals: seq<Message>, read: nat)
    ensures read <= |arrivals|
    ensures forall i :: 0 <= i < read ==> Passes(endpoint, protocol, arrivals[i])
    ensures read < |arrivals| ==> !Passes(endpoint, protocol, arrivals[read])
    ensures events == EventsIn(protocol, Frames(arrivals[..read]))
    ensures refusals == Refusals(protocol, Frames(arrivals[..read]))
    ensures exists at :: Tells(protocol, Frames(arrivals[..read]), at, events)
    ensures exists at :: Declines(protocol, Frames(arrivals[..read]), at, refusals)
  {
    hide Tells, Declines, EventsIn, Refusals, Passes;
    events, refusals, read := [], [], 0;
    NothingRead(protocol);
    assert Frames(arrivals[..0]) == [];
    while read < |arrivals| && Passes(endpoint, protocol, arrivals[read])
      invariant read <= |arrivals|
      invariant forall i :: 0 <= i < read ==> Passes(endpoint, protocol, arrivals[i])
      invariant events == EventsIn(protocol, Frames(arrivals[..read]))
      invariant refusals == Refusals(protocol, Frames(arrivals[..read]))
    {
      var frame := arrivals[read].frame;
      ReadOne(protocol, arrivals, read);
      events := events + Listed(EventIn(protocol, frame));
      if Unknown(protocol, frame) {
        refusals := refusals + [Unsupported(frame.message)];
      }
      read := read + 1;
    }
    ghost var told := EventsTell(protocol, Frames(arrivals[..read]));
    ghost var declined := RefusalsDecline(protocol, Frames(arrivals[..read]));
  }

  lemma NothingRead(protocol: Protocol)
    ensures EventsIn(protocol, []) == [] && Refusals(protocol, []) == []
  {
  }

  lemma ReadOne(protocol: Protocol, arrivals: seq<Arrival>, read: nat)
    requires read < |arrivals|
    ensures EventsIn(protocol, Frames(arrivals[..read])) + Listed(EventIn(protocol, arrivals[read].frame))
         == EventsIn(protocol, Frames(arrivals[..read + 1]))
    ensures Refusals(protocol, Frames(arrivals[..read]))
            + (if Unknown(protocol, arrivals[read].frame) then [Unsupported(arrivals[read].frame.message)] else [])
         == Refusals(protocol, Frames(arrivals[..read + 1]))
  {
    var before, frame := Frames(arrivals[..read]), arrivals[read].frame;
    assert Frames(arrivals[..read + 1]) == before + [frame];
    assert (before + [frame])[..|before|] == before;
    EventsNext(protocol, before, frame);
  }

  /**
   `initialize_remote_connection`. The arrivals are those read before the deadline: running out of them is
   timing out. It succeeds exactly when the first arrival it does not read past is the initialize response
   and both of its own writes succeed, and it then hands over the events of everything it read.
   */
  method Initialize(endpoint: string, protocol: Protocol, request: Message, requestIo: Option<IoError>,
                    arrivals: seq<Arrival>, initializedIo: Option<IoError>)
    returns (result: Result<seq<Event>, IoError>, wire: seq<Message>, read: nat)
    ensures read <= |arrivals|
    ensures forall i :: 0 <= i < read ==> Passes(endpoint, protocol, arrivals[i])
    ensures requestIo.None? && read < |arrivals| ==> !Passes(endpoint, protocol, arrivals[read])
    ensures result.Ok? <==> && requestIo.None? && initializedIo.None?
                            && read < |arrivals| && Accepts(arrivals[read].frame)
    ensures result.Ok? ==> && result.value == EventsIn(protocol, Frames(arrivals[..read]))
                           && wire == [request] + Refusals(protocol, Frames(arrivals[..read])) + [INITIALIZED]
    ensures result.Ok? ==> exists at :: Tells(protocol, Frames(arrivals[..read]), at, result.value)
    ensures result.Ok? ==> exists at, refusals :: Declines(protocol, Frames(arrivals[..read]), at, refusals)
                                               && wire == [request] + refusals + [Notification("initialized", "")]
    ensures result.Err? ==> wire == if requestIo.Some? then []
                                    else [request] + Refusals(protocol, Frames(arrivals[..read]))
    ensures result.Err? && requestIo.Some? ==> result.error == requestIo.value
    ensures result.Err? && requestIo.None? && read == |arrivals|
        ==> result.error == IoError(TimedOut, TimedOutInitializing(endpoint))
    ensures result.Err? && requestIo.None? && read < |arrivals|
        ==> Some(result.error)
            == if Accepts(arrivals[read].frame) then initializedIo else Fails(endpoint, protocol, arrivals[read])
  {
    hide Tells, Declines, EventsIn, Refusals, Unknown, Fails;
    if requestIo.Some? {
      return Err(requestIo.value), [], 0;
    }
    var events, refusals;
    events, refusals, read := ReadGreeting(endpoint, protocol, arrivals);
    wire := [request] + refusals;
    if read == |arrivals| {
      result := Err(IoError(TimedOut, TimedOutInitializing(endpoint)));
    } else if !Accepts(arrivals[read].frame) {
      result := Err(Fails(endpoint, protocol, arrivals[read]).value);
    } else if initializedIo.Some? {
      result := Err(initializedIo.value);
    } else {
      result, wire := Ok(events), wire + [INITIALIZED];
    }
  }

  // ---------------------------------------------------------------------------------------------
  // Both phases together
  // ---------------------------------------------------------------------------------------------

  /**
   The events of the handshake followed by those the worker attempts are exactly the events of the whole
   inbound stream (what was read before the initialize response, the response, and every live frame), in
   order, and then the one announcement of how it ended, if it was announced.
   */
  lemma WholeStream(endpoint: string, protocol: Protocol, greeting: seq<Frame>, response: Frame, turns: seq<Turn>)
    requires Accepts(response)
    ensures EventsIn(protocol, greeting) + DueEvents(endpoint, protocol, turns)
         == EventsIn(protocol, greeting + [response] + FramesOf(turns))
            + Announcement(LastCause(endpoint, protocol, turns))
  {
    EventsNext(protocol, greeting, response);
    EventsConcat(protocol, greeting + [response], FramesOf(turns));
  }

  /** A disconnection is announced at most once, as the last event, and exactly when the exit error is set. */
  lemma AnnouncedOnce(endpoint: string, protocol: Protocol, turns: seq<Turn>)
    ensures var events := DueEvents(endpoint, protocol, turns);
            forall i :: 0 <= i < |events| ==>
              (events[i].Disconnected? <==> i == |events| - 1 && LastCause(endpoint, protocol, turns).Some?)
  {
    NoDisconnectedAmongEvents(protocol, FramesOf(turns));
  }

  // ---------------------------------------------------------------------------------------------
  // Refusals on the wire
  // ---------------------------------------------------------------------------------------------

  /** The last turn received an unknown request and could not write its refusal. */
  predicate RefusalFailed(protocol: Protocol, turns: seq<Turn>)
  {
    && turns != []
    && var last := turns[|turns| - 1];
       last.input.Receive? && Unknown(protocol, last.input.frame) && last.io.Some?
  }

  /** The turns whose unknown requests are refused: all but a last one whose refusal could not be written. */
  function Refusing(protocol: Protocol, turns: seq<Turn>): seq<Turn>
  {
    if RefusalFailed(protocol, turns) then turns[..|turns| - 1] else turns
  }

  /** What the turns that received a frame wrote, and what the turns that took a command wrote. */
  ghost function WrittenFor(protocol: Protocol, turns: seq<Turn>, received: bool): seq<Message>
  {
    if turns == [] then []
    else
      var n := |turns| - 1;
      WrittenFor(protocol, turns[..n], received)
      + if turns[n].input.Receive? == received then Written(protocol, turns, n) else []
  }

  /** One sequence is two others shuffled together, each in its own order. */
  ghost predicate Interleaved<T>(whole: seq<T>, a: seq<T>, b: seq<T>)
  {
    if whole == [] then a == [] && b == []
    else
      var n := |whole| - 1;
      || (a != [] && a[|a| - 1] == whole[n] && Interleaved(whole[..n], a[..|a| - 1], b))
      || (b != [] && b[|b| - 1] == whole[n] && Interleaved(whole[..n], a, b[..|b| - 1]))
  }

  lemma InterleavedNext<T>(whole: seq<T>, a: seq<T>, b: seq<T>, more: seq<T>)
    requires Interleaved(whole, a, b) && |more| <= 1
    ensures Interleaved(whole + more, a + more, b) && Interleaved(whole + more, a, b + more)
  {
    if more == [] {
      assert whole + more == whole && a + more == a && b + more == b;
    } else {
      assert (whole + more)[..|whole|] == whole && (a + more)[..|a|] == a && (b + more)[..|b|] == b;
    }
  }

  lemma {:induction false} WireInterleaves(protocol: Protocol, turns: seq<Turn>)
    ensures Interleaved(Wire(protocol, turns), WrittenFor(protocol, turns, true), WrittenFor(protocol, turns, false))
  {
    hide Written;
    if turns != [] {
      var n := |turns| - 1;
      WireInterleaves(protocol, turns[..n]);
      WrittenIsOne(protocol, turns, n);
      NextInterleaves(protocol, turns);
    }
  }

  lemma NextInterleaves(protocol: Protocol, turns: seq<Turn>)
    requires turns != [] && |Written(protocol, turns, |turns| - 1)| <= 1
    requires var before := turns[..|turns| - 1];
             Interleaved(Wire(protocol, before), WrittenFor(protocol, before, true), WrittenFor(protocol, before, false))
    ensures Interleaved(Wire(protocol, turns), WrittenFor(protocol, turns, true), WrittenFor(protocol, turns, false))
  {
    hide Written, Interleaved;
    var n := |turns| - 1;
    var refused, said := WrittenFor(protocol, turns[..n], true), WrittenFor(protocol, turns[..n], false);
    InterleavedNext(Wire(protocol, turns[..n]), refused, said, Written(protocol, turns, n));
    assert refused + [] == refused && said + [] == said;
  }

  lemma WrittenIsOne(protocol: Protocol, turns: seq<Turn>, k: nat)
    requires k < |turns|
    ensures |Written(protocol, turns, k)| <= 1
  {
  }

  lemma RefusedNext(protocol: Protocol, turns: seq<Turn>, turn: Turn)
    requires !RefusalFailed(protocol, turns + [turn])
    requires WrittenFor(protocol, turns, true) == Refusals(protocol, FramesOf(turns))
    ensures WrittenFor(protocol, turns + [turn], true) == Refusals(protocol, FramesOf(turns + [turn]))
  {
    var more := turns + [turn];
    assert more[..|turns|] == turns && more[|turns|] == turn;
    FramesNext(turns, turn);
    if turn.input.Receive? {
      var frames := FramesOf(turns);
      assert (frames + [turn.input.frame])[..|frames|] == frames;
    }
  }

  lemma {:induction false} RefusedSoFar(endpoint: string, protocol: Protocol, turns: seq<Turn>)
    requires Running(endpoint, protocol, turns)
    ensures WrittenFor(protocol, turns, true) == Refusals(protocol, FramesOf(turns))
  {
    if turns != [] {
      var n := |turns| - 1;
      var before, last := turns[..n], turns[n];
      assert turns == before + [last];
      EarlierRunning(endpoint, protocol, before, last);
      RefusedSoFar(endpoint, protocol, before);
      assert !Leaves(endpoint, protocol, turns, n);
      RefusedNext(protocol, before, last);
    }
  }

  lemma EarlierRunning(endpoint: string, protocol: Protocol, turns: seq<Turn>, turn: Turn)
    requires Running(endpoint, protocol, turns + [turn]) || Exited(endpoint, protocol, turns + [turn])
    ensures Running(endpoint, protocol, turns)
  {
    forall k | 0 <= k < |turns| ensures !Leaves(endpoint, protocol, turns, k) {
      CausePrefix(endpoint, protocol, turns, turn, k);
      assert !Leaves(endpoint, protocol, turns + [turn], k);
    }
  }

  /**
   In every run, exited or not, each unknown server request has had one refusal carrying its own id, except one
   whose refusal could not be written, and that one ends the run. The refusals stand on the wire in the order of
   the requests, among what the commands wrote, and nothing else is on it.
   */
  lemma EveryUnknownRefused(endpoint: string, protocol: Protocol, turns: seq<Turn>)
    requires Running(endpoint, protocol, turns) || Exited(endpoint, protocol, turns)
    ensures RefusalFailed(protocol, turns) ==> Exited(endpoint, protocol, turns)
    ensures WrittenFor(protocol, turns, true) == Refusals(protocol, FramesOf(Refusing(protocol, turns)))
    ensures Interleaved(Wire(protocol, turns), Refusals(protocol, FramesOf(Refusing(protocol, turns))),
                        WrittenFor(protocol, turns, false))
    ensures exists at :: Declines(protocol, FramesOf(Refusing(protocol, turns)), at, WrittenFor(protocol, turns, true))
  {
    hide Interleaved, Wire, Declines, WrittenFor, Refusals, FramesOf, Refusing, RefusalFailed, Running, Exited;
    RefusedExactly(endpoint, protocol, turns);
    WireInterleaves(protocol, turns);
    var at := RefusalsDecline(protocol, FramesOf(Refusing(protocol, turns)));
  }

  lemma RefusedExactly(endpoint: string, protocol: Protocol, turns: seq<Turn>)
    requires Running(endpoint, protocol, turns) || Exited(endpoint, protocol, turns)
    ensures RefusalFailed(protocol, turns) ==> Exited(endpoint, protocol, turns)
    ensures WrittenFor(protocol, turns, true) == Refusals(protocol, FramesOf(Refusing(protocol, turns)))
  {
    hide Refusals, FramesOf;
    if turns == [] {
      NothingRefused(protocol);
    } else {
      var n := |turns| - 1;
      var before, last := turns[..n], turns[n];
      assert turns == before + [last];
      EarlierRunning(endpoint, protocol, before, last);
      RefusedSoFar(endpoint, protocol, before);
      if RefusalFailed(protocol, turns) {
        assert Leaves(endpoint, protocol, turns, n);
        assert Written(protocol, turns, n) == [];
      } else {
        RefusedNext(protocol, before, last);
      }
    }
  }

  lemma NothingRefused(protocol: Protocol)
    ensures WrittenFor(protocol, [], true) == [] && Refusals(protocol, FramesOf([])) == []
  {
  }

  // ---------------------------------------------------------------------------------------------
  // The consumer's side
  // ---------------------------------------------------------------------------------------------

  /** What asking for the next event finds: an event, the end of the channel, or neither yet. */
  datatype Poll = Ready(event: Option<Event>) | Waiting

  function Got(poll: Poll): seq<Event>
  {
    if poll.Ready? then Listed(poll.event) else []
  }

  /** The client half: events left over from the handshake, then the channel the worker feeds. */
  class EventQueue {
    var pendingEvents: seq<Event>
    var channel: seq<Event>
    var open: bool
    ghost var fed: seq<Event>
    ghost var seen: seq<Event>

    ghost predicate Valid()
      reads this
    {
      seen + pendingEvents + channel == fed
    }

    constructor (greeting: seq<Event>)
      ensures Valid() && fed == greeting && seen == [] && open
    {
      pendingEvents, channel, open, fed, seen := greeting, [], true, greeting, [];
    }

    /** The worker's send on the unbounded channel. */
    method Send(event: Event)
      requires Valid() && open
      modifies this`channel, this`fed
      ensures Valid() && fed == old(fed) + [event]
    {
      channel := channel + [event];
      fed := fed + [event];
    }

    /** The worker is gone, and its end of the channel with it. */
    method Close()
      requires Valid()
      modifies this`open
      ensures Valid() && !open
    {
      open := false;
    }

    /** `next_event`: the next event fed and not yet seen; when all have been, the end, or a wait for the worker. */
    method NextEvent() returns (poll: Poll)
      requires Valid()
      modifies this`pendingEvents, this`channel, this`seen
      ensures Valid() && seen == old(seen) + Got(poll) && seen <= fed
      ensures poll == Waiting <==> old(seen) == fed && open
      ensures poll == Ready(None) <==> old(seen) == fed && !open
    {
      if pendingEvents != [] {
        poll, pendingEvents := Ready(Some(pendingEvents[0])), pendingEvents[1..];
      } else if channel != [] {
        poll, channel := Ready(Some(channel[0])), channel[1..];
      } else {
        poll := if open then Waiting else Ready(None);
      }
      seen := seen + Got(poll);
    }

    /** The consumer asks so many times. */
    method Ask(times: nat) returns (events: seq<Event>)
      requires Valid()
      modifies this`pendingEvents, this`channel, this`seen
      ensures Valid() && seen == old(seen) + events
    {
      events := [];
      for i := 0 to times
        invariant Valid() && seen == old(seen) + events
      {
        var poll := NextEvent();
        events := events + Got(poll);
      }
    }

    /** The consumer asks until there is nothing more to be had. */
    method ReadAll() returns (events: seq<Event>)
      requires Valid()
      modifies this`pendingEvents, this`channel, this`seen
      ensures Valid() && seen == fed && seen == old(seen) + events
    {
      var poll := NextEvent();
      events := Got(poll);
      while poll.Ready? && poll.event.Some?
        invariant Valid() && seen == old(seen) + events
        invariant !(poll.Ready? && poll.event.Some?) ==> seen == fed
        decreases |pendingEvents| + |channel|, poll.Ready? && poll.event.Some?
      {
        poll := NextEvent();
        events := events + Got(poll);
      }
    }

    /** The worker sends events one by one while the consumer asks as often as it likes before each. */
    method Exchange(sent: seq<Event>, asks: nat -> nat) returns (events: seq<Event>)
      requires Valid() && open
      modifies this
      ensures Valid() && open && fed == old(fed) + sent && seen == old(seen) + events
    {
      events := [];
      for i := 0 to |sent|
        invariant Valid() && open && fed == old(fed) + sent[..i] && seen == old(seen) + events
      {
        var some := Ask(asks(i));
        Send(sent[i]);
        events := events + some;
      }
      assert sent[..|sent|] == sent;
    }
  }

  // ---------------------------------------------------------------------------------------------
  // A whole session
  // ---------------------------------------------------------------------------------------------

  /** Everything the server sent in a session that got past its handshake. */
  function Inbound(arrivals: seq<Arrival>, read: nat, turns: seq<Turn>): seq<Frame>
    requires read < |arrivals|
  {
    Frames(arrivals[..read]) + [arrivals[read].frame] + FramesOf(turns)
  }

  /** What a consumer is to see of a session: the events of everything inbound, and how it ended. */
  ghost function Story(endpoint: string, protocol: Protocol, inbound: seq<Frame>, turns: seq<Turn>): seq<Event>
  {
    EventsIn(protocol, inbound) + Announcement(LastCause(endpoint, protocol, turns))
  }

  lemma StoryTold(endpoint: string, protocol: Protocol, arrivals: seq<Arrival>, read: nat, turns: seq<Turn>)
    requires read < |arrivals| && Accepts(arrivals[read].frame)
    ensures EventsIn(protocol, Frames(arrivals[..read]))
            + Arrived(endpoint, protocol, turns, DueEvents(endpoint, protocol, turns))
         == Arrived(endpoint, protocol, turns, Story(endpoint, protocol, Inbound(arrivals, read, turns), turns))
  {
    WholeStream(endpoint, protocol, Frames(arrivals[..read]), arrivals[read].frame, turns);
    MissedIsDue(endpoint, protocol, turns);
  }

  /** A missed event is one that was due. */
  lemma MissedIsDue(endpoint: string, protocol: Protocol, turns: seq<Turn>)
    ensures Missed(endpoint, protocol, turns) ==> DueEvents(endpoint, protocol, turns) != []
  {
    if Missed(endpoint, protocol, turns) {
      var n := |turns| - 1;
      assert turns == turns[..n] + [turns[n]];
      FramesNext(turns[..n], turns[n]);
      if turns[n].input.Receive? {
        EventsNext(protocol, FramesOf(turns[..n]), turns[n].input.frame);
      }
    }
  }

  /**
   A session from connecting to its end: the handshake, then the worker's turns, its events read through
   `next_event` by a consumer that asks at any moments. The handshake reads to the first arrival it does not pass,
   and the worker takes turns to the first that leaves its loop, or all of them. The consumer of a session that
   gets past its handshake sees the events of that whole inbound stream, in order, each once, and then how it
   ended; a consumer that is there throughout sees all of them. Every command taken has its one reply.
   */
  method Session(endpoint: string, protocol: Protocol, request: Message, requestIo: Option<IoError>,
                 arrivals: seq<Arrival>, initializedIo: Option<IoError>, turns: seq<Turn>, asks: nat -> nat)
    returns (result: Result<seq<Event>, IoError>, hello: seq<Message>, wire: seq<Message>, replies: Log<Reply>,
             read: nat, taken: nat, exited: bool)
    ensures read <= |arrivals| && taken <= |turns|
    ensures forall i :: 0 <= i < read ==> Passes(endpoint, protocol, arrivals[i])
    ensures requestIo.None? && read < |arrivals| ==> !Passes(endpoint, protocol, arrivals[read])
    ensures result.Ok? <==> && requestIo.None? && initializedIo.None?
                            && read < |arrivals| && Accepts(arrivals[read].frame)
    ensures result.Err? ==>
              && taken == 0 && !exited && wire == [] && replies == []
              && Some(result.error)
                 == if requestIo.Some? then requestIo
                    else if read == |arrivals| then Some(IoError(TimedOut, TimedOutInitializing(endpoint)))
                    else if Accepts(arrivals[read].frame) then initializedIo
                    else Fails(endpoint, protocol, arrivals[read])
    ensures result.Ok? ==> if exited then Exited(endpoint, protocol, turns[..taken])
                           else taken == |turns| && Running(endpoint, protocol, turns)
    ensures result.Ok? ==>
              result.value == Arrived(endpoint, protocol, turns[..taken],
                                      Story(endpoint, protocol, Inbound(arrivals, read, turns[..taken]), turns[..taken]))
    ensures result.Ok? && (forall i :: 0 <= i < taken ==> turns[i].consumerOpen) ==>
              result.value == EventsIn(protocol, Frames(arrivals[..read]) + [arrivals[read].frame]
                                                 + FramesOf(turns[..taken]))
                              + Announcement(LastCause(endpoint, protocol, turns[..taken]))
    ensures result.Ok? && (forall i :: 0 <= i < taken ==> turns[i].consumerOpen) ==>
              TellsAll(protocol, Inbound(arrivals, read, turns[..taken]), LastCause(endpoint, protocol, turns[..taken]),
                       result.value)
    ensures result.Ok? ==> if exited then AllAnswered(endpoint, protocol, turns[..taken], replies)
                           else RepliesMatch(turns, replies)
    ensures result.Ok? && exited ==>
              EachDeserved(turns[..taken], LastCause(endpoint, protocol, turns[..taken]), replies)
    ensures result.Ok? ==>
              && hello == [request] + Refusals(protocol, Frames(arrivals[..read])) + [INITIALIZED]
              && wire == Wire(protocol, turns[..taken])
              && Interleaved(wire, Refusals(protocol, FramesOf(Refusing(protocol, turns[..taken]))),
                             WrittenFor(protocol, turns[..taken], false))
    ensures result.Ok? ==> exists at :: Receives(turns[..taken], at, FramesOf(turns[..taken]))
    ensures result.Ok? ==> exists at :: Says(protocol, turns[..taken], at, wire)
    ensures result.Ok? ==> exists at, refusals :: Declines(protocol, Frames(arrivals[..read]), at, refusals)
                                               && hello == [request] + refusals + [Notification("initialized", "")]
    ensures result.Ok? ==> exists at :: Declines(protocol, FramesOf(Refusing(protocol, turns[..taken])), at,
                                                 WrittenFor(protocol, turns[..taken], true))
  {
    hide Interleaved, EventsIn, Refusals, FramesOf, WrittenFor, LastCause, Arrived, Refusing, Wire, AllAnswered,
         PendingMatches, RepliesMatch, Exited, Running, Frames, Passes, Fails, Tells, Declines, Says, TellsAll,
         Receives, EachDeserved, DueEvents;
    var greeting;
    wire, replies, taken, exited := [], [], 0, false;
    greeting, hello, read := Initialize(endpoint, protocol, request, requestIo, arrivals, initializedIo);
    if greeting.Err? {
      result := Err(greeting.error);
      return;
    }
    var worker := new Worker(endpoint, protocol);
    taken, exited := worker.Run(turns);
    assert turns[..|turns|] == turns;
    wire, replies := worker.wire, worker.replies;
    EveryUnknownRefused(endpoint, protocol, turns[..taken]);
    StoryTold(endpoint, protocol, arrivals, read, turns[..taken]);
    StaysOpen(endpoint, protocol, turns, taken);
    EventsThenEnd(protocol, Inbound(arrivals, read, turns[..taken]), LastCause(endpoint, protocol, turns[..taken]));
    var seen := Consume(greeting.value, worker.delivered, exited, asks);
    result := Ok(seen);
  }

  lemma StaysOpen(endpoint: string, protocol: Protocol, turns: seq<Turn>, taken: nat)
    requires taken <= |turns|
    ensures (forall i :: 0 <= i < taken ==> turns[i].consumerOpen) ==> !Missed(endpoint, protocol, turns[..taken])
    ensures !Missed(endpoint, protocol, turns[..taken])
        ==> forall events :: Arrived(endpoint, protocol, turns[..taken], events) == events
  {
  }

  /** The consumer's half of a session: whatever it asks when, it ends up with everything it was sent. */
  method Consume(greeting: seq<Event>, sent: seq<Event>, exited: bool, asks: nat -> nat) returns (seen: seq<Event>)
    ensures seen == greeting + sent
  {
    var queue := new EventQueue(greeting);
    seen := queue.Exchange(sent, asks);
    if exited {
      queue.Close();
    }
    var rest := queue.ReadAll();
    seen := seen + rest;
  }
}
