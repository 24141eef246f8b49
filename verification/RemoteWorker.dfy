/**
 The remote client's worker.

 `Handle` gives the effect of one turn of the select on the worker's variables and on what it has sent;
 the lemmas show that after any turns these are what the turns call for (see RemoteProtocol). The class is
 the worker itself: its fields are the loop's variables, and its methods are proved to do what `Handle` says.
 */
module RemoteWorker {
  import opened Common
  import opened RemoteProtocol
  import opened RemoteMeaning

  /** The loop's variables, and everything sent so far: replies, events, messages on the wire. */
  datatype State = State(
    pending: map<RequestId, int>,
    exitError: Option<IoError>,
    replies: Log<Reply>,
    attempted: seq<Event>,
    delivered: seq<Event>,
    wire: seq<Message>)

  const START := State(map[], None, [], [], [], [])

  datatype Handled = Handled(state: State, leave: bool)

  /** `deliver_event`: an event is attempted, and arrives if the consumer still holds its receiver. */
  function Deliver(s: State, event: Event, consumerOpen: bool): State
  {
    s.(attempted := s.attempted + [event],
       delivered := s.delivered + if consumerOpen then [event] else [])
  }

  /** The connection is announced lost, and the cause kept for everything still pending. */
  function Disconnect(s: State, cause: IoError, consumerOpen: bool): Handled
  {
    Handled(Deliver(s, Disconnected(cause.message), consumerOpen).(exitError := Some(cause)), true)
  }

  function Say(s: State, tx: int, reply: Reply): State
  {
    s.(replies := s.replies + [(tx, reply)])
  }

  function Write(s: State, message: Message, turn: Turn): State
  {
    if turn.io.None? then s.(wire := s.wire + [message]) else s
  }

  function HandleCommand(endpoint: string, s: State, turn: Turn, tx: nat): Handled
    requires turn.input.Take?
  {
    match turn.input.command
    case SendRequest(id, name, params) =>
      if id in s.pending then Handled(Say(s, tx, Broken(DuplicateId(id))), false)
      else if turn.io.None? then
        Handled(Write(s, Request(id, name, params), turn).(pending := s.pending[id := tx]), false)
      else Disconnect(Say(s, tx, Broken(turn.io.value)), WriteFailed(endpoint, turn.io.value), turn.consumerOpen)
    case Notify(name, params) => Handled(Say(Write(s, Notification(name, params), turn), tx, Outcome(turn)), false)
    case Resolve(id, result) => Handled(Say(Write(s, Response(id, result), turn), tx, Outcome(turn)), false)
    case Reject(id, error) => Handled(Say(Write(s, Error(id, error), turn), tx, Outcome(turn)), false)
    case Shutdown => Handled(Say(s, tx, Outcome(turn)), true)
  }

  function HandleAnswer(s: State, id: RequestId, reply: Reply): State
  {
    if id in s.pending then Say(s, s.pending[id], reply).(pending := s.pending - {id}) else s
  }

  function HandleFrame(endpoint: string, protocol: Protocol, s: State, turn: Turn): Handled
    requires turn.input.Receive?
  {
    var frame, event := turn.input.frame, EventIn(protocol, turn.input.frame);
    if event.Some? then Handled(Deliver(s, event.value, turn.consumerOpen), !turn.consumerOpen)
    else if Unknown(protocol, frame) then
      if turn.io.None? then Handled(Write(s, Unsupported(frame.message), turn), false)
      else Disconnect(s, WriteFailed(endpoint, turn.io.value), turn.consumerOpen)
    else
      match frame
      case Text(Response(id, result)) => Handled(HandleAnswer(s, id, Answered(result)), false)
      case Text(Error(id, error)) => Handled(HandleAnswer(s, id, Rejected(error)), false)
      case _ =>
        var fatal := FatalFrame(endpoint, frame);
        if fatal.Some? then Disconnect(s, fatal.value, turn.consumerOpen) else Handled(s, false)
  }

  /** One turn of the select; `tx` names the reply channel the turn's command carries, if it takes one. */
  function Handle(endpoint: string, protocol: Protocol, s: State, turn: Turn, tx: nat): Handled
  {
    match turn.input
    case CommandsClosed => Handled(s, true)
    case Take(_) => HandleCommand(endpoint, s, turn, tx)
    case Receive(_) => HandleFrame(endpoint, protocol, s, turn)
  }

  // ---------------------------------------------------------------------------------------------
  // What the worker's variables must hold, given the turns it has taken
  // ---------------------------------------------------------------------------------------------

  /** Exactly the commands with no reply due yet are pending, each under its own id. */
  ghost predicate PendingMatches(turns: seq<Turn>, pending: map<RequestId, int>)
  {
    && (forall id {:trigger pending[id]} :: id in pending ==>
          && 0 <= pending[id] < |turns|
          && Requests(turns[pending[id]], id)
          && Resolution(turns, pending[id]).None?)
    && (forall k {:trigger Resolution(turns, k)} ::
          0 <= k < |turns| && turns[k].input.Take? && Resolution(turns, k).None? ==>
          && IsRequest(turns[k])
          && turns[k].input.command.id in pending
          && pending[turns[k].input.command.id] == k)
  }

  ghost predicate PendingIsInFlight(turns: seq<Turn>, pending: map<RequestId, int>)
  {
    forall id :: id in pending <==> InFlight(turns, |turns|, id)
  }

  /** The replies due to the command of turn `k`, if that turn took one: at most one. */
  ghost function Owed(turns: seq<Turn>, k: nat): seq<Reply>
  {
    if k < |turns| && turns[k].input.Take? && Resolution(turns, k).Some?
    then [Resolution(turns, k).value] else []
  }

  ghost predicate RepliesMatch(turns: seq<Turn>, replies: Log<Reply>)
  {
    && LabelsBelow(replies, |turns|)
    && forall k {:trigger At(replies, k)} :: 0 <= k < |turns| ==> At(replies, k) == Owed(turns, k)
  }

  ghost function LastCause(endpoint: string, protocol: Protocol, turns: seq<Turn>): Option<IoError>
  {
    if turns == [] then None else Cause(endpoint, protocol, turns, |turns| - 1)
  }

  /** The events the turns call for: one per known message, then at most one closing announcement. */
  ghost function DueEvents(endpoint: string, protocol: Protocol, turns: seq<Turn>): seq<Event>
  {
    EventsIn(protocol, FramesOf(turns)) + Announcement(LastCause(endpoint, protocol, turns))
  }

  function Announcement(cause: Option<IoError>): seq<Event>
  {
    if cause.Some? then [Disconnected(cause.value.message)] else []
  }

  /** The last turn called for an event or an announcement, and nobody was there to receive it. */
  ghost predicate Missed(endpoint: string, protocol: Protocol, turns: seq<Turn>)
  {
    && turns != []
    && var last := turns[|turns| - 1];
       && !last.consumerOpen
       && (|| LastCause(endpoint, protocol, turns).Some?
           || (last.input.Receive? && EventIn(protocol, last.input.frame).Some?))
  }

  /** The events among the attempted ones that arrive: all of them, less the last if it was missed. */
  ghost function Arrived(endpoint: string, protocol: Protocol, turns: seq<Turn>, attempted: seq<Event>): seq<Event>
  {
    if Missed(endpoint, protocol, turns) && attempted != [] then attempted[..|attempted| - 1] else attempted
  }

  // ---------------------------------------------------------------------------------------------
  // One turn further: replies
  // ---------------------------------------------------------------------------------------------

  /** Replies stay right when what is added is exactly what has become due. */
  lemma RepliesGrow(turns: seq<Turn>, turn: Turn, replies: Log<Reply>, added: Log<Reply>)
    requires RepliesMatch(turns, replies)
    requires LabelsBelow(added, |turns| + 1)
    requires forall k {:trigger Owed(turns + [turn], k)} :: 0 <= k <= |turns| ==>
               Owed(turns + [turn], k) == Owed(turns, k) + At(added, k)
    ensures RepliesMatch(turns + [turn], replies + added)
  {
    forall k | 0 <= k <= |turns|
      ensures At(replies + added, k) == Owed(turns + [turn], k)
    {
      AtConcat(replies, added, k);
      if k == |turns| {
        AtFresh(replies, k);
        assert Owed(turns, k) == [];
      }
      assert At(replies, k) == Owed(turns, k);
    }
  }

  lemma OwedNext(turns: seq<Turn>, turn: Turn, k: nat)
    requires k < |turns|
    ensures !(turns[k].input.Take? && Resolution(turns, k).None?) ==> Owed(turns + [turn], k) == Owed(turns, k)
    ensures turns[k].input.Take? && Resolution(turns, k).None?
        ==> && Owed(turns, k) == []
            && Resolution(turns + [turn], k) == AnswerIn(turn, turns[k].input.command.id)
  {
    assert (turns + [turn])[k] == turns[k];
    if turns[k].input.Take? { ResolutionNext(turns, turn, k); }
  }

  /** A turn that takes no command and answers nothing leaves every reply as it was. */
  lemma NoReplies(turns: seq<Turn>, turn: Turn, pending: map<RequestId, int>, replies: Log<Reply>)
    requires PendingMatches(turns, pending) && RepliesMatch(turns, replies)
    requires !turn.input.Take? && forall id :: AnswerIn(turn, id).None?
    ensures PendingMatches(turns + [turn], pending) && RepliesMatch(turns + [turn], replies)
    ensures PendingIsInFlight(turns, pending) ==> PendingIsInFlight(turns + [turn], pending)
  {
    var more := turns + [turn];
    forall k | 0 <= k < |turns| ensures Owed(more, k) == Owed(turns, k) { OwedNext(turns, turn, k); }
    RepliesGrow(turns, turn, replies, []);
    assert replies + [] == replies;
    forall k | 0 <= k < |turns| && turns[k].input.Take?
      ensures Resolution(more, k) == Resolution(turns, k)
    {
      ResolutionNext(turns, turn, k);
    }
    forall id { InFlightNext(turns, turn, id); }
  }

  /** A command answered on the spot gets its one reply and leaves the pending requests alone. */
  lemma ReplyAtOnce(turns: seq<Turn>, turn: Turn, pending: map<RequestId, int>, replies: Log<Reply>, reply: Reply)
    requires PendingMatches(turns, pending) && RepliesMatch(turns, replies)
    requires turn.input.Take? && Resolution(turns + [turn], |turns|) == Some(reply)
    ensures PendingMatches(turns + [turn], pending)
    ensures RepliesMatch(turns + [turn], replies + [(|turns|, reply)])
    ensures PendingIsInFlight(turns, pending) && (IsRequest(turn) ==> turn.input.command.id in pending)
        ==> PendingIsInFlight(turns + [turn], pending)
  {
    var more := turns + [turn];
    var added: Log<Reply> := [(|turns|, reply)];
    forall k | 0 <= k <= |turns| ensures Owed(more, k) == Owed(turns, k) + At(added, k) {
      if k < |turns| { OwedNext(turns, turn, k); }
      AtOne(added[0], k);
    }
    RepliesGrow(turns, turn, replies, added);
    ReplyAtOncePending(turns, turn, pending, reply);
  }

  lemma ReplyAtOncePending(turns: seq<Turn>, turn: Turn, pending: map<RequestId, int>, reply: Reply)
    requires PendingMatches(turns, pending)
    requires turn.input.Take? && Resolution(turns + [turn], |turns|) == Some(reply)
    ensures PendingMatches(turns + [turn], pending)
    ensures PendingIsInFlight(turns, pending) && (IsRequest(turn) ==> turn.input.command.id in pending)
        ==> PendingIsInFlight(turns + [turn], pending)
  {
    forall k | 0 <= k < |turns| && turns[k].input.Take?
      ensures Resolution(turns + [turn], k) == Resolution(turns, k)
    {
      ResolutionNext(turns, turn, k);
    }
    forall id { InFlightNext(turns, turn, id); }
  }

  /** A request with a free id that was written becomes pending under that id. */
  lemma RequestOpens(turns: seq<Turn>, turn: Turn, pending: map<RequestId, int>, replies: Log<Reply>)
    requires PendingMatches(turns, pending) && RepliesMatch(turns, replies) && PendingIsInFlight(turns, pending)
    requires IsRequest(turn) && turn.input.command.id !in pending && turn.io.None?
    ensures var more := turns + [turn];
            && PendingMatches(more, pending[turn.input.command.id := |turns|])
            && RepliesMatch(more, replies)
            && PendingIsInFlight(more, pending[turn.input.command.id := |turns|])
  {
    var more, id := turns + [turn], turn.input.command.id;
    InFlightPrefix(turns, turn, |turns|, id);
    assert Resolution(more, |turns|).None?;
    forall k | 0 <= k < |turns| && turns[k].input.Take?
      ensures Resolution(more, k) == Resolution(turns, k)
    {
      ResolutionNext(turns, turn, k);
    }
    RepliesGrow(turns, turn, replies, []);
    assert replies + [] == replies;
    forall other { InFlightNext(turns, turn, other); }
  }

  /** An answer settles the one request pending under its id, or nothing. */
  lemma AnswerSettles(turns: seq<Turn>, turn: Turn, id: RequestId, reply: Reply,
                      pending: map<RequestId, int>, replies: Log<Reply>)
    requires PendingMatches(turns, pending) && RepliesMatch(turns, replies) && PendingIsInFlight(turns, pending)
    requires AnswerIn(turn, id) == Some(reply)
    ensures var more := turns + [turn];
            && PendingMatches(more, pending - {id})
            && RepliesMatch(more, replies + (if id in pending then [(pending[id], reply)] else []))
            && PendingIsInFlight(more, pending - {id})
  {
    var more := turns + [turn];
    var added: Log<Reply> := if id in pending then [(pending[id], reply)] else [];
    forall other | other != id ensures AnswerIn(turn, other).None? {}
    forall k | 0 <= k < |turns| ensures Owed(more, k) == Owed(turns, k) + At(added, k) {
      OwedNext(turns, turn, k);
      if added != [] {
        AtOne(added[0], k);
      }
    }
    assert Owed(more, |turns|) == [];
    if added != [] {
      AtOne(added[0], |turns|);
    }
    RepliesGrow(turns, turn, replies, added);
    AnswerSettlesPending(turns, turn, id, pending);
  }

  lemma AnswerSettlesPending(turns: seq<Turn>, turn: Turn, id: RequestId, pending: map<RequestId, int>)
    requires PendingMatches(turns, pending) && PendingIsInFlight(turns, pending)
    requires AnswerIn(turn, id).Some?
    ensures PendingMatches(turns + [turn], pending - {id})
    ensures PendingIsInFlight(turns + [turn], pending - {id})
  {
    var more := turns + [turn];
    forall k | 0 <= k < |turns| && turns[k].input.Take?
      ensures Resolution(turns, k).Some? ==> Resolution(more, k) == Resolution(turns, k)
      ensures Resolution(turns, k).None? ==> Resolution(more, k) == AnswerIn(turn, turns[k].input.command.id)
    {
      ResolutionNext(turns, turn, k);
    }
    forall other { InFlightNext(turns, turn, other); }
  }

  // ---------------------------------------------------------------------------------------------
  // One turn further: events
  // ---------------------------------------------------------------------------------------------

  /** The event or announcement one more turn calls for, if any: it never calls for both. */
  ghost function NextEvent(endpoint: string, protocol: Protocol, turns: seq<Turn>, turn: Turn): Option<Event>
  {
    var cause := Cause(endpoint, protocol, turns + [turn], |turns|);
    if cause.Some? then Some(Disconnected(cause.value.message))
    else if turn.input.Receive? then EventIn(protocol, turn.input.frame)
    else None
  }

  lemma EventsGrow(endpoint: string, protocol: Protocol, turns: seq<Turn>, turn: Turn)
    requires Running(endpoint, protocol, turns)
    ensures LastCause(endpoint, protocol, turns).None?
    ensures NextEvent(endpoint, protocol, turns, turn).None?
        ==> DueEvents(endpoint, protocol, turns + [turn]) == DueEvents(endpoint, protocol, turns)
    ensures NextEvent(endpoint, protocol, turns, turn).Some?
        ==> DueEvents(endpoint, protocol, turns)
            + [NextEvent(endpoint, protocol, turns, turn).value] == DueEvents(endpoint, protocol, turns + [turn])
  {
    hide FramesOf, EventsIn, InFlight;
    if turns != [] {
      assert !Leaves(endpoint, protocol, turns, |turns| - 1);
    }
    assert (turns + [turn])[|turns|] == turn;
    FramesNext(turns, turn);
    if turn.input.Receive? {
      EventsNext(protocol, FramesOf(turns), turn.input.frame);
    }
  }

  // ---------------------------------------------------------------------------------------------
  // Every turn keeps the worker in step with what the turns call for
  // ---------------------------------------------------------------------------------------------

  /** Replies and pending requests are what the turns call for. */
  ghost predicate LedgerServed(turns: seq<Turn>, s: State)
  {
    PendingMatches(turns, s.pending) && RepliesMatch(turns, s.replies)
  }

  /** So are the wire, the events and the exit error. */
  ghost predicate OutputServed(endpoint: string, protocol: Protocol, turns: seq<Turn>, s: State)
  {
    && s.wire == Wire(protocol, turns)
    && s.exitError == LastCause(endpoint, protocol, turns)
    && s.attempted == DueEvents(endpoint, protocol, turns)
    && s.delivered == Arrived(endpoint, protocol, turns, s.attempted)
  }

  lemma LedgerKept(endpoint: string, protocol: Protocol, turns: seq<Turn>, s: State, turn: Turn)
    requires LedgerServed(turns, s) && PendingIsInFlight(turns, s.pending)
    ensures LedgerServed(turns + [turn], Handle(endpoint, protocol, s, turn, |turns|).state)
    ensures !Leaves(endpoint, protocol, turns + [turn], |turns|)
        ==> PendingIsInFlight(turns + [turn], Handle(endpoint, protocol, s, turn, |turns|).state.pending)
  {
    hide PendingMatches, RepliesMatch;
    match turn.input
    case CommandsClosed =>
      NoReplies(turns, turn, s.pending, s.replies);
    case Take(command) =>
      if command.SendRequest? {
        RequestKept(endpoint, protocol, turns, s, turn);
      } else {
        ReplyAtOnce(turns, turn, s.pending, s.replies, Outcome(turn));
      }
    case Receive(_) =>
      FrameKept(endpoint, protocol, turns, s, turn);
  }

  lemma FrameKept(endpoint: string, protocol: Protocol, turns: seq<Turn>, s: State, turn: Turn)
    requires LedgerServed(turns, s) && PendingIsInFlight(turns, s.pending) && turn.input.Receive?
    ensures LedgerServed(turns + [turn], HandleFrame(endpoint, protocol, s, turn).state)
    ensures PendingIsInFlight(turns + [turn], HandleFrame(endpoint, protocol, s, turn).state.pending)
  {
    hide PendingMatches, RepliesMatch;
    match turn.input.frame
    case Text(Response(id, result)) =>
      AnswerKept(turns, s, turn, id, Answered(result));
    case Text(Error(id, error)) =>
      AnswerKept(turns, s, turn, id, Rejected(error));
    case _ =>
      NoReplies(turns, turn, s.pending, s.replies);
  }

  lemma RequestKept(endpoint: string, protocol: Protocol, turns: seq<Turn>, s: State, turn: Turn)
    requires LedgerServed(turns, s) && PendingIsInFlight(turns, s.pending) && IsRequest(turn)
    ensures LedgerServed(turns + [turn], HandleCommand(endpoint, s, turn, |turns|).state)
    ensures !Leaves(endpoint, protocol, turns + [turn], |turns|)
        ==> PendingIsInFlight(turns + [turn], HandleCommand(endpoint, s, turn, |turns|).state.pending)
  {
    hide PendingMatches, RepliesMatch;
    var id := turn.input.command.id;
    InFlightPrefix(turns, turn, |turns|, id);
    if id in s.pending {
      ReplyAtOnce(turns, turn, s.pending, s.replies, Broken(DuplicateId(id)));
    } else if turn.io.None? {
      RequestOpens(turns, turn, s.pending, s.replies);
    } else {
      ReplyAtOnce(turns, turn, s.pending, s.replies, Broken(turn.io.value));
    }
  }

  lemma AnswerKept(turns: seq<Turn>, s: State, turn: Turn, id: RequestId, reply: Reply)
    requires LedgerServed(turns, s) && PendingIsInFlight(turns, s.pending) && AnswerIn(turn, id) == Some(reply)
    ensures LedgerServed(turns + [turn], HandleAnswer(s, id, reply))
    ensures PendingIsInFlight(turns + [turn], HandleAnswer(s, id, reply).pending)
  {
    AnswerSettles(turns, turn, id, reply, s.pending, s.replies);
    if id !in s.pending {
      assert s.pending - {id} == s.pending;
      assert s.replies + [] == s.replies;
    }
  }

  lemma WrittenKept(endpoint: string, protocol: Protocol, turns: seq<Turn>, s: State, turn: Turn)
    requires PendingIsInFlight(turns, s.pending)
    ensures Handle(endpoint, protocol, s, turn, |turns|).state.wire
         == s.wire + Written(protocol, turns + [turn], |turns|)
  {
    assert (turns + [turn])[|turns|] == turn;
    assert s.wire + [] == s.wire;
    if IsRequest(turn) {
      InFlightPrefix(turns, turn, |turns|, turn.input.command.id);
    }
  }

  lemma WireKept(endpoint: string, protocol: Protocol, turns: seq<Turn>, s: State, turn: Turn)
    requires PendingIsInFlight(turns, s.pending) && s.wire == Wire(protocol, turns)
    ensures Handle(endpoint, protocol, s, turn, |turns|).state.wire == Wire(protocol, turns + [turn])
  {
    WrittenKept(endpoint, protocol, turns, s, turn);
    assert (turns + [turn])[..|turns|] == turns;
  }

  /** The loop is left exactly when the specification says so, and with the cause it names. */
  lemma ExitKept(endpoint: string, protocol: Protocol, turns: seq<Turn>, s: State, turn: Turn)
    requires Running(endpoint, protocol, turns) && PendingIsInFlight(turns, s.pending)
    requires s.exitError.None?
    ensures var handled := Handle(endpoint, protocol, s, turn, |turns|);
            && handled.leave == Leaves(endpoint, protocol, turns + [turn], |turns|)
            && handled.state.exitError == LastCause(endpoint, protocol, turns + [turn])
  {
    assert (turns + [turn])[|turns|] == turn;
    if IsRequest(turn) {
      InFlightPrefix(turns, turn, |turns|, turn.input.command.id);
    }
  }

  /** A turn attempts exactly the event it calls for, and it arrives if the consumer is there. */
  lemma EventsKept(endpoint: string, protocol: Protocol, turns: seq<Turn>, s: State, turn: Turn)
    requires PendingIsInFlight(turns, s.pending)
    ensures var next := NextEvent(endpoint, protocol, turns, turn);
            var after := Handle(endpoint, protocol, s, turn, |turns|).state;
            && after.attempted == (if next.Some? then s.attempted + [next.value] else s.attempted)
            && after.delivered == (if next.Some? && turn.consumerOpen then s.delivered + [next.value] else s.delivered)
  {
    assert (turns + [turn])[|turns|] == turn;
    if IsRequest(turn) {
      InFlightPrefix(turns, turn, |turns|, turn.input.command.id);
    }
    assert s.delivered + [] == s.delivered;
  }

  lemma OutputKept(endpoint: string, protocol: Protocol, turns: seq<Turn>, s: State, turn: Turn)
    requires Running(endpoint, protocol, turns) && PendingIsInFlight(turns, s.pending)
    requires OutputServed(endpoint, protocol, turns, s) && s.delivered == s.attempted
    ensures OutputServed(endpoint, protocol, turns + [turn], Handle(endpoint, protocol, s, turn, |turns|).state)
    ensures !Leaves(endpoint, protocol, turns + [turn], |turns|)
        ==> var after := Handle(endpoint, protocol, s, turn, |turns|).state; after.delivered == after.attempted
  {
    hide Handle, Missed, Wire, Cause, DueEvents;
    WireKept(endpoint, protocol, turns, s, turn);
    EventsGrow(endpoint, protocol, turns, turn);
    EventsKept(endpoint, protocol, turns, s, turn);
    ExitKept(endpoint, protocol, turns, s, turn);
    MissedNext(endpoint, protocol, turns, turn);
    var next := NextEvent(endpoint, protocol, turns, turn);
    if next.Some? {
      assert (s.attempted + [next.value])[..|s.attempted|] == s.attempted;
    }
  }

  /** A turn's event is missed exactly when it calls for one and nobody is there. */
  lemma MissedNext(endpoint: string, protocol: Protocol, turns: seq<Turn>, turn: Turn)
    ensures Missed(endpoint, protocol, turns + [turn])
       <==> NextEvent(endpoint, protocol, turns, turn).Some? && !turn.consumerOpen
    ensures NextEvent(endpoint, protocol, turns, turn).Some? && !turn.consumerOpen
        ==> Leaves(endpoint, protocol, turns + [turn], |turns|)
  {
    hide InFlight, FatalFrame;
    assert (turns + [turn])[|turns|] == turn;
  }

  // ---------------------------------------------------------------------------------------------
  // Draining
  // ---------------------------------------------------------------------------------------------

  /** Every command taken has exactly the one reply it is due; no other turn has any. */
  ghost predicate AllAnswered(endpoint: string, protocol: Protocol, turns: seq<Turn>, replies: Log<Reply>)
  {
    && LabelsBelow(replies, |turns|)
    && forall k {:trigger At(replies, k)} :: 0 <= k < |turns| ==>
         At(replies, k) == if turns[k].input.Take? then [FinalReply(endpoint, protocol, turns, k)] else []
  }

  /** Some turn's command is still waiting in the map. */
  ghost predicate Waits(turns: seq<Turn>, pending: map<RequestId, int>, k: nat)
    requires k < |turns|
  {
    IsRequest(turns[k]) && turns[k].input.command.id in pending && pending[turns[k].input.command.id] == k
  }

  ghost predicate DrainedSoFar(endpoint: string, protocol: Protocol, turns: seq<Turn>,
                               pending: map<RequestId, int>, replies: Log<Reply>)
  {
    && LabelsBelow(replies, |turns|)
    && (forall id :: id in pending ==>
          0 <= pending[id] < |turns| && Requests(turns[pending[id]], id) && Resolution(turns, pending[id]).None?)
    && (forall k {:trigger At(replies, k)} :: 0 <= k < |turns| ==>
          At(replies, k) == if turns[k].input.Take? && !Waits(turns, pending, k)
                            then [FinalReply(endpoint, protocol, turns, k)] else [])
  }

  /** What a command still waiting is told when the worker gives up. */
  ghost function Farewell(endpoint: string, protocol: Protocol, turns: seq<Turn>): Reply
  {
    var cause := LastCause(endpoint, protocol, turns);
    Broken(if cause.Some? then cause.value else WORKER_GONE)
  }

  lemma DrainBegins(endpoint: string, protocol: Protocol, turns: seq<Turn>, s: State)
    requires 0 < |turns| && LedgerServed(turns, s)
    ensures DrainedSoFar(endpoint, protocol, turns, s.pending, s.replies)
  {
    hide At, Resolution;
  }

  lemma DrainEnds(endpoint: string, protocol: Protocol, turns: seq<Turn>, replies: Log<Reply>)
    requires DrainedSoFar(endpoint, protocol, turns, map[], replies)
    ensures AllAnswered(endpoint, protocol, turns, replies)
  {
    hide At, FinalReply;
  }

  lemma DrainOne(endpoint: string, protocol: Protocol, turns: seq<Turn>,
                 pending: map<RequestId, int>, replies: Log<Reply>, id: RequestId)
    requires 0 < |turns| && DrainedSoFar(endpoint, protocol, turns, pending, replies) && id in pending
    ensures DrainedSoFar(endpoint, protocol, turns, pending - {id},
                         replies + [(pending[id], Farewell(endpoint, protocol, turns))])
  {
    hide At, FinalReply, Resolution, Farewell;
    var entry := (pending[id], Farewell(endpoint, protocol, turns));
    forall k | 0 <= k < |turns|
      ensures At(replies + [entry], k) == if turns[k].input.Take? && !Waits(turns, pending - {id}, k)
                                          then [FinalReply(endpoint, protocol, turns, k)] else []
    {
      AtAppend(replies, entry, k);
      WaitsLess(turns, pending, id, k);
      if k == pending[id] {
        WaitingGetsFarewell(endpoint, protocol, turns, k);
      }
    }
  }

  lemma WaitingGetsFarewell(endpoint: string, protocol: Protocol, turns: seq<Turn>, k: nat)
    requires k < |turns| && turns[k].input.Take? && Resolution(turns, k).None?
    ensures FinalReply(endpoint, protocol, turns, k) == Farewell(endpoint, protocol, turns)
  {
  }

  lemma WaitsLess(turns: seq<Turn>, pending: map<RequestId, int>, id: RequestId, k: nat)
    requires k < |turns| && id in pending
    requires 0 <= pending[id] < |turns| && Requests(turns[pending[id]], id)
    ensures Waits(turns, pending - {id}, k) <==> Waits(turns, pending, k) && k != pending[id]
    ensures k == pending[id] ==> Waits(turns, pending, k)
  {
  }

  /** Every command has had one reply, and it is the one the command is entitled to. */
  ghost predicate EachDeserved(turns: seq<Turn>, exitError: Option<IoError>, replies: Log<Reply>)
  {
    forall k {:trigger At(replies, k)} :: 0 <= k < |turns| && turns[k].input.Take? ==>
      |At(replies, k)| == 1 && Deserves(turns, k, exitError, At(replies, k)[0])
  }

  lemma RepliesDeserved(endpoint: string, protocol: Protocol, turns: seq<Turn>, replies: Log<Reply>)
    requires 0 < |turns| && AllAnswered(endpoint, protocol, turns, replies)
    ensures EachDeserved(turns, LastCause(endpoint, protocol, turns), replies)
  {
    hide At, FinalReply, Deserves, Cause;
    forall k | 0 <= k < |turns| && turns[k].input.Take?
      ensures |At(replies, k)| == 1 && Deserves(turns, k, LastCause(endpoint, protocol, turns), At(replies, k)[0])
    {
      FinalReplyIsDeserved(endpoint, protocol, turns, k);
    }
  }

  lemma ExitedIsSome(endpoint: string, protocol: Protocol, turns: seq<Turn>)
    requires Exited(endpoint, protocol, turns)
    ensures 0 < |turns|
  {
  }

  lemma StartServed(endpoint: string, protocol: Protocol)
    ensures LedgerServed([], START) && OutputServed(endpoint, protocol, [], START)
    ensures Running(endpoint, protocol, []) && PendingIsInFlight([], map[])
  {
  }

  lemma LedgerIs(turns: seq<Turn>, s: State)
    requires LedgerServed(turns, s)
    ensures PendingMatches(turns, s.pending) && RepliesMatch(turns, s.replies)
  {
  }

  /** Events and announcement pass on the recognised messages, and then tell of the end. */
  lemma EventsThenEnd(protocol: Protocol, frames: seq<Frame>, cause: Option<IoError>)
    ensures TellsAll(protocol, frames, cause, EventsIn(protocol, frames) + Announcement(cause))
  {
    hide EventsIn, Tells;
    var events := EventsIn(protocol, frames);
    var at := EventsTell(protocol, frames);
    TellsLength(protocol, frames, at, events);
    assert (events + Announcement(cause))[..|at|] == events;
  }

  lemma TellsLength(protocol: Protocol, frames: seq<Frame>, at: seq<int>, events: seq<Event>)
    requires Tells(protocol, frames, at, events)
    ensures |at| == |events|
  {
  }

  /** What a consumer that is gone misses: the event of the last turn, or its announcement of the end. */
  lemma MissedMeans(endpoint: string, protocol: Protocol, turns: seq<Turn>, attempted: seq<Event>)
    ensures Missed(endpoint, protocol, turns) <==>
              && turns != [] && !turns[|turns| - 1].consumerOpen
              && var n := |turns| - 1;
                 || LosesWrite(protocol, turns, n)
                 || (turns[n].input.Receive? && !turns[n].input.frame.Text? && !turns[n].input.frame.Ignored?)
                 || (turns[n].input.Receive? && Recognised(protocol, turns[n].input.frame))
    ensures Missed(endpoint, protocol, turns) && attempted != [] ==>
              Arrived(endpoint, protocol, turns, attempted) == attempted[..|attempted| - 1]
    ensures !Missed(endpoint, protocol, turns) ==> Arrived(endpoint, protocol, turns, attempted) == attempted
  {
    hide Cause, EventIn, Recognised, LosesWrite;
    if turns != [] {
      var n := |turns| - 1;
      CauseMeans(endpoint, protocol, turns, n);
      if turns[n].input.Receive? {
        EventTells(protocol, turns[n].input.frame);
      }
    }
  }

  // ---------------------------------------------------------------------------------------------
  // The worker
  // ---------------------------------------------------------------------------------------------

  class Worker {
    const endpoint: string
    const protocol: Protocol
    var pending: map<RequestId, int>
    var exitError: Option<IoError>
    var replies: Log<Reply>
    var attempted: seq<Event>
    var delivered: seq<Event>
    var wire: seq<Message>

    ghost function View(): State
      reads this
    {
      State(pending, exitError, replies, attempted, delivered, wire)
    }

    constructor (endpoint: string, protocol: Protocol)
      ensures this.endpoint == endpoint && this.protocol == protocol && View() == START
    {
      this.endpoint, this.protocol := endpoint, protocol;
      pending, exitError, replies, attempted, delivered, wire := map[], None, [], [], [], [];
    }

    method SendEvent(event: Event, consumerOpen: bool) returns (ok: bool)
      modifies this`attempted, this`delivered
      ensures View() == Deliver(old(View()), event, consumerOpen) && ok == consumerOpen
    {
      attempted := attempted + [event];
      if consumerOpen {
        delivered := delivered + [event];
      }
      ok := consumerOpen;
    }

    method GiveUp(cause: IoError, consumerOpen: bool)
      modifies this`attempted, this`delivered, this`exitError
      ensures View() == Disconnect(old(View()), cause, consumerOpen).state
    {
      var _ := SendEvent(Disconnected(cause.message), consumerOpen);
      exitError := Some(cause);
    }

    method WriteMessage(message: Message, turn: Turn)
      modifies this`wire
      ensures View() == Write(old(View()), message, turn)
    {
      if turn.io.None? {
        wire := wire + [message];
      }
    }

    method Command(turn: Turn, tx: nat) returns (leave: bool)
      requires turn.input.Take?
      modifies this
      ensures Handled(View(), leave) == HandleCommand(endpoint, old(View()), turn, tx)
    {
      leave := false;
      match turn.input.command
      case SendRequest(id, name, params) =>
        if id in pending {
          replies := replies + [(tx, Broken(DuplicateId(id)))];
          return;
        }
        pending := pending[id := tx];
        WriteMessage(Request(id, name, params), turn);
        if turn.io.Some? {
          pending := pending - {id};
          assert pending == old(pending);
          replies := replies + [(tx, Broken(turn.io.value))];
          GiveUp(WriteFailed(endpoint, turn.io.value), turn.consumerOpen);
          leave := true;
        }
      case Notify(name, params) =>
        WriteMessage(Notification(name, params), turn);
        replies := replies + [(tx, Outcome(turn))];
      case Resolve(id, result) =>
        WriteMessage(Response(id, result), turn);
        replies := replies + [(tx, Outcome(turn))];
      case Reject(id, error) =>
        WriteMessage(Error(id, error), turn);
        replies := replies + [(tx, Outcome(turn))];
      case Shutdown =>
        replies := replies + [(tx, Outcome(turn))];
        leave := true;
    }

    /** The one request pending under the id, if any, is told and forgotten; nobody else is told anything. */
    method Answer(id: RequestId, reply: Reply)
      modifies this`pending, this`replies
      ensures View() == HandleAnswer(old(View()), id, reply)
      ensures id !in pending && forall other :: other != id ==> (other in pending <==> other in old(pending))
      ensures forall other :: other in pending ==> pending[other] == old(pending)[other]
      ensures forall k: nat {:trigger At(replies, k)} ::
                At(replies, k) == At(old(replies), k) + if (id, k) in old(pending.Items) then [reply] else []
    {
      forall k: nat { AtAppend(replies, (if id in pending then pending[id] else 0, reply), k); }
      if id in pending {
        var tx := pending[id];
        pending := pending - {id};
        replies := replies + [(tx, reply)];
      }
    }

    method Frame(turn: Turn) returns (leave: bool)
      requires turn.input.Receive?
      modifies this
      ensures Handled(View(), leave) == HandleFrame(endpoint, protocol, old(View()), turn)
    {
      leave := false;
      match turn.input.frame
      case Text(Response(id, result)) =>
        Answer(id, Answered(result));
      case Text(Error(id, error)) =>
        Answer(id, Rejected(error));
      case Text(Notification(name, params)) =>
        if protocol.knowsNotification(Notification(name, params)) {
          var ok := SendEvent(ServerNotification(Notification(name, params)), turn.consumerOpen);
          leave := !ok;
        }
      case Text(Request(id, name, params)) =>
        var request := Request(id, name, params);
        if protocol.knowsRequest(request) {
          var ok := SendEvent(ServerRequest(request), turn.consumerOpen);
          leave := !ok;
        } else {
          WriteMessage(Unsupported(request), turn);
          if turn.io.Some? {
            GiveUp(WriteFailed(endpoint, turn.io.value), turn.consumerOpen);
            leave := true;
          }
        }
      case Ignored =>
      case frame =>
        GiveUp(FatalFrame(endpoint, frame).value, turn.consumerOpen);
        leave := true;
    }

    /** After the loop everything still pending is told why, in whatever order the map yields it. */
    method Drain(ghost turns: seq<Turn>)
      requires 0 < |turns| && LedgerServed(turns, View()) && exitError == LastCause(endpoint, protocol, turns)
      modifies this`pending, this`replies
      ensures pending == map[]
      ensures AllAnswered(endpoint, protocol, turns, replies)
    {
      hide LedgerServed, DrainedSoFar, AllAnswered, LastCause;
      var farewell := Broken(if exitError.Some? then exitError.value else WORKER_GONE);
      DrainBegins(endpoint, protocol, turns, View());
      while pending != map[]
        invariant DrainedSoFar(endpoint, protocol, turns, pending, replies)
        decreases |pending|
      {
        var id :| id in pending;
        DrainOne(endpoint, protocol, turns, pending, replies, id);
        replies := replies + [(pending[id], farewell)];
        pending := pending - {id};
      }
      DrainEnds(endpoint, protocol, turns, replies);
    }

    /** Where the worker stands after these turns, in the loop or out of it. */
    ghost predicate Serving(turns: seq<Turn>, leave: bool)
      reads this
    {
      && LedgerServed(turns, View())
      && OutputServed(endpoint, protocol, turns, View())
      && (leave ==> Exited(endpoint, protocol, turns))
      && (!leave ==> Running(endpoint, protocol, turns))
      && (!leave ==> PendingIsInFlight(turns, pending) && delivered == attempted)
    }

    /** One turn of the select. */
    method Step(turn: Turn, k: nat, ghost turns: seq<Turn>) returns (leave: bool)
      requires k == |turns| && Serving(turns, false)
      modifies this
      ensures Handled(View(), leave) == Handle(endpoint, protocol, old(View()), turn, k)
      ensures Serving(turns + [turn], leave)
    {
      LedgerKept(endpoint, protocol, turns, View(), turn);
      OutputKept(endpoint, protocol, turns, View(), turn);
      EventsGrow(endpoint, protocol, turns, turn);
      ExitKept(endpoint, protocol, turns, View(), turn);
      RunningNext(endpoint, protocol, turns, turn);
      match turn.input
      case CommandsClosed =>
        leave := true;
      case Take(_) =>
        leave := Command(turn, k);
      case Receive(_) =>
        leave := Frame(turn);
    }

    /** The loop: it takes turns until one of them leaves it or the environment has no more. */
    method Loop(turns: seq<Turn>) returns (taken: nat, exited: bool)
      requires Serving([], false)
      modifies this
      ensures taken <= |turns| && (!exited ==> taken == |turns|)
      ensures Serving(turns[..taken], exited)
    {
      hide *;
      taken, exited := 0, false;
      ghost var done: seq<Turn> := [];
      while taken < |turns| && !exited
        invariant taken <= |turns| && done == turns[..taken]
        invariant Serving(done, exited)
      {
        exited := Step(turns[taken], taken, done);
        done := done + [turns[taken]];
        taken := taken + 1;
      }
    }

    /**
     The whole run. When it exits it has drained, and has answered every command it took, once each.
     */
    method Run(turns: seq<Turn>) returns (taken: nat, exited: bool)
      requires View() == START
      modifies this
      ensures taken <= |turns| && (!exited ==> taken == |turns|)
      ensures OutputServed(endpoint, protocol, turns[..taken], View())
      ensures exited ==> Exited(endpoint, protocol, turns[..taken])
      ensures exited ==> pending == map[] && AllAnswered(endpoint, protocol, turns[..taken], replies)
      ensures exited ==> EachDeserved(turns[..taken], exitError, replies)
      ensures !exited ==> Running(endpoint, protocol, turns[..taken])
      ensures !exited ==> PendingMatches(turns[..taken], pending) && RepliesMatch(turns[..taken], replies)
      ensures exists at :: Receives(turns[..taken], at, FramesOf(turns[..taken]))
      ensures exists at :: Says(protocol, turns[..taken], at, wire)
      ensures TellsAll(protocol, FramesOf(turns[..taken]), exitError, attempted)
    {
      hide LedgerServed, AllAnswered, Exited, Running, PendingMatches, RepliesMatch, Says, TellsAll, Receives,
           EachDeserved, PendingIsInFlight, Arrived, LastCause, Wire, FramesOf, EventsIn;
      StartServed(endpoint, protocol);
      taken, exited := Loop(turns);
      ghost var done := turns[..taken];
      if exited {
        ExitedIsSome(endpoint, protocol, done);
        Drain(done);
        RepliesDeserved(endpoint, protocol, done, replies);
      } else {
        LedgerIs(done, View());
      }
      ghost var received := FramesMean(done);
      ghost var at := WireSays(protocol, done);
      EventsThenEnd(protocol, FramesOf(done), LastCause(endpoint, protocol, done));
    }
  }
}
