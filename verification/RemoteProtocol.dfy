/**
 The remote app-server client's vocabulary, and what its worker owes its callers and its event
 consumer, stated over the turns the worker has taken and without reference to the worker's state.

 A turn is one arm of the worker's select: a command taken from the command channel (or the
 channel's end), or a frame received from the stream (or the stream's end). Whatever a write, a
 close or the event channel does during the turn is part of the turn, so a sequence of turns is one
 interleaving of commands and frames together with every outcome the environment chose.

 A oneshot reply channel is named by the index of the turn whose command carried it.
 */
module RemoteProtocol {
  import opened Common

  datatype RequestId = IntegerId(number: int) | StringId(text: string)

  datatype ErrorKind =
    | BrokenPipe | InvalidInput | InvalidData | ConnectionAborted | UnexpectedEof | TimedOut | Other

  /** The texts the client composes, each as its wording and what it quotes. */
  datatype Wording =
    | Quoted(text: string)
    | DuplicateRequestId(id: RequestId)
    | WorkerChannelClosed
    | WriteFailedAt(endpoint: string, cause: Wording)
    | InvalidJsonRpc(endpoint: string, parseError: string)
    | DisconnectedBecause(endpoint: string, reason: string)
    | TransportFailed(endpoint: string, transportError: string)
    | ClosedTheConnection(endpoint: string)
    | UnsupportedRequest(name: string)
    | InvalidInitializeResponse(endpoint: string, parseError: string)
    | RejectedInitialize(endpoint: string, why: Wording)
    | ClosedDuringInitialize(endpoint: string, reason: string)
    | TransportFailedDuringInitialize(endpoint: string, transportError: string)
    | EndedDuringInitialize(endpoint: string)
    | TimedOutInitializing(endpoint: string)

  datatype IoError = IoError(kind: ErrorKind, message: Wording)

  datatype RpcError = RpcError(code: int, message: Wording)

  datatype Message =
    | Request(id: RequestId, name: string, params: string)
    | Response(id: RequestId, result: string)
    | Error(id: RequestId, error: RpcError)
    | Notification(name: string, params: string)

  datatype Event =
    | ServerNotification(notification: Message)
    | ServerRequest(request: Message)
    | Disconnected(message: Wording)

  datatype Frame =
    | Text(message: Message)
    | BadText(parseError: string)
    | Close(reason: Option<string>)
    | Ignored
    | Failed(transportError: string)
    | Ended

  datatype Command =
    | SendRequest(id: RequestId, name: string, params: string)
    | Notify(name: string, params: string)
    | Resolve(id: RequestId, result: string)
    | Reject(id: RequestId, error: RpcError)
    | Shutdown

  datatype Input = CommandsClosed | Take(command: Command) | Receive(frame: Frame)

  /** `io` is the outcome of the one write or close the turn performs, if it performs one. */
  datatype Turn = Turn(input: Input, io: Option<IoError>, consumerOpen: bool)

  /** What is sent on a oneshot reply channel. */
  datatype Reply =
    | Answered(result: string)
    | Rejected(error: RpcError)
    | Done
    | Broken(cause: IoError)

  /** Which typed server messages this client knows (`ServerNotification` and `ServerRequest`). */
  datatype Protocol = Protocol(knowsNotification: Message -> bool, knowsRequest: Message -> bool)

  const METHOD_NOT_FOUND := -32601

  function Unsupported(request: Message): Message
    requires request.Request?
  {
    Error(request.id, RpcError(METHOD_NOT_FOUND, UnsupportedRequest(request.name)))
  }

  const CONNECTION_CLOSED := "connection closed"

  const WORKER_GONE := IoError(BrokenPipe, WorkerChannelClosed)

  function DuplicateId(id: RequestId): IoError
  {
    IoError(InvalidInput, DuplicateRequestId(id))
  }

  function WriteFailed(endpoint: string, err: IoError): IoError
  {
    IoError(BrokenPipe, WriteFailedAt(endpoint, err.message))
  }

  /** What the stream ending, breaking, closing or carrying bad text means for the connection. */
  function FatalFrame(endpoint: string, frame: Frame): Option<IoError>
  {
    match frame
    case BadText(err) => Some(IoError(InvalidData, InvalidJsonRpc(endpoint, err)))
    case Close(reason) =>
      var text := if reason.Some? && reason.value != [] then reason.value else CONNECTION_CLOSED;
      Some(IoError(ConnectionAborted, DisconnectedBecause(endpoint, text)))
    case Failed(err) => Some(IoError(InvalidData, TransportFailed(endpoint, err)))
    case Ended => Some(IoError(UnexpectedEof, ClosedTheConnection(endpoint)))
    case Text(_) => None
    case Ignored => None
  }

  // ---------------------------------------------------------------------------------------------
  // Requests: when an id is in flight, and what each command is owed
  // ---------------------------------------------------------------------------------------------

  predicate Requests(turn: Turn, id: RequestId)
  {
    turn.input.Take? && turn.input.command.SendRequest? && turn.input.command.id == id
  }

  predicate IsRequest(turn: Turn)
  {
    turn.input.Take? && turn.input.command.SendRequest?
  }

  /** The reply a received frame carries for requests with this id, if it is one. */
  function AnswerIn(turn: Turn, id: RequestId): Option<Reply>
  {
    if turn.input.Receive? && turn.input.frame.Text? then
      match turn.input.frame.message
      case Response(answered, result) => if answered == id then Some(Answered(result)) else None
      case Error(answered, error) => if answered == id then Some(Rejected(error)) else None
      case Request(_, _, _) => None
      case Notification(_, _) => None
    else None
  }

  /** Before turn `k` a request with this id has been taken and not answered since (see `InFlightMeans`). */
  ghost predicate InFlight(turns: seq<Turn>, k: nat, id: RequestId)
    requires k <= |turns|
  {
    0 < k && (Requests(turns[k - 1], id) || (InFlight(turns, k - 1, id) && AnswerIn(turns[k - 1], id).None?))
  }

  /** The first answer with this id among the turns after turn `k`. */
  ghost function FirstAnswer(turns: seq<Turn>, k: nat, id: RequestId): Option<Reply>
  {
    if |turns| <= k + 1 then None
    else
      var earlier := FirstAnswer(turns[..|turns| - 1], k, id);
      if earlier.Some? then earlier else AnswerIn(turns[|turns| - 1], id)
  }

  /**
   The reply the turns so far entitle command `k` to: a duplicate-id error when its id was in flight,
   its own write error, the first later response or error with its id, or nothing yet.
   */
  ghost function Resolution(turns: seq<Turn>, k: nat): Option<Reply>
    requires k < |turns| && turns[k].input.Take?
  {
    match turns[k].input.command
    case SendRequest(id, _, _) =>
      if InFlight(turns, k, id) then Some(Broken(DuplicateId(id)))
      else if turns[k].io.Some? then Some(Broken(turns[k].io.value))
      else FirstAnswer(turns, k, id)
    case Notify(_, _) => Some(Outcome(turns[k]))
    case Resolve(_, _) => Some(Outcome(turns[k]))
    case Reject(_, _) => Some(Outcome(turns[k]))
    case Shutdown => Some(Outcome(turns[k]))
  }

  function Outcome(turn: Turn): Reply
  {
    if turn.io.Some? then Broken(turn.io.value) else Done
  }

  // ---------------------------------------------------------------------------------------------
  // Leaving the loop
  // ---------------------------------------------------------------------------------------------

  /** The event a received frame stands for, when the client knows the message. */
  function EventIn(protocol: Protocol, frame: Frame): Option<Event>
  {
    if !frame.Text? then None
    else if frame.message.Notification? && protocol.knowsNotification(frame.message) then
      Some(ServerNotification(frame.message))
    else if frame.message.Request? && protocol.knowsRequest(frame.message) then
      Some(ServerRequest(frame.message))
    else None
  }

  /** The message is a server request the client does not know. */
  predicate Unknown(protocol: Protocol, frame: Frame)
  {
    frame.Text? && frame.message.Request? && !protocol.knowsRequest(frame.message)
  }

  /** The error turn `k` leaves behind for everything still pending, if turn `k` announces one. */
  ghost function Cause(endpoint: string, protocol: Protocol, turns: seq<Turn>, k: nat): Option<IoError>
    requires k < |turns|
  {
    match turns[k].input
    case CommandsClosed => None
    case Take(command) =>
      if command.SendRequest? && !InFlight(turns, k, command.id) && turns[k].io.Some?
      then Some(WriteFailed(endpoint, turns[k].io.value)) else None
    case Receive(frame) =>
      if Unknown(protocol, frame) && turns[k].io.Some?
      then Some(WriteFailed(endpoint, turns[k].io.value)) else FatalFrame(endpoint, frame)
  }

  /** Turn `k` leaves the loop. */
  ghost predicate Leaves(endpoint: string, protocol: Protocol, turns: seq<Turn>, k: nat)
    requires k < |turns|
  {
    || turns[k].input.CommandsClosed?
    || turns[k].input == Take(Shutdown)
    || Cause(endpoint, protocol, turns, k).Some?
    || (turns[k].input.Receive? && EventIn(protocol, turns[k].input.frame).Some? && !turns[k].consumerOpen)
  }

  /** The loop is still running after these turns. */
  ghost predicate Running(endpoint: string, protocol: Protocol, turns: seq<Turn>)
  {
    forall k {:trigger Leaves(endpoint, protocol, turns, k)} ::
      0 <= k < |turns| ==> !Leaves(endpoint, protocol, turns, k)
  }

  /** The last of these turns, and no earlier one, left the loop. */
  ghost predicate Exited(endpoint: string, protocol: Protocol, turns: seq<Turn>)
  {
    && 0 < |turns|
    && Leaves(endpoint, protocol, turns, |turns| - 1)
    && forall k {:trigger Leaves(endpoint, protocol, turns, k)} ::
         0 <= k < |turns| - 1 ==> !Leaves(endpoint, protocol, turns, k)
  }

  /** The one reply command `k` gets by the time the worker has exited. */
  ghost function FinalReply(endpoint: string, protocol: Protocol, turns: seq<Turn>, k: nat): Reply
    requires k < |turns| && turns[k].input.Take?
  {
    var resolution := Resolution(turns, k);
    var cause := Cause(endpoint, protocol, turns, |turns| - 1);
    if resolution.Some? then resolution.value
    else Broken(if cause.Some? then cause.value else WORKER_GONE)
  }

  // ---------------------------------------------------------------------------------------------
  // Events and writes
  // ---------------------------------------------------------------------------------------------

  /** The events a stream of frames stands for, in order. */
  function EventsIn(protocol: Protocol, frames: seq<Frame>): seq<Event>
  {
    if frames == [] then []
    else
      EventsIn(protocol, frames[..|frames| - 1]) + Listed(EventIn(protocol, frames[|frames| - 1]))
  }

  /** The frames among the turns, in order. */
  function FramesOf(turns: seq<Turn>): seq<Frame>
  {
    if turns == [] then []
    else
      var input := turns[|turns| - 1].input;
      FramesOf(turns[..|turns| - 1]) + (if input.Receive? then [input.frame] else [])
  }

  /** The message turn `k` tries to write: the command's own, or the refusal of an unknown request. */
  ghost function Outgoing(protocol: Protocol, turns: seq<Turn>, k: nat): Option<Message>
    requires k < |turns|
  {
    match turns[k].input
    case CommandsClosed => None
    case Take(SendRequest(id, name, params)) =>
      if InFlight(turns, k, id) then None else Some(Request(id, name, params))
    case Take(Notify(name, params)) => Some(Notification(name, params))
    case Take(Resolve(id, result)) => Some(Response(id, result))
    case Take(Reject(id, error)) => Some(Error(id, error))
    case Take(Shutdown) => None
    case Receive(frame) => if Unknown(protocol, frame) then Some(Unsupported(frame.message)) else None
  }

  /** What turn `k` leaves on the wire. */
  ghost function Written(protocol: Protocol, turns: seq<Turn>, k: nat): seq<Message>
    requires k < |turns|
  {
    if turns[k].io.None? then Listed(Outgoing(protocol, turns, k)) else []
  }

  /** Everything the turns put on the wire, in the order of the turns. */
  ghost function Wire(protocol: Protocol, turns: seq<Turn>): seq<Message>
  {
    if turns == [] then []
    else Wire(protocol, turns[..|turns| - 1]) + Written(protocol, turns, |turns| - 1)
  }

  // ---------------------------------------------------------------------------------------------
  // How the above grow by one turn
  // ---------------------------------------------------------------------------------------------

  lemma {:induction false} InFlightPrefix(turns: seq<Turn>, turn: Turn, k: nat, id: RequestId)
    requires k <= |turns|
    ensures InFlight(turns + [turn], k, id) == InFlight(turns, k, id)
  {
    if k > 0 {
      assert (turns + [turn])[k - 1] == turns[k - 1];
      InFlightPrefix(turns, turn, k - 1, id);
    }
  }

  /** An id is in flight after a turn exactly when the turn requests it, or it was and still is unanswered. */
  lemma InFlightNext(turns: seq<Turn>, turn: Turn, id: RequestId)
    ensures InFlight(turns + [turn], |turns| + 1, id)
       <==> Requests(turn, id) || (InFlight(turns, |turns|, id) && AnswerIn(turn, id).None?)
  {
    InFlightPrefix(turns, turn, |turns|, id);
    assert (turns + [turn])[|turns|] == turn;
  }

  /** What being in flight means: some earlier turn requested the id and no turn since has answered it. */
  lemma {:induction false} InFlightMeans(turns: seq<Turn>, k: nat, id: RequestId)
    requires k <= |turns|
    ensures InFlight(turns, k, id)
       <==> exists j :: 0 <= j < k && Requests(turns[j], id)
                     && forall m :: j < m < k ==> AnswerIn(turns[m], id).None?
  {
    if k > 0 {
      InFlightMeans(turns, k - 1, id);
      if Requests(turns[k - 1], id) {
        var j := k - 1;
        assert Requests(turns[j], id);
      }
    }
  }

  /**
   A command's entitlement never changes once it is settled; one still open is settled by the next
   turn exactly when that turn answers its id.
   */
  lemma ResolutionNext(turns: seq<Turn>, turn: Turn, k: nat)
    requires k < |turns| && turns[k].input.Take?
    ensures Resolution(turns, k).Some? ==> Resolution(turns + [turn], k) == Resolution(turns, k)
    ensures Resolution(turns, k).None?
        ==> Resolution(turns + [turn], k) == AnswerIn(turn, turns[k].input.command.id)
  {
    var more := turns + [turn];
    assert more[k] == turns[k];
    if turns[k].input.command.SendRequest? {
      var id := turns[k].input.command.id;
      InFlightPrefix(turns, turn, k, id);
      assert more[..|more| - 1] == turns;
    }
  }

  /** What the first answer means: it is the reply of some later turn that no turn in between preceded. */
  lemma {:induction false} FirstAnswerMeans(turns: seq<Turn>, k: nat, id: RequestId)
    ensures FirstAnswer(turns, k, id).None? <==> forall m :: k < m < |turns| ==> AnswerIn(turns[m], id).None?
    ensures FirstAnswer(turns, k, id).Some?
       <==> exists m :: k < m < |turns| && AnswerIn(turns[m], id).Some?
                     && AnswerIn(turns[m], id) == FirstAnswer(turns, k, id)
                     && forall l :: k < l < m ==> AnswerIn(turns[l], id).None?
  {
    if k + 1 < |turns| {
      var n := |turns| - 1;
      FirstAnswerMeans(turns[..n], k, id);
      if FirstAnswer(turns[..n], k, id).Some? {
        var m :| k < m < n && AnswerIn(turns[..n][m], id).Some?
              && AnswerIn(turns[..n][m], id) == FirstAnswer(turns[..n], k, id)
              && forall l :: k < l < m ==> AnswerIn(turns[..n][l], id).None?;
        assert turns[..n][m] == turns[m];
        assert forall l :: k < l < m ==> turns[..n][l] == turns[l];
      } else {
        assert forall l :: k < l < n ==> turns[..n][l] == turns[l];
      }
    }
  }

  lemma CausePrefix(endpoint: string, protocol: Protocol, turns: seq<Turn>, turn: Turn, k: nat)
    requires k < |turns|
    ensures Cause(endpoint, protocol, turns + [turn], k) == Cause(endpoint, protocol, turns, k)
    ensures Leaves(endpoint, protocol, turns + [turn], k) == Leaves(endpoint, protocol, turns, k)
  {
    assert (turns + [turn])[k] == turns[k];
    if IsRequest(turns[k]) {
      InFlightPrefix(turns, turn, k, turns[k].input.command.id);
    }
  }

  lemma RunningNext(endpoint: string, protocol: Protocol, turns: seq<Turn>, turn: Turn)
    requires Running(endpoint, protocol, turns)
    ensures var more := turns + [turn];
            if Leaves(endpoint, protocol, more, |turns|) then Exited(endpoint, protocol, more)
            else Running(endpoint, protocol, more)
  {
    forall k | 0 <= k < |turns|
      ensures !Leaves(endpoint, protocol, turns + [turn], k)
    {
      CausePrefix(endpoint, protocol, turns, turn, k);
    }
  }

  lemma FramesNext(turns: seq<Turn>, turn: Turn)
    ensures turn.input.Receive? ==> FramesOf(turns + [turn]) == FramesOf(turns) + [turn.input.frame]
    ensures !turn.input.Receive? ==> FramesOf(turns + [turn]) == FramesOf(turns)
  {
    assert (turns + [turn])[..|turns|] == turns;
  }

  lemma EventsNext(protocol: Protocol, frames: seq<Frame>, frame: Frame)
    ensures EventIn(protocol, frame).Some?
        ==> EventsIn(protocol, frames + [frame]) == EventsIn(protocol, frames) + [EventIn(protocol, frame).value]
    ensures EventIn(protocol, frame).None? ==> EventsIn(protocol, frames + [frame]) == EventsIn(protocol, frames)
  {
    assert (frames + [frame])[..|frames|] == frames;
  }

  /** The events of two streams laid end to end are the events of the one after those of the other. */
  lemma {:induction false} EventsConcat(protocol: Protocol, a: seq<Frame>, b: seq<Frame>)
    ensures EventsIn(protocol, a + b) == EventsIn(protocol, a) + EventsIn(protocol, b)
  {
    if b == [] {
      assert a + b == a;
    } else {
      assert (a + b)[..|a + b| - 1] == a + b[..|b| - 1];
      EventsConcat(protocol, a, b[..|b| - 1]);
    }
  }

  lemma {:induction false} NoDisconnectedAmongEvents(protocol: Protocol, frames: seq<Frame>)
    ensures forall e :: e in EventsIn(protocol, frames) ==> !e.Disconnected?
  {
    if frames != [] {
      NoDisconnectedAmongEvents(protocol, frames[..|frames| - 1]);
    }
  }
}
