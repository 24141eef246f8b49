/**
 What RemoteProtocol says the worker owes, said once more of the messages themselves: which frames become events,
 which messages stand on the wire, which reply a command gets and why a connection is given up, with nothing but
 positions in the stream and the turns.
 */
module RemoteMeaning {
  import opened Common
  import opened RemoteProtocol

  /** The frame carries a notification or a request of the server that the client knows. */
  predicate Recognised(protocol: Protocol, frame: Frame)
  {
    && frame.Text?
    && (|| (frame.message.Notification? && protocol.knowsNotification(frame.message))
        || (frame.message.Request? && protocol.knowsRequest(frame.message)))
  }

  /** The event passes on the frame's own message, under the name of its kind. */
  predicate PassesOn(frame: Frame, event: Event)
  {
    && frame.Text?
    && (frame.message.Notification? ==> event == ServerNotification(frame.message))
    && (frame.message.Request? ==> event == ServerRequest(frame.message))
  }

  /** The events pass on the recognised messages among the frames, all of them, each once, in order. */
  ghost predicate Tells(protocol: Protocol, frames: seq<Frame>, at: seq<int>, events: seq<Event>)
  {
    && Places(at, |frames|) && |at| == |events|
    && (forall i {:trigger frames[i]} :: 0 <= i < |frames| ==> (i in at <==> Recognised(protocol, frames[i])))
    && (forall j :: 0 <= j < |at| ==> PassesOn(frames[at[j]], events[j]))
  }

  lemma EventTells(protocol: Protocol, frame: Frame)
    ensures EventIn(protocol, frame).Some? <==> Recognised(protocol, frame)
    ensures EventIn(protocol, frame).Some? ==> PassesOn(frame, EventIn(protocol, frame).value)
  {
  }

  lemma TellsSkip(protocol: Protocol, frames: seq<Frame>, at: seq<int>, events: seq<Event>, frame: Frame)
    requires Tells(protocol, frames, at, events) && !Recognised(protocol, frame)
    ensures Tells(protocol, frames + [frame], at, events)
  {
    hide Recognised, PassesOn;
    var more := frames + [frame];
    forall i | 0 <= i < |more| ensures i in at <==> Recognised(protocol, more[i]) {
      if i < |frames| {
        assert more[i] == frames[i];
      }
    }
  }

  lemma TellsTake(protocol: Protocol, frames: seq<Frame>, at: seq<int>, events: seq<Event>, frame: Frame,
                  event: Event)
    requires Tells(protocol, frames, at, events) && Recognised(protocol, frame) && PassesOn(frame, event)
    ensures Tells(protocol, frames + [frame], at + [|frames|], events + [event])
  {
    hide Recognised, PassesOn;
    var more, all := frames + [frame], at + [|frames|];
    forall i | 0 <= i < |more| ensures i in all <==> Recognised(protocol, more[i]) {
      InAppended(at, |frames|, i);
      if i < |frames| {
        assert more[i] == frames[i];
      }
    }
    forall j | 0 <= j < |all| ensures PassesOn(more[all[j]], (events + [event])[j]) {
      if j < |at| {
        assert more[at[j]] == frames[at[j]];
      }
    }
  }

  lemma {:induction false} EventsTell(protocol: Protocol, frames: seq<Frame>) returns (at: seq<int>)
    ensures Tells(protocol, frames, at, EventsIn(protocol, frames))
  {
    hide EventIn, Recognised, PassesOn, Tells;
    if frames == [] {
      at := [];
      NothingTold(protocol);
    } else {
      var n := |frames| - 1;
      var before, last := frames[..n], frames[n];
      at := EventsTell(protocol, before);
      EventTells(protocol, last);
      assert frames == before + [last];
      EventsNext(protocol, before, last);
      if Recognised(protocol, last) {
        TellsTake(protocol, before, at, EventsIn(protocol, before), last, EventIn(protocol, last).value);
        at := at + [n];
      } else {
        TellsSkip(protocol, before, at, EventsIn(protocol, before), last);
      }
    }
  }

  lemma NothingTold(protocol: Protocol)
    ensures Tells(protocol, [], [], []) && EventsIn(protocol, []) == []
  {
  }

  /** The frame carries a request of the server that the client does not know. */
  predicate Unrecognised(protocol: Protocol, frame: Frame)
  {
    frame.Text? && frame.message.Request? && !protocol.knowsRequest(frame.message)
  }

  /** "Method not found" (section 5.1 of the JSON-RPC 2.0 specification), for this request. */
  predicate Refuses(frame: Frame, reply: Message)
  {
    && frame.Text? && frame.message.Request?
    && reply == Error(frame.message.id, RpcError(-32601, UnsupportedRequest(frame.message.name)))
  }

  /** The messages refuse the unrecognised requests among the frames, all of them, each once, in order. */
  ghost predicate Declines(protocol: Protocol, frames: seq<Frame>, at: seq<int>, messages: seq<Message>)
  {
    && Places(at, |frames|) && |at| == |messages|
    && (forall i {:trigger frames[i]} :: 0 <= i < |frames| ==> (i in at <==> Unrecognised(protocol, frames[i])))
    && (forall j :: 0 <= j < |at| ==> Refuses(frames[at[j]], messages[j]))
  }

  lemma DeclinesSkip(protocol: Protocol, frames: seq<Frame>, at: seq<int>, messages: seq<Message>, frame: Frame)
    requires Declines(protocol, frames, at, messages) && !Unrecognised(protocol, frame)
    ensures Declines(protocol, frames + [frame], at, messages)
  {
    hide Unrecognised, Refuses;
    var more := frames + [frame];
    forall i | 0 <= i < |more| ensures i in at <==> Unrecognised(protocol, more[i]) {
      if i < |frames| {
        assert more[i] == frames[i];
      }
    }
  }

  lemma DeclinesTake(protocol: Protocol, frames: seq<Frame>, at: seq<int>, messages: seq<Message>, frame: Frame,
                     message: Message)
    requires Declines(protocol, frames, at, messages) && Unrecognised(protocol, frame) && Refuses(frame, message)
    ensures Declines(protocol, frames + [frame], at + [|frames|], messages + [message])
  {
    hide Unrecognised, Refuses;
    var more, all := frames + [frame], at + [|frames|];
    forall i | 0 <= i < |more| ensures i in all <==> Unrecognised(protocol, more[i]) {
      InAppended(at, |frames|, i);
      if i < |frames| {
        assert more[i] == frames[i];
      }
    }
    forall j | 0 <= j < |all| ensures Refuses(more[all[j]], (messages + [message])[j]) {
      if j < |at| {
        assert more[at[j]] == frames[at[j]];
      }
    }
  }

  /** The turn receives a response or an error with this id. */
  predicate Answers(turn: Turn, id: RequestId)
  {
    && turn.input.Receive? && turn.input.frame.Text?
    && (turn.input.frame.message.Response? || turn.input.frame.message.Error?)
    && turn.input.frame.message.id == id
  }

  /** Before turn `k` some turn requested the id, and none since has answered it. */
  ghost predicate Outstanding(turns: seq<Turn>, k: nat, id: RequestId)
    requires k <= |turns|
  {
    exists j :: 0 <= j < k && Requests(turns[j], id) && forall m :: j < m < k ==> !Answers(turns[m], id)
  }

  lemma AnswersIs(turn: Turn, id: RequestId)
    ensures Answers(turn, id) <==> AnswerIn(turn, id).Some?
  {
  }

  lemma OutstandingIs(turns: seq<Turn>, k: nat, id: RequestId)
    requires k <= |turns|
    ensures Outstanding(turns, k, id) <==> InFlight(turns, k, id)
  {
    hide InFlight, Answers, AnswerIn;
    InFlightMeans(turns, k, id);
    forall m | 0 <= m < |turns| ensures Answers(turns[m], id) <==> AnswerIn(turns[m], id).Some? {
      AnswersIs(turns[m], id);
    }
  }

  /** Turn `m` is the first after turn `k` to answer the id. */
  ghost predicate FirstToAnswer(turns: seq<Turn>, k: nat, id: RequestId, m: int)
  {
    k < m < |turns| && Answers(turns[m], id) && forall l :: k < l < m ==> !Answers(turns[l], id)
  }

  /** The reply says what the answer says. */
  predicate RepliesWith(turn: Turn, reply: Reply)
  {
    && turn.input.Receive? && turn.input.frame.Text?
    && (turn.input.frame.message.Response? ==> reply == Answered(turn.input.frame.message.result))
    && (turn.input.frame.message.Error? ==> reply == Rejected(turn.input.frame.message.error))
  }

  /**
   The reply a command of an exited worker is entitled to. A request whose id was taken is a duplicate; one that
   could not be written is told so; one that was answered is told the first answer; any other is told why the
   worker left. Every other command is told the outcome of its own write or close.
   */
  ghost predicate Deserves(turns: seq<Turn>, k: nat, exitError: Option<IoError>, reply: Reply)
    requires k < |turns| && turns[k].input.Take?
  {
    var command, io := turns[k].input.command, turns[k].io;
    if !command.SendRequest? then reply == (if io.Some? then Broken(io.value) else Done)
    else if Outstanding(turns, k, command.id) then reply == Broken(IoError(InvalidInput, DuplicateRequestId(command.id)))
    else if io.Some? then reply == Broken(io.value)
    else if exists m :: FirstToAnswer(turns, k, command.id, m) then
      exists m :: FirstToAnswer(turns, k, command.id, m) && RepliesWith(turns[m], reply)
    else reply == Broken(if exitError.Some? then exitError.value else IoError(BrokenPipe, WorkerChannelClosed))
  }

  lemma FirstAnswerIs(turns: seq<Turn>, k: nat, id: RequestId)
    ensures FirstAnswer(turns, k, id).None? ==> forall m :: !FirstToAnswer(turns, k, id, m)
    ensures FirstAnswer(turns, k, id).Some?
        ==> exists m :: FirstToAnswer(turns, k, id, m) && RepliesWith(turns[m], FirstAnswer(turns, k, id).value)
  {
    hide FirstAnswer;
    FirstAnswerMeans(turns, k, id);
    if FirstAnswer(turns, k, id).Some? {
      var m :| k < m < |turns| && AnswerIn(turns[m], id).Some? && AnswerIn(turns[m], id) == FirstAnswer(turns, k, id)
            && forall l :: k < l < m ==> AnswerIn(turns[l], id).None?;
      assert FirstToAnswer(turns, k, id, m);
    }
  }

  /** The one reply the worker gives a command is the one it is entitled to. */
  lemma FinalReplyIsDeserved(endpoint: string, protocol: Protocol, turns: seq<Turn>, k: nat)
    requires k < |turns| && turns[k].input.Take?
    ensures Deserves(turns, k, Cause(endpoint, protocol, turns, |turns| - 1), FinalReply(endpoint, protocol, turns, k))
  {
    hide FirstAnswer, InFlight, Cause, FirstToAnswer, Outstanding, RepliesWith;
    if turns[k].input.command.SendRequest? {
      OutstandingIs(turns, k, turns[k].input.command.id);
      FirstAnswerIs(turns, k, turns[k].input.command.id);
    }
  }

  /** Turn `k` gets a message onto the wire. */
  ghost predicate Speaks(protocol: Protocol, turns: seq<Turn>, k: nat)
    requires k < |turns|
  {
    && turns[k].io.None?
    && match turns[k].input
       case CommandsClosed => false
       case Take(SendRequest(id, _, _)) => !Outstanding(turns, k, id)
       case Take(Shutdown) => false
       case Take(_) => true
       case Receive(frame) => Unrecognised(protocol, frame)
  }

  /** The message is the one the input calls for: the command's own, or a refusal. */
  predicate Voices(input: Input, message: Message)
  {
    match input
    case CommandsClosed => false
    case Take(SendRequest(id, name, params)) => message == Request(id, name, params)
    case Take(Notify(name, params)) => message == Notification(name, params)
    case Take(Resolve(id, result)) => message == Response(id, result)
    case Take(Reject(id, error)) => message == Error(id, error)
    case Take(Shutdown) => false
    case Receive(frame) => Refuses(frame, message)
  }

  /** The messages are those the turns get onto the wire, each once, in order. */
  ghost predicate Says(protocol: Protocol, turns: seq<Turn>, at: seq<int>, messages: seq<Message>)
  {
    && Places(at, |turns|) && |at| == |messages|
    && (forall k {:trigger Speaks(protocol, turns, k)} :: 0 <= k < |turns| ==> (k in at <==> Speaks(protocol, turns, k)))
    && (forall j :: 0 <= j < |at| ==> Voices(turns[at[j]].input, messages[j]))
  }

  lemma WrittenIs(protocol: Protocol, turns: seq<Turn>, k: nat)
    requires k < |turns|
    ensures Written(protocol, turns, k) != [] <==> Speaks(protocol, turns, k)
    ensures |Written(protocol, turns, k)| <= 1
    ensures Written(protocol, turns, k) != [] ==> Voices(turns[k].input, Written(protocol, turns, k)[0])
  {
    hide InFlight, Outstanding;
    if IsRequest(turns[k]) {
      OutstandingIs(turns, k, turns[k].input.command.id);
    }
  }

  lemma {:induction false} OutstandingPrefix(turns: seq<Turn>, n: nat, k: nat, id: RequestId)
    requires k <= n <= |turns|
    ensures Outstanding(turns[..n], k, id) <==> Outstanding(turns, k, id)
  {
    hide Answers;
    assert forall i :: 0 <= i < n ==> turns[..n][i] == turns[i];
  }

  lemma SpeaksPrefix(protocol: Protocol, turns: seq<Turn>, n: nat, k: nat)
    requires k < n <= |turns|
    ensures Speaks(protocol, turns[..n], k) <==> Speaks(protocol, turns, k)
  {
    hide Outstanding;
    if IsRequest(turns[k]) {
      OutstandingPrefix(turns, n, k, turns[k].input.command.id);
    }
  }

  lemma SaysSkip(protocol: Protocol, turns: seq<Turn>, at: seq<int>, messages: seq<Message>)
    requires turns != [] && Says(protocol, turns[..|turns| - 1], at, messages)
    requires !Speaks(protocol, turns, |turns| - 1)
    ensures Says(protocol, turns, at, messages)
  {
    hide Speaks, Voices;
    var n := |turns| - 1;
    forall k | 0 <= k < |turns| ensures k in at <==> Speaks(protocol, turns, k) {
      if k < n {
        SpeaksPrefix(protocol, turns, n, k);
      }
    }
    assert forall i :: 0 <= i < n ==> turns[..n][i] == turns[i];
  }

  lemma SaysTake(protocol: Protocol, turns: seq<Turn>, at: seq<int>, messages: seq<Message>, message: Message)
    requires turns != [] && Says(protocol, turns[..|turns| - 1], at, messages)
    requires Speaks(protocol, turns, |turns| - 1) && Voices(turns[|turns| - 1].input, message)
    ensures Says(protocol, turns, at + [|turns| - 1], messages + [message])
  {
    hide Speaks, Voices;
    var n := |turns| - 1;
    forall k | 0 <= k < |turns| ensures k in at + [n] <==> Speaks(protocol, turns, k) {
      InAppended(at, n, k);
      if k < n {
        SpeaksPrefix(protocol, turns, n, k);
      }
    }
    assert forall i :: 0 <= i < n ==> turns[..n][i] == turns[i];
  }

  lemma {:induction false} WireSays(protocol: Protocol, turns: seq<Turn>) returns (at: seq<int>)
    ensures Says(protocol, turns, at, Wire(protocol, turns))
  {
    hide Speaks, Written, Voices, Says;
    if turns == [] {
      at := [];
      NothingSaid(protocol);
    } else {
      var n := |turns| - 1;
      var before, written := Wire(protocol, turns[..n]), Written(protocol, turns, n);
      at := WireSays(protocol, turns[..n]);
      WrittenIs(protocol, turns, n);
      if written == [] {
        SaysSkip(protocol, turns, at, before);
        assert before + [] == before;
      } else {
        SaysTake(protocol, turns, at, before, written[0]);
        assert written == [written[0]];
        at := at + [n];
      }
    }
  }

  lemma NothingSaid(protocol: Protocol)
    ensures Says(protocol, [], [], [])
  {
  }

  /** The write of turn `k` is one the connection does not survive: a new request, or a refusal. */
  ghost predicate LosesWrite(protocol: Protocol, turns: seq<Turn>, k: nat)
    requires k < |turns|
  {
    && turns[k].io.Some?
    && (|| (turns[k].input.Receive? && Unrecognised(protocol, turns[k].input.frame))
        || (IsRequest(turns[k]) && !Outstanding(turns, k, turns[k].input.command.id)))
  }

  /** Why a connection is given up, case by case; nothing else gives it up. */
  lemma CauseMeans(endpoint: string, protocol: Protocol, turns: seq<Turn>, k: nat)
    requires k < |turns|
    ensures var cause, input := Cause(endpoint, protocol, turns, k), turns[k].input;
            && (cause.Some? <==> || LosesWrite(protocol, turns, k)
                                 || (input.Receive? && !input.frame.Text? && !input.frame.Ignored?))
            && (LosesWrite(protocol, turns, k) ==>
                  cause == Some(IoError(BrokenPipe, WriteFailedAt(endpoint, turns[k].io.value.message))))
            && (input.Receive? ==>
                  && (input.frame.Ended? ==> cause == Some(IoError(UnexpectedEof, ClosedTheConnection(endpoint))))
                  && (input.frame.Failed? ==>
                        cause == Some(IoError(InvalidData, TransportFailed(endpoint, input.frame.transportError))))
                  && (input.frame.BadText? ==>
                        cause == Some(IoError(InvalidData, InvalidJsonRpc(endpoint, input.frame.parseError))))
                  && (input.frame.Close? && input.frame.reason !in {None, Some("")} ==>
                        cause == Some(IoError(ConnectionAborted, DisconnectedBecause(endpoint, input.frame.reason.value))))
                  && (input.frame.Close? && input.frame.reason in {None, Some("")} ==>
                        cause == Some(IoError(ConnectionAborted, DisconnectedBecause(endpoint, "connection closed")))))
  {
    hide InFlight, Outstanding;
    if IsRequest(turns[k]) {
      OutstandingIs(turns, k, turns[k].input.command.id);
    }
  }

  /** When the loop is left: the commands end, a shutdown, the connection is given up, or nobody takes an event. */
  lemma LeavesMeans(endpoint: string, protocol: Protocol, turns: seq<Turn>, k: nat)
    requires k < |turns|
    ensures Leaves(endpoint, protocol, turns, k)
       <==> || turns[k].input == CommandsClosed || turns[k].input == Take(Shutdown) || LosesWrite(protocol, turns, k)
            || (turns[k].input.Receive? && !turns[k].input.frame.Text? && !turns[k].input.frame.Ignored?)
            || (turns[k].input.Receive? && Recognised(protocol, turns[k].input.frame) && !turns[k].consumerOpen)
  {
    hide Cause, EventIn, Recognised, LosesWrite;
    CauseMeans(endpoint, protocol, turns, k);
    if turns[k].input.Receive? {
      EventTells(protocol, turns[k].input.frame);
    }
  }

  /** The events, and then the announcement of why the connection was given up, if it was. */
  ghost predicate TellsAll(protocol: Protocol, frames: seq<Frame>, cause: Option<IoError>, events: seq<Event>)
  {
    exists at :: |at| <= |events| && Tells(protocol, frames, at, events[..|at|])
              && events[|at|..] == if cause.Some? then [Disconnected(cause.value.message)] else []
  }

  /** The frames are those the turns received, all of them, in order. */
  ghost predicate Receives(turns: seq<Turn>, at: seq<int>, frames: seq<Frame>)
  {
    && Places(at, |turns|) && |at| == |frames|
    && (forall i {:trigger turns[i]} :: 0 <= i < |turns| ==> (i in at <==> turns[i].input.Receive?))
    && (forall j :: 0 <= j < |at| ==> turns[at[j]].input == Receive(frames[j]))
  }

  lemma ReceivesNext(turns: seq<Turn>, at: seq<int>, frames: seq<Frame>, turn: Turn)
    requires Receives(turns, at, frames)
    ensures turn.input.Receive? ==> Receives(turns + [turn], at + [|turns|], frames + [turn.input.frame])
    ensures !turn.input.Receive? ==> Receives(turns + [turn], at, frames)
  {
    var more := turns + [turn];
    assert forall i :: 0 <= i < |turns| ==> more[i] == turns[i];
    forall i { InAppended(at, |turns|, i); }
  }

  lemma {:induction false} FramesMean(turns: seq<Turn>) returns (at: seq<int>)
    ensures Receives(turns, at, FramesOf(turns))
  {
    hide Receives;
    if turns == [] {
      at := [];
      NothingReceived();
    } else {
      var n := |turns| - 1;
      at := FramesMean(turns[..n]);
      assert turns == turns[..n] + [turns[n]];
      FramesNext(turns[..n], turns[n]);
      ReceivesNext(turns[..n], at, FramesOf(turns[..n]), turns[n]);
      if turns[n].input.Receive? {
        at := at + [n];
      }
    }
  }

  lemma NothingReceived()
    ensures Receives([], [], [])
  {
  }
}
