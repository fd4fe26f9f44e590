/**
  * src/main.cpp from the opening of the channel to the end of the interactive loop: each method does to the
  * transport and the channel what its specification says of the messages that arrive.
  */
module Session {
  import opened Prelude
  import opened Encoding
  import opened History
  import opened Messages
  import opened Connection
  import opened Transport
  import opened Shell
  import opened Requests
  import opened Screen
  import opened Trace
  import Framing

  /**
    * An operation that should leave the history and the channel of `total`. If it returned, it did; if it
    * threw, then because `total` says so or a write failed, and the history stopped on the way there.
    */
  predicate Performed(total: Outcome, before: seq<Event>, after: seq<Event>, channel: ChannelState, broken: bool,
                      returned: bool)
  {
    if returned then total == Outcome(channel, after, false)
    else (total.threw || broken) && before <= after <= total.events
  }

  /** That, for a transport and a channel, with all bytes accounted for. */
  twostate predicate Did(transport: Transport, channel: Channel, o: Outcome, returned: bool)
    reads transport, transport.socket, channel
  {
    && transport.ValidIf(returned)
    && Performed(After(old(transport.history), o), old(transport.history), transport.history, channel.State(),
                 transport.writeFailed, returned)
  }

  /** And what it read are the first of the messages that were to arrive. */
  twostate predicate DidReading(transport: Transport, channel: Channel, o: Outcome, returned: bool)
    reads transport, transport.socket, channel
  {
    Did(transport, channel, o, returned) && (returned ==> transport.Incoming() == Rest(old(transport.Incoming()), o))
  }

  /** A part of an operation that only sends has not touched what arrives. */
  twostate predicate OnlySent(transport: Transport)
    reads transport, transport.socket
  {
    transport.Incoming() == old(transport.Incoming()) && transport.Out().Block() == old(transport.Out().Block())
  }

  /** Two operations one after another, of which the first returned. */
  lemma PerformedThen(first: Outcome, second: Outcome, h: seq<Event>, after: seq<Event>, channel: ChannelState,
                      broken: bool, returned: bool)
    requires !first.threw
      && Performed(After(h + first.events, second), h + first.events, after, channel, broken, returned)
    ensures Performed(After(h, Then(first, second)), h, after, channel, broken, returned)
  {
    EventsRegroup(h, first.events, second.events);
  }

  /** The first of two operations threw. */
  lemma PerformedFirst(first: Outcome, second: Outcome, h: seq<Event>, after: seq<Event>, channel: ChannelState,
                       broken: bool)
    requires Performed(After(h, first), h, after, channel, broken, false)
    ensures Performed(After(h, Then(first, second)), h, after, channel, broken, false)
  {
    EventsRegroup(h, first.events, second.events);
  }

  // ---- Sending ----

  /** A message that was built, and fits a packet: only the socket can make sending it fail. */
  method SendBuilt(transport: Transport, built: Result<bytes>) returns (r: Result<()>)
    requires transport.Valid() && (built.Success? ==> 1 <= |built.value| <= 34983)
    modifies transport, transport.socket
    ensures transport.ValidIf(r.Success?) && OnlySent(transport)
    ensures if r.Success? then built.Success? && transport.history == old(transport.history) + [Sent(built.value)]
            else (built.Failure? || transport.writeFailed) && transport.history == old(transport.history)
  {
    var message :- built;
    Framing.SendableSizes(|message|);
    r := transport.Send(message);
  }

  method HandleGlobalRequest(payload: bytes, transport: Transport) returns (r: Result<()>)
    requires transport.Valid()
    modifies transport, transport.socket
    ensures transport.ValidIf(r.Success?) && OnlySent(transport)
    ensures if r.Success? then
              && IsGlobalRequest(payload)
              && transport.history
                 == old(transport.history) + if WantsReply(payload) then [Sent([REQUEST_FAILURE])] else []
            else
              && transport.history == old(transport.history)
              && (IsGlobalRequest(payload) ==> WantsReply(payload) && transport.writeFailed)
  {
    var request :- ParseGlobalRequest(payload);
    if request.wantReply {
      var failure := CreateRequestFailure();
      var _ :- SendBuilt(transport, Success(failure));
    }
    return Success(());
  }

  // ---- open_session_channel and wait_for_channel_request_result ----

  /** The events and the channel after the branch on a response: refused, it threw and changed nothing. */
  predicate Reacted(reaction: Reaction, was: ChannelState, before: seq<Event>, after: seq<Event>, channel: ChannelState,
                    broken: bool, returned: bool)
  {
    match reaction
    case Refused => !returned && after == before && channel == was
    case Done(d) => returned && after == before && channel == d
    case Again(d, reply) =>
      channel == d && if returned then after == before + Replies(reply) else broken && after == before
  }

  /** The branches of the loop of open_session_channel. */
  method HandleOpenResponse(response: bytes, transport: Transport, channel: Channel) returns (r: Result<()>)
    requires transport.Valid()
    modifies transport, transport.socket, channel
    ensures transport.ValidIf(r.Success?) && OnlySent(transport)
    ensures Reacted(React(OpenConfirmation, response, old(channel.State())), old(channel.State()),
                    old(transport.history), transport.history, channel.State(), transport.writeFailed,
                    r.Success?)
  {
    if response == [] {
      return Failure;
    }
    if response[0] == CHANNEL_OPEN_CONFIRMATION {
      var _ :- ParseOpenConfirmation(response, channel);
    } else if response[0] == CHANNEL_OPEN_FAILURE {
      var _ :- ParseOpenFailure(response, channel);
      return Failure;
    } else if response[0] == GLOBAL_REQUEST {
      var _ :- HandleGlobalRequest(response, transport);
    } else {
      return Failure;
    }
    return Success(());
  }

  /** The branches of the loop of wait_for_channel_request_result. */
  method HandleRequestResponse(response: bytes, transport: Transport, channel: Channel) returns (r: Result<bool>)
    requires transport.Valid()
    modifies transport, transport.socket, channel
    ensures transport.ValidIf(r.Success?) && OnlySent(transport)
    ensures var reaction := React(RequestResult, response, old(channel.State()));
            && Reacted(reaction, old(channel.State()), old(transport.history),
                       transport.history, channel.State(), transport.writeFailed, r.Success?)
            && (r.Success? ==> r.value == reaction.Done?)
  {
    if response == [] {
      return Failure;
    }
    var accepted := false;
    if response[0] == CHANNEL_SUCCESS {
      var _ :- ValidateChannelReply(response, CHANNEL_SUCCESS, channel);
      accepted := true;
    } else if response[0] == CHANNEL_FAILURE {
      var _ :- ValidateChannelReply(response, CHANNEL_FAILURE, channel);
      return Failure;
    } else if response[0] == GLOBAL_REQUEST {
      var _ :- HandleGlobalRequest(response, transport);
    } else if response[0] == CHANNEL_WINDOW_ADJUST {
      var _ :- ParseWindowAdjust(response, channel);
    } else {
      return Failure;
    }
    return Success(accepted);
  }

  /** A wait that is to end with `total` and leave `left` to arrive still has to do this much. */
  ghost predicate StillWaits(transport: Transport, channel: Channel, w: Awaited, total: Outcome, left: seq<bytes>)
    reads transport, transport.socket, channel
  {
    var o := Await(w, transport.Incoming(), channel.State());
    transport.Valid() && total == After(transport.history, o) && left == Rest(transport.Incoming(), o)
  }

  /** It is over. */
  ghost predicate Waited(transport: Transport, channel: Channel, total: Outcome, left: seq<bytes>)
    reads transport, transport.socket, channel
  {
    transport.Valid() && total == Outcome(channel.State(), transport.history, false) && left == transport.Incoming()
  }

  /** One turn of the loop of open_session_channel. */
  method AwaitOpenResponse(transport: Transport, channel: Channel, ghost total: Outcome, ghost left: seq<bytes>)
    returns (r: Result<()>)
    requires StillWaits(transport, channel, OpenConfirmation, total, left) && !channel.open
    modifies transport, transport.socket, channel
    ensures transport.ValidIf(r.Success?) && transport.Out().Block() == old(transport.Out().Block())
    ensures r.Success? ==>
      old(transport.history) <= transport.history && |transport.Incoming()| < |old(transport.Incoming())|
    ensures r.Success? ==>
      if channel.open then Waited(transport, channel, total, left)
      else StillWaits(transport, channel, OpenConfirmation, total, left)
    ensures r.Failure? ==>
      (total.threw || transport.writeFailed) && old(transport.history) <= transport.history <= total.events
  {
    ghost var c, arriving, h := channel.State(), transport.Incoming(), transport.history;
    var response :- transport.NextPacket();
    AwaitStep(OpenConfirmation, arriving, c, h);
    AwaitRest(OpenConfirmation, arriving, c);
    ConfirmationOpens(response, c);
    r := HandleOpenResponse(response, transport, channel);
  }

  method AwaitConfirmation(transport: Transport, channel: Channel) returns (r: Result<()>)
    requires transport.Valid() && !channel.open
    modifies transport, transport.socket, channel
    ensures var o := Await(OpenConfirmation, old(transport.Incoming()), old(channel.State()));
            DidReading(transport, channel, o, r.Success?)
    ensures transport.Out().Block() == old(transport.Out().Block())
  {
    ghost var all := Await(OpenConfirmation, transport.Incoming(), channel.State());
    ghost var total, left := After(transport.history, all), Rest(transport.Incoming(), all);
    while !channel.open
      invariant transport.Out().Block() == old(transport.Out().Block()) && old(transport.history) <= transport.history
      invariant if channel.open then Waited(transport, channel, total, left)
                else StillWaits(transport, channel, OpenConfirmation, total, left)
      decreases !channel.open, |transport.Incoming()|
    {
      var _ :- AwaitOpenResponse(transport, channel, total, left);
    }
    return Success(());
  }

  lemma ConfirmationOpens(response: bytes, c: ChannelState)
    requires !c.open
    ensures var reaction := React(OpenConfirmation, response, c);
            (reaction.Done? ==> reaction.channel.open) && (reaction.Again? ==> !reaction.channel.open)
  {
  }

  /** One turn of the loop of wait_for_channel_request_result; the result says whether the request was granted. */
  method AwaitRequestResponse(transport: Transport, channel: Channel, ghost total: Outcome, ghost left: seq<bytes>)
    returns (r: Result<bool>)
    requires StillWaits(transport, channel, RequestResult, total, left)
    modifies transport, transport.socket, channel
    ensures transport.ValidIf(r.Success?) && transport.Out().Block() == old(transport.Out().Block())
    ensures r.Success? ==>
      old(transport.history) <= transport.history && |transport.Incoming()| < |old(transport.Incoming())|
    ensures r.Success? ==>
      if r.value then Waited(transport, channel, total, left)
      else StillWaits(transport, channel, RequestResult, total, left)
    ensures r.Failure? ==>
      (total.threw || transport.writeFailed) && old(transport.history) <= transport.history <= total.events
  {
    ghost var c, arriving, h := channel.State(), transport.Incoming(), transport.history;
    var response :- transport.NextPacket();
    AwaitStep(RequestResult, arriving, c, h);
    AwaitRest(RequestResult, arriving, c);
    r := HandleRequestResponse(response, transport, channel);
  }

  method WaitForChannelRequestResult(transport: Transport, channel: Channel) returns (r: Result<()>)
    requires transport.Valid()
    modifies transport, transport.socket, channel
    ensures var o := Await(RequestResult, old(transport.Incoming()), old(channel.State()));
            DidReading(transport, channel, o, r.Success?)
    ensures transport.Out().Block() == old(transport.Out().Block())
  {
    ghost var all := Await(RequestResult, transport.Incoming(), channel.State());
    ghost var total, left := After(transport.history, all), Rest(transport.Incoming(), all);
    var requestAccepted := false;
    while !requestAccepted
      invariant transport.Out().Block() == old(transport.Out().Block()) && old(transport.history) <= transport.history
      invariant if requestAccepted then Waited(transport, channel, total, left)
                else StillWaits(transport, channel, RequestResult, total, left)
      decreases !requestAccepted, |transport.Incoming()|
    {
      requestAccepted :- AwaitRequestResponse(transport, channel, total, left);
    }
    return Success(());
  }

  /** A request and the wait for its result: request_pty and request_shell differ in what they build. */
  method SendAndWait(transport: Transport, channel: Channel, built: Result<bytes>) returns (r: Result<()>)
    requires transport.Valid()
    modifies transport, transport.socket, channel
    ensures var o := Request(built, old(transport.Out().Block()), RequestResult,
                             old(transport.Incoming()), old(channel.State()));
            DidReading(transport, channel, o, r.Success?)
    ensures transport.Out().Block() == old(transport.Out().Block())
  {
    ghost var block, arriving, c := transport.Out().Block(), transport.Incoming(), channel.State();
    RequestReadsInOrder(built, block, RequestResult, arriving, c);
    var message :- built;
    RequestStep(message, block, RequestResult, arriving, c, transport.history);
    var _ :- transport.Send(message);
    r := WaitForChannelRequestResult(transport, channel);
  }

  method OpenSessionChannel(transport: Transport, channel: Channel) returns (r: Result<()>)
    requires transport.Valid()
    modifies transport, transport.socket, channel
    ensures var built := SessionOpenMessage(old(channel.State()));
            var o := Request(built, old(transport.Out().Block()), OpenConfirmation,
                             old(transport.Incoming()), old(channel.State()));
            DidReading(transport, channel, o, r.Success?)
    ensures transport.Out().Block() == old(transport.Out().Block())
  {
    var built := CreateSessionOpen(channel);
    var message :- built;
    r := SendAndAwaitConfirmation(transport, channel, message);
  }

  method SendAndAwaitConfirmation(transport: Transport, channel: Channel, message: bytes) returns (r: Result<()>)
    requires transport.Valid() && !channel.open
    modifies transport, transport.socket, channel
    ensures var o := Request(Success(message), old(transport.Out().Block()), OpenConfirmation,
                             old(transport.Incoming()), old(channel.State()));
            DidReading(transport, channel, o, r.Success?)
    ensures transport.Out().Block() == old(transport.Out().Block())
  {
    ghost var block, arriving, c := transport.Out().Block(), transport.Incoming(), channel.State();
    RequestReadsInOrder(Success(message), block, OpenConfirmation, arriving, c);
    RequestStep(message, block, OpenConfirmation, arriving, c, transport.history);
    var _ :- transport.Send(message);
    r := AwaitConfirmation(transport, channel);
  }

  method RequestPty(transport: Transport, channel: Channel, t: Terminal) returns (r: Result<()>)
    requires transport.Valid()
    modifies transport, transport.socket, channel
    ensures var built := PtyRequestMessage(old(channel.State()), t.kind, t.columns, t.rows);
            var o := Request(built, old(transport.Out().Block()), RequestResult,
                             old(transport.Incoming()), old(channel.State()));
            DidReading(transport, channel, o, r.Success?)
    ensures transport.Out().Block() == old(transport.Out().Block())
  {
    var built := CreatePtyRequest(channel, t.kind, t.columns, t.rows);
    r := SendAndWait(transport, channel, built);
  }

  method RequestShell(transport: Transport, channel: Channel) returns (r: Result<()>)
    requires transport.Valid()
    modifies transport, transport.socket, channel
    ensures var built := ShellRequestMessage(old(channel.State()));
            var o := Request(built, old(transport.Out().Block()), RequestResult,
                             old(transport.Incoming()), old(channel.State()));
            DidReading(transport, channel, o, r.Success?)
    ensures transport.Out().Block() == old(transport.Out().Block())
  {
    var built := CreateShellRequest(channel);
    r := SendAndWait(transport, channel, built);
  }

  // ---- run_interactive_shell ----

  /** The keyboard part of a turn; the source's own minima bound what it reads. */
  method KeyboardPart(transport: Transport, channel: Channel, keyboard: Option<Result<bytes>>) returns (r: Result<()>)
    requires transport.Valid()
    modifies transport, transport.socket, channel
    ensures OnlySent(transport) && Did(transport, channel, KeyboardTurn(old(channel.State()), keyboard), r.Success?)
    ensures r.Success? ==>
      var data := if keyboard.Some? && keyboard.value.Success? then
          keyboard.value.value[..Min(|keyboard.value.value|, Min(1024, Min(old(channel.remoteWindow),
                                                                          old(channel.remoteMaxPacket))))] else [];
      && transport.history == old(transport.history)
           + (if data == [] then [] else [Sent([94] + U32(old(channel.remoteId)) + Str(data))])
      && channel.remoteWindow == old(channel.remoteWindow) - |data|
  {
    if channel.remoteWindow == 0 || keyboard.None? {
      return Success(());
    }
    var maxRead: nat := KEYBOARD_BUFFER_SIZE;
    maxRead := Min(maxRead, channel.remoteWindow);
    maxRead := Min(maxRead, channel.remoteMaxPacket);
    var typed :- keyboard.value;
    var keyboardData := typed[..Min(|typed|, maxRead)];
    if |keyboardData| > 0 {
      r := SendData(transport, channel, keyboardData);
      return r;
    }
    return Success(());
  }

  method SendData(transport: Transport, channel: Channel, data: bytes) returns (r: Result<()>)
    requires transport.Valid() && |data| <= KEYBOARD_BUFFER_SIZE
    modifies transport, transport.socket, channel
    ensures transport.ValidIf(r.Success?) && OnlySent(transport)
    ensures var c := old(channel.State()); var m := DataMessage(c, data);
            if r.Success? then m.Success? && transport.history == old(transport.history) + [Sent(m.value)]
                               && channel.State() == c.(remoteWindow := c.remoteWindow - |data|)
            else (m.Failure? || transport.writeFailed) && transport.history == old(transport.history)
  {
    var message := CreateChannelData(channel, data);
    var _ :- SendBuilt(transport, message);
    channel.remoteWindow := channel.remoteWindow - |data|;
    return Success(());
  }

  method AbsorbMessage(response: bytes, channel: Channel, screen: Screen) returns (r: Result<bool>)
    requires response != []
    modifies channel, screen
    ensures Follows(channel, r.Success?, Absorb(response, old(channel.State())))
    ensures r.Success? ==> r.value == IsPayloadData(response)
    ensures screen.State() == if r.Success? then Joined(old(screen.State()), ShownOf(response)) else old(screen.State())
  {
    JoinedNothing(screen.State());
    var messageType := response[0];
    if messageType == CHANNEL_DATA {
      var data :- ParseChannelData(response, channel);
      screen.Write(data);
      return Success(true);
    } else if messageType == CHANNEL_WINDOW_ADJUST {
      var _ :- ParseWindowAdjust(response, channel);
    } else if messageType == CHANNEL_EXTENDED_DATA {
      var data :- ParseChannelExtendedData(response, channel);
      screen.WriteError(data);
      return Success(true);
    } else if messageType == CHANNEL_EOF {
      var _ :- ParseChannelEof(response, channel);
    } else if messageType == CHANNEL_REQUEST {
      var _ :- ParseExitStatus(response, channel);
    } else {
      return Failure;
    }
    return Success(false);
  }

  /** The branch for a CLOSE. */
  method HandleClose(response: bytes, transport: Transport, channel: Channel) returns (r: Result<()>)
    requires transport.Valid()
    modifies transport, transport.socket, channel
    ensures OnlySent(transport) && Did(transport, channel, AnswerClose(response, old(channel.State())), r.Success?)
  {
    var _ :- ParseChannelClose(response, channel);
    if !channel.localCloseSent {
      var message := CreateChannelClose(channel);
      var _ :- SendBuilt(transport, message);
      channel.localCloseSent := true;
    }
    return Success(());
  }

  /** The branches on the message type; the result says whether the local window was consumed. */
  method HandleMessage(response: bytes, transport: Transport, channel: Channel, screen: Screen)
    returns (r: Result<bool>)
    requires transport.Valid() && response != []
    modifies transport, transport.socket, channel, screen
    ensures OnlySent(transport) && Did(transport, channel, Handle(response, old(channel.State())), r.Success?)
    ensures r.Success? ==> r.value == IsPayloadData(response)
    ensures screen.State() == if r.Success? then Joined(old(screen.State()), ShownOf(response)) else old(screen.State())
  {
    JoinedNothing(screen.State());
    var consumedLocalWindow := false;
    if response[0] == GLOBAL_REQUEST {
      var _ :- HandleGlobalRequest(response, transport);
    } else if response[0] == CHANNEL_CLOSE {
      var _ :- HandleClose(response, transport, channel);
    } else {
      consumedLocalWindow :- AbsorbMessage(response, channel, screen);
    }
    return Success(consumedLocalWindow);
  }

  method ReplenishWindow(transport: Transport, channel: Channel) returns (r: Result<()>)
    requires transport.Valid()
    modifies transport, transport.socket, channel
    ensures OnlySent(transport) && Did(transport, channel, Replenish(old(channel.State())), r.Success?)
  {
    if channel.open && channel.localWindow <= LOCAL_WINDOW_THRESHOLD {
      var difference := LOCAL_WINDOW_TARGET - channel.localWindow;
      r := SendGrant(transport, channel, difference);
      return r;
    }
    return Success(());
  }

  method SendGrant(transport: Transport, channel: Channel, amount: u32) returns (r: Result<()>)
    requires transport.Valid()
    modifies transport, transport.socket, channel
    ensures transport.ValidIf(r.Success?) && OnlySent(transport)
    ensures var c := old(channel.State()); var m := AdjustMessage(c, amount);
            if r.Success? then m.Success? && transport.history == old(transport.history) + [Sent(m.value)]
                               && channel.State() == c.(localWindow := c.localWindow + amount)
            else (m.Failure? || transport.writeFailed) && transport.history == old(transport.history)
  {
    var message := CreateWindowAdjust(channel, amount);
    var _ :- SendBuilt(transport, message);
    channel.localWindow := channel.localWindow + amount;
    return Success(());
  }

  /** What follows the branch on the message type. */
  method SettleMessage(response: bytes, transport: Transport, channel: Channel, consumedLocalWindow: bool)
    returns (r: Result<()>)
    requires transport.Valid() && response != [] && consumedLocalWindow == IsPayloadData(response)
    modifies transport, transport.socket, channel
    ensures OnlySent(transport) && Did(transport, channel, Settle(response, old(channel.State())), r.Success?)
  {
    if consumedLocalWindow {
      var _ :- ReplenishWindow(transport, channel);
    }
    if channel.localCloseSent && channel.remoteCloseReceived {
      channel.open := false;
    }
    return Success(());
  }

  /** What a turn does with a message that was read. */
  method HandleResponse(response: bytes, transport: Transport, channel: Channel, screen: Screen)
    returns (r: Result<()>)
    requires transport.Valid() && response != []
    modifies transport, transport.socket, channel, screen
    ensures OnlySent(transport)
      && Did(transport, channel, Conclude(response, Handle(response, old(channel.State()))), r.Success?)
    ensures Showed(old(screen.State()), ShownOf(response), screen.State(), r.Success?)
  {
    ghost var h, handled := transport.history, Handle(response, channel.State());
    ghost var settled := Settle(response, handled.channel);
    var consumedLocalWindow := HandleMessage(response, transport, channel, screen);
    if consumedLocalWindow.Failure? {
      PerformedFirst(handled, settled, h, transport.history, channel.State(), transport.writeFailed);
      return Failure;
    }
    r := SettleMessage(response, transport, channel, consumedLocalWindow.value);
    PerformedThen(handled, settled, h, transport.history, channel.State(), transport.writeFailed, r.Success?);
  }

  /** The part of a turn for a readable socket. */
  method ReadSocket(transport: Transport, channel: Channel, screen: Screen) returns (r: Result<()>)
    requires transport.Valid()
    modifies transport, transport.socket, channel, screen
    ensures Did(transport, channel, SocketTurn(old(channel.State()), Arrival(old(transport.Incoming()), 0)), r.Success?)
    ensures Showed(old(screen.State()), ShownArriving(Arrival(old(transport.Incoming()), 0)), screen.State(),
      r.Success?)
    ensures r.Success? ==> old(transport.Incoming()) != [] && transport.Incoming() == old(transport.Incoming())[1..]
  {
    ghost var c, h := channel.State(), transport.history;
    var response :- transport.NextPacket();
    if response == [] {
      return Failure;
    }
    ArrivalStep(response, c, h);
    r := HandleResponse(response, transport, channel, screen);
  }

  /** The socket part of a turn, whether it is readable or only broken. */
  method SocketEvents(transport: Transport, channel: Channel, screen: Screen, ghost input: Input, readable: bool,
                      error: bool)
    returns (r: Result<()>)
    requires transport.Valid() && input.poll.Ready? && input.poll.socketReadable == readable
      && input.poll.socketError == error
    requires input.packet == Arrival(transport.Incoming(), 0)
    modifies transport, transport.socket, channel, screen
    ensures Did(transport, channel, SocketPart(old(channel.State()), input), r.Success?)
    ensures Showed(old(screen.State()), if readable then ShownArriving(input.packet) else NOTHING, screen.State(),
                   r.Success?)
    ensures r.Success? ==> var n := if readable then 1 else 0;
      n <= |old(transport.Incoming())| && transport.Incoming() == old(transport.Incoming())[n..]
  {
    ShowedNothing(screen.State(), NOTHING);
    if readable {
      var _ :- ReadSocket(transport, channel, screen);
    }
    if channel.open && error {
      return Failure;
    }
    return Success(());
  }

  /** One turn of the loop, which should have outcome o. */
  method LoopTurn(transport: Transport, channel: Channel, screen: Screen, poll: Poll, ghost o: Outcome)
    returns (r: Result<()>)
    requires transport.Valid() && o == Turn(channel.State(), Input(poll, Arrival(transport.Incoming(), 0)))
    modifies transport, transport.socket, channel, screen
    ensures Did(transport, channel, o, r.Success?)
    ensures Showed(old(screen.State()), ShownBy(o.events), screen.State(), r.Success?)
    ensures r.Success? ==>
      |GotPayloads(o.events)| <= |old(transport.Incoming())|
        && transport.Incoming() == Rest(old(transport.Incoming()), o)
  {
    ghost var input := Input(poll, Arrival(transport.Incoming(), 0));
    TurnShows(channel.State(), input);
    ShowedNothing(screen.State(), NOTHING);
    match poll {
      case Interrupted =>
        return Success(());
      case PollFailed =>
        return Failure;
      case Ready(keyboard, socketReadable, socketError) =>
        if !KeyboardTurn(channel.State(), keyboard).threw {
          TurnReads(channel.State(), input);
        }
        r := ReadyTurn(transport, channel, screen, input, keyboard, socketReadable, socketError);
    }
  }

  /** A turn for which poll(2) reports the keyboard or the socket. */
  method ReadyTurn(transport: Transport, channel: Channel, screen: Screen, ghost input: Input,
                   keyboard: Option<Result<bytes>>, socketReadable: bool, socketError: bool) returns (r: Result<()>)
    requires transport.Valid()
      && input == Input(Ready(keyboard, socketReadable, socketError), Arrival(transport.Incoming(), 0))
    modifies transport, transport.socket, channel, screen
    ensures var typed := KeyboardTurn(old(channel.State()), keyboard);
            Did(transport, channel, Then(typed, SocketPart(typed.channel, input)), r.Success?)
    ensures Showed(old(screen.State()), ShownAt(old(channel.State()), input), screen.State(), r.Success?)
    ensures r.Success? ==> var n := if socketReadable then 1 else 0;
      n <= |old(transport.Incoming())| && transport.Incoming() == old(transport.Incoming())[n..]
  {
    ghost var h, typed := transport.history, KeyboardTurn(channel.State(), keyboard);
    ghost var part := SocketPart(typed.channel, input);
    var sent := KeyboardPart(transport, channel, keyboard);
    if sent.Failure? {
      ShowedNothing(screen.State(), ShownAt(old(channel.State()), input));
      PerformedFirst(typed, part, h, transport.history, channel.State(), transport.writeFailed);
      return Failure;
    }
    r := SocketEvents(transport, channel, screen, input, socketReadable, socketError);
    PerformedThen(typed, part, h, transport.history, channel.State(), transport.writeFailed, r.Success?);
  }

  /** Where a run from channel c and history h is after n turns, all of which returned. */
  ghost predicate AtTurn(transport: Transport, channel: Channel, arriving: seq<bytes>, h: seq<Event>, done: Outcome)
    reads transport, transport.socket, channel
  {
    && transport.Valid() && After(h, done) == Outcome(channel.State(), transport.history, false)
    && |GotPayloads(done.events)| <= |arriving| && transport.Incoming() == Rest(arriving, done)
  }

  /** One more turn of a run. */
  method NextTurn(transport: Transport, channel: Channel, screen: Screen, polls: seq<Poll>, turn: nat,
                  ghost c: ChannelState, ghost arriving: seq<bytes>, ghost h: seq<Event>, ghost done: Outcome,
                  ghost shown: Shown)
    returns (r: Result<()>, ghost after: Outcome)
    requires turn < |polls| && done == Run(c, Inputs(c, arriving, polls[..turn])) && done.channel.open
    requires AtTurn(transport, channel, arriving, h, done)
    requires screen.State() == Joined(shown, ShownBy(done.events))
    modifies transport, transport.socket, channel, screen
    ensures Showed(shown, ShownBy(after.events), screen.State(), r.Success?)
    ensures transport.ValidIf(r.Success?) && after == Run(c, Inputs(c, arriving, polls[..turn + 1]))
    ensures r.Success? ==> AtTurn(transport, channel, arriving, h, after)
    ensures r.Failure? ==> (after.threw || transport.writeFailed) && h <= transport.history <= h + after.events
  {
    ghost var next := Turn(channel.State(), Input(polls[turn], Arrival(arriving, |GotPayloads(done.events)|)));
    after := Outcome(next.channel, done.events + next.events, next.threw);
    TurnAdds(c, arriving, polls, turn, h, done, next);
    ghost var before := screen.State();
    r := LoopTurn(transport, channel, screen, polls[turn], next);
    ShowedMore(shown, done.events, before, next.events, screen.State(), r.Success?);
  }

  lemma TurnAdds(c: ChannelState, arriving: seq<bytes>, polls: seq<Poll>, n: nat, h: seq<Event>, done: Outcome,
                 next: Outcome)
    requires n < |polls| && done == Run(c, Inputs(c, arriving, polls[..n])) && !done.threw && done.channel.open
    requires next == Turn(done.channel, Input(polls[n], Arrival(arriving, |GotPayloads(done.events)|)))
    ensures var after := Outcome(next.channel, done.events + next.events, next.threw);
            && after == Run(c, Inputs(c, arriving, polls[..n + 1]))
            && After(h, after) == After(After(h, done).events, next)
            && GotPayloads(after.events) == GotPayloads(done.events) + GotPayloads(next.events)
  {
    RunOneMore(c, arriving, polls, n);
    EventsRegroup(h, done.events, next.events);
    PayloadsConcat(done.events, next.events);
  }

  /** A run is at least as long as its first turns, and throws if they do. */
  lemma RunContinues(c: ChannelState, arriving: seq<bytes>, polls: seq<Poll>, n: nat, h: seq<Event>)
    requires n <= |polls|
    ensures var first, all := Run(c, Inputs(c, arriving, polls[..n])), Run(c, Inputs(c, arriving, polls));
            && h + first.events <= h + all.events && (first.threw ==> all.threw)
            && (n == |polls| || first.threw || !first.channel.open ==> all == first)
  {
    RunGrows(c, arriving, polls, n);
    var first := Run(c, Inputs(c, arriving, polls[..n]));
    if n == |polls| {
      assert polls[..n] == polls;
    } else if first.threw || !first.channel.open {
      RunStops(c, arriving, polls, n);
    }
  }

  /** The loop itself; `done` is what should have happened in its turns, the last of which may have thrown. */
  method RunTurns(transport: Transport, channel: Channel, screen: Screen, polls: seq<Poll>,
                  ghost c: ChannelState, ghost arriving: seq<bytes>, ghost h: seq<Event>, ghost shown: Shown)
    returns (r: Result<()>, ghost turns: nat, ghost done: Outcome)
    requires AtTurn(transport, channel, arriving, h, Run(c, Inputs(c, arriving, polls[..0])))
    requires screen.State() == shown
    modifies transport, transport.socket, channel, screen
    ensures Showed(shown, ShownBy(done.events), screen.State(), r.Success?)
    ensures transport.ValidIf(r.Success?)
    ensures turns <= |polls| && done == Run(c, Inputs(c, arriving, polls[..turns]))
    ensures r.Success? ==> AtTurn(transport, channel, arriving, h, done) && (turns == |polls| || !done.channel.open)
    ensures r.Failure? ==> (done.threw || transport.writeFailed) && h <= transport.history <= h + done.events
  {
    done := Run(c, Inputs(c, arriving, polls[..0]));
    JoinedNothing(shown);
    var turn := 0;
    while channel.open && turn < |polls|
      invariant turn <= |polls| && done == Run(c, Inputs(c, arriving, polls[..turn]))
      invariant AtTurn(transport, channel, arriving, h, done)
      invariant screen.State() == Joined(shown, ShownBy(done.events))
      decreases |polls| - turn
    {
      var returned;
      returned, done := NextTurn(transport, channel, screen, polls, turn, c, arriving, h, done, shown);
      turn := turn + 1;
      if returned.Failure? {
        return Failure, turn, done;
      }
    }
    return Success(()), turn, done;
  }

  /**
    * The loop, for as many turns as poll(2) reports: it does what the run of the specification does on the
    * messages that the server delivers, however the bytes are split between reads and writes.
    */
  method RunInteractiveShell(transport: Transport, channel: Channel, screen: Screen, polls: seq<Poll>)
    returns (r: Result<()>)
    requires transport.Valid()
    modifies transport, transport.socket, channel, screen
    ensures var o := Run(old(channel.State()), Inputs(old(channel.State()), old(transport.Incoming()), polls));
            && DidReading(transport, channel, o, r.Success?)
            && Showed(old(screen.State()), ShownBy(o.events), screen.State(), r.Success?)
    ensures r.Success? ==>
      Tells(StatusOf(old(channel.State())), GotPayloads(transport.history[|old(transport.history)|..]),
            old(channel.localId), StatusOf(channel.State()))
    ensures r.Success? && LoopHead(old(channel.State())) ==>
      DataIn(SentPayloads(transport.history[|old(transport.history)|..]))
        == Typed(old(channel.State()), Inputs(old(channel.State()), old(transport.Incoming()), polls))
  {
    ghost var c, arriving, h := channel.State(), transport.Incoming(), transport.history;
    ghost var turns, done;
    r, turns, done := RunTurns(transport, channel, screen, polls, c, arriving, h, screen.State());
    RunContinues(c, arriving, polls, turns, h);
    ShowedLonger(old(screen.State()), h, done.events, Run(c, Inputs(c, arriving, polls)).events, screen.State(),
      r.Success?);
    RunSays(c, Inputs(c, arriving, polls), h, transport.history);
  }

  /** What a run tells of the status and sends as data, when it is what followed history h. */
  lemma RunSays(c: ChannelState, inputs: seq<Input>, h: seq<Event>, after: seq<Event>)
    ensures var o := Run(c, inputs); !o.threw && after == h + o.events ==>
              && Tells(StatusOf(c), GotPayloads(after[|h|..]), c.localId, StatusOf(o.channel))
              && (LoopHead(c) ==> DataIn(SentPayloads(after[|h|..])) == Typed(c, inputs))
  {
    RunStatus(c, inputs);
    if LoopHead(c) {
      TypedIsSent(c, inputs);
    }
    if after == h + Run(c, inputs).events {
      assert after[|h|..] == Run(c, inputs).events;
    }
  }

  /** The same of a whole session. */
  lemma SessionSays(t: Terminal, block: nat, arriving: seq<bytes>, polls: seq<Poll>, h: seq<Event>, after: seq<Event>)
    requires block > 0
    ensures var ready := Conversation(SessionAsks(t), block, arriving, NEW_CHANNEL, []);
            var o := Conversation(SessionAsks(t), block, arriving, NEW_CHANNEL, polls);
            !o.threw && after == h + o.events ==>
              && Tells(None, GotPayloads(after[|h|..]), INITIAL_CHANNEL_ID, StatusOf(o.channel))
              && ShownBy(after[|h|..]) == ShownBy(o.events) && !ready.threw
              && DataIn(SentPayloads(after[|h|..]))
                 == Typed(ready.channel, Inputs(ready.channel, Rest(arriving, ready), polls))
  {
    var o := Conversation(SessionAsks(t), block, arriving, NEW_CHANNEL, polls);
    if !o.threw {
      ConversationGranted(SessionAsks(t), block, arriving, NEW_CHANNEL, polls);
    }
    SessionInSequence(t);
    ConversationStatus(SessionAsks(t), block, arriving, NEW_CHANNEL, polls);
    ConversationData(SessionAsks(t), Stage.Authenticated, block, arriving, NEW_CHANNEL, polls);
    if after == h + o.events {
      assert after[|h|..] == o.events;
    }
  }

  // ---- run_connection_session ----

  /** request_shell and the loop. */
  method ShellAndLoop(transport: Transport, channel: Channel, screen: Screen, polls: seq<Poll>) returns (r: Result<()>)
    requires transport.Valid()
    modifies transport, transport.socket, channel, screen
    ensures var asks := [AskShell] + [];
            var o := Conversation(asks, old(transport.Out().Block()), old(transport.Incoming()), old(channel.State()),
                                  polls);
            && Did(transport, channel, o, r.Success?)
            && Showed(old(screen.State()), ShownBy(o.events), screen.State(), r.Success?)
  {
    ghost var block, arriving, c, h :=
      transport.Out().Block(), transport.Incoming(), channel.State(), transport.history;
    ConversationStep(AskShell, [], block, arriving, c, polls);
    ghost var o := Request(ShellRequestMessage(c), block, RequestResult, arriving, c);
    ghost var run := Conversation([], block, Rest(arriving, o), o.channel, polls);
    ShownBehindRequest(ShellRequestMessage(c), block, RequestResult, arriving, c, run);
    var granted := RequestShell(transport, channel);
    if granted.Failure? {
      ShowedNothing(screen.State(), ShownBy(Then(o, run).events));
      PerformedFirst(o, run, h, transport.history, channel.State(), transport.writeFailed);
      return Failure;
    }
    r := RunInteractiveShell(transport, channel, screen, polls);
    PerformedThen(o, run, h, transport.history, channel.State(), transport.writeFailed, r.Success?);
  }

  /** request_pty and what follows. */
  method PtyAndShell(transport: Transport, channel: Channel, screen: Screen, t: Terminal, polls: seq<Poll>)
    returns (r: Result<()>)
    requires transport.Valid()
    modifies transport, transport.socket, channel, screen
    ensures var asks := [AskPty(t)] + ([AskShell] + []);
            var o := Conversation(asks, old(transport.Out().Block()), old(transport.Incoming()), old(channel.State()),
                                  polls);
            && Did(transport, channel, o, r.Success?)
            && Showed(old(screen.State()), ShownBy(o.events), screen.State(), r.Success?)
  {
    ghost var block, arriving, c, h :=
      transport.Out().Block(), transport.Incoming(), channel.State(), transport.history;
    ConversationStep(AskPty(t), [AskShell] + [], block, arriving, c, polls);
    ghost var o := Request(PtyRequestMessage(c, t.kind, t.columns, t.rows), block, RequestResult, arriving, c);
    ghost var rest := Conversation([AskShell] + [], block, Rest(arriving, o), o.channel, polls);
    ShownBehindRequest(PtyRequestMessage(c, t.kind, t.columns, t.rows), block, RequestResult, arriving, c, rest);
    var granted := RequestPty(transport, channel, t);
    if granted.Failure? {
      ShowedNothing(screen.State(), ShownBy(Then(o, rest).events));
      PerformedFirst(o, rest, h, transport.history, channel.State(), transport.writeFailed);
      return Failure;
    }
    r := ShellAndLoop(transport, channel, screen, polls);
    PerformedThen(o, rest, h, transport.history, channel.State(), transport.writeFailed, r.Success?);
  }

  /** The three requests and the loop. */
  method OpenAndRun(transport: Transport, channel: Channel, screen: Screen, t: Terminal, polls: seq<Poll>)
    returns (r: Result<()>)
    requires transport.Valid()
    modifies transport, transport.socket, channel, screen
    ensures var o := Conversation(SessionAsks(t), old(transport.Out().Block()), old(transport.Incoming()),
                                  old(channel.State()), polls);
            && Did(transport, channel, o, r.Success?)
            && Showed(old(screen.State()), ShownBy(o.events), screen.State(), r.Success?)
  {
    ghost var block, arriving, c, h :=
      transport.Out().Block(), transport.Incoming(), channel.State(), transport.history;
    ConversationStep(AskOpen, [AskPty(t)] + ([AskShell] + []), block, arriving, c, polls);
    ghost var o := Request(SessionOpenMessage(c), block, OpenConfirmation, arriving, c);
    ghost var rest := Conversation([AskPty(t)] + ([AskShell] + []), block, Rest(arriving, o), o.channel, polls);
    ShownBehindRequest(SessionOpenMessage(c), block, OpenConfirmation, arriving, c, rest);
    var confirmed := OpenSessionChannel(transport, channel);
    if confirmed.Failure? {
      ShowedNothing(screen.State(), ShownBy(Then(o, rest).events));
      PerformedFirst(o, rest, h, transport.history, channel.State(), transport.writeFailed);
      return Failure;
    }
    r := PtyAndShell(transport, channel, screen, t, polls);
    PerformedThen(o, rest, h, transport.history, channel.State(), transport.writeFailed, r.Success?);
  }

  /**
    * The session after authentication does what its specification says of the messages that arrive; the exit
    * status reported is the one the channel ended with.
    */
  method RunConnectionSession(transport: Transport, screen: Screen, t: Terminal, polls: seq<Poll>)
    returns (r: Result<Option<u32>>, channel: Channel)
    requires transport.Valid()
    modifies transport, transport.socket, screen
    ensures fresh(channel)
    ensures var o := Conversation(SessionAsks(t), old(transport.Out().Block()), old(transport.Incoming()),
                                  NEW_CHANNEL, polls);
            && Performed(After(old(transport.history), o), old(transport.history), transport.history, channel.State(),
                         transport.writeFailed, r.Success?)
            && Showed(old(screen.State()), ShownBy(o.events), screen.State(), r.Success?)
    ensures transport.ValidIf(r.Success?) && (transport.writeFailed ==> transport.Exhausted())
    ensures r.Success? ==> r.value == if channel.exitStatusReceived then Some(channel.exitStatus) else None
    ensures r.Success? ==>
      && Tells(None, GotPayloads(transport.history[|old(transport.history)|..]), 0, r.value)
      && screen.State() == Joined(old(screen.State()), ShownBy(transport.history[|old(transport.history)|..]))
    ensures r.Success? ==>
      var ready := Conversation(SessionAsks(t), old(transport.Out().Block()), old(transport.Incoming()), NEW_CHANNEL,
                                []);
      && !ready.threw
      && DataIn(SentPayloads(transport.history[|old(transport.history)|..]))
         == Typed(ready.channel, Inputs(ready.channel, Rest(old(transport.Incoming()), ready), polls))
  {
    channel := new Channel(INITIAL_CHANNEL_ID, LOCAL_WINDOW_TARGET, LOCAL_MAX_PACKET_SIZE);
    ghost var block, arriving, h := transport.Out().Block(), transport.Incoming(), transport.history;
    var returned := OpenAndRun(transport, channel, screen, t, polls);
    transport.FailureExhausts();
    SessionSays(t, block, arriving, polls, h, transport.history);
    if returned.Failure? {
      return Failure, channel;
    }
    return Success(if channel.exitStatusReceived then Some(channel.exitStatus) else None), channel;
  }
}
