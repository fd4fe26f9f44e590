/**
  * The client's loop against a conforming server, with messages in flight both ways. The server keeps a
  * channel record of its own and reads our messages by the same rules of section 5.2 of RFC 4254.
  */
module FlowControl {
  import opened Prelude
  import opened History
  import opened Messages
  import opened Screen
  import opened Shell

  /** `read` is what the server has read; `failed` records that either end rejected a message. */
  datatype Duplex = Duplex(
    client: ChannelState, server: ChannelState, toClient: seq<bytes>, toServer: seq<bytes>, read: seq<bytes>,
    eofSent: bool, exitStatusSent: bool, failed: bool)

  datatype Action = ClientTurn(poll: Poll) | ServerSends(p: bytes) | ServerReceives

  function IsEofMessage(p: bytes): nat {
    if p != [] && p[0] == CHANNEL_EOF then 1 else 0
  }

  function IsRequestMessage(p: bytes): nat {
    if p != [] && p[0] == CHANNEL_REQUEST then 1 else 0
  }

  /** A message of a kind the server may send, within the packet size the client announced. */
  predicate FromServer(p: bytes, id: u32) {
    && (IsData(p, id) || IsExtendedData(p, id) || (IsAdjust(p, id) && Granted(p) > 0) || IsBare(p, CHANNEL_EOF, id)
        || IsExitStatus(p, id) || IsBare(p, CHANNEL_CLOSE, id) || IsGlobalRequest(p))
    && Carried(p) <= LOCAL_MAX_PACKET_SIZE
  }

  /** A conforming server stays within its window for us, never overflows ours for it, and does not repeat itself. */
  predicate ServerMay(d: Duplex, p: bytes) {
    && FromServer(p, d.server.remoteId) && !d.server.localCloseSent
    && Carried(p) <= d.server.remoteWindow
    && d.server.localWindow + Granted(p) < TWO_32
    && (IsEofMessage(p) == 1 ==> !d.eofSent)
    && (IsRequestMessage(p) == 1 ==> !d.exitStatusSent)
  }

  /**
    * The environment of the client behaves: polls and reads succeed, and the socket is readable if a message is in
    * flight.
    */
  predicate Enabled(d: Duplex, a: Action) {
    match a
    case ClientTurn(poll) =>
      d.client.open && !poll.PollFailed?
      && (poll.Ready? ==> !poll.socketError && (poll.keyboard.Some? ==> poll.keyboard.value.Success?)
                          && (poll.socketReadable ==> d.toClient != []))
    case ServerSends(p) => ServerMay(d, p)
    case ServerReceives => d.toServer != []
  }

  /** The server's reading of one of our messages. */
  function ServerReads(p: bytes, s: ChannelState): Result<ChannelState> {
    if p == [REQUEST_FAILURE] then Success(s)
    else if p == [] then Failure
    else if p[0] == CHANNEL_DATA then OnData(p, s)
    else if p[0] == CHANNEL_WINDOW_ADJUST then OnAdjust(p, s)
    else OnClose(p, s)
  }

  function ServerSent(p: bytes, s: ChannelState): ChannelState
    requires Carried(p) <= s.remoteWindow && s.localWindow + Granted(p) < TWO_32
  {
    s.(remoteWindow := s.remoteWindow - Carried(p), localWindow := s.localWindow + Granted(p),
       localCloseSent := s.localCloseSent || IsCloseMessage(p) == 1)
  }

  /** The client did something; `taken` is how many messages it took from the queue. */
  function After(d: Duplex, o: Outcome, taken: nat): Duplex
    requires taken <= |d.toClient|
  {
    d.(client := o.channel, toServer := d.toServer + SentPayloads(o.events), toClient := d.toClient[taken..],
       failed := d.failed || o.threw)
  }

  function Step(d: Duplex, a: Action): Duplex
    requires Enabled(d, a)
  {
    match a
    case ClientTurn(poll) =>
      var readable := poll.Ready? && poll.socketReadable;
      After(d, Turn(d.client, Input(poll, if readable then Success(d.toClient[0]) else Failure)),
            if readable then 1 else 0)
    case ServerSends(p) =>
      d.(server := ServerSent(p, d.server), toClient := d.toClient + [p],
         eofSent := d.eofSent || IsEofMessage(p) == 1, exitStatusSent := d.exitStatusSent || IsRequestMessage(p) == 1)
    case ServerReceives =>
      var r := ServerReads(d.toServer[0], d.server);
      d.(server := if r.Success? then r.value else d.server, toServer := d.toServer[1..],
         read := d.read + [d.toServer[0]], failed := d.failed || r.Failure?)
  }

  /** Just after the channel was opened and the shell started: both ends agree and nothing is in flight. */
  predicate Initial(d: Duplex) {
    && LoopHead(d.client) && d.server.open && !d.server.localCloseSent && !d.server.remoteCloseReceived
    && WindowsAgree(d.client, d.server) && WindowsAgree(d.server, d.client)
    && !d.client.remoteEofReceived && !d.client.exitStatusReceived
    && d.toClient == [] && d.toServer == [] && d.read == [] && !d.eofSent && !d.exitStatusSent && !d.failed
  }

  ghost predicate Run(actions: seq<Action>, states: seq<Duplex>) {
    && |states| == |actions| + 1 && Initial(states[0])
    && forall i :: 0 <= i < |actions| ==> Enabled(states[i], actions[i]) && states[i + 1] == Step(states[i], actions[i])
  }

  // ---- The invariant ----

  /** A window is the other end's credit, plus the data in flight against it, plus the grants in flight to it. */
  predicate Conserved(d: Duplex) {
    && d.client.localWindow == d.server.remoteWindow + Total(d.toClient, Carried) + Total(d.toServer, Granted)
    && d.server.localWindow == d.client.remoteWindow + Total(d.toServer, Carried) + Total(d.toClient, Granted)
  }

  predicate Paired(d: Duplex) {
    && d.client.remoteId == d.server.localId && d.server.remoteId == d.client.localId
    && d.client.remoteMaxPacket == d.server.localMaxPacket && d.client.localMaxPacket == LOCAL_MAX_PACKET_SIZE
    && d.client.remoteMaxPacket >= MIN_MAX_PACKET_SIZE
  }

  function Bit(b: bool): nat {
    if b then 1 else 0
  }

  /** EOF, exit status and our CLOSE happen at most once: in flight or already received. */
  predicate OnceOnly(d: Duplex) {
    && (d.client.open ==> Total(d.toClient, IsEofMessage) + Bit(d.client.remoteEofReceived) == Bit(d.eofSent))
    && (d.client.open ==>
      Total(d.toClient, IsRequestMessage) + Bit(d.client.exitStatusReceived) == Bit(d.exitStatusSent))
    && Total(d.toServer, IsCloseMessage) + Bit(d.server.remoteCloseReceived) == Bit(!d.client.open)
  }

  ghost predicate InFlightOk(d: Duplex) {
    && (forall i :: 0 <= i < |d.toClient| ==> FromServer(d.toClient[i], d.client.localId))
    && (forall i :: 0 <= i < |d.toServer| ==> SentOk(d.toServer[i], d.server.localId))
  }

  ghost predicate Invariant(d: Duplex) {
    && !d.failed && d.server.open && Paired(d) && (d.client.open ==> LoopHead(d.client))
    && Conserved(d) && OnceOnly(d) && InFlightOk(d)
  }

  // ---- The client's half turns ----

  /** What a half turn of the client does to the messages it took and sent and to the once-only flags. */
  predicate ClientMoved(c: ChannelState, o: Outcome, taken: seq<bytes>) {
    && !o.threw && GotPayloads(o.events) == taken
    && (o.channel.open ==>
          && Bit(o.channel.remoteEofReceived) == Bit(c.remoteEofReceived) + Total(taken, IsEofMessage)
          && Bit(o.channel.exitStatusReceived) == Bit(c.exitStatusReceived) + Total(taken, IsRequestMessage))
  }

  lemma ClientMoveKeepsInvariant(d: Duplex, o: Outcome, taken: nat)
    requires Invariant(d) && d.client.open && taken <= |d.toClient|
    requires Good(d.client, o) && ClientMoved(d.client, o, d.toClient[..taken])
    ensures Invariant(After(d, o, taken))
  {
    ClientMoveKeepsBooks(d, o, taken);
    ClientMoveKeepsMessages(d, o, taken);
  }

  /** What a measure counts in the two queues before and after. */
  lemma QueuesMove(d: Duplex, o: Outcome, taken: nat, measure: bytes -> nat)
    requires taken <= |d.toClient|
    ensures Total(d.toClient, measure)
      == Total(d.toClient[..taken], measure) + Total(After(d, o, taken).toClient, measure)
    ensures Total(After(d, o, taken).toServer, measure)
      == Total(d.toServer, measure) + Total(SentPayloads(o.events), measure)
  {
    assert d.toClient == d.toClient[..taken] + d.toClient[taken..];
    TotalConcat(d.toClient[..taken], d.toClient[taken..], measure);
    TotalConcat(d.toServer, SentPayloads(o.events), measure);
  }

  lemma ClientMoveKeepsBooks(d: Duplex, o: Outcome, taken: nat)
    requires Conserved(d) && OnceOnly(d) && d.client.open && taken <= |d.toClient|
    requires Balanced(d.client, o) && CloseHandshake(o) && ClientMoved(d.client, o, d.toClient[..taken])
    ensures Conserved(After(d, o, taken)) && OnceOnly(After(d, o, taken))
  {
    QueuesMove(d, o, taken, Carried);
    QueuesMove(d, o, taken, Granted);
    QueuesMove(d, o, taken, IsEofMessage);
    QueuesMove(d, o, taken, IsRequestMessage);
    QueuesMove(d, o, taken, IsCloseMessage);
  }

  lemma ClientMoveKeepsMessages(d: Duplex, o: Outcome, taken: nat)
    requires Invariant(d) && taken <= |d.toClient| && AllSentOk(d.client.remoteId, o.events)
      && (!o.threw ==> SameConstants(d.client, o.channel))
    ensures !o.threw ==> InFlightOk(After(d, o, taken))
  {
    SentPayloadsAreOk(d.client.remoteId, o.events);
  }

  lemma KeyboardMoved(c: ChannelState, keyboard: Option<Result<bytes>>)
    requires LoopHead(c) && (keyboard.Some? ==> keyboard.value.Success?)
    ensures ClientMoved(c, KeyboardTurn(c, keyboard), [])
  {
    var o := KeyboardTurn(c, keyboard);
    if o.events == [] {
      assert GotPayloads([]) == [];
    } else {
      assert GotPayloads(o.events[..0]) == [];
    }
  }

  /** The window and counter facts that make a client accept the message p. */
  predicate Acceptable(c: ChannelState, p: bytes) {
    && FromServer(p, c.localId) && c.remoteWindow + Granted(p) < TWO_32
    && (IsEofMessage(p) == 1 ==> !c.remoteEofReceived)
    && (IsRequestMessage(p) == 1 ==> !c.exitStatusReceived)
  }

  lemma Pushed(queue: seq<bytes>, p: bytes, measure: bytes -> nat)
    ensures Total(queue + [p], measure) == Total(queue, measure) + measure(p)
  {
    assert (queue + [p])[..|queue|] == queue;
  }

  lemma HandleAccepts(c: ChannelState, p: bytes)
    requires LoopHead(c) && Acceptable(c, p) && p != []
    ensures var h := Handle(p, c);
            && !h.threw
            && Bit(h.channel.remoteEofReceived) == Bit(c.remoteEofReceived) + IsEofMessage(p)
            && Bit(h.channel.exitStatusReceived) == Bit(c.exitStatusReceived) + IsRequestMessage(p)
  {
  }

  lemma FinishMoved(c: ChannelState, p: bytes, h: Outcome, handled: Option<bytes>)
    requires LoopHead(c) && p != [] && Handled(c, p, h, handled) && !h.threw
    ensures var o := Finish(p, h);
            && !o.threw && GotPayloads(o.events) == [p]
            && o.channel.remoteEofReceived == h.channel.remoteEofReceived
            && o.channel.exitStatusReceived == h.channel.exitStatusReceived
  {
    var sent := handled;
    if (p[0] == CHANNEL_DATA || p[0] == CHANNEL_EXTENDED_DATA) && h.channel.localWindow <= LOCAL_WINDOW_THRESHOLD {
      sent := Some(AdjustMessage(h.channel, LOCAL_WINDOW_TARGET - h.channel.localWindow).value);
    }
    assert Finish(p, h).events == Listed(Some(p), sent);
    ListedGot(p, sent);
  }

  lemma SocketMoved(c: ChannelState, p: bytes)
    requires LoopHead(c) && Acceptable(c, p)
    ensures ClientMoved(c, SocketTurn(c, Success(p)), [p])
  {
    HandleAccepts(c, p);
    var sent := HandleGood(p, c);
    FinishMoved(c, p, Handle(p, c), sent);
    Pushed([], p, IsEofMessage);
    Pushed([], p, IsRequestMessage);
    assert [] + [p] == [p];
  }

  lemma ListedGot(p: bytes, sent: Option<bytes>)
    ensures GotPayloads(Listed(Some(p), sent)) == [p]
  {
    var s: seq<Event> := if sent.Some? then [Sent(sent.value)] else [];
    PayloadsConcat([Got(p)], s);
    assert [Got(p)][..0] == s[..0] && GotPayloads(s[..0]) == [];
  }

  /** In a state that satisfies the invariant, the message at the head of the queue is acceptable. */
  lemma HeadAcceptable(d: Duplex)
    requires Invariant(d) && d.client.open && d.toClient != []
    ensures Acceptable(d.client, d.toClient[0])
  {
    TotalHead(d.toClient, Granted);
    TotalHead(d.toClient, IsEofMessage);
    TotalHead(d.toClient, IsRequestMessage);
  }

  lemma SocketHalfTurn(d: Duplex)
    requires Invariant(d) && d.client.open && d.toClient != []
    ensures Invariant(After(d, SocketTurn(d.client, Success(d.toClient[0])), 1))
  {
    HeadAcceptable(d);
    SocketMoved(d.client, d.toClient[0]);
    SocketTurnGood(d.client, Success(d.toClient[0]));
    assert d.toClient[..1] == [d.toClient[0]];
    ClientMoveKeepsInvariant(d, SocketTurn(d.client, Success(d.toClient[0])), 1);
  }

  lemma KeyboardHalfTurn(d: Duplex, keyboard: Option<Result<bytes>>)
    requires Invariant(d) && d.client.open && (keyboard.Some? ==> keyboard.value.Success?)
    ensures var mid := After(d, KeyboardTurn(d.client, keyboard), 0);
            Invariant(mid) && mid.client.open && mid.toClient == d.toClient
  {
    KeyboardTurnGood(d.client, keyboard);
    KeyboardMoved(d.client, keyboard);
    assert d.toClient[..0] == [];
    ClientMoveKeepsInvariant(d, KeyboardTurn(d.client, keyboard), 0);
  }

  lemma HalvesCombine(d: Duplex, k: Outcome, s: Outcome, taken: nat)
    requires !k.threw && taken <= |d.toClient|
    ensures After(After(d, k, 0), s, taken) == After(d, Outcome(s.channel, k.events + s.events, s.threw), taken)
  {
    PayloadsConcat(k.events, s.events);
    var x, y, z := d.toServer, SentPayloads(k.events), SentPayloads(s.events);
    assert (x + y) + z == x + (y + z);
  }

  /** A turn that reads both is the keyboard's half turn and then the socket's. */
  lemma TurnIsTwoHalves(d: Duplex, poll: Poll)
    requires Enabled(d, ClientTurn(poll)) && poll.Ready? && !KeyboardTurn(d.client, poll.keyboard).threw
    ensures var mid := After(d, KeyboardTurn(d.client, poll.keyboard), 0);
            Step(d, ClientTurn(poll))
            == if poll.socketReadable then After(mid, SocketTurn(mid.client, Success(d.toClient[0])), 1) else mid
  {
    var k := KeyboardTurn(d.client, poll.keyboard);
    var input := Input(poll, if poll.socketReadable then Success(d.toClient[0]) else Failure);
    var s := SocketPart(k.channel, input);
    assert Turn(d.client, input) == Outcome(s.channel, k.events + s.events, s.threw);
    HalvesCombine(d, k, s, if poll.socketReadable then 1 else 0);
    if !poll.socketReadable {
      var mid := After(d, k, 0);
      assert mid.toServer + SentPayloads([]) == mid.toServer;
      assert After(mid, s, 0) == mid;
    }
  }

  lemma ClientTurnKeepsInvariant(d: Duplex, poll: Poll)
    requires Invariant(d) && Enabled(d, ClientTurn(poll))
    ensures Invariant(Step(d, ClientTurn(poll)))
  {
    if poll.Interrupted? {
      assert d.toServer + SentPayloads([]) == d.toServer;
      assert Step(d, ClientTurn(poll)) == d;
    } else {
      KeyboardHalfTurn(d, poll.keyboard);
      KeyboardMoved(d.client, poll.keyboard);
      TurnIsTwoHalves(d, poll);
      if poll.socketReadable {
        SocketHalfTurn(After(d, KeyboardTurn(d.client, poll.keyboard), 0));
      }
    }
  }

  // ---- The server's steps ----

  lemma ServerSendsKeepsInvariant(d: Duplex, p: bytes)
    requires Invariant(d) && ServerMay(d, p)
    ensures Invariant(Step(d, ServerSends(p)))
  {
    ServerSendsKeepsBooks(d, p);
    ServerSendsKeepsCounts(d, p);
    PushedInFlight(d, p);
  }

  lemma ServerSendsKeepsBooks(d: Duplex, p: bytes)
    requires Conserved(d) && ServerMay(d, p)
    ensures Conserved(Step(d, ServerSends(p)))
  {
    Pushed(d.toClient, p, Carried);
    Pushed(d.toClient, p, Granted);
  }

  lemma ServerSendsKeepsCounts(d: Duplex, p: bytes)
    requires OnceOnly(d) && ServerMay(d, p)
    ensures OnceOnly(Step(d, ServerSends(p)))
  {
    Pushed(d.toClient, p, IsEofMessage);
    Pushed(d.toClient, p, IsRequestMessage);
  }

  lemma PushedInFlight(d: Duplex, p: bytes)
    requires InFlightOk(d) && Paired(d) && FromServer(p, d.server.remoteId)
    ensures forall i :: 0 <= i < |d.toClient + [p]| ==> FromServer((d.toClient + [p])[i], d.client.localId)
  {
  }

  /** The server accepts the message at the head of its queue, and makes the dual update of its windows. */
  lemma ServerAccepts(d: Duplex)
    requires Invariant(d) && d.toServer != []
    ensures var p, s := d.toServer[0], d.server;
            var r := ServerReads(p, s);
            && r.Success?
            && r.value == s.(localWindow := r.value.localWindow, remoteWindow := r.value.remoteWindow,
                             remoteCloseReceived := r.value.remoteCloseReceived)
            && r.value.localWindow == s.localWindow - Carried(p)
            && r.value.remoteWindow == s.remoteWindow + Granted(p)
            && Bit(r.value.remoteCloseReceived) == Bit(s.remoteCloseReceived) + IsCloseMessage(p)
  {
    TotalHead(d.toServer, Carried);
    TotalHead(d.toServer, Granted);
    TotalHead(d.toServer, IsCloseMessage);
    assert SentOk(d.toServer[0], d.server.localId);
  }

  lemma ServerReceivesKeepsInvariant(d: Duplex)
    requires Invariant(d) && d.toServer != []
    ensures Invariant(Step(d, ServerReceives))
  {
    ServerAccepts(d);
    TotalHead(d.toServer, Carried);
    TotalHead(d.toServer, Granted);
    TotalHead(d.toServer, IsCloseMessage);
  }

  /**
    * In every reachable state the windows are conserved in both directions, and no message, in particular
    * no data message, has been rejected by either end.
    */
  lemma {:induction false} FlowControl(actions: seq<Action>, states: seq<Duplex>, i: nat)
    requires Run(actions, states) && i <= |actions|
    ensures Conserved(states[i]) && !states[i].failed
    ensures Invariant(states[i])
  {
    if i != 0 {
      var d, a := states[i - 1], actions[i - 1];
      FlowControl(actions, states, i - 1);
      assert Enabled(d, a) && states[i - 1 + 1] == Step(d, a);
      match a {
        case ClientTurn(poll) => ClientTurnKeepsInvariant(d, poll);
        case ServerSends(p) => ServerSendsKeepsInvariant(d, p);
        case ServerReceives => ServerReceivesKeepsInvariant(d);
      }
    }
  }

  /**
    * Inbound data never deadlocks: while the channel is open, once no data is in flight to the client and no
    * grant in flight to the server, the server may send more than half a megabyte.
    */
  lemma InboundNeverDeadlocks(actions: seq<Action>, states: seq<Duplex>, i: nat)
    requires Run(actions, states) && i <= |actions| && states[i].client.open
    requires Total(states[i].toClient, Carried) == 0 && Total(states[i].toServer, Granted) == 0
    ensures states[i].server.remoteWindow == states[i].client.localWindow > 524288
  {
    FlowControl(actions, states, i);
  }

  /** The same for the windows of our own data: drained queues leave the two ends in agreement. */
  lemma OutboundAgrees(actions: seq<Action>, states: seq<Duplex>, i: nat)
    requires Run(actions, states) && i <= |actions|
    requires Total(states[i].toServer, Carried) == 0 && Total(states[i].toClient, Granted) == 0
    ensures WindowsAgree(states[i].client, states[i].server)
  {
    FlowControl(actions, states, i);
  }

  // ---- The client's turns are a run of its loop ----

  function PollsIn(a: Action): seq<Poll> {
    if a.ClientTurn? then [a.poll] else []
  }

  function MessagesIn(a: Action): seq<bytes> {
    if a.ServerSends? then [a.p] else []
  }

  function PollsOf(actions: seq<Action>): seq<Poll> {
    if actions == [] then [] else PollsOf(actions[..|actions| - 1]) + PollsIn(actions[|actions| - 1])
  }

  function MessagesOf(actions: seq<Action>): seq<bytes> {
    if actions == [] then [] else MessagesOf(actions[..|actions| - 1]) + MessagesIn(actions[|actions| - 1])
  }

  /** What a client's turn is given to read, and how many messages that takes. */
  function InputFor(d: Duplex, poll: Poll): Input
    requires Enabled(d, ClientTurn(poll))
  {
    Input(poll, if poll.Ready? && poll.socketReadable then Success(d.toClient[0]) else Failure)
  }

  function Taken(poll: Poll): nat {
    if poll.Ready? && poll.socketReadable then 1 else 0
  }

  lemma ReadyTurnGets(c: ChannelState, poll: Poll, packet: Result<bytes>)
    requires LoopHead(c) && poll.Ready? && (poll.keyboard.Some? ==> poll.keyboard.value.Success?)
    requires var k := KeyboardTurn(c, poll.keyboard);
             LoopHead(k.channel) && (poll.socketReadable ==> packet.Success? && Acceptable(k.channel, packet.value))
    ensures GotPayloads(Turn(c, Input(poll, packet)).events) == if poll.socketReadable then [packet.value] else []
  {
    var k := KeyboardTurn(c, poll.keyboard);
    KeyboardMoved(c, poll.keyboard);
    if poll.socketReadable {
      SocketMoved(k.channel, packet.value);
      PayloadsConcat(k.events, SocketTurn(k.channel, packet).events);
    } else {
      assert k.events + [] == k.events;
    }
  }

  lemma TurnTakes(d: Duplex, poll: Poll)
    requires Invariant(d) && Enabled(d, ClientTurn(poll))
    ensures var o := Turn(d.client, InputFor(d, poll));
            && Step(d, ClientTurn(poll)) == After(d, o, Taken(poll))
            && !o.threw && GotPayloads(o.events) == d.toClient[..Taken(poll)]
  {
    ClientTurnKeepsInvariant(d, poll);
    if poll.Ready? {
      KeyboardHalfTurn(d, poll.keyboard);
      if poll.socketReadable {
        HeadAcceptable(After(d, KeyboardTurn(d.client, poll.keyboard), 0));
        assert d.toClient[..1] == [d.toClient[0]];
      }
      ReadyTurnGets(d.client, poll, InputFor(d, poll).packet);
    }
  }

  /** A turn looks at the next message only if the socket is readable. */
  lemma TurnOfArrival(d: Duplex, poll: Poll, got: seq<bytes>, arriving: seq<bytes>)
    requires Enabled(d, ClientTurn(poll)) && got + d.toClient <= arriving
    ensures Turn(d.client, Input(poll, Arrival(arriving, |got|))) == Turn(d.client, InputFor(d, poll))
  {
    if poll.Ready? && poll.socketReadable {
      assert arriving[|got|] == (got + d.toClient)[|got|] == d.toClient[0];
    }
  }

  /**
    * Where the client's loop is when these messages were sent to it: it has read those that are not in flight, and the
    * server has read those of its own that are not.
    */
  predicate InStep(o: Outcome, d: Duplex, messages: seq<bytes>) {
    && !o.threw && o.channel == d.client && GotPayloads(o.events) + d.toClient == messages
    && SentPayloads(o.events) == d.read + d.toServer
  }

  lemma ClientTurnInStep(o: Outcome, d: Duplex, messages: seq<bytes>, poll: Poll, turn: Outcome)
    requires InStep(o, d, messages) && Invariant(d) && Enabled(d, ClientTurn(poll))
    requires turn == Turn(d.client, InputFor(d, poll))
    ensures InStep(Outcome(turn.channel, o.events + turn.events, turn.threw), Step(d, ClientTurn(poll)), messages)
  {
    TurnTakes(d, poll);
    PayloadsConcat(o.events, turn.events);
    TakenFrom(GotPayloads(o.events), d.toClient, Taken(poll));
    SentBehind(d.read, d.toServer, SentPayloads(turn.events));
  }

  lemma SentBehind(read: seq<bytes>, queue: seq<bytes>, more: seq<bytes>)
    ensures (read + queue) + more == read + (queue + more)
  {
  }

  lemma ServerReceivesInStep(o: Outcome, d: Duplex, messages: seq<bytes>)
    requires InStep(o, d, messages) && Enabled(d, ServerReceives)
    ensures InStep(o, Step(d, ServerReceives), messages)
  {
    assert (d.read + [d.toServer[0]]) + d.toServer[1..] == d.read + d.toServer;
  }

  lemma TakenFrom(got: seq<bytes>, queue: seq<bytes>, n: nat)
    requires n <= |queue|
    ensures (got + queue[..n]) + queue[n..] == got + queue
  {
  }

  lemma ServerSendsInStep(o: Outcome, d: Duplex, messages: seq<bytes>, p: bytes)
    requires InStep(o, d, messages) && Enabled(d, ServerSends(p))
    ensures InStep(o, Step(d, ServerSends(p)), messages + [p])
  {
    assert (GotPayloads(o.events) + d.toClient) + [p] == GotPayloads(o.events) + (d.toClient + [p]);
  }

  /** The loop with one more turn, when it is open. */
  lemma RunWithTurn(c: ChannelState, arriving: seq<bytes>, polls: seq<Poll>, poll: Poll)
    ensures var before := Shell.Run(c, Inputs(c, arriving, polls));
            !before.threw && before.channel.open ==>
              var turn := Turn(before.channel, Input(poll, Arrival(arriving, |GotPayloads(before.events)|)));
              Shell.Run(c, Inputs(c, arriving, polls + [poll]))
                == Outcome(turn.channel, before.events + turn.events, turn.threw)
  {
    assert (polls + [poll])[..|polls|] == polls && (polls + [poll])[..|polls| + 1] == polls + [poll];
    RunOneMore(c, arriving, polls + [poll], |polls|);
  }

  /** An action, and the loop that goes on by its turn if it is the client's. */
  lemma ActionInStep(c: ChannelState, arriving: seq<bytes>, polls: seq<Poll>, d: Duplex, messages: seq<bytes>,
                     a: Action)
    requires InStep(Shell.Run(c, Inputs(c, arriving, polls)), d, messages) && messages <= arriving
    requires Invariant(d) && Enabled(d, a)
    ensures InStep(Shell.Run(c, Inputs(c, arriving, polls + PollsIn(a))), Step(d, a), messages + MessagesIn(a))
  {
    var o := Shell.Run(c, Inputs(c, arriving, polls));
    assert polls + [] == polls && messages + [] == messages;
    match a {
      case ClientTurn(poll) =>
        RunWithTurn(c, arriving, polls, poll);
        TurnOfArrival(d, poll, GotPayloads(o.events), arriving);
        ClientTurnInStep(o, d, messages, poll, Turn(d.client, InputFor(d, poll)));
      case ServerSends(p) => ServerSendsInStep(o, d, messages, p);
      case ServerReceives => ServerReceivesInStep(o, d, messages);
    }
  }

  /**
    * Against a conforming server the client's turns are a run of its loop on the messages that the server sends,
    * whatever arrives behind them, and this run does not throw: it reads them in order, up to those in flight.
    */
  lemma {:induction false} TurnsAreRun(actions: seq<Action>, states: seq<Duplex>, i: nat, arriving: seq<bytes>)
    requires Run(actions, states) && i <= |actions| && MessagesOf(actions[..i]) <= arriving
    ensures InStep(Shell.Run(states[0].client, Inputs(states[0].client, arriving, PollsOf(actions[..i]))), states[i],
                   MessagesOf(actions[..i]))
  {
    if i == 0 {
      assert actions[..0] == [];
    } else {
      var d, a, before := states[i - 1], actions[i - 1], actions[..i - 1];
      assert actions[..i][..i - 1] == before && actions[..i][i - 1] == a;
      TurnsAreRun(actions, states, i - 1, arriving);
      FlowControl(actions, states, i - 1);
      assert Enabled(d, a) && states[i - 1 + 1] == Step(d, a);
      ActionInStep(states[0].client, arriving, PollsOf(before), d, MessagesOf(before), a);
    }
  }

  /**
    * What a conforming server reads as data, with what is in flight to it, is what the user typed, in order: nothing is
    * lost, repeated or changed, whatever is sent the other way.
    */
  lemma TypedIsRead(actions: seq<Action>, states: seq<Duplex>, i: nat, arriving: seq<bytes>)
    requires Run(actions, states) && i <= |actions| && MessagesOf(actions[..i]) <= arriving
    ensures DataIn(states[i].read) + DataIn(states[i].toServer)
      == Typed(states[0].client, Inputs(states[0].client, arriving, PollsOf(actions[..i])))
  {
    TurnsAreRun(actions, states, i, arriving);
    DataConcat(states[i].read, states[i].toServer);
    TypedIsSent(states[0].client, Inputs(states[0].client, arriving, PollsOf(actions[..i])));
  }

  /**
    * What such a server sends as data and as error data is what the user is shown, in order, up to what is in flight.
    */
  lemma SentIsShown(actions: seq<Action>, states: seq<Duplex>, i: nat, arriving: seq<bytes>)
    requires Run(actions, states) && i <= |actions| && MessagesOf(actions[..i]) <= arriving
    ensures var o := Shell.Run(states[0].client, Inputs(states[0].client, arriving, PollsOf(actions[..i])));
            Joined(ShownBy(o.events), ShownIn(states[i].toClient)) == ShownIn(MessagesOf(actions[..i]))
  {
    TurnsAreRun(actions, states, i, arriving);
    var o := Shell.Run(states[0].client, Inputs(states[0].client, arriving, PollsOf(actions[..i])));
    ShownConcat(GotPayloads(o.events), states[i].toClient);
  }

  /** The model's server may send anything that the client's loop takes. */
  lemma ServerIsFree(p: bytes, c: ChannelState)
    requires Expected(p, c)
    ensures FromServer(p, c.localId)
  {
  }
}
