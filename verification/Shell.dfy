/**
  * One turn of the loop of run_interactive_shell in src/main.cpp, and what every run of the loop keeps,
  * whatever is typed and whatever the server sends.
  */
module Shell {
  import opened Prelude
  import opened Encoding
  import opened History
  import opened Messages
  import opened Trace
  import Framing

  const LOCAL_WINDOW_TARGET := 0x10_0000
  const LOCAL_WINDOW_THRESHOLD := 0x8_0000
  const LOCAL_MAX_PACKET_SIZE := 0x8000
  const INITIAL_CHANNEL_ID: u32 := 0
  const KEYBOARD_BUFFER_SIZE := 1024

  /**
    * What poll(2) reports. Bytes waiting at the keyboard are `typed` (none is end of file), and a Failure
    * there is a failed read(2); the kernel reports the keyboard only if the loop asked for it.
    */
  datatype Poll =
    | Interrupted
    | PollFailed
    | Ready(keyboard: Option<Result<bytes>>, socketReadable: bool, socketError: bool)

  /** The environment's part in one turn; `packet` is what receive_packet would return or throw. */
  datatype Input = Input(poll: Poll, packet: Result<bytes>)

  /** The channel after some turns, the packets sent and received in order, and whether the loop threw. */
  datatype Outcome = Outcome(channel: ChannelState, events: seq<Event>, threw: bool)

  /** An outcome that comes after some events. */
  function After(events: seq<Event>, rest: Outcome): Outcome {
    rest.(events := events + rest.events)
  }

  /** One outcome, and another behind it if the first did not throw. */
  function Then(first: Outcome, second: Outcome): Outcome {
    if first.threw then first else After(first.events, second)
  }

  function MaxRead(c: ChannelState): nat {
    Min(Min(KEYBOARD_BUFFER_SIZE, c.remoteWindow), c.remoteMaxPacket)
  }

  function KeyboardTurn(c: ChannelState, keyboard: Option<Result<bytes>>): Outcome {
    if c.remoteWindow == 0 || keyboard.None? then Outcome(c, [], false) else
    match keyboard.value
    case Failure => Outcome(c, [], true)
    case Success(typed) =>
      var data := typed[..Min(|typed|, MaxRead(c))];
      if data == [] then Outcome(c, [], false) else
      match DataMessage(c, data)
      case Failure => Outcome(c, [], true)
      case Success(m) => Outcome(c.(remoteWindow := c.remoteWindow - |data|), [Sent(m)], false)
  }

  /** The messages that only update the channel. */
  function Absorb(p: bytes, c: ChannelState): Result<ChannelState>
    requires p != []
  {
    if p[0] == CHANNEL_DATA then OnData(p, c)
    else if p[0] == CHANNEL_WINDOW_ADJUST then OnAdjust(p, c)
    else if p[0] == CHANNEL_EXTENDED_DATA then OnExtendedData(p, c)
    else if p[0] == CHANNEL_EOF then OnEof(p, c)
    else if p[0] == CHANNEL_REQUEST then OnExitStatus(p, c)
    else Failure
  }

  /** The server's CLOSE is answered with ours, unless that was sent before. */
  function AnswerClose(p: bytes, c: ChannelState): Outcome {
    match OnClose(p, c)
    case Failure => Outcome(c, [], true)
    case Success(closed) =>
      if closed.localCloseSent then Outcome(closed, [], false) else
      match CloseMessage(closed)
      case Failure => Outcome(closed, [], true)
      case Success(m) => Outcome(closed.(localCloseSent := true), [Sent(m)], false)
  }

  /** The branches on the message type. */
  function Handle(p: bytes, c: ChannelState): Outcome
    requires p != []
  {
    if p[0] == GLOBAL_REQUEST then
      Outcome(c, if WantsReply(p) then [Sent([REQUEST_FAILURE])] else [], !IsGlobalRequest(p))
    else if p[0] == CHANNEL_CLOSE then AnswerClose(p, c)
    else Update(Absorb(p, c), c)
  }

  function Update(r: Result<ChannelState>, c: ChannelState): Outcome {
    if r.Success? then Outcome(r.value, [], false) else Outcome(c, [], true)
  }

  /** Tops the local window up once it has fallen to the threshold. */
  function Replenish(c: ChannelState): Outcome {
    if !(c.open && c.localWindow <= LOCAL_WINDOW_THRESHOLD) then Outcome(c, [], false) else
    var difference := LOCAL_WINDOW_TARGET - c.localWindow;
    match AdjustMessage(c, difference)
    case Failure => Outcome(c, [], true)
    case Success(m) => Outcome(c.(localWindow := c.localWindow + difference), [Sent(m)], false)
  }

  function CloseIfBothDone(c: ChannelState): ChannelState {
    if c.localCloseSent && c.remoteCloseReceived then c.(open := false) else c
  }

  /** After the branch on the message type: top up the window, and see whether both sides have closed. */
  function Settle(p: bytes, c: ChannelState): Outcome
    requires p != []
  {
    var w := if IsPayloadData(p) then Replenish(c) else Outcome(c, [], false);
    if w.threw then w else Outcome(CloseIfBothDone(w.channel), w.events, false)
  }

  function Conclude(p: bytes, h: Outcome): Outcome
    requires p != []
  {
    Then(h, Settle(p, h.channel))
  }

  predicate IsPayloadData(p: bytes)
    requires p != []
  {
    p[0] == CHANNEL_DATA || p[0] == CHANNEL_EXTENDED_DATA
  }

  function Finish(p: bytes, h: Outcome): Outcome
    requires p != []
  {
    After([Got(p)], Conclude(p, h))
  }

  function SocketTurn(c: ChannelState, packet: Result<bytes>): Outcome {
    if packet.Failure? then Outcome(c, [], true)
    else if packet.value == [] then Outcome(c, [Got(packet.value)], true)
    else Finish(packet.value, Handle(packet.value, c))
  }

  function SocketPart(c: ChannelState, input: Input): Outcome
    requires input.poll.Ready?
  {
    var s := if input.poll.socketReadable then SocketTurn(c, input.packet) else Outcome(c, [], false);
    s.(threw := s.threw || (s.channel.open && input.poll.socketError))
  }

  function Turn(c: ChannelState, input: Input): Outcome {
    match input.poll
    case Interrupted => Outcome(c, [], false)
    case PollFailed => Outcome(c, [], true)
    case Ready(keyboard, _, _) =>
      var k := KeyboardTurn(c, keyboard);
      Then(k, SocketPart(k.channel, input))
  }

  /** The loop: while the channel is open and nothing was thrown. */
  function Run(c: ChannelState, inputs: seq<Input>): Outcome {
    if inputs == [] then Outcome(c, [], false) else
    var before := Run(c, inputs[..|inputs| - 1]);
    if before.threw || !before.channel.open then before else
    var turn := Turn(before.channel, inputs[|inputs| - 1]);
    Outcome(turn.channel, before.events + turn.events, turn.threw)
  }

  /** The inputs of a run against what the server delivers: each packet read is the next one to arrive. */
  function Inputs(c: ChannelState, arriving: seq<bytes>, polls: seq<Poll>): (inputs: seq<Input>)
    ensures |inputs| == |polls|
  {
    if polls == [] then [] else
    var before := Inputs(c, arriving, polls[..|polls| - 1]);
    before + [Input(polls[|polls| - 1], Arrival(arriving, |GotPayloads(Run(c, before).events)|))]
  }

  function Arrival(arriving: seq<bytes>, k: nat): Result<bytes> {
    if k < |arriving| then Success(arriving[k]) else Failure
  }

  /** Once the channel has closed or something was thrown, the rest of the inputs are not looked at. */
  lemma {:induction false} RunStops(c: ChannelState, arriving: seq<bytes>, polls: seq<Poll>, n: nat)
    requires n <= |polls|
    requires var o := Run(c, Inputs(c, arriving, polls[..n])); o.threw || !o.channel.open
    ensures Run(c, Inputs(c, arriving, polls)) == Run(c, Inputs(c, arriving, polls[..n]))
  {
    if n == |polls| {
      assert polls[..n] == polls;
    } else {
      var init := polls[..|polls| - 1];
      assert init[..n] == polls[..n];
      RunStops(c, arriving, init, n);
      assert Inputs(c, arriving, polls)[..|init|] == Inputs(c, arriving, init);
    }
  }

  lemma RunOneMore(c: ChannelState, arriving: seq<bytes>, polls: seq<Poll>, n: nat)
    requires n < |polls|
    ensures var before := Run(c, Inputs(c, arriving, polls[..n]));
            !before.threw && before.channel.open ==>
              var turn := Turn(before.channel, Input(polls[n], Arrival(arriving, |GotPayloads(before.events)|)));
              Run(c, Inputs(c, arriving, polls[..n + 1]))
                == Outcome(turn.channel, before.events + turn.events, turn.threw)
  {
    assert polls[..n + 1][..n] == polls[..n];
    var inputs := Inputs(c, arriving, polls[..n + 1]);
    assert inputs[..n] == Inputs(c, arriving, polls[..n]);
  }

  /** More turns only add events. */
  lemma {:induction false} RunGrows(c: ChannelState, arriving: seq<bytes>, polls: seq<Poll>, n: nat)
    requires n <= |polls|
    ensures Run(c, Inputs(c, arriving, polls[..n])).events <= Run(c, Inputs(c, arriving, polls)).events
  {
    if n == |polls| {
      assert polls[..n] == polls;
    } else {
      var init := polls[..|polls| - 1];
      assert init[..n] == polls[..n];
      RunGrows(c, arriving, init, n);
      assert Inputs(c, arriving, polls)[..|init|] == Inputs(c, arriving, init);
    }
  }

  // ---- What holds at every loop head ----

  predicate LoopHead(c: ChannelState) {
    && c.open && !c.localCloseSent && !c.remoteCloseReceived
    && LOCAL_WINDOW_THRESHOLD < c.localWindow <= LOCAL_WINDOW_TARGET
    && c.localMaxPacket == LOCAL_MAX_PACKET_SIZE && c.remoteMaxPacket >= MIN_MAX_PACKET_SIZE
  }

  /** At a loop head the window check of the data parsers cannot fail: the packet-size check comes first. */
  lemma WindowCheckUnreachable(p: bytes, c: ChannelState)
    requires LoopHead(c)
    ensures OnData(p, c).Success? <==> IsData(p, c.localId) && Carried(p) <= c.localMaxPacket
    ensures OnExtendedData(p, c).Success? <==> IsExtendedData(p, c.localId) && Carried(p) <= c.localMaxPacket
  {
  }

  /** No guard on our own messages ever refuses one, and no subtraction leaves the range of its type. */
  lemma OwnGuardsNeverFire(c: ChannelState, typed: bytes, p: bytes)
    requires LoopHead(c)
    ensures !KeyboardTurn(c, Some(Success(typed))).threw
    ensures OnData(p, c).Success? ==>
      !Replenish(OnData(p, c).value).threw && OnData(p, c).value.localWindow <= LOCAL_WINDOW_TARGET
    ensures OnExtendedData(p, c).Success? ==> !Replenish(OnExtendedData(p, c).value).threw
    ensures OnClose(p, c).Success? ==> CloseMessage(OnClose(p, c).value).Success?
  {
  }

  // ---- Counting what a run moved ----

  function IsGrant(p: bytes): nat {
    if Granted(p) > 0 then 1 else 0
  }

  function IsCloseMessage(p: bytes): nat {
    if p != [] && p[0] == CHANNEL_CLOSE then 1 else 0
  }

  /**
    * Every message the loop sends is of one of four kinds, addressed to the peer's channel; it fits one
    * packet in either mode, and a grant is never small.
    */
  predicate SentOk(p: bytes, id: u32) {
    && (IsData(p, id) || (IsAdjust(p, id) && Granted(p) != 0) || IsBare(p, CHANNEL_CLOSE, id) || p == [REQUEST_FAILURE])
    && 1 <= |p| <= 9 + KEYBOARD_BUFFER_SIZE
    && Carried(p) <= KEYBOARD_BUFFER_SIZE
    && (Granted(p) != 0 ==> 524288 <= Granted(p) <= 557055)
  }

  lemma SentOkIsSendable(p: bytes, id: u32)
    requires SentOk(p, id)
    ensures Framing.Sendable(|p|, Framing.BLOCK_SIZE) && Framing.Sendable(|p|, Framing.AES_BLOCK_SIZE)
  {
    Framing.SendableSizes(|p|);
  }

  ghost predicate AllSentOk(id: u32, events: seq<Event>) {
    forall i :: 0 <= i < |events| && events[i].Sent? ==> SentOk(events[i].payload, id)
  }

  /** The books balance: windows against bytes and grants in both directions. */
  predicate Balanced(c: ChannelState, o: Outcome) {
    var sent, got := SentPayloads(o.events), GotPayloads(o.events);
    && o.channel.localWindow + Total(got, Carried) == c.localWindow + Total(sent, Granted)
    && o.channel.remoteWindow + Total(sent, Carried) == c.remoteWindow + Total(got, Granted)
  }

  /** While the channel is open no CLOSE was sent or received; when it closes, one of each, ours last. */
  predicate CloseHandshake(o: Outcome) {
    var n := if o.channel.open then 0 else 1;
    && Total(SentPayloads(o.events), IsCloseMessage) == n
    && Total(GotPayloads(o.events), IsCloseMessage) == n
    && (!o.channel.open ==> o.events != [] && o.events[|o.events| - 1].Sent?
                            && IsCloseMessage(o.events[|o.events| - 1].payload) == 1)
  }

  predicate SameConstants(c: ChannelState, d: ChannelState) {
    c.localId == d.localId && c.remoteId == d.remoteId && c.localMaxPacket == d.localMaxPacket
      && c.remoteMaxPacket == d.remoteMaxPacket
  }

  /** What one or more turns that did not throw leave behind. */
  ghost predicate Good(c: ChannelState, o: Outcome) {
    && AllSentOk(c.remoteId, o.events)
    && (!o.threw ==>
          && Balanced(c, o) && CloseHandshake(o) && SameConstants(c, o.channel)
          && o.channel.localWindow <= LOCAL_WINDOW_TARGET && (o.channel.open ==> LoopHead(o.channel)))
  }

  // ---- One turn: at most one message received, then at most one sent ----

  function Measured(m: Option<bytes>, measure: bytes -> nat): nat {
    if m.Some? then measure(m.value) else 0
  }

  function Listed(got: Option<bytes>, sent: Option<bytes>): seq<Event> {
    (if got.Some? then [Got(got.value)] else []) + (if sent.Some? then [Sent(sent.value)] else [])
  }

  lemma ListedSums(got: Option<bytes>, sent: Option<bytes>, measure: bytes -> nat)
    ensures Total(GotPayloads(Listed(got, sent)), measure) == Measured(got, measure)
    ensures Total(SentPayloads(Listed(got, sent)), measure) == Measured(sent, measure)
  {
    var g: seq<Event> := if got.Some? then [Got(got.value)] else [];
    var s: seq<Event> := if sent.Some? then [Sent(sent.value)] else [];
    PayloadsConcat(g, s);
    assert g != [] ==> g[..0] == [];
    assert s != [] ==> s[..0] == [];
    assert GotPayloads(g + s) == if got.Some? then [got.value] else [];
    assert SentPayloads(g + s) == if sent.Some? then [sent.value] else [];
    assert forall p: bytes {:trigger measure(p)} :: [p][..0] == [] && Total([p], measure) == measure(p);
  }

  lemma ListedSentOk(id: u32, got: Option<bytes>, sent: Option<bytes>)
    requires sent.Some? ==> SentOk(sent.value, id)
    ensures AllSentOk(id, Listed(got, sent))
  {
    forall i | 0 <= i < |Listed(got, sent)| && Listed(got, sent)[i].Sent?
      ensures SentOk(Listed(got, sent)[i].payload, id)
    {
      assert sent.Some? && Listed(got, sent)[i] == Sent(sent.value);
    }
  }

  /** Good for a turn, in plain numbers. */
  predicate GoodTurn(c: ChannelState, o: Outcome, got: Option<bytes>, sent: Option<bytes>) {
    && o.events == Listed(got, sent)
    && (sent.Some? ==> SentOk(sent.value, c.remoteId))
    && (!o.threw ==>
          && o.channel.localWindow + Measured(got, Carried) == c.localWindow + Measured(sent, Granted)
          && o.channel.remoteWindow + Measured(sent, Carried) == c.remoteWindow + Measured(got, Granted)
          && Measured(sent, IsCloseMessage) == Measured(got, IsCloseMessage) == (if o.channel.open then 0 else 1)
          && SameConstants(c, o.channel) && o.channel.localWindow <= LOCAL_WINDOW_TARGET
          && (o.channel.open ==> LoopHead(o.channel)))
  }

  lemma GoodTurnIsGood(c: ChannelState, o: Outcome, got: Option<bytes>, sent: Option<bytes>)
    requires GoodTurn(c, o, got, sent)
    ensures Good(c, o)
  {
    ListedSentOk(c.remoteId, got, sent);
    ListedSums(got, sent, Carried);
    ListedSums(got, sent, Granted);
    ListedSums(got, sent, IsCloseMessage);
    if sent.Some? {
      assert o.events[|o.events| - 1] == Sent(sent.value);
    }
  }

  lemma KeyboardTurnGood(c: ChannelState, keyboard: Option<Result<bytes>>)
    requires LoopHead(c)
    ensures var o := KeyboardTurn(c, keyboard); Good(c, o) && (!o.threw ==> o.channel.open)
  {
    var o := KeyboardTurn(c, keyboard);
    if o.events == [] {
      GoodTurnIsGood(c, o, None, None);
    } else {
      var data := keyboard.value.value[..Min(|keyboard.value.value|, MaxRead(c))];
      DataMessageRead(c, data);
      GoodTurnIsGood(c, o, None, Some(DataMessage(c, data).value));
    }
  }

  /** A message handled: what it carried left the window, what it granted was added, a CLOSE was answered. */
  predicate Handled(c: ChannelState, p: bytes, h: Outcome, sent: Option<bytes>)
    requires p != []
  {
    && h.events == Listed(None, sent) && (sent.Some? ==> SentOk(sent.value, c.remoteId) && Granted(sent.value) == 0)
    && (!h.threw ==>
          && h.channel.open && h.channel.localWindow + Carried(p) == c.localWindow
          && Carried(p) <= LOCAL_MAX_PACKET_SIZE
          && (p[0] != CHANNEL_DATA && p[0] != CHANNEL_EXTENDED_DATA ==> Carried(p) == 0)
          && (sent.Some? ==> p[0] == GLOBAL_REQUEST || p[0] == CHANNEL_CLOSE)
          && h.channel.remoteWindow + Measured(sent, Carried) == c.remoteWindow + Granted(p)
          && Measured(sent, IsCloseMessage) == IsCloseMessage(p)
          && h.channel.localCloseSent == h.channel.remoteCloseReceived == (IsCloseMessage(p) == 1)
          && SameConstants(c, h.channel))
  }

  lemma HandleGood(p: bytes, c: ChannelState) returns (sent: Option<bytes>)
    requires LoopHead(c) && p != []
    ensures Handled(c, p, Handle(p, c), sent)
  {
    if p[0] == GLOBAL_REQUEST {
      sent := GlobalRequestGood(p, c);
    } else if p[0] == CHANNEL_CLOSE {
      sent := CloseGood(p, c);
    } else {
      sent := None;
      AbsorbGood(p, c);
    }
  }

  lemma GlobalRequestGood(p: bytes, c: ChannelState) returns (sent: Option<bytes>)
    requires LoopHead(c) && p != [] && p[0] == GLOBAL_REQUEST
    ensures Handled(c, p, Handle(p, c), sent)
  {
    sent := if WantsReply(p) then Some([REQUEST_FAILURE]) else None;
  }

  lemma CloseGood(p: bytes, c: ChannelState) returns (sent: Option<bytes>)
    requires LoopHead(c) && p != [] && p[0] == CHANNEL_CLOSE
    ensures Handled(c, p, AnswerClose(p, c), sent)
  {
    sent := None;
    if OnClose(p, c).Success? {
      CloseMessageRead(OnClose(p, c).value);
      sent := Some(CloseMessage(OnClose(p, c).value).value);
    }
  }

  lemma AbsorbGood(p: bytes, c: ChannelState)
    requires LoopHead(c) && p != [] && p[0] != GLOBAL_REQUEST && p[0] != CHANNEL_CLOSE
    ensures Handled(c, p, Update(Absorb(p, c), c), None)
  {
  }

  lemma FinishGood(c: ChannelState, p: bytes, h: Outcome, handled: Option<bytes>)
    requires LoopHead(c) && p != [] && Handled(c, p, h, handled)
    ensures Good(c, Finish(p, h))
  {
    var sent := handled;
    if !h.threw && (p[0] == CHANNEL_DATA || p[0] == CHANNEL_EXTENDED_DATA)
      && h.channel.localWindow <= LOCAL_WINDOW_THRESHOLD {
      var amount := LOCAL_WINDOW_TARGET - h.channel.localWindow;
      AdjustMessageRead(h.channel, amount);
      sent := Some(AdjustMessage(h.channel, amount).value);
    }
    assert Finish(p, h).events == Listed(Some(p), sent);
    GoodTurnIsGood(c, Finish(p, h), Some(p), sent);
  }

  lemma SocketTurnGood(c: ChannelState, packet: Result<bytes>)
    requires LoopHead(c)
    ensures Good(c, SocketTurn(c, packet))
  {
    if packet.Failure? {
      GoodTurnIsGood(c, SocketTurn(c, packet), None, None);
    } else if packet.value == [] {
      GoodTurnIsGood(c, SocketTurn(c, packet), Some(packet.value), None);
    } else {
      var sent := HandleGood(packet.value, c);
      FinishGood(c, packet.value, Handle(packet.value, c), sent);
    }
  }

  // ---- Exactly the messages that the loop takes ----

  /**
    * Global requests; data within the packet size; a grant that fits; end of file and exit status once; CLOSE. All else
    * makes the loop throw: every other channel request, and the SSH_MSG_IGNORE and SSH_MSG_DEBUG that section 11 of
    * RFC 4253 allows at any time.
    */
  predicate Expected(p: bytes, c: ChannelState) {
    || IsGlobalRequest(p)
    || ((IsData(p, c.localId) || IsExtendedData(p, c.localId)) && Carried(p) <= LOCAL_MAX_PACKET_SIZE)
    || (IsAdjust(p, c.localId) && 0 < Granted(p) < TWO_32 - c.remoteWindow)
    || (IsBare(p, CHANNEL_EOF, c.localId) && !c.remoteEofReceived)
    || (IsExitStatus(p, c.localId) && !c.exitStatusReceived)
    || IsBare(p, CHANNEL_CLOSE, c.localId)
  }

  lemma HandleReturns(p: bytes, c: ChannelState)
    requires LoopHead(c) && p != []
    ensures !Handle(p, c).threw <==> Expected(p, c)
  {
    if p[0] == CHANNEL_CLOSE {
      CloseReturns(p, c);
    }
  }

  lemma CloseReturns(p: bytes, c: ChannelState)
    requires LoopHead(c)
    ensures !AnswerClose(p, c).threw <==> IsBare(p, CHANNEL_CLOSE, c.localId)
  {
  }

  /** At a loop head, a message that arrives makes the turn throw if and only if it is not expected. */
  lemma SocketTurnReturns(p: bytes, c: ChannelState)
    requires LoopHead(c)
    ensures !SocketTurn(c, Success(p)).threw <==> Expected(p, c)
  {
    if p != [] {
      HandleReturns(p, c);
      var sent := HandleGood(p, c);
      SettleReturns(p, Handle(p, c));
    }
  }

  lemma SettleReturns(p: bytes, h: Outcome)
    requires p != [] && h.channel.localWindow <= LOCAL_WINDOW_TARGET
    ensures !Settle(p, h.channel).threw
  {
  }

  lemma SocketPartGood(c: ChannelState, input: Input)
    requires LoopHead(c) && input.poll.Ready?
    ensures Good(c, SocketPart(c, input))
  {
    if input.poll.socketReadable {
      SocketTurnGood(c, input.packet);
    } else {
      NothingHappened(c, false);
      NothingHappened(c, true);
    }
  }

  /** Two stretches of the loop after one another. */
  lemma GoodConcat(c: ChannelState, a: Outcome, b: Outcome)
    requires Good(c, a) && !a.threw && a.channel.open && Good(a.channel, b)
    ensures Good(c, Outcome(b.channel, a.events + b.events, b.threw))
  {
    PayloadsConcat(a.events, b.events);
    var sa, ga := SentPayloads(a.events), GotPayloads(a.events);
    var sb, gb := SentPayloads(b.events), GotPayloads(b.events);
    TotalConcat(sa, sb, Carried);
    TotalConcat(ga, gb, Carried);
    TotalConcat(sa, sb, Granted);
    TotalConcat(ga, gb, Granted);
    TotalConcat(sa, sb, IsCloseMessage);
    TotalConcat(ga, gb, IsCloseMessage);
  }

  lemma NothingHappened(c: ChannelState, threw: bool)
    requires LoopHead(c)
    ensures Good(c, Outcome(c, [], threw))
  {
  }

  lemma TurnGood(c: ChannelState, input: Input)
    requires LoopHead(c)
    ensures Good(c, Turn(c, input))
  {
    NothingHappened(c, false);
    NothingHappened(c, true);
    if input.poll.Ready? {
      var k := KeyboardTurn(c, input.poll.keyboard);
      KeyboardTurnGood(c, input.poll.keyboard);
      if !k.threw {
        SocketPartGood(k.channel, input);
        GoodConcat(c, k, SocketPart(k.channel, input));
      }
    }
  }

  /**
    * Every run from a loop head, against any peer and any typing: the window bounds, the books, the close
    * handshake and the limits on what is sent, until it closes or throws.
    */
  lemma {:induction false} RunGood(c: ChannelState, inputs: seq<Input>)
    requires LoopHead(c)
    ensures Good(c, Run(c, inputs))
  {
    NothingHappened(c, false);
    if inputs != [] {
      RunGood(c, inputs[..|inputs| - 1]);
      var before := Run(c, inputs[..|inputs| - 1]);
      if !before.threw && before.channel.open {
        TurnGood(before.channel, inputs[|inputs| - 1]);
        GoodConcat(c, before, Turn(before.channel, inputs[|inputs| - 1]));
      }
    }
  }

  lemma {:induction false} GrantsAreLarge(id: u32, sent: seq<bytes>)
    requires forall i :: 0 <= i < |sent| ==> SentOk(sent[i], id)
    ensures 524288 * Total(sent, IsGrant) <= Total(sent, Granted)
  {
    if sent != [] {
      GrantsAreLarge(id, sent[..|sent| - 1]);
      assert SentOk(sent[|sent| - 1], id);
    }
  }

  lemma {:induction false} SentPayloadsAreOk(id: u32, events: seq<Event>)
    requires AllSentOk(id, events)
    ensures forall i :: 0 <= i < |SentPayloads(events)| ==> SentOk(SentPayloads(events)[i], id)
  {
    if events != [] {
      SentPayloadsAreOk(id, events[..|events| - 1]);
    }
  }

  // ---- The loop keeps the order of the session ----

  lemma PhaseOne(h: seq<Event>, e: Event)
    ensures PhaseOf(h + [e]) == Next(PhaseOf(h), e)
  {
    PhaseSteps();
  }

  lemma PhaseListed(h: seq<Event>, m: bytes, reply: Option<bytes>)
    ensures PhaseOf(h + Listed(Some(m), reply))
         == if reply.None? then Next(PhaseOf(h), Got(m)) else Next(Next(PhaseOf(h), Got(m)), Sent(reply.value))
  {
    PhaseSteps();
    assert Listed(Some(m), None) == [Got(m)];
    if reply.Some? {
      assert h + Listed(Some(m), reply) == (h + [Got(m)]) + [Sent(reply.value)];
    }
  }

  lemma EventsRegroup(a: seq<Event>, b: seq<Event>, c: seq<Event>)
    ensures (a + b) + c == a + (b + c)
  {
  }

  /** Where a piece of the loop leaves the session: it is not out of order, and it ended if the channel closed. */
  ghost predicate KeepsOrder(h: seq<Event>, o: Outcome) {
    && Conforms(h + o.events)
    && (!o.threw ==> PhaseOf(h + o.events) == Phase(if o.channel.open then Stage.Running else Stage.Closed, false))
  }

  lemma KeyboardTurnOrder(h: seq<Event>, c: ChannelState, keyboard: Option<Result<bytes>>)
    requires PhaseOf(h) == Phase(Stage.Running, false) && LoopHead(c)
    ensures KeepsOrder(h, KeyboardTurn(c, keyboard))
  {
    var o := KeyboardTurn(c, keyboard);
    if o.events == [] {
      assert h + o.events == h;
    } else {
      PhaseOne(h, o.events[0]);
    }
  }

  /** The message that answers p in a turn of the loop, if any, and where that leaves the session. */
  predicate Answered(p: bytes, o: Outcome, answer: Option<bytes>) {
    var next := Next(Phase(Stage.Running, false), Got(p));
    && o.events == Listed(None, answer)
    && (o.threw ==> answer.None?) && (answer.Some? ==> Number(answer.value) != CHANNEL_DATA)
    && !next.stage.Stuck?
    && (!o.threw ==>
          (if answer.None? then next else Next(next, Sent(answer.value)))
          == Phase(if o.channel.open then Stage.Running else Stage.Closed, false))
  }

  lemma AnswerOrder(p: bytes, c: ChannelState) returns (answer: Option<bytes>)
    requires LoopHead(c) && p != []
    ensures Answered(p, Conclude(p, Handle(p, c)), answer)
  {
    if p[0] == GLOBAL_REQUEST {
      answer := GlobalRequestOrder(p, c);
    } else if p[0] == CHANNEL_CLOSE {
      answer := CloseOrder(p, c);
    } else {
      answer := AbsorbOrder(p, c);
    }
  }

  lemma GlobalRequestOrder(p: bytes, c: ChannelState) returns (answer: Option<bytes>)
    requires LoopHead(c) && p != [] && p[0] == GLOBAL_REQUEST
    ensures Answered(p, Conclude(p, Handle(p, c)), answer)
  {
    answer := if WantsReply(p) then Some([REQUEST_FAILURE]) else None;
  }

  lemma CloseOrder(p: bytes, c: ChannelState) returns (answer: Option<bytes>)
    requires LoopHead(c) && p != [] && p[0] == CHANNEL_CLOSE
    ensures Answered(p, Conclude(p, AnswerClose(p, c)), answer)
  {
    answer := if OnClose(p, c).Success? then Some(CloseMessage(OnClose(p, c).value).value) else None;
  }

  lemma AbsorbOrder(p: bytes, c: ChannelState) returns (answer: Option<bytes>)
    requires LoopHead(c) && p != [] && p[0] != GLOBAL_REQUEST && p[0] != CHANNEL_CLOSE
    ensures Answered(p, Conclude(p, Update(Absorb(p, c), c)), answer)
  {
    if IsPayloadData(p) {
      answer := PayloadOrder(p, c);
    } else {
      answer := None;
      QuietOrder(p, c);
    }
  }

  lemma PayloadOrder(p: bytes, c: ChannelState) returns (answer: Option<bytes>)
    requires LoopHead(c) && p != [] && IsPayloadData(p)
    ensures Answered(p, Conclude(p, Update(Absorb(p, c), c)), answer)
  {
    answer := None;
    var h := Update(Absorb(p, c), c);
    if !h.threw && h.channel.localWindow <= LOCAL_WINDOW_THRESHOLD {
      answer := Some(AdjustMessage(h.channel, LOCAL_WINDOW_TARGET - h.channel.localWindow).value);
    }
  }

  lemma QuietOrder(p: bytes, c: ChannelState)
    requires LoopHead(c) && p != [] && p[0] != GLOBAL_REQUEST && p[0] != CHANNEL_CLOSE && !IsPayloadData(p)
    ensures Answered(p, Conclude(p, Update(Absorb(p, c), c)), None)
  {
  }

  lemma AnswerKeepsOrder(h: seq<Event>, p: bytes, o: Outcome, answer: Option<bytes>)
    requires PhaseOf(h) == Phase(Stage.Running, false) && Answered(p, o, answer)
    ensures KeepsOrder(h, After([Got(p)], o))
  {
    PhaseListed(h, p, answer);
    assert [Got(p)] + Listed(None, answer) == Listed(Some(p), answer);
  }

  lemma SocketTurnOrder(h: seq<Event>, c: ChannelState, packet: Result<bytes>)
    requires PhaseOf(h) == Phase(Stage.Running, false) && LoopHead(c)
    ensures KeepsOrder(h, SocketTurn(c, packet))
  {
    if packet.Failure? {
      assert h + [] == h;
    } else if packet.value == [] {
      PhaseOne(h, Got(packet.value));
    } else {
      var answer := AnswerOrder(packet.value, c);
      AnswerKeepsOrder(h, packet.value, Conclude(packet.value, Handle(packet.value, c)), answer);
    }
  }

  lemma TurnOrder(h: seq<Event>, c: ChannelState, input: Input)
    requires PhaseOf(h) == Phase(Stage.Running, false) && LoopHead(c)
    ensures KeepsOrder(h, Turn(c, input))
  {
    assert h + [] == h;
    if input.poll.Ready? {
      var k := KeyboardTurn(c, input.poll.keyboard);
      KeyboardTurnOrder(h, c, input.poll.keyboard);
      KeyboardTurnGood(c, input.poll.keyboard);
      if !k.threw {
        assert h + k.events + [] == h + k.events;
        SocketTurnOrder(h + k.events, k.channel, input.packet);
        EventsRegroup(h, k.events, SocketPart(k.channel, input).events);
      }
    }
  }

  /** Every run of the loop, against any server, leaves the session in order; a channel that closed ended it. */
  lemma {:induction false} RunOrder(h: seq<Event>, c: ChannelState, inputs: seq<Input>)
    requires PhaseOf(h) == Phase(Stage.Running, false) && LoopHead(c)
    ensures KeepsOrder(h, Run(c, inputs))
  {
    assert h + [] == h;
    if inputs != [] {
      var init := inputs[..|inputs| - 1];
      RunOrder(h, c, init);
      RunGood(c, init);
      var before := Run(c, init);
      if !before.threw && before.channel.open {
        TurnOrder(h + before.events, before.channel, inputs[|inputs| - 1]);
        EventsRegroup(h, before.events, Turn(before.channel, inputs[|inputs| - 1]).events);
      }
    }
  }

  // ---- Grants are paid for ----

  /** What was granted is no more than what was received, and what was missing of a full window at the start. */
  predicate Paid(c: ChannelState, events: seq<Event>) {
    Total(SentPayloads(events), Granted) + c.localWindow <= LOCAL_WINDOW_TARGET + Total(GotPayloads(events), Carried)
  }

  lemma GoodIsPaid(c: ChannelState, o: Outcome)
    requires Good(c, o) && !o.threw
    ensures Paid(c, o.events)
  {
  }

  lemma NoGrantIsPaid(c: ChannelState, got: Option<bytes>, sent: Option<bytes>)
    requires c.localWindow <= LOCAL_WINDOW_TARGET && Measured(sent, Granted) == 0
    ensures Paid(c, Listed(got, sent))
  {
    ListedSums(got, sent, Granted);
    ListedSums(got, sent, Carried);
  }

  /** A message that makes the turn throw is not answered. */
  lemma SocketTurnPaid(c: ChannelState, packet: Result<bytes>)
    requires LoopHead(c)
    ensures Paid(c, SocketTurn(c, packet).events)
  {
    SocketTurnGood(c, packet);
    if !SocketTurn(c, packet).threw {
      GoodIsPaid(c, SocketTurn(c, packet));
    } else if packet.Failure? {
      NoGrantIsPaid(c, None, None);
    } else {
      if packet.value != [] {
        var answer := AnswerOrder(packet.value, c);
      }
      assert SocketTurn(c, packet).events == Listed(Some(packet.value), None);
      NoGrantIsPaid(c, Some(packet.value), None);
    }
  }

  lemma KeyboardTurnPaid(c: ChannelState, keyboard: Option<Result<bytes>>)
    requires LoopHead(c)
    ensures Paid(c, KeyboardTurn(c, keyboard).events)
  {
    KeyboardTurnGood(c, keyboard);
    if KeyboardTurn(c, keyboard).threw {
      NoGrantIsPaid(c, None, None);
    }
  }

  /** Two stretches, of which the first ended at a loop head. */
  lemma PaidThen(c: ChannelState, a: Outcome, b: seq<Event>)
    requires Good(c, a) && !a.threw && Paid(a.channel, b)
    ensures Paid(c, a.events + b)
  {
    PayloadsConcat(a.events, b);
    TotalConcat(SentPayloads(a.events), SentPayloads(b), Granted);
    TotalConcat(GotPayloads(a.events), GotPayloads(b), Carried);
  }

  /** Whether it throws or not, a turn grants no more than that. */
  lemma TurnPaid(c: ChannelState, input: Input)
    requires LoopHead(c)
    ensures Paid(c, Turn(c, input).events)
  {
    NoGrantIsPaid(c, None, None);
    if input.poll.Ready? {
      var k := KeyboardTurn(c, input.poll.keyboard);
      KeyboardTurnPaid(c, input.poll.keyboard);
      if !k.threw {
        KeyboardTurnGood(c, input.poll.keyboard);
        NoGrantIsPaid(k.channel, None, None);
        SocketTurnPaid(k.channel, input.packet);
        PaidThen(c, k, SocketPart(k.channel, input).events);
      }
    }
  }

  lemma {:induction false} RunPaid(c: ChannelState, inputs: seq<Input>)
    requires LoopHead(c)
    ensures Paid(c, Run(c, inputs).events)
  {
    NoGrantIsPaid(c, None, None);
    if inputs != [] {
      var init := inputs[..|inputs| - 1];
      var before := Run(c, init);
      RunPaid(c, init);
      RunGood(c, init);
      if !before.threw && before.channel.open {
        TurnPaid(before.channel, inputs[|inputs| - 1]);
        PaidThen(c, before, Turn(before.channel, inputs[|inputs| - 1]).events);
      }
    }
  }

  /**
    * Whether the run throws or not: half a window for each grant is covered by the bytes received and by what was
    * missing of a full window at the start.
    */
  lemma GrantsArePaidFor(c: ChannelState, inputs: seq<Input>)
    requires LoopHead(c)
    ensures var events := Run(c, inputs).events;
            524288 * Total(SentPayloads(events), IsGrant)
              <= Total(GotPayloads(events), Carried) + LOCAL_WINDOW_TARGET - c.localWindow
  {
    RunPaid(c, inputs);
    RunGood(c, inputs);
    SentPayloadsAreOk(c.remoteId, Run(c, inputs).events);
    GrantsAreLarge(c.remoteId, SentPayloads(Run(c, inputs).events));
  }

  // ---- What is typed is what is sent ----

  /** The data of the data messages among some, one after another. */
  function DataIn(messages: seq<bytes>): bytes {
    if messages == [] then [] else
    DataIn(messages[..|messages| - 1]) + DataOf(messages[|messages| - 1])
  }

  function DataOf(p: bytes): bytes {
    if |p| >= 9 && p[0] == 94 then p[9..] else []
  }

  lemma {:induction false} DataConcat(a: seq<bytes>, b: seq<bytes>)
    ensures DataIn(a + b) == DataIn(a) + DataIn(b)
  {
    if b == [] {
      assert a + b == a;
    } else {
      var init, last := b[..|b| - 1], DataOf(b[|b| - 1]);
      DataConcat(a, init);
      assert (a + b)[..|a + b| - 1] == a + init && (a + b)[|a + b| - 1] == b[|b| - 1];
      assert (DataIn(a) + DataIn(init)) + last == DataIn(a) + (DataIn(init) + last);
    }
  }

  /** What one read of the keyboard takes: no more than a buffer, the window for sending, and a packet. */
  function TypedAt(poll: Poll, window: nat, packet: nat): bytes {
    if poll.Ready? && poll.keyboard.Some? && poll.keyboard.value.Success?
    then var typed := poll.keyboard.value.value; typed[..Min(|typed|, Min(1024, Min(window, packet)))]
    else []
  }

  /** The window for sending after some events, by the books. */
  function WindowAfter(c: ChannelState, events: seq<Event>): int {
    c.remoteWindow + Total(GotPayloads(events), Granted) - Total(SentPayloads(events), Carried)
  }

  /** What the user typed in the turns of a run that were taken. */
  function Typed(c: ChannelState, inputs: seq<Input>): bytes {
    if inputs == [] then [] else
    var init, last := inputs[..|inputs| - 1], inputs[|inputs| - 1];
    var before := Run(c, init);
    Typed(c, init)
      + if before.threw || !before.channel.open || WindowAfter(c, before.events) < 0 then []
        else TypedAt(last.poll, WindowAfter(c, before.events), c.remoteMaxPacket)
  }

  lemma OneData(m: bytes)
    ensures DataIn([m]) == if |m| >= 9 && m[0] == 94 then m[9..] else []
  {
    var one := [m];
    assert one[..0] == [] && DataIn(one[..0]) == [];
  }

  lemma ListedData(got: Option<bytes>, sent: Option<bytes>)
    ensures DataIn(SentPayloads(Listed(got, sent))) == if sent.Some? then DataIn([sent.value]) else []
  {
    ListedPayloads(got, sent);
  }

  lemma ListedPayloads(got: Option<bytes>, sent: Option<bytes>)
    ensures SentPayloads(Listed(got, sent)) == if sent.Some? then [sent.value] else []
    ensures GotPayloads(Listed(got, sent)) == if got.Some? then [got.value] else []
  {
    var g: seq<Event> := if got.Some? then [Got(got.value)] else [];
    var s: seq<Event> := if sent.Some? then [Sent(sent.value)] else [];
    PayloadsConcat(g, s);
    assert g != [] ==> g[..0] == [];
    assert s != [] ==> s[..0] == [];
  }

  lemma KeyboardTurnSends(c: ChannelState, poll: Poll)
    requires LoopHead(c) && poll.Ready?
    ensures DataIn(SentPayloads(KeyboardTurn(c, poll.keyboard).events))
         == TypedAt(poll, c.remoteWindow, c.remoteMaxPacket)
  {
    var o := KeyboardTurn(c, poll.keyboard);
    if o.events == [] {
      ListedData(None, None);
    } else {
      var data := poll.keyboard.value.value[..Min(|poll.keyboard.value.value|, MaxRead(c))];
      DataMessageRead(c, data);
      var m := DataMessage(c, data).value;
      assert o.events == Listed(None, Some(m));
      ListedData(None, Some(m));
      OneData(m);
    }
  }

  lemma SocketTurnSendsNoData(c: ChannelState, packet: Result<bytes>)
    requires LoopHead(c)
    ensures DataIn(SentPayloads(SocketTurn(c, packet).events)) == []
  {
    if packet.Failure? {
      ListedData(None, None);
    } else {
      var answer: Option<bytes> := None;
      if packet.value != [] {
        answer := AnswerOrder(packet.value, c);
        if answer.Some? {
          OneData(answer.value);
        }
      }
      assert SocketTurn(c, packet).events == Listed(Some(packet.value), answer);
      ListedData(Some(packet.value), answer);
    }
  }

  lemma DataThen(a: seq<Event>, b: seq<Event>)
    ensures DataIn(SentPayloads(a + b)) == DataIn(SentPayloads(a)) + DataIn(SentPayloads(b))
  {
    PayloadsConcat(a, b);
    DataConcat(SentPayloads(a), SentPayloads(b));
  }

  lemma TurnSends(c: ChannelState, input: Input)
    requires LoopHead(c)
    ensures DataIn(SentPayloads(Turn(c, input).events)) == TypedAt(input.poll, c.remoteWindow, c.remoteMaxPacket)
  {
    ListedData(None, None);
    if input.poll.Ready? {
      var k := KeyboardTurn(c, input.poll.keyboard);
      KeyboardTurnSends(c, input.poll);
      KeyboardTurnGood(c, input.poll.keyboard);
      if !k.threw {
        SocketTurnSendsNoData(k.channel, input.packet);
        DataThen(k.events, SocketPart(k.channel, input).events);
      }
    }
  }

  /**
    * For every run, also one that throws: the data sent is what was typed, in order, each read cut to the buffer, the
    * window and the packet size.
    */
  lemma {:induction false} TypedIsSent(c: ChannelState, inputs: seq<Input>)
    requires LoopHead(c)
    ensures DataIn(SentPayloads(Run(c, inputs).events)) == Typed(c, inputs)
  {
    if inputs != [] {
      var init, last := inputs[..|inputs| - 1], inputs[|inputs| - 1];
      var before := Run(c, init);
      TypedIsSent(c, init);
      RunGood(c, init);
      if !before.threw && before.channel.open {
        TurnSends(before.channel, last);
        DataThen(before.events, Turn(before.channel, last).events);
      }
    }
  }

  // ---- Exactly when a turn returns ----

  /** The channel when the keyboard has been read. */
  function TypedOn(c: ChannelState, poll: Poll): ChannelState {
    c.(remoteWindow := c.remoteWindow - |TypedAt(poll, c.remoteWindow, c.remoteMaxPacket)|)
  }

  lemma KeyboardTurnReturns(c: ChannelState, poll: Poll)
    requires LoopHead(c) && poll.Ready?
    ensures var o := KeyboardTurn(c, poll.keyboard);
            && (!o.threw <==> c.remoteWindow == 0 || poll.keyboard.None? || poll.keyboard.value.Success?)
            && (!o.threw ==> o.channel == TypedOn(c, poll))
  {
  }

  lemma SocketTurnCloses(p: bytes, c: ChannelState)
    requires LoopHead(c) && Expected(p, c)
    ensures SocketTurn(c, Success(p)).channel.open <==> !IsBare(p, CHANNEL_CLOSE, c.localId)
  {
    SocketTurnReturns(p, c);
    var sent := HandleGood(p, c);
  }

  /**
    * From a loop head a turn returns if and only if poll(2) was interrupted, or it succeeded, the keyboard could be
    * read if it was, a readable socket has a packet that is expected, and a socket in error has brought the CLOSE.
    */
  lemma TurnReturns(c: ChannelState, input: Input)
    requires LoopHead(c)
    ensures !Turn(c, input).threw <==>
      match input.poll
      case Interrupted => true
      case PollFailed => false
      case Ready(keyboard, socketReadable, socketError) =>
        && (c.remoteWindow == 0 || keyboard.None? || keyboard.value.Success?)
        && (socketReadable ==> input.packet.Success? && Expected(input.packet.value, TypedOn(c, input.poll)))
        && (socketError ==> socketReadable && IsBare(input.packet.value, CHANNEL_CLOSE, c.localId))
  {
    if input.poll.Ready? {
      KeyboardTurnReturns(c, input.poll);
      KeyboardTurnGood(c, input.poll.keyboard);
      var k := KeyboardTurn(c, input.poll.keyboard);
      if !k.threw && input.poll.socketReadable && input.packet.Success? {
        SocketTurnReturns(input.packet.value, k.channel);
        if Expected(input.packet.value, k.channel) {
          SocketTurnCloses(input.packet.value, k.channel);
        }
      }
    }
  }

  // ---- The exit status ----

  /** The status that a channel holds. */
  function StatusOf(c: ChannelState): Option<u32> {
    if c.exitStatusReceived then Some(c.exitStatus) else None
  }

  /** Any exit-status message among these is the first, and tells this status; if there is none, it is as it was. */
  ghost predicate Tells(before: Option<u32>, got: seq<bytes>, id: u32, after: Option<u32>) {
    && (forall i :: 0 <= i < |got| && IsExitStatus(got[i], id) ==> before.None? && after == Some(U32At(got[i], 21)))
    && (after == before || exists i :: 0 <= i < |got| && IsExitStatus(got[i], id))
  }

  lemma TellsThen(before: Option<u32>, a: seq<bytes>, middle: Option<u32>, b: seq<bytes>, after: Option<u32>, id: u32)
    requires Tells(before, a, id, middle) && Tells(middle, b, id, after)
    ensures Tells(before, a + b, id, after)
  {
    assert forall i :: 0 <= i < |a| ==> (a + b)[i] == a[i];
    assert forall i :: 0 <= i < |b| ==> (a + b)[|a| + i] == b[i];
    if i :| 0 <= i < |a| && IsExitStatus(a[i], id) {
      assert forall k :: 0 <= k < |b| ==> !IsExitStatus(b[k], id);
      assert (a + b)[i] == a[i];
    } else if after != middle {
      var k :| 0 <= k < |b| && IsExitStatus(b[k], id);
      assert (a + b)[|a| + k] == b[k];
    }
    forall i | 0 <= i < |a + b| && IsExitStatus((a + b)[i], id)
      ensures before.None? && after == Some(U32At((a + b)[i], 21))
    {
      assert if i < |a| then (a + b)[i] == a[i] else (a + b)[i] == b[i - |a|];
    }
  }

  /** What a stretch of a session that did not throw does to the status. */
  ghost predicate TellsStatus(c: ChannelState, o: Outcome) {
    !o.threw ==>
      o.channel.localId == c.localId && Tells(StatusOf(c), GotPayloads(o.events), c.localId, StatusOf(o.channel))
  }

  lemma StatusThen(c: ChannelState, a: Outcome, b: Outcome)
    requires TellsStatus(c, a) && !a.threw && TellsStatus(a.channel, b)
    ensures TellsStatus(c, After(a.events, b))
  {
    PayloadsConcat(a.events, b.events);
    if !b.threw {
      TellsThen(StatusOf(c), GotPayloads(a.events), StatusOf(a.channel), GotPayloads(b.events), StatusOf(b.channel),
                c.localId);
    }
  }

  lemma KeyboardTurnStatus(c: ChannelState, keyboard: Option<Result<bytes>>)
    ensures TellsStatus(c, KeyboardTurn(c, keyboard))
  {
    NothingGot(KeyboardTurn(c, keyboard).events);
  }

  lemma HandleStatus(p: bytes, c: ChannelState)
    requires p != []
    ensures var h := Handle(p, c);
            !h.threw ==> h.channel.localId == c.localId
                         && Tells(StatusOf(c), [p], c.localId, StatusOf(h.channel))
  {
    var one := [p];
    assert one[0] == p;
  }

  lemma SettleStatus(p: bytes, c: ChannelState)
    requires p != []
    ensures var s := Settle(p, c); !s.threw ==> s.channel.localId == c.localId && StatusOf(s.channel) == StatusOf(c)
  {
  }

  lemma SocketTurnStatus(c: ChannelState, packet: Result<bytes>)
    ensures TellsStatus(c, SocketTurn(c, packet))
  {
    if packet.Success? && packet.value != [] {
      var p := packet.value;
      var h := Handle(p, c);
      HandleStatus(p, c);
      SettleStatus(p, h.channel);
      ConcludeGetsNothing(p, c);
      GotFirst(p, Conclude(p, h).events);
    }
  }

  lemma GotFirst(p: bytes, events: seq<Event>)
    requires GotPayloads(events) == []
    ensures GotPayloads([Got(p)] + events) == [p]
  {
    PayloadsConcat([Got(p)], events);
    assert [Got(p)][..0] == [];
  }

  lemma TurnStatus(c: ChannelState, input: Input)
    ensures TellsStatus(c, Turn(c, input))
  {
    if input.poll.Ready? {
      var k := KeyboardTurn(c, input.poll.keyboard);
      KeyboardTurnStatus(c, input.poll.keyboard);
      if !k.threw {
        SocketTurnStatus(k.channel, input.packet);
        StatusThen(c, k, SocketPart(k.channel, input));
      }
    }
  }

  /** Every run that does not throw holds the status that the server told, if it did. */
  lemma {:induction false} RunStatus(c: ChannelState, inputs: seq<Input>)
    ensures TellsStatus(c, Run(c, inputs))
  {
    if inputs != [] {
      var init := inputs[..|inputs| - 1];
      var before := Run(c, init);
      RunStatus(c, init);
      if !before.threw && before.channel.open {
        TurnStatus(before.channel, inputs[|inputs| - 1]);
        StatusThen(c, before, Turn(before.channel, inputs[|inputs| - 1]));
      }
    }
  }

  // ---- A turn taken step by step, from a history h ----

  lemma ArrivalStep(p: bytes, c: ChannelState, h: seq<Event>)
    requires p != []
    ensures After(h, SocketTurn(c, Success(p))) == After(h + [Got(p)], Conclude(p, Handle(p, c)))
    ensures h + [Got(p)] <= After(h + [Got(p)], Conclude(p, Handle(p, c))).events
  {
    EventsRegroup(h, [Got(p)], Conclude(p, Handle(p, c)).events);
  }

  lemma {:induction false} NothingGot(events: seq<Event>)
    requires forall i :: 0 <= i < |events| ==> events[i].Sent?
    ensures GotPayloads(events) == []
  {
    if events != [] {
      NothingGot(events[..|events| - 1]);
    }
  }

  lemma HandleGetsNothing(p: bytes, c: ChannelState)
    requires p != []
    ensures GotPayloads(Handle(p, c).events) == []
  {
    NothingGot(Handle(p, c).events);
  }

  lemma SettleGetsNothing(p: bytes, c: ChannelState)
    requires p != []
    ensures GotPayloads(Settle(p, c).events) == []
  {
    NothingGot(Settle(p, c).events);
  }

  lemma ThenGetsNothing(a: Outcome, b: Outcome)
    requires GotPayloads(a.events) == [] && GotPayloads(b.events) == []
    ensures GotPayloads(Then(a, b).events) == []
  {
    PayloadsConcat(a.events, b.events);
  }

  lemma ConcludeGetsNothing(p: bytes, c: ChannelState)
    requires p != []
    ensures GotPayloads(Conclude(p, Handle(p, c)).events) == []
  {
    HandleGetsNothing(p, c);
    SettleGetsNothing(p, Handle(p, c).channel);
    ThenGetsNothing(Handle(p, c), Settle(p, Handle(p, c).channel));
  }

  lemma SocketTurnReads(c: ChannelState, packet: Result<bytes>)
    ensures GotPayloads(SocketTurn(c, packet).events) == if packet.Success? then [packet.value] else []
  {
    if packet.Success? {
      var one := [Got(packet.value)];
      assert one[..0] == [] && GotPayloads(one) == [packet.value];
      if packet.value != [] {
        ConcludeGetsNothing(packet.value, c);
        PayloadsConcat(one, Conclude(packet.value, Handle(packet.value, c)).events);
      }
    }
  }

  /** A turn whose keyboard part did not throw read the message that arrived if the socket was readable. */
  lemma TurnReads(c: ChannelState, input: Input)
    requires input.poll.Ready? && !KeyboardTurn(c, input.poll.keyboard).threw
    ensures GotPayloads(Turn(c, input).events)
         == if input.poll.socketReadable && input.packet.Success? then [input.packet.value] else []
  {
    var k := KeyboardTurn(c, input.poll.keyboard);
    NothingGot(k.events);
    SocketTurnReads(k.channel, input.packet);
    PayloadsConcat(k.events, SocketPart(k.channel, input).events);
  }
}
