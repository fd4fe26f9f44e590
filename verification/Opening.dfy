/**
  * The waits for pty-req and shell against a conforming server: which of its messages they survive, and that they
  * lead to the state in which `FlowControl` begins.
  */
module Opening {
  import opened Prelude
  import opened Encoding
  import opened History
  import opened Messages
  import opened Shell
  import opened Requests
  import FlowControl

  function ConfirmationMessage(id: u32, s: ChannelState): bytes {
    [CHANNEL_OPEN_CONFIRMATION] + U32(id) + U32(s.localId) + U32(s.localWindow) + U32(s.localMaxPacket)
  }

  /**
    * Of the messages that a conforming server may send once the channel is open, a wait survives exactly the global
    * requests and the grants: data, end of file, an exit status or a close that come before the shell has been
    * granted make the client throw, although section 5.2 of RFC 4254 lets the server send data by then.
    */
  lemma ConformingMessagesInWait(d: FlowControl.Duplex, p: bytes)
    requires FlowControl.ServerMay(d, p) && d.server.remoteId == d.client.localId && d.client.open
    requires d.client.remoteWindow + Granted(p) < TWO_32
    ensures React(RequestResult, p, d.client).Refused?
         <==> !IsGlobalRequest(p) && !IsAdjust(p, d.client.localId)
    ensures IsData(p, d.client.localId) ==> React(RequestResult, p, d.client).Refused?
  {
  }

  /**
    * What may arrive while a request is pending: global requests, and grants that do not overflow the room left in
    * the window for sending, up to the result.
    */
  predicate Survivable(arriving: seq<bytes>, id: u32, room: nat) {
    arriving != [] &&
    var p := arriving[0];
    || IsBare(p, CHANNEL_SUCCESS, id)
    || (IsGlobalRequest(p) && Survivable(arriving[1..], id, room))
    || (IsAdjust(p, id) && 0 < Granted(p) <= room && Survivable(arriving[1..], id, room - Granted(p)))
  }

  function Room(c: ChannelState): nat {
    TWO_32 - 1 - c.remoteWindow
  }

  /** A wait returns exactly if what arrives is survivable. */
  lemma {:induction false} WaitReturns(arriving: seq<bytes>, c: ChannelState)
    requires c.open
    ensures !Await(RequestResult, arriving, c).threw <==> Survivable(arriving, c.localId, Room(c))
    decreases |arriving|
  {
    if arriving != [] {
      var p := arriving[0];
      WaitStep(p, c);
      match React(RequestResult, p, c)
      case Again(d, _) =>
        WaitReturns(arriving[1..], d);
      case _ =>
    }
  }

  /** What may arrive before the confirmation: global requests. */
  predicate Confirmable(arriving: seq<bytes>, id: u32) {
    arriving != [] &&
    var p := arriving[0];
    || (IsOpenConfirmation(p, id) && U32At(p, 13) >= 32768)
    || (IsGlobalRequest(p) && Confirmable(arriving[1..], id))
  }

  /** Opening the channel returns exactly if only global requests arrive before a confirmation that is acceptable. */
  lemma {:induction false} OpeningReturns(arriving: seq<bytes>, c: ChannelState)
    requires !c.open
    ensures !Await(OpenConfirmation, arriving, c).threw <==> Confirmable(arriving, c.localId)
    decreases |arriving|
  {
    if arriving != [] {
      OpeningStep(arriving[0], c);
      match React(OpenConfirmation, arriving[0], c)
      case Again(d, _) =>
        OpeningReturns(arriving[1..], d);
      case _ =>
    }
  }

  lemma OpeningStep(p: bytes, c: ChannelState)
    requires !c.open
    ensures var r := React(OpenConfirmation, p, c);
            && (r.Done? <==> IsOpenConfirmation(p, c.localId) && U32At(p, 13) >= 32768)
            && (r.Again? <==> IsGlobalRequest(p)) && (r.Again? ==> r.channel == c)
  {
  }

  lemma WaitStep(p: bytes, c: ChannelState)
    requires c.open
    ensures var r, id := React(RequestResult, p, c), c.localId;
            && (r.Done? <==> IsBare(p, CHANNEL_SUCCESS, id))
            && (r.Again? <==> IsGlobalRequest(p) || (IsAdjust(p, id) && 0 < Granted(p) <= Room(c)))
            && (r.Again? ==> r.channel == Credited(c, c.remoteWindow + Granted(p)))
            && (r.Again? && IsGlobalRequest(p) ==> Granted(p) == 0)
  {
    ReactionCredits(p, c);
  }

  /** The record of a server that has accepted our session with these values. */
  function ServerRecord(id: u32, window: u32, maxPacket: u32): ChannelState {
    ChannelState(id, INITIAL_CHANNEL_ID, window, LOCAL_WINDOW_TARGET, maxPacket, LOCAL_MAX_PACKET_SIZE,
                 true, false, false, false, false, 0)
  }

  /** A confirmation makes the client's record agree with the server's. */
  lemma ConfirmationRead(s: ChannelState, id: u32)
    requires s == ServerRecord(s.localId, s.localWindow, s.localMaxPacket) && s.localMaxPacket >= MIN_MAX_PACKET_SIZE
    requires id == INITIAL_CHANNEL_ID
    ensures var c := OnOpenConfirmation(ConfirmationMessage(id, s), NEW_CHANNEL);
            && c.Success? && WindowsAgree(c.value, s) && WindowsAgree(s, c.value)
            && c.value == NEW_CHANNEL.(remoteId := s.localId, remoteWindow := s.localWindow,
                                       remoteMaxPacket := s.localMaxPacket, open := true)
  {
    var p := ConfirmationMessage(id, s);
    assert p[1..5] == U32(id) && p[5..9] == U32(s.localId);
    assert p[9..13] == U32(s.localWindow) && p[13..17] == U32(s.localMaxPacket);
  }

  /**
    * After the confirmation, and both waits, whatever grants and global requests were in them, the two ends are in an
    * initial state of the flow-control model: the server's record has grown by the grants that it sent.
    */
  lemma OpeningLeadsToInitial(s: ChannelState, c: ChannelState, first: seq<bytes>, granted: Outcome,
                              second: seq<bytes>, started: Outcome)
    requires s == ServerRecord(s.localId, s.localWindow, s.localMaxPacket) && s.localMaxPacket >= MIN_MAX_PACKET_SIZE
    requires OnOpenConfirmation(ConfirmationMessage(c.localId, s), NEW_CHANNEL) == Success(c)
    requires granted == Await(RequestResult, first, c) && !granted.threw
    requires started == Await(RequestResult, second, granted.channel) && !started.threw
    ensures var window := s.localWindow + Total(GotPayloads(granted.events), Granted)
                          + Total(GotPayloads(started.events), Granted);
            window < TWO_32
            && FlowControl.Initial(
                 FlowControl.Duplex(started.channel, s.(localWindow := window), [], [], [], false, false, false))
  {
    ConfirmationRead(s, c.localId);
    AwaitOnlyCredits(first, c);
    AwaitOnlyCredits(second, granted.channel);
    AgreedIsInitial(s, c, started.channel, started.channel.remoteWindow);
  }

  lemma AgreedIsInitial(s: ChannelState, c: ChannelState, started: ChannelState, window: u32)
    requires s == ServerRecord(s.localId, s.localWindow, s.localMaxPacket) && s.localMaxPacket >= MIN_MAX_PACKET_SIZE
    requires c == NEW_CHANNEL.(remoteId := s.localId, remoteWindow := s.localWindow,
                               remoteMaxPacket := s.localMaxPacket, open := true)
    requires started == Credited(c, window)
    ensures FlowControl.Initial(FlowControl.Duplex(started, s.(localWindow := window), [], [], [], false, false, false))
  {
  }

  // ---- An instance of the difference ----

  lemma DataAllowed(d: FlowControl.Duplex, p: bytes)
    requires IsData(p, d.server.remoteId) && !d.server.localCloseSent && Carried(p) <= d.server.remoteWindow
    requires Carried(p) <= LOCAL_MAX_PACKET_SIZE && Granted(p) == 0
    ensures FlowControl.ServerMay(d, p)
  {
  }

  lemma DataRefused(p: bytes, c: ChannelState)
    requires IsData(p, c.localId)
    ensures Await(RequestResult, [p], c).threw
  {
  }

  /**
    * The server's first byte of data, sent as soon as it has confirmed the channel, is allowed, and makes a wait for
    * the terminal or the shell throw.
    */
  lemma EarlyDataIsRefused(s: ChannelState, b: byte)
    requires s == ServerRecord(s.localId, s.localWindow, s.localMaxPacket) && s.localMaxPacket >= MIN_MAX_PACKET_SIZE
    ensures var c := OnOpenConfirmation(ConfirmationMessage(INITIAL_CHANNEL_ID, s), NEW_CHANNEL);
            var m := DataMessage(s, [b]);
            && c.Success? && m.Success?
            && FlowControl.ServerMay(FlowControl.Duplex(c.value, s, [], [], [], false, false, false), m.value)
            && Await(RequestResult, [m.value], c.value).threw
  {
    var data := [b];
    ConfirmationRead(s, INITIAL_CHANNEL_ID);
    DataMessageRead(s, data);
    var c := OnOpenConfirmation(ConfirmationMessage(INITIAL_CHANNEL_ID, s), NEW_CHANNEL).value;
    DataAllowed(FlowControl.Duplex(c, s, [], [], [], false, false, false), DataMessage(s, data).value);
    DataRefused(DataMessage(s, data).value, c);
  }

  // ---- A conforming server never makes the session throw ----

  /** When all three requests are granted, the channel is what the confirmation made it, with the grants since then. */
  lemma RequestsLead(t: Terminal, block: nat, arriving: seq<bytes>, o: Outcome, ready: Outcome)
    requires block > 0 && ready == Conversation(SessionAsks(t), block, arriving, NEW_CHANNEL, []) && !ready.threw
    requires o == Await(OpenConfirmation, arriving, NEW_CHANNEL)
    ensures !o.threw && ready.channel == Credited(o.channel, ready.channel.remoteWindow)
  {
    var rest := [AskPty(t)] + ([AskShell] + []);
    ConversationStep(AskOpen, rest, block, arriving, NEW_CHANNEL, []);
    var asked := Request(SessionOpenMessage(NEW_CHANNEL), block, OpenConfirmation, arriving, NEW_CHANNEL);
    RequestsOnlyCredit(rest, block, Rest(arriving, asked), asked.channel);
  }

  lemma ConfirmedAs(arriving: seq<bytes>, s: ChannelState, o: Outcome)
    requires s == ServerRecord(s.localId, s.localWindow, s.localMaxPacket) && s.localMaxPacket >= MIN_MAX_PACKET_SIZE
    requires o == Await(OpenConfirmation, arriving, NEW_CHANNEL) && !o.threw
    requires o.events != [] && o.events[|o.events| - 1] == Got(ConfirmationMessage(INITIAL_CHANNEL_ID, s))
    ensures o.channel == NEW_CHANNEL.(remoteId := s.localId, remoteWindow := s.localWindow,
                                      remoteMaxPacket := s.localMaxPacket, open := true)
  {
    AwaitOpensByConfirmation(arriving, NEW_CHANNEL);
    ConfirmationRead(s, INITIAL_CHANNEL_ID);
  }

  /** When all three requests are granted, the two ends are in an initial state of the flow-control model. */
  lemma ReadyIsInitial(t: Terminal, block: nat, arriving: seq<bytes>, s: ChannelState, o: Outcome, ready: Outcome)
    requires block > 0 && ready == Conversation(SessionAsks(t), block, arriving, NEW_CHANNEL, []) && !ready.threw
    requires s == ServerRecord(s.localId, s.localWindow, s.localMaxPacket) && s.localMaxPacket >= MIN_MAX_PACKET_SIZE
    requires o == Await(OpenConfirmation, arriving, NEW_CHANNEL)
    requires o.events != [] && o.events[|o.events| - 1] == Got(ConfirmationMessage(INITIAL_CHANNEL_ID, s))
    ensures FlowControl.Initial(
              FlowControl.Duplex(ready.channel, s.(localWindow := ready.channel.remoteWindow), [], [], [],
                                 false, false, false))
  {
    RequestsLead(t, block, arriving, o, ready);
    ConfirmedAs(arriving, s, o);
    AgreedIsInitial(s, o.channel, ready.channel, ready.channel.remoteWindow);
  }

  /**
    * So once the three requests are granted, a server that conforms from there on never makes the session throw, and
    * the channel ends up as the client's end of the flow-control model.
    */
  lemma ConformingServerIsServed(t: Terminal, block: nat, arriving: seq<bytes>, actions: seq<FlowControl.Action>,
                                 states: seq<FlowControl.Duplex>)
    requires block > 0 && !Conversation(SessionAsks(t), block, arriving, NEW_CHANNEL, []).threw
    requires FlowControl.Run(actions, states)
    requires var ready := Conversation(SessionAsks(t), block, arriving, NEW_CHANNEL, []);
             states[0].client == ready.channel && FlowControl.MessagesOf(actions) <= Rest(arriving, ready)
    ensures var o := Conversation(SessionAsks(t), block, arriving, NEW_CHANNEL, FlowControl.PollsOf(actions));
            !o.threw && o.channel == states[|actions|].client
  {
    var ready := Conversation(SessionAsks(t), block, arriving, NEW_CHANNEL, []);
    LoopFollows(SessionAsks(t), block, arriving, NEW_CHANNEL, FlowControl.PollsOf(actions));
    assert actions[..|actions|] == actions;
    FlowControl.TurnsAreRun(actions, states, |actions|, Rest(arriving, ready));
  }
}
