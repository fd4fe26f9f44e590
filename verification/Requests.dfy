/**
  * The waiting loops of open_session_channel and wait_for_channel_request_result in src/main.cpp, as functions
  * of the bytes the server will deliver, and what they keep for every such stream.
  */
module Requests {
  import opened Prelude
  import opened Encoding
  import opened History
  import opened Messages
  import opened Shell
  import opened Trace
  import Framing

  datatype Awaited = OpenConfirmation | RequestResult

  /** What one received message does to the wait. */
  datatype Reaction = Done(channel: ChannelState) | Again(channel: ChannelState, reply: Option<bytes>) | Refused

  function React(w: Awaited, p: bytes, c: ChannelState): Reaction {
    if p == [] then Refused
    else if p[0] == GLOBAL_REQUEST then
      if IsGlobalRequest(p) then Again(c, if WantsReply(p) then Some([REQUEST_FAILURE]) else None) else Refused
    else if w.OpenConfirmation? then
      if p[0] == CHANNEL_OPEN_CONFIRMATION && OnOpenConfirmation(p, c).Success?
      then Done(OnOpenConfirmation(p, c).value) else Refused
    else if p[0] == CHANNEL_SUCCESS then
      if IsBare(p, CHANNEL_SUCCESS, c.localId) then Done(c) else Refused
    else if p[0] == CHANNEL_WINDOW_ADJUST && OnAdjust(p, c).Success? then Again(OnAdjust(p, c).value, None)
    else Refused
  }

  /** The wait, given the messages that will arrive. It ends, because there are finitely many. */
  function Await(w: Awaited, arriving: seq<bytes>, c: ChannelState): Outcome {
    if arriving == [] then Outcome(c, [], true) else
    match React(w, arriving[0], c)
    case Refused => Outcome(c, [Got(arriving[0])], true)
    case Done(d) => Outcome(d, [Got(arriving[0])], false)
    case Again(d, reply) =>
      After(Listed(Some(arriving[0]), reply), Await(w, arriving[1..], d))
  }

  function Replies(reply: Option<bytes>): seq<Event> {
    if reply.Some? then [Sent(reply.value)] else []
  }

  /** The messages that are left when an outcome has read its own. */
  function Rest(arriving: seq<bytes>, o: Outcome): seq<bytes> {
    var k := |GotPayloads(o.events)|;
    if k <= |arriving| then arriving[k..] else []
  }

  /** One message of a wait that begins with history h. */
  lemma AwaitStep(w: Awaited, arriving: seq<bytes>, c: ChannelState, h: seq<Event>)
    requires arriving != []
    ensures var o, got, r := After(h, Await(w, arriving, c)), h + [Got(arriving[0])], React(w, arriving[0], c);
            && got <= o.events
            && (r.Refused? ==> o == Outcome(c, got, true))
            && (r.Done? ==> o == Outcome(r.channel, got, false))
            && (r.Again? ==> o == After(got + Replies(r.reply), Await(w, arriving[1..], r.channel)))
  {
    var r := React(w, arriving[0], c);
    if r.Again? {
      ListedAfter(h, arriving[0], r.reply, Await(w, arriving[1..], r.channel).events);
    }
  }

  /** What one message of a wait leaves to arrive. */
  lemma AwaitRest(w: Awaited, arriving: seq<bytes>, c: ChannelState)
    requires arriving != []
    ensures var r := React(w, arriving[0], c);
            Rest(arriving, Await(w, arriving, c))
            == if r.Again? then Rest(arriving[1..], Await(w, arriving[1..], r.channel)) else arriving[1..]
  {
    var r := React(w, arriving[0], c);
    OneGot(arriving[0]);
    if r.Again? {
      ListedBefore(arriving[0], r.reply, Await(w, arriving[1..], r.channel).events);
    }
  }

  lemma ListedAfter(h: seq<Event>, m: bytes, reply: Option<bytes>, rest: seq<Event>)
    ensures h + (Listed(Some(m), reply) + rest) == (h + [Got(m)] + Replies(reply)) + rest
    ensures h + [Got(m)] <= h + (Listed(Some(m), reply) + rest)
  {
  }

  /** A request is sent, unless it cannot be built or does not fit a packet, and its result awaited. */
  function Request(message: Result<bytes>, block: nat, w: Awaited, arriving: seq<bytes>, c: ChannelState): Outcome
    requires block > 0
  {
    if message.Failure? || !Framing.Sendable(|message.value|, block) then Outcome(c, [], true) else
    After([Sent(message.value)], Await(w, arriving, c))
  }

  lemma RequestStep(message: bytes, block: nat, w: Awaited, arriving: seq<bytes>, c: ChannelState, h: seq<Event>)
    requires block > 0
    ensures After(h, Request(Success(message), block, w, arriving, c))
         == if Framing.Sendable(|message|, block) then After(h + [Sent(message)], Await(w, arriving, c))
           else Outcome(c, h, true)
    ensures h + [Sent(message)] <= After(h + [Sent(message)], Await(w, arriving, c)).events
  {
    EventsRegroup(h, [Sent(message)], Await(w, arriving, c).events);
  }

  /** What one message and its answer add to the payloads of a wait. */
  lemma ListedBefore(m: bytes, reply: Option<bytes>, rest: seq<Event>)
    ensures GotPayloads(Listed(Some(m), reply) + rest) == [m] + GotPayloads(rest)
    ensures SentPayloads(Listed(Some(m), reply) + rest)
      == (if reply.Some? then [reply.value] else []) + SentPayloads(rest)
    ensures Total(GotPayloads(Listed(Some(m), reply) + rest), Granted) == Granted(m) + Total(GotPayloads(rest), Granted)
  {
    OneGot(m);
    if reply.Some? {
      OneSent(reply.value);
      PayloadsConcat([Got(m)], [Sent(reply.value)]);
    }
    PayloadsConcat(Listed(Some(m), reply), rest);
    TotalConcat([m], GotPayloads(rest), Granted);
  }

  lemma OneGot(m: bytes)
    ensures GotPayloads([Got(m)]) == [m] && SentPayloads([Got(m)]) == [] && Total([m], Granted) == Granted(m)
  {
    var one: seq<Event> := [Got(m)];
    assert one[..0] == [];
    var got := [m];
    TotalHead(got, Granted);
    assert got[1..] == [];
  }

  lemma OneSent(m: bytes)
    ensures GotPayloads([Sent(m)]) == [] && SentPayloads([Sent(m)]) == [m]
  {
    var one: seq<Event> := [Sent(m)];
    assert one[..0] == [];
  }

  /** What was read is the first part of what arrives. */
  lemma {:induction false} AwaitReadsInOrder(w: Awaited, arriving: seq<bytes>, c: ChannelState)
    ensures GotPayloads(Await(w, arriving, c).events) <= arriving
  {
    if arriving != [] {
      OneGot(arriving[0]);
      match React(w, arriving[0], c)
      case Again(d, reply) =>
        AwaitReadsInOrder(w, arriving[1..], d);
        ListedBefore(arriving[0], reply, Await(w, arriving[1..], d).events);
      case _ =>
    }
  }

  /** The channel with another window for sending. */
  function Credited(c: ChannelState, window: u32): ChannelState {
    c.(remoteWindow := window)
  }

  lemma ReactionCredits(m: bytes, c: ChannelState)
    ensures match React(RequestResult, m, c)
            case Refused => true
            case Done(d) => d == c && Granted(m) == 0
            case Again(d, reply) => c.remoteWindow + Granted(m) < TWO_32
                                    && d == Credited(c, c.remoteWindow + Granted(m))
                                    && (reply.Some? ==> reply.value == [REQUEST_FAILURE])
  {
  }

  predicate OnlyFailures(sent: seq<bytes>) {
    forall k :: 0 <= k < |sent| ==> sent[k] == [REQUEST_FAILURE]
  }

  /** What holds of the wait for a result: it credits what it reads, and sends only failure replies. */
  predicate OnlyCredits(c: ChannelState, o: Outcome) {
    && o.channel == Credited(c, o.channel.remoteWindow)
    && (!o.threw ==> o.channel.remoteWindow == c.remoteWindow + Total(GotPayloads(o.events), Granted))
    && OnlyFailures(SentPayloads(o.events))
  }

  lemma CreditsBefore(m: bytes, reply: Option<bytes>, c: ChannelState, d: ChannelState, rest: Outcome)
    requires c.remoteWindow + Granted(m) < TWO_32 && d == Credited(c, c.remoteWindow + Granted(m))
      && OnlyCredits(d, rest)
    requires reply.Some? ==> reply.value == [REQUEST_FAILURE]
    ensures OnlyCredits(c, After(Listed(Some(m), reply), rest))
  {
    ListedBefore(m, reply, rest.events);
  }

  /**
    * While a request is pending nothing but the window for sending may move, by exactly what the server
    * granted, and only failure replies are sent.
    */
  lemma {:induction false} AwaitOnlyCredits(arriving: seq<bytes>, c: ChannelState)
    ensures OnlyCredits(c, Await(RequestResult, arriving, c))
  {
    if arriving != [] {
      var m, r := arriving[0], React(RequestResult, arriving[0], c);
      OneGot(m);
      ReactionCredits(m, c);
      if r.Again? {
        AwaitOnlyCredits(arriving[1..], r.channel);
        CreditsBefore(m, r.reply, c, r.channel, Await(RequestResult, arriving[1..], r.channel));
      }
    }
  }

  /** Opening succeeds on a confirmation, and then the channel is what that confirmation, the last message, says. */
  lemma {:induction false} AwaitOpensByConfirmation(arriving: seq<bytes>, c: ChannelState)
    ensures var o := Await(OpenConfirmation, arriving, c);
            if o.threw then o.channel == c else
            && o.events != [] && o.events[|o.events| - 1].Got?
            && OnOpenConfirmation(o.events[|o.events| - 1].payload, c) == Success(o.channel)
  {
    if arriving != [] {
      match React(OpenConfirmation, arriving[0], c)
      case Again(d, _) =>
        AwaitOpensByConfirmation(arriving[1..], d);
      case _ =>
    }
  }

  /** What a channel that was just opened keeps of the record it was opened with. */
  predicate OpenedFrom(c: ChannelState, d: ChannelState) {
    && d == c.(remoteId := d.remoteId, remoteWindow := d.remoteWindow, remoteMaxPacket := d.remoteMaxPacket,
               open := true)
    && d.remoteMaxPacket >= MIN_MAX_PACKET_SIZE
  }

  lemma AwaitOpens(arriving: seq<bytes>, c: ChannelState)
    ensures var o := Await(OpenConfirmation, arriving, c); !o.threw ==> OpenedFrom(c, o.channel)
  {
    AwaitOpensByConfirmation(arriving, c);
  }

  // ---- The wait keeps the order of the session ----

  predicate Pending(w: Awaited, s: Stage) {
    if w.OpenConfirmation? then s.OpenSent? else s.PtySent? || s.ShellSent?
  }

  function Granting(s: Stage): Stage {
    match s
    case OpenSent => Opened
    case PtySent => PtyGranted
    case _ => Running
  }

  lemma ReactionStep(s: Stage, w: Awaited, m: bytes, c: ChannelState)
    requires Pending(w, s)
    ensures var r, next := React(w, m, c), Next(Phase(s, false), Got(m));
            && !next.stage.Stuck?
            && (r.Done? ==> next == Phase(Granting(s), false))
            && (r.Again? ==> (if r.reply.None? then next else Next(next, Sent(r.reply.value))) == Phase(s, false))
  {
  }

  lemma {:induction false} AwaitConforms(h: seq<Event>, s: Stage, w: Awaited, arriving: seq<bytes>, c: ChannelState)
    requires PhaseOf(h) == Phase(s, false) && Pending(w, s)
    ensures var o := Await(w, arriving, c);
            Conforms(h + o.events) && (!o.threw ==> PhaseOf(h + o.events) == Phase(Granting(s), false))
    decreases |arriving|
  {
    if arriving == [] {
      assert h + [] == h;
    } else {
      var m := arriving[0];
      ReactionStep(s, w, m, c);
      PhaseOne(h, Got(m));
      match React(w, m, c)
      case Again(d, reply) =>
        PhaseListed(h, m, reply);
        AwaitConforms(h + Listed(Some(m), reply), s, w, arriving[1..], d);
        EventsRegroup(h, Listed(Some(m), reply), Await(w, arriving[1..], d).events);
      case _ =>
    }
  }

  lemma RequestConforms(h: seq<Event>, s: Stage, message: Result<bytes>, block: nat, w: Awaited, arriving: seq<bytes>,
                        c: ChannelState)
    requires block > 0 && PhaseOf(h) == Phase(s, false) && !s.Stuck?
    requires message.Success? ==> Pending(w, AfterSent(s, Number(message.value)))
    ensures var o := After(h, Request(message, block, w, arriving, c));
            && Conforms(o.events)
            && (!o.threw ==> message.Success?
                             && PhaseOf(o.events) == Phase(Granting(AfterSent(s, Number(message.value))), false))
  {
    assert h + [] == h;
    if message.Success? {
      RequestStep(message.value, block, w, arriving, c, h);
      PhaseOne(h, Sent(message.value));
      AwaitConforms(h + [Sent(message.value)], AfterSent(s, Number(message.value)), w, arriving, c);
    }
  }

  // ---- run_connection_session ----

  datatype Terminal = Terminal(kind: bytes, columns: u32, rows: u32)

  /** The record with which main.cpp starts. */
  const NEW_CHANNEL: ChannelState :=
    ChannelState(INITIAL_CHANNEL_ID, 0, LOCAL_WINDOW_TARGET, 0, LOCAL_MAX_PACKET_SIZE, 0,
                 false, false, false, false, false, 0)

  /** The three requests that precede the loop. */
  datatype Ask = AskOpen | AskPty(terminal: Terminal) | AskShell

  function MessageFor(ask: Ask, c: ChannelState): Result<bytes> {
    match ask
    case AskOpen => SessionOpenMessage(c)
    case AskPty(t) => PtyRequestMessage(c, t.kind, t.columns, t.rows)
    case AskShell => ShellRequestMessage(c)
  }

  function AwaitedFor(ask: Ask): Awaited {
    if ask.AskOpen? then OpenConfirmation else RequestResult
  }

  /** Requests made one after another, each with the wait for its result, and then the loop. */
  function Conversation(asks: seq<Ask>, block: nat, arriving: seq<bytes>, c: ChannelState, polls: seq<Poll>): Outcome
    requires block > 0
    decreases |asks|
  {
    if asks == [] then Run(c, Inputs(c, arriving, polls)) else
    var o := Request(MessageFor(asks[0], c), block, AwaitedFor(asks[0]), arriving, c);
    Then(o, Conversation(asks[1..], block, Rest(arriving, o), o.channel, polls))
  }

  lemma ConversationStep(ask: Ask, asks: seq<Ask>, block: nat, arriving: seq<bytes>, c: ChannelState, polls: seq<Poll>)
    requires block > 0
    ensures var o := Request(MessageFor(ask, c), block, AwaitedFor(ask), arriving, c);
            Conversation([ask] + asks, block, arriving, c, polls)
            == Then(o, Conversation(asks, block, Rest(arriving, o), o.channel, polls))
  {
    assert ([ask] + asks)[1..] == asks;
  }

  /** What run_connection_session asks for. */
  function SessionAsks(t: Terminal): seq<Ask> {
    [AskOpen] + ([AskPty(t)] + ([AskShell] + []))
  }

  /** The bytes of the three requests, to a server that named its channel in the confirmation. */
  lemma AsksWritten(t: Terminal, c: ChannelState)
    ensures MessageFor(AskOpen, NEW_CHANNEL)
         == Success([90] + Str(Ascii("session")) + U32(0) + U32(0x10_0000) + U32(0x8000))
    ensures c.open && t.kind != [] && |t.kind| < TWO_32 && t.columns != 0 && t.rows != 0 ==>
      MessageFor(AskPty(t), c)
      == Success([98] + U32(c.remoteId) + Str(Ascii("pty-req")) + [1] + Str(t.kind) + U32(t.columns) + U32(t.rows)
                 + U32(0) + U32(0) + Str([0]))
    ensures c.open ==> MessageFor(AskShell, c) == Success([98] + U32(c.remoteId) + Str(Ascii("shell")) + [1])
  {
  }

  /** A session that returns made the three requests, each when the one before was granted, and then ran the loop. */
  lemma SessionSteps(t: Terminal, block: nat, arriving: seq<bytes>, polls: seq<Poll>)
    requires block > 0 && !Conversation(SessionAsks(t), block, arriving, NEW_CHANNEL, polls).threw
    ensures
      var confirmed := Request(MessageFor(AskOpen, NEW_CHANNEL), block, OpenConfirmation, arriving, NEW_CHANNEL);
      var left := Rest(arriving, confirmed);
      var sized := Request(MessageFor(AskPty(t), confirmed.channel), block, RequestResult, left, confirmed.channel);
      var left' := Rest(left, sized);
      var started := Request(MessageFor(AskShell, sized.channel), block, RequestResult, left', sized.channel);
      var loop := Shell.Run(started.channel, Inputs(started.channel, Rest(left', started), polls));
      && !confirmed.threw && !sized.threw && !started.threw && !loop.threw
      && Conversation(SessionAsks(t), block, arriving, NEW_CHANNEL, polls)
         == Outcome(loop.channel, confirmed.events + (sized.events + (started.events + loop.events)), false)
  {
    ConversationStep(AskOpen, [AskPty(t)] + ([AskShell] + []), block, arriving, NEW_CHANNEL, polls);
    var confirmed := Request(MessageFor(AskOpen, NEW_CHANNEL), block, OpenConfirmation, arriving, NEW_CHANNEL);
    var left := Rest(arriving, confirmed);
    ConversationStep(AskPty(t), [AskShell] + [], block, left, confirmed.channel, polls);
    var sized := Request(MessageFor(AskPty(t), confirmed.channel), block, RequestResult, left, confirmed.channel);
    ConversationStep(AskShell, [], block, Rest(left, sized), sized.channel, polls);
  }

  lemma RequestReadsInOrder(message: Result<bytes>, block: nat, w: Awaited, arriving: seq<bytes>, c: ChannelState)
    requires block > 0
    ensures GotPayloads(Request(message, block, w, arriving, c).events) <= arriving
    ensures message.Success? && Framing.Sendable(|message.value|, block) ==>
      Rest(arriving, Request(message, block, w, arriving, c)) == Rest(arriving, Await(w, arriving, c))
  {
    if message.Success? && Framing.Sendable(|message.value|, block) {
      AwaitReadsInOrder(w, arriving, c);
      SendingGetsNothing(message.value, Await(w, arriving, c).events);
    }
  }

  lemma SendingGetsNothing(m: bytes, rest: seq<Event>)
    ensures GotPayloads([Sent(m)] + rest) == GotPayloads(rest)
  {
    OneSent(m);
    PayloadsConcat([Sent(m)], rest);
  }

  /** Two outcomes after one another, of which the first leaves the session in a certain phase. */
  lemma ThenConforms(h: seq<Event>, first: Outcome, second: Outcome)
    requires Conforms(After(h, first).events)
    requires !first.threw ==> Conforms(After(After(h, first).events, second).events)
    ensures Conforms(After(h, Then(first, second)).events)
    ensures !first.threw ==> After(h, Then(first, second)) == After(After(h, first).events, second)
  {
    EventsRegroup(h, first.events, second.events);
  }

  /** What a session that is in order at its end says about the channel. */
  ghost predicate EndsInOrder(o: Outcome) {
    && Conforms(o.events)
    && (!o.threw ==> PhaseOf(o.events) == Phase(if o.channel.open then Stage.Running else Stage.Closed, false))
  }

  /** A request that leads on if it is granted, and what follows it. */
  lemma GrantedThen(h: seq<Event>, s: Stage, message: Result<bytes>, block: nat, w: Awaited, arriving: seq<bytes>,
                    c: ChannelState, o: Outcome, rest: Outcome)
    requires block > 0 && PhaseOf(h) == Phase(s, false) && !s.Stuck? && o == Request(message, block, w, arriving, c)
    requires message.Success? ==> Pending(w, AfterSent(s, Number(message.value)))
    requires !o.threw && PhaseOf(h + o.events) == Phase(Granting(AfterSent(s, Number(message.value))), false) ==>
        EndsInOrder(After(h + o.events, rest))
    ensures EndsInOrder(After(h, Then(o, rest)))
  {
    RequestConforms(h, s, message, block, w, arriving, c);
    ThenConforms(h, o, rest);
  }

  function StageBefore(ask: Ask): Stage {
    match ask
    case AskOpen => Authenticated
    case AskPty(_) => Opened
    case AskShell => PtyGranted
  }

  function StageAfter(ask: Ask): Stage {
    match ask
    case AskOpen => Opened
    case AskPty(_) => PtyGranted
    case AskShell => Stage.Running
  }

  /** Each request is made where the one before it leads, and the loop follows the last. */
  predicate InSequence(asks: seq<Ask>, from: Stage) {
    if asks == [] then from == Stage.Running else
    StageBefore(asks[0]) == from && InSequence(asks[1..], StageAfter(asks[0]))
  }

  /** A channel as it must be in a stage. */
  predicate Ready(c: ChannelState, s: Stage) {
    if s.Authenticated? then c == NEW_CHANNEL else LoopHead(c)
  }

  function NumberFor(ask: Ask): byte {
    if ask.AskOpen? then CHANNEL_OPEN else CHANNEL_REQUEST
  }

  lemma StageLeads(ask: Ask)
    ensures var sent := AfterSent(StageBefore(ask), NumberFor(ask));
            Pending(AwaitedFor(ask), sent) && Granting(sent) == StageAfter(ask)
  {
  }

  lemma MessageNumber(ask: Ask, c: ChannelState)
    ensures MessageFor(ask, c).Success? ==> Number(MessageFor(ask, c).value) == NumberFor(ask)
  {
    match ask
    case AskOpen => OpenNumber(c);
    case AskPty(t) => PtyNumber(c, t);
    case AskShell => ShellNumber(c);
  }

  lemma OpenNumber(c: ChannelState)
    ensures SessionOpenMessage(c).Success? ==> Number(SessionOpenMessage(c).value) == CHANNEL_OPEN
  {
  }

  lemma PtyNumber(c: ChannelState, t: Terminal)
    ensures var m := PtyRequestMessage(c, t.kind, t.columns, t.rows); m.Success? ==> Number(m.value) == CHANNEL_REQUEST
  {
  }

  lemma ShellNumber(c: ChannelState)
    ensures ShellRequestMessage(c).Success? ==> Number(ShellRequestMessage(c).value) == CHANNEL_REQUEST
  {
  }

  lemma AskKeepsReady(ask: Ask, message: Result<bytes>, block: nat, arriving: seq<bytes>, c: ChannelState)
    requires block > 0 && Ready(c, StageBefore(ask))
    ensures var o := Request(message, block, AwaitedFor(ask), arriving, c);
            !o.threw ==> Ready(o.channel, StageAfter(ask))
  {
    if ask.AskOpen? {
      AwaitOpens(arriving, c);
    } else {
      AwaitOnlyCredits(arriving, c);
    }
  }

  /**
    * For every server, terminal and user: requests in sequence and the loop keep the order of the protocol wherever
    * they throw, and if they do not, the loop is open or ended with CLOSE.
    */
  lemma {:induction false} ConversationOrder(h: seq<Event>, asks: seq<Ask>, s: Stage, block: nat, arriving: seq<bytes>,
                                             c: ChannelState, polls: seq<Poll>)
    requires block > 0 && PhaseOf(h) == Phase(s, false) && InSequence(asks, s) && Ready(c, s)
    ensures EndsInOrder(After(h, Conversation(asks, block, arriving, c, polls)))
    decreases |asks|
  {
    if asks == [] {
      RunOrder(h, c, Inputs(c, arriving, polls));
    } else {
      var ask, message := asks[0], MessageFor(asks[0], c);
      var o := Request(message, block, AwaitedFor(ask), arriving, c);
      MessageNumber(ask, c);
      StageLeads(ask);
      AskKeepsReady(ask, message, block, arriving, c);
      if !o.threw && PhaseOf(h + o.events) == Phase(StageAfter(ask), false) {
        ConversationOrder(h + o.events, asks[1..], StageAfter(ask), block, Rest(arriving, o), o.channel, polls);
      }
      GrantedThen(h, s, message, block, AwaitedFor(ask), arriving, c, o,
                  Conversation(asks[1..], block, Rest(arriving, o), o.channel, polls));
    }
  }

  lemma SequenceGrows(ask: Ask, asks: seq<Ask>)
    requires InSequence(asks, StageAfter(ask))
    ensures InSequence([ask] + asks, StageBefore(ask))
  {
    assert ([ask] + asks)[1..] == asks;
  }

  lemma SessionInSequence(t: Terminal)
    ensures InSequence(SessionAsks(t), Authenticated)
  {
    SequenceGrows(AskShell, []);
    SequenceGrows(AskPty(t), [AskShell] + []);
    SequenceGrows(AskOpen, [AskPty(t)] + ([AskShell] + []));
  }

  /**
    * A channel that was confirmed, and then got its pseudo-terminal and its shell, is at a loop head with a full
    * window.
    */
  lemma OpeningReachesLoopHead(id: u32, a: seq<bytes>, b: seq<bytes>, d: seq<bytes>)
    ensures var c := NEW_CHANNEL.(localId := id);
            var confirmed := Await(OpenConfirmation, a, c);
            var granted := Await(RequestResult, b, confirmed.channel);
            var started := Await(RequestResult, d, granted.channel);
            !confirmed.threw ==>
              && LoopHead(confirmed.channel) && LoopHead(granted.channel) && LoopHead(started.channel)
              && started.channel.localWindow == LOCAL_WINDOW_TARGET
              && (!granted.threw && !started.threw ==>
                    started.channel.remoteWindow == confirmed.channel.remoteWindow
                      + Total(GotPayloads(granted.events), Granted) + Total(GotPayloads(started.events), Granted))
  {
    var c := NEW_CHANNEL.(localId := id);
    var confirmed := Await(OpenConfirmation, a, c);
    AwaitOpensByConfirmation(a, c);
    AwaitOnlyCredits(b, confirmed.channel);
    AwaitOnlyCredits(d, Await(RequestResult, b, confirmed.channel).channel);
  }

  // ---- The loop follows the requests ----

  lemma RestThen(arriving: seq<bytes>, first: Outcome, second: Outcome)
    requires GotPayloads(first.events) <= arriving && GotPayloads(second.events) <= Rest(arriving, first)
    ensures GotPayloads(After(first.events, second).events) <= arriving
    ensures Rest(arriving, After(first.events, second)) == Rest(Rest(arriving, first), second)
  {
    PayloadsConcat(first.events, second.events);
    assert arriving == GotPayloads(first.events) + Rest(arriving, first);
  }

  /** When the requests are granted, what follows them is the loop on the messages that are left. */
  lemma {:induction false} LoopFollows(asks: seq<Ask>, block: nat, arriving: seq<bytes>, c: ChannelState,
                                       polls: seq<Poll>)
    requires block > 0 && !Conversation(asks, block, arriving, c, []).threw
    ensures var ready := Conversation(asks, block, arriving, c, []);
            && GotPayloads(ready.events) <= arriving
            && Conversation(asks, block, arriving, c, polls)
              == After(ready.events, Run(ready.channel, Inputs(ready.channel, Rest(arriving, ready), polls)))
    decreases |asks|
  {
    if asks == [] {
      assert [] + Run(c, Inputs(c, arriving, polls)).events == Run(c, Inputs(c, arriving, polls)).events;
    } else {
      var o := Request(MessageFor(asks[0], c), block, AwaitedFor(asks[0]), arriving, c);
      var left := Rest(arriving, o);
      var ready := Conversation(asks[1..], block, left, o.channel, []);
      RequestReadsInOrder(MessageFor(asks[0], c), block, AwaitedFor(asks[0]), arriving, c);
      LoopFollows(asks[1..], block, left, o.channel, polls);
      RestThen(arriving, o, ready);
      EventsRegroup(o.events, ready.events, Run(ready.channel, Inputs(ready.channel, Rest(left, ready), polls)).events);
    }
  }

  lemma RequestOnlyCredits(message: Result<bytes>, block: nat, arriving: seq<bytes>, c: ChannelState)
    requires block > 0
    ensures var o := Request(message, block, RequestResult, arriving, c);
            o.channel == Credited(c, o.channel.remoteWindow)
  {
    AwaitOnlyCredits(arriving, c);
  }

  /** The requests on an open channel change nothing of it but the window for sending. */
  lemma {:induction false} RequestsOnlyCredit(asks: seq<Ask>, block: nat, arriving: seq<bytes>, c: ChannelState)
    requires block > 0 && forall i :: 0 <= i < |asks| ==> !asks[i].AskOpen?
    ensures var o := Conversation(asks, block, arriving, c, []); o.channel == Credited(c, o.channel.remoteWindow)
    decreases |asks|
  {
    if asks != [] {
      var o := Request(MessageFor(asks[0], c), block, AwaitedFor(asks[0]), arriving, c);
      RequestOnlyCredits(MessageFor(asks[0], c), block, arriving, c);
      if !o.threw {
        RequestsOnlyCredit(asks[1..], block, Rest(arriving, o), o.channel);
      }
    }
  }

  // ---- The exit status of a whole session ----

  lemma {:induction false} AwaitStatus(w: Awaited, arriving: seq<bytes>, c: ChannelState)
    ensures TellsStatus(c, Await(w, arriving, c))
    decreases |arriving|
  {
    if arriving != [] {
      var p := arriving[0];
      OneGot(p);
      ReactionStatus(w, p, c);
      match React(w, p, c)
      case Again(d, reply) =>
        var rest := Await(w, arriving[1..], d);
        AwaitStatus(w, arriving[1..], d);
        ListedPayloads(Some(p), reply);
        StatusThen(c, Outcome(d, Listed(Some(p), reply), false), rest);
      case _ =>
    }
  }

  /** A wait never takes an exit status. */
  lemma ReactionStatus(w: Awaited, p: bytes, c: ChannelState)
    ensures var r := React(w, p, c);
            !r.Refused? ==> r.channel.localId == c.localId
                            && Tells(StatusOf(c), [p], c.localId, StatusOf(r.channel))
  {
    var one := [p];
    assert one[0] == p;
  }

  lemma RequestStatus(message: Result<bytes>, block: nat, w: Awaited, arriving: seq<bytes>, c: ChannelState)
    requires block > 0
    ensures TellsStatus(c, Request(message, block, w, arriving, c))
  {
    if message.Success? && Framing.Sendable(|message.value|, block) {
      AwaitStatus(w, arriving, c);
      SendingGetsNothing(message.value, Await(w, arriving, c).events);
    }
  }

  /** A whole session that does not throw holds the status that the server told, if it did. */
  lemma {:induction false} ConversationStatus(asks: seq<Ask>, block: nat, arriving: seq<bytes>, c: ChannelState,
                                              polls: seq<Poll>)
    requires block > 0
    ensures TellsStatus(c, Conversation(asks, block, arriving, c, polls))
    decreases |asks|
  {
    if asks == [] {
      RunStatus(c, Inputs(c, arriving, polls));
    } else {
      var o := Request(MessageFor(asks[0], c), block, AwaitedFor(asks[0]), arriving, c);
      RequestStatus(MessageFor(asks[0], c), block, AwaitedFor(asks[0]), arriving, c);
      if !o.threw {
        ConversationStatus(asks[1..], block, Rest(arriving, o), o.channel, polls);
        StatusThen(c, o, Conversation(asks[1..], block, Rest(arriving, o), o.channel, polls));
      }
    }
  }

  // ---- What a whole session sends as data ----

  lemma ReplyIsNoData(w: Awaited, p: bytes, c: ChannelState)
    ensures var r := React(w, p, c); r.Again? && r.reply.Some? ==> r.reply.value == [REQUEST_FAILURE]
  {
  }

  lemma NoDataBefore(p: bytes, reply: Option<bytes>, rest: seq<Event>)
    requires (reply.Some? ==> reply.value == [REQUEST_FAILURE]) && DataIn(SentPayloads(rest)) == []
    ensures DataIn(SentPayloads(Listed(Some(p), reply) + rest)) == []
  {
    ListedData(Some(p), reply);
    if reply.Some? {
      OneData(reply.value);
    }
    DataThen(Listed(Some(p), reply), rest);
  }

  lemma {:induction false} AwaitSendsNoData(w: Awaited, arriving: seq<bytes>, c: ChannelState)
    ensures DataIn(SentPayloads(Await(w, arriving, c).events)) == []
    decreases |arriving|
  {
    if arriving == [] {
      ListedData(None, None);
    } else {
      var p := arriving[0];
      match React(w, p, c)
      case Again(d, reply) =>
        AwaitSendsNoData(w, arriving[1..], d);
        ReplyIsNoData(w, p, c);
        NoDataBefore(p, reply, Await(w, arriving[1..], d).events);
      case _ =>
        ListedData(Some(p), None);
    }
  }

  lemma AskSendsNoData(ask: Ask, block: nat, arriving: seq<bytes>, c: ChannelState)
    requires block > 0
    ensures DataIn(SentPayloads(Request(MessageFor(ask, c), block, AwaitedFor(ask), arriving, c).events)) == []
  {
    var message := MessageFor(ask, c);
    ListedData(None, None);
    if message.Success? && Framing.Sendable(|message.value|, block) {
      MessageNumber(ask, c);
      AwaitSendsNoData(AwaitedFor(ask), arriving, c);
      OneSent(message.value);
      OneData(message.value);
      DataThen([Sent(message.value)], Await(AwaitedFor(ask), arriving, c).events);
    }
  }

  /** A session that does not throw has had its requests granted. */
  lemma {:induction false} ConversationGranted(asks: seq<Ask>, block: nat, arriving: seq<bytes>, c: ChannelState,
                                               polls: seq<Poll>)
    requires block > 0 && !Conversation(asks, block, arriving, c, polls).threw
    ensures !Conversation(asks, block, arriving, c, []).threw
    decreases |asks|
  {
    if asks != [] {
      var o := Request(MessageFor(asks[0], c), block, AwaitedFor(asks[0]), arriving, c);
      ConversationGranted(asks[1..], block, Rest(arriving, o), o.channel, polls);
    }
  }

  /** The data of a session is what was typed once the requests were granted, in order; before that there is none. */
  lemma {:induction false} ConversationData(asks: seq<Ask>, s: Stage, block: nat, arriving: seq<bytes>,
                                            c: ChannelState, polls: seq<Poll>)
    requires block > 0 && InSequence(asks, s) && Ready(c, s)
    ensures var ready := Conversation(asks, block, arriving, c, []);
            DataIn(SentPayloads(Conversation(asks, block, arriving, c, polls).events))
            == if ready.threw then [] else Typed(ready.channel, Inputs(ready.channel, Rest(arriving, ready), polls))
    decreases |asks|
  {
    if asks == [] {
      TypedIsSent(c, Inputs(c, arriving, polls));
    } else {
      var o := Request(MessageFor(asks[0], c), block, AwaitedFor(asks[0]), arriving, c);
      AskSendsNoData(asks[0], block, arriving, c);
      if !o.threw {
        var left := Rest(arriving, o);
        var ready := Conversation(asks[1..], block, left, o.channel, []);
        AskKeepsReady(asks[0], MessageFor(asks[0], c), block, arriving, c);
        ConversationData(asks[1..], StageAfter(asks[0]), block, left, o.channel, polls);
        DataThen(o.events, Conversation(asks[1..], block, left, o.channel, polls).events);
        if !ready.threw {
          RequestReadsInOrder(MessageFor(asks[0], c), block, AwaitedFor(asks[0]), arriving, c);
          LoopFollows(asks[1..], block, left, o.channel, []);
          RestThen(arriving, o, ready);
        }
      }
    }
  }
}
