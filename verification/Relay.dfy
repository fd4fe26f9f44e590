/** Two Transport objects joined end to end, in any interleaving: they are a queue of the payloads that fit. */
module Relay {
  import opened Prelude
  import opened Crypto
  import opened Framing
  import opened Transport
  import opened Socket
  import Link

  /** What is asked of the two ends: send a payload, switch keys, receive, and switch to the same keys. */
  datatype Command = Send(payload: bytes) | SwitchSender(keys: Keys) | ReceiveNext | SwitchReceiver

  /** What the sender has done that the receiver has not yet followed: a packet, or a switch to these keys. */
  datatype Pending = InFlight(payload: bytes) | Switch(keys: Keys)

  // ---- The queue: what the commands mean, without packets, ciphers or sockets ----

  /** Whether the receiver can follow now: a receive waits for a packet, and keys are switched where the sender did. */
  predicate Possible(c: Command, pending: seq<Pending>) {
    match c
    case ReceiveNext => pending != [] && pending[0].InFlight?
    case SwitchReceiver => pending != [] && pending[0].Switch?
    case _ => true
  }

  /** What is pending after a possible command, where packets are sent with this block size. */
  function PendingAfter(c: Command, pending: seq<Pending>, block: nat): seq<Pending>
    requires block > 0 && Possible(c, pending)
  {
    match c
    case Send(payload) => if Sendable(|payload|, block) then pending + [InFlight(payload)] else pending
    case SwitchSender(keys) => pending + [Switch(keys)]
    case _ => pending[1..]
  }

  function BlockAfter(c: Command, block: nat): nat {
    if c.SwitchSender? then AES_BLOCK_SIZE else block
  }

  function Returns(c: Command, pending: seq<Pending>): seq<bytes>
    requires Possible(c, pending)
  {
    if c.ReceiveNext? then [pending[0].payload] else []
  }

  /** The commands that are obeyed: those that are possible when it is their turn. */
  function Obeyed(commands: seq<Command>, pending: seq<Pending>, block: nat): seq<Command>
    requires block > 0
  {
    if commands == [] then [] else
    var c, rest := commands[0], commands[1..];
    if !Possible(c, pending) then Obeyed(rest, pending, block) else
    [c] + Obeyed(rest, PendingAfter(c, pending, block), BlockAfter(c, block))
  }

  /** The payloads that the receives return: each takes the one at the head of the queue. */
  function Returned(commands: seq<Command>, pending: seq<Pending>, block: nat): seq<bytes>
    requires block > 0
  {
    if commands == [] then [] else
    var c, rest := commands[0], commands[1..];
    if !Possible(c, pending) then Returned(rest, pending, block) else
    Returns(c, pending) + Returned(rest, PendingAfter(c, pending, block), BlockAfter(c, block))
  }

  /** What is pending in the end. */
  function Left(commands: seq<Command>, pending: seq<Pending>, block: nat): seq<Pending>
    requires block > 0
  {
    if commands == [] then pending else
    var c, rest := commands[0], commands[1..];
    if !Possible(c, pending) then Left(rest, pending, block) else
    Left(rest, PendingAfter(c, pending, block), BlockAfter(c, block))
  }

  /** The payloads of the sends that the size checks let through, with the block size in force at each. */
  function Fitting(commands: seq<Command>, block: nat): seq<bytes>
    requires block > 0
  {
    if commands == [] then [] else
    var c := commands[0];
    (if c.Send? && Sendable(|c.payload|, block) then [c.payload] else [])
      + Fitting(commands[1..], BlockAfter(c, block))
  }

  function Waiting(pending: seq<Pending>): seq<bytes> {
    if pending == [] then [] else
    Waiting(pending[..|pending| - 1]) +
    match pending[|pending| - 1]
    case InFlight(payload) => [payload]
    case Switch(_) => []
  }

  lemma WaitingSnoc(pending: seq<Pending>, w: Pending)
    ensures Waiting(pending + [w]) == Waiting(pending) + if w.InFlight? then [w.payload] else []
  {
    assert (pending + [w])[..|pending|] == pending;
  }

  lemma {:induction false} WaitingHead(pending: seq<Pending>)
    requires pending != []
    ensures Waiting(pending) == (if pending[0].InFlight? then [pending[0].payload] else []) + Waiting(pending[1..])
  {
    if |pending| == 1 {
      assert pending[..0] == [] && pending[1..] == [];
    } else {
      var init, last := pending[..|pending| - 1], pending[|pending| - 1];
      WaitingHead(init);
      assert pending[1..] == init[1..] + [last];
      WaitingSnoc(init[1..], last);
    }
  }

  /** Nothing is lost, repeated or reordered: what is returned and what is left are what fits, in order. */
  lemma {:induction false} QueueConserves(commands: seq<Command>, pending: seq<Pending>, block: nat)
    requires block > 0
    ensures Returned(commands, pending, block) + Waiting(Left(commands, pending, block))
         == Waiting(pending) + Fitting(commands, block)
  {
    if commands != [] {
      var c, rest := commands[0], commands[1..];
      if Possible(c, pending) {
        QueueConserves(rest, PendingAfter(c, pending, block), BlockAfter(c, block));
        OneCommandConserves(c, pending, block);
        Regrouped(Returns(c, pending), Returned(rest, PendingAfter(c, pending, block), BlockAfter(c, block)),
                  Waiting(Left(commands, pending, block)));
        Regrouped(Returns(c, pending), Waiting(PendingAfter(c, pending, block)), Fitting(rest, BlockAfter(c, block)));
        Regrouped(Waiting(pending), if c.Send? && Sendable(|c.payload|, block) then [c.payload] else [],
                  Fitting(rest, BlockAfter(c, block)));
      } else {
        QueueConserves(rest, pending, block);
      }
    }
  }

  lemma Regrouped(a: seq<bytes>, b: seq<bytes>, c: seq<bytes>)
    ensures (a + b) + c == a + (b + c)
  {
  }

  lemma OneCommandConserves(c: Command, pending: seq<Pending>, block: nat)
    requires block > 0 && Possible(c, pending)
    ensures Returns(c, pending) + Waiting(PendingAfter(c, pending, block))
         == Waiting(pending) + if c.Send? && Sendable(|c.payload|, block) then [c.payload] else []
  {
    match c {
      case Send(payload) => WaitingSnoc(pending, InFlight(payload));
      case SwitchSender(keys) => WaitingSnoc(pending, Switch(keys));
      case ReceiveNext => WaitingHead(pending);
      case SwitchReceiver => WaitingHead(pending);
    }
  }

  /** The block size in the end. */
  function LastBlock(commands: seq<Command>, block: nat): nat {
    if commands == [] then block else LastBlock(commands[1..], BlockAfter(commands[0], block))
  }

  lemma {:induction false} ReturnedThen(a: seq<Command>, b: seq<Command>, pending: seq<Pending>, block: nat)
    requires block > 0
    ensures LastBlock(a, block) > 0
    ensures Returned(a + b, pending, block)
         == Returned(a, pending, block) + Returned(b, Left(a, pending, block), LastBlock(a, block))
  {
    if a == [] {
      assert a + b == b;
    } else {
      var c, rest := a[0], a[1..];
      assert (a + b)[0] == c && (a + b)[1..] == rest + b;
      if Possible(c, pending) {
        ReturnedThen(rest, b, PendingAfter(c, pending, block), BlockAfter(c, block));
      } else {
        ReturnedThen(rest, b, pending, block);
      }
    }
  }

  /** A receive for every packet that is pending, and a switch for every switch. */
  function FollowUps(pending: seq<Pending>): seq<Command> {
    if pending == [] then [] else
    [if pending[0].InFlight? then ReceiveNext else SwitchReceiver] + FollowUps(pending[1..])
  }

  lemma {:induction false} FollowUpsDrain(pending: seq<Pending>, block: nat)
    requires block > 0
    ensures Returned(FollowUps(pending), pending, block) == Waiting(pending)
  {
    if pending != [] {
      WaitingHead(pending);
      FollowUpsDrain(pending[1..], block);
      assert FollowUps(pending)[1..] == FollowUps(pending[1..]);
    }
  }

  /** Whatever the commands were: a receiver that follows up all that is pending gets every payload that fits. */
  lemma AllIsReturned(commands: seq<Command>, block: nat)
    requires block > 0
    ensures Returned(commands + FollowUps(Left(commands, [], block)), [], block) == Fitting(commands, block)
  {
    var left := Left(commands, [], block);
    ReturnedThen(commands, FollowUps(left), [], block);
    FollowUpsDrain(left, LastBlock(commands, block));
    QueueConserves(commands, [], block);
    assert Waiting([]) + Fitting(commands, block) == Fitting(commands, block);
  }

  // ---- The two objects and the link ----

  /** The two objects are in the state s of the link: directions, undelivered bytes, and what is pending. */
  ghost predicate Joined(a: Transport, b: Transport, s: Link.State, pending: seq<Pending>)
    reads a, b, a.socket, b.socket
  {
    && a.Consistent() && b.Consistent()
    && a.Out() == s.sender && b.In() == s.receiver && b.socket.Stream() == s.pipe
    && s.taken + |pending| == |s.log|
    && forall i :: 0 <= i < |pending| ==> Matches(s.log[s.taken + i], pending[i])
  }

  predicate Matches(e: Link.Entry, waiting: Pending) {
    match e
    case Send(packet) => waiting == InFlight(packet.payload)
    case Rekey(keys) => waiting == Switch(keys)
  }

  /** When the receiver has followed one entry, the rest of what was pending is pending. */
  lemma OneLessPending(log: seq<Link.Entry>, taken: nat, pending: seq<Pending>)
    requires pending != [] && taken + |pending| == |log|
    requires forall i :: 0 <= i < |pending| ==> Matches(log[taken + i], pending[i])
    ensures Matches(log[taken], pending[0])
    ensures forall i :: 0 <= i < |pending| - 1 ==> Matches(log[taken + 1 + i], pending[1..][i])
  {
    assert log[taken + 0] == log[taken];
    forall i | 0 <= i < |pending| - 1
      ensures Matches(log[taken + 1 + i], pending[1..][i])
    {
      assert log[taken + (i + 1)] == log[taken + 1 + i] && pending[1..][i] == pending[i + 1];
    }
  }

  lemma OneMorePending(log: seq<Link.Entry>, taken: nat, pending: seq<Pending>, e: Link.Entry, waiting: Pending)
    requires taken + |pending| == |log| && Matches(e, waiting)
    requires forall i :: 0 <= i < |pending| ==> Matches(log[taken + i], pending[i])
    ensures forall i :: 0 <= i < |pending| + 1 ==> Matches((log + [e])[taken + i], (pending + [waiting])[i])
  {
  }

  /** The link action that a command stands for; the padding is any. */
  predicate Names(c: Command, action: Link.Action) {
    match c
    case Send(payload) => action.SendPacket? && action.payload == payload
    case SwitchSender(keys) => action == Link.InstallAtSender(keys)
    case ReceiveNext => action == Link.ReceivePacket
    case SwitchReceiver => action == Link.InstallAtReceiver
  }

  /** The bytes that an action puts into the pipe. */
  function Emitted(p: Primitives, s: Link.State, action: Link.Action): bytes
    requires Link.Enabled(s, action)
  {
    match action
    case SendPacket(payload, padding) =>
      if Sendable(|payload|, s.sender.Block()) then Link.EntryWire(p, s.sender, Link.Send(Packet(payload, padding)))
      else []
    case _ => []
  }

  /** What the sender's socket took since an earlier state of it, and the writes that this used up. */
  ghost predicate Took(socket: Socket, outgoing: seq<WriteOutcome>, sent: bytes, more: bytes)
    reads socket
  {
    socket.sent == sent + more && Willing(outgoing) <= Willing(socket.outgoing) + |more|
  }

  /** The socket failed, after at least as many bytes as there were writes that take something. */
  ghost predicate Failed(socket: Socket, outgoing: seq<WriteOutcome>, sent: bytes)
    reads socket
  {
    sent <= socket.sent && Willing(outgoing) <= |socket.sent| - |sent|
  }

  /** Two ends with sockets of their own, the same primitives, and a pipe that delivers whatever is put into it. */
  ghost predicate Ends(a: Transport, b: Transport, arrival: bytes -> seq<ReadOutcome>) {
    && a != b && a.socket != b.socket && a.primitives == b.primitives
    && forall s :: Delivered(arrival(s)) == s
  }

  /** The sender sends: what it wrote goes into the pipe, unless its socket fails. */
  method SendOne(a: Transport, b: Transport, payload: bytes, arrival: bytes -> seq<ReadOutcome>, ghost s: Link.State,
                 pending: seq<Pending>)
    returns (r: Result<seq<Pending>>, ghost action: Link.Action)
    requires Ends(a, b, arrival) && Joined(a, b, s, pending)
    modifies a, a.socket, b.socket
    ensures Link.Enabled(s, action) && Names(Send(payload), action)
    ensures r.Success? ==>
      && r.value == PendingAfter(Send(payload), pending, s.sender.Block())
      && Joined(a, b, Link.Step(a.primitives, s, action), r.value)
      && Took(a.socket, old(a.socket.outgoing), old(a.socket.sent), Emitted(a.primitives, s, action))
    ensures r.Failure? ==>
      Sendable(|payload|, s.sender.Block()) && Failed(a.socket, old(a.socket.outgoing), old(a.socket.sent))
  {
    var fits := Sendable(|payload|, a.Out().Block());
    if !fits {
      ghost var block := a.Out().Block();
      var unsent;
      ghost var built;
      unsent, built := a.BuildAndWrite(payload);
      action := Link.SendPacket(payload, seq(PaddingLength(|payload|, block), _ => 0));
      return Success(pending), action;
    }
    r, action := SendFitting(a, b, payload, arrival, s, pending);
  }

  method SendFitting(a: Transport, b: Transport, payload: bytes, arrival: bytes -> seq<ReadOutcome>,
                     ghost s: Link.State, pending: seq<Pending>)
    returns (r: Result<seq<Pending>>, ghost action: Link.Action)
    requires Ends(a, b, arrival) && Joined(a, b, s, pending) && Sendable(|payload|, s.sender.Block())
    modifies a, a.socket, b.socket
    ensures Link.Enabled(s, action) && Names(Send(payload), action)
    ensures r.Success? ==>
      && r.value == pending + [InFlight(payload)] && Joined(a, b, Link.Step(a.primitives, s, action), r.value)
      && Took(a.socket, old(a.socket.outgoing), old(a.socket.sent), Emitted(a.primitives, s, action))
    ensures r.Failure? ==> Failed(a.socket, old(a.socket.outgoing), old(a.socket.sent))
  {
    var before := |a.socket.sent|;
    ghost var outgoing := a.socket.outgoing;
    var sent;
    ghost var built;
    sent, built := a.BuildAndWrite(payload);
    action := Link.SendPacket(payload, built.padding);
    WillingFalls(outgoing, |Wire(a.primitives, s.sender, built)|);
    if sent.Failure? {
      return Failure, action;
    }
    OneMorePending(s.log, s.taken, pending, Link.Send(built), InFlight(payload));
    b.socket.incoming := arrival(b.socket.Stream() + a.socket.sent[before..]);
    r := Success(pending + [InFlight(payload)]);
  }

  /** In a state of the link in which a packet is pending, the receiver gets it. */
  lemma ReceiveSucceeds(p: Primitives, d: Direction, s: Link.State)
    requires Link.Invariant(p, d, s) && Link.Enabled(s, Link.ReceivePacket)
    ensures var r := Receive(p, s.receiver, s.pipe);
            && r.Success? && r.value.payload == s.log[s.taken].packet.payload
            && Link.Step(p, s, Link.ReceivePacket) == Link.Pop(s, r.value)
  {
    Link.PopKeepsInvariant(p, d, s);
    ReceiveComplete(p, s.receiver, s.pipe, s.log[s.taken].packet);
  }

  /** The receiver receives, which cannot fail, and gets what is at the head of the queue. */
  method ReceiveOne(a: Transport, b: Transport, ghost d: Direction, ghost s: Link.State, pending: seq<Pending>)
    returns (payload: bytes)
    requires a != b && a.socket != b.socket && a.primitives == b.primitives && Joined(a, b, s, pending)
    requires Possible(ReceiveNext, pending) && Link.Invariant(a.primitives, d, s)
    modifies b, b.socket
    ensures Link.Enabled(s, Link.ReceivePacket) && payload == pending[0].payload
    ensures Joined(a, b, Link.Step(a.primitives, s, Link.ReceivePacket), pending[1..])
    ensures Link.Step(a.primitives, s, Link.ReceivePacket).delivered == s.delivered + [payload]
  {
    OneLessPending(s.log, s.taken, pending);
    ReceiveSucceeds(a.primitives, d, s);
    ghost var receipt := Receive(a.primitives, s.receiver, s.pipe).value;
    payload := ReadOne(b, receipt);
    ghost var t := Link.Pop(s, receipt);
    assert Joined(a, b, t, pending[1..]);
  }

  /** What receive_packet returns when the stream has a packet. */
  method ReadOne(b: Transport, ghost receipt: Receipt) returns (payload: bytes)
    requires b.Consistent() && Receive(b.primitives, b.In(), b.socket.Stream()) == Success(receipt)
    modifies b, b.socket
    ensures b.Consistent() && payload == receipt.payload && b.In() == receipt.next
    ensures b.socket.Stream() == old(b.socket.Stream())[receipt.consumed..]
  {
    var r := b.ReadPacket();
    return r.value;
  }

  method SwitchOne(a: Transport, b: Transport, keys: Keys, ghost s: Link.State, pending: seq<Pending>)
    returns (grown: seq<Pending>)
    requires a != b && a.socket != b.socket && Joined(a, b, s, pending)
    modifies a
    ensures grown == pending + [Switch(keys)]
    ensures Joined(a, b, Link.Step(a.primitives, s, Link.InstallAtSender(keys)), grown)
  {
    OneMorePending(s.log, s.taken, pending, Link.Rekey(keys), Switch(keys));
    a.InstallOutgoing(keys);
    grown := pending + [Switch(keys)];
  }

  method FollowSwitch(a: Transport, b: Transport, ghost s: Link.State, pending: seq<Pending>)
    requires a != b && a.socket != b.socket && Joined(a, b, s, pending) && Possible(SwitchReceiver, pending)
    modifies b
    ensures Link.Enabled(s, Link.InstallAtReceiver)
    ensures Joined(a, b, Link.Step(a.primitives, s, Link.InstallAtReceiver), pending[1..])
  {
    OneLessPending(s.log, s.taken, pending);
    b.InstallIncoming(pending[0].keys);
  }

  /** A link state, and the one after an action, as a command says: what it returns, and the block size. */
  predicate Leads(p: Primitives, s: Link.State, c: Command, pending: seq<Pending>, action: Link.Action)
    requires Possible(c, pending)
  {
    && Link.Enabled(s, action) && Names(c, action)
    && Link.Step(p, s, action).delivered == s.delivered + Returns(c, pending)
    && Link.Step(p, s, action).sender.Block() == BlockAfter(c, s.sender.Block())
  }

  /** One command that is possible: it does what it says to the link and to the queue. */
  method Obey(a: Transport, b: Transport, c: Command, pending: seq<Pending>, arrival: bytes -> seq<ReadOutcome>,
              ghost d: Direction, ghost s: Link.State)
    returns (r: Result<(seq<Pending>, seq<bytes>)>, ghost action: Link.Action)
    requires Ends(a, b, arrival) && Joined(a, b, s, pending) && Possible(c, pending)
      && Link.Invariant(a.primitives, d, s)
    modifies a, a.socket, b, b.socket
    ensures r.Success? ==>
      && r.value == (PendingAfter(c, pending, s.sender.Block()), Returns(c, pending))
      && Leads(a.primitives, s, c, pending, action)
      && Joined(a, b, Link.Step(a.primitives, s, action), r.value.0)
      && Took(a.socket, old(a.socket.outgoing), old(a.socket.sent), Emitted(a.primitives, s, action))
    ensures r.Failure? ==>
      && c.Send? && Sendable(|c.payload|, s.sender.Block())
      && Failed(a.socket, old(a.socket.outgoing), old(a.socket.sent))
  {
    match c {
      case Send(payload) =>
        var sent;
        sent, action := SendOne(a, b, payload, arrival, s, pending);
        if sent.Failure? {
          return Failure, action;
        }
        return Success((sent.value, [])), action;
      case SwitchSender(keys) =>
        var grown := SwitchOne(a, b, keys, s, pending);
        return Success((grown, [])), Link.InstallAtSender(keys);
      case ReceiveNext =>
        var payload := ReceiveOne(a, b, d, s, pending);
        return Success((pending[1..], [payload])), Link.ReceivePacket;
      case SwitchReceiver =>
        FollowSwitch(a, b, s, pending);
        return Success((pending[1..], [])), Link.InstallAtReceiver;
    }
  }

  // ---- A whole run ----

  predicate Translates(commands: seq<Command>, actions: seq<Link.Action>) {
    |commands| == |actions| && forall i :: 0 <= i < |commands| ==> Names(commands[i], actions[i])
  }

  /** After i of the commands: which of them became actions, and what the receives among them returned. */
  predicate Progress(commands: seq<Command>, block: nat, i: nat, actions: seq<Link.Action>, pending: seq<Pending>,
                     now: nat, delivered: seq<bytes>)
    requires i <= |commands| && block > 0 && now > 0
  {
    var obeyed := Obeyed(commands, [], block);
    && |actions| <= |obeyed| && Translates(obeyed[..|actions|], actions)
    && obeyed[|actions|..] == Obeyed(commands[i..], pending, now)
    && Returned(commands, [], block) == delivered + Returned(commands[i..], pending, now)
  }

  lemma ProgressStarts(commands: seq<Command>, block: nat)
    requires block > 0
    ensures Progress(commands, block, 0, [], [], block, [])
  {
    assert commands[0..] == commands;
  }

  lemma ProgressSkips(commands: seq<Command>, block: nat, i: nat, actions: seq<Link.Action>, pending: seq<Pending>,
                      now: nat, delivered: seq<bytes>)
    requires i < |commands| && block > 0 && now > 0 && !Possible(commands[i], pending)
    requires Progress(commands, block, i, actions, pending, now, delivered)
    ensures Progress(commands, block, i + 1, actions, pending, now, delivered)
  {
    assert commands[i..][1..] == commands[i + 1..];
  }

  lemma OneMoreTranslated(obeyed: seq<Command>, actions: seq<Link.Action>, c: Command, action: Link.Action)
    requires |actions| < |obeyed| && Translates(obeyed[..|actions|], actions)
    requires obeyed[|actions|..][0] == c && Names(c, action)
    ensures Translates(obeyed[..|actions| + 1], actions + [action])
    ensures obeyed[|actions| + 1..] == obeyed[|actions|..][1..]
  {
    assert obeyed[..|actions| + 1] == obeyed[..|actions|] + [c];
  }

  lemma ProgressSteps(commands: seq<Command>, block: nat, i: nat, actions: seq<Link.Action>, pending: seq<Pending>,
                      now: nat, delivered: seq<bytes>, action: Link.Action)
    requires i < |commands| && block > 0 && now > 0 && Possible(commands[i], pending) && Names(commands[i], action)
    requires Progress(commands, block, i, actions, pending, now, delivered)
    ensures Progress(commands, block, i + 1, actions + [action], PendingAfter(commands[i], pending, now),
                     BlockAfter(commands[i], now), delivered + Returns(commands[i], pending))
  {
    var c, rest := commands[i], commands[i + 1..];
    assert commands[i..][0] == c && commands[i..][1..] == rest;
    OneMoreTranslated(Obeyed(commands, [], block), actions, c, action);
    Regrouped(delivered, Returns(c, pending), Returned(rest, PendingAfter(c, pending, now), BlockAfter(c, now)));
  }

  lemma RunGrows(p: Primitives, d: Direction, actions: seq<Link.Action>, states: seq<Link.State>, action: Link.Action)
    requires Link.Run(p, d, actions, states) && Link.Enabled(states[|actions|], action)
    ensures Link.Run(p, d, actions + [action], states + [Link.Step(p, states[|actions|], action)])
  {
  }

  /** The run of the link, with the progress through the commands. */
  ghost predicate Runs(p: Primitives, d: Direction, commands: seq<Command>, i: nat, actions: seq<Link.Action>,
                       states: seq<Link.State>, pending: seq<Pending>)
    requires i <= |commands|
  {
    && Link.Run(p, d, actions, states)
    && var s := states[|actions|];
    Progress(commands, d.Block(), i, actions, pending, s.sender.Block(), s.delivered)
  }

  lemma RunsOn(p: Primitives, d: Direction, commands: seq<Command>, i: nat, actions: seq<Link.Action>,
               states: seq<Link.State>, pending: seq<Pending>, action: Link.Action)
    requires i < |commands| && Runs(p, d, commands, i, actions, states, pending)
    requires Possible(commands[i], pending) && Leads(p, states[|actions|], commands[i], pending, action)
    ensures var s := states[|actions|];
            Runs(p, d, commands, i + 1, actions + [action], states + [Link.Step(p, s, action)],
                 PendingAfter(commands[i], pending, s.sender.Block()))
  {
    var s := states[|actions|];
    ProgressSteps(commands, d.Block(), i, actions, pending, s.sender.Block(), s.delivered, action);
    RunGrows(p, d, actions, states, action);
  }

  /** The log of the link grows by what an action emits. */
  lemma LogGrows(p: Primitives, d: Direction, s: Link.State, action: Link.Action)
    requires Link.Invariant(p, d, s) && Link.Enabled(s, action)
    ensures Link.Encoding(p, d, Link.Step(p, s, action).log) == Link.Encoding(p, d, s.log) + Emitted(p, s, action)
  {
    var log := Link.Step(p, s, action).log;
    if |log| > |s.log| {
      assert log[..|log| - 1] == s.log;
    } else {
      assert Emitted(p, s, action) == [];
    }
  }

  /** The socket took one more packet, or nothing. */
  lemma TookMore(socket: Socket, outgoing: seq<WriteOutcome>, sent: bytes, middle: seq<WriteOutcome>,
                 taken: bytes, first: bytes, second: bytes)
    requires taken == sent + first && Willing(outgoing) <= Willing(middle) + |first|
    requires Took(socket, middle, taken, second)
    ensures Took(socket, outgoing, sent, first + second)
  {
  }

  /** One command of a run, obeyed if it is possible. */
  method RunOne(a: Transport, b: Transport, commands: seq<Command>, i: nat, arrival: bytes -> seq<ReadOutcome>,
                pending: seq<Pending>, ghost d: Direction, ghost actions: seq<Link.Action>,
                ghost states: seq<Link.State>, ghost outgoing: seq<WriteOutcome>, ghost sent: bytes)
    returns (r: Result<(seq<Pending>, seq<bytes>)>, ghost actions': seq<Link.Action>, ghost states': seq<Link.State>)
    requires i < |commands| && Ends(a, b, arrival) && Runs(a.primitives, d, commands, i, actions, states, pending)
    requires Joined(a, b, states[|actions|], pending)
    requires Took(a.socket, outgoing, sent, Link.Encoding(a.primitives, d, states[|actions|].log))
    modifies a, a.socket, b, b.socket
    ensures r.Success? ==>
      && Runs(a.primitives, d, commands, i + 1, actions', states', r.value.0)
      && Joined(a, b, states'[|actions'|], r.value.0)
      && Took(a.socket, outgoing, sent, Link.Encoding(a.primitives, d, states'[|actions'|].log))
      && states'[|actions'|].delivered == states[|actions|].delivered + r.value.1
    ensures r.Failure? ==>
      && commands[i].Send? && Sendable(|commands[i].payload|, states[|actions|].sender.Block())
      && Failed(a.socket, outgoing, sent)
  {
    actions', states' := actions, states;
    if !Possible(commands[i], pending) {
      ghost var now := states[|actions|];
      ProgressSkips(commands, d.Block(), i, actions, pending, now.sender.Block(), now.delivered);
      return Success((pending, [])), actions', states';
    }
    ghost var s, middle, taken := states[|actions|], a.socket.outgoing, a.socket.sent;
    ghost var p, before := a.primitives, Link.Encoding(a.primitives, d, s.log);
    Link.ReachableInvariant(p, d, actions, states, |actions|);
    ghost var action;
    r, action := Obey(a, b, commands[i], pending, arrival, d, s);
    if r.Failure? {
      return Failure, actions', states';
    }
    RunsOn(p, d, commands, i, actions, states, pending, action);
    LogGrows(p, d, s, action);
    TookMore(a.socket, outgoing, sent, middle, taken, before, Emitted(p, s, action));
    actions', states' := actions + [action], states + [Link.Step(p, s, action)];
  }

  /**
    * Any sequence of commands, of which those that are not possible are skipped, and any cutting up of the bytes by
    * reads and writes: the two objects run the link with exactly these commands, in order, and what the receiver
    * returns is what a queue of the payloads that fit returns. No receive fails, and the undelivered bytes are the
    * link's pipe. It stops only at a send, when the sender's socket takes no more.
    */
  method RunLink(a: Transport, b: Transport, commands: seq<Command>, arrival: bytes -> seq<ReadOutcome>)
    returns (r: Result<()>, delivered: seq<bytes>, ghost actions: seq<Link.Action>, ghost states: seq<Link.State>)
    requires Ends(a, b, arrival) && a.Consistent() && b.Consistent() && a.Out() == b.In() && b.socket.Stream() == []
    modifies a, a.socket, b, b.socket
    ensures Link.Run(a.primitives, old(a.Out()), actions, states) && delivered == states[|actions|].delivered
    ensures var obeyed := Obeyed(commands, [], old(a.Out().Block()));
      && |actions| <= |obeyed| && Translates(obeyed[..|actions|], actions)
      && if r.Success? then |actions| == |obeyed| else |actions| < |obeyed| && obeyed[|actions|].Send?
    ensures delivered <= Returned(commands, [], old(a.Out().Block())) <= Fitting(commands, old(a.Out().Block()))
    ensures r.Success? ==>
      && delivered == Returned(commands, [], old(a.Out().Block()))
      && a.Out() == states[|actions|].sender && b.In() == states[|actions|].receiver
      && b.socket.Stream() == states[|actions|].pipe
      && a.socket.sent == old(a.socket.sent) + Link.Encoding(a.primitives, old(a.Out()), states[|actions|].log)
    ensures r.Failure? ==> Willing(old(a.socket.outgoing)) <= |a.socket.sent| - |old(a.socket.sent)|
  {
    ghost var p, d, outgoing, sent := a.primitives, a.Out(), a.socket.outgoing, a.socket.sent;
    var pending: seq<Pending> := [];
    delivered, actions, states := [], [], [Link.Initial(d)];
    ProgressStarts(commands, d.Block());
    ReturnedFits(commands, d.Block());
    for i := 0 to |commands|
      invariant Runs(p, d, commands, i, actions, states, pending) && Joined(a, b, states[|actions|], pending)
      invariant Took(a.socket, outgoing, sent, Link.Encoding(p, d, states[|actions|].log))
      invariant delivered == states[|actions|].delivered
    {
      var obeyed;
      ghost var actions', states';
      obeyed, actions', states' := RunOne(a, b, commands, i, arrival, pending, d, actions, states, outgoing, sent);
      if obeyed.Failure? {
        StopsAtSend(p, d, commands, i, actions, states, pending);
        return Failure, delivered, actions, states;
      }
      actions, states, pending, delivered := actions', states', obeyed.value.0, delivered + obeyed.value.1;
    }
    assert commands[|commands|..] == [];
    return Success(()), delivered, actions, states;
  }

  lemma StopsAtSend(p: Primitives, d: Direction, commands: seq<Command>, i: nat, actions: seq<Link.Action>,
                    states: seq<Link.State>, pending: seq<Pending>)
    requires i < |commands| && Runs(p, d, commands, i, actions, states, pending) && commands[i].Send?
    ensures var obeyed := Obeyed(commands, [], d.Block()); |actions| < |obeyed| && obeyed[|actions|].Send?
  {
    var obeyed := Obeyed(commands, [], d.Block());
    assert commands[i..][0] == commands[i];
    assert obeyed[|actions|..] != [] && obeyed[|actions|..][0].Send?;
  }

  lemma ReturnedFits(commands: seq<Command>, block: nat)
    requires block > 0
    ensures Returned(commands, [], block) <= Fitting(commands, block)
  {
    QueueConserves(commands, [], block);
    assert Waiting([]) + Fitting(commands, block) == Fitting(commands, block);
  }
}
