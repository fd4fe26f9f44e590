/**
  * Two transports joined by a byte pipe: one sends, the other receives, and both install the same keys
  * at the same places between packets.
  */
module Link {
  import opened Prelude
  import opened Crypto
  import opened Framing

  /** What the sender does to its direction: send a packet, or install keys. */
  datatype Entry = Send(packet: Packet) | Rekey(keys: Keys)

  function Follow(d: Direction, e: Entry): Direction {
    match e
    case Send(packet) => d.Advance(packet.Size())
    case Rekey(keys) => d.Install(keys)
  }

  function After(d: Direction, log: seq<Entry>): Direction {
    if log == [] then d else Follow(After(d, log[..|log| - 1]), log[|log| - 1])
  }

  /** A packet is well framed for the block size in force when it is sent. */
  predicate EntryOk(d: Direction, e: Entry) {
    e.Send? ==> e.packet.WellFramed(d.Block())
  }

  predicate Sound(d: Direction, log: seq<Entry>) {
    log == [] || (Sound(d, log[..|log| - 1]) && EntryOk(After(d, log[..|log| - 1]), log[|log| - 1]))
  }

  function EntryWire(p: Primitives, d: Direction, e: Entry): bytes {
    if e.Send? && EntryOk(d, e) then Wire(p, d, e.packet) else []
  }

  /** The bytes of a log on the wire, for a sender that starts in direction state d. */
  function Encoding(p: Primitives, d: Direction, log: seq<Entry>): bytes {
    if log == [] then [] else
    Encoding(p, d, log[..|log| - 1]) + EntryWire(p, After(d, log[..|log| - 1]), log[|log| - 1])
  }

  function Payloads(log: seq<Entry>): seq<bytes> {
    if log == [] then [] else
    Payloads(log[..|log| - 1]) +
    match log[|log| - 1]
    case Send(packet) => [packet.payload]
    case Rekey(_) => []
  }

  // ---- A log seen as its first part and the rest ----

  lemma {:induction false} AfterConcat(d: Direction, a: seq<Entry>, b: seq<Entry>)
    ensures After(d, a + b) == After(After(d, a), b)
  {
    if b == [] {
      assert a + b == a;
    } else {
      AfterConcat(d, a, b[..|b| - 1]);
      assert (a + b)[..|a + b| - 1] == a + b[..|b| - 1];
    }
  }

  lemma {:induction false} SoundConcat(d: Direction, a: seq<Entry>, b: seq<Entry>)
    ensures Sound(d, a + b) <==> Sound(d, a) && Sound(After(d, a), b)
  {
    if b == [] {
      assert a + b == a;
    } else {
      SoundConcat(d, a, b[..|b| - 1]);
      AfterConcat(d, a, b[..|b| - 1]);
      assert (a + b)[..|a + b| - 1] == a + b[..|b| - 1];
    }
  }

  lemma {:induction false} EncodingConcat(p: Primitives, d: Direction, a: seq<Entry>, b: seq<Entry>)
    ensures Encoding(p, d, a + b) == Encoding(p, d, a) + Encoding(p, After(d, a), b)
  {
    if b == [] {
      assert a + b == a;
    } else {
      var init, last := b[..|b| - 1], b[|b| - 1];
      assert (a + b)[..|a + b| - 1] == a + init && (a + b)[|a + b| - 1] == last;
      EncodingConcat(p, d, a, init);
      AfterConcat(d, a, init);
      AppendAssociates(Encoding(p, d, a), Encoding(p, After(d, a), init), EntryWire(p, After(d, a + init), last));
    }
  }

  lemma AppendAssociates(x: bytes, y: bytes, z: bytes)
    ensures (x + y) + z == x + (y + z)
  {
  }

  lemma {:induction false} PayloadsConcat(a: seq<Entry>, b: seq<Entry>)
    ensures Payloads(a + b) == Payloads(a) + Payloads(b)
  {
    if b == [] {
      assert a + b == a;
    } else {
      PayloadsConcat(a, b[..|b| - 1]);
      assert (a + b)[..|a + b| - 1] == a + b[..|b| - 1];
    }
  }

  lemma LogHead(p: Primitives, d: Direction, e: Entry, rest: seq<Entry>)
    ensures Sound(d, [e] + rest) <==> EntryOk(d, e) && Sound(Follow(d, e), rest)
    ensures Encoding(p, d, [e] + rest) == EntryWire(p, d, e) + Encoding(p, Follow(d, e), rest)
  {
    var one := [e];
    assert one[..|one| - 1] == [] && one[|one| - 1] == e;
    assert After(d, []) == d && Sound(d, []) && Encoding(p, d, []) == [];
    assert After(d, one) == Follow(d, e);
    assert Sound(d, one) <==> EntryOk(d, e);
    assert Encoding(p, d, one) == EntryWire(p, d, e);
    SoundConcat(d, [e], rest);
    EncodingConcat(p, d, [e], rest);
  }

  // ---- The two ends and the pipe ----

  /**
    * `log` is everything the sender did, `taken` how much of it the receiver has followed; both are
    * history. `failed` records that a receive threw.
    */
  datatype State = State(
    sender: Direction, receiver: Direction, pipe: bytes,
    log: seq<Entry>, taken: nat, delivered: seq<bytes>, failed: bool)

  datatype Action =
    | SendPacket(payload: bytes, padding: bytes)
    | InstallAtSender(keys: Keys)
    | ReceivePacket
    | InstallAtReceiver

  function Initial(d: Direction): State {
    State(d, d, [], [], 0, [], false)
  }

  /**
    * The random padding has the computed length. The receiver blocks while there is no packet for it,
    * and installs keys exactly where the sender did.
    */
  predicate Enabled(s: State, a: Action) {
    match a
    case SendPacket(payload, padding) => |padding| == PaddingLength(|payload|, s.sender.Block())
    case InstallAtSender(_) => true
    case ReceivePacket => s.taken < |s.log| && s.log[s.taken].Send?
    case InstallAtReceiver => s.taken < |s.log| && s.log[s.taken].Rekey?
  }

  /** The sender does something, and its bytes go into the pipe. */
  function Push(p: Primitives, s: State, e: Entry): State {
    s.(sender := Follow(s.sender, e), pipe := s.pipe + EntryWire(p, s.sender, e), log := s.log + [e])
  }

  /** The receiver gets a payload, and the bytes it consumed leave the pipe. */
  function Pop(s: State, receipt: Receipt): State
    requires receipt.consumed <= |s.pipe|
  {
    s.(receiver := receipt.next, pipe := s.pipe[receipt.consumed..], taken := s.taken + 1,
       delivered := s.delivered + [receipt.payload])
  }

  function Step(p: Primitives, s: State, a: Action): State
    requires Enabled(s, a)
  {
    match a
    case SendPacket(payload, padding) =>
      if Sendable(|payload|, s.sender.Block()) then Push(p, s, Send(Packet(payload, padding))) else s
    case InstallAtSender(keys) =>
      Push(p, s, Rekey(keys))
    case ReceivePacket =>
      (match Receive(p, s.receiver, s.pipe)
       case Failure => s.(failed := true)
       case Success(receipt) => Pop(s, receipt))
    case InstallAtReceiver =>
      s.(receiver := s.receiver.Install(s.log[s.taken].keys), taken := s.taken + 1)
  }

  /** Any interleaving of the four actions, with the state before each and after the last. */
  ghost predicate Run(p: Primitives, d: Direction, actions: seq<Action>, states: seq<State>) {
    && |states| == |actions| + 1 && states[0] == Initial(d)
    && forall i :: 0 <= i < |actions| ==>
      Enabled(states[i], actions[i]) && states[i + 1] == Step(p, states[i], actions[i])
  }

  ghost predicate Invariant(p: Primitives, d: Direction, s: State) {
    && !s.failed
    && s.taken <= |s.log|
    && Sound(d, s.log)
    && s.sender == After(d, s.log)
    && s.receiver == After(d, s.log[..s.taken])
    && s.delivered == Payloads(s.log[..s.taken])
    && Sound(s.receiver, s.log[s.taken..])
    && s.pipe == Encoding(p, s.receiver, s.log[s.taken..])
  }

  lemma PushKeepsInvariant(p: Primitives, d: Direction, s: State, e: Entry)
    requires Invariant(p, d, s) && EntryOk(s.sender, e)
    ensures Invariant(p, d, Push(p, s, e))
  {
    var log, rest := s.log + [e], s.log[s.taken..];
    assert log[..|s.log|] == s.log && log[..s.taken] == s.log[..s.taken];
    assert log[s.taken..] == rest + [e] && (rest + [e])[..|rest|] == rest;
    assert s.log[..s.taken] + rest == s.log;
    AfterConcat(d, s.log[..s.taken], rest);
  }

  /** Entry k of a log: what it does to the state, and the log behind it. */
  lemma NextEntry(p: Primitives, d: Direction, log: seq<Entry>, k: nat)
    requires k < |log| && Sound(After(d, log[..k]), log[k..])
    ensures After(d, log[..k + 1]) == Follow(After(d, log[..k]), log[k])
    ensures EntryOk(After(d, log[..k]), log[k]) && Sound(After(d, log[..k + 1]), log[k + 1..])
    ensures Encoding(p, After(d, log[..k]), log[k..])
         == EntryWire(p, After(d, log[..k]), log[k]) + Encoding(p, After(d, log[..k + 1]), log[k + 1..])
    ensures Payloads(log[..k + 1]) == Payloads(log[..k]) + if log[k].Send? then [log[k].packet.payload] else []
  {
    var prefix := log[..k + 1];
    assert prefix[..|prefix| - 1] == log[..k] && prefix[|prefix| - 1] == log[k];
    assert log[k..] == [log[k]] + log[k + 1..];
    LogHead(p, After(d, log[..k]), log[k], log[k + 1..]);
  }

  lemma PopKeepsInvariant(p: Primitives, d: Direction, s: State)
    requires Invariant(p, d, s) && Enabled(s, ReceivePacket)
    ensures var packet := s.log[s.taken].packet;
            && packet.WellFramed(s.receiver.Block()) && Wire(p, s.receiver, packet) <= s.pipe
            && var receipt := Receipt(packet.payload, s.receiver.Advance(packet.Size()), |Wire(p, s.receiver, packet)|);
            Invariant(p, d, Pop(s, receipt))
  {
    NextEntry(p, d, s.log, s.taken);
    var next := After(d, s.log[..s.taken + 1]);
    var wire := Wire(p, s.receiver, s.log[s.taken].packet);
    assert s.pipe[..|wire|] == wire && s.pipe[|wire|..] == Encoding(p, next, s.log[s.taken + 1..]);
  }

  lemma InstallKeepsInvariant(p: Primitives, d: Direction, s: State)
    requires Invariant(p, d, s) && Enabled(s, InstallAtReceiver)
    ensures Invariant(p, d, Step(p, s, InstallAtReceiver))
  {
    NextEntry(p, d, s.log, s.taken);
  }

  lemma StepKeepsInvariant(p: Primitives, d: Direction, s: State, a: Action)
    requires Invariant(p, d, s) && Enabled(s, a)
    ensures Invariant(p, d, Step(p, s, a))
  {
    match a {
      case SendPacket(payload, padding) =>
        if Sendable(|payload|, s.sender.Block()) {
          SentPacketsAreWellFramed(payload, padding, s.sender.Block());
          PushKeepsInvariant(p, d, s, Send(Packet(payload, padding)));
        }
      case InstallAtSender(keys) =>
        PushKeepsInvariant(p, d, s, Rekey(keys));
      case ReceivePacket =>
        PopKeepsInvariant(p, d, s);
        ReceiveComplete(p, s.receiver, s.pipe, s.log[s.taken].packet);
      case InstallAtReceiver =>
        InstallKeepsInvariant(p, d, s);
    }
  }

  /** The payloads that the first i actions sent: those that send_packet's size checks let through. */
  function Accepted(actions: seq<Action>, states: seq<State>, i: nat): seq<bytes>
    requires i <= |actions| <= |states|
  {
    if i == 0 then [] else
    Accepted(actions, states, i - 1) +
    match actions[i - 1]
    case SendPacket(payload, _) => if Sendable(|payload|, states[i - 1].sender.Block()) then [payload] else []
    case _ => []
  }

  lemma {:induction false} LogIsWhatWasSent(p: Primitives, d: Direction, actions: seq<Action>, states: seq<State>,
                                            i: nat)
    requires Run(p, d, actions, states) && i <= |actions|
    ensures Payloads(states[i].log) == Accepted(actions, states, i)
  {
    if i != 0 {
      LogIsWhatWasSent(p, d, actions, states, i - 1);
      var s := states[i - 1];
      assert Enabled(s, actions[i - 1]) && states[i - 1 + 1] == Step(p, s, actions[i - 1]);
      match actions[i - 1] {
        case SendPacket(payload, padding) => PayloadsSnoc(s.log, Send(Packet(payload, padding)));
        case InstallAtSender(keys) => PayloadsSnoc(s.log, Rekey(keys));
        case ReceivePacket =>
        case InstallAtReceiver =>
      }
    }
  }

  lemma PayloadsSnoc(log: seq<Entry>, e: Entry)
    ensures Payloads(log + [e]) == Payloads(log) + if e.Send? then [e.packet.payload] else []
  {
    assert (log + [e])[..|log|] == log;
  }

  /**
    * In every reachable state no receive has failed; the pipe holds exactly the encodings of the packets
    * not yet delivered, in the receiver's own state; the payloads delivered and those still in the log
    * are the payloads sent, in order.
    */
  lemma Delivery(p: Primitives, d: Direction, actions: seq<Action>, states: seq<State>, i: nat)
    requires Run(p, d, actions, states) && i <= |actions|
    ensures var s := states[i];
            && !s.failed
            && s.taken <= |s.log| && Accepted(actions, states, i) == s.delivered + Payloads(s.log[s.taken..])
            && s.sender == After(d, s.log) && s.receiver == After(d, s.log[..s.taken])
            && s.pipe == Encoding(p, s.receiver, s.log[s.taken..])
  {
    ReachableInvariant(p, d, actions, states, i);
    LogIsWhatWasSent(p, d, actions, states, i);
    PayloadsSplit(states[i].log, states[i].taken);
  }

  lemma PayloadsSplit(log: seq<Entry>, k: nat)
    requires k <= |log|
    ensures Payloads(log) == Payloads(log[..k]) + Payloads(log[k..])
  {
    assert log[..k] + log[k..] == log;
    PayloadsConcat(log[..k], log[k..]);
  }

  lemma {:induction false} ReachableInvariant(p: Primitives, d: Direction, actions: seq<Action>, states: seq<State>,
                                              i: nat)
    requires Run(p, d, actions, states) && i <= |actions|
    ensures Invariant(p, d, states[i])
  {
    if i != 0 {
      ReachableInvariant(p, d, actions, states, i - 1);
      assert Enabled(states[i - 1], actions[i - 1]) && states[i - 1 + 1] == Step(p, states[i - 1], actions[i - 1]);
      StepKeepsInvariant(p, d, states[i - 1], actions[i - 1]);
    }
  }

  /** Once the receiver has followed the whole log, everything sent was delivered and the ends agree. */
  lemma DrainedLinkAgrees(p: Primitives, d: Direction, actions: seq<Action>, states: seq<State>, i: nat)
    requires Run(p, d, actions, states) && i <= |actions| && states[i].taken == |states[i].log|
    ensures states[i].delivered == Accepted(actions, states, i) && states[i].pipe == []
      && states[i].sender == states[i].receiver
  {
    var s := states[i];
    Delivery(p, d, actions, states, i);
    assert s.log[s.taken..] == [] && s.log[..s.taken] == s.log;
  }

  // ---- Cipher and sequence state over a whole run ----

  function PacketCount(log: seq<Entry>): nat {
    if log == [] then 0 else PacketCount(log[..|log| - 1]) + if log[|log| - 1].Send? then 1 else 0
  }

  /** Total frame bytes since keys were last installed. */
  function BytesSinceKeys(log: seq<Entry>): nat {
    if log == [] then 0 else
    match log[|log| - 1]
    case Send(packet) => BytesSinceKeys(log[..|log| - 1]) + packet.Size()
    case Rekey(_) => 0
  }

  /**
    * The sequence number counts every packet modulo 2^32 whatever keys were installed between them, and the
    * keystream offset is the sum of the frame sizes since the keys were installed: MACs take no keystream.
    */
  lemma {:induction false} StateCountsPackets(d: Direction, log: seq<Entry>)
    requires d.protection.Clear?
    ensures After(d, log).sequence == (d.sequence + PacketCount(log)) % TWO_32
    ensures After(d, log).protection.Protected? <==> exists i :: 0 <= i < |log| && log[i].Rekey?
    ensures After(d, log).protection.Protected? ==> After(d, log).protection.cipher.offset == BytesSinceKeys(log)
  {
    if log != [] {
      StateCountsPackets(d, log[..|log| - 1]);
    }
  }

  /** Two packets under the same keys are encrypted with disjoint ranges of the keystream. */
  lemma {:induction false} KeystreamRangesDisjoint(d: Direction, log: seq<Entry>, i: nat, j: nat)
    requires i < j < |log| && log[i].Send? && log[j].Send?
    requires forall k :: i < k < j ==> log[k].Send?
    requires After(d, log[..i]).protection.Protected?
    ensures After(d, log[..j]).protection.Protected?
    ensures var a, b := After(d, log[..i]).protection.cipher, After(d, log[..j]).protection.cipher;
            a.key == b.key && a.iv == b.iv && a.offset + log[i].packet.Size() <= b.offset
  {
    assert log[..j][..j - 1] == log[..j - 1];
    if j > i + 1 {
      KeystreamRangesDisjoint(d, log, i, j - 1);
    }
  }
}
