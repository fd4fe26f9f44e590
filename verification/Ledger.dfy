/** How the history of one end of a connection accounts for the bytes that it wrote and read. */
module Ledger {
  import opened Prelude
  import opened Encoding
  import opened Crypto
  import opened Framing
  import opened Socket
  import opened History
  import opened Trace

  const START := Direction(0, Clear)

  /**
    * The sending direction, the bytes written so far, how the coming writes will end, the receiving direction with
    * the bytes still to come, and how far the session has got.
    */
  datatype End = End(out: Direction, written: bytes, outgoing: seq<WriteOutcome>, reading: Inbound, phase: Phase)

  predicate Written(a: End, wire: bytes, b: End) {
    && |wire| <= Capacity(a.outgoing) && b.outgoing == Remaining(a.outgoing, |wire|) && b.written == a.written + wire
  }

  predicate NotWritten(a: End, b: End) {
    b.outgoing == a.outgoing && b.written == a.written
  }

  /** A packet of least padding with this payload was written, and the socket took all of it. */
  ghost predicate PacketOut(p: Primitives, a: End, payload: bytes, b: End) {
    exists packet: Packet ::
      && packet.payload == payload && |packet.padding| == PaddingLength(|payload|, a.out.Block())
      && packet.WellFramed(a.out.Block())
      && b.out == a.out.Advance(packet.Size()) && Written(a, Wire(p, a.out, packet), b) && b.reading == a.reading
  }

  /** The next packet in the stream was read, and this is its payload. */
  predicate PacketIn(p: Primitives, a: End, payload: bytes, b: End) {
    var r := Receive(p, a.reading.direction, a.reading.stream);
    && r.Success? && r.value.payload == payload && b.out == a.out && NotWritten(a, b)
    && b.reading == Inbound(r.value.next, a.reading.stream[r.value.consumed..])
  }

  ghost predicate Moved(p: Primitives, a: End, e: Event, b: End) {
    && b.phase == Next(a.phase, e)
    && match e
       case Sent(payload) => PacketOut(p, a, payload, b)
       case Got(payload) => PacketIn(p, a, payload, b)
       case KeysOut(k) =>
         b.out == a.out.Install(k) && NotWritten(a, b) && b.reading == a.reading
       case KeysIn(k) =>
         b.out == a.out && NotWritten(a, b)
           && b.reading == Inbound(a.reading.direction.Install(k), a.reading.stream)
  }

  /** Reading a packet moves on, and takes the first of the arriving payloads. */
  lemma ArrivalMoves(p: Primitives, a: End)
    ensures match Receive(p, a.reading.direction, a.reading.stream)
            case Failure => Arrivals(p, a.reading) == []
            case Success(receipt) =>
              var b := a.(reading := Inbound(receipt.next, a.reading.stream[receipt.consumed..]));
              && PacketIn(p, a, receipt.payload, b) && |receipt.payload| < MAX_PACKET_SIZE
              && Arrivals(p, a.reading) == [receipt.payload] + Arrivals(p, b.reading)
  {
    ArrivalsStep(p, a.reading);
  }

  /** `ends` is the state before each event of the history and after the last. */
  ghost predicate Account(p: Primitives, start: End, history: seq<Event>, ends: seq<End>) {
    && |ends| == |history| + 1 && ends[0] == start
    && forall i :: 0 <= i < |history| ==> Moved(p, ends[i], history[i], ends[i + 1])
  }

  lemma AccountGrows(p: Primitives, start: End, history: seq<Event>, ends: seq<End>, e: Event, next: End)
    requires Account(p, start, history, ends) && Moved(p, ends[|history|], e, next)
    ensures Account(p, start, history + [e], ends + [next]) && (ends + [next])[|history + [e]|] == next
  {
  }

  /** The socket took only a part of a packet, and that part was written. */
  ghost predicate Broken(p: Primitives, last: End, written: bytes) {
    exists packet: Packet ::
      && packet.WellFramed(last.out.Block()) && Capacity(last.outgoing) < |Wire(p, last.out, packet)|
      && written == last.written + Wire(p, last.out, packet)[..Capacity(last.outgoing)]
  }

  /**
    * What the socket shows when an operation stopped in state `last`: what was written and no more, unless a write
    * failed; and if bytes were read beyond it then they are not a packet.
    */
  ghost predicate Stopped(p: Primitives, last: End, written: bytes, reading: Inbound, writeFailed: bool) {
    && (if writeFailed then Broken(p, last, written) else written == last.written)
    && (reading == last.reading || Receive(p, last.reading.direction, last.reading.stream).Failure?)
  }

  /** A packet was given to the socket, which took the whole of it, or as much of it as it could. */
  predicate Offered(p: Primitives, a: End, packet: Packet, b: End, whole: bool) {
    packet.WellFramed(a.out.Block()) &&
    var wire := Wire(p, a.out, packet);
    && (whole <==> |wire| <= Capacity(a.outgoing)) && b.outgoing == Remaining(a.outgoing, |wire|)
    && b.reading == a.reading && b.phase == a.phase
    && (if whole then b.written == a.written + wire && b.out == a.out.Advance(packet.Size())
        else b.written == a.written + wire[..Capacity(a.outgoing)])
  }

  lemma OfferedAsTaken(p: Primitives, a: End, packet: Packet, b: End, whole: bool, wire: bytes)
    requires packet.WellFramed(a.out.Block()) && wire == Wire(p, a.out, packet)
    requires (whole <==> |wire| <= Capacity(a.outgoing)) && b.outgoing == Remaining(a.outgoing, |wire|)
    requires b.written == a.written + wire[..Min(|wire|, Capacity(a.outgoing))]
    requires b.reading == a.reading && b.phase == a.phase && (whole ==> b.out == a.out.Advance(packet.Size()))
    ensures Offered(p, a, packet, b, whole)
  {
    assert wire[..|wire|] == wire;
  }

  lemma OfferedSteps(p: Primitives, a: End, packet: Packet, b: End, whole: bool, next: Phase)
    requires Offered(p, a, packet, b, whole) && |packet.padding| == PaddingLength(|packet.payload|, a.out.Block())
    ensures whole <==> WireLength(|packet.payload|, a.out) <= Capacity(a.outgoing)
    ensures if whole then PacketOut(p, a, packet.payload, b.(phase := next))
            else Stopped(p, a, b.written, b.reading, true)
  {
  }

  // ---- What a packet under keys looks like on the wire ----

  /**
    * The bytes of a frame with each bit flipped exactly where the keystream, from its offset on, has a one; and behind
    * them the MAC of the sequence number and the frame.
    */
  ghost predicate Encrypted(p: Primitives, d: Direction, frame: bytes, wire: bytes)
    requires d.protection.Protected?
  {
    && |wire| == |frame| + 32
    && wire[|frame|..] == p.hmac(d.protection.macKey, U32(d.sequence) + frame)
    && var c, w := d.protection.cipher, [1, 2, 4, 8, 16, 32, 64, 128];
       forall i, k :: 0 <= i < |frame| && 0 <= k < 8 ==>
         wire[i] / w[k] % 2 == (frame[i] / w[k] % 2 + p.keystream(c.key, c.iv, c.offset + i) / w[k] % 2) % 2
  }

  /** The bytes written are the frame of the payload with some padding, in the clear or encrypted. */
  ghost predicate OnTheWire(p: Primitives, d: Direction, payload: bytes, before: bytes, after: bytes) {
    before <= after && exists padding: bytes :: FramedBy(p, d, payload, padding, after[|before|..])
  }

  ghost predicate FramedBy(p: Primitives, d: Direction, payload: bytes, padding: bytes, wire: bytes) {
    4 <= |padding| <= 255 && 1 + |payload| + |padding| < TWO_32 &&
    var frame := U32(1 + |payload| + |padding|) + [|padding|] + payload + padding;
    if d.protection.Clear? then wire == frame else Encrypted(p, d, frame, wire)
  }

  lemma WireIsEncrypted(p: Primitives, d: Direction, packet: Packet)
    requires packet.WellFramed(d.Block()) && d.protection.Protected?
    ensures Encrypted(p, d, packet.Frame(), Wire(p, d, packet))
  {
    var frame, wire := packet.Frame(), Wire(p, d, packet);
    UpdateFlips(p, d.protection.cipher, frame);
    assert wire[..|frame|] == Update(p, d.protection.cipher, frame);
    assert forall i :: 0 <= i < |frame| ==> wire[i] == wire[..|frame|][i];
  }

  lemma WireIsFramed(p: Primitives, d: Direction, packet: Packet)
    requires packet.WellFramed(d.Block())
    ensures FramedBy(p, d, packet.payload, packet.padding, Wire(p, d, packet))
  {
    if d.protection.Protected? {
      WireIsEncrypted(p, d, packet);
    }
  }

  lemma WrittenBehind(before: bytes, wire: bytes)
    ensures before <= before + wire && (before + wire)[|before|..] == wire
  {
  }

  /** What a packet under way adds to the bytes written. */
  lemma WrittenAs(p: Primitives, a: End, payload: bytes, b: End)
    requires PacketOut(p, a, payload, b)
    ensures OnTheWire(p, a.out, payload, a.written, b.written)
  {
    var packet: Packet :|
      && packet.payload == payload && |packet.padding| == PaddingLength(|payload|, a.out.Block())
      && packet.WellFramed(a.out.Block())
      && b.out == a.out.Advance(packet.Size()) && Written(a, Wire(p, a.out, packet), b) && b.reading == a.reading;
    WireIsFramed(p, a.out, packet);
    WrittenBehind(a.written, Wire(p, a.out, packet));
  }

  // ---- A write fails only when the socket has stopped taking bytes ----

  /** The writes that the socket was willing to make at the start are still to come, or took a byte each. */
  lemma {:induction false} WillingSpent(p: Primitives, start: End, history: seq<Event>, ends: seq<End>, i: nat)
    requires Account(p, start, history, ends) && i <= |history|
    ensures Willing(start.outgoing) <= Willing(ends[i].outgoing) + |ends[i].written| - |start.written|
  {
    if i > 0 {
      WillingSpent(p, start, history, ends, i - 1);
      assert Moved(p, ends[i - 1], history[i - 1], ends[i - 1 + 1]);
      StepSpends(p, ends[i - 1], history[i - 1], ends[i]);
    }
  }

  lemma StepSpends(p: Primitives, a: End, e: Event, b: End)
    requires Moved(p, a, e, b)
    ensures Willing(a.outgoing) <= Willing(b.outgoing) + |b.written| - |a.written|
  {
    if e.Sent? {
      WillingFalls(a.outgoing, |b.written| - |a.written|);
    }
  }

  /** So when a write failed, at least as many bytes went out as there were writes that would take something. */
  lemma BrokenIsSpent(p: Primitives, start: End, history: seq<Event>, ends: seq<End>, written: bytes)
    requires Account(p, start, history, ends) && Broken(p, ends[|history|], written)
    ensures Willing(start.outgoing) <= |written| - |start.written|
  {
    WillingSpent(p, start, history, ends, |history|);
    WillingFalls(ends[|history|].outgoing, 0);
  }

  /** Keys are installed in a direction exactly from the event on that says so. */
  lemma {:induction false} ClearUntilKeys(p: Primitives, start: End, history: seq<Event>, ends: seq<End>, i: nat)
    requires Account(p, start, history, ends) && i <= |history|
    requires start.out.protection.Clear? && start.reading.direction.protection.Clear?
    ensures ends[i].out.protection.Clear? <==> !SwitchedOut(history[..i])
    ensures ends[i].reading.direction.protection.Clear? <==> !SwitchedIn(history[..i])
  {
    if i > 0 {
      ClearUntilKeys(p, start, history, ends, i - 1);
      assert Moved(p, ends[i - 1], history[i - 1], ends[i - 1 + 1]);
      StepsProtection(p, ends[i - 1], history[i - 1], ends[i]);
      SwitchedSnoc(history[..i - 1], history[i - 1]);
      assert history[..i] == history[..i - 1] + [history[i - 1]];
    }
  }

  lemma StepsProtection(p: Primitives, a: End, e: Event, b: End)
    requires Moved(p, a, e, b)
    ensures b.out.protection.Clear? <==> a.out.protection.Clear? && !e.KeysOut?
    ensures b.reading.direction.protection.Clear? <==> a.reading.direction.protection.Clear? && !e.KeysIn?
  {
    if e.Got? {
      ReceiptSizes(p, a.reading.direction, a.reading.stream);
    }
  }

  /** The reading side is determined by what happened, and so is how far the session has got. */
  lemma {:induction false} ReadingDetermined(p: Primitives, start: End, h: seq<Event>, a: seq<End>, g: seq<Event>,
                                             b: seq<End>, i: nat)
    requires Account(p, start, h, a) && Account(p, start, g, b) && i <= |h| && i <= |g| && h[..i] == g[..i]
    ensures a[i].reading == b[i].reading && a[i].phase == b[i].phase
  {
    if i > 0 {
      assert h[..i - 1] == h[..i][..i - 1] && g[..i - 1] == g[..i][..i - 1] && h[i - 1] == h[..i][i - 1]
        && g[i - 1] == g[..i][i - 1];
      ReadingDetermined(p, start, h, a, g, b, i - 1);
      assert Moved(p, a[i - 1], h[i - 1], a[i - 1 + 1]) && Moved(p, b[i - 1], g[i - 1], b[i - 1 + 1]);
    }
  }

  /** The phase of each state is that of the history before it. */
  lemma {:induction false} PhaseAccounted(p: Primitives, start: End, history: seq<Event>, ends: seq<End>, i: nat)
    requires Account(p, start, history, ends) && i <= |history| && start.phase == Phase(Start, false)
    ensures ends[i].phase == PhaseOf(history[..i])
  {
    if i > 0 {
      PhaseAccounted(p, start, history, ends, i - 1);
      assert Moved(p, ends[i - 1], history[i - 1], ends[i - 1 + 1]);
      PhaseAt(history, i - 1);
    }
  }

  /**
    * What was received is what the stream decodes to: between two installations of keys, the payloads got are the
    * first of the arrivals of the stream, in order.
    */
  lemma {:induction false} GotIsWhatArrives(p: Primitives, start: End, history: seq<Event>, ends: seq<End>, i: nat,
                                            j: nat)
    requires Account(p, start, history, ends) && i <= j <= |history| && !SwitchedIn(history[i..j])
    ensures Arrivals(p, ends[i].reading) == GotPayloads(history[i..j]) + Arrivals(p, ends[j].reading)
  {
    if i == j {
      assert history[i..j] == [];
    } else {
      assert history[i..j] == history[i..j - 1] + [history[j - 1]];
      SwitchedSnoc(history[i..j - 1], history[j - 1]);
      GotIsWhatArrives(p, start, history, ends, i, j - 1);
      assert Moved(p, ends[j - 1], history[j - 1], ends[j - 1 + 1]);
      GotOneMore(p, history[i..j - 1], ends[j - 1], history[j - 1], ends[j]);
    }
  }

  /**
    * So across a switch of keys: what was received before it is the first part of what the stream decodes to in the
    * clear, and what was received after it the first part of what the rest decodes to under the keys.
    */
  lemma GotAcrossSwitch(p: Primitives, start: End, history: seq<Event>, ends: seq<End>, k: nat)
    requires Account(p, start, history, ends) && k < |history| && history[k].KeysIn?
    requires !SwitchedIn(history[0..k]) && !SwitchedIn(history[k + 1..|history|])
    ensures Arrivals(p, start.reading) == GotPayloads(history[0..k]) + Arrivals(p, ends[k].reading)
    ensures Arrivals(p, ends[k + 1].reading)
         == GotPayloads(history[k + 1..|history|]) + Arrivals(p, ends[|history|].reading)
  {
    GotIsWhatArrives(p, start, history, ends, 0, k);
    GotIsWhatArrives(p, start, history, ends, k + 1, |history|);
  }

  lemma GotOneMore(p: Primitives, h: seq<Event>, a: End, e: Event, b: End)
    requires Moved(p, a, e, b) && !e.KeysIn?
    ensures GotPayloads(h + [e]) + Arrivals(p, b.reading) == GotPayloads(h) + Arrivals(p, a.reading)
  {
    assert (h + [e])[..|h|] == h;
    ArrivalsStep(p, a.reading);
  }
}
