/** The binary packet protocol of section 6 of RFC 4253 as src/transport/transport.cpp runs it. */
module Framing {
  import opened Prelude
  import opened Encoding
  import opened Crypto

  const MIN_PACKET_SIZE := 16
  const MAX_PACKET_SIZE := 35000
  const BLOCK_SIZE := 8
  const AES_BLOCK_SIZE := 16
  const MIN_PADDING_LENGTH := 4

  datatype Keys = Keys(iv: bytes, encryptionKey: bytes, macKey: bytes)

  datatype Protection = Clear | Protected(cipher: Cipher, macKey: bytes)

  /** The state of one direction of a connection, as each end keeps it. */
  datatype Direction = Direction(sequence: u32, protection: Protection) {
    function Block(): nat {
      if protection.Clear? then BLOCK_SIZE else AES_BLOCK_SIZE
    }

    /** New keys restart the keystream; the sequence number is carried over. */
    function Install(k: Keys): Direction {
      this.(protection := Protected(Cipher(k.encryptionKey, k.iv, 0), k.macKey))
    }

    /** After a packet whose frame has n bytes. */
    function Advance(n: nat): Direction {
      Direction(
        (sequence + 1) % TWO_32,
        if protection.Clear? then Clear else protection.(cipher := Skip(protection.cipher, n)))
    }
  }

  // ---- Packets as RFC 4253 describes them ----

  datatype Packet = Packet(payload: bytes, padding: bytes) {
    function Size(): nat {
      5 + |payload| + |padding|
    }

    predicate WellFramed(block: nat)
      requires block > 0
    {
      1 <= |payload| && 4 <= |padding| <= 255 && MIN_PACKET_SIZE <= Size() <= MAX_PACKET_SIZE && Size() % block == 0
    }

    function Frame(): (r: bytes)
      requires |padding| <= 255 && Size() <= MAX_PACKET_SIZE
      ensures |r| == Size()
    {
      U32(1 + |payload| + |padding|) + [|padding|] + payload + padding
    }
  }

  function Tag(p: Primitives, d: Direction, frame: bytes): Bytes32
    requires d.protection.Protected?
  {
    p.hmac(d.protection.macKey, U32(d.sequence) + frame)
  }

  /** The bytes of a packet on the wire: the frame, or its ciphertext followed by the MAC of the plaintext. */
  function Wire(p: Primitives, d: Direction, packet: Packet): (r: bytes)
    requires |packet.padding| <= 255 && packet.Size() <= MAX_PACKET_SIZE
    ensures |r| == packet.Size() + if d.protection.Clear? then 0 else 32
  {
    match d.protection
    case Clear => packet.Frame()
    case Protected(cipher, _) => Update(p, cipher, packet.Frame()) + Tag(p, d, packet.Frame())
  }

  // ---- Sending: the size arithmetic ----

  function PaddingLength(n: nat, block: nat): nat
    requires block > 0
  {
    4 + (block - (4 + (n + 5)) % block) % block
  }

  /** How many bytes a payload of n bytes takes on the wire: its frame, and the MAC under keys. */
  function WireLength(n: nat, d: Direction): nat {
    5 + n + PaddingLength(n, d.Block()) + if d.protection.Clear? then 0 else 32
  }

  /** Two multiples less than a block apart are equal. */
  lemma MultiplesApart(a: nat, b: nat, block: nat)
    requires block == BLOCK_SIZE || block == AES_BLOCK_SIZE
    requires a % block == 0 && b % block == 0 && a <= b < a + block
    ensures a == b
  {
  }

  lemma PaddingAligns(n: nat, block: nat)
    requires block == BLOCK_SIZE || block == AES_BLOCK_SIZE
    ensures 4 <= PaddingLength(n, block) < 4 + block <= 20
    ensures (5 + n + PaddingLength(n, block)) % block == 0
  {
    if block == BLOCK_SIZE {
      PaddingAlignsTo8(n);
    } else {
      PaddingAlignsTo16(n);
    }
  }

  lemma PaddingAlignsTo8(n: nat)
    ensures (5 + n + PaddingLength(n, 8)) % 8 == 0
  {
  }

  lemma PaddingAlignsTo16(n: nat)
    ensures (5 + n + PaddingLength(n, 16)) % 16 == 0
  {
  }

  /** The least padding of at least four bytes that aligns the frame; it always fits its length byte. */
  lemma PaddingIsLeast(n: nat, block: nat, other: nat)
    requires block == BLOCK_SIZE || block == AES_BLOCK_SIZE
    ensures 4 <= PaddingLength(n, block) < 4 + block <= 20
    ensures (5 + n + PaddingLength(n, block)) % block == 0
    ensures 4 <= other && (5 + n + other) % block == 0 ==> PaddingLength(n, block) <= other
  {
    PaddingAligns(n, block);
    if 4 <= other < PaddingLength(n, block) && (5 + n + other) % block == 0 {
      MultiplesApart(5 + n + other, 5 + n + PaddingLength(n, block), block);
    }
  }

  /** The first check of send_packet and its maximum-size check. */
  predicate Sendable(n: nat, block: nat)
    requires block > 0
  {
    1 <= n && 5 + n + PaddingLength(n, block) <= MAX_PACKET_SIZE
  }

  lemma SendableSizes(n: nat)
    ensures Sendable(n, BLOCK_SIZE) <==> 1 <= n <= 34991
    ensures Sendable(n, AES_BLOCK_SIZE) <==> 1 <= n <= 34983
  {
  }

  /** Every packet that send_packet builds is one that RFC 4253 and receive_packet allow. */
  lemma SentPacketsAreWellFramed(payload: bytes, padding: bytes, block: nat)
    requires block == BLOCK_SIZE || block == AES_BLOCK_SIZE
    requires Sendable(|payload|, block) && |padding| == PaddingLength(|payload|, block)
    ensures Packet(payload, padding).WellFramed(block)
  {
    PaddingAligns(|payload|, block);
  }

  // ---- Receiving: the checks in the order receive_packet makes them ----

  predicate LengthOk(length: u32, block: nat)
    requires block > 0
  {
    length >= MIN_PACKET_SIZE - 4 && length + 4 <= MAX_PACKET_SIZE && (length + 4) % block == 0
  }

  predicate PaddingOk(length: u32, padding: byte) {
    padding >= MIN_PADDING_LENGTH && padding + 2 <= length
  }

  datatype Receipt = Receipt(payload: bytes, next: Direction, consumed: nat)

  /** What one call of receive_packet makes of the bytes s that the peer will deliver. */
  function Receive(p: Primitives, d: Direction, s: bytes): (r: Result<Receipt>)
    ensures r.Success? ==> r.value.consumed <= |s|
  {
    match d.protection
    case Clear => ReceiveClear(d, s)
    case Protected(cipher, _) => ReceiveProtected(p, d, s)
  }

  function ReceiveClear(d: Direction, s: bytes): (r: Result<Receipt>)
    requires d.protection.Clear?
    ensures r.Success? ==> r.value.consumed <= |s|
  {
    if |s| < 4 then Failure else
    var length := U32At(s, 0);
    if !LengthOk(length, BLOCK_SIZE) || |s| < 4 + length then Failure else
    var padding := s[4];
    if !PaddingOk(length, padding) then Failure else
    Success(Receipt(s[5..4 + length - padding], d.Advance(4 + length), 4 + length))
  }

  /** The plaintext of the packet at the head of s: its first block tells the length of the rest. */
  function PlaintextOf(p: Primitives, cipher: Cipher, s: bytes): (r: Result<bytes>)
    ensures r.Success? ==> AES_BLOCK_SIZE <= |r.value| <= |s| && |r.value| == 4 + U32At(r.value, 0)
  {
    if |s| < AES_BLOCK_SIZE then Failure else
    var head := Update(p, cipher, s[..AES_BLOCK_SIZE]);
    var length := U32At(head, 0);
    if !LengthOk(length, AES_BLOCK_SIZE) || |s| < 4 + length then Failure else
    var plain := head + Update(p, Skip(cipher, AES_BLOCK_SIZE), s[AES_BLOCK_SIZE..4 + length]);
    assert plain[0..4] == head[0..4];
    Success(plain)
  }

  function ReceiveProtected(p: Primitives, d: Direction, s: bytes): (r: Result<Receipt>)
    requires d.protection.Protected?
    ensures r.Success? ==> r.value.consumed <= |s|
  {
    var plain :- PlaintextOf(p, d.protection.cipher, s);
    var n := |plain|;
    if |s| < n + 32 || s[n..n + 32] != Tag(p, d, plain) then Failure else
    var padding := plain[4];
    if !PaddingOk(n - 4, padding) then Failure else
    Success(Receipt(plain[5..n - padding], d.Advance(n), n + 32))
  }

  /** The reading side of a connection: its state, and the bytes the peer will deliver. */
  datatype Inbound = Inbound(direction: Direction, stream: bytes)

  // ---- Exact acceptance ----

  /** A plaintext that passes the length and padding checks is the frame of one packet. */
  lemma FrameFromChecks(plain: bytes, block: nat) returns (packet: Packet)
    requires block == BLOCK_SIZE || block == AES_BLOCK_SIZE
    requires |plain| >= 5 && |plain| == 4 + U32At(plain, 0)
    requires LengthOk(U32At(plain, 0), block) && PaddingOk(U32At(plain, 0), plain[4])
    ensures packet.WellFramed(block) && packet.Frame() == plain
    ensures packet.payload == plain[5..|plain| - plain[4]]
  {
    var cut := |plain| - plain[4];
    packet := Packet(plain[5..cut], plain[cut..]);
    U32OfBigEndian(plain[0..4]);
    assert plain == plain[0..4] + [plain[4]] + plain[5..cut] + plain[cut..];
  }

  /** The converse: a well-framed packet's frame passes the checks, and they find its payload. */
  lemma ChecksFromFrame(packet: Packet, block: nat)
    requires block == BLOCK_SIZE || block == AES_BLOCK_SIZE
    requires packet.WellFramed(block)
    ensures var f := packet.Frame();
            && U32At(f, 0) == |f| - 4 && f[4] == |packet.padding|
            && LengthOk(U32At(f, 0), block) && PaddingOk(U32At(f, 0), f[4])
            && f[5..|f| - f[4]] == packet.payload
  {
    assert packet.Frame()[0..4] == U32(1 + |packet.payload| + |packet.padding|);
  }

  /** A stream that starts with a packet is accepted, and exactly that packet is consumed. */
  lemma ReceiveComplete(p: Primitives, d: Direction, s: bytes, packet: Packet)
    requires packet.WellFramed(d.Block()) && Wire(p, d, packet) <= s
    ensures Receive(p, d, s) == Success(Receipt(packet.payload, d.Advance(packet.Size()), |Wire(p, d, packet)|))
  {
    if d.protection.Clear? {
      ClearComplete(d, s, packet);
    } else {
      ProtectedComplete(p, d, s, packet);
    }
  }

  lemma ClearComplete(d: Direction, s: bytes, packet: Packet)
    requires d.protection.Clear? && packet.WellFramed(BLOCK_SIZE) && packet.Frame() <= s
    ensures ReceiveClear(d, s) == Success(Receipt(packet.payload, d.Advance(packet.Size()), packet.Size()))
  {
    var f := packet.Frame();
    ChecksFromFrame(packet, BLOCK_SIZE);
    assert s[..|f|] == f;
    assert s[0..4] == f[0..4] && s[5..|f| - f[4]] == f[5..|f| - f[4]];
  }

  lemma ProtectedComplete(p: Primitives, d: Direction, s: bytes, packet: Packet)
    requires d.protection.Protected? && packet.WellFramed(AES_BLOCK_SIZE) && Wire(p, d, packet) <= s
    ensures ReceiveProtected(p, d, s) == Success(Receipt(packet.payload, d.Advance(packet.Size()), packet.Size() + 32))
  {
    var f, tag := packet.Frame(), Tag(p, d, packet.Frame());
    ChecksFromFrame(packet, AES_BLOCK_SIZE);
    var e := Update(p, d.protection.cipher, f);
    PrefixParts(s, e, tag);
    PlaintextComplete(p, d.protection.cipher, s, f);
  }

  lemma PrefixParts(s: bytes, a: bytes, b: bytes)
    requires a + b <= s
    ensures a <= s && s[|a|..|a| + |b|] == b
  {
    assert s[..|a| + |b|] == a + b;
    assert s[..|a|] == (a + b)[..|a|] == a;
  }

  lemma PlaintextComplete(p: Primitives, cipher: Cipher, s: bytes, f: bytes)
    requires Update(p, cipher, f) <= s && |f| >= AES_BLOCK_SIZE && |f| == 4 + U32At(f, 0)
      && LengthOk(U32At(f, 0), AES_BLOCK_SIZE)
    ensures PlaintextOf(p, cipher, s) == Success(f)
  {
    var e := Update(p, cipher, f);
    assert s[..16] == e[..16] && s[16..|f|] == e[16..];
    UpdateUndoneInTwoSteps(p, cipher, f, 16);
    assert Update(p, cipher, e[..16])[0..4] == f[0..4];
  }

  /** A stream is accepted only if it starts with a packet. */
  lemma ReceiveSound(p: Primitives, d: Direction, s: bytes) returns (packet: Packet)
    requires Receive(p, d, s).Success?
    ensures packet.WellFramed(d.Block()) && Wire(p, d, packet) <= s
  {
    if d.protection.Clear? {
      packet := ClearSound(d, s);
    } else {
      packet := ProtectedSound(p, d, s);
    }
  }

  lemma ClearSound(d: Direction, s: bytes) returns (packet: Packet)
    requires d.protection.Clear? && ReceiveClear(d, s).Success?
    ensures packet.WellFramed(BLOCK_SIZE) && packet.Frame() <= s
  {
    var plain := s[..4 + U32At(s, 0)];
    assert plain[0..4] == s[0..4];
    packet := FrameFromChecks(plain, BLOCK_SIZE);
  }

  lemma ProtectedSound(p: Primitives, d: Direction, s: bytes) returns (packet: Packet)
    requires d.protection.Protected? && ReceiveProtected(p, d, s).Success?
    ensures packet.WellFramed(AES_BLOCK_SIZE) && Wire(p, d, packet) <= s
  {
    var plain := PlaintextOf(p, d.protection.cipher, s).value;
    PlaintextSound(p, d.protection.cipher, s, plain);
    packet := FrameFromChecks(plain, AES_BLOCK_SIZE);
    var n := |plain|;
    assert s[..n + 32] == s[..n] + s[n..n + 32];
  }

  lemma PlaintextSound(p: Primitives, cipher: Cipher, s: bytes, plain: bytes)
    requires PlaintextOf(p, cipher, s) == Success(plain)
    ensures |plain| <= |s| && Update(p, cipher, plain) == s[..|plain|] && LengthOk(U32At(plain, 0), AES_BLOCK_SIZE)
  {
    var head := Update(p, cipher, s[..AES_BLOCK_SIZE]);
    var n := 4 + U32At(head, 0);
    assert plain[0..4] == head[0..4];
    UpdateInTwo(p, cipher, s, AES_BLOCK_SIZE, n);
    UpdateInvolution(p, cipher, s[..n]);
  }

  /**
    * receive_packet succeeds on a stream if and only if the stream starts with the wire form of a packet
    * of total size 16..35000, aligned, with 4..255 bytes of padding and a non-empty payload.
    */
  lemma ReceiveExactly(p: Primitives, d: Direction, s: bytes)
    ensures Receive(p, d, s).Success?
      <==> exists packet: Packet :: packet.WellFramed(d.Block()) && Wire(p, d, packet) <= s
  {
    if Receive(p, d, s).Success? {
      var packet := ReceiveSound(p, d, s);
    }
    if packet: Packet :| packet.WellFramed(d.Block()) && Wire(p, d, packet) <= s {
      ReceiveComplete(p, d, s, packet);
    }
  }

  /** An accepted packet is never empty, and takes at least 16 bytes of the stream, or 48 with keys. */
  lemma ReceiptSizes(p: Primitives, d: Direction, s: bytes)
    requires Receive(p, d, s).Success?
    ensures var r := Receive(p, d, s).value;
            1 <= |r.payload| < MAX_PACKET_SIZE && MinimumConsumed(d) <= r.consumed <= |s|
            && MinimumConsumed(r.next) == MinimumConsumed(d)
  {
    var packet := ReceiveSound(p, d, s);
    ReceiveComplete(p, d, s, packet);
  }

  function MinimumConsumed(d: Direction): nat {
    if d.protection.Clear? then 16 else 48
  }

  /** Every payload that repeated calls of receive_packet would return, until one throws. */
  function Arrivals(p: Primitives, i: Inbound): seq<bytes>
    decreases |i.stream|
  {
    match Receive(p, i.direction, i.stream)
    case Failure => []
    case Success(receipt) =>
      ReceiptSizes(p, i.direction, i.stream);
      [receipt.payload] + Arrivals(p, Inbound(receipt.next, i.stream[receipt.consumed..]))
  }

  lemma ArrivalsStep(p: Primitives, i: Inbound)
    ensures match Receive(p, i.direction, i.stream)
            case Failure => Arrivals(p, i) == []
            case Success(receipt) =>
              && Arrivals(p, i) == [receipt.payload] + Arrivals(p, Inbound(receipt.next, i.stream[receipt.consumed..]))
              && |receipt.payload| < MAX_PACKET_SIZE
  {
    if Receive(p, i.direction, i.stream).Success? {
      ReceiptSizes(p, i.direction, i.stream);
    }
  }

  /** A finite stream holds finitely many packets: each takes 16 bytes at least, or 48 with keys. */
  lemma {:induction false} ArrivalsAreFew(p: Primitives, i: Inbound)
    ensures 16 * |Arrivals(p, i)| <= |i.stream|
    ensures i.direction.protection.Protected? ==> 48 * |Arrivals(p, i)| <= |i.stream|
    decreases |i.stream|
  {
    match Receive(p, i.direction, i.stream)
    case Failure =>
    case Success(receipt) =>
      ReceiptSizes(p, i.direction, i.stream);
      ArrivalsAreFew(p, Inbound(receipt.next, i.stream[receipt.consumed..]));
  }

  /** At most one packet is a prefix of a stream: its payload, its size and the next state are determined. */
  lemma WireUniquelyDecodable(p: Primitives, d: Direction, s: bytes, a: Packet, b: Packet)
    requires a.WellFramed(d.Block()) && Wire(p, d, a) <= s
    requires b.WellFramed(d.Block()) && Wire(p, d, b) <= s
    ensures a.payload == b.payload && a.Size() == b.Size()
  {
    ReceiveComplete(p, d, s, a);
    ReceiveComplete(p, d, s, b);
  }
}
