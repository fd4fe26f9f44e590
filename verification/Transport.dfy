/** src/transport/transport.cpp: the Transport object, proved against the framing specification. */
module Transport {
  import opened Prelude
  import opened Encoding
  import opened Crypto
  import opened Framing
  import opened Socket
  import opened History
  import opened Ledger
  import opened Trace

  class Transport {
    const socket: Socket
    const primitives: Primitives

    var incomingSequence: u32
    var outgoingSequence: u32
    var outgoingEncryptionActive: bool
    var incomingEncryptionActive: bool
    var outgoingCipher: Option<Cipher>
    var incomingCipher: Option<Cipher>
    var outgoingMacKey: bytes
    var incomingMacKey: bytes

    ghost var history: seq<Event>
    ghost var ends: seq<End>
    ghost var phase: Phase
    ghost var writeFailed: bool
    ghost const start: End

    /** A cipher context exists while encryption is active. */
    predicate Consistent()
      reads this
    {
      && (outgoingEncryptionActive ==> outgoingCipher.Some?)
      && (incomingEncryptionActive ==> incomingCipher.Some?)
    }

    /** The history accounts for all bytes written and read, and no write has failed. */
    ghost predicate Valid()
      reads this, socket
    {
      && Consistent() && Account(primitives, start, history, ends) && ends[|history|] == Now() && !writeFailed
    }

    /**
      * Valid, or stopped by an exception: what happened before it is still accounted for, and a write has failed only
      * if the socket took no more than what it shows.
      */
    ghost predicate ValidIf(returned: bool)
      reads this, socket
    {
      && Account(primitives, start, history, ends)
      && Stopped(primitives, ends[|history|], socket.sent, Reading(), writeFailed) && ends[|history|].phase == phase
      && (returned ==> Valid())
    }

    /** At least as many bytes went out as there were, at the start, writes that would take something. */
    ghost predicate Exhausted()
      reads this, socket
    {
      Willing(start.outgoing) <= |socket.sent| - |start.written|
    }

    /** No write fails before that. */
    lemma FailureExhausts()
      requires ValidIf(false)
      ensures writeFailed ==> Exhausted()
    {
      if writeFailed {
        BrokenIsSpent(primitives, start, history, ends, socket.sent);
      }
    }

    ghost function Now(): End
      reads this, socket
    {
      End(Out(), socket.sent, socket.outgoing, Reading(), phase)
    }

    ghost function Reading(): Inbound
      reads this, socket
    {
      Inbound(In(), socket.Stream())
    }

    function Out(): Direction
      reads this
    {
      Direction(outgoingSequence,
                if outgoingEncryptionActive && outgoingCipher.Some?
                then Protected(outgoingCipher.value, outgoingMacKey) else Clear)
    }

    function In(): Direction
      reads this
    {
      Direction(incomingSequence,
                if incomingEncryptionActive && incomingCipher.Some?
                then Protected(incomingCipher.value, incomingMacKey) else Clear)
    }

    /** What the coming calls of receive_packet will return, as long as the keys stay the same. */
    ghost function Incoming(): seq<bytes>
      reads this, socket
    {
      Arrivals(primitives, Reading())
    }

    constructor (socket: Socket, primitives: Primitives)
      ensures Valid() && history == [] && this.socket == socket && this.primitives == primitives
      ensures Out() == In() == START && start == Now() && phase == Phase(Start, false)
    {
      this.socket, this.primitives := socket, primitives;
      incomingSequence, outgoingSequence := 0, 0;
      outgoingEncryptionActive, incomingEncryptionActive := false, false;
      outgoingCipher, incomingCipher := None, None;
      outgoingMacKey, incomingMacKey := [], [];
      history, phase, writeFailed := [], Phase(Start, false), false;
      var now := End(START, socket.sent, socket.outgoing, Inbound(START, socket.Stream()), Phase(Start, false));
      start, ends := now, [now];
    }

    /** Records what just happened. */
    ghost method Note(e: Event)
      requires Consistent() && !writeFailed && Account(primitives, start, history, ends)
      requires ends[|history|].phase == phase && Moved(primitives, ends[|history|], e, Now().(phase := Next(phase, e)))
      modifies `history, `ends, `phase
      ensures Valid() && history == old(history) + [e] && phase == Next(old(phase), e)
    {
      ghost var next := Now().(phase := Next(phase, e));
      AccountGrows(primitives, start, history, ends, e, next);
      phase, history, ends := Next(phase, e), history + [e], ends + [next];
    }

    method ValidatePacketLength(length: u32) returns (r: Result<()>)
      requires Consistent()
      ensures r.Success? <==> LengthOk(length, In().Block())
      ensures r.Success? <==>
        16 <= length + 4 <= 35000 && (length + 4) % (if incomingEncryptionActive then 16 else 8) == 0
    {
      if length < MIN_PACKET_SIZE - 4 {
        return Failure;
      }
      if length + 4 > MAX_PACKET_SIZE {
        return Failure;
      }
      if (length + 4) % (if incomingEncryptionActive then AES_BLOCK_SIZE else BLOCK_SIZE) != 0 {
        return Failure;
      }
      return Success(());
    }

    method ValidatePacketPadding(length: u32, padding: byte) returns (r: Result<()>)
      ensures r.Success? <==> PaddingOk(length, padding)
      ensures r.Success? <==> 4 <= padding && padding + 2 <= length
    {
      if padding < MIN_PADDING_LENGTH {
        return Failure;
      }
      if (padding as int) + 1 + 1 > length {
        return Failure;
      }
      return Success(());
    }

    method CalculatePaddingLength(payloadSize: nat) returns (r: nat)
      requires Consistent()
      ensures r == PaddingLength(payloadSize, Out().Block())
    {
      var block := if outgoingEncryptionActive then AES_BLOCK_SIZE else BLOCK_SIZE;
      var base := payloadSize + 4 + 1;
      var total := MIN_PADDING_LENGTH + base;
      var remainder := total % block;
      return MIN_PADDING_LENGTH + (block - remainder) % block;
    }

    /** Any bytes at all: the random source is not modelled. */
    method GeneratePadding(n: nat) returns (padding: bytes)
      ensures |padding| == n
    {
      assert |seq(n, _ => 0 as byte)| == n;
      padding :| |padding| == n;
    }

    method CalculateHmac(sequence: u32, plaintextPacket: bytes, macKey: bytes) returns (r: Bytes32)
      ensures r == primitives.hmac(macKey, U32(sequence) + plaintextPacket)
    {
      var input := EncodeUint32(sequence);
      input := input + plaintextPacket;
      return primitives.hmac(macKey, input);
    }

    method EncryptOutgoingPacket(plaintextPacket: bytes) returns (r: Result<bytes>)
      modifies `outgoingCipher
      ensures r.Success? <==> outgoingEncryptionActive && old(outgoingCipher).Some? && |plaintextPacket| < 0x8000_0000
      ensures r.Success? ==> r.value == Update(primitives, old(outgoingCipher).value, plaintextPacket)
      ensures r.Success? ==> outgoingCipher == Some(Skip(old(outgoingCipher).value, |plaintextPacket|))
      ensures r.Failure? ==> outgoingCipher == old(outgoingCipher)
      ensures r.Success? ==> |r.value| == |plaintextPacket| && var c, w :=
        old(outgoingCipher).value, [1, 2, 4, 8, 16, 32, 64, 128];
        forall i, k :: 0 <= i < |plaintextPacket| && 0 <= k < 8 ==>
          r.value[i] / w[k] % 2
            == (plaintextPacket[i] / w[k] % 2 + primitives.keystream(c.key, c.iv, c.offset + i) / w[k] % 2) % 2
    {
      if !outgoingEncryptionActive || outgoingCipher.None? || |plaintextPacket| > 0x7FFF_FFFF {
        return Failure;
      }
      UpdateFlips(primitives, outgoingCipher.value, plaintextPacket);
      var ciphertext := Update(primitives, outgoingCipher.value, plaintextPacket);
      outgoingCipher := Some(Skip(outgoingCipher.value, |plaintextPacket|));
      return Success(ciphertext);
    }

    method DecryptIncomingBytes(ciphertext: bytes) returns (r: Result<bytes>)
      modifies `incomingCipher
      ensures r.Success? <==> incomingEncryptionActive && old(incomingCipher).Some? && |ciphertext| < 0x8000_0000
      ensures r.Success? ==> r.value == Update(primitives, old(incomingCipher).value, ciphertext)
      ensures r.Success? ==> incomingCipher == Some(Skip(old(incomingCipher).value, |ciphertext|))
      ensures r.Failure? ==> incomingCipher == old(incomingCipher)
      ensures r.Success? ==> |r.value| == |ciphertext| && var c, w :=
        old(incomingCipher).value, [1, 2, 4, 8, 16, 32, 64, 128];
        forall i, k :: 0 <= i < |ciphertext| && 0 <= k < 8 ==>
          r.value[i] / w[k] % 2
            == (ciphertext[i] / w[k] % 2 + primitives.keystream(c.key, c.iv, c.offset + i) / w[k] % 2) % 2
    {
      if !incomingEncryptionActive || incomingCipher.None? || |ciphertext| > 0x7FFF_FFFF {
        return Failure;
      }
      UpdateFlips(primitives, incomingCipher.value, ciphertext);
      var plaintext := Update(primitives, incomingCipher.value, ciphertext);
      incomingCipher := Some(Skip(incomingCipher.value, |ciphertext|));
      return Success(plaintext);
    }

    method EnableOutgoingEncryption(keys: Keys)
      requires Valid()
      modifies `outgoingCipher, `outgoingMacKey, `outgoingEncryptionActive, `history, `ends, `phase
      ensures Valid() && Out() == old(Out()).Install(keys) && history == old(history) + [KeysOut(keys)]
      ensures phase == Next(old(phase), KeysOut(keys))
    {
      ghost var out := Out();
      InstallOutgoing(keys);
      assert Out() == out.Install(keys);
      Note(KeysOut(keys));
    }

    /** The new cipher context and MAC key. */
    method InstallOutgoing(keys: Keys)
      modifies `outgoingCipher, `outgoingMacKey, `outgoingEncryptionActive
      ensures Out() == old(Out()).Install(keys) && outgoingEncryptionActive
      ensures outgoingCipher == Some(Cipher(keys.encryptionKey, keys.iv, 0)) && outgoingMacKey == keys.macKey
    {
      outgoingCipher := Some(Cipher(keys.encryptionKey, keys.iv, 0));
      outgoingMacKey := keys.macKey;
      outgoingEncryptionActive := true;
    }

    method EnableIncomingEncryption(keys: Keys)
      requires Valid()
      modifies `incomingCipher, `incomingMacKey, `incomingEncryptionActive, `history, `ends, `phase
      ensures Valid() && In() == old(In()).Install(keys) && history == old(history) + [KeysIn(keys)]
      ensures phase == Next(old(phase), KeysIn(keys))
    {
      ghost var direction := In();
      InstallIncoming(keys);
      assert In() == direction.Install(keys);
      Note(KeysIn(keys));
    }

    method InstallIncoming(keys: Keys)
      modifies `incomingCipher, `incomingMacKey, `incomingEncryptionActive
      ensures In() == old(In()).Install(keys) && incomingEncryptionActive
      ensures incomingCipher == Some(Cipher(keys.encryptionKey, keys.iv, 0)) && incomingMacKey == keys.macKey
    {
      incomingCipher := Some(Cipher(keys.encryptionKey, keys.iv, 0));
      incomingMacKey := keys.macKey;
      incomingEncryptionActive := true;
    }

    /** The frame that send_packet assembles, and the packet it is the frame of. */
    method BuildPacket(payload: bytes) returns (r: Result<bytes>, ghost built: Packet)
      requires Consistent()
      ensures r.Success? <==> Sendable(|payload|, Out().Block())
      ensures r.Success? ==>
        && built.payload == payload && |built.padding| == PaddingLength(|payload|, Out().Block())
        && built.WellFramed(Out().Block()) && r.value == built.Frame()
        && r.value == U32(1 + |payload| + |built.padding|) + [|built.padding|] + payload + built.padding
    {
      built := Packet([], []);
      if |payload| < 1 {
        return Failure, built;
      }
      var paddingLength := CalculatePaddingLength(|payload|);
      var packetLength := 1 + |payload| + paddingLength;
      if packetLength + 4 > MAX_PACKET_SIZE {
        return Failure, built;
      }
      PaddingAligns(|payload|, Out().Block());
      // the source now rejects padding_length > 255 and packet_length >= 2^32; neither can hold
      assert paddingLength <= 255 && packetLength < TWO_32;

      var lengthBytes := EncodeUint32(packetLength);
      var padding := GeneratePadding(paddingLength);
      built := Packet(payload, padding);
      SentPacketsAreWellFramed(payload, padding, Out().Block());

      var packet := lengthBytes;
      packet := packet + [paddingLength];
      packet := packet + payload;
      packet := packet + padding;
      r := Success(packet);
    }

    /** What is written for a frame: itself, or its ciphertext and MAC. */
    method ProtectPacket(packet: bytes, ghost built: Packet) returns (wire: bytes)
      requires Consistent() && built.WellFramed(Out().Block()) && packet == built.Frame()
      modifies `outgoingCipher
      ensures Consistent()
      ensures wire == Wire(primitives, old(Out()), built)
      ensures !outgoingEncryptionActive ==> wire == packet
      ensures outgoingEncryptionActive ==>
        wire == Update(primitives, old(outgoingCipher).value, packet)
                + primitives.hmac(outgoingMacKey, U32(outgoingSequence) + packet)
      ensures Out() == old(Out()).Advance(built.Size()).(sequence := outgoingSequence)
    {
      if outgoingEncryptionActive {
        var hmac := CalculateHmac(outgoingSequence, packet, outgoingMacKey);
        // cannot throw: encryption is active, so there is a cipher, and the frame is short
        var encrypted := EncryptOutgoingPacket(packet);
        wire := encrypted.value + hmac;
      } else {
        wire := packet;
      }
    }

    /** Writes a frame in its wire form, and moves on to the next sequence number. */
    method WritePacket(packet: bytes, ghost built: Packet) returns (r: Result<()>)
      requires Consistent() && built.WellFramed(Out().Block()) && packet == built.Frame()
      modifies `outgoingSequence, `outgoingCipher, socket`outgoing, socket`sent
      ensures Consistent() && Out().Block() == old(Out().Block())
      ensures Offered(primitives, old(Now()), built, Now(), r.Success?)
    {
      ghost var before := Now();
      var wire := ProtectPacket(packet, built);
      r := socket.WriteExact(wire);
      if r.Success? {
        outgoingSequence := (outgoingSequence + 1) % TWO_32;
      }
      OfferedAsTaken(primitives, before, built, Now(), r.Success?, wire);
    }

    /**
      * send_packet: writes the wire form of one packet that carries the payload, or fails: before any effect if the
      * size is not allowed, otherwise because the socket takes too few bytes, and then those are out.
      */
    method BuildAndWrite(payload: bytes) returns (r: Result<()>, ghost built: Packet)
      requires Consistent()
      modifies `outgoingSequence, `outgoingCipher, socket`outgoing, socket`sent
      ensures Consistent() && Out().Block() == old(Out().Block())
      ensures Sendable(|payload|, old(Out().Block())) ==>
        && built.payload == payload && |built.padding| == PaddingLength(|payload|, old(Out().Block()))
        && built.WellFramed(old(Out().Block())) && Offered(primitives, old(Now()), built, Now(), r.Success?)
      ensures !Sendable(|payload|, old(Out().Block())) ==>
        r.Failure? && Now() == old(Now())
    {
      var packet;
      packet, built :- BuildPacket(payload);
      r := WritePacket(packet, built);
    }

    /** The same, as a step of the state, or a stop on the way. */
    method WriteStep(payload: bytes) returns (r: Result<()>)
      requires Consistent() && !writeFailed
      modifies `outgoingSequence, `outgoingCipher, `writeFailed, socket`outgoing, socket`sent
      ensures Consistent() && Out().Block() == old(Out().Block()) && Reading() == old(Reading())
      ensures Sendable(|payload|, old(Out().Block())) ==>
        (r.Success? <==> WireLength(|payload|, old(Out())) <= Capacity(old(socket.outgoing)))
      ensures r.Success? ==>
        && Sendable(|payload|, old(Out().Block())) && !writeFailed
        && PacketOut(primitives, old(Now()), payload, Now().(phase := Next(phase, Sent(payload))))
      ensures r.Failure? && Sendable(|payload|, old(Out().Block())) ==>
        writeFailed && Stopped(primitives, old(Now()), socket.sent, Reading(), writeFailed)
      ensures r.Failure? && !Sendable(|payload|, old(Out().Block())) ==> !writeFailed && Now() == old(Now())
    {
      ghost var before := Now();
      ghost var built;
      r, built := BuildAndWrite(payload);
      if Sendable(|payload|, before.out.Block()) {
        writeFailed := r.Failure?;
        OfferedSteps(primitives, before, built, Now(), r.Success?, Next(phase, Sent(payload)));
      }
    }

    /** The same, recorded. */
    method SendPacket(payload: bytes) returns (r: Result<()>)
      requires Valid()
      modifies `outgoingSequence, `outgoingCipher, `history, `ends, `phase, `writeFailed, socket`outgoing, socket`sent
      ensures ValidIf(r.Success? || !Sendable(|payload|, old(Out().Block())))
      ensures Out().Block() == old(Out().Block()) && Reading() == old(Reading())
      ensures history == if r.Success? then old(history) + [Sent(payload)] else old(history)
      ensures phase == if r.Success? then Next(old(phase), Sent(payload)) else old(phase)
      ensures r.Success? <==>
        Sendable(|payload|, old(Out().Block())) && WireLength(|payload|, old(Out())) <= Capacity(old(socket.outgoing))
      ensures r.Failure? && Sendable(|payload|, old(Out().Block())) ==> writeFailed
    {
      r := WriteStep(payload);
      if r.Success? {
        Note(Sent(payload));
      }
    }

    /** send_packet for callers that only care what was sent; receiving is not affected. */
    method Send(payload: bytes) returns (r: Result<()>)
      requires Valid()
      modifies `outgoingSequence, `outgoingCipher, `history, `ends, `phase, `writeFailed, socket`outgoing, socket`sent
      ensures ValidIf(r.Success?) && Incoming() == old(Incoming()) && Out().Block() == old(Out().Block())
      ensures history == if r.Success? then old(history) + [Sent(payload)] else old(history)
      ensures r.Success? ==> Sendable(|payload|, old(Out().Block()))
      ensures r.Failure? ==> writeFailed || !Sendable(|payload|, old(Out().Block()))
    {
      r := SendPacket(payload);
    }

    /** The next n bytes of the socket. */
    method ReadBytes(n: nat) returns (r: Result<bytes>)
      modifies socket`incoming
      ensures r.Success? <==> n <= |old(socket.Stream())|
      ensures r.Success? ==> r.value == old(socket.Stream())[..n] && socket.Stream() == old(socket.Stream())[n..]
    {
      var buffer := new byte[n];
      var _ :- socket.ReadExact(buffer);
      return Success(buffer[..]);
    }

    /** The branch of receive_packet before keys are installed. */
    method ReceiveClearPacket() returns (r: Result<bytes>)
      requires Consistent() && !incomingEncryptionActive
      modifies socket`incoming
      ensures var spec := ReceiveClear(In(), old(socket.Stream()));
              && (r.Success? <==> spec.Success?)
              && (r.Success? ==> r.value == spec.value.payload)
              && (r.Success? ==> socket.Stream() == old(socket.Stream())[spec.value.consumed..])
    {
      ghost var stream := socket.Stream();
      var lengthBytes :- ReadBytes(4);
      assert lengthBytes == stream[0..4];
      var packetLength := DecodeUint32(lengthBytes);
      var _ :- ValidatePacketLength(packetLength);

      var body :- ReadBytes(packetLength);
      assert body == stream[4..4 + packetLength];
      var paddingLength := body[0];
      var _ :- ValidatePacketPadding(packetLength, paddingLength);

      var payloadLength := packetLength - 1 - paddingLength;
      return Success(body[1..1 + payloadLength]);
    }

    /** Reads and decrypts n bytes. */
    method ReadDecrypted(n: nat) returns (r: Result<bytes>)
      requires Consistent() && incomingEncryptionActive && n < 0x8000_0000
      modifies `incomingCipher, socket`incoming
      ensures Consistent()
      ensures r.Success? <==> n <= |old(socket.Stream())|
      ensures r.Success? ==>
        && r.value == Update(primitives, old(incomingCipher).value, old(socket.Stream())[..n])
        && incomingCipher == Some(Skip(old(incomingCipher).value, n)) && socket.Stream() == old(socket.Stream())[n..]
    {
      var ciphertext :- ReadBytes(n);
      // cannot throw: encryption is active, so there is a cipher, and the piece is short
      var plaintext := DecryptIncomingBytes(ciphertext);
      return Success(plaintext.value);
    }

    /** Decrypts the first block, learns the length, and decrypts the rest (possibly no bytes) behind it. */
    method ReadPlaintext() returns (r: Result<bytes>)
      requires Consistent() && incomingEncryptionActive
      modifies `incomingCipher, socket`incoming
      ensures Consistent()
      ensures var plain := PlaintextOf(primitives, old(incomingCipher).value, old(socket.Stream()));
              && r == plain
              && (plain.Success? ==> incomingCipher == Some(Skip(old(incomingCipher).value, |plain.value|))
                                     && socket.Stream() == old(socket.Stream())[|plain.value|..])
    {
      ghost var stream := socket.Stream();
      var plaintext :- ReadDecrypted(AES_BLOCK_SIZE);
      var packetLength := DecodeUint32(plaintext[0..4]);
      var _ :- ValidatePacketLength(packetLength);

      var totalEncryptedBytes := 4 + packetLength;
      var remainingBytes: nat := totalEncryptedBytes - AES_BLOCK_SIZE;
      if totalEncryptedBytes <= |stream| {
        SlicesCompose(stream, 16, remainingBytes);
      }
      var remainingPlaintext :- ReadDecrypted(remainingBytes);
      return Success(plaintext + remainingPlaintext);
    }

    /** Reads the MAC and compares it with the one calculated. */
    method CheckMac(plaintextPacket: bytes) returns (r: Result<()>)
      modifies socket`incoming
      ensures var s, mac :=
        old(socket.Stream()), primitives.hmac(incomingMacKey, U32(incomingSequence) + plaintextPacket);
              && (r.Success? <==> |s| >= 32 && s[..32] == mac)
              && (r.Success? ==> socket.Stream() == s[32..])
    {
      var serverMac :- ReadBytes(32);
      var calculatedMac := CalculateHmac(incomingSequence, plaintextPacket, incomingMacKey);
      if serverMac != calculatedMac {
        return Failure;
      }
      return Success(());
    }

    /** Checks the MAC and the padding of a plaintext packet, and cuts out its payload. */
    method OpenPlaintext(plaintextPacket: bytes) returns (r: Result<bytes>)
      requires |plaintextPacket| >= AES_BLOCK_SIZE && |plaintextPacket| == 4 + U32At(plaintextPacket, 0)
      modifies socket`incoming
      ensures var s, n := old(socket.Stream()), |plaintextPacket|;
              var mac := primitives.hmac(incomingMacKey, U32(incomingSequence) + plaintextPacket);
              && (r.Success? <==> |s| >= 32 && s[..32] == mac && PaddingOk(n - 4, plaintextPacket[4]))
              && (r.Success? ==> r.value == plaintextPacket[5..n - plaintextPacket[4]] && socket.Stream() == s[32..])
    {
      var packetLength := DecodeUint32(plaintextPacket[0..4]);
      var _ :- CheckMac(plaintextPacket);
      var paddingLength := plaintextPacket[4];
      var _ :- ValidatePacketPadding(packetLength, paddingLength);

      var payloadLength := packetLength - 1 - paddingLength;
      return Success(plaintextPacket[5..5 + payloadLength]);
    }

    /** The branch of receive_packet after keys were installed. */
    method ReceiveProtectedPacket() returns (r: Result<bytes>)
      requires Consistent() && incomingEncryptionActive
      modifies `incomingCipher, socket`incoming
      ensures Consistent()
      ensures var spec := ReceiveProtected(primitives, old(In()), old(socket.Stream()));
              && (r.Success? <==> spec.Success?)
              && (r.Success? ==> r.value == spec.value.payload && In() == spec.value.next.(sequence := incomingSequence)
                                 && socket.Stream() == old(socket.Stream())[spec.value.consumed..])
    {
      ghost var stream := socket.Stream();
      var plaintextPacket :- ReadPlaintext();
      if |stream| >= |plaintextPacket| + 32 {
        SlicesCompose(stream, |plaintextPacket|, 32);
      }
      r := OpenPlaintext(plaintextPacket);
    }

    /**
      * receive_packet: accepts exactly what the specification accepts, and consumes exactly the bytes of that
      * packet.
      */
    method ReadPacket() returns (r: Result<bytes>)
      requires Consistent()
      modifies `incomingSequence, `incomingCipher, socket`incoming
      ensures Consistent()
      ensures var spec := Receive(primitives, old(In()), old(socket.Stream()));
              && (r.Success? <==> spec.Success?)
              && (r.Success? ==> r.value == spec.value.payload && In() == spec.value.next
                                 && socket.Stream() == old(socket.Stream())[spec.value.consumed..])
    {
      if !incomingEncryptionActive {
        r := ReceiveClearPacket();
      } else {
        r := ReceiveProtectedPacket();
      }
      if r.Success? {
        incomingSequence := (incomingSequence + 1) % TWO_32;
      }
    }

    /** The same, in terms of what arrives. */
    method ReadArrival() returns (r: Result<bytes>)
      requires Consistent()
      modifies `incomingSequence, `incomingCipher, socket`incoming
      ensures Consistent()
      ensures r == if old(Incoming()) == [] then Failure else Success(old(Incoming())[0])
      ensures r.Success? ==> PacketIn(primitives, old(Now()), r.value, Now()) && |r.value| < MAX_PACKET_SIZE
      ensures r.Success? ==> Incoming() == old(Incoming())[1..]
      ensures r.Failure? ==> Receive(primitives, old(In()), old(socket.Stream())).Failure?
    {
      ArrivalMoves(primitives, Now());
      r := ReadPacket();
    }

    /** The same, recorded. */
    method ReceivePacket() returns (r: Result<bytes>)
      requires Valid()
      modifies `incomingSequence, `incomingCipher, `history, `ends, `phase, socket`incoming
      ensures ValidIf(r.Success?) && Out() == old(Out())
      ensures history == if r.Success? then old(history) + [Got(r.value)] else old(history)
      ensures phase == if r.Success? then Next(old(phase), Got(r.value)) else old(phase)
      ensures r == if old(Incoming()) == [] then Failure else Success(old(Incoming())[0])
      ensures r.Success? ==> Incoming() == old(Incoming())[1..] && |r.value| < MAX_PACKET_SIZE
    {
      r := ReadArrival();
      if r.Success? {
        Note(Got(r.value));
      }
    }

    /** receive_packet for callers that do not follow the phase. */
    method NextPacket() returns (r: Result<bytes>)
      requires Valid()
      modifies `incomingSequence, `incomingCipher, `history, `ends, `phase, socket`incoming
      ensures ValidIf(r.Success?) && Out() == old(Out())
      ensures history == if r.Success? then old(history) + [Got(r.value)] else old(history)
      ensures r == if old(Incoming()) == [] then Failure else Success(old(Incoming())[0])
      ensures r.Success? ==> Incoming() == old(Incoming())[1..]
    {
      r := ReceivePacket();
    }
  }

  lemma SlicesCompose(s: bytes, a: nat, b: nat)
    requires a + b <= |s|
    ensures s[a..][..b] == s[a..a + b] && s[a..][b..] == s[a + b..]
  {
  }
}
