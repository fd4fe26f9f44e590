/** src/main.cpp from KEXINIT to authentication: which messages are exchanged, and what was checked before each. */
module Login {
  import opened Prelude
  import opened Encoding
  import opened History
  import opened Messages
  import opened Transport
  import opened Trace
  import opened Kex
  import opened Crypto
  import opened Mpint
  import Known = KnownHosts
  import Auth
  import Framing

  /** What a key exchange is given, besides the connection and the known hosts; `client` is our own KEXINIT. */
  datatype Setting = Setting(
    clientId: SshString, serverId: SshString, client: KexInit, privateKey: Bytes32, hostname: bytes, answer: bytes)

  /** What it finds out. The algorithms are always the client's own. */
  datatype Exchange = Exchange(
    server: KexInit, reply: EcdhReply, secret: Bytes32, hash: Bytes32, proof: VerificationData)

  const YES: bytes := Ascii("yes")

  // ---- What a server must send to be trusted ----

  /** What a payload says as the server's KEXINIT: it must parse, and have an algorithm of ours in every category. */
  function Agreed(client: KexInit, payload: bytes): Result<KexInit> {
    var server :- KexInitOf(payload);
    if Negotiable(client, server) then Success(server) else Failure
  }

  /** The shared secret, the exchange hash, and the signature on it with the host key. */
  predicate Proved(p: Primitives, s: Setting, x: Exchange) {
    && |s.client.rawPayload| < TWO_32 && |x.server.rawPayload| < TWO_32
    && p.sharedSecret(s.privateKey, x.reply.serverPublicKey) == Success(x.secret)
    && x.hash == p.sha256(Strings(ExchangeStrings(
         s.clientId, s.serverId, s.client.rawPayload, x.server.rawPayload, x.reply.serverHostKey,
         p.publicKey(s.privateKey), x.reply.serverPublicKey, x.secret)))
    && IsVerificationData(x.reply, SSH_ED25519, x.proof)
    && p.verify(x.proof.signature, x.hash, x.proof.publicKey)
  }

  /** The key is the host's known one, or the host is unknown and the user said yes. */
  predicate HostAccepted(file: Option<bytes>, s: Setting, key: bytes) {
    var status := Known.Check(file, s.hostname, SSH_ED25519, key);
    status == Success(Known.Match) || (status == Success(Known.Unknown) && s.answer == YES)
  }

  /** The first two messages that arrive are a KEXINIT that we agree with, and a reply. */
  predicate Heard(client: KexInit, arriving: seq<bytes>, server: KexInit, reply: EcdhReply) {
    && |arriving| >= 2 && Agreed(client, arriving[0]) == Success(server)
    && arriving[1] == EcdhReplyBytes(reply)
  }

  /** The messages that arrive, and the file of known hosts, make the client trust the server. */
  predicate Acceptable(p: Primitives, s: Setting, file: Option<bytes>, arriving: seq<bytes>, x: Exchange) {
    Heard(s.client, arriving, x.server, x.reply) && Proved(p, s, x) && HostAccepted(file, s, x.reply.serverHostKey)
  }

  /** And then the server switches its keys too. */
  predicate Completed(p: Primitives, s: Setting, file: Option<bytes>, arriving: seq<bytes>, x: Exchange) {
    Acceptable(p, s, file, arriving, x) && |arriving| >= 3 && arriving[2] == [NEWKEYS]
  }

  lemma NeverCompleted(p: Primitives, s: Setting, file: Option<bytes>, arriving: seq<bytes>)
    requires (forall x :: !Acceptable(p, s, file, arriving, x)) || |arriving| < 3 || arriving[2] != [NEWKEYS]
    ensures forall x :: !Completed(p, s, file, arriving, x)
  {
  }

  // ---- The same in bytes ----

  /**
    * The host key, the public point and the signature blob of the second message, what the blobs hold, and the
    * secret.
    */
  datatype Evidence = Evidence(
    hostKey: SshString, point: Bytes32, blob: SshString, publicKey: SshString, signature: SshString, secret: Bytes32)

  /** What the second message that arrives presents. */
  predicate Presented(p: Primitives, s: Setting, arriving: seq<bytes>, v: Evidence) {
    && |arriving| >= 2 && |arriving[0]| < TWO_32 && |s.client.rawPayload| < TWO_32
    && arriving[1] == [31] + (Str(v.hostKey) + Str(v.point) + Str(v.blob))
    && |v.publicKey| == 32 && v.hostKey == Str(Ascii("ssh-ed25519")) + Str(v.publicKey)
    && |v.signature| == 64 && v.blob == Str(Ascii("ssh-ed25519")) + Str(v.signature)
    && p.sharedSecret(s.privateKey, v.point) == Success(v.secret)
  }

  /** The exchange hash of section 8 of RFC 4253: both identifications, both KEXINITs, host key, both points, secret. */
  function HashOf(p: Primitives, s: Setting, arriving: seq<bytes>, v: Evidence): Bytes32
    requires Presented(p, s, arriving, v)
  {
    p.sha256(Str(s.clientId) + Str(s.serverId) + Str(s.client.rawPayload) + Str(arriving[0]) + Str(v.hostKey)
             + Str(p.publicKey(s.privateKey)) + Str(v.point) + Str(Magnitude(v.secret)))
  }

  /** The signature of that hash holds under the host key. */
  predicate Signed(p: Primitives, s: Setting, arriving: seq<bytes>, v: Evidence)
    requires Presented(p, s, arriving, v)
  {
    p.verify(v.signature, HashOf(p, s, arriving, v), v.publicKey)
  }

  /** The file has this key for the host, or no key for it and the user answered "yes". */
  predicate Trusted(file: Option<bytes>, s: Setting, hostKey: bytes) {
    || Known.Check(file, s.hostname, Ascii("ssh-ed25519"), hostKey) == Success(Known.Match)
    || (Known.Check(file, s.hostname, Ascii("ssh-ed25519"), hostKey) == Success(Known.Unknown)
        && s.answer == Ascii("yes"))
  }

  ghost predicate Vouched(p: Primitives, s: Setting, file: Option<bytes>, arriving: seq<bytes>) {
    exists v :: Presented(p, s, arriving, v) && Signed(p, s, arriving, v) && Trusted(file, s, v.hostKey)
  }

  /** The record of an exchange, as evidence. */
  function EvidenceOf(x: Exchange): Evidence
    requires |x.proof.publicKey| == 32 && |x.proof.signature| == 64
  {
    Evidence(x.reply.serverHostKey, x.reply.serverPublicKey, x.reply.signature, x.proof.publicKey, x.proof.signature,
             x.secret)
  }

  lemma ProvedWritten(p: Primitives, s: Setting, x: Exchange, arriving: seq<bytes>)
    requires |arriving| >= 2 && arriving[0] == x.server.rawPayload && arriving[1] == EcdhReplyBytes(x.reply)
    ensures Proved(p, s, x) <==>
      && |x.proof.publicKey| == 32 && |x.proof.signature| == 64 && Presented(p, s, arriving, EvidenceOf(x))
      && x.hash == HashOf(p, s, arriving, EvidenceOf(x)) && Signed(p, s, arriving, EvidenceOf(x))
  {
    VerificationDataWritten(x.reply, SSH_ED25519, x.proof);
    ReplyWritten(x.reply);
    if |s.client.rawPayload| < TWO_32 && |x.server.rawPayload| < TWO_32 {
      EightStrings(s.clientId, s.serverId, s.client.rawPayload, x.server.rawPayload, x.reply.serverHostKey,
                   p.publicKey(s.privateKey), x.reply.serverPublicKey, Magnitude(x.secret));
    }
  }

  /** A message presents one thing at most. */
  lemma PresentedOnce(p: Primitives, s: Setting, arriving: seq<bytes>, v: Evidence, w: Evidence)
    requires Presented(p, s, arriving, v) && Presented(p, s, arriving, w)
    ensures v == w
  {
    ReplyWritten(EcdhReply(v.hostKey, v.point, v.blob));
    ReplyWritten(EcdhReply(w.hostKey, w.point, w.blob));
    ReplyBytesInjective(EcdhReply(v.hostKey, v.point, v.blob), EcdhReply(w.hostKey, w.point, w.blob));
    TwoStrings(SSH_ED25519, v.publicKey);
    TwoStrings(SSH_ED25519, w.publicKey);
    NamedBlobUnique(SSH_ED25519, v.publicKey, w.publicKey);
    TwoStrings(SSH_ED25519, v.signature);
    TwoStrings(SSH_ED25519, w.signature);
    NamedBlobUnique(SSH_ED25519, v.signature, w.signature);
  }

  /** So a server whose signature does not hold, or whose key is not trusted, is not vouched for. */
  lemma NotVouched(p: Primitives, s: Setting, file: Option<bytes>, arriving: seq<bytes>, v: Evidence)
    requires Presented(p, s, arriving, v) && (!Signed(p, s, arriving, v) || !Trusted(file, s, v.hostKey))
    ensures !Vouched(p, s, file, arriving)
  {
    forall w | Presented(p, s, arriving, w)
      ensures w == v
    {
      PresentedOnce(p, s, arriving, v, w);
    }
  }

  lemma AgreedIsPayload(client: KexInit, payload: bytes)
    ensures Agreed(client, payload).Success? ==> Agreed(client, payload).value.rawPayload == payload
  {
    if KexInitOf(payload).Success? {
      KexInitConverse(payload);
    }
  }

  lemma AcceptableIsVouched(p: Primitives, s: Setting, file: Option<bytes>, arriving: seq<bytes>, x: Exchange)
    requires Acceptable(p, s, file, arriving, x)
    ensures Vouched(p, s, file, arriving)
    ensures |x.proof.publicKey| == 32 && |x.proof.signature| == 64 && Presented(p, s, arriving, EvidenceOf(x))
    ensures x.hash == HashOf(p, s, arriving, EvidenceOf(x))
  {
    AgreedIsPayload(s.client, arriving[0]);
    ProvedWritten(p, s, x, arriving);
  }

  lemma VouchedIsAcceptable(p: Primitives, s: Setting, file: Option<bytes>, arriving: seq<bytes>, v: Evidence)
    requires Presented(p, s, arriving, v) && Signed(p, s, arriving, v) && Trusted(file, s, v.hostKey)
    requires Agreed(s.client, arriving[0]).Success?
    ensures exists x :: Acceptable(p, s, file, arriving, x)
  {
    var server, reply := Agreed(s.client, arriving[0]).value, EcdhReply(v.hostKey, v.point, v.blob);
    var x := Exchange(server, reply, v.secret, HashOf(p, s, arriving, v), VerificationData(v.publicKey, v.signature));
    AgreedIsPayload(s.client, arriving[0]);
    ReplyWritten(reply);
    ProvedWritten(p, s, x, arriving);
    assert Acceptable(p, s, file, arriving, x);
  }

  /**
    * A server is acceptable if and only if its KEXINIT agrees with ours, its signature of the exchange hash holds, and
    * its key is the known one or was approved.
    */
  lemma AcceptableExactly(p: Primitives, s: Setting, file: Option<bytes>, arriving: seq<bytes>)
    ensures (exists x :: Acceptable(p, s, file, arriving, x))
       <==> |arriving| >= 2 && Agreed(s.client, arriving[0]).Success? && Vouched(p, s, file, arriving)
  {
    if x :| Acceptable(p, s, file, arriving, x) {
      AcceptableIsVouched(p, s, file, arriving, x);
    }
    if |arriving| >= 2 && Agreed(s.client, arriving[0]).Success? && Vouched(p, s, file, arriving) {
      var v :| Presented(p, s, arriving, v) && Signed(p, s, arriving, v) && Trusted(file, s, v.hostKey);
      VouchedIsAcceptable(p, s, file, arriving, v);
    }
  }

  // ---- A message and its answer ----

  /** Started in stage `from`, an operation left the session in order, and in stage `to` if it completed. */
  twostate predicate Steps(transport: Transport, from: Stage, to: Stage, completed: bool)
    reads transport
  {
    old(transport.phase) == Phase(from, false) ==>
      !transport.phase.stage.Stuck? && (completed ==> transport.phase == Phase(to, false))
  }

  /** It went along this script, against the messages that were to arrive, and to its end if it completed. */
  twostate predicate Goes(transport: Transport, script: seq<Cue>, completed: bool)
    reads transport, transport.socket
  {
    Along(script, old(transport.Incoming()), old(transport.history), transport.history, completed)
  }

  method SendRequest(transport: Transport, request: bytes, ghost from: Stage, ghost asked: Stage)
    returns (r: Result<()>)
    requires transport.Valid() && AfterSent(from, Number(request)) == asked && !from.Stuck? && !asked.Stuck?
    modifies transport, transport.socket
    ensures transport.ValidIf(r.Success?) && transport.Out().Block() == old(transport.Out().Block())
    ensures transport.Incoming() == old(transport.Incoming())
    ensures transport.history == if r.Success? then old(transport.history) + [Sent(request)] else old(transport.history)
    ensures if r.Success? then Framing.Sendable(|request|, old(transport.Out().Block()))
            else transport.writeFailed || !Framing.Sendable(|request|, old(transport.Out().Block()))
    ensures Steps(transport, from, asked, r.Success?)
  {
    r := transport.SendPacket(request);
  }

  method ReceiveAnswer(transport: Transport, ghost asked: Stage, ghost wanted: byte, ghost to: Stage)
    returns (r: Result<bytes>)
    requires transport.Valid() && Listening(asked) && !Answering(asked) && AfterGot(asked, wanted) == to
    modifies transport, transport.socket
    ensures transport.ValidIf(r.Success?) && transport.Out() == old(transport.Out())
    ensures r == if old(transport.Incoming()) == [] then Failure else Success(old(transport.Incoming())[0])
    ensures transport.history == if r.Success? then old(transport.history) + [Got(r.value)] else old(transport.history)
    ensures r.Success? ==> transport.Incoming() == old(transport.Incoming())[1..] && |r.value| < TWO_32
    ensures Steps(transport, asked, to, r.Success? && Number(r.value) == wanted)
  {
    AnswerPhase(asked, to, if transport.Incoming() == [] then [] else transport.Incoming()[0]);
    r := transport.ReceivePacket();
  }

  lemma AnswerPhase(asked: Stage, to: Stage, m: bytes)
    requires Listening(asked) && !Answering(asked)
    ensures var next := Next(Phase(asked, false), Got(m));
            !next.stage.Stuck? && (AfterGot(asked, Number(m)) == to ==> next == Phase(to, false))
  {
  }

  /** Sends in stage `from`, and reads in stage `asked` what should lead to stage `to`. */
  method Ask(transport: Transport, request: bytes, ghost from: Stage, ghost asked: Stage, ghost wanted: byte,
             ghost to: Stage)
    returns (r: Result<bytes>)
    requires transport.Valid() && !from.Stuck?
    requires AfterSent(from, Number(request)) == asked && Listening(asked) && !Answering(asked)
      && AfterGot(asked, wanted) == to
    modifies transport, transport.socket
    ensures transport.ValidIf(r.Success?) && transport.Out().Block() == old(transport.Out().Block())
    ensures r.Success? ==>
      && Framing.Sendable(|request|, old(transport.Out().Block()))
      && old(transport.Incoming()) != [] && r.value == old(transport.Incoming())[0] && |r.value| < TWO_32
      && transport.Incoming() == old(transport.Incoming())[1..]
    ensures r.Failure? ==>
      transport.writeFailed || !Framing.Sendable(|request|, old(transport.Out().Block()))
      || old(transport.Incoming()) == []
    ensures Steps(transport, from, to, r.Success? && Number(r.value) == wanted)
    ensures Goes(transport, Dialogue(request), r.Success?)
  {
    ghost var arriving, h := transport.Incoming(), transport.history;
    var sent := SendRequest(transport, request, from, asked);
    if sent.Failure? {
      DialogueAlong(request, arriving, h, transport.history, false, false);
      return Failure;
    }
    r := ReceiveAnswer(transport, asked, wanted, to);
    DialogueAlong(request, arriving, h, transport.history, true, r.Success?);
  }

  // ---- KEXINIT and the ECDH exchange ----

  /** A KEXINIT of ours, whatever its cookie. */
  predicate IsOurs(client: KexInit) {
    && client.Lists() == ClientLists() && |client.rawPayload| <= 702 && Number(client.rawPayload) == KEXINIT
    && KexInitOf(client.rawPayload) == Success(client)
  }

  /** The record that send_kexinit sends. */
  method CreateOwnKexInit(cookie: Cookie) returns (client: KexInit)
    ensures IsOurs(client) && client.cookie == cookie
  {
    OwnKexInitRead(cookie);
    client := CreateClientKexInit(cookie);
  }

  /** What the client does with the server's first message. */
  method JudgeKexInit(client: KexInit, payload: bytes) returns (r: Result<KexInit>)
    requires client.Lists() == ClientLists()
    ensures r == Agreed(client, payload)
    ensures r.Success? ==> r.value.rawPayload == payload && Number(payload) == KEXINIT
  {
    if payload == [] {
      return Failure;
    }
    if payload[0] != KEXINIT {
      return Failure;
    }
    var server :- ParseKexInit(payload);
    var _ :- NegotiateOurs(client, server);
    return Success(server);
  }

  method NegotiateOurs(client: KexInit, server: KexInit) returns (r: Result<()>)
    requires client.Lists() == ClientLists()
    ensures r.Success? <==> Negotiable(client, server)
  {
    var chosen :- Negotiate(client, server);
    // the source now throws unless the method is the one of `OurNames`, and later uses the host key algorithm
    OursAreNames(client);
    OnlyItself(client.kexAlgorithms, server.kexAlgorithms, chosen.kex);
    OnlyItself(client.hostKeyAlgorithms, server.hostKeyAlgorithms, chosen.hostKey);
    assert chosen.kex == client.kexAlgorithms && chosen.hostKey == client.hostKeyAlgorithms;
    return Success(());
  }

  lemma OursAreNames(client: KexInit)
    requires client.Lists() == ClientLists()
    ensures client.kexAlgorithms != [] && COMMA !in client.kexAlgorithms
    ensures client.hostKeyAlgorithms != [] && COMMA !in client.hostKeyAlgorithms
  {
    assert client.kexAlgorithms == client.Lists()[0] && client.hostKeyAlgorithms == client.Lists()[1];
    OwnNameIsOne(0);
    OwnNameIsOne(1);
  }

  /** Whatever the server lists, from a list of one name only that name can be chosen. */
  lemma OnlyItself(name: bytes, theirs: bytes, chosen: bytes)
    requires name != [] && COMMA !in name && Choose(name, theirs) == Success(chosen)
    ensures chosen == name
  {
    OnlyOneChoice(name, theirs);
  }

  lemma OurNames(client: KexInit)
    requires client.Lists() == ClientLists()
    ensures client.kexAlgorithms == Ascii("curve25519-sha256") && client.hostKeyAlgorithms == Ascii("ssh-ed25519")
  {
    assert client.kexAlgorithms == client.Lists()[0] && client.hostKeyAlgorithms == client.Lists()[1];
  }

  /** send_kexinit, receive_kexinit and negotiate. */
  method AgreeOnAlgorithms(transport: Transport, client: KexInit) returns (r: Result<KexInit>)
    requires transport.Valid() && IsOurs(client)
    modifies transport, transport.socket
    ensures transport.ValidIf(r.Success?)
    ensures Steps(transport, Start, KexInitGot, r.Success?) && Goes(transport, Dialogue(client.rawPayload), r.Success?)
    ensures r.Success? ==>
      && old(transport.Incoming()) != [] && r == Agreed(client, old(transport.Incoming())[0])
      && transport.Incoming() == old(transport.Incoming())[1..] && |r.value.rawPayload| < TWO_32
    ensures r.Failure? ==>
      transport.writeFailed || old(transport.Incoming()) == []
        || Agreed(client, old(transport.Incoming())[0]).Failure?
  {
    Framing.SendableSizes(|client.rawPayload|);
    var payload :- Ask(transport, client.rawPayload, Start, KexInitSent, KEXINIT, KexInitGot);
    r := JudgeKexInit(client, payload);
  }

  /** Our public key, and the server's reply. */
  method ExchangeKeys(transport: Transport, publicKey: Bytes32) returns (r: Result<EcdhReply>)
    requires transport.Valid()
    modifies transport, transport.socket
    ensures transport.ValidIf(r.Success?)
    ensures Steps(transport, KexInitGot, EcdhReplyGot, r.Success?)
    ensures Goes(transport, Dialogue([KEX_ECDH_INIT] + Str(publicKey)), r.Success?)
    ensures r.Success? ==>
      && old(transport.Incoming()) != [] && old(transport.Incoming())[0] == EcdhReplyBytes(r.value)
      && transport.Incoming() == old(transport.Incoming())[1..]
    ensures r.Failure? ==>
      transport.writeFailed || old(transport.Incoming()) == []
      || !IsReply(old(transport.Incoming())[0])
  {
    var init := AppendShortString([KEX_ECDH_INIT], publicKey);
    r := AskReply(transport, init);
  }

  method AskReply(transport: Transport, request: bytes) returns (r: Result<EcdhReply>)
    requires transport.Valid() && 1 <= |request| <= 34983 && Number(request) == KEX_ECDH_INIT
    modifies transport, transport.socket
    ensures transport.ValidIf(r.Success?)
    ensures Steps(transport, KexInitGot, EcdhReplyGot, r.Success?) && Goes(transport, Dialogue(request), r.Success?)
    ensures r.Success? ==>
      && old(transport.Incoming()) != [] && old(transport.Incoming())[0] == EcdhReplyBytes(r.value)
      && transport.Incoming() == old(transport.Incoming())[1..]
    ensures r.Failure? ==>
      transport.writeFailed || old(transport.Incoming()) == []
      || !IsReply(old(transport.Incoming())[0])
  {
    Framing.SendableSizes(|request|);
    var payload :- Ask(transport, request, KexInitGot, EcdhInitSent, KEX_ECDH_REPLY, EcdhReplyGot);
    if payload == [] || payload[0] != KEX_ECDH_REPLY {
      NotAReply(payload);
    }
    if payload == [] {
      return Failure;
    }
    if payload[0] != KEX_ECDH_REPLY {
      return Failure;
    }
    r := ParseEcdhReply(payload);
  }

  // ---- Trust ----

  method VerifyServer(p: Primitives, s: Setting, server: KexInit, reply: EcdhReply) returns (r: Result<Exchange>)
    requires |server.rawPayload| < TWO_32 && |s.client.rawPayload| < TWO_32
    ensures r.Success? ==> r.value.server == server && r.value.reply == reply && Proved(p, s, r.value)
    ensures r.Failure? ==> forall x: Exchange :: x.server == server && x.reply == reply ==> !Proved(p, s, x)
    ensures r.Success? ==> var x := r.value;
      && p.sharedSecret(s.privateKey, reply.serverPublicKey) == Success(x.secret)
      && x.hash == p.sha256(
           Str(s.clientId) + Str(s.serverId) + Str(s.client.rawPayload) + Str(server.rawPayload)
             + Str(reply.serverHostKey) + Str(p.publicKey(s.privateKey)) + Str(reply.serverPublicKey)
             + Str(Magnitude(x.secret)))
      && |x.proof.publicKey| == 32 && |x.proof.signature| == 64
      && reply.serverHostKey == Str(Ascii("ssh-ed25519")) + Str(x.proof.publicKey)
      && reply.signature == Str(Ascii("ssh-ed25519")) + Str(x.proof.signature)
      && p.verify(x.proof.signature, x.hash, x.proof.publicKey)
  {
    var publicKey := p.publicKey(s.privateKey);
    var secret :- p.sharedSecret(s.privateKey, reply.serverPublicKey);
    var hash := CalculateExchangeHash(p, s.clientId, s.serverId, s.client.rawPayload, server.rawPayload,
                                      reply, publicKey, secret);
    var proof :- ParseEd25519VerificationData(reply, SSH_ED25519);
    if !p.verify(proof.signature, hash, proof.publicKey) {
      forall other | IsVerificationData(reply, SSH_ED25519, other)
        ensures other == proof
      {
        VerificationDataUnique(reply, SSH_ED25519, other, proof);
      }
      return Failure;
    }
    return Success(Exchange(server, reply, secret, hash, proof));
  }

  /** The file after an accepted key: one that was unknown is saved. */
  function Saved(file: Option<bytes>, s: Setting, key: bytes): Option<bytes> {
    var after := Known.Add(file, s.hostname, SSH_ED25519, key);
    if after.Success? then after.value else file
  }

  method AcceptHostKey(knownHosts: Known.KnownHosts, s: Setting, key: bytes) returns (r: Result<()>)
    modifies knownHosts
    ensures r.Success? <==> HostAccepted(old(knownHosts.file), s, key)
    ensures r.Success? <==> Trusted(old(knownHosts.file), s, key)
    ensures knownHosts.file == if r.Success? then Saved(old(knownHosts.file), s, key) else old(knownHosts.file)
  {
    var status :- knownHosts.CheckHost(s.hostname, SSH_ED25519, key);
    match status {
      case Match =>
        return Success(());
      case Changed =>
        return Failure;
      case Unknown =>
        if s.answer != YES {
          return Failure;
        }
        r := knownHosts.AddHost(s.hostname, SSH_ED25519, key);
    }
  }

  /** KEXINIT both ways, our public key, and the reply. */
  function Greeting(p: Primitives, s: Setting): seq<Cue> {
    Dialogue(s.client.rawPayload) + Dialogue([KEX_ECDH_INIT] + Str(p.publicKey(s.privateKey)))
  }

  method ExchangeMessages(transport: Transport, s: Setting) returns (r: Result<(KexInit, EcdhReply)>)
    requires transport.Valid() && IsOurs(s.client)
    modifies transport, transport.socket
    ensures transport.ValidIf(r.Success?)
    ensures Steps(transport, Start, EcdhReplyGot, r.Success?)
    ensures Goes(transport, Greeting(transport.primitives, s), r.Success?)
    ensures r.Success? ==>
      && Heard(s.client, old(transport.Incoming()), r.value.0, r.value.1) && |r.value.0.rawPayload| < TWO_32
      && transport.Incoming() == old(transport.Incoming())[2..]
    ensures r.Failure? ==>
      transport.writeFailed || forall server, reply :: !Heard(s.client, old(transport.Incoming()), server, reply)
  {
    ghost var arriving, h := transport.Incoming(), transport.history;
    var publicKey := transport.primitives.publicKey(s.privateKey);
    ghost var first, second := Dialogue(s.client.rawPayload), Dialogue([KEX_ECDH_INIT] + Str(publicKey));
    var server := AgreeOnAlgorithms(transport, s.client);
    if server.Failure? {
      if !transport.writeFailed {
        NeverHeard(s.client, arriving);
      }
      AlongFirst(first, second, arriving, h, transport.history);
      return Failure;
    }
    ghost var middle := transport.history;
    var reply := ExchangeKeys(transport, publicKey);
    DialoguesInTurn(s.client.rawPayload, second, arriving, h, middle, transport.history, reply.Success?);
    if reply.Failure? {
      if !transport.writeFailed {
        NeverHeard(s.client, arriving);
      }
      return Failure;
    }
    return Success((server.value, reply.value));
  }

  /** A message and its answer, and then another script. */
  lemma DialoguesInTurn(request: bytes, rest: seq<Cue>, arriving: seq<bytes>, h: seq<Event>, middle: seq<Event>,
                        after: seq<Event>, completed: bool)
    requires arriving != [] && Along(Dialogue(request), arriving, h, middle, true)
    requires Along(rest, arriving[1..], middle, after, completed)
    ensures Along(Dialogue(request) + rest, arriving, h, after, completed)
  {
    DialoguePlayed(request, arriving);
    AlongThen(Dialogue(request), rest, arriving, h, middle, after, completed);
  }

  lemma NeverHeard(client: KexInit, arriving: seq<bytes>)
    requires |arriving| < 2 || Agreed(client, arriving[0]).Failure?
             || !IsReply(arriving[1])
    ensures forall server, reply :: !Heard(client, arriving, server, reply)
  {
  }

  /** Nothing that was heard proves the server and is accepted. */
  ghost predicate Rejected(p: Primitives, s: Setting, file: Option<bytes>, server: KexInit, reply: EcdhReply) {
    forall x: Exchange :: x.server == server && x.reply == reply && Proved(p, s, x) ==>
      !HostAccepted(file, s, reply.serverHostKey)
  }

  /** The proof and the decision about the host key, for what was heard. */
  method JudgeServer(p: Primitives, s: Setting, knownHosts: Known.KnownHosts, server: KexInit, reply: EcdhReply)
    returns (r: Result<Exchange>)
    requires |server.rawPayload| < TWO_32 && |s.client.rawPayload| < TWO_32
    modifies knownHosts
    ensures r.Success? ==> var x := r.value;
      && x.server == server && x.reply == reply && Proved(p, s, x)
      && HostAccepted(old(knownHosts.file), s, reply.serverHostKey)
      && knownHosts.file == Saved(old(knownHosts.file), s, reply.serverHostKey)
    ensures r.Failure? ==>
      && knownHosts.file == old(knownHosts.file)
      && Rejected(p, s, old(knownHosts.file), server, reply)
  {
    var x :- VerifyServer(p, s, server, reply);
    var _ :- AcceptHostKey(knownHosts, s, reply.serverHostKey);
    return Success(x);
  }

  /** What was heard, if anything, and what was made of it. */
  method HearAndJudge(transport: Transport, s: Setting, knownHosts: Known.KnownHosts)
    returns (r: Result<Exchange>, ghost heard: Option<(KexInit, EcdhReply)>)
    requires transport.Valid() && IsOurs(s.client)
    modifies transport, transport.socket, knownHosts
    ensures transport.ValidIf(r.Success?)
    ensures Steps(transport, Start, EcdhReplyGot, r.Success?)
    ensures Goes(transport, Greeting(transport.primitives, s), r.Success?)
    ensures knownHosts.file == if r.Success? then Saved(old(knownHosts.file), s, r.value.reply.serverHostKey)
      else old(knownHosts.file)
    ensures heard.None? ==>
      && r.Failure?
      && (transport.writeFailed
          || forall server, reply :: !Heard(s.client, old(transport.Incoming()), server, reply))
    ensures heard.Some? ==> Heard(s.client, old(transport.Incoming()), heard.value.0, heard.value.1)
    ensures r.Success? ==> var x := r.value;
      && heard == Some((x.server, x.reply))
      && Proved(transport.primitives, s, x) && HostAccepted(old(knownHosts.file), s, x.reply.serverHostKey)
      && transport.Incoming() == old(transport.Incoming())[2..]
    ensures r.Failure? && heard.Some? ==>
      Rejected(transport.primitives, s, old(knownHosts.file), heard.value.0, heard.value.1)
  {
    var messages := ExchangeMessages(transport, s);
    if messages.Failure? {
      return Failure, None;
    }
    r := JudgeServer(transport.primitives, s, knownHosts, messages.value.0, messages.value.1);
    heard := Some(messages.value);
  }

  /** It succeeds exactly if what arrives is acceptable, unless the socket takes too few bytes. */
  method TrustServer(transport: Transport, s: Setting, knownHosts: Known.KnownHosts) returns (r: Result<Exchange>)
    requires transport.Valid() && IsOurs(s.client)
    modifies transport, transport.socket, knownHosts
    ensures transport.ValidIf(r.Success?)
    ensures Steps(transport, Start, EcdhReplyGot, r.Success?)
    ensures Goes(transport, Greeting(transport.primitives, s), r.Success?)
    ensures r.Success? ==> var x := r.value;
      && Acceptable(transport.primitives, s, old(knownHosts.file), old(transport.Incoming()), x)
      && knownHosts.file == Saved(old(knownHosts.file), s, x.reply.serverHostKey)
      && transport.Incoming() == old(transport.Incoming())[2..]
    ensures r.Failure? ==> knownHosts.file == old(knownHosts.file)
    ensures r.Failure? ==>
      transport.writeFailed
      || forall x :: !Acceptable(transport.primitives, s, old(knownHosts.file), old(transport.Incoming()), x)
  {
    ghost var file, arriving := knownHosts.file, transport.Incoming();
    ghost var heard;
    r, heard := HearAndJudge(transport, s, knownHosts);
    if r.Failure? && !transport.writeFailed {
      NeverAcceptable(transport.primitives, s, file, arriving, heard);
    }
  }

  lemma NeverAcceptable(p: Primitives, s: Setting, file: Option<bytes>, arriving: seq<bytes>,
                        heard: Option<(KexInit, EcdhReply)>)
    requires heard.None? ==> forall server, reply :: !Heard(s.client, arriving, server, reply)
    requires heard.Some? ==> Heard(s.client, arriving, heard.value.0, heard.value.1)
    requires heard.Some? ==> Rejected(p, s, file, heard.value.0, heard.value.1)
    ensures forall x :: !Acceptable(p, s, file, arriving, x)
  {
    if heard.Some? {
      OnlyOneHeard(s.client, arriving, heard.value.0, heard.value.1);
    }
  }

  /** The two messages determine the server's record and reply. */
  lemma OnlyOneHeard(client: KexInit, arriving: seq<bytes>, server: KexInit, reply: EcdhReply)
    requires Heard(client, arriving, server, reply)
    ensures forall server', reply' :: Heard(client, arriving, server', reply') ==> server' == server && reply' == reply
  {
    forall server', reply' | Heard(client, arriving, server', reply')
      ensures reply' == reply
    {
      ReplyBytesInjective(reply', reply);
    }
  }

  // ---- NEWKEYS ----

  function Under(k: Framing.Keys): Framing.Protection {
    Framing.Protected(Cipher(k.encryptionKey, k.iv, 0), k.macKey)
  }

  method SwitchOutgoing(transport: Transport, keys: Framing.Keys)
    requires transport.Valid()
    modifies transport
    ensures transport.Valid() && transport.Reading() == old(transport.Reading())
      && transport.Out().protection == Under(keys)
    ensures transport.history == old(transport.history) + [KeysOut(keys)]
    ensures Steps(transport, NewKeysSent, KeysOutInstalled, true)
  {
    transport.EnableOutgoingEncryption(keys);
  }

  method SwitchIncoming(transport: Transport, keys: Framing.Keys)
    requires transport.Valid()
    modifies transport
    ensures transport.Valid() && transport.Out() == old(transport.Out()) && transport.In().protection == Under(keys)
    ensures transport.history == old(transport.history) + [KeysIn(keys)]
    ensures Steps(transport, NewKeysGot, Secured, true)
  {
    transport.EnableIncomingEncryption(keys);
  }

  /** Our NEWKEYS goes out under the old protection, and everything after it under the new. */
  method SendNewKeys(transport: Transport, keys: Framing.Keys) returns (r: Result<()>)
    requires transport.Valid()
    modifies transport, transport.socket
    ensures transport.ValidIf(r.Success?) && transport.Incoming() == old(transport.Incoming())
    ensures r.Success? ==>
      && transport.history == old(transport.history) + [Sent([NEWKEYS])] + [KeysOut(keys)]
      && transport.Out().protection == Under(keys)
    ensures r.Failure? ==> transport.writeFailed && transport.history == old(transport.history)
    ensures Steps(transport, EcdhReplyGot, KeysOutInstalled, r.Success?)
  {
    var payload := [NEWKEYS];
    Framing.SendableSizes(|payload|);
    var _ :- SendRequest(transport, payload, EcdhReplyGot, NewKeysSent);
    SwitchOutgoing(transport, keys);
    return Success(());
  }

  /** The server's NEWKEYS comes in under the old protection, and everything after it under the new. */
  method ReceiveNewKeys(transport: Transport, keys: Framing.Keys) returns (r: Result<()>)
    requires transport.Valid()
    modifies transport, transport.socket
    ensures transport.ValidIf(r.Success?) && transport.Out() == old(transport.Out())
    ensures r.Success? <==> old(transport.Incoming()) != [] && old(transport.Incoming())[0] == [NEWKEYS]
    ensures r.Success? ==>
      && transport.history == old(transport.history) + [Got(old(transport.Incoming())[0])] + [KeysIn(keys)]
      && transport.In().protection == Under(keys)
    ensures r.Failure? ==>
      transport.history == old(transport.history)
        + if old(transport.Incoming()) == [] then [] else [Got(old(transport.Incoming())[0])]
    ensures Steps(transport, KeysOutInstalled, Secured, r.Success?)
  {
    var reply :- ReceiveAnswer(transport, KeysOutInstalled, NEWKEYS, NewKeysGot);
    if |reply| != 1 {
      return Failure;
    }
    if reply[0] != NEWKEYS {
      return Failure;
    }
    SwitchIncoming(transport, keys);
    return Success(());
  }

  /** NEWKEYS each way, and the installation of the keys behind it. */
  function SwitchScript(clientToServer: Framing.Keys, serverToClient: Framing.Keys): seq<Cue> {
    [Does(Sent([NEWKEYS])), Does(KeysOut(clientToServer)), Hears, Does(KeysIn(serverToClient))]
  }

  lemma SwitchPlayed(clientToServer: Framing.Keys, serverToClient: Framing.Keys, arriving: seq<bytes>)
    ensures Played(SwitchScript(clientToServer, serverToClient), arriving)
         == [Sent([NEWKEYS])] + ([KeysOut(clientToServer)]
              + if arriving == [] then [] else [Got(arriving[0])] + [KeysIn(serverToClient)])
  {
    var script := SwitchScript(clientToServer, serverToClient);
    PlayedHead(script, arriving);
    PlayedHead(script[1..], arriving);
    PlayedHead(script[1..][1..], arriving);
    var last: seq<Cue> := [Does(KeysIn(serverToClient))];
    assert script[1..][1..][1..] == last && last[1..] == [];
  }

  /** How far a switch gets that sent and received, or only sent, or not even that. */
  lemma SwitchAlong(clientToServer: Framing.Keys, serverToClient: Framing.Keys, arriving: seq<bytes>, h: seq<Event>,
                    after: seq<Event>, sent: bool, completed: bool)
    requires !sent ==> after == h && !completed
    requires var middle := h + [Sent([NEWKEYS])] + [KeysOut(clientToServer)];
             var heard := if arriving == [] then [] else [Got(arriving[0])];
             sent ==> after == middle + heard + (if completed then [KeysIn(serverToClient)] else [])
                      && (completed ==> arriving != [])
    ensures Along(SwitchScript(clientToServer, serverToClient), arriving, h, after, completed)
    ensures !completed ==> |after| < |h| + 4
  {
    SwitchPlayed(clientToServer, serverToClient, arriving);
  }

  method SwitchKeys(transport: Transport, clientToServer: Framing.Keys, serverToClient: Framing.Keys)
    returns (r: Result<()>)
    requires transport.Valid()
    modifies transport, transport.socket
    ensures transport.ValidIf(r.Success?)
    ensures Steps(transport, EcdhReplyGot, Secured, r.Success?)
    ensures Goes(transport, SwitchScript(clientToServer, serverToClient), r.Success?)
    ensures r.Success? ==>
      && old(transport.Incoming()) != [] && old(transport.Incoming())[0] == [NEWKEYS]
      && transport.Out().Block() == Framing.AES_BLOCK_SIZE
    ensures r.Failure? ==>
      && |transport.history| < |old(transport.history)| + 4
      && (transport.writeFailed || old(transport.Incoming()) == [] || old(transport.Incoming())[0] != [NEWKEYS])
  {
    ghost var arriving, h := transport.Incoming(), transport.history;
    var sent := SendNewKeys(transport, clientToServer);
    if sent.Failure? {
      SwitchAlong(clientToServer, serverToClient, arriving, h, transport.history, false, false);
      return Failure;
    }
    r := ReceiveNewKeys(transport, serverToClient);
    SwitchAlong(clientToServer, serverToClient, arriving, h, transport.history, true, r.Success?);
  }

  /** The switch to the keys of an exchange, with the letters of section 7.2 of RFC 4253. */
  function SwitchTo(p: Primitives, x: Exchange): seq<Cue> {
    SwitchScript(KeysFor(p, x.secret, x.hash, x.hash, 65, 67, 69), KeysFor(p, x.secret, x.hash, x.hash, 66, 68, 70))
  }

  /** Derives the keys, with the exchange hash as session id, and switches to them. */
  method DeriveAndSwitch(transport: Transport, x: Exchange) returns (r: Result<()>)
    requires transport.Valid()
    modifies transport, transport.socket
    ensures transport.ValidIf(r.Success?)
    ensures Steps(transport, EcdhReplyGot, Secured, r.Success?)
    ensures Goes(transport, SwitchTo(transport.primitives, x), r.Success?)
    ensures r.Success? ==>
      && old(transport.Incoming()) != [] && old(transport.Incoming())[0] == [NEWKEYS]
      && transport.Out().Block() == Framing.AES_BLOCK_SIZE
    ensures r.Failure? ==>
      && |transport.history| < |old(transport.history)| + 4
      && (transport.writeFailed || old(transport.Incoming()) == [] || old(transport.Incoming())[0] != [NEWKEYS])
  {
    var sessionId := x.hash;
    var clientToServer, serverToClient := DeriveTransportKeys(transport.primitives, x.secret, x.hash, sessionId);
    r := SwitchKeys(transport, clientToServer, serverToClient);
  }

  /** All of the exchange; the second half only with a server that is acceptable. */
  function ExchangeScript(p: Primitives, s: Setting, x: Option<Exchange>): seq<Cue> {
    Greeting(p, s) + if x.Some? then SwitchTo(p, x.value) else []
  }

  /** What became of the known hosts: an acceptable server's key is saved if it is new, and otherwise nothing is. */
  predicate Judged(p: Primitives, s: Setting, file: Option<bytes>, arriving: seq<bytes>, x: Option<Exchange>,
                   after: Option<bytes>)
  {
    match x
    case None => after == file
    case Some(v) => Acceptable(p, s, file, arriving, v) && after == Saved(file, s, v.reply.serverHostKey)
  }

  lemma GreetingFirst(p: Primitives, s: Setting, x: Option<Exchange>, arriving: seq<bytes>, h: seq<Event>,
                      after: seq<Event>)
    requires Along(Greeting(p, s), arriving, h, after, false)
    ensures Along(ExchangeScript(p, s, x), arriving, h, after, false) && |after| <= |h| + 4
  {
    AlongFirst(Greeting(p, s), if x.Some? then SwitchTo(p, x.value) else [], arriving, h, after);
    PlayedThen(Greeting(p, s), [], arriving);
  }

  lemma GreetingThen(p: Primitives, s: Setting, x: Exchange, arriving: seq<bytes>, h: seq<Event>, middle: seq<Event>,
                     after: seq<Event>, completed: bool)
    requires |arriving| >= 2 && Along(Greeting(p, s), arriving, h, middle, true)
    requires Along(SwitchTo(p, x), arriving[2..], middle, after, completed)
    ensures Along(ExchangeScript(p, s, Some(x)), arriving, h, after, completed) && |middle| == |h| + 4
  {
    var first, second := Dialogue(s.client.rawPayload), Dialogue([KEX_ECDH_INIT] + Str(p.publicKey(s.privateKey)));
    HearingsThen(first, second);
    DialoguePlayed(s.client.rawPayload, arriving);
    DialoguePlayed([KEX_ECDH_INIT] + Str(p.publicKey(s.privateKey)), arriving);
    AlongThen(Greeting(p, s), SwitchTo(p, x), arriving, h, middle, after, completed);
  }

  /** The second half, when the greeting was completed. */
  method SwitchBehind(transport: Transport, s: Setting, x: Exchange, ghost arriving: seq<bytes>, ghost h: seq<Event>)
    returns (r: Result<()>)
    requires transport.Valid() && |arriving| >= 2 && transport.Incoming() == arriving[2..]
    requires Along(Greeting(transport.primitives, s), arriving, h, transport.history, true)
    modifies transport, transport.socket
    ensures transport.ValidIf(r.Success?)
    ensures Steps(transport, EcdhReplyGot, Secured, r.Success?)
    ensures Along(ExchangeScript(transport.primitives, s, Some(x)), arriving, h, transport.history, r.Success?)
    ensures var third := |arriving| >= 3 && arriving[2] == [NEWKEYS];
      if r.Success? then third && transport.Out().Block() == Framing.AES_BLOCK_SIZE
      else |transport.history| < |h| + 8 && (transport.writeFailed || !third)
  {
    ghost var middle := transport.history;
    r := DeriveAndSwitch(transport, x);
    GreetingThen(transport.primitives, s, x, arriving, h, middle, transport.history, r.Success?);
  }

  /** The same as the two parts say it. */
  method TrustAndSwitch(transport: Transport, s: Setting, knownHosts: Known.KnownHosts)
    returns (r: Result<()>, ghost x: Option<Exchange>)
    requires transport.Valid() && IsOurs(s.client)
    modifies transport, transport.socket, knownHosts
    ensures transport.ValidIf(r.Success?)
    ensures Steps(transport, Start, Secured, r.Success?)
    ensures Goes(transport, ExchangeScript(transport.primitives, s, x), r.Success?)
    ensures Judged(transport.primitives, s, old(knownHosts.file), old(transport.Incoming()), x, knownHosts.file)
    ensures r.Failure? ==> |transport.history| < |old(transport.history)| + 8
    ensures x.None? ==>
      && r.Failure?
      && (transport.writeFailed
          || forall y :: !Acceptable(transport.primitives, s, old(knownHosts.file), old(transport.Incoming()), y))
    ensures x.Some? ==>
      var third := |old(transport.Incoming())| >= 3 && old(transport.Incoming())[2] == [NEWKEYS];
      if r.Failure? then transport.writeFailed || !third
      else third && transport.Out().Block() == Framing.AES_BLOCK_SIZE
  {
    ghost var p, arriving, h := transport.primitives, transport.Incoming(), transport.history;
    x := None;
    var trusted := TrustServer(transport, s, knownHosts);
    if trusted.Failure? {
      GreetingFirst(p, s, None, arriving, h, transport.history);
      return Failure, x;
    }
    x := Some(trusted.value);
    r := SwitchBehind(transport, s, trusted.value, arriving, h);
  }

  /** NEWKEYS was sent, or keys were installed. */
  predicate Committed(h: seq<Event>) {
    exists i :: 0 <= i < |h| && (h[i] == Sent([21]) || h[i].KeysOut? || h[i].KeysIn?)
  }

  /** The greeting alone commits to nothing. */
  lemma GreetingCommitsNothing(p: Primitives, s: Setting, arriving: seq<bytes>, h: seq<Event>)
    requires IsOurs(s.client) && h <= Played(Greeting(p, s), arriving)
    ensures !Committed(h) && |h| <= 4
  {
    var first, second := s.client.rawPayload, [KEX_ECDH_INIT] + Str(p.publicKey(s.privateKey));
    PlayedThen(Greeting(p, s), [], arriving);
    DialoguePlayed(first, arriving);
    PlayedThen(Dialogue(first), Dialogue(second), arriving);
    if arriving == [] {
      GreetingUnanswered(first, second);
    } else {
      DialoguePlayed(second, arriving[1..]);
    }
  }

  lemma GreetingUnanswered(first: bytes, second: bytes)
    ensures Played(Dialogue(first) + Dialogue(second), []) == [Sent(first)]
  {
    var script: seq<Cue> := Dialogue(first) + Dialogue(second);
    PlayedHead(script, []);
    PlayedHead(script[1..], []);
    assert script[0] == Does(Sent(first)) && script[1..][0] == Hears;
  }

  /** Keys of section 7.2 of RFC 4253, with the exchange hash as session id, for the letters of one direction. */
  predicate KeysAre(p: Primitives, secret: Bytes32, h: Bytes32, a: char, b: char, c: char, keys: Framing.Keys)
    requires a as int < 256 && b as int < 256 && c as int < 256
  {
    && keys.iv == p.sha256(Str(Magnitude(secret)) + h + [a as int] + h)[..16]
    && keys.encryptionKey == p.sha256(Str(Magnitude(secret)) + h + [b as int] + h)
    && keys.macKey == p.sha256(Str(Magnitude(secret)) + h + [c as int] + h)
  }

  /** What a completed exchange does, event by event, with keys from its own hash. */
  lemma ExchangeWritten(p: Primitives, s: Setting, file: Option<bytes>, arriving: seq<bytes>, x: Exchange, v: Evidence)
    returns (ours: Framing.Keys, theirs: Framing.Keys)
    requires Completed(p, s, file, arriving, x) && Presented(p, s, arriving, v)
    ensures KeysAre(p, v.secret, HashOf(p, s, arriving, v), 'A', 'C', 'E', ours)
    ensures KeysAre(p, v.secret, HashOf(p, s, arriving, v), 'B', 'D', 'F', theirs)
    ensures Played(ExchangeScript(p, s, Some(x)), arriving)
      == [Sent(s.client.rawPayload), Got(arriving[0]), Sent([30] + Str(p.publicKey(s.privateKey))),
          Got(arriving[1]), Sent([21]), KeysOut(ours), Got([21]), KeysIn(theirs)]
  {
    AcceptableIsVouched(p, s, file, arriving, x);
    PresentedOnce(p, s, arriving, v, EvidenceOf(x));
    ours := KeysFor(p, x.secret, x.hash, x.hash, 65, 67, 69);
    theirs := KeysFor(p, x.secret, x.hash, x.hash, 66, 68, 70);
    KeysWritten(p, x.secret, x.hash, 'A', 'C', 'E', ours);
    KeysWritten(p, x.secret, x.hash, 'B', 'D', 'F', theirs);
    ScriptWritten(p, s, x, ours, theirs);
    ExchangePlayedOut(s.client.rawPayload, [30] + Str(p.publicKey(s.privateKey)), ours, theirs, arriving);
  }

  lemma ScriptWritten(p: Primitives, s: Setting, x: Exchange, ours: Framing.Keys, theirs: Framing.Keys)
    requires ours == KeysFor(p, x.secret, x.hash, x.hash, 65, 67, 69)
    requires theirs == KeysFor(p, x.secret, x.hash, x.hash, 66, 68, 70)
    ensures ExchangeScript(p, s, Some(x))
      == Dialogue(s.client.rawPayload)
         + (Dialogue([30] + Str(p.publicKey(s.privateKey))) + SwitchScript(ours, theirs))
  {
  }

  lemma KeysWritten(p: Primitives, secret: Bytes32, h: Bytes32, a: char, b: char, c: char, keys: Framing.Keys)
    requires a as int < 256 && b as int < 256 && c as int < 256
    requires keys == KeysFor(p, secret, h, h, a as int, b as int, c as int)
    ensures KeysAre(p, secret, h, a, b, c, keys)
  {
    InputWritten(secret, h, a as int);
    InputWritten(secret, h, b as int);
    InputWritten(secret, h, c as int);
  }

  lemma InputWritten(secret: Bytes32, h: Bytes32, letter: byte)
    ensures DerivationInput(secret, h, letter, h) == Str(Magnitude(secret)) + h + [letter] + h
  {
  }

  lemma ExchangePlayedOut(first: bytes, second: bytes, ours: Framing.Keys, theirs: Framing.Keys, arriving: seq<bytes>)
    requires |arriving| >= 3
    ensures Played(Dialogue(first) + (Dialogue(second) + SwitchScript(ours, theirs)), arriving)
         == [Sent(first), Got(arriving[0]), Sent(second), Got(arriving[1]), Sent([21]), KeysOut(ours),
             Got(arriving[2]), KeysIn(theirs)]
  {
    DialogueThen(first, Dialogue(second) + SwitchScript(ours, theirs), arriving);
    DialogueThen(second, SwitchScript(ours, theirs), arriving[1..]);
    SwitchPlayed(ours, theirs, arriving[1..][1..]);
    InARow(Sent(first), Got(arriving[0]), Sent(second), Got(arriving[1]), Sent([21]), KeysOut(ours), Got(arriving[2]),
           KeysIn(theirs));
  }

  lemma InARow(a: Event, b: Event, c: Event, d: Event, e: Event, f: Event, g: Event, h: Event)
    ensures [a, b] + ([c, d] + ([e] + ([f] + ([g] + [h])))) == [a, b, c, d, e, f, g, h]
    ensures [a, b] + ([c, d] + [e, f]) == [a, b, c, d, e, f]
  {
  }

  /** What became of the file and of the history, when nothing but an acceptable server counts. */
  lemma OnlyVouched(p: Primitives, s: Setting, file: Option<bytes>, arriving: seq<bytes>, x: Option<Exchange>,
                    after: Option<bytes>, h: seq<Event>, history: seq<Event>)
    requires Judged(p, s, file, arriving, x, after) && Along(ExchangeScript(p, s, x), arriving, h, history, false)
    ensures after != file || |history| > |h| + 4 ==> Vouched(p, s, file, arriving)
  {
    if x.Some? {
      AcceptableIsVouched(p, s, file, arriving, x.value);
    } else {
      assert ExchangeScript(p, s, None) == Greeting(p, s);
      PlayedThen(Greeting(p, s), [], arriving);
    }
  }

  /**
    * It succeeds exactly if the server completes the exchange, unless the socket takes too few bytes; then both
    * directions run under keys derived from this exchange, whose hash is the session id. However it ends, it went along
    * the script: no NEWKEYS is sent, no key installed and no host saved unless the server is acceptable.
    */
  method PerformKeyExchange(transport: Transport, s: Setting, knownHosts: Known.KnownHosts)
    returns (r: Result<()>, ghost x: Option<Exchange>)
    requires transport.Valid() && IsOurs(s.client)
    modifies transport, transport.socket, knownHosts
    ensures transport.ValidIf(r.Success?)
    ensures Steps(transport, Start, Secured, r.Success?)
    ensures Goes(transport, ExchangeScript(transport.primitives, s, x), r.Success?)
    ensures Judged(transport.primitives, s, old(knownHosts.file), old(transport.Incoming()), x, knownHosts.file)
    ensures r.Success? ==>
      && x.Some? && Completed(transport.primitives, s, old(knownHosts.file), old(transport.Incoming()), x.value)
      && transport.Out().Block() == Framing.AES_BLOCK_SIZE
    ensures r.Failure? ==>
      && |transport.history| < |old(transport.history)| + 8
      && (transport.writeFailed
          || forall y :: !Completed(transport.primitives, s, old(knownHosts.file), old(transport.Incoming()), y))
    ensures knownHosts.file != old(knownHosts.file) || |transport.history| > |old(transport.history)| + 4 ==>
      Vouched(transport.primitives, s, old(knownHosts.file), old(transport.Incoming()))
    ensures transport.writeFailed ==> transport.Exhausted()
  {
    ghost var p, file, arriving, h :=
      transport.primitives, knownHosts.file, transport.Incoming(), transport.history;
    r, x := TrustAndSwitch(transport, s, knownHosts);
    OnlyVouched(p, s, file, arriving, x, knownHosts.file, h, transport.history);
    if r.Failure? && !transport.writeFailed {
      NeverCompleted(p, s, file, arriving);
    }
    transport.FailureExhausts();
  }

  // ---- authenticate_user ----

  datatype Credentials = Credentials(username: bytes, password: bytes)

  /** The requests can be built and fit a packet. */
  predicate Usable(c: Credentials, block: nat)
    requires block > 0
  {
    && |c.username| < TWO_32 && |c.password| < TWO_32
    && Framing.Sendable(|Auth.NoneRequest(c.username)|, block)
    && Framing.Sendable(|Auth.PasswordRequest(c.username, c.password)|, block)
  }

  /** The server accepts the service, refuses the request without a password, and accepts the password. */
  predicate Admits(arriving: seq<bytes>) {
    arriving != [] && Auth.IsServiceAccept(arriving[0]) && Lets(arriving[1..])
  }

  method RequestService(transport: Transport) returns (r: Result<()>)
    requires transport.Valid()
    modifies transport, transport.socket
    ensures transport.ValidIf(r.Success?) && transport.Out().Block() == old(transport.Out().Block())
    ensures Steps(transport, Secured, ServiceAccepted, r.Success?)
    ensures Goes(transport, Dialogue(Auth.ServiceRequest()), r.Success?)
    ensures r.Success? ==>
      && old(transport.Incoming()) != [] && Auth.IsServiceAccept(old(transport.Incoming())[0])
      && transport.Incoming() == old(transport.Incoming())[1..]
    ensures r.Failure? ==>
      transport.writeFailed || old(transport.Incoming()) == []
      || !Auth.IsServiceAccept(old(transport.Incoming())[0])
  {
    var payload := Auth.CreateServiceRequest();
    r := AskService(transport, payload);
  }

  method AskService(transport: Transport, request: bytes) returns (r: Result<()>)
    requires transport.Valid() && 1 <= |request| <= 34983 && Number(request) == SERVICE_REQUEST
    modifies transport, transport.socket
    ensures transport.ValidIf(r.Success?) && transport.Out().Block() == old(transport.Out().Block())
    ensures Steps(transport, Secured, ServiceAccepted, r.Success?) && Goes(transport, Dialogue(request), r.Success?)
    ensures r.Success? ==>
      && old(transport.Incoming()) != [] && Auth.IsServiceAccept(old(transport.Incoming())[0])
      && transport.Incoming() == old(transport.Incoming())[1..]
    ensures r.Failure? ==>
      transport.writeFailed || old(transport.Incoming()) == []
      || !Auth.IsServiceAccept(old(transport.Incoming())[0])
  {
    Framing.SendableSizes(|request|);
    var response :- Ask(transport, request, Secured, ServiceRequested, SERVICE_ACCEPT, ServiceAccepted);
    r := Auth.ValidateServiceAccept(response);
  }

  /** The request without a password, unless the name cannot be encoded, and the one with it. */
  function NoneScript(c: Credentials): seq<Cue> {
    if |c.username| < TWO_32 then Dialogue(Auth.NoneRequest(c.username)) else []
  }

  function PasswordScript(c: Credentials): seq<Cue> {
    if |c.username| < TWO_32 && |c.password| < TWO_32 then Dialogue(Auth.PasswordRequest(c.username, c.password))
    else []
  }

  function AuthScript(c: Credentials): seq<Cue> {
    Dialogue(Auth.ServiceRequest()) + (NoneScript(c) + PasswordScript(c))
  }

  method TryNone(transport: Transport, c: Credentials) returns (r: Result<()>)
    requires transport.Valid()
    modifies transport, transport.socket
    ensures transport.ValidIf(r.Success?) && transport.Out().Block() == old(transport.Out().Block())
    ensures Steps(transport, ServiceAccepted, NoneRefused, r.Success?) && Goes(transport, NoneScript(c), r.Success?)
    ensures r.Success? ==>
      && |c.username| < TWO_32 && Framing.Sendable(|Auth.NoneRequest(c.username)|, old(transport.Out().Block()))
      && old(transport.Incoming()) != [] && Auth.IsAuthFailure(old(transport.Incoming())[0])
      && transport.Incoming() == old(transport.Incoming())[1..]
    ensures r.Failure? ==>
      transport.writeFailed || |c.username| >= TWO_32
      || !Framing.Sendable(|Auth.NoneRequest(c.username)|, old(transport.Out().Block()))
      || old(transport.Incoming()) == [] || !Auth.IsAuthFailure(old(transport.Incoming())[0])
  {
    var request :- Auth.CreateNoneAuthRequest(c.username);
    r := AskNone(transport, request);
  }

  method AskNone(transport: Transport, request: bytes) returns (r: Result<()>)
    requires transport.Valid() && Number(request) == USERAUTH_REQUEST
    modifies transport, transport.socket
    ensures transport.ValidIf(r.Success?) && transport.Out().Block() == old(transport.Out().Block())
    ensures Steps(transport, ServiceAccepted, NoneRefused, r.Success?) && Goes(transport, Dialogue(request), r.Success?)
    ensures r.Success? ==>
      && Framing.Sendable(|request|, old(transport.Out().Block()))
      && old(transport.Incoming()) != [] && Auth.IsAuthFailure(old(transport.Incoming())[0])
      && transport.Incoming() == old(transport.Incoming())[1..]
    ensures r.Failure? ==>
      transport.writeFailed || !Framing.Sendable(|request|, old(transport.Out().Block()))
      || old(transport.Incoming()) == [] || !Auth.IsAuthFailure(old(transport.Incoming())[0])
  {
    var response :- Ask(transport, request, ServiceAccepted, NoneSent, USERAUTH_FAILURE, NoneRefused);
    var _ :- Auth.ParseAuthFailure(response);
    return Success(());
  }

  method TryPassword(transport: Transport, c: Credentials) returns (r: Result<()>)
    requires transport.Valid() && |c.username| < TWO_32
    modifies transport, transport.socket
    ensures transport.ValidIf(r.Success?) && transport.Out().Block() == old(transport.Out().Block())
    ensures Steps(transport, NoneRefused, Authenticated, r.Success?) && Goes(transport, PasswordScript(c), r.Success?)
    ensures r.Success? ==>
      && |c.password| < TWO_32
      && Framing.Sendable(|Auth.PasswordRequest(c.username, c.password)|, old(transport.Out().Block()))
      && old(transport.Incoming()) != [] && old(transport.Incoming())[0] == [USERAUTH_SUCCESS]
      && transport.Incoming() == old(transport.Incoming())[1..]
    ensures r.Failure? ==>
      transport.writeFailed || |c.password| >= TWO_32
      || !Framing.Sendable(|Auth.PasswordRequest(c.username, c.password)|, old(transport.Out().Block()))
      || old(transport.Incoming()) == [] || old(transport.Incoming())[0] != [USERAUTH_SUCCESS]
  {
    var request :- Auth.CreatePasswordAuthRequest(c.username, c.password);
    r := AskPassword(transport, request);
  }

  method AskPassword(transport: Transport, request: bytes) returns (r: Result<()>)
    requires transport.Valid() && Number(request) == USERAUTH_REQUEST
    modifies transport, transport.socket
    ensures transport.ValidIf(r.Success?) && transport.Out().Block() == old(transport.Out().Block())
    ensures Steps(transport, NoneRefused, Authenticated, r.Success?) && Goes(transport, Dialogue(request), r.Success?)
    ensures r.Success? ==>
      && Framing.Sendable(|request|, old(transport.Out().Block()))
      && old(transport.Incoming()) != [] && old(transport.Incoming())[0] == [USERAUTH_SUCCESS]
      && transport.Incoming() == old(transport.Incoming())[1..]
    ensures r.Failure? ==>
      transport.writeFailed || !Framing.Sendable(|request|, old(transport.Out().Block()))
      || old(transport.Incoming()) == [] || old(transport.Incoming())[0] != [USERAUTH_SUCCESS]
  {
    var response :- Ask(transport, request, NoneRefused, PasswordSent, USERAUTH_SUCCESS, Authenticated);
    if response == [] {
      return Failure;
    }
    if response[0] == USERAUTH_SUCCESS {
      var _ :- Auth.ValidateAuthSuccess(response);
    } else if response[0] == USERAUTH_FAILURE {
      var _ :- Auth.ParseAuthFailure(response);
      return Failure;
    } else {
      return Failure;
    }
    return Success(());
  }

  /** A refusal of the first request, and the acceptance of the password. */
  predicate Lets(arriving: seq<bytes>) {
    |arriving| >= 2 && Auth.IsAuthFailure(arriving[0]) && arriving[1] == [USERAUTH_SUCCESS]
  }

  /** What must have arrived when the password is sent. */
  predicate Entitled(arriving: seq<bytes>) {
    |arriving| >= 2 && Auth.IsServiceAccept(arriving[0]) && Auth.IsAuthFailure(arriving[1])
  }

  /** What the server must send to admit the user, in bytes. */
  lemma AdmitsWritten(arriving: seq<bytes>)
    ensures Admits(arriving) <==>
      && |arriving| >= 3 && arriving[0] == [6] + Str(Ascii("ssh-userauth"))
      && (exists methods: SshString, flag: byte :: arriving[1] == [51] + (Str(methods) + [flag]))
      && arriving[2] == [52]
    ensures Entitled(arriving) <==>
      && |arriving| >= 2 && arriving[0] == [6] + Str(Ascii("ssh-userauth"))
      && (exists methods: SshString, flag: byte :: arriving[1] == [51] + (Str(methods) + [flag]))
  {
    if |arriving| >= 2 {
      Auth.AuthFailureRead(arriving[1]);
    }
  }

  /** What the client sends to be admitted, in bytes, between the messages that arrive. */
  lemma AuthWritten(c: Credentials, arriving: seq<bytes>)
    requires |c.username| < TWO_32 && |c.password| < TWO_32 && |arriving| >= 3
    ensures Played(AuthScript(c), arriving)
      == [Sent([5] + Str(Ascii("ssh-userauth"))), Got(arriving[0]),
          Sent([50] + (Str(c.username) + Str(Ascii("ssh-connection")) + Str(Ascii("none")))), Got(arriving[1]),
          Sent([50] + (Str(c.username) + Str(Ascii("ssh-connection")) + Str(Ascii("password")))
               + ([0] + Str(c.password))),
          Got(arriving[2])]
  {
    var first, second, third :=
      Auth.ServiceRequest(), Auth.NoneRequest(c.username), Auth.PasswordRequest(c.username, c.password);
    AuthPlayedOut(first, second, third, arriving);
    ThreeStrings(c.username, Auth.CONNECTION, Auth.NONE);
    ThreeStrings(c.username, Auth.CONNECTION, Auth.PASSWORD);
  }

  lemma AuthPlayedOut(first: bytes, second: bytes, third: bytes, arriving: seq<bytes>)
    requires |arriving| >= 3
    ensures Played(Dialogue(first) + (Dialogue(second) + Dialogue(third)), arriving)
      == [Sent(first), Got(arriving[0]), Sent(second), Got(arriving[1]), Sent(third), Got(arriving[2])]
  {
    DialogueThen(first, Dialogue(second) + Dialogue(third), arriving);
    DialogueThen(second, Dialogue(third), arriving[1..]);
    DialoguePlayed(third, arriving[1..][1..]);
    InARow(Sent(first), Got(arriving[0]), Sent(second), Got(arriving[1]), Sent(third), Got(arriving[2]),
           Sent(first), Sent(first));
  }

  /** The request without a password, and then the one with it. */
  method TryBoth(transport: Transport, c: Credentials) returns (r: Result<()>)
    requires transport.Valid()
    modifies transport, transport.socket
    ensures transport.ValidIf(r.Success?) && transport.Out().Block() == old(transport.Out().Block())
    ensures Steps(transport, ServiceAccepted, Authenticated, r.Success?)
    ensures Goes(transport, NoneScript(c) + PasswordScript(c), r.Success?)
    ensures |transport.history| > |old(transport.history)| + 2 ==>
      old(transport.Incoming()) != [] && Auth.IsAuthFailure(old(transport.Incoming())[0])
    ensures r.Success? ==>
      && Usable(c, old(transport.Out().Block())) && Lets(old(transport.Incoming()))
      && transport.Incoming() == old(transport.Incoming())[2..]
    ensures r.Failure? ==>
      transport.writeFailed || !Usable(c, old(transport.Out().Block())) || !Lets(old(transport.Incoming()))
  {
    ghost var arriving, h := transport.Incoming(), transport.history;
    var refused := TryNone(transport, c);
    if refused.Failure? {
      AlongFirst(NoneScript(c), PasswordScript(c), arriving, h, transport.history);
      PlayedThen(NoneScript(c), [], arriving);
      return Failure;
    }
    ghost var middle := transport.history;
    r := TryPassword(transport, c);
    DialoguesInTurn(Auth.NoneRequest(c.username), PasswordScript(c), arriving, h, middle, transport.history,
      r.Success?);
  }

  /**
    * It succeeds exactly if the server admits the user, unless the requests do not fit or the socket takes too few
    * bytes. However it ends, it went along the script, and the password was sent only behind the acceptance of the
    * service and a well-formed refusal.
    */
  method AuthenticateUser(transport: Transport, c: Credentials) returns (r: Result<()>)
    requires transport.Valid()
    modifies transport, transport.socket
    ensures transport.ValidIf(r.Success?) && transport.Out().Block() == old(transport.Out().Block())
    ensures Steps(transport, Secured, Authenticated, r.Success?) && Goes(transport, AuthScript(c), r.Success?)
    ensures |transport.history| > |old(transport.history)| + 4 ==> Entitled(old(transport.Incoming()))
    ensures r.Success? ==>
      && Usable(c, old(transport.Out().Block())) && Admits(old(transport.Incoming()))
      && transport.Incoming() == old(transport.Incoming())[3..]
    ensures r.Failure? ==>
      transport.writeFailed || !Usable(c, old(transport.Out().Block())) || !Admits(old(transport.Incoming()))
    ensures transport.writeFailed ==> transport.Exhausted()
  {
    ghost var arriving, h := transport.Incoming(), transport.history;
    var accepted := RequestService(transport);
    if accepted.Failure? {
      AlongFirst(Dialogue(Auth.ServiceRequest()), NoneScript(c) + PasswordScript(c), arriving, h, transport.history);
      PlayedThen(Dialogue(Auth.ServiceRequest()), [], arriving);
      transport.FailureExhausts();
      return Failure;
    }
    ghost var middle := transport.history;
    r := TryBoth(transport, c);
    DialoguesInTurn(Auth.ServiceRequest(), NoneScript(c) + PasswordScript(c), arriving, h, middle, transport.history,
                    r.Success?);
    transport.FailureExhausts();
  }
}
