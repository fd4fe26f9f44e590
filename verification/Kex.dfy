/** src/kex/kex.cpp: KEXINIT, negotiation, the exchange hash and the key derivation. */
module Kex {
  import opened Prelude
  import opened Encoding
  import opened Crypto
  import opened Messages
  import opened Mpint
  import opened Text
  import Framing

  const COMMA: byte := 44

  const NAME_LIST_COUNT: nat := 10

  /** The uint32 that ends a KEXINIT. */
  const RESERVED: u32 := 0

  const CURVE25519_SHA256: SshString := Ascii("curve25519-sha256")
  const SSH_ED25519: SshString := Ascii("ssh-ed25519")

  type Cookie = s: bytes | |s| == 16 witness seq(16, _ => 0)

  // ---- KEXINIT (section 7.1 of RFC 4253) ----

  datatype KexInit = KexInit(
    rawPayload: bytes, cookie: Cookie,
    kexAlgorithms: SshString, hostKeyAlgorithms: SshString,
    encryptionCs: SshString, encryptionSc: SshString, macCs: SshString, macSc: SshString,
    compressionCs: SshString, compressionSc: SshString, languagesCs: SshString, languagesSc: SshString,
    firstKexPacketFollows: bool)
  {
    function Lists(): seq<SshString> {
      [kexAlgorithms, hostKeyAlgorithms, encryptionCs, encryptionSc, macCs, macSc,
       compressionCs, compressionSc, languagesCs, languagesSc]
    }
  }

  function FromLists(raw: bytes, cookie: Cookie, xs: seq<SshString>, follows: bool): (k: KexInit)
    requires |xs| == 10
    ensures k.Lists() == xs
  {
    KexInit(raw, cookie, xs[0], xs[1], xs[2], xs[3], xs[4], xs[5], xs[6], xs[7], xs[8], xs[9], follows)
  }

  /** The payload of a KEXINIT message with these fields; any non-zero flag byte means true. */
  function KexInitBytes(cookie: Cookie, xs: seq<SshString>, flag: byte): bytes {
    ([KEXINIT] + cookie) + (Strings(xs) + ([flag] + U32(RESERVED)))
  }

  function KexInitOf(p: bytes): Result<KexInit> {
    if |p| < 17 || p[0] != KEXINIT then Failure else
    var (xs, q) :- ReadStrings(p, 17, NAME_LIST_COUNT);
    ReadStringsSound(p, 17, NAME_LIST_COUNT);
    if |p| == q + 5 && U32At(p, q + 1) == 0 then Success(FromLists(p, p[1..17], xs, p[q] != 0)) else Failure
  }

  lemma KexInitLayout(cookie: Cookie, xs: seq<SshString>, flag: byte) returns (q: nat)
    ensures var p := KexInitBytes(cookie, xs, flag);
            && 17 <= q && |p| == q + 5 && p[0] == KEXINIT && p[1..17] == cookie && p[17..q] == Strings(xs)
            && p[q] == flag && p[q + 1..q + 5] == U32(RESERVED)
  {
    var head, list, tail := [KEXINIT] + cookie, Strings(xs), [flag] + U32(RESERVED);
    var p := head + (list + tail);
    WholeSlice(p);
    var start := SliceSplit(p, 0, |p|, head, list + tail);
    q := SliceSplit(p, start, |p|, list, tail);
    var one := SliceSplit(p, 0, start, [KEXINIT], cookie);
    var reserved := SliceSplit(p, q, |p|, [flag], U32(RESERVED));
    assert p[0] == p[0..1][0] && p[q] == p[q..q + 1][0];
  }

  lemma KexInitFromLayout(p: bytes, xs: seq<SshString>, q: nat)
    requires 17 <= q && |p| == q + 5 && p[0] == KEXINIT && p[17..q] == Strings(xs) && U32At(p, q + 1) == 0
    ensures p == KexInitBytes(p[1..17], xs, p[q])
  {
    U32OfBigEndian(p[q + 1..q + 5]);
    ThreeParts(p, 17, q);
    OneAndRest(p, 0, 17);
    OneAndRest(p, q, |p|);
  }

  lemma ThreeParts(p: bytes, a: nat, b: nat)
    requires a <= b <= |p|
    ensures p == p[0..a] + (p[a..b] + p[b..|p|])
  {
  }

  lemma OneAndRest(p: bytes, a: nat, b: nat)
    requires a < b <= |p|
    ensures p[a..b] == [p[a]] + p[a + 1..b]
  {
  }

  lemma KexInitParsed(p: bytes, xs: seq<SshString>, q: nat)
    requires |xs| == NAME_LIST_COUNT
    requires 17 <= q && |p| == q + 5 && p[0] == KEXINIT && p[17..q] == Strings(xs) && p[q + 1..q + 5] == U32(RESERVED)
    ensures KexInitOf(p) == Success(FromLists(p, p[1..17], xs, p[q] != 0))
  {
    ReadStringsComplete(p, 17, q, xs);
    assert U32At(p, q + 1) == BigEndian(U32(RESERVED));
  }

  /** Parsing what was printed gives the fields back. */
  lemma KexInitRoundTrip(cookie: Cookie, xs: seq<SshString>, flag: byte)
    requires |xs| == NAME_LIST_COUNT
    ensures var p := KexInitBytes(cookie, xs, flag);
            KexInitOf(p) == Success(FromLists(p, cookie, xs, flag != 0))
  {
    var p := KexInitBytes(cookie, xs, flag);
    var q := KexInitLayout(cookie, xs, flag);
    KexInitParsed(p, xs, q);
  }

  /** The same with each of the ten lists named, at its place in section 7.1 of RFC 4253. */
  lemma KexInitFields(k: KexInit, flag: byte)
    requires k.rawPayload
      == ([20] + k.cookie)
         + ((Str(k.kexAlgorithms) + Str(k.hostKeyAlgorithms) + Str(k.encryptionCs) + Str(k.encryptionSc)
             + Str(k.macCs) + Str(k.macSc) + Str(k.compressionCs) + Str(k.compressionSc)
             + Str(k.languagesCs) + Str(k.languagesSc))
            + ([flag] + U32(RESERVED)))
    requires k.firstKexPacketFollows == (flag != 0)
    ensures KexInitOf(k.rawPayload) == Success(k)
  {
    TenStrings(k.kexAlgorithms, k.hostKeyAlgorithms, k.encryptionCs, k.encryptionSc, k.macCs, k.macSc,
               k.compressionCs, k.compressionSc, k.languagesCs, k.languagesSc);
    KexInitRoundTrip(k.cookie, k.Lists(), flag);
  }

  /** The converse: what parses is the print of its own fields, up to the byte that stands for true. */
  lemma KexInitConverse(p: bytes)
    requires KexInitOf(p).Success?
    ensures var k := KexInitOf(p).value;
            && k.rawPayload == p && |p| >= 5
            && p == KexInitBytes(k.cookie, k.Lists(), p[|p| - 5]) && k.firstKexPacketFollows == (p[|p| - 5] != 0)
  {
    ReadStringsSound(p, 17, NAME_LIST_COUNT);
    var (xs, q) := ReadStrings(p, 17, NAME_LIST_COUNT).value;
    KexInitFromLayout(p, xs, q);
  }

  lemma KexInitWritten(p: bytes)
    requires KexInitOf(p).Success?
    ensures var k := KexInitOf(p).value;
            && |p| >= 5 && k.firstKexPacketFollows == (p[|p| - 5] != 0)
            && p == ([20] + k.cookie)
                    + ((Str(k.kexAlgorithms) + Str(k.hostKeyAlgorithms) + Str(k.encryptionCs) + Str(k.encryptionSc)
                        + Str(k.macCs) + Str(k.macSc) + Str(k.compressionCs) + Str(k.compressionSc)
                        + Str(k.languagesCs) + Str(k.languagesSc))
                       + ([p[|p| - 5]] + U32(RESERVED)))
  {
    KexInitConverse(p);
    var k := KexInitOf(p).value;
    TenStrings(k.kexAlgorithms, k.hostKeyAlgorithms, k.encryptionCs, k.encryptionSc, k.macCs, k.macSc,
               k.compressionCs, k.compressionSc, k.languagesCs, k.languagesSc);
  }

  method ParseKexInit(payload: bytes) returns (r: Result<KexInit>)
    ensures r == KexInitOf(payload)
    ensures r.Success? ==> |payload| >= 5 && var k := r.value;
      && k.rawPayload == payload && k.firstKexPacketFollows == (payload[|payload| - 5] != 0)
      && payload == ([20] + k.cookie)
                    + ((Str(k.kexAlgorithms) + Str(k.hostKeyAlgorithms) + Str(k.encryptionCs) + Str(k.encryptionSc)
                        + Str(k.macCs) + Str(k.macSc) + Str(k.compressionCs) + Str(k.compressionSc)
                        + Str(k.languagesCs) + Str(k.languagesSc))
                       + ([payload[|payload| - 5]] + U32(RESERVED)))
  {
    if |payload| < 1 {
      return Failure;
    }
    if payload[0] != KEXINIT {
      return Failure;
    }
    if |payload| - 1 < 16 {
      return Failure;
    }
    var cookie := payload[1..17];
    ReadStringsSound(payload, 17, NAME_LIST_COUNT);
    var lists, position :- ReadStringSequence(payload, 17, NAME_LIST_COUNT);
    var follows :- ParseKexInitEnd(payload, position);
    r := Success(FromLists(payload, cookie, lists, follows));
    KexInitWritten(payload);
  }

  /** The flag and the reserved zero behind the lists. */
  method ParseKexInitEnd(payload: bytes, start: nat) returns (r: Result<bool>)
    requires start <= |payload|
    ensures r.Success? <==> |payload| == start + 5 && U32At(payload, start + 1) == 0
    ensures r.Success? ==> r.value == (payload[start] != 0)
  {
    var position := start;
    if |payload| - position < 1 {
      return Failure;
    }
    var follows := payload[position] != 0;
    position := position + 1;
    if |payload| - position < 4 {
      return Failure;
    }
    var reserved := DecodeUint32(payload[position..position + 4]);
    position := position + 4;
    if reserved != 0 {
      return Failure;
    }
    if |payload| != position {
      return Failure;
    }
    return Success(follows);
  }

  function ClientLists(): seq<SshString> {
    [CURVE25519_SHA256, SSH_ED25519, Ascii("aes256-ctr"), Ascii("aes256-ctr"),
     Ascii("hmac-sha2-256"), Ascii("hmac-sha2-256"), Ascii("none"), Ascii("none"), [], []]
  }

  /** The calls of append_name_list, one after another. */
  method AppendNameLists(payload: bytes, lists: seq<SshString>) returns (grown: bytes)
    ensures grown == payload + Strings(lists)
  {
    grown := payload;
    for i := 0 to |lists|
      invariant grown == payload + Strings(lists[..i])
    {
      StringsPrefix(lists, i);
      grown := AppendShortString(grown, lists[i]);
    }
    assert lists[..|lists|] == lists;
  }

  /** The client's own KEXINIT. */
  function OwnKexInit(cookie: Cookie): KexInit {
    FromLists(KexInitBytes(cookie, ClientLists(), 0), cookie, ClientLists(), false)
  }

  /** It is short, and a peer that parses it sees the same record. */
  lemma OwnKexInitRead(cookie: Cookie)
    ensures |OwnKexInit(cookie).rawPayload| <= 702
    ensures KexInitOf(OwnKexInit(cookie).rawPayload) == Success(OwnKexInit(cookie))
  {
    ShortStrings(ClientLists(), 64);
    KexInitRoundTrip(cookie, ClientLists(), 0);
  }

  lemma {:induction false} ShortStrings(xs: seq<SshString>, n: nat)
    requires forall i :: 0 <= i < |xs| ==> |xs[i]| <= n
    ensures |Strings(xs)| <= |xs| * (4 + n)
  {
    if xs != [] {
      ShortStrings(xs[..|xs| - 1], n);
      assert |xs| * (4 + n) == (|xs| - 1) * (4 + n) + (4 + n);
    }
  }

  lemma OwnKexInitWritten(cookie: Cookie)
    ensures OwnKexInit(cookie).rawPayload
      == ([20] + cookie)
         + ((Str(Ascii("curve25519-sha256")) + Str(Ascii("ssh-ed25519")) + Str(Ascii("aes256-ctr"))
             + Str(Ascii("aes256-ctr")) + Str(Ascii("hmac-sha2-256")) + Str(Ascii("hmac-sha2-256"))
             + Str(Ascii("none")) + Str(Ascii("none")) + Str([]) + Str([]))
            + ([0] + U32(RESERVED)))
  {
    TenStrings(CURVE25519_SHA256, SSH_ED25519, Ascii("aes256-ctr"), Ascii("aes256-ctr"), Ascii("hmac-sha2-256"),
               Ascii("hmac-sha2-256"), Ascii("none"), Ascii("none"), [], []);
  }

  /** The random cookie is a parameter. */
  method CreateClientKexInit(cookie: Cookie) returns (result: KexInit)
    ensures result == OwnKexInit(cookie)
    ensures result.rawPayload
      == ([20] + cookie)
         + ((Str(Ascii("curve25519-sha256")) + Str(Ascii("ssh-ed25519")) + Str(Ascii("aes256-ctr"))
             + Str(Ascii("aes256-ctr")) + Str(Ascii("hmac-sha2-256")) + Str(Ascii("hmac-sha2-256"))
             + Str(Ascii("none")) + Str(Ascii("none")) + Str([]) + Str([]))
            + ([0] + U32(RESERVED)))
  {
    OwnKexInitWritten(cookie);
    var payload := [KEXINIT];
    payload := payload + cookie;
    payload := AppendNameLists(payload, ClientLists());
    payload := payload + [0];
    var reserved := EncodeUint32(RESERVED);
    payload := payload + reserved;
    assert payload == KexInitBytes(cookie, ClientLists(), 0);
    result := FromLists(payload, cookie, ClientLists(), false);
  }

  // ---- Negotiation (section 7.1 of RFC 4253) ----

  /** Item i of the client is its earliest that the server also lists. */
  predicate FirstCommon(client: seq<bytes>, server: seq<bytes>, i: nat) {
    i < |client| && client[i] in server && forall j :: 0 <= j < i ==> client[j] !in server
  }

  ghost predicate IsChoice(client: seq<bytes>, server: seq<bytes>, choice: bytes) {
    exists i: nat :: FirstCommon(client, server, i) && client[i] == choice
  }

  method SplitList(list: bytes) returns (items: seq<bytes>)
    ensures items == Split(list, COMMA)
  {
    items := [];
    var stream := list;
    var line := GetLine(stream, COMMA);
    while line.Some?
      invariant line == GetLine(stream, COMMA)
      invariant items + Split(stream, COMMA) == Split(list, COMMA)
      decreases |stream|
    {
      items := items + [line.value.0];
      stream := line.value.1;
      line := GetLine(stream, COMMA);
    }
  }

  function FirstListed(client: seq<bytes>, server: seq<bytes>): Result<bytes> {
    if client == [] then Failure
    else if client[0] in server then Success(client[0])
    else FirstListed(client[1..], server)
  }

  /** The search finds the client's earliest common item, which is unique, and fails exactly when there is none. */
  lemma FirstListedIsChoice(client: seq<bytes>, server: seq<bytes>)
    ensures forall choice :: IsChoice(client, server, choice) <==> FirstListed(client, server) == Success(choice)
    ensures FirstListed(client, server).Failure? <==> forall i :: 0 <= i < |client| ==> client[i] !in server
  {
    FirstListedFound(client, server);
    forall choice | IsChoice(client, server, choice) && FirstListed(client, server).Success?
      ensures choice == FirstListed(client, server).value
    {
      ChoiceUnique(client, server, choice, FirstListed(client, server).value);
    }
  }

  /** Only one item is the earliest common one. */
  lemma ChoiceUnique(client: seq<bytes>, server: seq<bytes>, a: bytes, b: bytes)
    requires IsChoice(client, server, a) && IsChoice(client, server, b)
    ensures a == b
  {
    var i: nat :| FirstCommon(client, server, i) && client[i] == a;
    var j: nat :| FirstCommon(client, server, j) && client[j] == b;
    assert i == j;
  }

  lemma {:induction false} FirstListedFound(client: seq<bytes>, server: seq<bytes>)
    ensures var r := FirstListed(client, server);
            && (r.Success? ==> IsChoice(client, server, r.value))
            && (r.Failure? <==> forall i :: 0 <= i < |client| ==> client[i] !in server)
  {
    if client != [] {
      var rest := client[1..];
      assert client == [client[0]] + rest;
      if client[0] in server {
        assert FirstCommon(client, server, 0);
      } else {
        FirstListedFound(rest, server);
        if FirstListed(rest, server).Success? {
          var i: nat :| FirstCommon(rest, server, i) && rest[i] == FirstListed(rest, server).value;
          assert FirstCommon(client, server, i + 1);
        }
      }
    }
  }

  function Choose(clientList: bytes, serverList: bytes): Result<bytes> {
    FirstListed(Split(clientList, COMMA), Split(serverList, COMMA))
  }

  /** The inner loop of choose_algorithm. */
  method IsListed(item: bytes, server: seq<bytes>) returns (found: bool)
    ensures found <==> item in server
  {
    for j := 0 to |server|
      invariant forall k :: 0 <= k < j ==> server[k] != item
    {
      if item == server[j] {
        return true;
      }
    }
    return false;
  }

  lemma ChoiceMeans(clientList: bytes, serverList: bytes)
    ensures var r, ours, theirs :=
              Choose(clientList, serverList), Split(clientList, ',' as int), Split(serverList, ',' as int);
            if r.Success? then IsChoice(ours, theirs, r.value) else forall i :: 0 <= i < |ours| ==> ours[i] !in theirs
  {
    FirstListedIsChoice(Split(clientList, COMMA), Split(serverList, COMMA));
  }

  method ChooseAlgorithm(clientList: bytes, serverList: bytes) returns (r: Result<bytes>)
    ensures r == Choose(clientList, serverList)
    ensures var ours, theirs := Split(clientList, ',' as int), Split(serverList, ',' as int);
      if r.Success? then IsChoice(ours, theirs, r.value) else forall i :: 0 <= i < |ours| ==> ours[i] !in theirs
  {
    ChoiceMeans(clientList, serverList);
    var client := SplitList(clientList);
    var server := SplitList(serverList);
    for i := 0 to |client|
      invariant FirstListed(client, server) == FirstListed(client[i..], server)
    {
      var found := IsListed(client[i], server);
      if found {
        return Success(client[i]);
      }
      assert client[i..][1..] == client[i + 1..];
    }
    return Failure;
  }

  /** Over name-lists of section 5 of RFC 4251 the choice is made among exactly the names that were joined. */
  lemma ChooseOverNames(client: seq<bytes>, server: seq<bytes>)
    requires forall i :: 0 <= i < |client| ==> client[i] != [] && COMMA !in client[i]
    requires forall i :: 0 <= i < |server| ==> server[i] != [] && COMMA !in server[i]
    ensures Choose(Join(client, COMMA), Join(server, COMMA)) == FirstListed(client, server)
  {
    SplitInvertsJoin(client, COMMA);
    SplitInvertsJoin(server, COMMA);
  }

  /** The fields of struct NegotiatedAlgorithms; languages are not negotiated. */
  datatype Algorithms = Algorithms(
    kex: bytes, hostKey: bytes, encryptionCs: bytes, encryptionSc: bytes, macCs: bytes, macSc: bytes,
    compressionCs: bytes, compressionSc: bytes)

  /** In each category there is a common algorithm. */
  predicate Negotiable(client: KexInit, server: KexInit) {
    && Choose(client.kexAlgorithms, server.kexAlgorithms).Success?
    && Choose(client.hostKeyAlgorithms, server.hostKeyAlgorithms).Success?
    && Choose(client.encryptionCs, server.encryptionCs).Success?
    && Choose(client.encryptionSc, server.encryptionSc).Success?
    && Choose(client.macCs, server.macCs).Success?
    && Choose(client.macSc, server.macSc).Success?
    && Choose(client.compressionCs, server.compressionCs).Success?
    && Choose(client.compressionSc, server.compressionSc).Success?
  }

  method Negotiate(client: KexInit, server: KexInit) returns (r: Result<Algorithms>)
    ensures r.Success? <==> Negotiable(client, server)
    ensures r.Success? ==>
      && Choose(client.kexAlgorithms, server.kexAlgorithms) == Success(r.value.kex)
      && Choose(client.hostKeyAlgorithms, server.hostKeyAlgorithms) == Success(r.value.hostKey)
      && Choose(client.encryptionCs, server.encryptionCs) == Success(r.value.encryptionCs)
      && Choose(client.encryptionSc, server.encryptionSc) == Success(r.value.encryptionSc)
      && Choose(client.macCs, server.macCs) == Success(r.value.macCs)
      && Choose(client.macSc, server.macSc) == Success(r.value.macSc)
      && Choose(client.compressionCs, server.compressionCs) == Success(r.value.compressionCs)
      && Choose(client.compressionSc, server.compressionSc) == Success(r.value.compressionSc)
  {
    var kex :- ChooseAlgorithm(client.kexAlgorithms, server.kexAlgorithms);
    var hostKey :- ChooseAlgorithm(client.hostKeyAlgorithms, server.hostKeyAlgorithms);
    var encryptionCs :- ChooseAlgorithm(client.encryptionCs, server.encryptionCs);
    var encryptionSc :- ChooseAlgorithm(client.encryptionSc, server.encryptionSc);
    var macCs :- ChooseAlgorithm(client.macCs, server.macCs);
    var macSc :- ChooseAlgorithm(client.macSc, server.macSc);
    var compressionCs :- ChooseAlgorithm(client.compressionCs, server.compressionCs);
    var compressionSc :- ChooseAlgorithm(client.compressionSc, server.compressionSc);
    return Success(Algorithms(kex, hostKey, encryptionCs, encryptionSc, macCs, macSc, compressionCs, compressionSc));
  }

  /** A list of one name can only yield that name. */
  lemma OnlyOneChoice(name: bytes, serverList: bytes)
    requires name != [] && COMMA !in name
    ensures Choose(name, serverList) == if name in Split(serverList, COMMA) then Success(name) else Failure
  {
    SplitOne(name, COMMA);
    var server := Split(serverList, COMMA);
    assert [name][1..] == [] && FirstListed([], server) == Failure;
    assert FirstListed([name], server) == if name in server then Success(name) else FirstListed([name][1..], server);
  }

  /** Each of the client's lists is one name: it is chosen exactly if the server lists it, and nothing else is. */
  lemma OwnNamesChosen(i: nat, name: bytes, serverList: bytes)
    requires i < 8 && name == ClientLists()[i]
    ensures Choose(name, serverList) == if name in Split(serverList, COMMA) then Success(name) else Failure
  {
    OwnNameIsOne(i);
    OnlyOneChoice(name, serverList);
  }

  lemma OwnNameIsOne(i: nat)
    requires i < 8
    ensures ClientLists()[i] != [] && COMMA !in ClientLists()[i]
  {
  }

  // ---- The exchange hash (section 8 of RFC 4253, section 4 of RFC 5656) ----

  datatype EcdhReply = EcdhReply(serverHostKey: SshString, serverPublicKey: Bytes32, signature: SshString)

  function ReplyStrings(reply: EcdhReply): seq<SshString> {
    [reply.serverHostKey, reply.serverPublicKey, reply.signature]
  }

  function EcdhReplyBytes(reply: EcdhReply): bytes {
    [KEX_ECDH_REPLY] + Strings(ReplyStrings(reply))
  }

  const REPLY_STRING_COUNT: nat := 3

  lemma EcdhReplyRead(reply: EcdhReply)
    ensures var p := EcdhReplyBytes(reply);
            |p| > 0 && p[0] == KEX_ECDH_REPLY
            && ReadStrings(p, 1, REPLY_STRING_COUNT) == Success((ReplyStrings(reply), |p|))
  {
    var p, xs := EcdhReplyBytes(reply), ReplyStrings(reply);
    assert p[1..|p|] == Strings(xs);
    ReadStringsComplete(p, 1, |p|, xs);
  }

  lemma ReplyBytesInjective(a: EcdhReply, b: EcdhReply)
    requires EcdhReplyBytes(a) == EcdhReplyBytes(b)
    ensures a == b
  {
    EcdhReplyRead(a);
    EcdhReplyRead(b);
    assert ReplyStrings(a)[0] == ReplyStrings(b)[0] && ReplyStrings(a)[1] == ReplyStrings(b)[1]
        && ReplyStrings(a)[2] == ReplyStrings(b)[2];
  }

  /** In bytes: the host key, the server's point and the signature, each as a string. */
  lemma ReplyWritten(reply: EcdhReply)
    ensures EcdhReplyBytes(reply)
         == [31] + (Str(reply.serverHostKey) + Str(reply.serverPublicKey) + Str(reply.signature))
  {
    ThreeStrings(reply.serverHostKey, reply.serverPublicKey, reply.signature);
  }

  ghost predicate IsReply(p: bytes) {
    exists reply :: p == EcdhReplyBytes(reply)
  }

  lemma NotAReply(p: bytes)
    requires p == [] || p[0] != KEX_ECDH_REPLY
    ensures !IsReply(p)
  {
    OnlyReadableReplies(p);
  }

  /** Accepts exactly the payloads that are the print of a reply, and returns that reply. */
  method ParseEcdhReply(payload: bytes) returns (r: Result<EcdhReply>)
    ensures r.Success? ==> payload == EcdhReplyBytes(r.value)
    ensures r.Failure? ==> !IsReply(payload)
    ensures r.Success? ==>
      payload == [31] + (Str(r.value.serverHostKey) + Str(r.value.serverPublicKey) + Str(r.value.signature))
  {
    if |payload| < 1 || payload[0] != KEX_ECDH_REPLY {
      OnlyReadableReplies(payload);
      return Failure;
    }
    OnlyReadableReplies(payload);
    var strings, position :- ReadStringSequence(payload, 1, REPLY_STRING_COUNT);
    if |strings[1]| != 32 {
      return Failure;
    }
    if position != |payload| {
      return Failure;
    }
    ReadableReply(payload, strings);
    ReplyWritten(EcdhReply(strings[0], strings[1], strings[2]));
    return Success(EcdhReply(strings[0], strings[1], strings[2]));
  }

  lemma OnlyReadableReplies(p: bytes)
    ensures |p| == 0 || p[0] != KEX_ECDH_REPLY ==> forall reply :: p != EcdhReplyBytes(reply)
    ensures forall reply :: p == EcdhReplyBytes(reply) ==>
      ReadStrings(p, 1, REPLY_STRING_COUNT) == Success((ReplyStrings(reply), |p|))
    ensures |p| > 0 ==> var r := ReadStrings(p, 1, REPLY_STRING_COUNT); r.Success? ==>
      |r.value.0| == 3 && r.value.1 <= |p|
  {
    forall reply | p == EcdhReplyBytes(reply)
      ensures |p| > 0 && p[0] == KEX_ECDH_REPLY
      ensures ReadStrings(p, 1, REPLY_STRING_COUNT) == Success((ReplyStrings(reply), |p|))
    {
      EcdhReplyRead(reply);
    }
    if |p| > 0 {
      ReadStringsSound(p, 1, REPLY_STRING_COUNT);
    }
  }

  lemma ReadableReply(p: bytes, xs: seq<SshString>)
    requires |p| > 0 && p[0] == KEX_ECDH_REPLY && |xs| == 3 && |xs[1]| == 32
    requires ReadStrings(p, 1, REPLY_STRING_COUNT) == Success((xs, |p|))
    ensures p == EcdhReplyBytes(EcdhReply(xs[0], xs[1], xs[2]))
  {
    ReadStringsSound(p, 1, REPLY_STRING_COUNT);
    assert ReplyStrings(EcdhReply(xs[0], xs[1], xs[2])) == xs;
    HeadTail(p);
  }

  function ExchangeStrings(vc: SshString, vs: SshString, ic: SshString, is_: SshString, ks: SshString,
                           qc: Bytes32, qs: Bytes32, k: Bytes32): seq<SshString> {
    [vc, vs, ic, is_, ks, qc, qs, Magnitude(k)]
  }

  /** The hashed bytes determine all eight values: identifications, KEXINITs, host key, public keys, secret. */
  lemma ExchangeInputInjective(
    vc: SshString, vs: SshString, ic: SshString, is_: SshString, ks: SshString, qc: Bytes32, qs: Bytes32, k: Bytes32,
    vc': SshString, vs': SshString, ic': SshString, is': SshString, ks': SshString, qc': Bytes32, qs': Bytes32,
      k': Bytes32)
    requires Strings(ExchangeStrings(vc, vs, ic, is_, ks, qc, qs, k))
      == Strings(ExchangeStrings(vc', vs', ic', is', ks', qc', qs', k'))
    ensures vc == vc' && vs == vs' && ic == ic' && is_ == is' && ks == ks' && qc == qc' && qs == qs' && k == k'
  {
    var xs := ExchangeStrings(vc, vs, ic, is_, ks, qc, qs, k);
    var ys := ExchangeStrings(vc', vs', ic', is', ks', qc', qs', k');
    StringsUniquelyDecodable(xs, [], ys, []);
    assert xs[0] == ys[0] && xs[1] == ys[1] && xs[2] == ys[2] && xs[3] == ys[3];
    assert xs[4] == ys[4] && xs[5] == ys[5] && xs[6] == ys[6] && xs[7] == ys[7];
    MagnitudeInjective(k, k');
  }

  method CalculateExchangeHash(primitives: Primitives, clientId: SshString, serverId: SshString,
                               clientKexInit: SshString, serverKexInit: SshString, reply: EcdhReply,
                               clientPublicKey: Bytes32, sharedSecret: Bytes32) returns (hash: Bytes32)
    ensures hash == primitives.sha256(Strings(ExchangeStrings(clientId, serverId, clientKexInit, serverKexInit,
      reply.serverHostKey, clientPublicKey, reply.serverPublicKey, sharedSecret)))
    ensures hash == primitives.sha256(
      Str(clientId) + Str(serverId) + Str(clientKexInit) + Str(serverKexInit) + Str(reply.serverHostKey)
        + Str(clientPublicKey) + Str(reply.serverPublicKey) + Str(Magnitude(sharedSecret)))
  {
    var strings := [clientId, serverId, clientKexInit, serverKexInit, reply.serverHostKey, clientPublicKey,
      reply.serverPublicKey];
    ghost var xs := ExchangeStrings(clientId, serverId, clientKexInit, serverKexInit,
      reply.serverHostKey, clientPublicKey, reply.serverPublicKey, sharedSecret);
    var destination: bytes := [];
    for i := 0 to 7
      invariant destination == Strings(xs[..i])
    {
      StringsPrefix(xs, i);
      destination := AppendShortString(destination, strings[i]);
    }
    destination := AppendPositiveMpint(destination, sharedSecret);
    StringsPrefix(xs, 7);
    assert xs[..8] == xs;
    EightStrings(clientId, serverId, clientKexInit, serverKexInit, reply.serverHostKey, clientPublicKey,
                 reply.serverPublicKey, Magnitude(sharedSecret));
    return primitives.sha256(destination);
  }

  // ---- Key derivation (section 7.2 of RFC 4253) ----

  function DerivationInput(secret: Bytes32, hash: Bytes32, letter: byte, sessionId: Bytes32): bytes {
    Str(Magnitude(secret)) + (hash + ([letter] + sessionId))
  }

  lemma DerivationInputInjective(k: Bytes32, h: Bytes32, x: byte, s: Bytes32, k': Bytes32, h': Bytes32, x': byte,
                                 s': Bytes32)
    requires DerivationInput(k, h, x, s) == DerivationInput(k', h', x', s')
    ensures k == k' && h == h' && x == x' && s == s'
  {
    OneString(Magnitude(k));
    OneString(Magnitude(k'));
    StringsUniquelyDecodable([Magnitude(k)], h + ([x] + s), [Magnitude(k')], h' + ([x'] + s'));
    assert [Magnitude(k)][0] == [Magnitude(k')][0];
    MagnitudeInjective(k, k');
    AppendInjective(h, [x] + s, h', [x'] + s');
    AppendInjective([x], s, [x'], s');
    assert [x][0] == [x'][0];
  }

  lemma OneString(x: SshString)
    ensures Strings([x]) == Str(x)
  {
    assert [x][..0] == [];
  }

  method DeriveKeyMaterial(primitives: Primitives, secret: Bytes32, hash: Bytes32, letter: byte, sessionId: Bytes32)
    returns (r: Bytes32)
    ensures r == primitives.sha256(DerivationInput(secret, hash, letter, sessionId))
    ensures r == primitives.sha256(Str(Magnitude(secret)) + hash + [letter] + sessionId)
  {
    var input := AppendPositiveMpint([], secret);
    input := input + hash;
    input := input + [letter];
    input := input + sessionId;
    assert [] + Str(Magnitude(secret)) == Str(Magnitude(secret));
    Regroup(Str(Magnitude(secret)), hash, [letter], sessionId);
    assert input == Str(Magnitude(secret)) + hash + [letter] + sessionId;
    return primitives.sha256(input);
  }

  /** The letters of RFC 4253: A and B for the IVs, C and D for encryption, E and F for integrity. */
  method DeriveTransportKeys(primitives: Primitives, secret: Bytes32, hash: Bytes32, sessionId: Bytes32)
    returns (clientToServer: Framing.Keys, serverToClient: Framing.Keys)
    ensures clientToServer == KeysFor(primitives, secret, hash, sessionId, 65, 67, 69)
    ensures serverToClient == KeysFor(primitives, secret, hash, sessionId, 66, 68, 70)
    ensures var k := Str(Magnitude(secret)) + hash;
      && clientToServer.iv == primitives.sha256(k + ['A' as int] + sessionId)[..16]
      && serverToClient.iv == primitives.sha256(k + ['B' as int] + sessionId)[..16]
      && clientToServer.encryptionKey == primitives.sha256(k + ['C' as int] + sessionId)
      && serverToClient.encryptionKey == primitives.sha256(k + ['D' as int] + sessionId)
      && clientToServer.macKey == primitives.sha256(k + ['E' as int] + sessionId)
      && serverToClient.macKey == primitives.sha256(k + ['F' as int] + sessionId)
  {
    var key1 := DeriveKeyMaterial(primitives, secret, hash, 65, sessionId);
    var key2 := DeriveKeyMaterial(primitives, secret, hash, 66, sessionId);
    var encryptionCs := DeriveKeyMaterial(primitives, secret, hash, 67, sessionId);
    var encryptionSc := DeriveKeyMaterial(primitives, secret, hash, 68, sessionId);
    var macCs := DeriveKeyMaterial(primitives, secret, hash, 69, sessionId);
    var macSc := DeriveKeyMaterial(primitives, secret, hash, 70, sessionId);
    clientToServer := Framing.Keys(key1[..16], encryptionCs, macCs);
    serverToClient := Framing.Keys(key2[..16], encryptionSc, macSc);
  }

  function KeysFor(p: Primitives, secret: Bytes32, hash: Bytes32, sessionId: Bytes32, iv: byte, key: byte,
                   mac: byte): Framing.Keys
  {
    Framing.Keys(p.sha256(DerivationInput(secret, hash, iv, sessionId))[..16],
                 p.sha256(DerivationInput(secret, hash, key, sessionId)),
                 p.sha256(DerivationInput(secret, hash, mac, sessionId)))
  }

  /** The six derivations of one exchange hash pairwise different inputs. */
  lemma DerivationsDiffer(secret: Bytes32, hash: Bytes32, sessionId: Bytes32, x: byte, y: byte)
    requires x != y
    ensures DerivationInput(secret, hash, x, sessionId) != DerivationInput(secret, hash, y, sessionId)
  {
    if DerivationInput(secret, hash, x, sessionId) == DerivationInput(secret, hash, y, sessionId) {
      DerivationInputInjective(secret, hash, x, sessionId, secret, hash, y, sessionId);
    }
  }

  // ---- The host key and the signature (section 4 of RFC 5656 carries them as strings) ----

  datatype VerificationData = VerificationData(publicKey: bytes, signature: bytes)

  /** What the source requires of a reply: both blobs name ssh-ed25519 and hold a value of the right size. */
  predicate IsVerificationData(reply: EcdhReply, algorithm: bytes, d: VerificationData) {
    && algorithm == SSH_ED25519 && |d.publicKey| == 32 && |d.signature| == 64
    && reply.serverHostKey == Strings([SSH_ED25519, d.publicKey])
    && reply.signature == Strings([SSH_ED25519, d.signature])
  }

  /** In bytes: each blob is the name of the algorithm and the value, each as a string. */
  lemma VerificationDataWritten(reply: EcdhReply, algorithm: bytes, d: VerificationData)
    ensures IsVerificationData(reply, algorithm, d) <==>
      && algorithm == Ascii("ssh-ed25519") && |d.publicKey| == 32 && |d.signature| == 64
      && reply.serverHostKey == Str(Ascii("ssh-ed25519")) + Str(d.publicKey)
      && reply.signature == Str(Ascii("ssh-ed25519")) + Str(d.signature)
  {
    if |d.publicKey| == 32 && |d.signature| == 64 {
      TwoStrings(SSH_ED25519, d.publicKey);
      TwoStrings(SSH_ED25519, d.signature);
    }
  }

  /** A reply holds at most one host key and one signature. */
  lemma VerificationDataUnique(reply: EcdhReply, algorithm: bytes, a: VerificationData, b: VerificationData)
    requires IsVerificationData(reply, algorithm, a) && IsVerificationData(reply, algorithm, b)
    ensures a == b
  {
    NamedBlobUnique(SSH_ED25519, a.publicKey, b.publicKey);
    NamedBlobUnique(SSH_ED25519, a.signature, b.signature);
  }

  lemma NamedBlobUnique(name: SshString, v: SshString, w: SshString)
    requires Strings([name, v]) == Strings([name, w])
    ensures v == w
  {
    StringsUniquelyDecodable([name, v], [], [name, w], []);
    assert [name, v][1] == [name, w][1];
  }

  /** A blob that is a name and a value, and nothing else. */
  method ParseNamedBlob(blob: bytes, name: SshString, size: nat) returns (r: Result<SshString>)
    requires size < TWO_32
    ensures r.Success? ==> |r.value| == size && blob == Strings([name, r.value])
    ensures r.Failure? ==> forall v: SshString :: |v| == size ==> blob != Strings([name, v])
  {
    forall v: SshString | blob == Strings([name, v])
      ensures ReadStrings(blob, 0, 2) == Success(([name, v], |blob|))
    {
      assert blob[0..|blob|] == blob;
      ReadStringsComplete(blob, 0, |blob|, [name, v]);
    }
    ReadStringsSound(blob, 0, 2);
    var strings, position :- ReadStringSequence(blob, 0, 2);
    if strings[0] != name {
      return Failure;
    }
    if |strings[1]| != size {
      return Failure;
    }
    if position != |blob| {
      return Failure;
    }
    assert strings == [strings[0], strings[1]] && blob[0..|blob|] == blob;
    return Success(strings[1]);
  }

  method ParseEd25519VerificationData(reply: EcdhReply, algorithm: bytes) returns (r: Result<VerificationData>)
    ensures r.Success? ==> IsVerificationData(reply, algorithm, r.value)
    ensures r.Failure? ==> forall d :: !IsVerificationData(reply, algorithm, d)
    ensures r.Success? ==>
      && algorithm == Ascii("ssh-ed25519") && |r.value.publicKey| == 32 && |r.value.signature| == 64
      && reply.serverHostKey == Str(Ascii("ssh-ed25519")) + Str(r.value.publicKey)
      && reply.signature == Str(Ascii("ssh-ed25519")) + Str(r.value.signature)
  {
    if algorithm != SSH_ED25519 {
      return Failure;
    }
    var publicKey :- ParseNamedBlob(reply.serverHostKey, SSH_ED25519, 32);
    var signature :- ParseNamedBlob(reply.signature, SSH_ED25519, 64);
    VerificationDataWritten(reply, algorithm, VerificationData(publicKey, signature));
    return Success(VerificationData(publicKey, signature));
  }
}
