/**
  * The channel messages of section 5 of RFC 4254, byte by byte, and what each one does to a channel:
  * the specification that src/connection/connection.cpp is proved against.
  */
module Messages {
  import opened Prelude
  import opened Encoding

  const SERVICE_REQUEST: byte := 5
  const SERVICE_ACCEPT: byte := 6
  const KEXINIT: byte := 20
  const NEWKEYS: byte := 21
  const KEX_ECDH_INIT: byte := 30
  const KEX_ECDH_REPLY: byte := 31
  const USERAUTH_REQUEST: byte := 50
  const USERAUTH_FAILURE: byte := 51
  const USERAUTH_SUCCESS: byte := 52
  const GLOBAL_REQUEST: byte := 80
  const REQUEST_FAILURE: byte := 82
  const CHANNEL_OPEN: byte := 90
  const CHANNEL_OPEN_CONFIRMATION: byte := 91
  const CHANNEL_OPEN_FAILURE: byte := 92
  const CHANNEL_WINDOW_ADJUST: byte := 93
  const CHANNEL_DATA: byte := 94
  const CHANNEL_EXTENDED_DATA: byte := 95
  const CHANNEL_EOF: byte := 96
  const CHANNEL_CLOSE: byte := 97
  const CHANNEL_REQUEST: byte := 98
  const CHANNEL_SUCCESS: byte := 99
  const CHANNEL_FAILURE: byte := 100

  const MIN_MAX_PACKET_SIZE := 32768

  const SESSION: SshString := Ascii("session")
  const PTY_REQ: SshString := Ascii("pty-req")
  const SHELL: SshString := Ascii("shell")
  const EXIT_STATUS: SshString := Ascii("exit-status")

  /** A pty-req without pixel sizes, and with the one byte that ends the terminal modes. */
  const NO_PIXELS: u32 := 0
  const NO_MODES: SshString := [0]

  /** The fields of struct Channel. */
  datatype ChannelState = ChannelState(
    localId: u32, remoteId: u32,
    localWindow: u32, remoteWindow: u32,
    localMaxPacket: u32, remoteMaxPacket: u32,
    open: bool, remoteEofReceived: bool, remoteCloseReceived: bool, localCloseSent: bool,
    exitStatusReceived: bool, exitStatus: u32)

  // ---- The shapes of messages to channel `id` ----

  predicate Addressed(p: bytes, number: byte, id: u32) {
    |p| >= 5 && p[0] == number && U32At(p, 1) == id
  }

  predicate IsData(p: bytes, id: u32) {
    Addressed(p, CHANNEL_DATA, id) && |p| >= 9 && U32At(p, 5) == |p| - 9
  }

  predicate IsExtendedData(p: bytes, id: u32) {
    Addressed(p, CHANNEL_EXTENDED_DATA, id) && |p| >= 13 && U32At(p, 5) == 1 && U32At(p, 9) == |p| - 13
  }

  predicate IsAdjust(p: bytes, id: u32) {
    Addressed(p, CHANNEL_WINDOW_ADJUST, id) && |p| == 9
  }

  /** EOF, CLOSE, SUCCESS and FAILURE carry nothing but the channel. */
  predicate IsBare(p: bytes, number: byte, id: u32) {
    Addressed(p, number, id) && |p| == 5
  }

  predicate IsExitStatus(p: bytes, id: u32) {
    Addressed(p, CHANNEL_REQUEST, id) && |p| == 25 && p[5..20] == Str(EXIT_STATUS)
  }

  predicate IsOpenConfirmation(p: bytes, id: u32) {
    Addressed(p, CHANNEL_OPEN_CONFIRMATION, id) && |p| == 17
  }

  predicate IsOpenFailure(p: bytes, id: u32) {
    Addressed(p, CHANNEL_OPEN_FAILURE, id) && |p| >= 9
    && var strings := ReadStrings(p, 9, 2); strings.Success? && strings.value.1 == |p|
  }

  /** A global request: its name, the want-reply byte, and any request data. */
  predicate IsGlobalRequest(p: bytes) {
    |p| > 0 && p[0] == GLOBAL_REQUEST && StringAt(p, 1).Success? && StringAt(p, 1).value.1 < |p|
  }

  predicate WantsReply(p: bytes) {
    IsGlobalRequest(p) && p[StringAt(p, 1).value.1] != 0
  }

  /** A printed request is one, and wants a reply exactly if its flag byte is not zero. */
  lemma GlobalRequestRead(name: SshString, flag: byte, data: bytes)
    ensures var p := [80] + (Str(name) + ([flag] + data));
            IsGlobalRequest(p) && (WantsReply(p) <==> flag != 0)
  {
    var p := [80] + (Str(name) + ([flag] + data));
    var n := 1 + |Str(name)|;
    assert p[1..n] == Str(name) && p[n] == flag;
    StringAtStr(p, 1, n, name);
  }

  // ---- What a payload moves through a window, whichever side reads it ----

  function Carried(p: bytes): nat {
    if |p| >= 9 && p[0] == CHANNEL_DATA then |p| - 9
    else if |p| >= 13 && p[0] == CHANNEL_EXTENDED_DATA then |p| - 13
    else 0
  }

  function Granted(p: bytes): nat {
    if |p| == 9 && p[0] == CHANNEL_WINDOW_ADJUST then U32At(p, 5) else 0
  }

  // ---- Received messages: accepted or not, and the channel afterwards ----

  function Consume(p: bytes, c: ChannelState): Result<ChannelState> {
    if Carried(p) <= c.localMaxPacket && Carried(p) <= c.localWindow
    then Success(c.(localWindow := c.localWindow - Carried(p))) else Failure
  }

  function OnData(p: bytes, c: ChannelState): Result<ChannelState> {
    if c.open && IsData(p, c.localId) then Consume(p, c) else Failure
  }

  function OnExtendedData(p: bytes, c: ChannelState): Result<ChannelState> {
    if c.open && IsExtendedData(p, c.localId) then Consume(p, c) else Failure
  }

  function OnAdjust(p: bytes, c: ChannelState): Result<ChannelState> {
    if c.open && IsAdjust(p, c.localId) && Granted(p) > 0 && c.remoteWindow + Granted(p) < TWO_32
    then Success(c.(remoteWindow := c.remoteWindow + Granted(p))) else Failure
  }

  function OnEof(p: bytes, c: ChannelState): Result<ChannelState> {
    if c.open && !c.remoteEofReceived && IsBare(p, CHANNEL_EOF, c.localId)
    then Success(c.(remoteEofReceived := true)) else Failure
  }

  function OnExitStatus(p: bytes, c: ChannelState): Result<ChannelState> {
    if c.open && !c.exitStatusReceived && IsExitStatus(p, c.localId)
    then Success(c.(exitStatus := U32At(p, 21), exitStatusReceived := true)) else Failure
  }

  function OnClose(p: bytes, c: ChannelState): Result<ChannelState> {
    if c.open && !c.remoteCloseReceived && IsBare(p, CHANNEL_CLOSE, c.localId)
    then Success(c.(remoteCloseReceived := true)) else Failure
  }

  function OnOpenConfirmation(p: bytes, c: ChannelState): Result<ChannelState> {
    if !c.open && IsOpenConfirmation(p, c.localId) && U32At(p, 13) >= MIN_MAX_PACKET_SIZE
    then Success(c.(remoteId := U32At(p, 5), remoteWindow := U32At(p, 9), remoteMaxPacket := U32At(p, 13),
                    open := true))
    else Failure
  }

  // ---- Sent messages ----

  function DataMessage(c: ChannelState, data: bytes): Result<bytes> {
    if c.open && !c.localCloseSent && data != [] && |data| <= c.remoteWindow && |data| <= c.remoteMaxPacket
    then Success([CHANNEL_DATA] + U32(c.remoteId) + Str(data)) else Failure
  }

  function AdjustMessage(c: ChannelState, amount: u32): Result<bytes> {
    if c.open && amount != 0 && c.localWindow + amount < TWO_32
    then Success([CHANNEL_WINDOW_ADJUST] + U32(c.remoteId) + U32(amount)) else Failure
  }

  function CloseMessage(c: ChannelState): Result<bytes> {
    if c.open && !c.localCloseSent then Success([CHANNEL_CLOSE] + U32(c.remoteId)) else Failure
  }

  function SessionOpenMessage(c: ChannelState): Result<bytes> {
    if !c.open && c.localWindow != 0 && c.localMaxPacket >= MIN_MAX_PACKET_SIZE
    then Success([CHANNEL_OPEN] + Str(SESSION) + U32(c.localId) + U32(c.localWindow) + U32(c.localMaxPacket))
    else Failure
  }

  function PtyRequestMessage(c: ChannelState, terminal: bytes, columns: u32, rows: u32): Result<bytes> {
    if c.open && terminal != [] && columns != 0 && rows != 0 && |terminal| < TWO_32
    then Success([CHANNEL_REQUEST] + U32(c.remoteId) + Str(PTY_REQ) + [1] + Str(terminal)
                 + U32(columns) + U32(rows) + U32(NO_PIXELS) + U32(NO_PIXELS) + Str(NO_MODES))
    else Failure
  }

  function ShellRequestMessage(c: ChannelState): Result<bytes> {
    if c.open then Success([CHANNEL_REQUEST] + U32(c.remoteId) + Str(SHELL) + [1]) else Failure
  }

  // ---- Each message is read by the other end as what was written ----

  lemma HeaderRead(number: byte, id: u32, rest: bytes)
    ensures Addressed([number] + U32(id) + rest, number, id)
  {
    assert ([number] + U32(id) + rest)[1..5] == U32(id);
  }

  lemma DataMessageRead(c: ChannelState, data: bytes)
    requires DataMessage(c, data).Success?
    ensures var p := DataMessage(c, data).value;
            IsData(p, c.remoteId) && p[9..] == data && Carried(p) == |data| && Granted(p) == 0
  {
    var p := DataMessage(c, data).value;
    HeaderRead(CHANNEL_DATA, c.remoteId, Str(data));
    assert p[5..9] == U32(|data|);
  }

  lemma AdjustMessageRead(c: ChannelState, amount: u32)
    requires AdjustMessage(c, amount).Success?
    ensures var p := AdjustMessage(c, amount).value;
            IsAdjust(p, c.remoteId) && Granted(p) == amount && Carried(p) == 0
  {
    var p := AdjustMessage(c, amount).value;
    HeaderRead(CHANNEL_WINDOW_ADJUST, c.remoteId, U32(amount));
    assert p[5..9] == U32(amount);
  }

  lemma CloseMessageRead(c: ChannelState)
    requires CloseMessage(c).Success?
    ensures var p := CloseMessage(c).value;
            IsBare(p, CHANNEL_CLOSE, c.remoteId) && Carried(p) == 0 && Granted(p) == 0
  {
    HeaderRead(CHANNEL_CLOSE, c.remoteId, []);
    assert CloseMessage(c).value == [CHANNEL_CLOSE] + U32(c.remoteId) + [];
  }

  /** A uint32 written over four bytes of a payload is read there. */
  lemma U32Written(p: bytes, at: nat, v: u32)
    requires at + 4 <= |p| && p[at..at + 4] == U32(v)
    ensures U32At(p, at) == v
  {
  }

  lemma SessionOpenRead(c: ChannelState)
    requires SessionOpenMessage(c).Success?
    ensures var p := SessionOpenMessage(c).value;
            && |p| == 24 && p[0] == CHANNEL_OPEN && StringAt(p, 1) == Success((SESSION, 12))
            && U32At(p, 12) == c.localId && U32At(p, 16) == c.localWindow && U32At(p, 20) == c.localMaxPacket
  {
    var p, name := SessionOpenMessage(c).value, Str(SESSION);
    assert p[12..16] == U32(c.localId) && p[16..20] == U32(c.localWindow) && p[20..24] == U32(c.localMaxPacket);
    assert p[1..12] == name;
    StringAtStr(p, 1, 12, SESSION);
  }

  lemma ShellRequestRead(c: ChannelState)
    requires ShellRequestMessage(c).Success?
    ensures var p := ShellRequestMessage(c).value;
            |p| == 15 && Addressed(p, CHANNEL_REQUEST, c.remoteId) && StringAt(p, 5) == Success((SHELL, 14))
              && p[14] == 1
  {
    var p := ShellRequestMessage(c).value;
    assert p[1..5] == U32(c.remoteId) && p[5..14] == Str(SHELL);
    StringAtStr(p, 5, 14, SHELL);
  }

  /** The fields of a pty-req in their order: a reply is wanted, no pixel sizes, and one end-of-modes byte. */
  lemma PtyRequestRead(c: ChannelState, terminal: bytes, columns: u32, rows: u32)
    requires PtyRequestMessage(c, terminal, columns, rows).Success?
    ensures var p, e := PtyRequestMessage(c, terminal, columns, rows).value, 21 + |terminal|;
            && |p| == e + 21 && Addressed(p, CHANNEL_REQUEST, c.remoteId)
            && StringAt(p, 5) == Success((PTY_REQ, 16)) && p[16] == 1 && StringAt(p, 17) == Success((terminal, e))
            && U32At(p, e) == columns && U32At(p, e + 4) == rows && U32At(p, e + 8) == 0 && U32At(p, e + 12) == 0
            && StringAt(p, e + 16) == Success((NO_MODES, |p|))
  {
    var p, e := PtyRequestMessage(c, terminal, columns, rows).value, 21 + |terminal|;
    var name, kind := Str(PTY_REQ), Str(terminal);
    var h1 := [CHANNEL_REQUEST] + U32(c.remoteId);
    var h2 := h1 + name;
    var h3 := h2 + [1];
    var h4 := h3 + kind;
    var h5 := h4 + U32(columns);
    var h6 := h5 + U32(rows);
    var h7 := h6 + U32(NO_PIXELS);
    var h8 := h7 + U32(NO_PIXELS);
    PtySlices(p, e, h1, h2, h3, h4, h5, h6, h7, h8, name, kind, columns, rows);
    assert p[1..5] == p[..5][1..5] == U32(c.remoteId);
    U32Written(p, e, columns);
    U32Written(p, e + 4, rows);
    U32Written(p, e + 8, NO_PIXELS);
    U32Written(p, e + 12, NO_PIXELS);
    StringAtStr(p, 5, 16, PTY_REQ);
    StringAtStr(p, 17, e, terminal);
    StringAtStr(p, e + 16, |p|, NO_MODES);
  }

  lemma PtySlices(p: bytes, e: nat, h1: bytes, h2: bytes, h3: bytes, h4: bytes, h5: bytes, h6: bytes,
                  h7: bytes, h8: bytes, name: bytes, kind: bytes, columns: u32, rows: u32)
    requires |h1| == 5 && |name| == 11 && |kind| + 17 == e
    requires h2 == h1 + name && h3 == h2 + [1] && h4 == h3 + kind && h5 == h4 + U32(columns) && h6 == h5 + U32(rows)
    requires h7 == h6 + U32(NO_PIXELS) && h8 == h7 + U32(NO_PIXELS) && p == h8 + Str(NO_MODES)
    ensures |p| == e + 21 && p[..5] == h1 && p[5..16] == name && p[16] == 1 && p[17..e] == kind
    ensures p[e..e + 4] == U32(columns) && p[e + 4..e + 8] == U32(rows) && p[e + 8..e + 12] == U32(NO_PIXELS)
      && p[e + 12..e + 16] == U32(NO_PIXELS)
    ensures p[e + 16..|p|] == Str(NO_MODES)
  {
    WholeSlice(p);
    var m8 := SliceSplit(p, 0, |p|, h8, Str(NO_MODES));
    var m7 := SliceSplit(p, 0, m8, h7, U32(NO_PIXELS));
    var m6 := SliceSplit(p, 0, m7, h6, U32(NO_PIXELS));
    var m5 := SliceSplit(p, 0, m6, h5, U32(rows));
    var m4 := SliceSplit(p, 0, m5, h4, U32(columns));
    var m3 := SliceSplit(p, 0, m4, h3, kind);
    var m2 := SliceSplit(p, 0, m3, h2, [1]);
    var m1 := SliceSplit(p, 0, m2, h1, name);
    assert p[m2] == p[m2..m3][0];
  }

  /** Both ends agree on the window for data from `a` to `b`. */
  predicate WindowsAgree(a: ChannelState, b: ChannelState) {
    a.remoteId == b.localId && a.remoteMaxPacket == b.localMaxPacket && a.remoteWindow == b.localWindow
  }

  /**
    * Data written by one end is accepted by the other, which recovers the same bytes; after the writer's
    * own subtraction the windows agree again.
    */
  lemma DataUndone(a: ChannelState, b: ChannelState, data: bytes)
    requires WindowsAgree(a, b) && b.open && DataMessage(a, data).Success?
    ensures var p := DataMessage(a, data).value;
            && OnData(p, b).Success? && p[9..] == data
            && WindowsAgree(a.(remoteWindow := a.remoteWindow - |data|), OnData(p, b).value)
  {
    DataMessageRead(a, data);
  }

  /** A grant written by one end is accepted by the other, and both add the same amount. */
  lemma AdjustUndone(a: ChannelState, b: ChannelState, amount: u32)
    requires WindowsAgree(b, a) && a.remoteId == b.localId && b.open && AdjustMessage(a, amount).Success?
    ensures var p := AdjustMessage(a, amount).value;
            OnAdjust(p, b).Success? && WindowsAgree(OnAdjust(p, b).value, a.(localWindow := a.localWindow + amount))
  {
    AdjustMessageRead(a, amount);
  }

  lemma CloseUndone(a: ChannelState, b: ChannelState)
    requires a.remoteId == b.localId && b.open && CloseMessage(a).Success?
    ensures OnClose(CloseMessage(a).value, b).Success? <==> !b.remoteCloseReceived
  {
    CloseMessageRead(a);
  }
}
