/** src/connection/connection.cpp: channel messages built and parsed, and the Channel object they update. */
module Connection {
  import opened Prelude
  import opened Encoding
  import opened Messages

  class Channel {
    var localId: u32
    var remoteId: u32
    var localWindow: u32
    var remoteWindow: u32
    var localMaxPacket: u32
    var remoteMaxPacket: u32
    var open: bool
    var remoteEofReceived: bool
    var remoteCloseReceived: bool
    var localCloseSent: bool
    var exitStatusReceived: bool
    var exitStatus: u32

    function State(): ChannelState
      reads this
    {
      ChannelState(localId, remoteId, localWindow, remoteWindow, localMaxPacket, remoteMaxPacket, open,
                   remoteEofReceived, remoteCloseReceived, localCloseSent, exitStatusReceived, exitStatus)
    }

    /** Channel channel{} and the three assignments that follow it in main.cpp. */
    constructor (localId: u32, localWindow: u32, localMaxPacket: u32)
      ensures State()
           == ChannelState(localId, 0, localWindow, 0, localMaxPacket, 0, false, false, false, false, false, 0)
    {
      this.localId, this.localWindow, this.localMaxPacket := localId, localWindow, localMaxPacket;
      remoteId, remoteWindow, remoteMaxPacket, exitStatus := 0, 0, 0, 0;
      open, remoteEofReceived, remoteCloseReceived, localCloseSent, exitStatusReceived :=
        false, false, false, false, false;
    }
  }

  /** The channel went where the specification says, or was left alone because the message was rejected. */
  twostate predicate Follows(channel: Channel, accepted: bool, spec: Result<ChannelState>)
    reads channel
  {
    && (accepted <==> spec.Success?)
    && channel.State() == if spec.Success? then spec.value else old(channel.State())
  }

  // ---- Received messages ----

  method ParseOpenConfirmation(payload: bytes, channel: Channel) returns (r: Result<()>)
    modifies channel
    ensures Follows(channel, r.Success?, OnOpenConfirmation(payload, old(channel.State())))
    ensures r.Success? <==>
      && !old(channel.open) && |payload| == 17 && payload[0] == 91 && U32At(payload, 1) == channel.localId
      && U32At(payload, 13) >= 32768
    ensures r.Success? ==>
      channel.State() == old(channel.State()).(
        remoteId := U32At(payload, 5), remoteWindow := U32At(payload, 9), remoteMaxPacket := U32At(payload, 13),
        open := true)
  {
    if channel.open {
      return Failure;
    }
    if payload == [] || payload[0] != CHANNEL_OPEN_CONFIRMATION {
      return Failure;
    }
    var recipientChannel, position :- ReadUint32(payload, 1);
    var senderChannel;
    senderChannel, position :- ReadUint32(payload, position);
    var remoteWindow;
    remoteWindow, position :- ReadUint32(payload, position);
    var remoteMaxPacket;
    remoteMaxPacket, position :- ReadUint32(payload, position);
    if channel.localId != recipientChannel {
      return Failure;
    }
    if remoteMaxPacket < MIN_MAX_PACKET_SIZE {
      return Failure;
    }
    if position != |payload| {
      return Failure;
    }
    channel.remoteId := senderChannel;
    channel.remoteWindow := remoteWindow;
    channel.remoteMaxPacket := remoteMaxPacket;
    channel.open := true;
    return Success(());
  }

  datatype ChannelOpenFailure = ChannelOpenFailure(reasonCode: u32, description: SshString, language: SshString)

  method ParseOpenFailure(payload: bytes, channel: Channel) returns (r: Result<ChannelOpenFailure>)
    ensures r.Success? <==> !channel.open && IsOpenFailure(payload, channel.localId)
    ensures r.Success? ==>
      && r.value.reasonCode == U32At(payload, 5)
      && payload[9..|payload|] == Strings([r.value.description, r.value.language])
    ensures r.Success? ==> payload[0] == 92 && U32At(payload, 1) == channel.localId
  {
    if channel.open {
      return Failure;
    }
    if payload == [] || payload[0] != CHANNEL_OPEN_FAILURE {
      return Failure;
    }
    var recipientChannel, position :- ReadUint32(payload, 1);
    var reasonCode;
    reasonCode, position :- ReadUint32(payload, position);
    ReadStringsSound(payload, 9, 2);
    var strings;
    strings, position :- ReadStringSequence(payload, position, 2);
    if position != |payload| {
      return Failure;
    }
    if recipientChannel != channel.localId {
      return Failure;
    }
    assert strings == [strings[0], strings[1]];
    return Success(ChannelOpenFailure(reasonCode, strings[0], strings[1]));
  }

  datatype GlobalRequest = GlobalRequest(requestName: SshString, wantReply: bool, requestData: bytes)

  method ParseGlobalRequest(payload: bytes) returns (r: Result<GlobalRequest>)
    ensures r.Success? <==> IsGlobalRequest(payload)
    ensures r.Success? ==> r.value.wantReply == WantsReply(payload)
    ensures r.Success? ==> var n := 5 + |r.value.requestName|;
      n < |payload| && payload[1..n] == Str(r.value.requestName) && r.value.requestData == payload[n + 1..]
    ensures r.Success? ==> payload[0] == 80 && r.value.wantReply == (payload[5 + |r.value.requestName|] != 0)
  {
    if payload == [] || payload[0] != GLOBAL_REQUEST {
      return Failure;
    }
    var requestName, position :- ReadString(payload, 1);
    StringAtSound(payload, 1);
    if |payload| - position < 1 {
      return Failure;
    }
    var wantReply := payload[position] != 0;
    position := position + 1;
    return Success(GlobalRequest(requestName, wantReply, payload[position..]));
  }

  /** validate_channel_success and validate_channel_failure differ only in the message number. */
  method ValidateChannelReply(payload: bytes, number: byte, channel: Channel) returns (r: Result<()>)
    ensures r.Success? <==> IsBare(payload, number, channel.localId)
    ensures r.Success? <==> |payload| == 5 && payload[0] == number && U32At(payload, 1) == channel.localId
  {
    if payload == [] || payload[0] != number {
      return Failure;
    }
    var recipientChannel, position :- ReadUint32(payload, 1);
    if recipientChannel != channel.localId {
      return Failure;
    }
    if position != |payload| {
      return Failure;
    }
    return Success(());
  }

  method ParseWindowAdjust(payload: bytes, channel: Channel) returns (r: Result<()>)
    modifies channel
    ensures Follows(channel, r.Success?, OnAdjust(payload, old(channel.State())))
    ensures r.Success? <==>
      && old(channel.open) && |payload| == 9 && payload[0] == 93 && U32At(payload, 1) == channel.localId
      && 0 < U32At(payload, 5) && old(channel.remoteWindow) + U32At(payload, 5) < 0x1_0000_0000
    ensures r.Success? ==>
      channel.State() == old(channel.State()).(remoteWindow := old(channel.remoteWindow) + U32At(payload, 5))
  {
    if !channel.open {
      return Failure;
    }
    if payload == [] || payload[0] != CHANNEL_WINDOW_ADJUST {
      return Failure;
    }
    var recipientChannel, position :- ReadUint32(payload, 1);
    var bytesToAdd;
    bytesToAdd, position :- ReadUint32(payload, position);
    if recipientChannel != channel.localId {
      return Failure;
    }
    if position != |payload| {
      return Failure;
    }
    if bytesToAdd == 0 {
      return Failure;
    }
    if channel.remoteWindow > 0xFFFF_FFFF - bytesToAdd {
      return Failure;
    }
    channel.remoteWindow := channel.remoteWindow + bytesToAdd;
    return Success(());
  }

  method ParseChannelData(payload: bytes, channel: Channel) returns (r: Result<bytes>)
    modifies channel
    ensures Follows(channel, r.Success?, OnData(payload, old(channel.State())))
    ensures r.Success? ==> r.value == payload[9..]
    ensures r.Success? <==>
      && old(channel.open) && |payload| >= 9 && payload[0] == 94 && U32At(payload, 1) == channel.localId
      && U32At(payload, 5) == |payload| - 9 <= channel.localMaxPacket && |payload| - 9 <= old(channel.localWindow)
    ensures r.Success? ==>
      channel.State() == old(channel.State()).(localWindow := old(channel.localWindow) - |r.value|)
  {
    if !channel.open {
      return Failure;
    }
    if payload == [] || payload[0] != CHANNEL_DATA {
      return Failure;
    }
    var recipientChannel, position :- ReadUint32(payload, 1);
    if recipientChannel != channel.localId {
      return Failure;
    }
    var data;
    data, position :- ReadString(payload, position);
    if position != |payload| {
      return Failure;
    }
    if |data| > channel.localMaxPacket {
      return Failure;
    }
    if |data| > channel.localWindow {
      return Failure;
    }
    channel.localWindow := channel.localWindow - |data|;
    return Success(data);
  }

  method ParseChannelExtendedData(payload: bytes, channel: Channel) returns (r: Result<bytes>)
    modifies channel
    ensures Follows(channel, r.Success?, OnExtendedData(payload, old(channel.State())))
    ensures r.Success? ==> r.value == payload[13..]
    ensures r.Success? <==>
      && old(channel.open) && |payload| >= 13 && payload[0] == 95 && U32At(payload, 1) == channel.localId
      && U32At(payload, 5) == 1
      && U32At(payload, 9) == |payload| - 13 <= channel.localMaxPacket && |payload| - 13 <= old(channel.localWindow)
    ensures r.Success? ==>
      channel.State() == old(channel.State()).(localWindow := old(channel.localWindow) - |r.value|)
  {
    if !channel.open {
      return Failure;
    }
    if payload == [] || payload[0] != CHANNEL_EXTENDED_DATA {
      return Failure;
    }
    var recipientChannel, position :- ReadUint32(payload, 1);
    if recipientChannel != channel.localId {
      return Failure;
    }
    var dataType;
    dataType, position :- ReadUint32(payload, position);
    if dataType != 1 {
      return Failure;
    }
    var data;
    data, position :- ReadString(payload, position);
    if position != |payload| {
      return Failure;
    }
    if |data| > channel.localMaxPacket {
      return Failure;
    }
    if |data| > channel.localWindow {
      return Failure;
    }
    channel.localWindow := channel.localWindow - |data|;
    return Success(data);
  }

  method ParseChannelEof(payload: bytes, channel: Channel) returns (r: Result<()>)
    modifies channel
    ensures Follows(channel, r.Success?, OnEof(payload, old(channel.State())))
    ensures r.Success? <==>
      && old(channel.open) && !old(channel.remoteEofReceived)
      && |payload| == 5 && payload[0] == 96 && U32At(payload, 1) == channel.localId
    ensures r.Success? ==> channel.State() == old(channel.State()).(remoteEofReceived := true)
  {
    if !channel.open {
      return Failure;
    }
    if channel.remoteEofReceived {
      return Failure;
    }
    var _ :- ValidateChannelReply(payload, CHANNEL_EOF, channel);
    channel.remoteEofReceived := true;
    return Success(());
  }

  /** The name of a request is "exit-status" exactly if these 15 bytes stand where it should be. */
  lemma NamedExitStatus(payload: bytes)
    ensures StringAt(payload, 5).Success? && StringAt(payload, 5).value.0 == EXIT_STATUS
      <==> |payload| >= 20 && payload[5..20] == Str(EXIT_STATUS)
    ensures StringAt(payload, 5).Success? && StringAt(payload, 5).value.0 == EXIT_STATUS ==>
      StringAt(payload, 5).value.1 == 20
  {
    if |payload| >= 20 && payload[5..20] == Str(EXIT_STATUS) {
      StringAtStr(payload, 5, 20, EXIT_STATUS);
    }
    if StringAt(payload, 5).Success? {
      StringAtSound(payload, 5);
    }
  }

  /** The fields of a request named "exit-status", whether or not it wants a reply. */
  method ReadExitStatus(payload: bytes, channel: Channel) returns (r: Result<u32>)
    ensures r.Success? <==> IsExitStatus(payload, channel.localId)
    ensures r.Success? ==> r.value == U32At(payload, 21)
  {
    if payload == [] || payload[0] != CHANNEL_REQUEST {
      return Failure;
    }
    var recipientChannel, position :- ReadUint32(payload, 1);
    if recipientChannel != channel.localId {
      return Failure;
    }
    NamedExitStatus(payload);
    var requestName;
    requestName, position :- ReadString(payload, position);
    if requestName != EXIT_STATUS {
      return Failure;
    }
    if |payload| - position < 1 {
      return Failure;
    }
    position := position + 1;
    var exitStatus;
    exitStatus, position :- ReadUint32(payload, position);
    if position != |payload| {
      return Failure;
    }
    return Success(exitStatus);
  }

  method ParseExitStatus(payload: bytes, channel: Channel) returns (r: Result<u32>)
    modifies channel
    ensures Follows(channel, r.Success?, OnExitStatus(payload, old(channel.State())))
    ensures r.Success? ==> r.value == U32At(payload, 21)
    ensures r.Success? <==>
      && old(channel.open) && !old(channel.exitStatusReceived)
      && |payload| == 25 && payload[0] == 98 && U32At(payload, 1) == channel.localId
      && payload[5..20] == Str(Ascii("exit-status"))
    ensures r.Success? ==>
      channel.State() == old(channel.State()).(exitStatus := U32At(payload, 21), exitStatusReceived := true)
  {
    if !channel.open {
      return Failure;
    }
    if channel.exitStatusReceived {
      return Failure;
    }
    var exitStatus :- ReadExitStatus(payload, channel);
    channel.exitStatus := exitStatus;
    channel.exitStatusReceived := true;
    return Success(exitStatus);
  }

  method ParseChannelClose(payload: bytes, channel: Channel) returns (r: Result<()>)
    modifies channel
    ensures Follows(channel, r.Success?, OnClose(payload, old(channel.State())))
    ensures r.Success? <==>
      && old(channel.open) && !old(channel.remoteCloseReceived)
      && |payload| == 5 && payload[0] == 97 && U32At(payload, 1) == channel.localId
    ensures r.Success? ==> channel.State() == old(channel.State()).(remoteCloseReceived := true)
  {
    if !channel.open {
      return Failure;
    }
    if channel.remoteCloseReceived {
      return Failure;
    }
    var _ :- ValidateChannelReply(payload, CHANNEL_CLOSE, channel);
    channel.remoteCloseReceived := true;
    return Success(());
  }

  // ---- Sent messages ----

  method CreateSessionOpen(channel: Channel) returns (r: Result<bytes>)
    ensures r == SessionOpenMessage(channel.State())
    ensures r.Success? <==> !channel.open && channel.localWindow != 0 && channel.localMaxPacket >= 32768
    ensures r.Success? ==>
      r.value == [90] + Str(Ascii("session")) + U32(channel.localId) + U32(channel.localWindow)
                 + U32(channel.localMaxPacket)
  {
    if channel.open {
      return Failure;
    }
    if channel.localWindow == 0 {
      return Failure;
    }
    if channel.localMaxPacket < MIN_MAX_PACKET_SIZE {
      return Failure;
    }
    var payload := [CHANNEL_OPEN];
    payload := AppendShortString(payload, SESSION);
    var encoded := EncodeUint32(channel.localId);
    payload := payload + encoded;
    encoded := EncodeUint32(channel.localWindow);
    payload := payload + encoded;
    encoded := EncodeUint32(channel.localMaxPacket);
    payload := payload + encoded;
    return Success(payload);
  }

  method CreateRequestFailure() returns (payload: bytes)
    ensures payload == [REQUEST_FAILURE] == [82]
  {
    payload := [];
    payload := payload + [REQUEST_FAILURE];
  }

  method CreateChannelClose(channel: Channel) returns (r: Result<bytes>)
    ensures r == CloseMessage(channel.State())
    ensures r.Success? <==> channel.open && !channel.localCloseSent
    ensures r.Success? ==> r.value == [97] + U32(channel.remoteId)
  {
    if !channel.open {
      return Failure;
    }
    if channel.localCloseSent {
      return Failure;
    }
    var payload := [CHANNEL_CLOSE];
    var encoded := EncodeUint32(channel.remoteId);
    payload := payload + encoded;
    return Success(payload);
  }

  method CreateWindowAdjust(channel: Channel, bytesToAdd: u32) returns (r: Result<bytes>)
    ensures r == AdjustMessage(channel.State(), bytesToAdd)
    ensures r.Success? <==> channel.open && bytesToAdd != 0 && channel.localWindow + bytesToAdd < 0x1_0000_0000
    ensures r.Success? ==> r.value == [93] + U32(channel.remoteId) + U32(bytesToAdd)
  {
    if !channel.open {
      return Failure;
    }
    if bytesToAdd == 0 {
      return Failure;
    }
    var payload := [CHANNEL_WINDOW_ADJUST];
    var encoded := EncodeUint32(channel.remoteId);
    payload := payload + encoded;
    if channel.localWindow > 0xFFFF_FFFF - bytesToAdd {
      return Failure;
    }
    encoded := EncodeUint32(bytesToAdd);
    payload := payload + encoded;
    return Success(payload);
  }

  method CreatePtyRequest(channel: Channel, terminalType: bytes, columns: u32, rows: u32) returns (r: Result<bytes>)
    ensures r == PtyRequestMessage(channel.State(), terminalType, columns, rows)
    ensures r.Success? <==>
      channel.open && terminalType != [] && columns != 0 && rows != 0 && |terminalType| < 0x1_0000_0000
    ensures r.Success? ==>
      r.value == [98] + U32(channel.remoteId) + Str(Ascii("pty-req")) + [1] + Str(terminalType) + U32(columns)
                 + U32(rows) + U32(NO_PIXELS) + U32(NO_PIXELS) + Str(NO_MODES)
    ensures NO_PIXELS == 0 && NO_MODES == [0]
  {
    if !channel.open {
      return Failure;
    }
    if terminalType == [] {
      return Failure;
    }
    if columns == 0 || rows == 0 {
      return Failure;
    }
    var payload := [CHANNEL_REQUEST];
    var encoded := EncodeUint32(channel.remoteId);
    payload := payload + encoded;
    payload := AppendShortString(payload, PTY_REQ);
    payload := payload + [1];
    payload :- AppendString(payload, terminalType);
    var columnsBytes := EncodeUint32(columns);
    var rowsBytes := EncodeUint32(rows);
    var zeroBytes := EncodeUint32(NO_PIXELS);
    payload := payload + columnsBytes + rowsBytes + zeroBytes + zeroBytes;
    payload := AppendShortString(payload, NO_MODES);
    return Success(payload);
  }

  method CreateShellRequest(channel: Channel) returns (r: Result<bytes>)
    ensures r == ShellRequestMessage(channel.State())
    ensures r.Success? <==> channel.open
    ensures r.Success? ==> r.value == [98] + U32(channel.remoteId) + Str(Ascii("shell")) + [1]
  {
    if !channel.open {
      return Failure;
    }
    var payload := [CHANNEL_REQUEST];
    var encoded := EncodeUint32(channel.remoteId);
    payload := payload + encoded;
    payload := AppendShortString(payload, SHELL);
    payload := payload + [1];
    return Success(payload);
  }

  method CreateChannelData(channel: Channel, data: bytes) returns (r: Result<bytes>)
    ensures r == DataMessage(channel.State(), data)
    ensures r.Success? <==>
      channel.open && !channel.localCloseSent && 0 < |data| <= channel.remoteWindow && |data| <= channel.remoteMaxPacket
    ensures r.Success? ==> r.value == [94] + U32(channel.remoteId) + Str(data)
  {
    if !channel.open {
      return Failure;
    }
    if channel.localCloseSent {
      return Failure;
    }
    if data == [] {
      return Failure;
    }
    if |data| > channel.remoteWindow {
      return Failure;
    }
    if |data| > channel.remoteMaxPacket {
      return Failure;
    }
    var payload := [CHANNEL_DATA];
    var encoded := EncodeUint32(channel.remoteId);
    payload := payload + encoded;
    payload := AppendShortString(payload, data);
    return Success(payload);
  }
}
