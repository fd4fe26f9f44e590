# ConorSSH, verified

A Dafny model of the SSH client ConorSSH: its binary packet transport, its key exchange and known-hosts file, and its
channel with the interactive loop, from the bytes on the socket to the order of messages in a whole session.

## How it is built

Layer by layer, each proved against the one below:

- `Encoding`, `Mpint`, `Text`, `Base64`: the wire encodings of section 5 of RFC 4251, comma lists, lines and base64.
- `Crypto`: the foreign primitives as arbitrary functions, and CTR mode as XOR with a keystream and an offset.
- `Socket`, `Framing`, `Transport`: exact-length transfers over short reads and writes; packets of section 6 of RFC 4253
  as values; the `Transport` object.
- `Trace`, `Ledger`: the order of the session as an automaton over what was sent, received and installed, and how such a
  history accounts for every byte written and read. The object carries its history and its account as ghost state.
- `Link`, `Relay`: two transports joined by a pipe, as a state machine over all interleavings, and as two objects.
- `Kex`, `KnownHosts`, `Login`: negotiation, the hashed inputs, the trust decision, the switch of keys, authentication.
- `Messages`, `Connection`: the channel messages of RFC 4254 as functions of the channel record, and the methods on it.
- `Shell`, `Requests`, `Screen`, `Session`: the interactive loop and the waiting loops as functions over everything the
  environment may do, the theorems about all their runs, what the user sees of them, and the methods of `main.cpp` that
  refine them.
- `FlowControl`, `Opening`: the loop against a conforming server with messages in flight both ways, and the waits that
  lead there.
- `Client`: the whole client against any server.

An exception is a `Failure`, whatever its text. A position that the source advances by reference is a value passed in and
returned. `Session.Performed` is how a method refines its specification: if it returned, the whole specified outcome
happened; if it threw, then because the specification throws or a write failed, and a first part of it happened. A write
fails only where the outcomes of the socket make it fail: `Transport.ValidIf` ties the flag to how many bytes the socket
takes, and `Client.RunClient` says so in terms of the environment alone.

## Where the code and its documentation differ

The repository's README promises that an accepted host key is matched on later connections, and that a matching key is
accepted automatically. Both fail when the file was left without a newline at its end; the client itself always ends it
with one. `KnownHosts.SavedKeyIsFoundAgain` says exactly when the first holds, `KnownHosts.OtherEntriesSurvive` exactly
when accepting one host, whatever its name, leaves the others as they were, and `KnownHosts.UnterminatedFileLosesKeys` is
an instance, for any two hosts, of both failing at once.

Once a channel is open, section 5.2 of RFC 4254 lets the server send data. The code throws if any comes before the shell
was granted: `Opening.ConformingMessagesInWait` says which messages of a conforming server the waits survive, and
`Opening.EarlyDataIsRefused` is an instance.

Section 11 of RFC 4253 lets a peer send SSH_MSG_IGNORE and SSH_MSG_DEBUG at any time. The loop throws on both (line 310 of
`src/main.cpp`): `Shell.SocketTurnReturns` says exactly which messages it takes.

## Model

| member | source | states |
|---|---|---|
| Encoding.EncodeUint32 | src/common/ssh_encoding.cpp:13-19 | writes the four bytes whose big-endian value is the argument |
| Encoding.DecodeUint32 | src/common/ssh_encoding.cpp:21-27 | folds four bytes to the number they denote |
| Encoding.AppendString | src/common/ssh_encoding.cpp:29-45 | appends length and bytes; throws exactly from 2^32 bytes on |
| Encoding.ReadUint32 | src/common/ssh_encoding.cpp:64-77 | throws exactly if fewer than four bytes are left; else the number and the next position |
| Encoding.ReadString | src/common/ssh_encoding.cpp:47-62 | accepts exactly where a whole length-prefixed string stands, and returns it and the position behind it |
| Encoding.StringAtStr | src/common/ssh_encoding.cpp:29-62 | a string that was appended is read back from its place |
| Encoding.ReadStringsComplete | src/common/ssh_encoding.cpp:29-62 | any list of appended strings is read back, anywhere in a payload |
| Encoding.ReadStringsSound | src/common/ssh_encoding.cpp:47-62 | whatever list is read is what appending it would have written |
| Encoding.StringsUniquelyDecodable | src/common/ssh_encoding.cpp:29-62 | equal concatenations of equally many strings have equal strings and equal rests |
| Mpint.AppendPositiveMpint | src/kex/kex.cpp:266-280 | the leading-zero loop and the sign byte write the specified encoding |
| Mpint.MagnitudeDenotes | src/kex/kex.cpp:266-280 | that encoding, read as two's complement, is exactly the non-negative number of the 32 bytes |
| Mpint.MagnitudeIsMinimal | src/kex/kex.cpp:266-280 | no shorter byte string denotes the number; zero is the empty string (section 5 of RFC 4251) |
| Mpint.MagnitudeInjective | src/kex/kex.cpp:266-280 | different 32-byte values have different encodings |
| Crypto.UpdateInvolution | src/transport/transport.cpp:268-319 | encrypting and decrypting from the same cipher state are inverse |
| Crypto.UpdateUndoneInTwoSteps | src/transport/transport.cpp:94-108 | a frame encrypted in one call and decrypted in two, cut anywhere, comes back |
| Crypto.UpdateFlips | src/transport/transport.cpp:268-319 | bit k of byte i of the result is that of the input, flipped exactly where the keystream byte at the offset plus i has a one |
| Socket.Socket.ReadExact | src/socket/socket.cpp:60-75 | succeeds exactly if enough bytes will arrive, and then fills the buffer with the next ones, however they are cut up |
| Socket.Socket.WriteExact | src/socket/socket.cpp:78-94 | writes as many bytes as the connection takes, in order, and succeeds exactly if these are all; what is left of the connection is stated |
| Socket.WillingFalls | src/socket/socket.cpp:78-94 | a write that takes anything takes a byte at least: writing n bytes uses up at most n such writes |
| Framing.PaddingIsLeast | src/transport/transport.cpp:152-160 | the modular formula gives the least padding of at least 4 that aligns the frame, always below 20 |
| Framing.SendableSizes | src/transport/transport.cpp:179-195 | the size checks pass exactly for payloads of 1..34991 bytes in the clear and 1..34983 under keys |
| Framing.SentPacketsAreWellFramed | src/transport/transport.cpp:179-209 | every packet built satisfies every bound that the receiver checks |
| Framing.ReceiveExactly | src/transport/transport.cpp:40-137 | a stream is accepted if and only if it starts with the wire form of an aligned packet of 16..35000 bytes, padding 4..255, non-empty payload, and the right MAC under keys |
| Framing.ReceiveComplete | src/transport/transport.cpp:69-142 | then the payload is that packet's, its bytes are consumed exactly, and the direction advances by its frame |
| Framing.ReceiptSizes | src/transport/transport.cpp:40-137 | an accepted payload is never empty, and takes at least 16 bytes of the stream, or 48 under keys |
| Framing.WireUniquelyDecodable | src/transport/transport.cpp:69-142 | at most one payload and frame size can be read from a stream |
| Framing.ArrivalsAreFew | src/transport/transport.cpp:69-142 | a finite stream yields finitely many packets: 16 or 48 bytes for each |
| Transport.Transport.ValidatePacketLength | src/transport/transport.cpp:40-55 | accepts exactly total sizes 16..35000 aligned to the block in force |
| Transport.Transport.ValidatePacketPadding | src/transport/transport.cpp:58-66 | accepts exactly padding of at least 4 that leaves a payload byte |
| Transport.Transport.CalculatePaddingLength | src/transport/transport.cpp:152-160 | computes the padding that `Framing.PaddingIsLeast` is about |
| Transport.Transport.EncryptOutgoingPacket | src/transport/transport.cpp:268-292 | each bit of the result is that of the packet, flipped exactly where the keystream byte at the current offset plus its index has a one; the offset advances by the frame; changes nothing if it throws |
| Transport.Transport.DecryptIncomingBytes | src/transport/transport.cpp:294-319 | the same flips at the current offset of the receiving keystream, which advances by what was decrypted |
| Transport.Transport.CalculateHmac | src/transport/transport.cpp:256-266 | the MAC of sequence number and plaintext |
| Transport.Transport.EnableOutgoingEncryption | src/transport/transport.cpp:224-238 | new keystream from its start, sequence number carried over, and the account records it |
| Transport.Transport.EnableIncomingEncryption | src/transport/transport.cpp:240-254 | the same for receiving |
| Transport.Transport.BuildAndWrite | src/transport/transport.cpp:179-222 | writes the wire form of one well-framed packet with least padding and advances the state, exactly if the size is allowed and the socket takes the bytes; no effect if the size is refused, and exactly the part of the packet that the socket takes otherwise |
| Transport.Transport.SendPacket | src/transport/transport.cpp:179-222 | succeeds exactly if the size is allowed and the socket takes as many bytes as the packet has on the wire, and keeps the account of all bytes written |
| Transport.Transport.ReadPacket | src/transport/transport.cpp:69-142 | accepts and consumes exactly what `Framing.ReceiveExactly` says, for every split of the reads |
| Transport.Transport.ReceivePacket | src/transport/transport.cpp:69-142 | each call returns the next of the payloads that the stream holds, and keeps the account of all bytes read |
| Ledger.BrokenIsSpent | src/transport/transport.cpp:211-222 | in any accounted history a write fails only when at least as many bytes went out as there were, at the start, writes that take something |
| Ledger.WrittenAs | src/transport/transport.cpp:179-222 | a packet that the account records adds to the bytes written its length, padding length, payload and padding, in the clear as they are, and under keys with the bits flipped and the MAC of sequence number and frame behind them |
| Ledger.ClearUntilKeys | src/transport/transport.cpp:224-254 | in any accounted history each direction is in the clear exactly until its keys were installed |
| Ledger.GotIsWhatArrives | src/transport/transport.cpp:69-142 | between two installations of keys, what was received is the first part of what the bytes decode to, in order |
| Ledger.GotAcrossSwitch | src/main.cpp:401-409 | the same before and after the switch of keys, for one stream |
| Ledger.ReadingDetermined | src/transport/transport.cpp:69-142 | what was received and installed determines the receiving side |
| Link.Delivery | src/transport/transport.cpp:69-142 | in every interleaving with any number of key switches no receive fails, the pipe is the encoding of the undelivered packets, and what was delivered is a prefix of what was sent |
| Link.DrainedLinkAgrees | src/transport/transport.cpp:179-254 | when all is read, everything sent was delivered and both ends' sequence, cipher and keys agree |
| Link.StateCountsPackets | src/transport/transport.cpp:114-141 | sequence numbers count packets modulo 2^32 across key switches; the keystream offset is the sum of frame sizes since the switch, MACs excluded |
| Link.KeystreamRangesDisjoint | src/transport/transport.cpp:211-221 | two packets under the same keys use disjoint ranges of the keystream |
| Link.LogIsWhatWasSent | src/transport/transport.cpp:179-222 | the log of a run holds the payloads its sends were asked to send, less those refused for their size |
| Relay.RunLink | src/transport/transport.cpp:69-254 | two Transport objects under any commands to send, switch keys and receive, and any splitting of the bytes, run the link with exactly the commands that are possible, in order; what is received is what a queue of the payloads that fit returns, no receive fails, and the undelivered bytes are the pipe; it stops only at a send, when the socket takes no more |
| Relay.QueueConserves | src/transport/transport.cpp:69-222 | for any commands, the payloads returned and those left in that queue are exactly the sent payloads that fit, in order |
| Relay.AllIsReturned | src/transport/transport.cpp:69-254 | after any commands, a receiver that follows up what is pending gets every payload that fits |
| Kex.ParseKexInit | src/kex/kex.cpp:18-120 | returns the record that the payload specifies or throws as specified |
| Kex.KexInitRoundTrip | src/kex/kex.cpp:18-169 | parsing the encoding of any cookie, ten name-lists and flag gives them back |
| Kex.KexInitFields | src/kex/kex.cpp:18-120 | each of the ten name-lists, by its name, is read at its place in section 7.1 of RFC 4253 |
| Kex.KexInitConverse | src/kex/kex.cpp:18-87 | a payload that parses is the encoding of its own fields, up to which non-zero byte is true |
| Kex.OwnKexInitRead | src/kex/kex.cpp:122-156 | a peer that parses the client's KEXINIT gets the record the client keeps, and it fits a packet |
| Kex.CreateClientKexInit | src/kex/kex.cpp:122-156 | builds that KEXINIT from the cookie |
| Kex.ChooseAlgorithm | src/kex/kex.cpp:171-196 | the nested search computes the specified choice |
| Kex.FirstListedIsChoice | src/kex/kex.cpp:187-196 | the choice is the one earliest client item in the server's list; it fails exactly if there is none |
| Kex.ChooseOverNames | src/kex/kex.cpp:171-196 | over joined name-lists the choice is among exactly the joined names |
| Kex.Negotiate | src/kex/kex.cpp:198-209 | the choice in each of eight categories, with both directions kept apart, and fails exactly if one of them has no common algorithm |
| Kex.OwnNamesChosen | src/kex/kex.cpp:198-209 | with the client's lists the choice in any of the eight is the client's own single name, or fails because the server does not list it |
| Text.SplitInvertsJoin | src/kex/kex.cpp:171-186 | the getline split inverts joining exactly for items without the delimiter, the last of which is not empty |
| Kex.ParseEcdhReply | src/kex/kex.cpp:233-257 | accepts exactly the encodings of a reply, and returns that reply |
| Kex.ReplyWritten | src/kex/kex.cpp:233-257 | those encodings are the byte 31 and the strings host key, public point, signature |
| Kex.ParseEd25519VerificationData | src/kex/kex.cpp:301-340 | accepts exactly replies whose two blobs name ssh-ed25519 and hold 32 and 64 bytes |
| Kex.VerificationDataWritten | src/kex/kex.cpp:301-340 | a reply holds this key and this signature exactly if each blob is the string ssh-ed25519 and then the value as a string, of 32 and of 64 bytes |
| Kex.VerificationDataUnique | src/kex/kex.cpp:301-340 | a reply holds at most one key and one signature |
| Kex.CalculateExchangeHash | src/kex/kex.cpp:282-299 | hashes, each as a string, client identification, server identification, both KEXINITs in the same order, host key, client point and server point, and then the secret as an mpint: the order of section 8 of RFC 4253 and section 4 of RFC 5656 |
| Kex.ExchangeInputInjective | src/kex/kex.cpp:282-299 | the hashed bytes determine all eight values |
| Kex.DeriveKeyMaterial | src/kex/kex.cpp:355-364 | hashes secret, exchange hash, letter and session id, in these bytes, as section 7.2 of RFC 4253 lays them out |
| Kex.DerivationInputInjective | src/kex/kex.cpp:355-364 | that input determines all four |
| Kex.DeriveTransportKeys | src/kex/kex.cpp:366-376 | letters A, C, E for the client's direction and B, D, F for the server's |
| Kex.DerivationsDiffer | src/kex/kex.cpp:366-376 | the six derivations hash pairwise different inputs |
| Base64.EncodeInjective | src/known_hosts/known_hosts.cpp:10-23 | different keys have different texts |
| Base64.EncodeByAlphabet | src/known_hosts/known_hosts.cpp:10-23 | three bytes are four letters: the 24-bit number in base 64, most significant first, in the alphabet A-Z, a-z, 0-9, +, / |
| KnownHosts.KnownHosts.CheckHost | src/known_hosts/known_hosts.cpp:28-64 | the line loop with its early returns answers as specified |
| KnownHosts.KnownHosts.AddHost | src/known_hosts/known_hosts.cpp:66-89 | appends one line for an unknown host, and otherwise leaves the file as it was |
| KnownHosts.FieldsRead | src/known_hosts/known_hosts.cpp:44-51 | three fields parted by a space or a tab each are read as these three fields |
| KnownHosts.CheckOfWritten | src/known_hosts/known_hosts.cpp:28-64 | on any file of entries one a line, the first entry of the host decides between match and changed, by algorithm and encoded key, and a host without one is unknown |
| KnownHosts.CheckIsLookup | src/known_hosts/known_hosts.cpp:28-64 | on a file that parses, check answers as a map in which the first entry wins |
| KnownHosts.AddIsInsertion | src/known_hosts/known_hosts.cpp:66-89 | for every file that parses: add fails exactly for a host with another key, changes nothing for a known key, and for a new host is an insertion in that map exactly if the file ended in a newline |
| KnownHosts.HistoryExtendsMap | src/known_hosts/known_hosts.cpp:28-89 | after any history of accepted and refused adds, check answers as the extended map and exactly the new hosts got one line each, for any file that ends in a newline, and any at all if no host is new |
| KnownHosts.HistoryRefinesMap | src/known_hosts/known_hosts.cpp:28-89 | from no file, check answers as the first-wins map from hosts to keys, with one line for each host |
| KnownHosts.SavedKeyIsFoundAgain | src/known_hosts/known_hosts.cpp:66-89 | a key just saved matches if and only if the names have no blanks and the file ended in a newline |
| KnownHosts.OtherEntriesSurvive | src/known_hosts/known_hosts.cpp:28-89 | accepting a host of any name leaves the entries of all others as they were if and only if the lines appended name no other new host, and a newline ends the file or the last line keeps its key when the first of them is glued to it |
| KnownHosts.TokensAreHarmless | src/known_hosts/known_hosts.cpp:28-89 | for names without blanks that is: a newline ends the file, or a blank ends the last key, or the last line's host has an earlier line |
| KnownHosts.OtherAnswersSurvive | src/known_hosts/known_hosts.cpp:28-89 | and then every answer about another host is what it was |
| KnownHosts.TrustedHostIsRefused | src/known_hosts/known_hosts.cpp:28-89 | otherwise the last line's host matched before, and is refused as changed afterwards |
| KnownHosts.UnterminatedFileLosesKeys | src/known_hosts/known_hosts.cpp:28-89 | for any two hosts, a file after which the saved key is not found and the trusted one refused |
| Login.CreateOwnKexInit | src/main.cpp:142-147 | the client's KEXINIT is one that the rest takes for ours |
| Login.OurNames | src/kex/kex.cpp:122-156 | the one key exchange and the one host key algorithm that the client offers, which are the ones it implements |
| Login.JudgeKexInit | src/main.cpp:150-161 | accepts a payload exactly if it parses and has an algorithm of ours in every category |
| Login.AgreeOnAlgorithms | src/main.cpp:333-344 | sends our KEXINIT, and succeeds exactly on an acceptable one, unless the socket takes too few bytes |
| Login.ExchangeKeys | src/main.cpp:345-355 | sends our public key, and succeeds exactly on the encoding of a reply, unless the socket takes too few bytes |
| Login.VerifyServer | src/main.cpp:355-362 | succeeds exactly if secret, hash, blobs and signature fit together; then the signature of the second blob verifies, under the key in the first, the SHA-256 of the eight values written out |
| Login.AcceptHostKey | src/main.cpp:366-389 | succeeds exactly for a key that the file has for the host, or for a host it does not know and the answer "yes", whose key is then saved; otherwise the file is unchanged |
| Login.TrustServer | src/main.cpp:332-389 | succeeds exactly if the messages that arrive and the file are acceptable, unless the socket takes too few bytes; in every outcome it went along the script of the exchange |
| Login.AcceptableExactly | src/main.cpp:332-389 | some exchange is acceptable if and only if the KEXINIT agrees with ours, and what the second message presents in bytes is signed over the eight hashed values and trusted by the file or the answer "yes" |
| Login.NotVouched | src/main.cpp:362-389 | a message whose signature does not verify, or whose key is changed, or unknown and not approved, does not vouch for its server |
| Login.SendNewKeys | src/main.cpp:395-399 | NEWKEYS goes out under the old protection, then the derived keys are in force from offset zero |
| Login.ReceiveNewKeys | src/main.cpp:401-409 | accepts exactly the one-byte NEWKEYS, then installs the receiving keys |
| Login.PerformKeyExchange | src/main.cpp:332-410 | succeeds exactly if the server completes the exchange, unless the socket takes too few bytes; in every outcome it went along its script, and if NEWKEYS went out or the file changed, the server is vouched for: what its second message presents is signed, and trusted; both directions then run under keys of this exchange with its hash as session id |
| Login.ExchangeWritten | src/main.cpp:332-410 | a completed exchange is, event by event: KEXINIT sent and got, the point and the reply, NEWKEYS sent and keys A, C, E installed, NEWKEYS got and keys B, D, F installed, derived from the hash of what was presented |
| Login.AuthenticateUser | src/main.cpp:413-445 | succeeds exactly if the server admits the user, unless the requests do not fit or the socket takes too few bytes; in every outcome it went along its script, and the password follows the acceptance of the service and a well-formed refusal |
| Login.AdmitsWritten | src/main.cpp:413-445 | the server admits the user exactly if it sends the acceptance of ssh-userauth, a refusal of the none method with any list and flag, and a success, in these bytes |
| Login.AuthWritten | src/main.cpp:413-432 | the three requests of the client, in bytes: service, the none method, and the password method with the byte 0 and the password, each behind the answer to the one before |
| Auth.ValidateServiceAccept | src/auth/auth.cpp:14-32 | accepts exactly the encoding of the accepted service |
| Auth.ParseAuthFailure | src/auth/auth.cpp:43-73 | accepts exactly a method list and one flag byte |
| Auth.AuthFailureRead | src/auth/auth.cpp:43-73 | these are exactly the byte 51, a string and one more byte |
| Messages.DataUndone | src/connection/connection.cpp:229-262 | data written by one end is accepted by the other with the same bytes, and both windows drop by the same amount |
| Messages.AdjustUndone | src/connection/connection.cpp:196-227 | a grant written by one end is accepted by the other, and both add the same amount |
| Messages.CloseUndone | src/connection/connection.cpp:341-381 | a CLOSE is accepted exactly the first time |
| Messages.SessionOpenRead | src/connection/connection.cpp:14-38 | the open request carries our channel, window and packet size, in this order |
| Messages.PtyRequestRead | src/connection/connection.cpp:447-477 | the pty-req holds terminal, columns, rows, no pixel sizes and empty modes, and wants a reply |
| Messages.ShellRequestRead | src/connection/connection.cpp:479-491 | the shell request is addressed to the server's channel and wants a reply |
| Messages.GlobalRequestRead | src/connection/connection.cpp:111-134 | a printed global request is one, and wants a reply exactly if its flag byte is not zero |
| Connection.ParseOpenConfirmation | src/connection/connection.cpp:40-72 | accepted exactly with our channel and a packet size of at least 32768; else the channel is unchanged |
| Connection.ParseOpenFailure | src/connection/connection.cpp:74-109 | accepts exactly a complete failure for our channel, and returns its code and two strings |
| Connection.ParseGlobalRequest | src/connection/connection.cpp:111-134 | accepts exactly a name and a flag, returns them and the rest, and wants a reply exactly if the flag byte is not zero |
| Connection.ValidateChannelReply | src/connection/connection.cpp:162-194 | accepts exactly the number and our channel, nothing more |
| Connection.ParseWindowAdjust | src/connection/connection.cpp:196-227 | adds exactly the grant, rejects zero and overflow; rejected leaves the channel unchanged |
| Connection.ParseChannelData | src/connection/connection.cpp:229-262 | returns the data and subtracts it; rejected leaves the channel unchanged |
| Connection.ParseChannelExtendedData | src/connection/connection.cpp:383-423 | the same for standard error data |
| Connection.ParseChannelEof | src/connection/connection.cpp:264-289 | accepted once |
| Connection.ParseExitStatus | src/connection/connection.cpp:291-339 | accepted once, with the number at byte 21 stored and returned |
| Connection.ParseChannelClose | src/connection/connection.cpp:341-365 | accepted once |
| Connection.CreateChannelData | src/connection/connection.cpp:493-520 | the guards and bytes of the data message |
| Connection.CreateWindowAdjust | src/connection/connection.cpp:425-445 | the guards and bytes of the grant |
| Connection.CreateChannelClose | src/connection/connection.cpp:367-381 | the guards and bytes of the close |
| Connection.CreatePtyRequest | src/connection/connection.cpp:447-477 | the guards and bytes of the terminal request |
| Session.HandleGlobalRequest | src/main.cpp:163-168 | replies with one failure exactly if a reply is wanted |
| Session.WaitForChannelRequestResult | src/main.cpp:194-221 | terminates, does what the specified wait does on the messages that arrive, and leaves the rest of them |
| Session.OpenSessionChannel | src/main.cpp:170-192 | the same for opening |
| Session.RequestPty | src/main.cpp:223-226 | the same for the terminal |
| Session.RequestShell | src/main.cpp:228-231 | the same for the shell |
| Requests.AwaitOnlyCredits | src/main.cpp:194-221 | a wait changes nothing but the sending window, by exactly the grants read, and sends only failure replies |
| Requests.AwaitOpensByConfirmation | src/main.cpp:170-192 | a wait that throws leaves the channel alone; otherwise the last message was the confirmation the channel records |
| Requests.AwaitReadsInOrder | src/main.cpp:170-221 | what was read is a prefix of what arrives |
| Requests.AwaitConforms | src/main.cpp:170-221 | for every server a wait keeps the order of the session |
| Requests.ConversationOrder | src/main.cpp:448-465 | for every server, terminal and user, the requests and the loop keep the order wherever they throw; otherwise the loop is open or ended with CLOSE |
| Requests.OpeningReachesLoopHead | src/main.cpp:448-459 | after open, pty-req and shell the loop starts at a loop head with a full window |
| Requests.AsksWritten | src/main.cpp:448-459 | the three requests in bytes: session with channel 0, window 1048576 and packets of 32768; pty-req with terminal, columns and rows; shell |
| Requests.SessionSteps | src/main.cpp:448-459 | a session that returns made the three requests in this order, each on the messages left by the wait for the one before, and ran the loop on the rest |
| Requests.ConversationStatus | src/main.cpp:448-465 | in every session that does not throw, an exit-status message that was received is the only one, and the channel ends with its number; without one it has none |
| Requests.ConversationData | src/main.cpp:448-465 | the data of every session, also one that throws, is what was typed once all requests were granted; before that there is none |
| Session.KeyboardPart | src/main.cpp:257-275 | sends one data message with the bytes typed, in their order, cut to 1024, to the window and to the packet size, and takes as many from the window; nothing if there are none |
| Session.HandleMessage | src/main.cpp:284-311 | the branches on the message type do what the specification says, and write to the screen the data or the error data of the message, and nothing else |
| Session.ReplenishWindow | src/main.cpp:312-318 | tops the window up as specified |
| Session.LoopTurn | src/main.cpp:241-326 | one turn refines the specified turn, with the packet that arrives next, and shows its data |
| Session.RunInteractiveShell | src/main.cpp:233-328 | the loop refines the specified run on the messages that arrive, however the bytes are split; if it returned, its data messages hold exactly what was typed, its screen exactly the data received, and the channel the status that an exit-status message told |
| Session.RunConnectionSession | src/main.cpp:448-465 | the whole session does what its specification says of the messages that arrive from its start; the status it returns is the number in the exit-status message among them, and there is none exactly if there is no such message; the data sent is what was typed after the three requests were granted, and what is shown is the data received |
| Screen.TurnShows | src/main.cpp:276-299 | what the messages received in a turn hold as data is what the turn shows: that of the one packet, if it is read |
| Screen.AwaitShowsNothing | src/main.cpp:170-221 | a wait that returns has read no data, so no output is lost in it |
| Shell.RunGood | src/main.cpp:241-326 | for every run: at each loop head the channel is open, neither side closed and 524288 < window <= 1048576; both windows balance with bytes and grants; a closed channel means exactly one CLOSE each way, ours last; every message sent is one of four kinds and small |
| Shell.TurnGood | src/main.cpp:241-326 | the same for one turn, which is what every iteration keeps |
| Shell.OwnGuardsNeverFire | src/main.cpp:257-318 | at a loop head no guard on our own data, grant or close refuses, and 313 never underflows |
| Shell.WindowCheckUnreachable | src/connection/connection.cpp:251-259 | at a loop head the window-exceeded checks cannot be the ones that reject |
| Shell.SocketTurnReturns | src/main.cpp:276-321 | at a loop head a message that arrives makes the turn throw if and only if it is none of: a global request, data within the packet size, a grant that fits, a first end of file or exit status, a CLOSE |
| Shell.TurnReturns | src/main.cpp:241-326 | from a loop head a whole turn returns if and only if poll was interrupted, or it succeeded, the keyboard could be read, a readable socket has such a message, and a socket in error has brought the CLOSE |
| Shell.SentOkIsSendable | src/transport/transport.cpp:185-195 | nothing the loop sends is refused for its size |
| Shell.GrantsArePaidFor | src/main.cpp:312-318 | for every run, also one that throws, 524288 for each grant is covered by the bytes received and by what was missing of a full window at the start |
| Shell.TypedIsSent | src/main.cpp:257-275 | for every run, also one that throws, the data messages together hold the bytes typed, in order, each read cut to 1024, the window by the books, and the packet size |
| Shell.RunStatus | src/connection/connection.cpp:291-339 | every run that does not throw ends with the number of the one exit-status message it received, or with the status it began with if there was none |
| Shell.RunOrder | src/main.cpp:233-328 | every run keeps the order of the session and ends it if the channel closed |
| FlowControl.FlowControl | src/main.cpp:271-318 | with a conforming server, in every reachable state: nothing is rejected, and each window is the other end's credit plus data in flight plus grants in flight |
| FlowControl.TurnsAreRun | src/main.cpp:241-326 | the client's turns among any interleaving are a run of its loop on the messages that the server sends, which does not throw and reads them in order |
| FlowControl.TypedIsRead | src/main.cpp:257-275 | in every reachable state the data that the server has read, with what is in flight, is what was typed |
| FlowControl.SentIsShown | src/main.cpp:284-299 | and the data and error data that the server has sent are what the user was shown, with what is in flight |
| FlowControl.InboundNeverDeadlocks | src/main.cpp:312-318 | with the queues drained the server may send more than 524288 bytes |
| FlowControl.OutboundAgrees | src/connection/connection.cpp:196-227 | with the queues drained the two ends agree on the window for our data |
| Opening.WaitReturns | src/main.cpp:194-221 | a wait returns exactly if only global requests and grants that fit arrive before the result |
| Opening.OpeningReturns | src/main.cpp:170-192 | opening returns exactly if only global requests arrive before a confirmation for our channel with a packet size of at least 32768 |
| Opening.ConformingMessagesInWait | src/main.cpp:194-221 | of a conforming server's messages exactly those two kinds are survived; data before the shell is refused |
| Opening.EarlyDataIsRefused | src/main.cpp:194-221 | for any server and byte: data sent just after the confirmation is allowed, and makes the wait throw |
| Opening.OpeningLeadsToInitial | src/main.cpp:448-459 | after confirmation and both waits the two ends are in an initial state of the flow-control model |
| Opening.ReadyIsInitial | src/main.cpp:448-459 | the same for the three requests as the session makes them |
| Opening.ConformingServerIsServed | src/main.cpp:448-465 | once the three requests are granted, a session with a server that conforms from there on does not throw |
| Trace.SentNumbersInGrammar | src/main.cpp:163-465 | the message numbers of a conforming history are a prefix of the session grammar |
| Trace.SentUnderKeys | src/main.cpp:395-410 | a message precedes our keys exactly if it is KEXINIT, ECDH_INIT or NEWKEYS |
| Trace.RepliesMatch | src/main.cpp:163-168 | a failure reply follows exactly those global requests that want one, at once |
| Trace.ClosedIsLast | src/main.cpp:302-321 | nothing follows our CLOSE |
| Client.RunClient | src/main.cpp:485-491 | against any server, user and splitting of the bytes: the history conforms to the order, accounts for every byte written and read across the switch of keys, and is the transcript of exchange, authentication and session up to where it throws; if NEWKEYS was sent, a key installed or the file changed, the second message that arrived presents a signature that verifies on the SHA-256 of the eight values, by a trusted key; if it presents another, none of this happened; the run returns exactly if the server completes the exchange and admits the user and the session does not throw, unless a write fails, and that only after at least as many bytes as there were writes that take something; if it returns, the status is what the server told, the data sent is what was typed, and the screen shows the data received |
| Client.SuccessSays | src/main.cpp:485-491 | of the whole history of a run that returned: the status is what the one exit-status message told, the data sent is what was typed, and the data received is what the session shows |
| Client.ConformingServerIsNotDenied | src/main.cpp:448-465 | a server that admits the user, grants the three requests and conforms from there on never makes a run throw |
| Client.OnlyTheExchangeIsInTheClear | src/main.cpp:395-410 | on the wire of such a run exactly KEXINIT, ECDH_INIT and NEWKEYS are in the clear; every other packet, so the password too, is its frame with the bits flipped as the keystream says and the MAC behind it |

## Left out

- Exception texts: every throw is one Failure.
- Cryptographic primitives, their contexts and the failures of libsodium and OpenSSL calls: arbitrary functions that return; no secrecy or unforgeability is claimed.
- Randomness: padding is any bytes of the right length; the cookie and the private key are parameters.
- Socket creation, name resolution, descriptors and errno values: only the outcomes of read and write are modelled.
- Terminal modes, hidden input, fingerprints and the client's own notices: the answer, the credentials and the terminal sizes are parameters; of what is printed only the data of the remote shell is modelled.
- Command line, home directory and the name under which a host is known: the name is a parameter.
- The identification exchange: the two strings are parameters shorter than 2^32 bytes.
- File errors of the known-hosts file and the creation of its directory: reading and appending always work.
- Running out of memory.
- Forward progress of the loop under EINTR or at the end of standard input: the loop runs for a finite sequence of poll results, any sequence at all, and may still be open when they end.
- FlowControl.FlowControl: starts where the loop starts, to which `Opening` leads, and the server keeps its channel record after both sides have closed; it may send anything that the loop takes (`FlowControl.ServerIsFree`).
- create_exec_request: not called in any run.
- read_name_list and append_name_list: the same checks and bytes as read_string and append_string, and modelled by them.
- SSH_MSG_IGNORE, SSH_MSG_DEBUG, exit-signal and other channel requests from the server: the conforming server of `FlowControl` does not send them, because the program rejects them.
- Rekeying by policy, guessed packets, data after EOF, more than one channel: not implemented by the program.
