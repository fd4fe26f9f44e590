/** src/main.cpp as a whole: from the first KEXINIT to the end of the session, against any server. */
module Client {
  import opened Prelude
  import opened Encoding
  import opened History
  import opened Messages
  import opened Transport
  import opened Trace
  import opened Crypto
  import opened Shell
  import opened Requests
  import opened Screen
  import opened Socket
  import opened Framing
  import opened Ledger
  import opened Login
  import opened Kex
  import FlowControl
  import Opening
  import Session
  import Known = KnownHosts

  /** The user's side of a run: the answer about an unknown host key, the credentials, the terminal. */
  datatype User = User(answer: bytes, credentials: Credentials, terminal: Terminal)

  /**
    * What a run leaves: what happened, the state before and after each event, the reading side when it stopped, the
    * exchange with a server that was acceptable, and whether a write failed.
    */
  datatype Report = Report(
    history: seq<Event>, ends: seq<End>, reading: Inbound, exchange: Option<Exchange>, broken: bool)
  {
    function Last(): End
      requires |ends| > |history|
    {
      ends[|history|]
    }
  }

  function Beginning(sent: bytes, outgoing: seq<WriteOutcome>, stream: bytes): End {
    End(START, sent, outgoing, Inbound(START, stream), Phase(Start, false))
  }

  /** How many events the key exchange takes. */
  const KEYED: nat := 8

  /** The messages that the server sends in the clear, and those that it sends under its keys. */
  function Clear(p: Primitives, report: Report): seq<bytes>
    requires report.ends != []
  {
    Arrivals(p, report.ends[0].reading)
  }

  function Secured(p: Primitives, report: Report): seq<bytes>
    requires |report.ends| > KEYED
  {
    Arrivals(p, report.ends[KEYED].reading)
  }

  /** A session that returned: the exit status is the channel's, and its loop is open or ended with CLOSE. */
  ghost predicate Ended(o: Outcome, history: seq<Event>, status: Option<u32>) {
    && !o.threw && status == (if o.channel.exitStatusReceived then Some(o.channel.exitStatus) else None)
    && PhaseOf(history) == Phase(if o.channel.open then Stage.Running else Stage.Closed, false)
  }

  /** The session that the user has with a server that sends this under its keys. */
  function SessionWith(secured: seq<bytes>, user: User, polls: seq<Poll>): Outcome
    requires Admits(secured)
  {
    Conversation(SessionAsks(user.terminal), AES_BLOCK_SIZE, secured[3..], NEW_CHANNEL, polls)
  }

  /** The server admitted the user, and the session ended as it should, with this status. */
  ghost predicate Served(secured: seq<bytes>, user: User, polls: seq<Poll>, history: seq<Event>, status: Option<u32>) {
    && Usable(user.credentials, AES_BLOCK_SIZE) && Admits(secured)
    && Ended(SessionWith(secured, user, polls), history, status)
  }

  /** What the session shows, if there is one. */
  function ShownTo(secured: seq<bytes>, user: User, polls: seq<Poll>): Shown {
    if Admits(secured) then ShownBy(SessionWith(secured, user, polls).events) else NOTHING
  }

  ghost predicate Denied(secured: seq<bytes>, user: User, polls: seq<Poll>) {
    || !Usable(user.credentials, AES_BLOCK_SIZE) || !Admits(secured) || SessionWith(secured, user, polls).threw
  }

  /** All that happens under the keys: the authentication, and the session if the server admits the user. */
  function UnderKeys(secured: seq<bytes>, user: User, polls: seq<Poll>): seq<Event> {
    Played(AuthScript(user.credentials), secured)
      + if Admits(secured) then SessionWith(secured, user, polls).events else []
  }

  /** All that happens: the exchange, and the rest if the keys are switched. */
  function Transcript(p: Primitives, s: Setting, user: User, polls: seq<Poll>, report: Report): seq<Event>
    requires report.ends != []
  {
    Played(ExchangeScript(p, s, report.exchange), Clear(p, report))
      + if |report.ends| > KEYED then UnderKeys(Secured(p, report), user, polls) else []
  }

  /** Keys were switched and the password was sent only with a server that had done its part by then. */
  ghost predicate Deserved(p: Primitives, s: Setting, file: Option<bytes>, report: Report)
    requires report.ends != []
  {
    && (|report.ends| > KEYED ==>
          report.exchange.Some? && Completed(p, s, file, Clear(p, report), report.exchange.value))
    && (|report.ends| > KEYED + 5 ==> Entitled(Secured(p, report)))
  }

  /** A run that returned: the server completed the exchange, and then the user had what was expected. */
  ghost predicate Succeeded(p: Primitives, user: User, polls: seq<Poll>, report: Report, status: Option<u32>) {
    |report.ends| > KEYED && Served(Secured(p, report), user, polls, report.history, status)
  }

  /** Why a run throws while the socket takes all its bytes. */
  ghost predicate Refused(p: Primitives, s: Setting, file: Option<bytes>, user: User, polls: seq<Poll>,
                          report: Report)
  {
    && report.ends != []
    && ((forall x :: !Completed(p, s, file, Clear(p, report), x))
        || (|report.ends| > KEYED && Denied(Secured(p, report), user, polls)))
  }

  /**
    * A run did what the transcript says, and returned at its end; or it threw on the way there, because the server is
    * refused or a write failed.
    */
  ghost predicate Explained(p: Primitives, s: Setting, file: Option<bytes>, user: User, polls: seq<Poll>,
                            report: Report, r: Result<Option<u32>>)
    requires report.ends != []
  {
    && report.history <= Transcript(p, s, user, polls, report) && Deserved(p, s, file, report)
    && match r
       case Success(status) =>
         report.history == Transcript(p, s, user, polls, report) && Succeeded(p, user, polls, report, status)
       case Failure => report.broken || Refused(p, s, file, user, polls, report)
  }

  /** The screen shows what the session shows, or a first part of it where it throws, and nothing without keys. */
  ghost predicate ShowedTo(p: Primitives, report: Report, user: User, polls: seq<Poll>, was: Shown, now: Shown,
                           returned: bool)
    requires report.ends != []
  {
    if |report.ends| > KEYED then Showed(was, ShownTo(Secured(p, report), user, polls), now, returned) else now == was
  }

  /**
    * NEWKEYS is sent, keys are installed and the file changes only for a server that is vouched for; so none of it
    * happens if the signature presented does not hold or the host key is not trusted.
    */
  ghost predicate OnlyForVouched(p: Primitives, s: Setting, file: Option<bytes>, report: Report, after: Option<bytes>)
    requires report.ends != []
  {
    && (Committed(report.history) || after != file ==> Vouched(p, s, file, Clear(p, report)))
    && forall v :: Presented(p, s, Clear(p, report), v)
                   && (!Signed(p, s, Clear(p, report), v) || !Trusted(file, s, v.hostKey)) ==>
         !Committed(report.history) && after == file
  }

  /** The status is the one the server told, if it told any; and the data sent is what the user typed. */
  ghost predicate Faithful(p: Primitives, user: User, polls: seq<Poll>, report: Report, status: Option<u32>) {
    && |report.ends| > KEYED && Admits(Secured(p, report))
    && Tells(None, GotPayloads(report.history), 0, status)
    && DataIn(SentPayloads(report.history)) == TypedIn(Secured(p, report), user, polls)
  }

  // ---- After the key exchange ----

  lemma PhaseKnown(transport: Transport)
    requires transport.ValidIf(false) && transport.start.phase == Phase(Start, false)
    ensures PhaseOf(transport.history) == transport.phase
  {
    PhaseAccounted(transport.primitives, transport.start, transport.history, transport.ends, |transport.history|);
    assert transport.history[..|transport.history|] == transport.history;
  }

  /** What an authenticated session left is in order. */
  lemma SessionInOrder(h: seq<Event>, block: nat, arriving: seq<bytes>, t: Terminal, polls: seq<Poll>,
                       after: seq<Event>, channel: ChannelState, broken: bool, returned: bool)
    requires block > 0 && PhaseOf(h) == Phase(Authenticated, false)
    requires Session.Performed(After(h, Conversation(SessionAsks(t), block, arriving, NEW_CHANNEL, polls)),
                               h, after, channel, broken, returned)
    ensures Conforms(after)
    ensures returned ==> PhaseOf(after) == Phase(if channel.open then Stage.Running else Stage.Closed, false)
  {
    SessionInSequence(t);
    ConversationOrder(h, SessionAsks(t), Authenticated, block, arriving, NEW_CHANNEL, polls);
    PerformedInOrder(After(h, Conversation(SessionAsks(t), block, arriving, NEW_CHANNEL, polls)),
                     h, after, channel, broken, returned);
  }

  lemma PerformedInOrder(total: Outcome, before: seq<Event>, after: seq<Event>, channel: ChannelState, broken: bool,
                         returned: bool)
    requires Session.Performed(total, before, after, channel, broken, returned) && EndsInOrder(total)
    ensures Conforms(after)
    ensures returned ==> PhaseOf(after) == Phase(if channel.open then Stage.Running else Stage.Closed, false)
  {
    assert after == total.events[..|after|];
    ConformsPrefix(total.events, |after|);
  }

  /** The history of an exchange that was completed, and of one that was not. */
  predicate Exchanged(p: Primitives, s: Setting, file: Option<bytes>, clear: seq<bytes>, x: Option<Exchange>,
                      h: seq<Event>)
  {
    && x.Some? && Completed(p, s, file, clear, x.value)
    && h == Played(ExchangeScript(p, s, x), clear) && |h| == KEYED
  }

  ghost predicate Abandoned(p: Primitives, s: Setting, file: Option<bytes>, clear: seq<bytes>, x: Option<Exchange>,
                            h: seq<Event>, broken: bool)
  {
    && h <= Played(ExchangeScript(p, s, x), clear) && |h| < KEYED
    && (broken || forall x :: !Completed(p, s, file, clear, x))
  }

  /** The key exchange of a new connection. */
  method StartSecured(transport: Transport, s: Setting, knownHosts: Known.KnownHosts)
    returns (r: Result<()>, ghost x: Option<Exchange>)
    requires transport.Valid() && IsOurs(s.client) && transport.history == []
    requires transport.start.phase == Phase(Start, false) && transport.phase == Phase(Start, false)
    modifies transport, transport.socket, knownHosts
    ensures transport.ValidIf(r.Success?)
    ensures Judged(transport.primitives, s, old(knownHosts.file), old(transport.Incoming()), x, knownHosts.file)
    ensures r.Success? ==>
      && Exchanged(transport.primitives, s, old(knownHosts.file), old(transport.Incoming()), x, transport.history)
      && transport.phase == Phase(Stage.Secured, false) && transport.Out().Block() == AES_BLOCK_SIZE
    ensures r.Failure? ==>
      && Conforms(transport.history)
      && Abandoned(transport.primitives, s, old(knownHosts.file), old(transport.Incoming()), x, transport.history,
                   transport.writeFailed)
  {
    ghost var p, clear := transport.primitives, transport.Incoming();
    r, x := PerformKeyExchange(transport, s, knownHosts);
    ExchangePlayed(p, s, x, clear, transport.history, r.Success?);
    if r.Failure? {
      PhaseKnown(transport);
    }
  }

  /** The authentication, as far as what follows needs to know it. */
  method StartAuthenticated(transport: Transport, credentials: Credentials) returns (r: Result<()>)
    requires transport.Valid() && transport.phase == Phase(Stage.Secured, false)
    modifies transport, transport.socket
    ensures transport.ValidIf(r.Success?) && transport.Out().Block() == old(transport.Out().Block())
    ensures Goes(transport, AuthScript(credentials), r.Success?) && !transport.phase.stage.Stuck?
    ensures |transport.history| > |old(transport.history)| + 4 ==> Entitled(old(transport.Incoming()))
    ensures r.Success? ==>
      && transport.phase == Phase(Authenticated, false)
      && Admits(old(transport.Incoming())) && transport.Incoming() == old(transport.Incoming())[3..]
      && Usable(credentials, old(transport.Out().Block()))
    ensures r.Failure? ==>
      transport.writeFailed || !Usable(credentials, old(transport.Out().Block())) || !Admits(old(transport.Incoming()))
  {
    r := AuthenticateUser(transport, credentials);
  }

  /** The channel session, with the phase read off the history. */
  method StartSession(transport: Transport, screen: Screen, t: Terminal, polls: seq<Poll>)
    returns (r: Result<Option<u32>>)
    requires transport.Valid() && transport.Out().Block() == AES_BLOCK_SIZE
      && PhaseOf(transport.history) == Phase(Authenticated, false)
    modifies transport, transport.socket, screen
    ensures transport.ValidIf(r.Success?) && Conforms(transport.history)
    ensures var o := Conversation(SessionAsks(t), AES_BLOCK_SIZE, old(transport.Incoming()), NEW_CHANNEL, polls);
      && Showed(old(screen.State()), ShownBy(o.events), screen.State(), r.Success?)
      && old(transport.history) <= transport.history <= old(transport.history) + o.events
      && if r.Success? then Ended(o, transport.history, r.value)
        && transport.history == old(transport.history) + o.events
         else o.threw || transport.writeFailed
  {
    ghost var h, arriving := transport.history, transport.Incoming();
    var status, channel := Session.RunConnectionSession(transport, screen, t, polls);
    SessionInOrder(h, AES_BLOCK_SIZE, arriving, t, polls, transport.history, channel.State(),
                   transport.writeFailed, status.Success?);
    return status;
  }

  /** A history that goes on under the keys as it should. */
  predicate WentOn(secured: seq<bytes>, user: User, polls: seq<Poll>, h: seq<Event>, after: seq<Event>, returned: bool)
    {
    && h <= after <= h + UnderKeys(secured, user, polls)
    && (returned ==> after == h + UnderKeys(secured, user, polls))
    && (|after| > |h| + 4 ==> Entitled(secured))
  }

  lemma StoppedInAuthentication(secured: seq<bytes>, user: User, polls: seq<Poll>, h: seq<Event>, after: seq<Event>)
    requires Along(AuthScript(user.credentials), secured, h, after, false)
    requires |after| > |h| + 4 ==> Entitled(secured)
    ensures WentOn(secured, user, polls, h, after, false)
  {
  }

  lemma SessionBehindAuthentication(secured: seq<bytes>, user: User, polls: seq<Poll>, h: seq<Event>,
                                    middle: seq<Event>, after: seq<Event>, returned: bool)
    requires Along(AuthScript(user.credentials), secured, h, middle, true) && Admits(secured)
    requires middle <= after <= middle + SessionWith(secured, user, polls).events
    requires returned ==> after == middle + SessionWith(secured, user, polls).events
    ensures WentOn(secured, user, polls, h, after, returned)
  {
    BehindScript(AuthScript(user.credentials), secured, SessionWith(secured, user, polls).events, h, middle, after,
                 returned);
  }

  lemma BehindScript(script: seq<Cue>, arriving: seq<bytes>, events: seq<Event>, h: seq<Event>, middle: seq<Event>,
                     after: seq<Event>, returned: bool)
    requires Along(script, arriving, h, middle, true) && middle <= after <= middle + events
    requires returned ==> after == middle + events
    ensures h <= after <= h + (Played(script, arriving) + events)
    ensures returned ==> after == h + (Played(script, arriving) + events)
  {
    PlayedThen(script, [], arriving);
    assert middle == h + Played(script, arriving);
    assert h + (Played(script, arriving) + events) == middle + events;
  }

  /** The user and the session, for a server whose keys are in force. */
  method RunSecured(transport: Transport, screen: Screen, user: User, polls: seq<Poll>)
    returns (r: Result<Option<u32>>)
    requires transport.Valid() && transport.Out().Block() == AES_BLOCK_SIZE
    requires transport.start.phase == Phase(Start, false) && transport.phase == Phase(Stage.Secured, false)
    modifies transport, transport.socket, screen
    ensures transport.ValidIf(r.Success?) && Conforms(transport.history)
    ensures WentOn(old(transport.Incoming()), user, polls, old(transport.history), transport.history, r.Success?)
    ensures r.Success? ==> Served(old(transport.Incoming()), user, polls, transport.history, r.value)
    ensures Showed(old(screen.State()), ShownTo(old(transport.Incoming()), user, polls), screen.State(), r.Success?)
    ensures r.Failure? ==> transport.writeFailed || Denied(old(transport.Incoming()), user, polls)
  {
    ghost var secured, h := transport.Incoming(), transport.history;
    var authenticated := StartAuthenticated(transport, user.credentials);
    PhaseKnown(transport);
    if authenticated.Failure? {
      ShowedNothing(screen.State(), ShownTo(secured, user, polls));
      StoppedInAuthentication(secured, user, polls, h, transport.history);
      return Failure;
    }
    ghost var middle := transport.history;
    r := StartSession(transport, screen, user.terminal, polls);
    SessionBehindAuthentication(secured, user, polls, h, middle, transport.history, r.Success?);
  }

  /** The history up to the switch of keys, with its account, and what the server sends under the keys. */
  ghost predicate Keyed(p: Primitives, start: End, history: seq<Event>, ends: seq<End>, secured: seq<bytes>) {
    Account(p, start, history, ends) && |history| == KEYED && secured == Arrivals(p, ends[KEYED].reading)
  }

  /** What happened under the keys, from the history h with which they were switched. */
  ghost predicate Secure(secured: seq<bytes>, user: User, polls: seq<Poll>, h: seq<Event>, after: seq<Event>,
                         broken: bool, r: Result<Option<u32>>)
  {
    && WentOn(secured, user, polls, h, after, r.Success?)
    && if r.Success? then Served(secured, user, polls, after, r.value) else broken || Denied(secured, user, polls)
  }

  /** The whole run on a new transport; `keyed` is the account when the keys are switched. */
  method RunTransport(transport: Transport, s: Setting, knownHosts: Known.KnownHosts, screen: Screen, user: User,
                      polls: seq<Poll>)
    returns (r: Result<Option<u32>>, ghost x: Option<Exchange>, ghost keyed: Option<(seq<Event>, seq<End>)>,
             ghost secured: seq<bytes>)
    requires transport.Valid() && IsOurs(s.client) && transport.history == []
    requires transport.start.phase == Phase(Start, false) && transport.phase == Phase(Start, false)
    modifies transport, transport.socket, knownHosts, screen
    ensures transport.ValidIf(r.Success?) && Conforms(transport.history)
    ensures Judged(transport.primitives, s, old(knownHosts.file), old(transport.Incoming()), x, knownHosts.file)
    ensures keyed.None? ==>
      && r.Failure? && screen.State() == old(screen.State())
      && Abandoned(transport.primitives, s, old(knownHosts.file), old(transport.Incoming()), x, transport.history,
                   transport.writeFailed)
    ensures keyed.Some? ==>
      && Keyed(transport.primitives, transport.start, keyed.value.0, keyed.value.1, secured)
      && Exchanged(transport.primitives, s, old(knownHosts.file), old(transport.Incoming()), x, keyed.value.0)
      && Showed(old(screen.State()), ShownTo(secured, user, polls), screen.State(), r.Success?)
      && Secure(secured, user, polls, keyed.value.0, transport.history, transport.writeFailed, r)
  {
    keyed, secured := None, [];
    var started;
    started, x := StartSecured(transport, s, knownHosts);
    if started.Failure? {
      return Failure, x, keyed, secured;
    }
    keyed, secured := Some((transport.history, transport.ends)), transport.Incoming();
    r := RunSecured(transport, screen, user, polls);
  }

  lemma ExchangePlayed(p: Primitives, s: Setting, x: Option<Exchange>, clear: seq<bytes>, h: seq<Event>,
                       completed: bool)
    requires Along(ExchangeScript(p, s, x), clear, [], h, completed)
    ensures h <= Played(ExchangeScript(p, s, x), clear)
    ensures completed ==> h == Played(ExchangeScript(p, s, x), clear)
  {
    PlayedThen(ExchangeScript(p, s, x), [], clear);
    assert [] + Played(ExchangeScript(p, s, x), clear) == Played(ExchangeScript(p, s, x), clear);
  }

  /**
    * Whatever bytes the server sends, however reads and writes are split, and whatever the user does: the history
    * conforms to the order of the protocol; it accounts for every byte written, and what it received is what the
    * server's bytes decode to, across the switch of keys. The run does what the transcript says, up to where it throws;
    * only an acceptable server's key is saved. It returns exactly if the server completes the exchange and admits the
    * user and the session does not throw, unless the socket takes fewer bytes; and it can do so only when as many bytes
    * went out as there were writes that would take something.
    */
  method RunClient(socket: Socket, p: Primitives, s: Setting, knownHosts: Known.KnownHosts, screen: Screen,
                   user: User, polls: seq<Poll>)
    returns (r: Result<Option<u32>>, ghost report: Report)
    requires IsOurs(s.client)
    modifies socket, knownHosts, screen
    ensures Conforms(report.history)
    ensures Account(p, Beginning(old(socket.sent), old(socket.outgoing), old(socket.Stream())), report.history,
                    report.ends)
    ensures Stopped(p, report.Last(), socket.sent, report.reading, report.broken)
      && report.reading.stream == socket.Stream()
    ensures Explained(p, s, old(knownHosts.file), user, polls, report, r)
    ensures Judged(p, s, old(knownHosts.file), Clear(p, report), report.exchange, knownHosts.file)
    ensures OnlyForVouched(p, s, old(knownHosts.file), report, knownHosts.file)
    ensures r.Success? ==> Faithful(p, user, polls, report, r.value)
    ensures ShowedTo(p, report, user, polls, old(screen.State()), screen.State(), r.Success?)
    ensures r.Success? ==> screen.State() == Joined(old(screen.State()), ShownBy(report.history))
    ensures r.Success? ==>
      !report.broken && report.reading == report.Last().reading
    ensures r.Failure? && Willing(old(socket.outgoing)) > |socket.sent| - |old(socket.sent)| ==>
      Refused(p, s, old(knownHosts.file), user, polls, report)
  {
    var transport := new Transport(socket, p);
    ghost var file, clear, x, keyed, secured := knownHosts.file, transport.Incoming(), None, None, [];
    r, x, keyed, secured := RunTransport(transport, s, knownHosts, screen, user, polls);
    report := Report(transport.history, transport.ends, transport.Reading(), x, transport.writeFailed);
    transport.FailureExhausts();
    assert Clear(p, report) == clear;
    if keyed.None? {
      AbandonedExplained(p, s, file, user, polls, report);
    } else {
      SecuredExplained(p, s, file, user, polls, transport.start, report, keyed.value, secured, r);
    }
    RunMeans(p, s, file, user, polls, report, r, knownHosts.file);
  }

  lemma SecuredExplained(p: Primitives, s: Setting, file: Option<bytes>, user: User, polls: seq<Poll>, start: End,
                         report: Report, keyed: (seq<Event>, seq<End>), secured: seq<bytes>, r: Result<Option<u32>>)
    requires |report.ends| == |report.history| + 1 && Account(p, start, report.history, report.ends)
    requires Keyed(p, start, keyed.0, keyed.1, secured)
    requires Exchanged(p, s, file, Clear(p, report), report.exchange, keyed.0)
    requires Secure(secured, user, polls, keyed.0, report.history, report.broken, r)
    ensures |report.ends| > KEYED && secured == Secured(p, report) && Explained(p, s, file, user, polls, report, r)
  {
    SecuredKnown(p, start, keyed.0, keyed.1, report.history, report.ends, secured);
    ExchangedExplained(p, s, file, user, polls, report, keyed.0, r);
  }

  lemma RunMeans(p: Primitives, s: Setting, file: Option<bytes>, user: User, polls: seq<Poll>, report: Report,
                 r: Result<Option<u32>>, after: Option<bytes>)
    requires |report.ends| == |report.history| + 1 && IsOurs(s.client)
    requires Explained(p, s, file, user, polls, report, r)
    requires Judged(p, s, file, Clear(p, report), report.exchange, after)
    ensures OnlyForVouched(p, s, file, report, after)
    ensures r.Success? ==>
      Faithful(p, user, polls, report, r.value) && ShownBy(report.history) == ShownTo(Secured(p, report), user, polls)
  {
    CommitmentIsVouched(p, s, file, user, polls, report, after);
    forall v | Presented(p, s, Clear(p, report), v)
               && (!Signed(p, s, Clear(p, report), v) || !Trusted(file, s, v.hostKey))
      ensures !Vouched(p, s, file, Clear(p, report))
    {
      NotVouched(p, s, file, Clear(p, report), v);
    }
    if r.Success? {
      SuccessSays(p, s, file, user, polls, report, r.value);
    }
  }

  lemma AbandonedExplained(p: Primitives, s: Setting, file: Option<bytes>, user: User, polls: seq<Poll>, report: Report)
    requires |report.ends| == |report.history| + 1
    requires Abandoned(p, s, file, Clear(p, report), report.exchange, report.history, report.broken)
    ensures Explained(p, s, file, user, polls, report, Failure)
  {
    var played := Played(ExchangeScript(p, s, report.exchange), Clear(p, report));
    assert Transcript(p, s, user, polls, report) == played + [];
    assert report.history <= Transcript(p, s, user, polls, report);
    assert Deserved(p, s, file, report);
    assert report.broken || Refused(p, s, file, user, polls, report);
  }

  lemma ExchangedExplained(p: Primitives, s: Setting, file: Option<bytes>, user: User, polls: seq<Poll>, report: Report,
                           keyed: seq<Event>, r: Result<Option<u32>>)
    requires |report.ends| == |report.history| + 1 && |report.ends| > KEYED
    requires Exchanged(p, s, file, Clear(p, report), report.exchange, keyed)
    requires WentOn(Secured(p, report), user, polls, keyed, report.history, r.Success?)
    requires if r.Success? then Served(Secured(p, report), user, polls, report.history, r.value)
             else report.broken || Denied(Secured(p, report), user, polls)
    ensures Explained(p, s, file, user, polls, report, r)
  {
    assert Transcript(p, s, user, polls, report) == keyed + UnderKeys(Secured(p, report), user, polls);
    ExchangedDeserved(p, s, file, user, polls, report, keyed, r.Success?);
  }

  lemma ExchangedDeserved(p: Primitives, s: Setting, file: Option<bytes>, user: User, polls: seq<Poll>, report: Report,
                          keyed: seq<Event>, returned: bool)
    requires |report.ends| == |report.history| + 1 && |report.ends| > KEYED
    requires Exchanged(p, s, file, Clear(p, report), report.exchange, keyed)
    requires WentOn(Secured(p, report), user, polls, keyed, report.history, returned)
    ensures Deserved(p, s, file, report)
  {
  }

  /** What arrived under the keys is told by the account at the end as well. */
  lemma SecuredKnown(p: Primitives, start: End, keyed: seq<Event>, ends: seq<End>, history: seq<Event>,
                     ends': seq<End>, secured: seq<bytes>)
    requires Keyed(p, start, keyed, ends, secured) && Account(p, start, history, ends') && keyed <= history
    ensures |ends'| > KEYED && Arrivals(p, ends'[KEYED].reading) == secured
  {
    assert keyed[..KEYED] == history[..KEYED];
    ReadingDetermined(p, start, keyed, ends, history, ends', KEYED);
  }

  /** A server that admits the user, grants the three requests and conforms from there on is never refused. */
  lemma ConformingServerIsNotDenied(secured: seq<bytes>, user: User, actions: seq<FlowControl.Action>,
                                    states: seq<FlowControl.Duplex>)
    requires Usable(user.credentials, AES_BLOCK_SIZE) && Admits(secured) && !SessionWith(secured, user, []).threw
    requires FlowControl.Run(actions, states) && states[0].client == SessionWith(secured, user, []).channel
    requires FlowControl.MessagesOf(actions) <= Rest(secured[3..], SessionWith(secured, user, []))
    ensures !Denied(secured, user, FlowControl.PollsOf(actions))
  {
    Opening.ConformingServerIsServed(user.terminal, AES_BLOCK_SIZE, secured[3..], actions, states);
  }

  // ---- What a run means, in bytes ----

  /** Neither an exit status is heard nor data sent. */
  predicate Quiet(e: Event) {
    && (e.Got? ==> !IsExitStatus(e.payload, 0) && ShownOf(e.payload) == NOTHING)
    && (e.Sent? ==> Number(e.payload) != CHANNEL_DATA)
  }

  predicate Preliminary(h: seq<Event>) {
    forall i :: 0 <= i < |h| ==> Quiet(h[i])
  }

  lemma QuietEvents(e: Event)
    ensures e.Got? && Number(e.payload) !in {CHANNEL_REQUEST, CHANNEL_DATA, CHANNEL_EXTENDED_DATA} ==> Quiet(e)
    ensures e.Sent? && Number(e.payload) != CHANNEL_DATA ==> Quiet(e)
  {
  }

  lemma {:induction false} PreliminaryPayloads(h: seq<Event>)
    requires Preliminary(h)
    ensures Tells(None, GotPayloads(h), 0, None) && DataIn(SentPayloads(h)) == [] && ShownBy(h) == NOTHING
  {
    if h == [] {
      assert DataIn([]) == [];
    } else {
      var init, last := h[..|h| - 1], h[|h| - 1];
      PreliminaryPayloads(init);
      assert Quiet(last);
      QuietPayloads(last);
      assert h == init + [last];
      PayloadsConcat(init, [last]);
      TellsThen(None, GotPayloads(init), None, GotPayloads([last]), None, 0);
      DataThen(init, [last]);
      ShownThen(init, [last]);
      JoinedNothing(NOTHING);
    }
  }

  lemma QuietPayloads(e: Event)
    requires Quiet(e)
    ensures Tells(None, GotPayloads([e]), 0, None) && DataIn(SentPayloads([e])) == [] && ShownBy([e]) == NOTHING
  {
    assert DataIn([]) == [];
    match e
    case Sent(m) =>
      OneSent(m);
      OneData(m);
    case Got(m) =>
      OneGot(m);
      ShownOne(m);
    case _ =>
      var one := [e];
      assert one[..0] == [];
  }

  lemma QuietRow(a: Event, b: Event, c: Event, d: Event, e: Event, f: Event, g: Event, h: Event)
    requires Quiet(a) && Quiet(b) && Quiet(c) && Quiet(d) && Quiet(e) && Quiet(f) && Quiet(g) && Quiet(h)
    ensures Preliminary([a, b, c, d, e, f, g, h]) && Preliminary([a, b, c, d, e, f])
  {
  }

  /** The exchange and the authentication are preliminary. */
  lemma ExchangeIsPreliminary(p: Primitives, s: Setting, file: Option<bytes>, clear: seq<bytes>, x: Exchange)
    requires Completed(p, s, file, clear, x) && IsOurs(s.client)
    ensures Preliminary(Played(ExchangeScript(p, s, Some(x)), clear))
  {
    ExchangeNumbers(p, s, file, clear, x);
    var point, ours, theirs := ExchangeListed(p, s, file, clear, x);
    ExchangeIsQuiet(s.client.rawPayload, clear[0], point, clear[1], ours, theirs);
  }

  lemma ExchangeListed(p: Primitives, s: Setting, file: Option<bytes>, clear: seq<bytes>, x: Exchange)
    returns (point: bytes, ours: Keys, theirs: Keys)
    requires Completed(p, s, file, clear, x)
    ensures Number(point) == 30
    ensures Played(ExchangeScript(p, s, Some(x)), clear)
      == [Sent(s.client.rawPayload), Got(clear[0]), Sent(point), Got(clear[1]), Sent([21]), KeysOut(ours), Got([21]),
          KeysIn(theirs)]
  {
    assert |clear| >= 3 && clear[2] == [21];
    point := [30] + Str(p.publicKey(s.privateKey));
    ours := KeysFor(p, x.secret, x.hash, x.hash, 65, 67, 69);
    theirs := KeysFor(p, x.secret, x.hash, x.hash, 66, 68, 70);
    ScriptWritten(p, s, x, ours, theirs);
    ExchangePlayedOut(s.client.rawPayload, point, ours, theirs, clear);
  }

  lemma ExchangeNumbers(p: Primitives, s: Setting, file: Option<bytes>, clear: seq<bytes>, x: Exchange)
    requires Completed(p, s, file, clear, x) && IsOurs(s.client)
    ensures Number(s.client.rawPayload) == 20 && |clear| >= 3 && Number(clear[0]) == 20 && Number(clear[1]) == 31
  {
  }

  lemma ExchangeIsQuiet(init: bytes, theirInit: bytes, point: bytes, reply: bytes, ours: Keys, theirs: Keys)
    requires Number(init) == Number(theirInit) == 20 && Number(point) == 30 && Number(reply) == 31
    ensures Preliminary([Sent(init), Got(theirInit), Sent(point), Got(reply), Sent([21]), KeysOut(ours), Got([21]),
                         KeysIn(theirs)])
  {
    QuietEvents(Sent(init));
    QuietEvents(Got(theirInit));
    QuietEvents(Sent(point));
    QuietEvents(Got(reply));
    QuietEvents(Sent([21]));
    QuietEvents(Got([21]));
    QuietRow(Sent(init), Got(theirInit), Sent(point), Got(reply), Sent([21]), KeysOut(ours), Got([21]), KeysIn(theirs));
  }

  lemma AuthIsPreliminary(c: Credentials, secured: seq<bytes>)
    requires Usable(c, AES_BLOCK_SIZE) && Admits(secured)
    ensures Preliminary(Played(AuthScript(c), secured))
  {
    AuthWritten(c, secured);
    AdmitsWritten(secured);
    var first := [5] + Str(Ascii("ssh-userauth"));
    var second := [50] + (Str(c.username) + Str(Ascii("ssh-connection")) + Str(Ascii("none")));
    var third := [50] + (Str(c.username) + Str(Ascii("ssh-connection")) + Str(Ascii("password")))
                 + ([0] + Str(c.password));
    QuietEvents(Sent(first));
    QuietEvents(Sent(second));
    QuietEvents(Sent(third));
    QuietEvents(Got(secured[0]));
    QuietEvents(Got(secured[1]));
    QuietEvents(Got(secured[2]));
    QuietRow(Sent(first), Got(secured[0]), Sent(second), Got(secured[1]), Sent(third), Got(secured[2]), Sent(first),
             Sent(first));
  }

  lemma PreliminaryThen(a: seq<Event>, b: seq<Event>, status: Option<u32>, typed: bytes, shown: Shown)
    requires Preliminary(a) && Tells(None, GotPayloads(b), 0, status) && DataIn(SentPayloads(b)) == typed
      && ShownBy(b) == shown
    ensures Tells(None, GotPayloads(a + b), 0, status) && DataIn(SentPayloads(a + b)) == typed
      && ShownBy(a + b) == shown
  {
    PreliminaryPayloads(a);
    PayloadsConcat(a, b);
    TellsThen(None, GotPayloads(a), None, GotPayloads(b), status, 0);
    DataThen(a, b);
    ShownThen(a, b);
    JoinedNothing(shown);
  }

  /** What the user typed once the three requests were granted, each read cut to what the server took. */
  function TypedIn(secured: seq<bytes>, user: User, polls: seq<Poll>): bytes
    requires Admits(secured)
  {
    var ready := SessionWith(secured, user, []);
    Typed(ready.channel, Inputs(ready.channel, Rest(secured[3..], ready), polls))
  }

  /**
    * The status that a run returns is the one that the server's exit-status message told, if there was one; and the
    * data sent is what the user typed.
    */
  lemma SuccessSays(p: Primitives, s: Setting, file: Option<bytes>, user: User, polls: seq<Poll>, report: Report,
                    status: Option<u32>)
    requires |report.ends| == |report.history| + 1 && IsOurs(s.client)
    requires Explained(p, s, file, user, polls, report, Success(status))
    ensures Tells(None, GotPayloads(report.history), 0, status)
    ensures ShownBy(report.history) == ShownTo(Secured(p, report), user, polls)
    ensures DataIn(SentPayloads(report.history)) == TypedIn(Secured(p, report), user, polls)
  {
    var x, secured := report.exchange.value, Secured(p, report);
    var exchange, auth := Played(ExchangeScript(p, s, Some(x)), Clear(p, report)),
                          Played(AuthScript(user.credentials), secured);
    var events := SessionWith(secured, user, polls).events;
    SessionTells(secured, user, polls);
    ExchangeIsPreliminary(p, s, file, Clear(p, report), x);
    AuthIsPreliminary(user.credentials, secured);
    PreliminaryThen(auth, events, status, TypedIn(secured, user, polls), ShownBy(events));
    PreliminaryThen(exchange, auth + events, status, TypedIn(secured, user, polls), ShownBy(events));
  }

  lemma SessionTells(secured: seq<bytes>, user: User, polls: seq<Poll>)
    requires Admits(secured) && !SessionWith(secured, user, polls).threw
    ensures var o := SessionWith(secured, user, polls);
            Tells(None, GotPayloads(o.events), 0, StatusOf(o.channel))
            && DataIn(SentPayloads(o.events)) == TypedIn(secured, user, polls)
  {
    var o := SessionWith(secured, user, polls);
    assert [] + o.events == o.events && o.events[0..] == o.events;
    Session.SessionSays(user.terminal, AES_BLOCK_SIZE, secured[3..], polls, [], o.events);
  }

  /** Without an acceptable server nothing is committed to, and the known hosts stay as they were. */
  lemma CommitmentIsVouched(p: Primitives, s: Setting, file: Option<bytes>, user: User, polls: seq<Poll>,
                            report: Report, after: Option<bytes>)
    requires |report.ends| == |report.history| + 1 && IsOurs(s.client)
    requires report.history <= Transcript(p, s, user, polls, report) && Deserved(p, s, file, report)
    requires Judged(p, s, file, Clear(p, report), report.exchange, after)
    ensures Committed(report.history) || after != file ==> Vouched(p, s, file, Clear(p, report))
  {
    if report.exchange.Some? {
      AcceptableIsVouched(p, s, file, Clear(p, report), report.exchange.value);
    } else {
      var played := Played(ExchangeScript(p, s, None), Clear(p, report));
      assert played + [] == played && ExchangeScript(p, s, None) == Greeting(p, s);
      GreetingCommitsNothing(p, s, Clear(p, report), report.history);
    }
  }

  // ---- What is in the clear ----

  /**
    * On the wire of any run exactly KEXINIT, ECDH_INIT and NEWKEYS are in the clear; every other packet, the
    * password among them, is written with each bit flipped where the keystream has a one, and with a MAC.
    */
  lemma OnlyTheExchangeIsInTheClear(p: Primitives, start: End, history: seq<Event>, ends: seq<End>, i: nat)
    requires Account(p, start, history, ends) && Conforms(history) && i < |history| && history[i].Sent?
    requires start.out.protection.Clear? && start.reading.direction.protection.Clear?
    ensures ends[i].out.protection.Clear? <==> Number(history[i].payload) in {20, 30, 21}
    ensures OnTheWire(p, ends[i].out, history[i].payload, ends[i].written, ends[i + 1].written)
  {
    ClearUntilKeys(p, start, history, ends, i);
    SentUnderKeys(history, i);
    assert Moved(p, ends[i], history[i], ends[i + 1]);
    WrittenAs(p, ends[i], history[i].payload, ends[i + 1]);
  }
}
