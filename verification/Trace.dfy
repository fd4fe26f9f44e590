/**
  * The order of messages in a whole session, as an automaton over what was sent, received and installed, and
  * what every history the automaton accepts looks like.
  */
module Trace {
  import opened Prelude
  import opened History
  import opened Messages

  /** Halted: the server sent something out of order, and nothing may follow. Stuck: the client broke the order. */
  datatype Stage =
    | Start | KexInitSent | KexInitGot | EcdhInitSent | EcdhReplyGot
    | NewKeysSent | KeysOutInstalled | NewKeysGot | Secured
    | ServiceRequested | ServiceAccepted | NoneSent | NoneRefused | PasswordSent | Authenticated
    | OpenSent | Opened | PtySent | PtyGranted | ShellSent | Running | CloseGot | Closed
    | Halted | Stuck

  /** `owed`: a global request asked for a reply and has not had it. */
  datatype Phase = Phase(stage: Stage, owed: bool)

  function Number(p: bytes): byte {
    if p == [] then 0 else p[0]
  }

  function AfterSent(s: Stage, n: byte): Stage {
    match s
    case Start => if n == KEXINIT then KexInitSent else Stuck
    case KexInitGot => if n == KEX_ECDH_INIT then EcdhInitSent else Stuck
    case EcdhReplyGot => if n == NEWKEYS then NewKeysSent else Stuck
    case Secured => if n == SERVICE_REQUEST then ServiceRequested else Stuck
    case ServiceAccepted => if n == USERAUTH_REQUEST then NoneSent else Stuck
    case NoneRefused => if n == USERAUTH_REQUEST then PasswordSent else Stuck
    case Authenticated => if n == CHANNEL_OPEN then OpenSent else Stuck
    case Opened => if n == CHANNEL_REQUEST then PtySent else Stuck
    case PtyGranted => if n == CHANNEL_REQUEST then ShellSent else Stuck
    case Running => if n == CHANNEL_DATA || n == CHANNEL_WINDOW_ADJUST then Running else Stuck
    case CloseGot => if n == CHANNEL_CLOSE then Closed else Stuck
    case _ => Stuck
  }

  /** The stages in which the client reads. */
  predicate Listening(s: Stage) {
    s in {KexInitSent, EcdhInitSent, KeysOutInstalled, ServiceRequested, NoneSent, PasswordSent, OpenSent, PtySent,
      ShellSent, Running}
  }

  /** The stages in which global requests are answered. */
  predicate Answering(s: Stage) {
    s in {OpenSent, PtySent, ShellSent, Running}
  }

  function AfterGot(s: Stage, n: byte): Stage {
    if !Listening(s) then Stuck
    else if Answering(s) && n == GLOBAL_REQUEST then s
    else match s
    case KexInitSent => if n == KEXINIT then KexInitGot else Halted
    case EcdhInitSent => if n == KEX_ECDH_REPLY then EcdhReplyGot else Halted
    case KeysOutInstalled => if n == NEWKEYS then NewKeysGot else Halted
    case ServiceRequested => if n == SERVICE_ACCEPT then ServiceAccepted else Halted
    case NoneSent => if n == USERAUTH_FAILURE then NoneRefused else Halted
    case PasswordSent => if n == USERAUTH_SUCCESS then Authenticated else Halted
    case OpenSent => if n == CHANNEL_OPEN_CONFIRMATION then Opened else Halted
    case PtySent => if n == CHANNEL_SUCCESS then PtyGranted else if n == CHANNEL_WINDOW_ADJUST then s else Halted
    case ShellSent => if n == CHANNEL_SUCCESS then Running else if n == CHANNEL_WINDOW_ADJUST then s else Halted
    case Running =>
      if n == CHANNEL_CLOSE then CloseGot
      else if CHANNEL_WINDOW_ADJUST <= n <= CHANNEL_EOF || n == CHANNEL_REQUEST then s else Halted
    case _ => Stuck
  }

  function Next(ph: Phase, e: Event): Phase {
    match e
    case Sent(p) =>
      if ph.owed then (if p == [REQUEST_FAILURE] then Phase(ph.stage, false) else Phase(Stuck, false))
      else Phase(AfterSent(ph.stage, Number(p)), false)
    case Got(p) =>
      if ph.owed then Phase(Stuck, false)
      else Phase(AfterGot(ph.stage, Number(p)), Answering(ph.stage) && WantsReply(p))
    case KeysOut(_) => if ph == Phase(NewKeysSent, false) then Phase(KeysOutInstalled, false) else Phase(Stuck, false)
    case KeysIn(_) => if ph == Phase(NewKeysGot, false) then Phase(Secured, false) else Phase(Stuck, false)
  }

  function PhaseOf(h: seq<Event>): Phase {
    if h == [] then Phase(Start, false) else Next(PhaseOf(h[..|h| - 1]), h[|h| - 1])
  }

  predicate Conforms(h: seq<Event>) {
    !PhaseOf(h).stage.Stuck?
  }

  lemma PhaseSteps()
    ensures forall h: seq<Event>, e: Event {:trigger PhaseOf(h + [e])} :: PhaseOf(h + [e]) == Next(PhaseOf(h), e)
  {
    forall h: seq<Event>, e: Event
      ensures PhaseOf(h + [e]) == Next(PhaseOf(h), e)
    {
      assert (h + [e])[..|h|] == h;
    }
  }

  lemma {:induction false} StuckStays(h: seq<Event>, rest: seq<Event>)
    ensures !Conforms(h) ==> !Conforms(h + rest)
  {
    if rest == [] {
      assert h + rest == h;
    } else {
      StuckStays(h, rest[..|rest| - 1]);
      assert (h + rest)[..|h + rest| - 1] == h + rest[..|rest| - 1];
    }
  }

  lemma ConformsPrefix(h: seq<Event>, n: nat)
    requires Conforms(h) && n <= |h|
    ensures Conforms(h[..n])
  {
    assert h == h[..n] + h[n..];
    StuckStays(h[..n], h[n..]);
  }

  lemma PhaseAt(h: seq<Event>, i: nat)
    requires i < |h|
    ensures PhaseOf(h[..i + 1]) == Next(PhaseOf(h[..i]), h[i])
  {
    assert h[..i + 1][..i] == h[..i];
  }

  // ---- Everything after NEWKEYS is sent under keys ----

  predicate KeysAreOut(s: Stage) {
    s !in {Start, KexInitSent, KexInitGot, EcdhInitSent, EcdhReplyGot, NewKeysSent, Halted, Stuck}
  }

  lemma PhaseStep(h: seq<Event>)
    requires h != []
    ensures PhaseOf(h) == Next(PhaseOf(h[..|h| - 1]), h[|h| - 1])
  {
  }

  lemma KeysOutStep(ph: Phase, e: Event)
    requires ph.owed ==> Answering(ph.stage)
    requires var next := Next(ph, e); !next.stage.Stuck? && !next.stage.Halted?
    ensures var next := Next(ph, e);
            (KeysAreOut(next.stage) <==> KeysAreOut(ph.stage) || e.KeysOut?) && (next.owed ==> Answering(next.stage))
  {
  }

  lemma {:induction false} KeysOutByStage(h: seq<Event>)
    requires Conforms(h) && !PhaseOf(h).stage.Halted?
    ensures SwitchedOut(h) <==> KeysAreOut(PhaseOf(h).stage)
    ensures PhaseOf(h).owed ==> Answering(PhaseOf(h).stage)
  {
    if h != [] {
      var before := h[..|h| - 1];
      ConformsPrefix(h, |h| - 1);
      PhaseStep(h);
      HaltedIsLast(h[|h| - 1]);
      KeysOutByStage(before);
      KeysOutStep(PhaseOf(before), h[|h| - 1]);
      SwitchedSnoc(before, h[|h| - 1]);
      assert h == before + [h[|h| - 1]];
    }
  }

  /**
    * In an accepted history a message is sent without keys exactly if it is KEXINIT, ECDH_INIT or NEWKEYS;
    * everything else follows the installation of the keys.
    */
  lemma SentUnderKeys(h: seq<Event>, i: nat)
    requires Conforms(h) && i < |h| && h[i].Sent?
    ensures !SwitchedOut(h[..i]) <==> Number(h[i].payload) in {KEXINIT, KEX_ECDH_INIT, NEWKEYS}
  {
    ConformsPrefix(h, i + 1);
    ConformsPrefix(h, i);
    PhaseAt(h, i);
    HaltedOwesNothing(h[..i]);
    SendingStage(PhaseOf(h[..i]), h[i].payload);
    KeysOutByStage(h[..i]);
  }

  lemma HaltedOwesNothing(h: seq<Event>)
    ensures PhaseOf(h).stage.Halted? ==> !PhaseOf(h).owed
  {
    if PhaseOf(h).stage.Halted? {
      PhaseStep(h);
      HaltedOnlyBy(PhaseOf(h[..|h| - 1]), h[|h| - 1]);
    }
  }

  lemma HaltedOnlyBy(ph: Phase, e: Event)
    requires Next(ph, e).stage.Halted?
    ensures !Next(ph, e).owed
  {
  }

  lemma SendingStage(ph: Phase, p: bytes)
    requires !Next(ph, Sent(p)).stage.Stuck? && (ph.stage.Halted? ==> !ph.owed)
    ensures !ph.stage.Halted?
    ensures (ph.owed ==> Answering(ph.stage)) ==>
      (KeysAreOut(ph.stage) <==> Number(p) !in {KEXINIT, KEX_ECDH_INIT, NEWKEYS})
  {
  }

  // ---- Global requests are answered one by one ----

  /** A global request that wants a reply is followed at once by the failure reply, and no other event is. */
  lemma RepliesMatch(h: seq<Event>, i: nat)
    requires Conforms(h) && i + 1 < |h|
    ensures h[i + 1] == Sent([REQUEST_FAILURE]) <==> h[i].Got? && WantsReply(h[i].payload)
  {
    ConformsPrefix(h, i + 2);
    ConformsPrefix(h, i + 1);
    ConformsPrefix(h, i);
    PhaseAt(h, i);
    PhaseAt(h, i + 1);
    ReplyStep(PhaseOf(h[..i]), h[i], h[i + 1]);
  }

  lemma ReplyStep(ph: Phase, e: Event, f: Event)
    requires !Next(ph, e).stage.Stuck? && !Next(Next(ph, e), f).stage.Stuck?
    ensures f == Sent([REQUEST_FAILURE]) <==> e.Got? && WantsReply(e.payload)
  {
  }

  // ---- Nothing follows our CLOSE ----

  lemma ClosedIsLast(h: seq<Event>, i: nat)
    requires Conforms(h) && i < |h| && h[i].Sent? && Number(h[i].payload) == CHANNEL_CLOSE
    ensures i == |h| - 1 && PhaseOf(h) == Phase(Closed, false)
  {
    ConformsPrefix(h, i + 1);
    PhaseAt(h, i);
    ClosedBy(PhaseOf(h[..i]), h[i].payload);
    if i + 1 < |h| {
      ConformsPrefix(h, i + 2);
      PhaseAt(h, i + 1);
      AfterClosed(h[i + 1]);
    } else {
      assert h[..i + 1] == h;
    }
  }

  lemma ClosedBy(ph: Phase, p: bytes)
    requires !Next(ph, Sent(p)).stage.Stuck? && Number(p) == CHANNEL_CLOSE
    ensures Next(ph, Sent(p)) == Phase(Closed, false)
  {
  }

  lemma AfterClosed(e: Event)
    ensures Next(Phase(Closed, false), e).stage.Stuck?
  {
  }

  // ---- The message numbers sent, as a grammar ----

  function SentNumbers(h: seq<Event>): bytes {
    if h == [] then [] else
    SentNumbers(h[..|h| - 1]) + if h[|h| - 1].Sent? then [Number(h[|h| - 1].payload)] else []
  }

  const PREAMBLE: bytes :=
    [KEXINIT, KEX_ECDH_INIT, NEWKEYS, SERVICE_REQUEST, USERAUTH_REQUEST, USERAUTH_REQUEST, CHANNEL_OPEN]

  predicate Failures(w: bytes) {
    forall i :: 0 <= i < |w| ==> w[i] == REQUEST_FAILURE
  }

  predicate Traffic(w: bytes) {
    forall i :: 0 <= i < |w| ==> w[i] == CHANNEL_DATA || w[i] == CHANNEL_WINDOW_ADJUST || w[i] == REQUEST_FAILURE
  }

  /** How far into the preamble a stage is. */
  function PreambleSent(s: Stage): nat {
    match s
    case Start => 0
    case KexInitSent => 1 case KexInitGot => 1
    case EcdhInitSent => 2 case EcdhReplyGot => 2
    case NewKeysSent => 3 case KeysOutInstalled => 3 case NewKeysGot => 3 case Secured => 3
    case ServiceRequested => 4 case ServiceAccepted => 4
    case NoneSent => 5 case NoneRefused => 5
    case PasswordSent => 6 case Authenticated => 6
    case _ => 7
  }

  /** The sent numbers in the stages of a session; a, b and traffic are the repeated parts. */
  predicate Shape(s: Stage, w: bytes, a: bytes, b: bytes, traffic: bytes) {
    && Failures(a) && Failures(b) && Traffic(traffic)
    && if PreambleSent(s) < 7 then w == PREAMBLE[..PreambleSent(s)]
       else if s.OpenSent? || s.Opened? then w == PREAMBLE + a
       else if s.PtySent? || s.PtyGranted? then w == PREAMBLE + a + [CHANNEL_REQUEST] + b
       else if s.ShellSent? || s.Running? || s.CloseGot?
       then w == PREAMBLE + a + [CHANNEL_REQUEST] + b + [CHANNEL_REQUEST] + traffic
       else s.Closed? && w == PREAMBLE + a + [CHANNEL_REQUEST] + b + [CHANNEL_REQUEST] + traffic + [CHANNEL_CLOSE]
  }

  ghost predicate InGrammar(w: bytes) {
    exists s: Stage, a: bytes, b: bytes, traffic: bytes :: Shape(s, w, a, b, traffic)
  }

  /** One more number: which stage it leads to, and which repeated part it belongs to. */
  lemma ShapeGrows(s: Stage, owed: bool, w: bytes, a: bytes, b: bytes, traffic: bytes, p: bytes)
    returns (a': bytes, b': bytes, traffic': bytes)
    requires Shape(s, w, a, b, traffic) && (owed ==> Answering(s))
    requires !Next(Phase(s, owed), Sent(p)).stage.Stuck?
    ensures Shape(Next(Phase(s, owed), Sent(p)).stage, w + [Number(p)], a', b', traffic')
  {
    a', b', traffic' := a, b, traffic;
    if owed {
      if s.OpenSent? {
        a' := a + [REQUEST_FAILURE];
      } else if s.PtySent? {
        b' := b + [REQUEST_FAILURE];
      } else {
        traffic' := traffic + [REQUEST_FAILURE];
      }
    } else if s.Running? {
      traffic' := traffic + [Number(p)];
    } else if s.Opened? {
      b' := [];
      assert w + [CHANNEL_REQUEST] == PREAMBLE + a + [CHANNEL_REQUEST] + [];
    } else if s.PtyGranted? {
      traffic' := [];
      assert w + [CHANNEL_REQUEST] == PREAMBLE + a + [CHANNEL_REQUEST] + b + [CHANNEL_REQUEST] + [];
    } else if s.Authenticated? {
      a' := [];
      assert w + [CHANNEL_OPEN] == PREAMBLE == PREAMBLE + [];
    }
  }

  /** Receiving and installing move through the stages without adding a number. */
  lemma ShapeKept(s: Stage, owed: bool, w: bytes, a: bytes, b: bytes, traffic: bytes, e: Event)
    returns (a': bytes, b': bytes, traffic': bytes)
    requires Shape(s, w, a, b, traffic) && !e.Sent?
    requires var next := Next(Phase(s, owed), e).stage; !next.Stuck? && !next.Halted?
    ensures Shape(Next(Phase(s, owed), e).stage, w, a', b', traffic')
  {
    a', b', traffic' := a, b, traffic;
  }

  lemma {:induction false} ShapeOf(h: seq<Event>) returns (a: bytes, b: bytes, traffic: bytes)
    requires Conforms(h) && !PhaseOf(h).stage.Halted?
    ensures Shape(PhaseOf(h).stage, SentNumbers(h), a, b, traffic)
  {
    if h == [] {
      a, b, traffic := [], [], [];
    } else {
      var before, e := h[..|h| - 1], h[|h| - 1];
      ConformsPrefix(h, |h| - 1);
      var ph := PhaseOf(before);
      assert PhaseOf(h) == Next(ph, e);
      HaltedIsLast(e);
      a, b, traffic := ShapeOf(before);
      KeysOutByStage(before);
      if e.Sent? {
        a, b, traffic := ShapeGrows(ph.stage, ph.owed, SentNumbers(before), a, b, traffic, e.payload);
        assert SentNumbers(h) == SentNumbers(before) + [Number(e.payload)];
      } else {
        a, b, traffic := ShapeKept(ph.stage, ph.owed, SentNumbers(before), a, b, traffic, e);
        assert SentNumbers(h) == SentNumbers(before) + [] == SentNumbers(before);
      }
    }
  }

  lemma HaltedIsLast(e: Event)
    ensures Next(Phase(Halted, false), e).stage.Stuck?
    ensures e.Got? || e.KeysOut? || e.KeysIn? ==> Next(Phase(Halted, true), e).stage.Stuck?
  {
  }

  /**
    * The numbers sent in any accepted history are a prefix of: the preamble, failure replies, a pty-req, failure
    * replies, a shell request, data and window adjustments and failure replies, and one CLOSE.
    */
  lemma SentNumbersInGrammar(h: seq<Event>)
    requires Conforms(h)
    ensures InGrammar(SentNumbers(h))
  {
    var stage := PhaseOf(h).stage;
    if stage.Halted? {
      // what put the session to a halt was received, so nothing was sent in that step
      HaltedOwesNothing(h);
      PhaseStep(h);
      ConformsPrefix(h, |h| - 1);
      var before := PhaseOf(h[..|h| - 1]);
      HaltedByReceiving(before, h[|h| - 1]);
      assert SentNumbers(h) == SentNumbers(h[..|h| - 1]) + [];
      HaltedOwesNothing(h[..|h| - 1]);
      var a, b, traffic := ShapeOf(h[..|h| - 1]);
      assert Shape(before.stage, SentNumbers(h), a, b, traffic);
    } else {
      var a, b, traffic := ShapeOf(h);
      assert Shape(stage, SentNumbers(h), a, b, traffic);
    }
  }

  lemma HaltedByReceiving(ph: Phase, e: Event)
    requires Next(ph, e).stage.Halted? && (ph.stage.Halted? ==> !ph.owed)
    ensures !e.Sent? && !ph.stage.Halted?
  {
  }
}
