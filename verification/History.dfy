/** What one end of a connection has done so far, and sums over it. */
module History {
  import opened Prelude
  import opened Framing

  /** KeysOut and KeysIn are the installation of keys for sending and for receiving. */
  datatype Event = Sent(payload: bytes) | Got(payload: bytes) | KeysOut(keys: Keys) | KeysIn(keys: Keys)

  predicate SwitchedOut(h: seq<Event>) {
    exists i :: 0 <= i < |h| && h[i].KeysOut?
  }

  predicate SwitchedIn(h: seq<Event>) {
    exists i :: 0 <= i < |h| && h[i].KeysIn?
  }

  lemma SwitchedSnoc(h: seq<Event>, e: Event)
    ensures SwitchedOut(h + [e]) <==> SwitchedOut(h) || e.KeysOut?
    ensures SwitchedIn(h + [e]) <==> SwitchedIn(h) || e.KeysIn?
  {
    var g := h + [e];
    assert g[|h|] == e && forall i :: 0 <= i < |h| ==> g[i] == h[i];
  }

  /** The sum of a measure over a queue of payloads. */
  function Total(queue: seq<bytes>, measure: bytes -> nat): nat {
    if queue == [] then 0 else Total(queue[..|queue| - 1], measure) + measure(queue[|queue| - 1])
  }

  lemma {:induction false} TotalConcat(a: seq<bytes>, b: seq<bytes>, measure: bytes -> nat)
    ensures Total(a + b, measure) == Total(a, measure) + Total(b, measure)
  {
    if b == [] {
      assert a + b == a;
    } else {
      TotalConcat(a, b[..|b| - 1], measure);
      assert (a + b)[..|a + b| - 1] == a + b[..|b| - 1];
    }
  }

  lemma TotalHead(queue: seq<bytes>, measure: bytes -> nat)
    requires queue != []
    ensures Total(queue, measure) == measure(queue[0]) + Total(queue[1..], measure)
  {
    assert queue == [queue[0]] + queue[1..];
    TotalConcat([queue[0]], queue[1..], measure);
    assert [queue[0]][..0] == queue[..0] && Total([], measure) == 0;
  }

  function SentPayloads(h: seq<Event>): seq<bytes> {
    if h == [] then [] else
    SentPayloads(h[..|h| - 1]) + if h[|h| - 1].Sent? then [h[|h| - 1].payload] else []
  }

  function GotPayloads(h: seq<Event>): seq<bytes> {
    if h == [] then [] else
    GotPayloads(h[..|h| - 1]) + if h[|h| - 1].Got? then [h[|h| - 1].payload] else []
  }

  lemma {:induction false} PayloadsConcat(a: seq<Event>, b: seq<Event>)
    ensures SentPayloads(a + b) == SentPayloads(a) + SentPayloads(b)
    ensures GotPayloads(a + b) == GotPayloads(a) + GotPayloads(b)
  {
    if b == [] {
      assert a + b == a;
    } else {
      var init, last := b[..|b| - 1], b[|b| - 1];
      PayloadsConcat(a, init);
      assert (a + b)[..|a + b| - 1] == a + init && (a + b)[|a + b| - 1] == last;
      var sent := if last.Sent? then [last.payload] else [];
      var got := if last.Got? then [last.payload] else [];
      assert (SentPayloads(a) + SentPayloads(init)) + sent == SentPayloads(a) + (SentPayloads(init) + sent);
      assert (GotPayloads(a) + GotPayloads(init)) + got == GotPayloads(a) + (GotPayloads(init) + got);
    }
  }

  // ---- What one end does, and where it listens ----

  /** An entry of a script: do this, or take the next message that arrives. */
  datatype Cue = Does(e: Event) | Hears

  /** A script played against the messages that arrive, up to where they end. */
  function Played(script: seq<Cue>, arriving: seq<bytes>): seq<Event> {
    if script == [] then [] else
    match script[0]
    case Does(e) => [e] + Played(script[1..], arriving)
    case Hears => if arriving == [] then [] else [Got(arriving[0])] + Played(script[1..], arriving[1..])
  }

  function Hearings(script: seq<Cue>): nat {
    if script == [] then 0 else Hearings(script[1..]) + if script[0].Hears? then 1 else 0
  }

  /** From history h, an operation has gone along a script, to its end if it completed. */
  predicate Along(script: seq<Cue>, arriving: seq<bytes>, h: seq<Event>, after: seq<Event>, completed: bool) {
    h <= after <= h + Played(script, arriving) && (completed ==> |after| == |h| + |script|)
  }

  /** The first entry of a script, when it is played, and what it leaves to arrive. */
  lemma PlayedHead(script: seq<Cue>, arriving: seq<bytes>)
    requires script != []
    ensures script[0].Does? ==> Played(script, arriving) == [script[0].e] + Played(script[1..], arriving)
    ensures script[0].Hears? && arriving != [] ==>
      Played(script, arriving) == [Got(arriving[0])] + Played(script[1..], arriving[1..])
    ensures script[0].Hears? && arriving == [] ==> Played(script, arriving) == []
  {
  }

  /** What may follow a part of a script that was played: it is longer, and all of it if the part was complete. */
  predicate Extends(part: seq<Event>, whole: seq<Event>, complete: bool, rest: seq<Event>) {
    part <= whole && (complete ==> whole == part + rest)
  }

  lemma ExtendsBehind(e: Event, part: seq<Event>, whole: seq<Event>, complete: bool, rest: seq<Event>)
    requires Extends(part, whole, complete, rest)
    ensures Extends([e] + part, [e] + whole, complete, rest)
  {
    assert complete ==> [e] + (part + rest) == ([e] + part) + rest;
  }

  lemma {:induction false} PlayedThen(a: seq<Cue>, b: seq<Cue>, arriving: seq<bytes>)
    ensures |Played(a, arriving)| <= |a| && (|Played(a, arriving)| == |a| ==> Hearings(a) <= |arriving|)
    ensures var k := Hearings(a);
            Extends(Played(a, arriving), Played(a + b, arriving), |Played(a, arriving)| == |a|,
                    if k <= |arriving| then Played(b, arriving[k..]) else [])
  {
    if a == [] {
      assert a + b == b && arriving[0..] == arriving;
    } else {
      var left := if a[0].Does? || arriving == [] then arriving else arriving[1..];
      var k := Hearings(a[1..]);
      PlayedThen(a[1..], b, left);
      assert (a + b)[0] == a[0] && (a + b)[1..] == a[1..] + b;
      PlayedHead(a, arriving);
      PlayedHead(a + b, arriving);
      assert arriving != [] && a[0].Hears? && k <= |left| ==> left[k..] == arriving[k + 1..];
      if a[0].Does? || arriving != [] {
        ExtendsBehind(Played(a, arriving)[0], Played(a[1..], left), Played(a[1..] + b, left),
                      |Played(a[1..], left)| == |a[1..]|, if k <= |left| then Played(b, left[k..]) else []);
      }
    }
  }

  /** Two scripts one after another, of which the first was not completed. */
  lemma AlongFirst(a: seq<Cue>, b: seq<Cue>, arriving: seq<bytes>, h: seq<Event>, after: seq<Event>)
    requires Along(a, arriving, h, after, false)
    ensures Along(a + b, arriving, h, after, false)
  {
    PlayedThen(a, b, arriving);
  }

  lemma AlongThen(a: seq<Cue>, b: seq<Cue>, arriving: seq<bytes>, h: seq<Event>, middle: seq<Event>, after: seq<Event>,
                  completed: bool)
    requires Along(a, arriving, h, middle, true) && Hearings(a) <= |arriving|
    requires Along(b, arriving[Hearings(a)..], middle, after, completed)
    ensures Along(a + b, arriving, h, after, completed)
  {
    PlayedThen(a, b, arriving);
    assert middle == h + Played(a, arriving);
    assert h + (Played(a, arriving) + Played(b, arriving[Hearings(a)..]))
        == middle + Played(b, arriving[Hearings(a)..]);
  }

  lemma {:induction false} HearingsThen(a: seq<Cue>, b: seq<Cue>)
    ensures Hearings(a + b) == Hearings(a) + Hearings(b)
  {
    if a == [] {
      assert a + b == b;
    } else {
      HearingsThen(a[1..], b);
      assert (a + b)[1..] == a[1..] + b;
    }
  }

  /** A message and its answer. */
  function Dialogue(request: bytes): seq<Cue> {
    [Does(Sent(request)), Hears]
  }

  lemma DialoguePlayed(request: bytes, arriving: seq<bytes>)
    ensures Played(Dialogue(request), arriving)
         == if arriving == [] then [Sent(request)] else [Sent(request)] + [Got(arriving[0])]
    ensures Hearings(Dialogue(request)) == 1
  {
    var rest: seq<Cue> := [Hears];
    assert Dialogue(request)[1..] == rest && rest[1..] == [];
    PlayedHead(Dialogue(request), arriving);
    PlayedHead(rest, arriving);
  }

  /** A dialogue that is answered, and what follows it. */
  lemma DialogueThen(request: bytes, rest: seq<Cue>, arriving: seq<bytes>)
    requires arriving != []
    ensures Played(Dialogue(request) + rest, arriving)
         == [Sent(request), Got(arriving[0])] + Played(rest, arriving[1..])
  {
    var script: seq<Cue> := Dialogue(request) + rest;
    PlayedHead(script, arriving);
    PlayedHead(script[1..], arriving);
    assert script[1..][1..] == rest;
    assert [Sent(request)] + ([Got(arriving[0])] + Played(rest, arriving[1..]))
        == [Sent(request), Got(arriving[0])] + Played(rest, arriving[1..]);
  }

  /** How far a dialogue gets that was answered, or only begun, or not even that. */
  lemma DialogueAlong(request: bytes, arriving: seq<bytes>, h: seq<Event>, after: seq<Event>, sent: bool, heard: bool)
    requires heard ==> sent && arriving != []
    requires after == h + (if sent then [Sent(request)] else []) + (if heard then [Got(arriving[0])] else [])
    ensures Along(Dialogue(request), arriving, h, after, heard)
  {
    DialoguePlayed(request, arriving);
  }
}
