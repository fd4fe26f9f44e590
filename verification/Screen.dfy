/**
  * What the remote shell shows the user: the data that src/main.cpp writes to std::cout and std::cerr. The notices of
  * the client itself are not part of it.
  */
module Screen {
  import opened Prelude
  import opened History
  import opened Messages
  import opened Shell
  import opened Requests

  datatype Shown = Shown(output: bytes, errors: bytes)

  const NOTHING := Shown([], [])

  function Joined(a: Shown, b: Shown): Shown {
    Shown(a.output + b.output, a.errors + b.errors)
  }

  predicate Begins(a: Shown, b: Shown) {
    a.output <= b.output && a.errors <= b.errors
  }

  function ErrorsOf(p: bytes): bytes {
    if |p| >= 13 && p[0] == 95 then p[13..] else []
  }

  function ShownOf(p: bytes): Shown {
    Shown(DataOf(p), ErrorsOf(p))
  }

  /** The data and the error data in some messages, each one after another. */
  function ShownIn(messages: seq<bytes>): Shown {
    if messages == [] then NOTHING else
    Joined(ShownIn(messages[..|messages| - 1]), ShownOf(messages[|messages| - 1]))
  }

  lemma JoinedNothing(a: Shown)
    ensures Joined(a, NOTHING) == a == Joined(NOTHING, a)
  {
  }

  lemma JoinedThen(a: Shown, b: Shown, c: Shown)
    ensures Joined(Joined(a, b), c) == Joined(a, Joined(b, c))
  {
    assert (a.output + b.output) + c.output == a.output + (b.output + c.output);
    assert (a.errors + b.errors) + c.errors == a.errors + (b.errors + c.errors);
  }

  lemma {:induction false} ShownConcat(a: seq<bytes>, b: seq<bytes>)
    ensures ShownIn(a + b) == Joined(ShownIn(a), ShownIn(b))
  {
    if b == [] {
      assert a + b == a;
      JoinedNothing(ShownIn(a));
    } else {
      var init, last := b[..|b| - 1], b[|b| - 1];
      ShownConcat(a, init);
      assert (a + b)[..|a + b| - 1] == a + init && (a + b)[|a + b| - 1] == last;
      JoinedThen(ShownIn(a), ShownIn(init), ShownOf(last));
    }
  }

  lemma ShownOne(p: bytes)
    ensures ShownIn([p]) == ShownOf(p)
  {
    var one := [p];
    assert one[..0] == [] && ShownIn(one[..0]) == NOTHING;
    JoinedNothing(ShownOf(p));
  }

  lemma {:induction false} OutputIsData(messages: seq<bytes>)
    ensures ShownIn(messages).output == DataIn(messages)
  {
    if messages != [] {
      OutputIsData(messages[..|messages| - 1]);
    }
  }

  function ShownBy(events: seq<Event>): Shown {
    ShownIn(GotPayloads(events))
  }

  lemma ShownThen(a: seq<Event>, b: seq<Event>)
    ensures ShownBy(a + b) == Joined(ShownBy(a), ShownBy(b))
  {
    PayloadsConcat(a, b);
    ShownConcat(GotPayloads(a), GotPayloads(b));
  }

  lemma ShownPrefix(a: seq<Event>, b: seq<Event>)
    requires a <= b
    ensures Begins(ShownBy(a), ShownBy(b))
  {
    assert b == a + b[|a|..];
    ShownThen(a, b[|a|..]);
  }

  /** An operation that should show `adds` has done so if it returned, and shown a first part of it otherwise. */
  predicate Showed(was: Shown, adds: Shown, now: Shown, returned: bool) {
    Begins(was, now) && Begins(now, Joined(was, adds)) && (returned ==> now == Joined(was, adds))
  }

  lemma ShowedNothing(was: Shown, adds: Shown)
    ensures Showed(was, adds, was, false) && Showed(was, NOTHING, was, true)
  {
    JoinedNothing(was);
  }

  /** One operation that showed all it should, and another behind it. */
  lemma ShowedThen(was: Shown, a: Shown, middle: Shown, b: Shown, now: Shown, returned: bool)
    requires middle == Joined(was, a) && Showed(middle, b, now, returned)
    ensures Showed(was, Joined(a, b), now, returned)
  {
    JoinedThen(was, a, b);
  }

  lemma ShowedMore(was: Shown, a: seq<Event>, middle: Shown, b: seq<Event>, now: Shown, returned: bool)
    requires middle == Joined(was, ShownBy(a)) && Showed(middle, ShownBy(b), now, returned)
    ensures Showed(was, ShownBy(a + b), now, returned)
  {
    ShownThen(a, b);
    ShowedThen(was, ShownBy(a), middle, ShownBy(b), now, returned);
  }

  /** The same of an operation that is the first part of another. */
  lemma ShowedLonger(was: Shown, h: seq<Event>, part: seq<Event>, whole: seq<Event>, now: Shown, returned: bool)
    requires Showed(was, ShownBy(part), now, returned)
    requires h + part <= h + whole && (returned ==> part == whole)
    ensures Showed(was, ShownBy(whole), now, returned)
  {
    assert part == (h + part)[|h|..] && whole == (h + whole)[|h|..];
    ShownPrefix(part, whole);
  }

  /** The user's view of the remote shell. */
  class Screen {
    var output: bytes
    var errors: bytes

    constructor ()
      ensures State() == NOTHING
    {
      output, errors := [], [];
    }

    function State(): Shown
      reads this
    {
      Shown(output, errors)
    }

    method Write(data: bytes)
      modifies this
      ensures output == old(output) + data && errors == old(errors)
    {
      output := output + data;
    }

    method WriteError(data: bytes)
      modifies this
      ensures errors == old(errors) + data && output == old(output)
    {
      errors := errors + data;
    }
  }

  // ---- What a turn shows, and what a wait does not ----

  function ShownArriving(packet: Result<bytes>): Shown {
    if packet.Success? then ShownOf(packet.value) else NOTHING
  }

  /** What a turn shows: the data of the message that arrived, if it came to reading it. */
  function ShownAt(c: ChannelState, input: Input): Shown {
    if input.poll.Ready? && !KeyboardTurn(c, input.poll.keyboard).threw && input.poll.socketReadable
    then ShownArriving(input.packet)
    else NOTHING
  }

  lemma TurnShows(c: ChannelState, input: Input)
    ensures ShownBy(Turn(c, input).events) == ShownAt(c, input)
  {
    if input.poll.Ready? && !KeyboardTurn(c, input.poll.keyboard).threw {
      TurnReads(c, input);
      if input.packet.Success? {
        ShownOne(input.packet.value);
      }
    }
  }

  lemma ReactionShowsNothing(w: Awaited, p: bytes, c: ChannelState)
    requires !React(w, p, c).Refused?
    ensures ShownOf(p) == NOTHING
  {
  }

  /** No data is read in a wait that returns. */
  lemma {:induction false} AwaitShowsNothing(w: Awaited, arriving: seq<bytes>, c: ChannelState)
    requires !Await(w, arriving, c).threw
    ensures ShownBy(Await(w, arriving, c).events) == NOTHING
    decreases |arriving|
  {
    var p := arriving[0];
    ReactionShowsNothing(w, p, c);
    ShownOne(p);
    match React(w, p, c)
    case Done(d) =>
      ListedPayloads(Some(p), None);
      assert Await(w, arriving, c).events == Listed(Some(p), None);
    case Again(d, reply) =>
      var rest := Await(w, arriving[1..], d).events;
      AwaitShowsNothing(w, arriving[1..], d);
      ListedPayloads(Some(p), reply);
      ShownThen(Listed(Some(p), reply), rest);
    case Refused =>
  }

  lemma RequestShowsNothing(message: Result<bytes>, block: nat, w: Awaited, arriving: seq<bytes>, c: ChannelState)
    requires block > 0 && !Request(message, block, w, arriving, c).threw
    ensures ShownBy(Request(message, block, w, arriving, c).events) == NOTHING
  {
    AwaitShowsNothing(w, arriving, c);
    OneSent(message.value);
    ShownThen([Sent(message.value)], Await(w, arriving, c).events);
  }

  /** After a request that was granted, only what follows shows anything. */
  lemma ShownBehindRequest(message: Result<bytes>, block: nat, w: Awaited, arriving: seq<bytes>, c: ChannelState,
                           rest: Outcome)
    requires block > 0
    ensures var o := Request(message, block, w, arriving, c);
            !o.threw ==> ShownBy(Then(o, rest).events) == ShownBy(rest.events)
  {
    var o := Request(message, block, w, arriving, c);
    if !o.threw {
      RequestShowsNothing(message, block, w, arriving, c);
      ShownThen(o.events, rest.events);
      JoinedNothing(ShownBy(rest.events));
    }
  }
}
