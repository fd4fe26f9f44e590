/** src/socket/socket.cpp: the exact-length loops over system calls that transfer as much as they like. */
module Socket {
  import opened Prelude

  type Chunk = s: bytes | 0 < |s| witness [0]

  /** What one read(2) may meet: bytes waiting, end of file, EINTR, another error. */
  datatype ReadOutcome = Arrived(data: Chunk) | EndOfFile | ReadInterrupted | ReadError

  /** What one write(2) may do: take up to so many bytes, return zero, EINTR, another error. */
  datatype WriteOutcome = Takes(room: nat) | WriteInterrupted | WriteError

  /** The bytes a connection ever delivers. */
  function Delivered(incoming: seq<ReadOutcome>): bytes {
    if incoming == [] then [] else
    match incoming[0]
    case Arrived(data) => data + Delivered(incoming[1..])
    case ReadInterrupted => Delivered(incoming[1..])
    case _ => []
  }

  /** How many bytes the connection takes before a write fails. */
  function Capacity(outgoing: seq<WriteOutcome>): nat {
    if outgoing == [] then 0 else
    match outgoing[0]
    case Takes(room) => if room == 0 then 0 else room + Capacity(outgoing[1..])
    case WriteInterrupted => Capacity(outgoing[1..])
    case WriteError => 0
  }

  /** What is left of the outcomes when n bytes were to be written. */
  function Remaining(outgoing: seq<WriteOutcome>, n: nat): seq<WriteOutcome> {
    if n == 0 || outgoing == [] then outgoing else
    match outgoing[0]
    case Takes(room) => if room == 0 then outgoing else Remaining(outgoing[1..], n - Min(room, n))
    case WriteInterrupted => Remaining(outgoing[1..], n)
    case WriteError => outgoing
  }

  /** How many writes take something before one fails. */
  function Willing(outgoing: seq<WriteOutcome>): nat {
    if outgoing == [] then 0 else
    match outgoing[0]
    case Takes(room) => if room == 0 then 0 else 1 + Willing(outgoing[1..])
    case WriteInterrupted => Willing(outgoing[1..])
    case WriteError => 0
  }

  /** A write that is willing takes a byte at least, so writing n bytes uses up at most n of them. */
  lemma {:induction false} WillingFalls(outgoing: seq<WriteOutcome>, n: nat)
    ensures Willing(outgoing) <= Capacity(outgoing)
    ensures Willing(outgoing) <= Willing(Remaining(outgoing, n)) + n
  {
    if outgoing != [] {
      match outgoing[0]
      case Takes(room) => WillingFalls(outgoing[1..], n - Min(room, n));
      case WriteInterrupted => WillingFalls(outgoing[1..], n);
      case WriteError =>
    }
  }

  class Socket {
    var incoming: seq<ReadOutcome>
    var outgoing: seq<WriteOutcome>
    var sent: bytes

    constructor (incoming: seq<ReadOutcome>, outgoing: seq<WriteOutcome>)
      ensures this.incoming == incoming && this.outgoing == outgoing && sent == []
    {
      this.incoming, this.outgoing, sent := incoming, outgoing, [];
    }

    /** The bytes still to be read. */
    function Stream(): bytes
      reads this
    {
      Delivered(incoming)
    }

    /** One read(2) of at most max bytes; None is EINTR. */
    method Read(max: nat) returns (r: Result<Option<Chunk>>)
      requires max > 0
      modifies `incoming
      ensures r.Failure? ==> old(Stream()) == []
      ensures r.Success? && r.value.None? ==> Stream() == old(Stream()) && |incoming| < |old(incoming)|
      ensures r.Success? && r.value.Some? ==>
        |r.value.value| <= max && r.value.value + Stream() == old(Stream()) && |incoming| <= |old(incoming)|
    {
      if incoming == [] {
        return Failure;
      }
      var outcome, rest := incoming[0], incoming[1..];
      match outcome {
        case Arrived(data) =>
          if |data| <= max {
            incoming := rest;
            return Success(Some(data));
          }
          incoming := [Arrived(data[max..])] + rest;
          assert data == data[..max] + data[max..];
          return Success(Some(data[..max]));
        case ReadInterrupted =>
          incoming := rest;
          return Success(None);
        case _ =>
          return Failure;
      }
    }

    /** However the bytes arrive, exactly the next dst.Length of them are read, or there are too few. */
    method ReadExact(dst: array<byte>) returns (r: Result<()>)
      modifies `incoming, dst
      ensures r.Success? <==> dst.Length <= |old(Stream())|
      ensures r.Success? ==> dst[..] == old(Stream())[..dst.Length] && Stream() == old(Stream())[dst.Length..]
    {
      var received := 0;
      while received < dst.Length
        invariant 0 <= received <= dst.Length
        invariant dst[..received] + Stream() == old(Stream())
        decreases |incoming| + dst.Length - received
      {
        var got :- Read(dst.Length - received);
        if got.Some? {
          var data := got.value;
          ghost var done := dst[..received];
          forall i | 0 <= i < |data| {
            dst[received + i] := data[i];
          }
          assert dst[..received + |data|] == done + data;
          received := received + |data|;
        }
      }
      assert dst[..] == dst[..received];
      return Success(());
    }

    /** Every byte is written in order, or as many of them as the connection takes before the failure. */
    method WriteExact(src: bytes) returns (r: Result<()>)
      modifies `outgoing, `sent
      ensures r.Success? <==> |src| <= Capacity(old(outgoing))
      ensures sent == old(sent) + src[..Min(|src|, Capacity(old(outgoing)))]
      ensures outgoing == Remaining(old(outgoing), |src|)
    {
      var written := 0;
      while written < |src|
        invariant 0 <= written <= |src|
        invariant sent == old(sent) + src[..written]
        invariant Remaining(outgoing, |src| - written) == Remaining(old(outgoing), |src|)
        invariant if written < |src| then Capacity(old(outgoing)) == written + Capacity(outgoing)
                  else |src| <= Capacity(old(outgoing))
        decreases |outgoing|
      {
        if outgoing == [] {
          return Failure;
        }
        var outcome := outgoing[0];
        match outcome {
          case Takes(room) =>
            if room == 0 {
              return Failure;
            }
            var n := Min(room, |src| - written);
            sent := sent + src[written..written + n];
            assert src[..written + n] == src[..written] + src[written..written + n];
            written := written + n;
          case WriteInterrupted =>
          case WriteError =>
            return Failure;
        }
        outgoing := outgoing[1..];
      }
      assert src[..written] == src;
      return Success(());
    }
  }
}
