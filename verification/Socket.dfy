/** One side's UDP socket, reduced to what reaches the transfer code. */
module Socket {
  import opened Packets

  /** What the next wait yields: an exhausted inbox stays silent. */
  function Next(inbox: seq<Event>): Event { if inbox == [] then Timeout else inbox[0] }

  function Rest(inbox: seq<Event>): seq<Event> { if inbox == [] then [] else inbox[1..] }

  /** What the first n waits on an inbox yield, and what they leave. */
  function Outcomes(inbox: seq<Event>, n: nat): (r: seq<Event>)
    ensures |r| == n
  {
    if n == 0 then [] else [Next(inbox)] + Outcomes(Rest(inbox), n - 1)
  }

  function Left(inbox: seq<Event>, n: nat): seq<Event> { if n == 0 then inbox else Left(Rest(inbox), n - 1) }

  lemma {:induction false} OneMore(inbox: seq<Event>, n: nat)
    ensures Outcomes(inbox, n + 1) == Outcomes(inbox, n) + [Next(Left(inbox, n))]
    ensures Left(inbox, n + 1) == Rest(Left(inbox, n))
    decreases n
  {
    if n > 0 {
      OneMore(Rest(inbox), n - 1);
    }
  }

  /** They are the inbox's events in order, and then silence. */
  lemma {:induction false} OutcomeAt(inbox: seq<Event>, n: nat, i: nat)
    requires i < n
    ensures Outcomes(inbox, n)[i] == if i < |inbox| then inbox[i] else Timeout
    decreases n
  {
    if i > 0 {
      OutcomeAt(Rest(inbox), n - 1, i - 1);
    }
  }

  /** recvfrom keeps at most `max` bytes of a datagram. */
  function Received(d: Datagram, max: nat): seq<byte> { if |d| <= max then d else d[..max] }

  class UdpSocket {
    var inbox: seq<Event>
    var sent: seq<Datagram>
    ghost var taken: seq<Event>  // every outcome so far
    ghost const given: seq<Event>  // the inbox at the start

    /** The waits so far have yielded what the inbox held, in order, and nothing else. */
    ghost predicate Drawn()
      reads this`inbox, this`taken
    {
      taken == Outcomes(given, |taken|) && inbox == Left(given, |taken|)
    }

    constructor (inbox: seq<Event>)
      ensures this.inbox == inbox && sent == [] && taken == [] && given == inbox && Drawn()
    {
      this.inbox, sent, taken, given := inbox, [], [], inbox;
    }

    /** Polls until a datagram or the time limit: n < 0 for none. */
    method RecvFrom(buf: array<byte>, max: nat) returns (n: int, fromPeer: bool, port: nat)
      requires max <= buf.Length
      modifies this`inbox, this`taken, buf
      ensures taken == old(taken) + [Next(old(inbox))] && inbox == Rest(old(inbox))
      ensures old(Drawn()) ==> Drawn()
      ensures port == Source(Next(old(inbox)))
      ensures match Next(old(inbox))
              case Timeout => n < 0 && buf[..] == old(buf[..])
              case Foreign(d, _) => !fromPeer && n == |Received(d, max)| && buf[..n] == Received(d, max)
              case Packet(d, _) => fromPeer && n == |Received(d, max)| && buf[..n] == Received(d, max)
    {
      var e := Next(inbox);
      OneMore(given, |taken|);
      inbox, taken := Rest(inbox), taken + [e];
      if e == Timeout {
        return -1, false, 0;
      }
      var d := if e.Foreign? then e.f else e.d;
      var r := Received(d, max);
      forall k | 0 <= k < |r| {
        buf[k] := r[k];
      }
      return |r|, e.Packet?, e.port;
    }

    method SendTo(d: Datagram)
      modifies this`sent
      ensures sent == old(sent) + [d]
    {
      sent := sent + [d];
    }
  }
}
