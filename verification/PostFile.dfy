/** `post_file` of tftp_client.cpp. Its block counter is an `int`, the number in an ACK has 16 bits, and
    the first failed wait for a block's ACK enters a loop that sends the block for ever (Stuck). As in
    `get_file`, asking again sets the port back to 69, and a server elsewhere is then refused. */
module PostFile {
  import opened Packets
  import opened Chunking
  import G = GetFile

  const MAX_RETRY := G.MAX_RETRY
  const SECTION: BlockSize := 512

  datatype Phase = Handshake | Waiting | Complete | Exhausted | Stuck

  /** `sent` is sent_packet, `received` the last decoded received_packet of the handshake; `tid` is TID,
      learnt anew for each block, and `port` the port in server_addr. */
  datatype Poster = Poster(phase: Phase, sent: nat, i: nat, received: int, tid: nat, port: nat)

  const START := Poster(Handshake, 0, 0, 0, 0, 0)

  datatype Verdict = Accepted | Illegal | Rejected

  /** The opcode is read as an `unsigned char` here. */
  function Judge(d: Datagram, sent: int): Verdict {
    if d[1] == ACK && BlockNumberInt(d) == sent then Accepted
    else if d[1] > ERR then Illegal
    else Rejected
  }

  /** Reads and sends the next block. */
  function SendBlock(blocks: seq<seq<byte>>, s: Poster): (r: (Poster, seq<Datagram>))
    requires Chunked(blocks, SECTION) && s.sent < |blocks|
  {
    (s.(phase := Waiting, sent := s.sent + 1, i := 0, received := 0, tid := 0),
     [DataPacket(s.sent + 1, blocks[s.sent])])
  }

  ghost predicate Ok(blocks: seq<seq<byte>>, s: Poster) {
    && Chunked(blocks, SECTION) && s.sent <= |blocks|
    && (s.phase == Handshake ==> s.sent == 0 && s.i < MAX_RETRY)
    && (s.phase in {Waiting, Complete} ==> s.sent >= 1)
    && (s.phase == Complete ==> s.sent == |blocks|)
  }

  /** The first datagram, whoever sent it, teaches the port. */
  function Learnt(s: Poster, e: Event): Poster {
    if s.tid == 0 && e != Timeout then s.(tid := e.port, port := e.port) else s
  }

  /** A failed try for ACK 0. */
  function Failed(s: Poster): Poster {
    s.(i := s.i + 1, phase := if s.i + 1 == MAX_RETRY then Exhausted else Handshake)
  }

  /** Silence in the wait for ACK 0: the request again, while nothing with a number has come. */
  function Silence(request: Datagram, s: Poster): (Poster, seq<Datagram>) {
    if s.received == 0 then (Failed(s.(port := TFTP_PORT)), [request]) else (Failed(s), [])
  }

  /** A packet of the peer in the wait for ACK 0. */
  function Answer(blocks: seq<seq<byte>>, s: Poster, d: Datagram): (r: (Poster, seq<Datagram>))
    requires Ok(blocks, s) && s.phase == Handshake
    ensures Ok(blocks, r.0)
  {
    match Judge(d, s.sent)
    case Accepted => SendBlock(blocks, s)
    case Rejected => (Failed(s).(received := BlockNumberInt(d)), [])
    case Illegal => (Failed(s).(received := BlockNumberInt(d)), [G.IllegalOperation()])
  }

  /** A packet of the peer in the wait for the ACK of a block. */
  function Acknowledged(blocks: seq<seq<byte>>, s: Poster, d: Datagram): (r: (Poster, seq<Datagram>))
    requires Ok(blocks, s) && s.phase == Waiting
    ensures Ok(blocks, r.0)
  {
    match Judge(d, s.sent)
    case Accepted => if |blocks[s.sent - 1]| < SECTION then (s.(phase := Complete), []) else SendBlock(blocks, s)
    case Illegal => (s.(phase := Stuck), [G.IllegalOperation()])
    case Rejected => (s.(phase := Stuck), [])
  }

  function Step(blocks: seq<seq<byte>>, request: Datagram, s: Poster, e: Event): (r: (Poster, seq<Datagram>))
    requires Ok(blocks, s)
    ensures Ok(blocks, r.0)
  {
    if s.phase !in {Handshake, Waiting} then (s, [])
    else
      var t := Learnt(s, e);
      match e
      case Timeout => if s.phase == Handshake then Silence(request, s) else (s.(phase := Stuck), [])
      case Foreign(_, _) => (t, [])
      case Packet(d, _) =>
        if t.tid != t.port then (t, [G.UnknownTid()])
        else if s.phase == Handshake then Answer(blocks, t, d)
        else Acknowledged(blocks, t, d)
  }

  function Run(blocks: seq<seq<byte>>, request: Datagram, events: seq<Event>): (r: (Poster, seq<Datagram>))
    requires Chunked(blocks, SECTION)
    ensures Ok(blocks, r.0)
  {
    if events == [] then (START, [])
    else
      var (s, out) := Run(blocks, request, events[..|events| - 1]);
      var (t, more) := Step(blocks, request, s, events[|events| - 1]);
      (t, out + more)
  }

  lemma RunSnoc(blocks: seq<seq<byte>>, request: Datagram, events: seq<Event>, e: Event)
    requires Chunked(blocks, SECTION)
    ensures Run(blocks, request, events + [e]).0 == Step(blocks, request, Run(blocks, request, events).0, e).0
  {
    assert (events + [e])[..|events|] == events;
  }

  /** The program was still at work before the last event. */
  ghost predicate Live(blocks: seq<seq<byte>>, request: Datagram, events: seq<Event>)
    requires Chunked(blocks, SECTION)
  {
    events == [] || Run(blocks, request, events[..|events| - 1]).0.phase in {Handshake, Waiting}
  }

  // ---------- the size bound ----------

  /** An accepted ACK bounds the block it is for. */
  lemma AcceptedBound(d: Datagram, sent: nat)
    requires Judge(d, sent) == Accepted
    ensures sent < WRAP
  {
    DecodersAgree(d);
  }

  lemma {:induction false} SentBound(blocks: seq<seq<byte>>, request: Datagram, events: seq<Event>)
    requires Chunked(blocks, SECTION)
    ensures var s := Run(blocks, request, events).0;
      s.sent <= WRAP && (s.phase == Complete ==> s.sent < WRAP)
  {
    if events != [] {
      var before, e := events[..|events| - 1], events[|events| - 1];
      SentBound(blocks, request, before);
      var s := Run(blocks, request, before).0;
      if e.Packet? && Judge(e.d, s.sent) == Accepted {
        AcceptedBound(e.d, s.sent);
      }
    }
  }

  lemma OwnAck(n: nat)
    requires n < WRAP
    ensures Judge(AckPacket(n), n) == Accepted
  {
    AckRoundTrip(n);
    var ack := AckPacket(n);
    assert ack[1] == ACK;
    assert BlockNumberInt(ack) == n;
  }

  lemma AckTaken(blocks: seq<seq<byte>>, request: Datagram, s: Poster, port: Port)
    requires Ok(blocks, s) && s.phase in {Handshake, Waiting} && s.sent < WRAP && s.tid == 0
    ensures var t := Step(blocks, request, s, Packet(AckPacket(s.sent), port)).0;
      if s.phase == Waiting && |blocks[s.sent - 1]| < SECTION then t.phase == Complete
      else t.phase == Waiting && t.sent == s.sent + 1 && t.tid == 0
  {
    OwnAck(s.sent);
    var ack := AckPacket(s.sent);
    var e := Packet(ack, port);
    assert Step(blocks, request, s, e)
        == if s.phase == Handshake then Answer(blocks, Learnt(s, e), ack) else Acknowledged(blocks, Learnt(s, e), ack);
  }

  /** What a server without trouble sends from its port: ACK 0 to ACK n - 1. */
  function ServerAcks(n: nat, port: Port): seq<Event> { seq(n, k requires 0 <= k < n => Packet(AckPacket(k), port)) }

  lemma OneMoreAck(blocks: seq<seq<byte>>, request: Datagram, n: nat, port: Port)
    requires Chunked(blocks, SECTION)
    ensures Run(blocks, request, ServerAcks(n + 1, port)).0
         == Step(blocks, request, Run(blocks, request, ServerAcks(n, port)).0, Packet(AckPacket(n), port)).0
  {
    assert ServerAcks(n + 1, port)[..n] == ServerAcks(n, port);
  }

  /** Each of them brings on the next block, from whatever port they come. */
  lemma {:induction false} AcksCarryOn(blocks: seq<seq<byte>>, request: Datagram, k: nat, port: Port)
    requires Chunked(blocks, SECTION) && k < |blocks| < WRAP
    ensures var s := Run(blocks, request, ServerAcks(k + 1, port)).0;
      s.phase == Waiting && s.sent == k + 1 && s.tid == 0
  {
    OneMoreAck(blocks, request, k, port);
    if k == 0 {
      assert ServerAcks(0, port) == [];
    } else {
      AcksCarryOn(blocks, request, k - 1, port);
    }
    AckTaken(blocks, request, Run(blocks, request, ServerAcks(k, port)).0, port);
  }

  lemma SmallCompletes(blocks: seq<seq<byte>>, request: Datagram, port: Port)
    requires Chunked(blocks, SECTION) && |blocks| < WRAP
    ensures Run(blocks, request, ServerAcks(|blocks| + 1, port)).0.phase == Complete
  {
    AcksCarryOn(blocks, request, |blocks| - 1, port);
    OneMoreAck(blocks, request, |blocks|, port);
    AckTaken(blocks, request, Run(blocks, request, ServerAcks(|blocks|, port)).0, port);
  }

  /** A server without trouble, on any port, makes the program report the upload complete if and only if the file
      is smaller than 65535 * 512 bytes; for a larger one no run does. */
  lemma CompletesIff(file: seq<byte>, request: Datagram, port: Port)
    ensures var blocks := Blocks(file, SECTION);
      && Chunked(blocks, SECTION)
      && (Run(blocks, request, ServerAcks(|blocks| + 1, port)).0.phase == Complete <==> |file| < 65535 * 512)
      && ((exists events :: Run(blocks, request, events).0.phase == Complete) <==> |file| < 65535 * 512)
  {
    BlocksPartition(file, SECTION);
    BlockCount(file, SECTION);
    var blocks := Blocks(file, SECTION);
    if |file| < 65535 * 512 {
      SmallCompletes(blocks, request, port);
    } else {
      forall events ensures Run(blocks, request, events).0.phase != Complete {
        SentBound(blocks, request, events);
      }
    }
  }
}
