/** `post_file` over its byte arrays and counters, proved to be the machine of PostFile. The loop that
    sends a block for ever ends the method with the outcome Stuck. */
module PostFileProgram {
  import opened Packets
  import opened Chunking
  import opened Folding
  import opened Socket
  import G = GetFile
  import P = PostFile

  /** The machine, fed `taken`, is in state s, has sent `sent`, and was at work until the last event. */
  ghost predicate RunIs(blocks: seq<seq<byte>>, request: Datagram, taken: seq<Event>, s: P.Poster,
                        sent: seq<Datagram>)
  {
    && P.Ok(blocks, s)
    && forall k: nat {:trigger Look(taken, k)} :: Look(taken, k) ==>
         P.Live(blocks, request, taken) && P.Run(blocks, request, taken) == (s, sent)
  }

  lemma Advance(blocks: seq<seq<byte>>, request: Datagram, taken: seq<Event>, e: Event, s: P.Poster,
                sent: seq<Datagram>)
    requires RunIs(blocks, request, taken, s, sent) && s.phase in {P.Handshake, P.Waiting}
    ensures var (t, more) := P.Step(blocks, request, s, e);
      RunIs(blocks, request, taken + [e], t, sent + more) && sent + [] == sent
  {
    assert Look(taken, 0);
    assert (taken + [e])[..|taken|] == taken;
  }

  lemma RunOf(blocks: seq<seq<byte>>, request: Datagram, taken: seq<Event>, s: P.Poster, sent: seq<Datagram>)
    requires RunIs(blocks, request, taken, s, sent)
    ensures P.Live(blocks, request, taken) && P.Run(blocks, request, taken) == (s, sent)
  {
    assert Look(taken, 0);
  }

  /** One try for ACK 0 without a packet that is decoded. */
  lemma HandshakeMissed(blocks: seq<seq<byte>>, request: Datagram, taken: seq<Event>, e: Event, s: P.Poster,
                        sent: seq<Datagram>)
    requires RunIs(blocks, request, taken, s, sent) && s.phase == P.Handshake
    requires e.Packet? ==> P.Learnt(s, e).tid != P.Learnt(s, e).port
    ensures var t := P.Learnt(s, e);
      match e
      case Timeout => RunIs(blocks, request, taken + [e], P.Silence(request, s).0, sent + P.Silence(request, s).1)
      case Foreign(_, _) => RunIs(blocks, request, taken + [e], t, sent)
      case Packet(_, _) => RunIs(blocks, request, taken + [e], t, sent + [G.UnknownTid()])
  {
    Advance(blocks, request, taken, e, s, sent);
  }

  /** One try for ACK 0 with a packet from the port the program sends to. */
  lemma HandshakeAdvance(blocks: seq<seq<byte>>, request: Datagram, taken: seq<Event>, e: Event, s: P.Poster,
                         sent: seq<Datagram>)
    requires RunIs(blocks, request, taken, s, sent) && s.phase == P.Handshake
    requires e.Packet? && P.Learnt(s, e).tid == P.Learnt(s, e).port
    ensures var t := P.Learnt(s, e);
      match P.Judge(e.d, 0)
      case Accepted =>
        var (u, packets) := P.SendBlock(blocks, P.Poster(P.Waiting, t.sent, 0, 0, t.tid, t.port));
        RunIs(blocks, request, taken + [e], u, sent + packets)
      case verdict =>
        RunIs(blocks, request, taken + [e], P.Failed(t).(received := BlockNumberInt(e.d)),
              sent + if verdict == P.Illegal then [G.IllegalOperation()] else [])
  {
    Advance(blocks, request, taken, e, s, sent);
  }

  /** The four header bytes decide the opcode and the block number. */
  lemma SameHead(h: Datagram, d: Datagram, received: seq<byte>)
    requires 4 <= |received| && h == received[..4] && received <= d
    ensures h[1] == d[1] && BlockNumberInt(h) == BlockNumberInt(d)
    ensures forall sent: int :: P.Judge(h, sent) == P.Judge(d, sent)
  {
    assert forall k :: 0 <= k < 4 ==> h[k] == received[k] && h[k] == d[k];
  }

  datatype Outcome = Silent | Ignored | Refused | Accepted | Illegal | Rejected

  class Uploader {
    const file: seq<byte>
    const request: Datagram
    const sock: UdpSocket
    const response_buf: array<byte>
    const file_buffer: array<byte>
    const backup: array<byte>  // backup_buffer[0], the only row in use
    var fpos: nat
    var file_size: nat
    var sent_packet: nat
    var received_packet: int
    var i: nat
    var TID: nat
    var port: nat  // in server_addr
    ghost const blocks: seq<seq<byte>>

    ghost predicate Valid()
      reads this
    {
      && response_buf.Length == file_buffer.Length == backup.Length == 1025
      && response_buf != file_buffer && response_buf != backup && file_buffer != backup
      && blocks == Blocks(file, P.SECTION) && Chunked(blocks, P.SECTION)
      && fpos <= |file|
      && ToRead(blocks, sent_packet, file, fpos, P.SECTION)
    }

    ghost function Abs(phase: P.Phase): P.Poster
      reads this
    {
      P.Poster(phase, sent_packet, if phase in {P.Handshake, P.Exhausted} then i else 0,
               if phase in {P.Handshake, P.Exhausted} then received_packet else 0, TID, port)
    }

    ghost predicate InStep(phase: P.Phase)
      reads this, sock
    {
      sock.Drawn() && RunIs(blocks, request, sock.taken, Abs(phase), sock.sent)
    }

    /** The machine has made a move to t that sends `more`; the program has yet to make it. */
    ghost predicate Pending(t: P.Poster, more: seq<Datagram>)
      reads this, sock
    {
      sock.Drawn() && RunIs(blocks, request, sock.taken, t, sock.sent + more)
    }

    /** The machine has already read and sent the next block. */
    ghost predicate AtLoopHead()
      reads this, sock
    {
      && sock.Drawn() && Chunked(blocks, P.SECTION) && sent_packet < |blocks|
      && var (t, packets) := P.SendBlock(blocks, Abs(P.Waiting));
         RunIs(blocks, request, sock.taken, t, sock.sent + packets)
    }

    constructor (file: seq<byte>, request: Datagram, sock: UdpSocket)
      ensures Valid() && this.file == file && this.request == request && this.sock == sock
      ensures sent_packet == 0 && received_packet == 0 && i == 0 && TID == 0 && port == 0
      ensures fresh(response_buf) && fresh(file_buffer) && fresh(backup)
    {
      BlocksPartition(file, P.SECTION);
      FileReads(file, P.SECTION);
      this.file, this.request, this.sock := file, request, sock;
      response_buf, file_buffer, backup := new byte[1025], new byte[1025], new byte[1025];
      fpos, file_size, sent_packet, received_packet, i, TID, port := 0, 0, 0, 0, 0, 0, 0;
      blocks := Blocks(file, P.SECTION);
    }

    /** How a wait turns out: nothing, another host, a refused packet, or one that is decoded. */
    function Judged(e: Event): Outcome
      reads this
    {
      match e
      case Timeout => Silent
      case Foreign(_, _) => Ignored
      case Packet(d, _) =>
        if TID != 0 && TID != port then Refused
        else
          match P.Judge(d, sent_packet)
          case Accepted => Accepted
          case Illegal => Illegal
          case Rejected => Rejected
    }

    /** One wait, decoded: the first datagram teaches the port. */
    method Receive() returns (outcome: Outcome)
      requires Valid()
      modifies response_buf, this`received_packet, this`TID, this`port, sock`inbox, sock`taken
      ensures Valid()
      ensures sock.taken == old(sock.taken) + [Next(old(sock.inbox))] && sock.inbox == Rest(old(sock.inbox))
      ensures old(sock.Drawn()) ==> sock.Drawn()
      ensures outcome == old(Judged(Next(sock.inbox)))
      ensures var e := Next(old(sock.inbox));
        && (if old(TID) == 0 && e != Timeout then TID == port == e.port else TID == old(TID) && port == old(port))
        && received_packet ==
             if outcome in {Accepted, Illegal, Rejected} then BlockNumberInt(e.d) else old(received_packet)
    {
      ghost var e := Next(sock.inbox);
      var response, fromPeer, source := sock.RecvFrom(response_buf, 1024);
      if response < 0 {
        return Silent;
      }
      if TID == 0 {
        TID, port := source, source;
      }
      if !fromPeer {
        return Ignored;
      }
      if TID != port {
        return Refused;
      }
      var h: Datagram := response_buf[..4];
      SameHead(h, e.d, response_buf[..response]);
      received_packet := BlockNumberInt(h);
      if h[1] != ACK || received_packet != sent_packet {
        return if h[1] > ERR then Illegal else Rejected;
      }
      return Accepted;
    }

    /** Silence in the wait for ACK 0: asking again sets the port back to 69. */
    method AskAgain()
      requires Valid() && sent_packet == 0 && i < P.MAX_RETRY
      requires var (t, more) := P.Silence(request, Abs(P.Handshake)); Pending(t, more)
      modifies this`i, this`port, sock`sent
      ensures var (t, more) := P.Silence(request, old(Abs(P.Handshake)));
        Abs(if i == P.MAX_RETRY then P.Exhausted else P.Handshake) == t && sock.sent == old(sock.sent) + more
      ensures Valid() && i == old(i) + 1 && InStep(if i == P.MAX_RETRY then P.Exhausted else P.Handshake)
    {
      assert sock.sent + [] == sock.sent;
      if received_packet == 0 {
        port := TFTP_PORT;
        sock.SendTo(request);
      }
      i := i + 1;
    }

    /** A packet that is not ACK 0. */
    method Miss(illegal: bool)
      requires Valid() && sent_packet == 0 && i < P.MAX_RETRY
      requires Pending(P.Failed(Abs(P.Handshake)), if illegal then [G.IllegalOperation()] else [])
      modifies this`i, sock`sent
      ensures Abs(if i == P.MAX_RETRY then P.Exhausted else P.Handshake) == P.Failed(old(Abs(P.Handshake)))
      ensures sock.sent == old(sock.sent) + if illegal then [G.IllegalOperation()] else []
      ensures Valid() && i == old(i) + 1 && InStep(if i == P.MAX_RETRY then P.Exhausted else P.Handshake)
    {
      assert sock.sent + [] == sock.sent;
      if illegal {
        sock.SendTo(G.IllegalOperation());
      }
      i := i + 1;
    }

    /** What arrives in the wait for ACK 0, and the machine's move on it. */
    method HearWriteAck() returns (outcome: Outcome)
      requires Valid() && sent_packet == 0 && i < P.MAX_RETRY && InStep(P.Handshake)
      modifies response_buf, this`received_packet, this`TID, this`port, sock`inbox, sock`taken
      ensures Valid() && outcome == old(Judged(Next(sock.inbox)))
      ensures sock.taken == old(sock.taken) + [Next(old(sock.inbox))] && sock.inbox == Rest(old(sock.inbox))
      ensures match outcome
        case Accepted => AtLoopHead()
        case Ignored => InStep(P.Handshake)
        case Refused => Pending(Abs(P.Handshake), [G.UnknownTid()])
        case Silent => var (t, more) := P.Silence(request, Abs(P.Handshake)); Pending(t, more)
        case _ => Pending(P.Failed(Abs(P.Handshake)), if outcome == Illegal then [G.IllegalOperation()] else [])
    {
      ghost var e, s, taken, sent := Next(sock.inbox), Abs(P.Handshake), sock.taken, sock.sent;
      outcome := Receive();
      ghost var t := P.Learnt(s, e);
      assert Abs(P.Handshake) == t.(received := received_packet);
      if outcome in {Accepted, Illegal, Rejected} {
        HandshakeAdvance(blocks, request, taken, e, s, sent);
        assert P.Failed(Abs(P.Handshake)) == P.Failed(t).(received := BlockNumberInt(e.d));
      } else {
        HandshakeMissed(blocks, request, taken, e, s, sent);
      }
    }

    /** One pass of the wait for ACK 0. */
    method TryForWriteAck() returns (outcome: Outcome)
      requires Valid() && sent_packet == 0 && i < P.MAX_RETRY && InStep(P.Handshake)
      modifies response_buf, this`received_packet, this`i, this`TID, this`port, sock
      ensures Valid() && outcome == old(Judged(Next(sock.inbox)))
      ensures sock.taken == old(sock.taken) + [Next(old(sock.inbox))] && sock.inbox == Rest(old(sock.inbox))
      ensures outcome in {Ignored, Refused} ==> i == old(i) && |sock.inbox| < old(|sock.inbox|) && InStep(P.Handshake)
      ensures outcome == Accepted ==> i == old(i) && AtLoopHead()
      ensures outcome in {Silent, Illegal, Rejected} ==>
        i == old(i) + 1 && InStep(if i == P.MAX_RETRY then P.Exhausted else P.Handshake)
    {
      outcome := HearWriteAck();
      match outcome
      case Accepted =>
      case Ignored =>
      case Refused => sock.SendTo(G.UnknownTid());
      case Silent => AskAgain();
      case Illegal => Miss(true);
      case Rejected => Miss(false);
    }

    method AwaitWriteAck() returns (ok: bool)
      requires Valid() && sent_packet == 0 && i == 0 && InStep(P.Handshake)
      modifies response_buf, this`received_packet, this`i, this`TID, this`port, sock
      ensures Valid() && old(|sock.taken|) <= |sock.taken| && if ok then AtLoopHead() else InStep(P.Exhausted)
    {
      while i < P.MAX_RETRY
        invariant Valid() && 0 <= i <= P.MAX_RETRY && old(|sock.taken|) <= |sock.taken|
        invariant InStep(if i == P.MAX_RETRY then P.Exhausted else P.Handshake)
        decreases P.MAX_RETRY - i, |sock.inbox|
      {
        var outcome := TryForWriteAck();
        if outcome == Accepted {
          return true;
        }
      }
      return false;
    }

    /** `fread (file_buffer, 1, data_section, fp)` */
    method Fread()
      requires Valid()
      modifies this`fpos, this`file_size, file_buffer
      ensures file_size == ReadSize(file, old(fpos), P.SECTION)
      ensures fpos == old(fpos) + file_size && file_buffer[..file_size] == Chunk(file, old(fpos), file_size)
    {
      file_size := if |file| - fpos < P.SECTION then |file| - fpos else P.SECTION;
      forall k | 0 <= k < file_size {
        file_buffer[k] := file[fpos + k];
      }
      fpos := fpos + file_size;
    }

    /** The next block of the file, and its number. */
    method ReadBlock()
      requires Valid() && sent_packet < |blocks|
      modifies this`fpos, this`file_size, this`sent_packet, file_buffer
      ensures Valid() && sent_packet == old(sent_packet) + 1 && file_size <= P.SECTION
      ensures file_size == |blocks[sent_packet - 1]| && file_buffer[..file_size] == blocks[sent_packet - 1]
    {
      Fread();
      sent_packet := sent_packet + 1;
    }

    /** The header with the low 16 bits of sent_packet, the copy, and the transmission. */
    method BuildAndSend(ghost block: seq<byte>)
      requires Valid() && file_size <= P.SECTION && file_buffer[..file_size] == block
      modifies backup, sock`sent
      ensures Valid() && sock.sent == old(sock.sent) + [DataPacket(sent_packet, block)]
    {
      backup[0], backup[1], backup[2], backup[3] := 0, DATA, HighByte(sent_packet), LowByte(sent_packet);
      forall k | 0 <= k < file_size {
        backup[4 + k] := file_buffer[k];
      }
      assert backup[..4 + file_size] == DataPacket(sent_packet, block);
      sock.SendTo(backup[..4 + file_size]);
    }

    /** `fread`, the transmission, and `TID = 0`: the port is learnt anew for each block. */
    method SendBlock()
      requires Valid() && AtLoopHead()
      modifies this`fpos, this`file_size, this`sent_packet, this`received_packet, this`TID
      modifies file_buffer, backup, sock`sent
      ensures Valid() && sent_packet == old(sent_packet) + 1 && TID == 0
      ensures file_size == |blocks[sent_packet - 1]|
      ensures sock.sent == old(sock.sent) + [DataPacket(sent_packet, blocks[sent_packet - 1])]
      ensures InStep(P.Waiting)
    {
      ghost var s := Abs(P.Waiting);
      ReadBlock();
      received_packet := 0;
      BuildAndSend(blocks[sent_packet - 1]);
      TID := 0;
      assert Abs(P.Waiting) == P.SendBlock(blocks, s).0;
    }

    /** One pass of the wait for the ACK of the block just sent. */
    method TryForAck() returns (outcome: Outcome)
      requires Valid() && sent_packet > 0 && InStep(P.Waiting)
      modifies response_buf, this`received_packet, this`TID, this`port, sock
      ensures Valid() && outcome == old(Judged(Next(sock.inbox)))
      ensures sock.taken == old(sock.taken) + [Next(old(sock.inbox))] && sock.inbox == Rest(old(sock.inbox))
      ensures outcome in {Ignored, Refused} ==> |sock.inbox| < old(|sock.inbox|) && InStep(P.Waiting)
      ensures outcome in {Silent, Illegal, Rejected} ==> InStep(P.Stuck)
      ensures outcome == Accepted ==> if |blocks[sent_packet - 1]| < P.SECTION then InStep(P.Complete) else AtLoopHead()
    {
      ghost var s, e, sent := Abs(P.Waiting), Next(sock.inbox), sock.sent;
      Advance(blocks, request, sock.taken, e, s, sent);
      outcome := Receive();
      ghost var (t, more) := P.Step(blocks, request, s, e);
      assert RunIs(blocks, request, sock.taken, t, sent + more);
      match outcome
      case Ignored =>
      case Refused => sock.SendTo(G.UnknownTid());
      case Accepted =>
        assert (t, more) == P.Acknowledged(blocks, P.Learnt(s, e), e.d);
      case Illegal => sock.SendTo(G.IllegalOperation());  // i <= received_packet for ever
      case _ =>
    }

    /** The wait for the ACK of the block just sent: false means stuck. */
    method AwaitAck() returns (ok: bool)
      requires Valid() && sent_packet > 0 && InStep(P.Waiting)
      modifies response_buf, this`received_packet, this`i, this`TID, this`port, sock
      ensures Valid() && old(|sock.taken|) <= |sock.taken|
      ensures !ok ==> InStep(P.Stuck)
      ensures ok ==> if |blocks[sent_packet - 1]| < P.SECTION then InStep(P.Complete) else AtLoopHead()
    {
      i := 0;
      while true
        invariant Valid() && InStep(P.Waiting) && old(|sock.taken|) <= |sock.taken|
        decreases |sock.inbox|
      {
        var outcome := TryForAck();
        if outcome == Accepted {
          return true;
        }
        if outcome != Ignored && outcome != Refused {
          return false;
        }
      }
    }

    /** The whole of `post_file`, the file being readable. It reaches an outcome on every inbox, and that
        and its datagrams are the machine's on what the inbox held. */
    method PostFile() returns (phase: P.Phase)
      requires Valid() && Abs(P.Handshake) == P.START
      requires sock.taken == [] && sock.sent == [] && sock.Drawn()
      modifies this`fpos, this`file_size, this`sent_packet, this`received_packet, this`i
      modifies this`TID, this`port
      modifies response_buf, file_buffer, backup, sock
      ensures phase in {P.Complete, P.Exhausted, P.Stuck} && Chunked(blocks, P.SECTION)
      ensures sock.taken == Outcomes(old(sock.inbox), |sock.taken|) && sock.inbox == Left(old(sock.inbox), |sock.taken|)
      ensures P.Live(blocks, request, sock.taken)
      ensures P.Run(blocks, request, sock.taken) == (Abs(phase), sock.sent)
    {
      var ok := AwaitWriteAck();
      if ok {
        phase := SendBlocks();
      } else {
        phase := P.Exhausted;
      }
      RunOf(blocks, request, sock.taken, Abs(phase), sock.sent);
    }

    /** The sending loop. */
    method SendBlocks() returns (phase: P.Phase)
      requires Valid() && AtLoopHead()
      modifies this`fpos, this`file_size, this`sent_packet, this`received_packet, this`i
      modifies this`TID, this`port
      modifies response_buf, file_buffer, backup, sock
      ensures Valid() && phase in {P.Complete, P.Stuck} && InStep(phase) && old(|sock.taken|) <= |sock.taken|
    {
      while true
        invariant Valid() && AtLoopHead() && old(|sock.taken|) <= |sock.taken|
        decreases |blocks| - sent_packet
      {
        SendBlock();
        var ok := AwaitAck();
        if !ok {
          return P.Stuck;
        }
        if file_size < P.SECTION {
          return P.Complete;
        }
      }
    }
  }
}
