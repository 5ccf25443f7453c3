/** `get_file` over its byte arrays and counters, proved to be the machine of GetFile. */
module GetFileProgram {
  import opened Packets
  import opened Folding
  import opened Socket
  import G = GetFile

  /** The machine, fed `taken`, is in state s, has sent `sent`, and was receiving until the last event. */
  ghost predicate RunIs(request: Datagram, taken: seq<Event>, s: G.Getter, sent: seq<Datagram>) {
    forall k: nat {:trigger Look(taken, k)} :: Look(taken, k) ==>
      G.Live(request, taken) && G.Run(request, taken) == (s, sent)
  }

  lemma Advance(request: Datagram, taken: seq<Event>, e: Event, s: G.Getter, sent: seq<Datagram>)
    requires RunIs(request, taken, s, sent) && s.phase == G.Receiving
    ensures RunIs(request, taken + [e], G.Step(request, s, e).0, sent + G.Step(request, s, e).1)
  {
    assert Look(taken, 0);
    assert (taken + [e])[..|taken|] == taken;
  }

  /** One try for a block. */
  lemma TryAdvance(request: Datagram, taken: seq<Event>, e: Event, s: G.Getter, sent: seq<Datagram>)
    requires RunIs(request, taken, s, sent) && s.phase == G.Receiving
    ensures var t := G.Learnt(s, e);
      match e
      case Timeout => RunIs(request, taken + [e], G.Silence(request, t).0, sent + G.Silence(request, t).1)
      case Foreign(_, _) => RunIs(request, taken + [e], t, sent)
      case Packet(d, _) =>
        if t.tid != t.port then RunIs(request, taken + [e], t, sent + [G.UnknownTid()])
        else if Opcode(d) == DATA then RunIs(request, taken + [e], G.Take(t, d).0, sent + G.Take(t, d).1)
        else
          var section := G.Adapts(t.section, |Received(d, G.MAX_FILE_BUFFER)|);
          var u := if t.first then t.(section := section, first := false) else t;
          var (v, more) := G.Missed(u, Opcode(d) > 5);
          RunIs(request, taken + [e], v, sent + more)
  {
    Advance(request, taken, e, s, sent);
    assert sent + [] == sent;
  }

  datatype Outcome = Silent | Ignored | Refused | Data | Illegal | Other

  class Downloader {
    const request: Datagram
    const sock: UdpSocket
    const response_buf: array<byte>
    const file_buffer: array<byte>
    const ack_buf: array<byte>
    var data_section: int
    var response: int
    var next_packet: nat
    var first_time_response: bool
    var i: nat
    var TID: nat
    var port: nat  // in server_addr
    var written: seq<byte>  // the file

    ghost predicate Valid()
      reads this
    {
      && response_buf.Length == file_buffer.Length == G.MAX_FILE_BUFFER + 1 && ack_buf.Length == 256
      && response_buf != file_buffer && response_buf != ack_buf && file_buffer != ack_buf
    }

    ghost function Abs(phase: G.Phase): G.Getter
      reads this
    {
      G.Getter(phase, next_packet, written, data_section, first_time_response, i, TID, port)
    }

    ghost predicate InStep(phase: G.Phase)
      reads this, sock
    {
      sock.Drawn() && RunIs(request, sock.taken, Abs(phase), sock.sent)
    }

    function PhaseFor(n: int): G.Phase
      reads this
    {
      if n == data_section + 4 then G.Receiving else if n < data_section + 4 then G.Complete else G.Oversize
    }

    /** Once `file` is written, the machine has nothing ahead of this program but the last ACK. */
    ghost predicate Pending(file: seq<byte>)
      reads this, sock
    {
      && sock.Drawn() && 4 <= response
      && RunIs(request, sock.taken, Abs(PhaseFor(response)).(written := file, i := 0),
               sock.sent + if response < data_section + 4 then [AckPacket(next_packet)] else [])
    }

    constructor (request: Datagram, sock: UdpSocket)
      ensures Valid() && this.request == request && this.sock == sock
      ensures Abs(G.Receiving) == G.START && fresh(response_buf) && fresh(file_buffer) && fresh(ack_buf)
    {
      this.request, this.sock := request, sock;
      data_section, response, next_packet, first_time_response, i, written := 512, 516, 0, true, 0, [];
      TID, port := 0, 0;
      response_buf := new byte[G.MAX_FILE_BUFFER + 1];
      file_buffer := new byte[G.MAX_FILE_BUFFER + 1];
      ack_buf := new byte[256];
    }

    /** How a wait turns out: nothing, another host, a refused packet, or one that is looked into. */
    function Judged(e: Event): Outcome
      reads this
    {
      match e
      case Timeout => Silent
      case Foreign(_, _) => Ignored
      case Packet(d, _) =>
        if TID != 0 && TID != port then Refused
        else if Opcode(d) == DATA then Data
        else if Opcode(d) > 5 then Illegal
        else Other
    }

    /** One wait: the first datagram teaches the port; a packet of the peer that is not refused is copied and
        the chunk size learnt before the opcode is looked at. */
    method Receive() returns (outcome: Outcome)
      requires Valid()
      modifies response_buf, file_buffer
      modifies this`response, this`first_time_response, this`data_section, this`TID, this`port
      modifies sock`inbox, sock`taken
      ensures sock.taken == old(sock.taken) + [Next(old(sock.inbox))] && sock.inbox == Rest(old(sock.inbox))
      ensures old(sock.Drawn()) ==> sock.Drawn()
      ensures outcome == old(Judged(Next(sock.inbox)))
      ensures var source := Source(Next(old(sock.inbox)));
        if old(TID) == 0 then TID == port == source else TID == old(TID) && port == old(port)
      ensures var e := Next(old(sock.inbox));
        if outcome in {Data, Illegal, Other} then
          var r := Received(e.d, G.MAX_FILE_BUFFER);
          && response == |r| && file_buffer[..response - 4] == r[4..] && first_time_response == false
          && data_section == if old(first_time_response) then G.Adapts(old(data_section), |r|) else old(data_section)
        else first_time_response == old(first_time_response) && data_section == old(data_section)
    {
      ghost var e := Next(sock.inbox);
      var fromPeer, source;
      response, fromPeer, source := sock.RecvFrom(response_buf, G.MAX_FILE_BUFFER);
      if TID == 0 {
        TID, port := source, source;
      }
      if response < 0 {
        return Silent;
      }
      if !fromPeer {
        return Ignored;
      }
      if TID != port {
        return Refused;
      }
      var d: Datagram := response_buf[..response];
      assert d == Received(e.d, G.MAX_FILE_BUFFER);
      var opcode := Opcode(d);
      forall k | 0 <= k < response - 4 {
        file_buffer[k] := response_buf[4 + k];
      }
      assert file_buffer[..response - 4] == d[4..];
      if first_time_response {
        if response > 516 {
          data_section := response - 4;
        } else if response < 516 {
          data_section := 512;
        }
        first_time_response := false;
      }
      if opcode != DATA {
        return if opcode > 5 then Illegal else Other;
      }
      return Data;
    }

    /** Sends `ack_packet` of next_packet, an `int`: only its low 16 bits go out. */
    method SendAck()
      requires Valid()
      modifies ack_buf, sock`sent
      ensures sock.sent == old(sock.sent) + [AckPacket(next_packet)]
    {
      var len := FillAck(next_packet, ack_buf);
      sock.SendTo(ack_buf[..len]);
    }

    /** The answer to silence: asking again for the file sets the port back to 69. */
    method RepeatLast()
      requires Valid()
      modifies ack_buf, sock`sent, this`port, this`i
      ensures var (t, more) := G.Silence(request, old(Abs(G.Receiving)));
        Abs(if i == G.MAX_RETRY then G.Exhausted else G.Receiving) == t && sock.sent == old(sock.sent) + more
      ensures i == old(i) + 1
    {
      if next_packet > 0 {
        SendAck();
      } else {
        port := TFTP_PORT;
        sock.SendTo(request);
      }
      i := i + 1;
    }

    /** The answer to a packet other than DATA. */
    method Miss(illegal: bool)
      modifies sock`sent, this`i
      ensures var (t, more) := G.Missed(old(Abs(G.Receiving)), illegal);
        Abs(if i == G.MAX_RETRY then G.Exhausted else G.Receiving) == t && sock.sent == old(sock.sent) + more
      ensures i == old(i) + 1
    {
      if illegal {
        sock.SendTo(G.IllegalOperation());
      }
      i := i + 1;
    }

    /** One pass of the retry loop. */
    method TryForData() returns (outcome: Outcome)
      requires Valid() && i < G.MAX_RETRY && InStep(G.Receiving)
      modifies response_buf, file_buffer, ack_buf, this`response, this`first_time_response, this`data_section
      modifies this`next_packet, this`i, this`TID, this`port, sock
      ensures outcome == old(Judged(Next(sock.inbox)))
      ensures sock.taken == old(sock.taken) + [Next(old(sock.inbox))] && sock.inbox == Rest(old(sock.inbox))
      ensures outcome in {Ignored, Refused, Data} ==> i == old(i) && |sock.inbox| < old(|sock.inbox|)
      ensures outcome in {Ignored, Refused} ==> InStep(G.Receiving)
      ensures outcome == Data ==>
        4 <= response <= file_buffer.Length + 4 && Pending(written + file_buffer[..response - 4])
      ensures outcome in {Silent, Illegal, Other} ==>
        i == old(i) + 1 && InStep(if i == G.MAX_RETRY then G.Exhausted else G.Receiving)
    {
      ghost var s, e, sent := Abs(G.Receiving), Next(sock.inbox), sock.sent;
      TryAdvance(request, sock.taken, e, s, sent);
      outcome := Receive();
      match outcome
      case Ignored =>
      case Refused => sock.SendTo(G.UnknownTid());
      case Silent => RepeatLast();
      case Illegal => Miss(true);
      case Other => Miss(false);
      case Data => TakeBlock(G.Learnt(s, e), e, sent);
    }

    /** A block has come: it is acknowledged before it is written. */
    method TakeBlock(ghost s: G.Getter, ghost e: Event, ghost sent: seq<Datagram>)
      requires Valid() && e.Packet? && Opcode(e.d) == DATA && s.phase == G.Receiving
      requires sock.sent == sent && sock.Drawn()
      requires 4 <= response <= file_buffer.Length
      requires var r := Received(e.d, G.MAX_FILE_BUFFER); response == |r| && file_buffer[..response - 4] == r[4..]
      requires Abs(G.Receiving) == s.(section := data_section, first := false)
      requires data_section == if s.first then G.Adapts(s.section, response) else s.section
      requires var (t, more) := G.Take(s, e.d); RunIs(request, sock.taken, t, sent + more)
      modifies this`next_packet, ack_buf, sock`sent
      ensures Pending(written + file_buffer[..response - 4])
    {
      ghost var (t, more) := G.Take(s, e.d);
      next_packet := next_packet + 1;
      SendAck();
      ghost var ack := AckPacket(next_packet);
      ghost var later := if response < data_section + 4 then [ack] else [];
      assert more == [ack] + later;
      assert sent + ([ack] + later) == sock.sent + later;
      assert t == Abs(PhaseFor(response)).(written := written + file_buffer[..response - 4], i := 0);
    }

    /** The retry loop. */
    method AwaitData()
      requires Valid() && sock.Drawn() && RunIs(request, sock.taken, Abs(G.Receiving).(i := 0), sock.sent)
      modifies response_buf, file_buffer, ack_buf, this`response, this`first_time_response, this`data_section
      modifies this`next_packet, this`i, this`TID, this`port, sock
      ensures i <= G.MAX_RETRY && old(|sock.taken|) <= |sock.taken|
      ensures i == G.MAX_RETRY ==> InStep(G.Exhausted)
      ensures i < G.MAX_RETRY ==> |sock.inbox| < old(|sock.inbox|)
      ensures i < G.MAX_RETRY ==>
        4 <= response <= file_buffer.Length + 4 && Pending(written + file_buffer[..response - 4])
    {
      i := 0;
      while i < G.MAX_RETRY
        invariant 0 <= i <= G.MAX_RETRY && old(|sock.taken|) <= |sock.taken| && |sock.inbox| <= old(|sock.inbox|)
        invariant InStep(if i == G.MAX_RETRY then G.Exhausted else G.Receiving)
        decreases G.MAX_RETRY - i, |sock.inbox|
      {
        var outcome := TryForData();
        if outcome == Data {
          break;
        }
      }
    }

    /** The whole of `get_file`: it terminates on every inbox, and its file and its datagrams are the machine's. */
    method GetFile() returns (phase: G.Phase)
      requires Valid() && Abs(G.Receiving) == G.START && sock.taken == [] && sock.sent == [] && sock.Drawn()
      modifies response_buf, file_buffer, ack_buf, this`response, this`first_time_response, this`data_section
      modifies this`next_packet, this`i, this`TID, this`port, this`written, sock
      ensures sock.taken == Outcomes(old(sock.inbox), |sock.taken|) && sock.inbox == Left(old(sock.inbox), |sock.taken|)
      ensures phase != G.Receiving && G.Live(request, sock.taken)
      ensures var (s, sent) := G.Run(request, sock.taken);
        s.phase == phase && s.written == written && s.next == next_packet && sent == sock.sent
    {
      response := data_section + 4;
      assert sock.sent + [] == sock.sent;
      while response == data_section + 4
        invariant Pending(written)
        decreases |sock.inbox|
      {
        assert sock.sent + [] == sock.sent;
        AwaitData();
        if i == G.MAX_RETRY {
          assert Look(sock.taken, 0);
          return G.Exhausted;
        }
        written := written + file_buffer[..response - 4];
      }
      phase := PhaseFor(response);
      if phase == G.Complete {
        SendAck();
      } else {
        assert sock.sent + [] == sock.sent;
      }
      assert Look(sock.taken, 0);
    }
  }
}
