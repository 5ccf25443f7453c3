/** The two receivers as machines that move once per wait on their socket: `tget` of tftpd.c, which
    checks block numbers, and `tget` of tftpc.c, which does not. */
module ReceiverMachines {
  import opened Packets

  datatype Phase = Receiving | Done | Aborted

  /** `accepted` counts the blocks written, so while receiving `count` is (accepted + 1) % WRAP;
      `flag` is set until a first packet has been seen; `written` is the file so far. Only tftpc looks at
      ports: `port` is where its ACKs go, 0 until it has learnt one; `stalePort` is what `data.sin_port` holds
      before anything is received. */
  datatype Receiver = Receiver(phase: Phase, accepted: nat, written: seq<byte>, datasize: int, flag: bool,
                               j: nat, ackbuf: seq<byte>, len: nat, port: nat := 0, stalePort: nat := 0) {
    function Count(): uint16 { (accepted + 1) % WRAP }
  }

  const ACKBUF_SIZE := 512

  /** `ackbuf`, zeroed and perhaps filled in. */
  function ZeroBuffer(): (r: seq<byte>)
    ensures |r| == ACKBUF_SIZE
  {
    seq(ACKBUF_SIZE, _ => 0)
  }

  function AckBuffer(count: int): (r: seq<byte>)
    ensures |r| == ACKBUF_SIZE && r[..4] == AckPacket(count)
  {
    AckPacket(count) + ZeroBuffer()[4..]
  }

  ghost predicate Ok(s: Receiver) {
    && |s.ackbuf| == ACKBUF_SIZE && 4 <= s.len <= 22
    && (s.phase == Receiving ==> s.j < RETRIES)
  }

  /** The server looks at block numbers; what it does not accept it answers with its last ACK buffer. */
  datatype Verdict = Ignored | Accepted | Rejected | Illegal

  function IllegalOperation(): (r: Datagram)
    ensures |r| == 22
  {
    ErrorPacket(4, "Illegal operation")
  }

  // ---------- tftpd ----------

  /** The first packet seen sets `datasize` if it is longer than 516 bytes. */
  function ServerAdapts(datasize: int, n: nat): int { if n > 516 then n - 4 else datasize }

  function ServerJudge(e: Event, count: uint16): Verdict {
    match e
    case Timeout => Rejected
    case Foreign(_, _) => Ignored
    case Packet(d, _) =>
      if Opcode(d) == DATA && BlockNumber(d) == count then Accepted
      else if Opcode(d) > 5 then Illegal
      else Rejected
  }

  /** The head of the `do` loop, after a packet of n bytes whose payload is written: an ACK if the
      schedule asks for one, and the end after a packet that is not full. */
  function ServerLoopHead(w: Window, s: Receiver, n: nat): (r: (Receiver, seq<Datagram>))
    requires Ok(s)
    ensures Ok(r.0) && r.0.accepted == s.accepted && r.0.written == s.written && r.0.j == 0
  {
    var count: uint16 := s.accepted % WRAP;
    var last := n != s.datasize + 4;
    var acks := count == 0 || count as int % w == 0 || last;
    var ackbuf := if acks then AckBuffer(count) else ZeroBuffer();
    var len := if acks then 4 else s.len;
    (s.(phase := if last then Done else Receiving, j := 0, ackbuf := ackbuf, len := len),
     if acks then [ackbuf[..4]] else [])
  }

  function ServerFail(s: Receiver, illegal: bool): (r: (Receiver, seq<Datagram>))
    requires Ok(s) && s.phase == Receiving
    ensures Ok(r.0)
  {
    var reply := IllegalOperation();
    var t := if illegal then s.(len := |reply|) else s;
    (t.(j := s.j + 1, phase := if s.j + 1 == RETRIES then Aborted else Receiving),
     (if illegal then [reply] else []) + [t.ackbuf[..t.len]])
  }

  function Adapted(s: Receiver, e: Event, datasize: int): Receiver {
    if e.Packet? && s.flag then s.(datasize := datasize, flag := false) else s
  }

  function ServerStep(w: Window, s: Receiver, e: Event): (r: (Receiver, seq<Datagram>))
    requires Ok(s)
    ensures Ok(r.0)
  {
    if s.phase != Receiving then (s, [])
    else
      var t := if e.Packet? then Adapted(s, e, ServerAdapts(s.datasize, |e.d|)) else s;
      match ServerJudge(e, s.Count())
      case Ignored => (s, [])
      case Rejected => ServerFail(t, false)
      case Illegal => ServerFail(t, true)
      case Accepted =>
        ServerLoopHead(w, t.(accepted := s.accepted + 1, written := s.written + Payload(e.d)), |e.d|)
  }

  /** ACK 0 goes out before the first wait. */
  function ServerStart(w: Window, datasize: BlockSize): (r: (Receiver, seq<Datagram>))
    ensures Ok(r.0)
  {
    ServerLoopHead(w, Receiver(Receiving, 0, [], datasize, true, 0, ZeroBuffer(), 4), datasize + 4)
  }

  function ServerRun(w: Window, datasize: BlockSize, events: seq<Event>): (r: (Receiver, seq<Datagram>))
    ensures Ok(r.0)
  {
    if events == [] then ServerStart(w, datasize)
    else
      var last := |events| - 1;
      var (s, sent) := ServerRun(w, datasize, events[..last]);
      var (t, more) := ServerStep(w, s, events[last]);
      (t, sent + more)
  }

  /** The receiver was still at work before the last event. */
  ghost predicate ServerLive(w: Window, datasize: BlockSize, events: seq<Event>) {
    events == [] || ServerRun(w, datasize, events[..|events| - 1]).0.phase == Receiving
  }

  // ---------- tftpc ----------

  function ClientAdapts(datasize: int, n: nat): int {
    if n > 516 then n - 4 else if n < 516 then 512 else datasize
  }

  /** The client takes any DATA packet for the block it waits for. */
  function ClientJudge(e: Event): Verdict {
    match e
    case Timeout => Rejected
    case Foreign(_, _) => Ignored
    case Packet(d, _) => if Opcode(d) == DATA then Accepted else if Opcode(d) > 5 then Illegal else Rejected
  }

  /** While no port is known, every wait gives one: that of the datagram, or after silence the stale one. */
  function Learnt(s: Receiver, e: Event): Receiver {
    if s.port == 0 then s.(port := Heard(s.stalePort, e)) else s
  }

  predicate ClientAcks(count: uint16, w: Window) { CRem(count - 1, w) == 0 || count == 1 }

  /** `ackbuf` and `len` are not part of the client's state: it never sends an ACK again on a timeout. */
  function ClientStep(w: Window, s: Receiver, e: Event): (r: (Receiver, seq<Datagram>))
    requires Ok(s)
    ensures Ok(r.0) && r.0.port == if s.phase == Receiving then Learnt(s, e).port else s.port
  {
    if s.phase != Receiving then (s, [])
    else
      var u := Learnt(s, e);
      var t := if e.Packet? then Adapted(u, e, ClientAdapts(s.datasize, |e.d|)) else u;
      var failed := t.(j := s.j + 1, phase := if s.j + 1 == RETRIES then Aborted else Receiving);
      match ClientJudge(e)
      case Ignored => (u, [])
      case Rejected => (failed, [])
      case Illegal => (failed, [IllegalOperation()])
      case Accepted =>
        var ack := AckPacket(s.Count());
        var last := |e.d| != t.datasize + 4;
        (t.(accepted := s.accepted + 1, written := s.written + Payload(e.d), j := 0,
            phase := if last then Done else Receiving),
         (if ClientAcks(s.Count(), w) then [ack] else []) + (if last then [ack] else []))
  }

  function ClientStart(datasize: BlockSize, stalePort: nat): (r: Receiver)
    ensures Ok(r)
  {
    Receiver(Receiving, 0, [], datasize, true, 0, ZeroBuffer(), 4, 0, stalePort)
  }

  function ClientRun(w: Window, datasize: BlockSize, stalePort: nat, events: seq<Event>): (r: (Receiver, seq<Datagram>))
    ensures Ok(r.0)
  {
    if events == [] then (ClientStart(datasize, stalePort), [])
    else
      var last := |events| - 1;
      var (s, sent) := ClientRun(w, datasize, stalePort, events[..last]);
      var (t, more) := ClientStep(w, s, events[last]);
      (t, sent + more)
  }

  ghost predicate ClientLive(w: Window, datasize: BlockSize, stalePort: nat, events: seq<Event>) {
    events == [] || ClientRun(w, datasize, stalePort, events[..|events| - 1]).0.phase == Receiving
  }
}
