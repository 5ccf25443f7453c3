/** `tget` of tftpc.c over its byte arrays and counters, proved to be the machine of ReceiverMachines. */
module ClientReceiverProgram {
  import opened Packets
  import opened Folding
  import opened Socket
  import R = ReceiverMachines

  /** The machine, fed `taken`, is in state s, has sent `sent`, and was receiving until the last event. */
  ghost predicate RunIs(w: Window, r0: BlockSize, stalePort: nat, taken: seq<Event>, s: R.Receiver,
                        sent: seq<Datagram>)
  {
    && R.Ok(s)
    && forall k: nat {:trigger Look(taken, k)} :: Look(taken, k) ==>
         R.ClientLive(w, r0, stalePort, taken) && R.ClientRun(w, r0, stalePort, taken) == (s, sent)
  }

  lemma Advance(w: Window, r0: BlockSize, stalePort: nat, taken: seq<Event>, e: Event, s: R.Receiver,
                sent: seq<Datagram>)
    requires RunIs(w, r0, stalePort, taken, s, sent) && s.phase == R.Receiving
    ensures RunIs(w, r0, stalePort, taken + [e], R.ClientStep(w, s, e).0, sent + R.ClientStep(w, s, e).1)
  {
    assert Look(taken, 0);
    assert (taken + [e])[..|taken|] == taken;
  }

  lemma RunOf(w: Window, r0: BlockSize, stalePort: nat, taken: seq<Event>, s: R.Receiver, sent: seq<Datagram>)
    requires RunIs(w, r0, stalePort, taken, s, sent)
    ensures R.ClientLive(w, r0, stalePort, taken) && R.ClientRun(w, r0, stalePort, taken) == (s, sent)
  {
    assert Look(taken, 0);
  }

  /** The port, `datasize` and `flag` after an event. */
  function Learnt(s: R.Receiver, e: Event): R.Receiver {
    var u := R.Learnt(s, e);
    if e.Packet? then R.Adapted(u, e, R.ClientAdapts(s.datasize, |e.d|)) else u
  }

  /** One try for a block that brings none. */
  lemma TryFailed(w: Window, r0: BlockSize, stalePort: nat, taken: seq<Event>, e: Event, s: R.Receiver,
                  sent: seq<Datagram>)
    requires RunIs(w, r0, stalePort, taken, s, sent) && s.phase == R.Receiving && R.ClientJudge(e) != R.Accepted
    ensures var failed := Learnt(s, e).(j := s.j + 1, phase := if s.j + 1 == RETRIES then R.Aborted else R.Receiving);
      if R.ClientJudge(e) == R.Ignored then RunIs(w, r0, stalePort, taken + [e], Learnt(s, e), sent)
      else RunIs(w, r0, stalePort, taken + [e], failed,
                 sent + if R.ClientJudge(e) == R.Illegal then [R.IllegalOperation()] else [])
  {
    Advance(w, r0, stalePort, taken, e, s, sent);
    assert sent + [] == sent;
  }

  /** One try that brings a block. */
  lemma TryAdvance(w: Window, r0: BlockSize, stalePort: nat, taken: seq<Event>, e: Event, s: R.Receiver,
                   sent: seq<Datagram>)
    requires RunIs(w, r0, stalePort, taken, s, sent) && s.phase == R.Receiving && R.ClientJudge(e) == R.Accepted
    ensures var t, ack := Learnt(s, e), AckPacket(s.Count());
      var last := |e.d| != t.datasize + 4;
      RunIs(w, r0, stalePort, taken + [e],
            t.(accepted := s.accepted + 1, written := s.written + Payload(e.d), j := 0,
               phase := if last then R.Done else R.Receiving),
            sent + (if R.ClientAcks(s.Count(), w) then [ack] else []) + if last then [ack] else [])
  {
    Advance(w, r0, stalePort, taken, e, s, sent);
    var ack := AckPacket(s.Count());
    var now := if R.ClientAcks(s.Count(), w) then [ack] else [];
    var later := if |e.d| != Learnt(s, e).datasize + 4 then [ack] else [];
    assert R.ClientStep(w, s, e).1 == now + later;
    assert sent + (now + later) == sent + now + later;
  }

  class FileReceiver {
    const ackfreq: Window
    const sock: UdpSocket
    const packetbuf: array<byte>
    const filebuf: array<byte>
    const ackbuf: array<byte>
    const r0: BlockSize  // datasize at the start
    ghost const stalePort: nat  // dataPort at the start
    var datasize: int
    var flag: bool
    var count: uint16
    var n: int
    var j: nat
    var tid: nat
    var port: nat  // in `server`, where the ACKs go
    var dataPort: nat  // in `data`, which a wait fills in
    var written: seq<byte>  // the file
    ghost var accepted: nat  // blocks written so far

    ghost predicate Valid()
      reads this
    {
      && packetbuf.Length == MAX_DATA_SIZE + 12 && filebuf.Length == MAX_DATA_SIZE + 1
      && ackbuf.Length == R.ACKBUF_SIZE
      && packetbuf != filebuf && packetbuf != ackbuf && filebuf != ackbuf
      && if tid == 0 then dataPort == stalePort else port == tid
    }

    /** The machine state these fields stand for. */
    ghost function Abs(phase: R.Phase): R.Receiver
      reads this
    {
      R.Receiver(phase, accepted, written, datasize, flag, j, R.ZeroBuffer(), 4, tid, stalePort)
    }

    ghost predicate InStep(phase: R.Phase)
      reads this, sock
    {
      sock.Drawn() && RunIs(ackfreq, r0, stalePort, sock.taken, Abs(phase), sock.sent)
    }

    ghost predicate InRun(s: R.Receiver)
      reads sock
    {
      sock.Drawn() && RunIs(ackfreq, r0, stalePort, sock.taken, s, sock.sent)
    }

    /** Once `file` is written, the machine has nothing ahead of this program but a last ACK. */
    ghost predicate Pending(blocks: nat, file: seq<byte>)
      reads this, sock
    {
      && sock.Drawn() && 4 <= n && count == blocks % WRAP
      && var last := n != datasize + 4;
         var s := Abs(if last then R.Done else R.Receiving).(accepted := blocks, written := file, j := 0);
         RunIs(ackfreq, r0, stalePort, sock.taken, s, sock.sent + if last then [AckPacket(count)] else [])
    }

    /** The machine has taken the block in `filebuf`; its ACK, if the schedule asks for one, has yet to go out. */
    ghost predicate Due()
      reads this, filebuf, sock
      requires 4 <= n <= filebuf.Length + 4
    {
      && sock.Drawn() && count == (accepted + 1) % WRAP
      && var last, ack := n != datasize + 4, AckPacket(count);
         var s := Abs(if last then R.Done else R.Receiving)
                  .(accepted := accepted + 1, written := written + filebuf[..n - 4], j := 0);
         RunIs(ackfreq, r0, stalePort, sock.taken, s,
               sock.sent + (if R.ClientAcks(count, ackfreq) then [ack] else []) + if last then [ack] else [])
    }

    /** The machine has counted a failed try; the program has yet to. */
    ghost predicate Missed(illegal: bool)
      reads this, sock
    {
      && sock.Drawn()
      && RunIs(ackfreq, r0, stalePort, sock.taken,
               Abs(if j + 1 == RETRIES then R.Aborted else R.Receiving).(j := j + 1),
               sock.sent + if illegal then [R.IllegalOperation()] else [])
    }

    constructor (ackfreq: Window, r0: BlockSize, sock: UdpSocket, port: nat, dataPort: nat)
      ensures Valid() && this.ackfreq == ackfreq && this.r0 == r0 && this.sock == sock
      ensures tid == 0 && this.port == port && this.dataPort == stalePort == dataPort
      ensures datasize == r0 && flag && count == 0 && written == [] && accepted == 0 && j == 0
      ensures fresh(packetbuf) && fresh(filebuf) && fresh(ackbuf)
    {
      this.ackfreq, this.r0, this.sock := ackfreq, r0, sock;
      datasize, flag, count, n, j, written, accepted := r0, true, 0, 0, 0, [], 0;
      tid, this.port, this.dataPort, stalePort := 0, port, dataPort, dataPort;
      packetbuf := new byte[MAX_DATA_SIZE + 12];
      filebuf := new byte[MAX_DATA_SIZE + 1];
      ackbuf := new byte[R.ACKBUF_SIZE](_ => 0);
    }

    /** While no port is known, it is taken from `data`, whether or not the wait has filled that in. */
    method LearnPort(source: nat)
      requires Valid()
      modifies this`tid, this`port, this`dataPort
      ensures Valid()
      ensures tid == if old(tid) != 0 then old(tid) else if source != 0 then source else stalePort
    {
      if source != 0 {
        dataPort := source;
      }
      if tid == 0 {
        tid := dataPort;
        port := tid;
      }
    }

    /** One wait on the socket: the port is learnt before the address is looked at, the payload copied and the chunk
        size learnt before the opcode is. */
    method Receive() returns (verdict: R.Verdict)
      requires Valid()
      modifies packetbuf, filebuf, this`n, this`flag, this`datasize, sock`inbox, sock`taken
      modifies this`tid, this`port, this`dataPort
      ensures Valid()
      ensures sock.taken == old(sock.taken) + [Next(old(sock.inbox))] && sock.inbox == Rest(old(sock.inbox))
      ensures old(sock.Drawn()) ==> sock.Drawn()
      ensures var e := Next(old(sock.inbox));
        && verdict == R.ClientJudge(e)
        && (e.Packet? ==> n == |e.d| && filebuf[..n - 4] == Payload(e.d))
        && Abs(R.Receiving) == Learnt(old(Abs(R.Receiving)), e)
    {
      ghost var e := Next(sock.inbox);
      var fromPeer, source;
      n, fromPeer, source := sock.RecvFrom(packetbuf, MAX_DATA_SIZE + 11);
      LearnPort(source);
      if n < 0 {
        return R.Rejected;
      }
      if !fromPeer {
        return R.Ignored;
      }
      assert packetbuf[..n] == e.d;
      verdict := Decode(e.d);
    }

    /** A packet of the peer: payload and chunk size, then the opcode. */
    method Decode(ghost d: Datagram) returns (verdict: R.Verdict)
      requires Valid() && n == |d| && packetbuf[..n] == d
      modifies filebuf, this`flag, this`datasize
      ensures verdict == R.ClientJudge(Packet(d)) && filebuf[..n - 4] == Payload(d)
      ensures flag == false && datasize == if old(flag) then R.ClientAdapts(old(datasize), n) else old(datasize)
    {
      var packet: Datagram := packetbuf[..n];
      var opcode := Opcode(packet);
      forall k | 0 <= k < n - 4 {
        filebuf[k] := packetbuf[4 + k];
      }
      assert filebuf[..n - 4] == packet[4..];
      if flag {
        if n > 516 {
          datasize := n - 4;
        } else if n < 516 {
          datasize := 512;
        }
        flag := false;
      }
      if opcode != DATA {
        return if opcode > 5 then R.Illegal else R.Rejected;
      }
      return R.Accepted;
    }

    /** The ACK of the block just copied, if the schedule asks for it. */
    method Acknowledge()
      requires Valid() && 4 <= n <= filebuf.Length + 4 && Due()
      modifies ackbuf, sock`sent
      ensures sock.sent == old(sock.sent) + if R.ClientAcks(count, ackfreq) then [AckPacket(count)] else []
      ensures Pending(accepted + 1, written + filebuf[..n - 4])
    {
      assert sock.sent + [] == sock.sent;
      var len := FillAck(count, ackbuf);
      if R.ClientAcks(count, ackfreq) {
        sock.SendTo(ackbuf[..len]);
      }
    }

    /** A failed try, which the machine has already counted. */
    method Miss(illegal: bool)
      requires j < RETRIES && Missed(illegal)
      modifies this`j, sock`sent
      ensures j == old(j) + 1 && InStep(if j == RETRIES then R.Aborted else R.Receiving)
    {
      assert sock.sent + [] == sock.sent;
      if illegal {
        sock.SendTo(R.IllegalOperation());
      }
      j := j + 1;
    }

    /** After the machine's move on a block, the program is where `Due` says. */
    lemma DueAfter(s: R.Receiver, taken: seq<Event>, e: Event, sent: seq<Datagram>)
      requires sock.Drawn() && sock.taken == taken + [e] && sock.sent == sent
      requires e.Packet? && n == |e.d| && n <= filebuf.Length + 4 && filebuf[..n - 4] == Payload(e.d)
      requires Abs(R.Receiving) == Learnt(s, e) && count == s.Count()
      requires var last, ack := |e.d| != Learnt(s, e).datasize + 4, AckPacket(s.Count());
        RunIs(ackfreq, r0, stalePort, taken + [e],
              Learnt(s, e).(accepted := s.accepted + 1, written := s.written + Payload(e.d), j := 0,
                            phase := if last then R.Done else R.Receiving),
              sent + (if R.ClientAcks(s.Count(), ackfreq) then [ack] else []) + if last then [ack] else [])
      ensures Due()
    {
      var t := Learnt(s, e);
      assert Abs(R.Done) == t.(phase := R.Done);
    }

    /** After its move on anything else, the program has only the try to count. */
    lemma MissedAfter(s: R.Receiver, taken: seq<Event>, e: Event, sent: seq<Datagram>)
      requires sock.Drawn() && sock.taken == taken + [e] && sock.sent == sent && s.j == j
      requires Abs(R.Receiving) == Learnt(s, e)
      requires var phase := if s.j + 1 == RETRIES then R.Aborted else R.Receiving;
        var failed := Learnt(s, e).(j := s.j + 1, phase := phase);
        if R.ClientJudge(e) == R.Ignored then RunIs(ackfreq, r0, stalePort, taken + [e], Learnt(s, e), sent)
        else RunIs(ackfreq, r0, stalePort, taken + [e], failed,
                   sent + if R.ClientJudge(e) == R.Illegal then [R.IllegalOperation()] else [])
      ensures if R.ClientJudge(e) == R.Ignored then InStep(R.Receiving) else Missed(R.ClientJudge(e) == R.Illegal)
    {
      assert Abs(R.Aborted) == Learnt(s, e).(phase := R.Aborted);
    }

    /** What arrives in the wait for a block, and the machine's move on it. */
    method Hear() returns (verdict: R.Verdict)
      requires Valid() && j < RETRIES && count == (accepted + 1) % WRAP && InStep(R.Receiving)
      modifies packetbuf, filebuf, this`n, this`flag, this`datasize, sock`inbox, sock`taken
      modifies this`tid, this`port, this`dataPort
      ensures Valid() && verdict == R.ClientJudge(Next(old(sock.inbox)))
      ensures sock.taken == old(sock.taken) + [Next(old(sock.inbox))] && sock.inbox == Rest(old(sock.inbox))
      ensures match verdict
        case Ignored => InStep(R.Receiving)
        case Accepted => 4 <= n <= filebuf.Length + 4 && Due()
        case _ => Missed(verdict == R.Illegal)
    {
      ghost var e, s, taken, sent := Next(sock.inbox), Abs(R.Receiving), sock.taken, sock.sent;
      verdict := Receive();
      if verdict == R.Accepted {
        TryAdvance(ackfreq, r0, stalePort, taken, e, s, sent);
        DueAfter(s, taken, e, sent);
      } else {
        TryFailed(ackfreq, r0, stalePort, taken, e, s, sent);
        MissedAfter(s, taken, e, sent);
      }
    }

    /** One pass of the `for` loop that waits for a block: it is acknowledged here if the schedule asks for it. */
    method TryForData() returns (verdict: R.Verdict)
      requires Valid() && j < RETRIES && count == (accepted + 1) % WRAP && InStep(R.Receiving)
      modifies packetbuf, filebuf, ackbuf, this`n, this`flag, this`datasize, this`j, sock
      modifies this`tid, this`port, this`dataPort
      ensures Valid() && verdict == R.ClientJudge(Next(old(sock.inbox)))
      ensures sock.taken == old(sock.taken) + [Next(old(sock.inbox))] && sock.inbox == Rest(old(sock.inbox))
      ensures verdict in {R.Ignored, R.Accepted} ==> j == old(j) && |sock.inbox| < old(|sock.inbox|)
      ensures verdict == R.Ignored ==> InStep(R.Receiving)
      ensures verdict == R.Accepted ==>
        4 <= n <= filebuf.Length + 4 && Pending(accepted + 1, written + filebuf[..n - 4])
      ensures verdict in {R.Rejected, R.Illegal} ==>
        && j == old(j) + 1 && |sock.inbox| <= old(|sock.inbox|)
        && InStep(if j == RETRIES then R.Aborted else R.Receiving)
    {
      verdict := Hear();
      match verdict
      case Accepted => Acknowledge();
      case Ignored =>
      case Rejected => Miss(false);
      case Illegal => Miss(true);
    }

    /** The `for` loop that waits for a block. */
    method AwaitData()
      requires Valid() && j == 0 && count == (accepted + 1) % WRAP && InStep(R.Receiving)
      modifies packetbuf, filebuf, ackbuf, this`n, this`flag, this`datasize, this`j, sock
      modifies this`tid, this`port, this`dataPort
      ensures Valid() && j <= RETRIES && old(|sock.taken|) <= |sock.taken|
      ensures j == RETRIES ==> InStep(R.Aborted)
      ensures j < RETRIES ==> |sock.inbox| < old(|sock.inbox|)
      ensures j < RETRIES ==> 4 <= n <= filebuf.Length + 4 && Pending(accepted + 1, written + filebuf[..n - 4])
    {
      while j < RETRIES
        invariant Valid() && 0 <= j <= RETRIES && old(|sock.taken|) <= |sock.taken| && |sock.inbox| <= old(|sock.inbox|)
        invariant InStep(if j == RETRIES then R.Aborted else R.Receiving)
        decreases RETRIES - j, |sock.inbox|
      {
        var verdict := TryForData();
        if verdict == R.Accepted {
          break;
        }
      }
    }

    /** The whole of `tget`, after the file is open. It terminates on every inbox; its outcome, the
        datagrams it sends and the bytes it writes are the machine's. */
    method Tget() returns (success: bool)
      requires Valid() && datasize == r0 && flag && count == 0 && j == 0 && written == [] && accepted == 0 && tid == 0
      requires sock.taken == [] && sock.sent == [] && sock.Drawn()
      modifies this`datasize, this`flag, this`count, this`n, this`j, this`written, this`accepted
      modifies this`tid, this`port, this`dataPort, packetbuf, filebuf, ackbuf, sock
      ensures sock.taken == Outcomes(old(sock.inbox), |sock.taken|)
      ensures sock.inbox == Left(old(sock.inbox), |sock.taken|)
      ensures R.ClientLive(ackfreq, r0, stalePort, sock.taken)
      ensures R.ClientRun(ackfreq, r0, stalePort, sock.taken) == (Ended(success), sock.sent)
    {
      n := datasize + 4;
      assert sock.sent + [] == sock.sent;
      success := ReceiveBlocks();
      RunOf(ackfreq, r0, stalePort, sock.taken, Ended(success), sock.sent);
    }

    ghost function Ended(success: bool): R.Receiver
      reads this
    {
      if success then Abs(R.Done).(j := 0) else Abs(R.Aborted)
    }

    /** The ACK of the last block goes out once more. */
    method RepeatLast()
      requires Valid() && Pending(accepted, written) && n != datasize + 4
      modifies ackbuf, sock`sent
      ensures sock.sent == old(sock.sent) + [AckPacket(count)] && InRun(Ended(true))
    {
      var len := FillAck(count, ackbuf);
      sock.SendTo(ackbuf[..len]);
    }

    /** The next block is to be waited for. */
    method CountOn()
      requires Pending(accepted, written) && n == datasize + 4
      modifies this`count, this`j
      ensures count == (accepted + 1) % WRAP && j == 0 && InStep(R.Receiving)
    {
      assert sock.sent + [] == sock.sent;
      NextCount(accepted);
      count := (count + 1) % WRAP;
      j := 0;
    }

    /** `fwrite (filebuf, 1, n - 4, fp)` */
    method Write()
      requires 4 <= n <= filebuf.Length + 4 && Pending(accepted + 1, written + filebuf[..n - 4])
      modifies this`written, this`accepted
      ensures accepted == old(accepted) + 1 && written == old(written) + filebuf[..n - 4] && Pending(accepted, written)
    {
      ghost var done, receiving := Abs(R.Done), Abs(R.Receiving);
      written := written + filebuf[..n - 4];
      accepted := accepted + 1;
      assert Abs(R.Done) == done.(written := written, accepted := accepted);
      assert Abs(R.Receiving) == receiving.(written := written, accepted := accepted);
    }

    /** One pass of the `do` loop. */
    method ReceiveBlock()
      requires Valid() && Pending(accepted, written)
      modifies this`datasize, this`flag, this`count, this`n, this`j, this`written, this`accepted
      modifies this`tid, this`port, this`dataPort, packetbuf, filebuf, ackbuf, sock
      ensures Valid() && old(|sock.taken|) <= |sock.taken|
      ensures old(n) != old(datasize) + 4 ==> InRun(Ended(true))
      ensures old(n) == old(datasize) + 4 ==>
        if j == RETRIES then InRun(Ended(false)) else Pending(accepted, written) && |sock.inbox| < old(|sock.inbox|)
    {
      if n != datasize + 4 {
        RepeatLast();
      } else {
        CountOn();
        AwaitData();
        if j != RETRIES {
          Write();
        }
      }
    }

    /** The `do` loop. */
    method ReceiveBlocks() returns (success: bool)
      requires Valid() && Pending(accepted, written)
      modifies this`datasize, this`flag, this`count, this`n, this`j, this`written, this`accepted
      modifies this`tid, this`port, this`dataPort, packetbuf, filebuf, ackbuf, sock
      ensures InRun(Ended(success)) && old(|sock.taken|) <= |sock.taken|
    {
      while true
        invariant Valid() && Pending(accepted, written) && old(|sock.taken|) <= |sock.taken|
        decreases |sock.inbox|
      {
        var last := n != datasize + 4;
        ReceiveBlock();
        if last || j == RETRIES {
          return last;
        }
      }
    }
  }
}
