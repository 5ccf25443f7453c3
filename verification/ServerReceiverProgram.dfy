/** `tget` of tftpd.c over its byte arrays and counters, proved to be the machine of ReceiverMachines. */
module ServerReceiverProgram {
  import opened Packets
  import opened Folding
  import opened Socket
  import R = ReceiverMachines

  /** The machine, fed `taken`, is in state s, has sent `sent`, and was receiving until the last event. */
  ghost predicate RunIs(w: Window, r0: BlockSize, taken: seq<Event>, s: R.Receiver, sent: seq<Datagram>) {
    && R.Ok(s)
    && forall k: nat {:trigger Look(taken, k)} :: Look(taken, k) ==>
         R.ServerLive(w, r0, taken) && R.ServerRun(w, r0, taken) == (s, sent)
  }

  lemma Advance(w: Window, r0: BlockSize, taken: seq<Event>, e: Event, s: R.Receiver, sent: seq<Datagram>)
    requires RunIs(w, r0, taken, s, sent) && s.phase == R.Receiving
    ensures RunIs(w, r0, taken + [e], R.ServerStep(w, s, e).0, sent + R.ServerStep(w, s, e).1)
  {
    assert Look(taken, 0);
    assert (taken + [e])[..|taken|] == taken;
  }

  lemma RunOf(w: Window, r0: BlockSize, taken: seq<Event>, s: R.Receiver, sent: seq<Datagram>)
    requires RunIs(w, r0, taken, s, sent)
    ensures R.ServerLive(w, r0, taken) && R.ServerRun(w, r0, taken) == (s, sent)
  {
    assert Look(taken, 0);
  }

  /** One try for a block. */
  lemma TryAdvance(w: Window, r0: BlockSize, taken: seq<Event>, e: Event, s: R.Receiver, sent: seq<Datagram>)
    requires RunIs(w, r0, taken, s, sent) && s.phase == R.Receiving
    ensures var t := if e.Packet? then R.Adapted(s, e, R.ServerAdapts(s.datasize, |e.d|)) else s;
      match R.ServerJudge(e, s.Count())
      case Ignored => RunIs(w, r0, taken + [e], s, sent)
      case Accepted =>
        var v := t.(accepted := s.accepted + 1, written := s.written + Payload(e.d));
        var (u, acks) := R.ServerLoopHead(w, v, |e.d|);
        RunIs(w, r0, taken + [e], u, sent + acks)
      case verdict =>
        var (u, packets) := R.ServerFail(t, verdict == R.Illegal);
        RunIs(w, r0, taken + [e], u, sent + packets)
  {
    Advance(w, r0, taken, e, s, sent);
    assert sent + [] == sent;
    if R.ServerJudge(e, s.Count()) == R.Accepted {
      var t := R.Adapted(s, e, R.ServerAdapts(s.datasize, |e.d|));
      assert R.ServerStep(w, s, e)
          == R.ServerLoopHead(w, t.(accepted := s.accepted + 1, written := s.written + Payload(e.d)), |e.d|);
    }
  }

  class FileReceiver {
    const ackfreq: Window
    const sock: UdpSocket
    const packetbuf: array<byte>
    const filebuf: array<byte>
    const ackbuf: array<byte>
    const r0: BlockSize  // datasize at the start
    var datasize: int
    var flag: bool
    var count: uint16
    var n: int
    var len: nat
    var j: nat
    var written: seq<byte>  // the file
    ghost var accepted: nat  // blocks written so far

    ghost predicate Valid()
      reads this
    {
      && packetbuf.Length == MAX_DATA_SIZE + 12 && filebuf.Length == MAX_DATA_SIZE + 1
      && ackbuf.Length == R.ACKBUF_SIZE
      && packetbuf != filebuf && packetbuf != ackbuf && filebuf != ackbuf
      && 4 <= len <= 22
    }

    /** The machine state these fields stand for. */
    ghost function Abs(phase: R.Phase): R.Receiver
      reads this, ackbuf
    {
      R.Receiver(phase, accepted, written, datasize, flag, j, ackbuf[..], len)
    }

    ghost predicate InStep(phase: R.Phase)
      reads this, ackbuf, sock
    {
      sock.Drawn() && RunIs(ackfreq, r0, sock.taken, Abs(phase), sock.sent)
    }

    /** The machine has already made the move at the head of the loop. */
    ghost predicate AtLoopHead()
      reads this, ackbuf, sock
    {
      && sock.Drawn() && R.Ok(Abs(R.Receiving)) && 4 <= n && count == accepted % WRAP
      && var (t, acks) := R.ServerLoopHead(ackfreq, Abs(R.Receiving), n);
         RunIs(ackfreq, r0, sock.taken, t, sock.sent + acks)
    }

    constructor (ackfreq: Window, r0: BlockSize, sock: UdpSocket)
      ensures Valid() && this.ackfreq == ackfreq && this.r0 == r0 && this.sock == sock
      ensures datasize == r0 && flag && count == 0 && len == 4 && written == [] && accepted == 0 && j == 0
      ensures ackbuf[..] == R.ZeroBuffer()
      ensures fresh(packetbuf) && fresh(filebuf) && fresh(ackbuf)
    {
      this.ackfreq, this.r0, this.sock := ackfreq, r0, sock;
      datasize, flag, count, n, len, j, written, accepted := r0, true, 0, 0, 4, 0, [], 0;
      packetbuf := new byte[MAX_DATA_SIZE + 12];
      filebuf := new byte[MAX_DATA_SIZE + 1];
      ackbuf := new byte[R.ACKBUF_SIZE](_ => 0);
    }

    /** `memset (ackbuf, 0, sizeof (ackbuf))` */
    method ClearAck()
      requires Valid()
      modifies ackbuf
      ensures ackbuf[..] == R.ZeroBuffer()
    {
      forall k | 0 <= k < ackbuf.Length {
        ackbuf[k] := 0;
      }
    }

    /** Prints the ACK of `count` over the zeroed buffer and sends it. */
    method SendAck()
      requires Valid() && ackbuf[..] == R.ZeroBuffer()
      modifies this`len, ackbuf, sock`sent
      ensures Valid() && len == 4 && ackbuf[..] == R.AckBuffer(count)
      ensures sock.sent == old(sock.sent) + [AckPacket(count)]
    {
      len := FillAck(count, ackbuf);
      assert ackbuf[..] == R.AckBuffer(count);
      sock.SendTo(ackbuf[..len]);
    }

    /** The ACK at the head of the loop, if one is due. */
    method Acknowledge()
      requires Valid() && AtLoopHead()
      modifies this`len, this`j, ackbuf, sock`sent
      ensures Valid() && j == 0
      ensures InStep(if n != datasize + 4 then R.Done else R.Receiving)
    {
      ghost var (t, acks) := R.ServerLoopHead(ackfreq, Abs(R.Receiving), n);
      ClearAck();
      if count == 0 || count as int % ackfreq == 0 || n != datasize + 4 {
        SendAck();
      }
      j := 0;
      assert t == Abs(t.phase);
      assert sock.sent == old(sock.sent) + acks;
    }

    /** One wait on the socket: the packet is decoded, its payload copied and the chunk size learnt,
        before anything is checked. */
    method Receive() returns (verdict: R.Verdict)
      requires Valid()
      modifies packetbuf, filebuf, this`n, this`flag, this`datasize, sock`inbox, sock`taken
      ensures Valid()
      ensures sock.taken == old(sock.taken) + [Next(old(sock.inbox))] && sock.inbox == Rest(old(sock.inbox))
      ensures old(sock.Drawn()) ==> sock.Drawn()
      ensures var e := Next(old(sock.inbox));
        && verdict == R.ServerJudge(e, count)
        && if e.Packet? then
             && n == |e.d| && filebuf[..n - 4] == Payload(e.d)
             && flag == false && datasize == if old(flag) then R.ServerAdapts(old(datasize), |e.d|) else old(datasize)
           else flag == old(flag) && datasize == old(datasize)
    {
      ghost var e := Next(sock.inbox);
      var fromPeer, port;
      n, fromPeer, port := sock.RecvFrom(packetbuf, MAX_DATA_SIZE + 11);
      if n < 0 {
        return R.Rejected;
      }
      if !fromPeer {
        return R.Ignored;
      }
      var d: Datagram := packetbuf[..n];
      assert d == e.d;
      var opcode, rcount := Opcode(d), BlockNumber(d);
      forall k | 0 <= k < n - 4 {
        filebuf[k] := packetbuf[4 + k];
      }
      assert filebuf[..n - 4] == d[4..];
      if flag {
        if n > 516 {
          datasize := n - 4;
        }
        flag := false;
      }
      if opcode != DATA || rcount != count {
        return if opcode > 5 then R.Illegal else R.Rejected;
      }
      return R.Accepted;
    }

    /** A packet was accepted and is about to be written: the machine has written it and gone on. */
    ghost predicate AtWrite()
      reads this, ackbuf, filebuf, sock
    {
      && sock.Drawn() && R.Ok(Abs(R.Receiving)) && 4 <= n <= filebuf.Length + 4 && count == (accepted + 1) % WRAP
      && var s := Abs(R.Receiving).(accepted := accepted + 1, written := written + filebuf[..n - 4]);
         var (t, acks) := R.ServerLoopHead(ackfreq, s, n);
         RunIs(ackfreq, r0, sock.taken, t, sock.sent + acks)
    }

    /** The rest of a failed try. */
    method Retry(illegal: bool)
      requires Valid() && R.Ok(Abs(R.Receiving))
      modifies this`j, this`len, sock`sent
      ensures Valid()
      ensures var (t, packets) := R.ServerFail(old(Abs(R.Receiving)), illegal);
        Abs(if j == RETRIES then R.Aborted else R.Receiving) == t && sock.sent == old(sock.sent) + packets
    {
      ghost var replies := [];
      if illegal {
        var reply := R.IllegalOperation();
        len := |reply|;
        sock.SendTo(reply);
        replies := [reply];
      }
      ghost var ack := ackbuf[..len];
      sock.SendTo(ackbuf[..len]);
      j := j + 1;
      assert sock.sent == old(sock.sent) + (replies + [ack]);
    }

    /** One pass of the `for` loop that waits for the next block. */
    method TryForData() returns (verdict: R.Verdict)
      requires Valid() && j < RETRIES && count == (accepted + 1) % WRAP && InStep(R.Receiving)
      modifies packetbuf, filebuf, this`n, this`flag, this`datasize, this`j, this`len, sock
      ensures Valid()
      ensures verdict == R.ServerJudge(Next(old(sock.inbox)), count)
      ensures sock.taken == old(sock.taken) + [Next(old(sock.inbox))] && sock.inbox == Rest(old(sock.inbox))
      ensures verdict in {R.Ignored, R.Accepted} ==> j == old(j) && |sock.inbox| < old(|sock.inbox|)
      ensures verdict == R.Ignored ==> InStep(R.Receiving)
      ensures verdict == R.Accepted ==> AtWrite()
      ensures verdict in {R.Rejected, R.Illegal} ==>
        && j == old(j) + 1 && |sock.inbox| <= old(|sock.inbox|)
        && InStep(if j == RETRIES then R.Aborted else R.Receiving)
    {
      assert Abs(R.Receiving).Count() == count;
      TryAdvance(ackfreq, r0, sock.taken, Next(sock.inbox), Abs(R.Receiving), sock.sent);
      verdict := Receive();
      if verdict == R.Rejected || verdict == R.Illegal {
        Retry(verdict == R.Illegal);
      }
    }

    /** The `for` loop that waits for the next block. */
    method AwaitData()
      requires Valid() && j == 0 && count == (accepted + 1) % WRAP && InStep(R.Receiving)
      modifies packetbuf, filebuf, this`n, this`flag, this`datasize, this`j, this`len, sock
      ensures Valid() && j <= RETRIES && old(|sock.taken|) <= |sock.taken|
      ensures j == RETRIES ==> InStep(R.Aborted)
      ensures j < RETRIES ==> AtWrite() && |sock.inbox| < old(|sock.inbox|)
    {
      j := 0;
      while j < RETRIES
        invariant Valid() && 0 <= j <= RETRIES && old(|sock.taken|) <= |sock.taken| && |sock.inbox| <= old(|sock.inbox|)
        invariant InStep(if j == RETRIES then R.Aborted else R.Receiving)
        decreases RETRIES - j, |sock.inbox|
      {
        var verdict := TryForData();
        if verdict == R.Accepted {
          break;
        }
      }
    }

    /** `fwrite (filebuf, 1, n - 4, fp)` */
    method WriteBlock()
      requires Valid() && AtWrite()
      modifies this`written, this`accepted
      ensures Valid() && AtLoopHead()
    {
      written := written + filebuf[..n - 4];
      accepted := accepted + 1;
    }

    /** The whole of `tget`, after the file is open. It terminates on every inbox; its outcome, the
        datagrams it sends and the bytes it writes are the machine's. */
    method Tget() returns (success: bool)
      requires Valid() && datasize == r0 && flag && count == 0 && len == 4 && j == 0
      requires written == [] && accepted == 0 && ackbuf[..] == R.ZeroBuffer()
      requires sock.taken == [] && sock.sent == [] && sock.Drawn()
      modifies this`datasize, this`flag, this`count, this`n, this`len, this`j, this`written, this`accepted
      modifies packetbuf, filebuf, ackbuf, sock
      ensures Valid()
      ensures sock.taken == Outcomes(old(sock.inbox), |sock.taken|) && sock.inbox == Left(old(sock.inbox), |sock.taken|)
      ensures R.ServerLive(ackfreq, r0, sock.taken)
      ensures R.ServerRun(ackfreq, r0, sock.taken) == (Abs(if success then R.Done else R.Aborted), sock.sent)
    {
      n := datasize + 4;
      ghost var acks := R.ServerLoopHead(ackfreq, Abs(R.Receiving), n).1;
      assert [] + acks == acks;
      success := ReceiveBlocks();
      RunOf(ackfreq, r0, sock.taken, Abs(if success then R.Done else R.Aborted), sock.sent);
    }

    /** One pass of the `do` loop. */
    method ReceiveBlock()
      requires Valid() && AtLoopHead()
      modifies this`datasize, this`flag, this`count, this`n, this`len, this`j, this`written, this`accepted
      modifies packetbuf, filebuf, ackbuf, sock
      ensures Valid() && old(|sock.taken|) <= |sock.taken|
      ensures old(n) != old(datasize) + 4 ==> InStep(R.Done)
      ensures old(n) == old(datasize) + 4 ==>
        if j == RETRIES then InStep(R.Aborted) else AtLoopHead() && |sock.inbox| < old(|sock.inbox|)
    {
      Acknowledge();
      if n == datasize + 4 {
        NextCount(accepted);
        count := (count + 1) % WRAP;
        AwaitData();
        if j != RETRIES {
          WriteBlock();
        }
      }
    }

    /** The `do` loop. */
    method ReceiveBlocks() returns (success: bool)
      requires Valid() && AtLoopHead()
      modifies this`datasize, this`flag, this`count, this`n, this`len, this`j, this`written, this`accepted
      modifies packetbuf, filebuf, ackbuf, sock
      ensures Valid() && InStep(if success then R.Done else R.Aborted) && old(|sock.taken|) <= |sock.taken|
    {
      while true
        invariant Valid() && AtLoopHead() && old(|sock.taken|) <= |sock.taken|
        decreases |sock.inbox|
      {
        var last := n != datasize + 4;
        ReceiveBlock();
        if last || j == RETRIES {
          return last;
        }
      }
    }
  }
}
