/** `tsend` of tftpd.c and tftpc.c over its byte arrays and counters, proved to be the machine of
    SenderMachine: the same datagrams in the same order, the same outcome, for every inbox. */
module SenderProgram {
  import opened Packets
  import opened Chunking
  import opened Folding
  import opened Socket
  import M = SenderMachine

  /** The machine, fed `taken`, is in state s, has sent `sent`, and was at work until the last event. */
  ghost predicate RunIs(cfg: M.Config, stale: seq<seq<byte>>, taken: seq<Event>, s: M.Sender, sent: seq<Datagram>)
    requires cfg.Valid() && M.SlotArray(stale)
  {
    && M.Ok(cfg, s)
    && forall k: nat {:trigger Look(taken, k)} :: Look(taken, k) ==>
         M.Live(cfg, stale, taken) && M.Run(cfg, stale, taken) == (s, sent)
  }

  lemma Advance(cfg: M.Config, stale: seq<seq<byte>>, taken: seq<Event>, e: Event, s: M.Sender, sent: seq<Datagram>)
    requires cfg.Valid() && M.SlotArray(stale) && RunIs(cfg, stale, taken, s, sent)
    requires s.phase in {M.Handshake, M.Waiting}
    ensures RunIs(cfg, stale, taken + [e], M.Step(cfg, s, e).0, sent + M.Step(cfg, s, e).1)
  {
    assert Look(taken, 0);
    assert (taken + [e])[..|taken|] == taken;
  }

  lemma RunOf(cfg: M.Config, stale: seq<seq<byte>>, taken: seq<Event>, s: M.Sender, sent: seq<Datagram>)
    requires cfg.Valid() && M.SlotArray(stale) && RunIs(cfg, stale, taken, s, sent)
    ensures M.Live(cfg, stale, taken) && M.Run(cfg, stale, taken) == (s, sent)
  {
    assert Look(taken, 0);
  }

  /** Burst looks only at the block number, the slots and the port. */
  lemma {:induction false} BurstIgnores(cfg: M.Config, s: M.Sender, s': M.Sender)
    requires cfg.Valid() && M.SlotArray(s.slots) && s.cur < |cfg.blocks|
    requires s'.cur == s.cur && s'.slots == s.slots && s'.port == s.port
    ensures M.Burst(cfg, s') == M.Burst(cfg, s)
    decreases |cfg.blocks| - s.cur
  {
    var t, t' := M.SendBlock(cfg, s).0, M.SendBlock(cfg, s').0;
    if !M.Awaits(cfg.role, t.Count(), cfg.w, |cfg.blocks[s.cur]| != cfg.d) {
      BurstIgnores(cfg, t, t');
    }
  }

  /** The machine, fed `taken`, has made the burst from s as well, and sent its packets after `sent`. */
  ghost predicate BurstRuns(cfg: M.Config, stale: seq<seq<byte>>, taken: seq<Event>, s: M.Sender, sent: seq<Datagram>)
    requires cfg.Valid() && M.SlotArray(stale) && M.SlotArray(s.slots) && s.cur < |cfg.blocks|
  {
    forall k: nat {:trigger Look(taken, k)} :: Look(taken, k) ==>
      var (u, burst) := M.Burst(cfg, s); M.Live(cfg, stale, taken) && M.Run(cfg, stale, taken) == (u, sent + burst)
  }

  /** The handshake's one try leads into the first burst; a stranger's datagram is no try. */
  lemma HandshakeAdvance(cfg: M.Config, stale: seq<seq<byte>>, taken: seq<Event>, e: Event, s: M.Sender,
                         sent: seq<Datagram>)
    requires cfg.Valid() && M.SlotArray(stale) && RunIs(cfg, stale, taken, s, sent) && s.phase == M.Handshake
    ensures var verdict := M.Judge(e, 0);
      var u := s.(port := Heard(s.port, e));
      if verdict == M.Ignored then RunIs(cfg, stale, taken + [e], u, sent)
      else BurstRuns(cfg, stale, taken + [e], u,
                     if verdict == M.Illegal then sent + [M.IllegalOperation(cfg.role)] else sent)
  {
    Advance(cfg, stale, taken, e, s, sent);
    var packets, reply := M.Burst(cfg, s.(port := Heard(s.port, e))).1, M.IllegalOperation(cfg.role);
    assert sent + ([reply] + packets) == (sent + [reply]) + packets;
    assert sent + [] == sent;
  }

  lemma StartBursts(cfg: M.Config, stale: seq<seq<byte>>, s: M.Sender)
    requires cfg.Valid() && cfg.role == M.Server && M.SlotArray(stale) && s == M.Idle(cfg, stale)
    ensures BurstRuns(cfg, stale, [], s, [])
  {
    var packets := M.Burst(cfg, s).1;
    assert [] + packets == packets;
  }

  lemma BurstRunsToo(cfg: M.Config, stale: seq<seq<byte>>, taken: seq<Event>, s: M.Sender, s': M.Sender,
                     sent: seq<Datagram>)
    requires cfg.Valid() && M.SlotArray(stale) && M.SlotArray(s.slots) && s.cur < |cfg.blocks|
    requires BurstRuns(cfg, stale, taken, s, sent)
    requires s'.cur == s.cur && s'.slots == s.slots && s'.port == s.port
    ensures BurstRuns(cfg, stale, taken, s', sent)
  {
    BurstIgnores(cfg, s, s');
  }

  /** One packet of the burst: then the wait, or the rest of the burst. */
  lemma BurstAdvance(cfg: M.Config, stale: seq<seq<byte>>, taken: seq<Event>, s: M.Sender, sent: seq<Datagram>)
    requires cfg.Valid() && M.SlotArray(stale) && M.SlotArray(s.slots) && s.cur < |cfg.blocks|
    requires BurstRuns(cfg, stale, taken, s, sent)
    ensures var (u, packet) := M.SendBlock(cfg, s);
      if M.Awaits(cfg.role, u.Count(), cfg.w, |cfg.blocks[s.cur]| != cfg.d) then
        RunIs(cfg, stale, taken, u.(phase := M.Waiting, j := 0), sent + [packet])
      else BurstRuns(cfg, stale, taken, u, sent + [packet])
  {
    var (u, packet) := M.SendBlock(cfg, s);
    if !M.Awaits(cfg.role, u.Count(), cfg.w, |cfg.blocks[s.cur]| != cfg.d) {
      var rest := M.Burst(cfg, u).1;
      assert sent + ([packet] + rest) == (sent + [packet]) + rest;
    } else {
      assert M.Ok(cfg, M.Burst(cfg, s).0);
    }
  }

  /** One try for an ACK. */
  lemma TryAdvance(cfg: M.Config, stale: seq<seq<byte>>, taken: seq<Event>, e: Event, s: M.Sender, sent: seq<Datagram>)
    requires cfg.Valid() && M.SlotArray(stale) && RunIs(cfg, stale, taken, s, sent) && s.phase == M.Waiting
    ensures match M.Judge(e, s.Count())
      case Ignored => RunIs(cfg, stale, taken + [e], s, sent)
      case Accepted =>
        if |cfg.blocks[s.cur - 1]| != cfg.d then RunIs(cfg, stale, taken + [e], s.(phase := M.Finished), sent)
        else s.cur < |cfg.blocks| && BurstRuns(cfg, stale, taken + [e], s, sent)
      case verdict =>
        var (t, packets) := M.Fail(cfg, s, verdict == M.Illegal);
        RunIs(cfg, stale, taken + [e], t, sent + packets)
  {
    Advance(cfg, stale, taken, e, s, sent);
    assert sent + [] == sent;
  }

  /** A failed try sends the reply, if one is due, and then the resend, already with the reply's length. */
  lemma FailMove(cfg: M.Config, s: M.Sender, t: M.Sender, illegal: bool, replied: seq<Datagram>, sent: seq<Datagram>)
    requires cfg.Valid() && M.Ok(cfg, s) && s.phase == M.Waiting
    requires t == if illegal then s.(len := |M.IllegalOperation(cfg.role)|) else s
    requires replied == if illegal then sent + [M.IllegalOperation(cfg.role)] else sent
    ensures M.Ok(cfg, t)
    ensures var (u, packets) := M.Fail(cfg, s, illegal);
      && u == t.(j := s.j + 1, phase := if s.j + 1 == RETRIES then M.Aborted else M.Waiting)
      && sent + packets == replied + M.Resend(cfg, t)
  {
    var packets, reply := M.Resend(cfg, t), M.IllegalOperation(cfg.role);
    if illegal {
      assert M.Fail(cfg, s, illegal).1 == [reply] + packets;
      assert sent + ([reply] + packets) == (sent + [reply]) + packets;
    } else {
      assert M.Fail(cfg, s, illegal).1 == packets;
    }
  }

  lemma NextSent(sent: seq<Datagram>, all: seq<Datagram>, i: nat)
    requires i < |all|
    ensures sent + all[..i] + [all[i]] == sent + all[..i + 1]
  {
  }

  class FileSender {
    const role: M.Role
    const datasize: BlockSize
    const ackfreq: Window
    const file: seq<byte>
    const sock: UdpSocket
    const filebuf: array<byte>
    const recvbuf: array<byte>
    const packetbuf: array2<byte>
    var fpos: nat
    var count: uint16
    var bcount: int
    var ssize: nat
    var len: nat
    var j: nat
    var ackPort: nat  // in `ack`, which the handshake's waits fill in
    var tid: nat
    var port: nat  // in the address everything is sent to
    ghost const cfg: M.Config
    ghost var stale: seq<seq<byte>>
    ghost var cur: nat  // blocks read so far; count is this modulo 2^16

    ghost predicate Valid()
      reads this
    {
      && filebuf.Length == MAX_DATA_SIZE + 1 && recvbuf.Length == SLOT_SIZE && filebuf != recvbuf
      && packetbuf.Length0 == MAX_ACK_FREQ && packetbuf.Length1 == SLOT_SIZE
      && cfg == M.Config(role, datasize, ackfreq, Blocks(file, datasize), cfg.port0) && cfg.Valid()
      && M.SlotArray(stale)
      && count == cur % WRAP
      && fpos <= |file| && cur <= |cfg.blocks|
      && ToRead(cfg.blocks, cur, file, fpos, datasize)
    }

    ghost function Slots(): (r: seq<seq<byte>>)
      requires packetbuf.Length0 == MAX_ACK_FREQ && packetbuf.Length1 == SLOT_SIZE
      reads packetbuf
      ensures M.SlotArray(r)
    {
      seq(MAX_ACK_FREQ, i requires 0 <= i < MAX_ACK_FREQ reads packetbuf => Row(i))
    }

    function Row(i: nat): (r: seq<byte>)
      requires i < packetbuf.Length0
      reads packetbuf
      ensures |r| == packetbuf.Length1
    {
      seq(packetbuf.Length1, k requires 0 <= k < packetbuf.Length1 reads packetbuf => packetbuf[i, k])
    }

    /** The machine state these fields stand for. */
    ghost function Abs(phase: M.Phase): M.Sender
      requires Valid()
      reads this, packetbuf
    {
      M.Sender(phase, cur, j, len, Slots(), if phase == M.Handshake then ackPort else port)
    }

    /** The machine, fed the same outcomes, is at the loop head too, with a burst still to send. */
    ghost predicate AtLoopHead()
      requires Valid()
      reads this, packetbuf, sock
    {
      && sock.Drawn() && cur < |cfg.blocks| && j < RETRIES
      && BurstRuns(cfg, stale, sock.taken, Abs(M.Waiting), sock.sent)
    }

    /** The machine has ended the handshake and made its first burst, after the reply to a bad opcode. */
    ghost predicate HandshakeOver(verdict: M.Verdict)
      requires Valid()
      reads this, packetbuf, sock
    {
      && sock.Drawn() && cur < |cfg.blocks|
      && BurstRuns(cfg, stale, sock.taken, Abs(M.Handshake),
                   if verdict == M.Illegal then sock.sent + [M.IllegalOperation(role)] else sock.sent)
    }

    /** The machine has made the same moves and sent the same datagrams. */
    ghost predicate InStep(phase: M.Phase)
      requires Valid()
      reads this, packetbuf, sock
    {
      sock.Drawn() && RunIs(cfg, stale, sock.taken, Abs(phase), sock.sent)
    }

    /** `port` is the server's client's, or for the client where the request went; `ackPort` is what `ack` holds. */
    constructor (role: M.Role, file: seq<byte>, datasize: BlockSize, ackfreq: Window, sock: UdpSocket,
                 port: nat, ackPort: nat)
      requires ackfreq <= 2 || |file| / datasize + 1 < WRAP
      ensures Valid() && this.role == role && this.file == file && this.datasize == datasize
      ensures this.ackfreq == ackfreq && this.sock == sock
      ensures cur == 0 && j == 0 && len == 4 && stale == Slots() && this.port == port && this.ackPort == ackPort
      ensures cfg.port0 == if role == M.Server then port else ackPort
      ensures fresh(filebuf) && fresh(recvbuf) && fresh(packetbuf)
    {
      BlocksPartition(file, datasize);
      FileReads(file, datasize);
      BlockCount(file, datasize);
      this.role, this.file, this.datasize, this.ackfreq, this.sock := role, file, datasize, ackfreq, sock;
      filebuf := new byte[MAX_DATA_SIZE + 1];
      recvbuf := new byte[SLOT_SIZE];
      packetbuf := new byte[MAX_ACK_FREQ, SLOT_SIZE];
      fpos, count, bcount, ssize, len, j, cur := 0, 0, 0, 0, 4, 0, 0;
      this.port, this.ackPort, tid := port, ackPort, 0;
      cfg := M.Config(role, datasize, ackfreq, Blocks(file, datasize), if role == M.Server then port else ackPort);
      new;
      stale := Slots();
    }

    /** `fread (filebuf, 1, datasize, fp)` */
    method Fread()
      requires Valid()
      modifies this`fpos, this`ssize, filebuf
      ensures ssize == ReadSize(file, old(fpos), datasize)
      ensures fpos == old(fpos) + ssize && filebuf[..ssize] == Chunk(file, old(fpos), ssize)
    {
      ssize := if |file| - fpos < datasize then |file| - fpos else datasize;
      forall k | 0 <= k < ssize {
        filebuf[k] := file[fpos + k];
      }
      fpos := fpos + ssize;
    }

    /** The next block of the file, and its number. */
    method ReadBlock()
      requires Valid() && cur < |cfg.blocks|
      modifies this`fpos, this`ssize, this`count, this`cur, filebuf
      ensures Valid() && cur == old(cur) + 1
      ensures ssize == |cfg.blocks[cur - 1]| && ssize <= datasize && filebuf[..ssize] == cfg.blocks[cur - 1]
    {
      Fread();
      NextCount(cur);
      count := (count + 1) % WRAP;
      cur := cur + 1;
    }

    /** Copies `bytes` into slot i from offset `at` on. */
    method WriteRow(i: nat, at: nat, bytes: seq<byte>)
      requires Valid() && i < MAX_ACK_FREQ && at + |bytes| <= SLOT_SIZE
      modifies packetbuf
      ensures Row(i) == M.Splice(old(Row(i)), at, bytes)
      ensures forall i': nat :: i' < MAX_ACK_FREQ && i' != i ==> Row(i') == old(Row(i'))
    {
      forall k | 0 <= k < |bytes| {
        packetbuf[i, at + k] := bytes[k];
      }
      forall k | 0 <= k < SLOT_SIZE && !(at <= k < at + |bytes|) ensures Row(i)[k] == old(Row(i))[k] {
        assert packetbuf[i, k] == old(packetbuf[i, k]);
      }
      forall k | at <= k < at + |bytes| ensures Row(i)[k] == bytes[k - at] {
        assert packetbuf[i, at + (k - at)] == bytes[k - at];
      }
    }

    /** `sprintf`, `memcpy` and the two number bytes, into the slot for this block. */
    method FillRow()
      requires Valid() && ssize <= datasize && 0 <= bcount < MAX_ACK_FREQ
      modifies this`len, packetbuf
      ensures Valid() && len == 4 + ssize
      ensures Row(bcount) == M.FillSlot(old(Row(bcount)), count, filebuf[..ssize])
      ensures forall i: nat :: i < MAX_ACK_FREQ && i != bcount ==> Row(i) == old(Row(i))
    {
      WriteRow(bcount, 0, [0, DATA, 0, 0, 0]);
      WriteRow(bcount, 4, filebuf[..ssize]);
      len := 4 + ssize;
      WriteRow(bcount, 2, [HighByte(count)]);
      WriteRow(bcount, 3, [LowByte(count)]);
    }

    /** Stores the packet in its slot and sends it from there. */
    method StoreAndSend(ghost block: seq<byte>)
      requires Valid() && ssize <= datasize && filebuf[..ssize] == block && 0 <= bcount < MAX_ACK_FREQ
      modifies this`len, packetbuf, sock`sent
      ensures Valid() && len == 4 + ssize
      ensures Slots() == old(Slots())[bcount := M.FillSlot(old(Slots())[bcount], count, block)]
      ensures sock.sent == old(sock.sent) + [DataPacket(count, block)]
    {
      FillRow();
      sock.SendTo(Row(bcount)[..len]);
    }

    /** One pass of the sending loop up to its ACK test. */
    method SendBlock()
      requires Valid() && cur < |cfg.blocks|
      modifies this`fpos, this`ssize, this`count, this`cur, this`bcount, this`len
      modifies filebuf, packetbuf, sock`sent
      ensures Valid() && cur == old(cur) + 1
      ensures ssize == |cfg.blocks[old(cur)]| && bcount == M.SlotIndex(count, ackfreq)
      ensures Abs(M.Waiting) == M.SendBlock(cfg, old(Abs(M.Waiting))).0
      ensures sock.sent == old(sock.sent) + [cfg.Packet(cur)]
    {
      ghost var s := Abs(M.Waiting);
      ReadBlock();
      M.SlotInRange(cfg, count);
      bcount := if count == 1 || count == 2 then 0 else CRem(count - 2, ackfreq);
      assert Slots() == s.slots;
      StoreAndSend(cfg.blocks[s.cur]);
    }

    lemma ResentRow(i: nat)
      requires Valid() && M.Ok(cfg, Abs(M.Waiting)) && i <= M.SlotIndex(count, ackfreq)
      ensures Row(i)[..len] == M.Resend(cfg, Abs(M.Waiting))[i]
    {
      M.SlotInRange(cfg, count);
      assert Slots()[i] == Row(i);
    }

    /** Sends slots 0..bcount again, all with the current `len`. */
    method Resend()
      requires Valid() && M.Ok(cfg, Abs(M.Waiting)) && bcount == M.SlotIndex(count, ackfreq)
      modifies sock`sent
      ensures sock.sent == old(sock.sent) + M.Resend(cfg, Abs(M.Waiting))
    {
      ghost var all := M.Resend(cfg, Abs(M.Waiting));
      M.SlotInRange(cfg, count);
      var i := 0;
      while i <= bcount
        invariant 0 <= i <= bcount + 1
        invariant sock.sent == old(sock.sent) + all[..i]
      {
        ResentRow(i);
        NextSent(old(sock.sent), all, i);
        sock.SendTo(Row(i)[..len]);
        i := i + 1;
      }
      assert all[..i] == all;
    }

    /** One wait on the socket, decoded. */
    method Receive() returns (verdict: M.Verdict, source: nat)
      requires Valid()
      modifies recvbuf, sock`inbox, sock`taken
      ensures source == Source(Next(old(sock.inbox)))
      ensures verdict == M.Judge(Next(old(sock.inbox)), count)
      ensures sock.taken == old(sock.taken) + [Next(old(sock.inbox))] && sock.inbox == Rest(old(sock.inbox))
      ensures old(sock.Drawn()) ==> sock.Drawn()
    {
      ghost var e := Next(sock.inbox);
      var n, fromPeer, from := sock.RecvFrom(recvbuf, SLOT_SIZE);
      if n < 0 {
        return M.Rejected, from;
      }
      if !fromPeer {
        return M.Ignored, from;
      }
      assert recvbuf[..n] == e.d;
      var header: Datagram := recvbuf[..4];
      SameHeader(header, e.d);
      var opcode, rcount := Opcode(header), BlockNumber(header);
      if opcode != ACK || rcount != count {
        return if opcode > 5 then M.Illegal else M.Rejected, from;
      }
      return M.Accepted, from;
    }

    /** The reply to a bad opcode: its length becomes that of the resends. */
    method Refuse()
      modifies this`len, sock`sent
      ensures len == |M.IllegalOperation(role)| && sock.sent == old(sock.sent) + [M.IllegalOperation(role)]
    {
      var reply := M.IllegalOperation(role);
      len := |reply|;
      sock.SendTo(reply);
    }

    /** The rest of a failed try. */
    method Retry(illegal: bool)
      requires Valid() && M.Ok(cfg, Abs(M.Waiting)) && bcount == M.SlotIndex(count, ackfreq)
      modifies this`j, this`len, sock`sent
      ensures Valid()
      ensures var (t, packets) := M.Fail(cfg, old(Abs(M.Waiting)), illegal);
        Abs(if j == RETRIES then M.Aborted else M.Waiting) == t && sock.sent == old(sock.sent) + packets
    {
      ghost var s := Abs(M.Waiting);
      if illegal {
        Refuse();
      }
      FailMove(cfg, s, Abs(M.Waiting), illegal, sock.sent, old(sock.sent));
      Resend();
      j := j + 1;
    }

    /** One pass of the `for` loop that waits for the ACK of the block just sent. */
    method TryForAck() returns (verdict: M.Verdict)
      requires Valid() && cur > 0 && ssize == |cfg.blocks[cur - 1]| && bcount == M.SlotIndex(count, ackfreq)
      requires j < RETRIES && InStep(M.Waiting)
      modifies this`j, this`len, recvbuf, sock
      ensures Valid()
      ensures verdict == M.Judge(Next(old(sock.inbox)), count)
      ensures sock.taken == old(sock.taken) + [Next(old(sock.inbox))] && sock.inbox == Rest(old(sock.inbox))
      ensures verdict == M.Ignored ==> j == old(j) && |sock.inbox| < old(|sock.inbox|) && InStep(M.Waiting)
      ensures verdict == M.Accepted ==> j == old(j) && if ssize != datasize then InStep(M.Finished) else AtLoopHead()
      ensures verdict in {M.Rejected, M.Illegal} ==>
        j == old(j) + 1 && InStep(if j == RETRIES then M.Aborted else M.Waiting)
    {
      ghost var s := Abs(M.Waiting);
      assert s.Count() == count;
      TryAdvance(cfg, stale, sock.taken, Next(sock.inbox), s, sock.sent);
      var source;
      verdict, source := Receive();
      assert Abs(M.Waiting) == s;
      if verdict == M.Rejected || verdict == M.Illegal {
        Retry(verdict == M.Illegal);
      }
    }

    /** The `for` loop that waits for the ACK of the block just sent. */
    method AwaitAck()
      requires Valid() && cur > 0 && ssize == |cfg.blocks[cur - 1]| && bcount == M.SlotIndex(count, ackfreq)
      requires sock.Drawn() && RunIs(cfg, stale, sock.taken, Abs(M.Waiting).(j := 0), sock.sent)
      modifies this`j, this`len, recvbuf, sock
      ensures Valid() && j <= RETRIES && old(|sock.taken|) <= |sock.taken|
      ensures j == RETRIES ==> InStep(M.Aborted)
      ensures j < RETRIES && ssize != datasize ==> InStep(M.Finished)
      ensures j < RETRIES && ssize == datasize ==> AtLoopHead()
    {
      j := 0;
      while j < RETRIES
        invariant Valid() && 0 <= j <= RETRIES && old(|sock.taken|) <= |sock.taken|
        invariant InStep(if j == RETRIES then M.Aborted else M.Waiting)
        decreases RETRIES - j, |sock.inbox|
      {
        var verdict := TryForAck();
        if verdict == M.Accepted {
          break;
        }
      }
    }

    /** The client's wait for ACK 0, which goes on after one try whatever came. */
    method AwaitWriteAck()
      requires Valid() && cur == 0 && j == 0 && InStep(M.Handshake)
      modifies this`j, this`len, this`ackPort, this`tid, this`port, recvbuf, sock
      ensures Valid() && AtLoopHead() && old(|sock.taken|) <= |sock.taken|
    {
      var verdict := M.Ignored;
      while j < RETRIES - 2 && verdict != M.Accepted
        invariant Valid() && 0 <= j <= RETRIES - 2 && old(|sock.taken|) <= |sock.taken|
        invariant if verdict == M.Ignored then j == 0 && InStep(M.Handshake)
                  else j == (if verdict == M.Accepted then 0 else 1) && AtLoopHead()
        decreases RETRIES - j, verdict == M.Ignored, |sock.inbox|
      {
        verdict := TryForWriteAck();
      }
    }

    /** The port for all that follows. */
    method LearnPort(source: nat)
      requires Valid()
      modifies this`ackPort, this`tid, this`port
      ensures Valid() && port == tid == ackPort == if source != 0 then source else old(ackPort)
      ensures Abs(M.Handshake) == old(Abs(M.Handshake)).(port := ackPort)
    {
      if source != 0 {
        ackPort := source;
      }
      tid := ackPort;
      port := tid;
    }

    /** One wait of the handshake. */
    method HearWriteAck() returns (verdict: M.Verdict)
      requires Valid() && cur == 0 && InStep(M.Handshake)
      modifies this`ackPort, this`tid, this`port, recvbuf, sock`inbox, sock`taken
      ensures Valid() && verdict == M.Judge(Next(old(sock.inbox)), 0)
      ensures sock.taken == old(sock.taken) + [Next(old(sock.inbox))] && sock.inbox == Rest(old(sock.inbox))
      ensures port == tid == ackPort == Heard(old(ackPort), Next(old(sock.inbox)))
      ensures verdict == M.Ignored ==> |sock.inbox| < old(|sock.inbox|)
      ensures if verdict == M.Ignored then InStep(M.Handshake) else HandshakeOver(verdict)
    {
      ghost var s, e, taken, sent := Abs(M.Handshake), Next(sock.inbox), sock.taken, sock.sent;
      var source;
      verdict, source := Receive();
      assert Abs(M.Handshake) == s;
      LearnPort(source);
      HandshakeAdvance(cfg, stale, taken, e, s, sent);
    }

    /** One pass: the port for all that follows is taken from `ack`, whether or not this wait has filled it in. */
    method TryForWriteAck() returns (verdict: M.Verdict)
      requires Valid() && cur == 0 && j == 0 && InStep(M.Handshake)
      modifies this`j, this`len, this`ackPort, this`tid, this`port, recvbuf, sock
      ensures Valid()
      ensures port == tid == ackPort == Heard(old(ackPort), Next(old(sock.inbox)))
      ensures verdict == M.Judge(Next(old(sock.inbox)), 0)
      ensures sock.taken == old(sock.taken) + [Next(old(sock.inbox))] && sock.inbox == Rest(old(sock.inbox))
      ensures verdict == M.Ignored ==> j == 0 && |sock.inbox| < old(|sock.inbox|) && InStep(M.Handshake)
      ensures verdict != M.Ignored ==> j == (if verdict == M.Accepted then 0 else 1) && AtLoopHead()
    {
      assert count == 0;
      verdict := HearWriteAck();
      if verdict != M.Ignored {
        EndHandshake(verdict);
      }
    }

    /** What follows that one try: the sending loop, whether ACK 0 came or not. */
    method EndHandshake(verdict: M.Verdict)
      requires Valid() && cur == 0 && j == 0 && port == ackPort && HandshakeOver(verdict)
      modifies this`j, this`len, sock`sent
      ensures Valid() && j == (if verdict == M.Accepted then 0 else 1) && AtLoopHead()
    {
      ghost var s := Abs(M.Handshake);
      ghost var replied := if verdict == M.Illegal then sock.sent + [M.IllegalOperation(role)] else sock.sent;
      assert BurstRuns(cfg, stale, sock.taken, s, replied);
      if verdict == M.Illegal {
        Refuse();
      }
      if verdict != M.Accepted {
        j := j + 1;
      }
      assert Slots() == s.slots && sock.sent == replied;
      BurstRunsToo(cfg, stale, sock.taken, s, Abs(M.Waiting), replied);
    }

    /** One pass of the sending loop. */
    method SendAndAwait()
      requires Valid() && AtLoopHead()
      modifies this`fpos, this`ssize, this`count, this`cur, this`bcount, this`len, this`j
      modifies filebuf, recvbuf, packetbuf, sock
      ensures Valid() && cur == old(cur) + 1 && old(|sock.taken|) <= |sock.taken|
      ensures j == RETRIES ==> InStep(M.Aborted)
      ensures j != RETRIES && ssize != datasize ==> InStep(M.Finished)
      ensures j != RETRIES && ssize == datasize ==> AtLoopHead()
    {
      BurstAdvance(cfg, stale, sock.taken, Abs(M.Waiting), sock.sent);
      SendBlock();
      if M.Awaits(role, count, ackfreq, ssize != datasize) {
        AwaitAck();
      }
    }

    /** The whole of `tsend`, after the file is open. It terminates on every inbox, and its outcome
        and every datagram it sends are the machine's on what the inbox held. */
    method Tsend() returns (success: bool)
      requires Valid() && cur == 0 && j == 0 && len == 4 && stale == Slots()
      requires cfg.port0 == if role == M.Server then port else ackPort
      requires sock.taken == [] && sock.sent == [] && sock.Drawn()
      modifies this`fpos, this`ssize, this`count, this`cur, this`bcount, this`len, this`j
      modifies this`ackPort, this`tid, this`port
      modifies filebuf, recvbuf, packetbuf, sock
      ensures Valid()
      ensures sock.taken == Outcomes(old(sock.inbox), |sock.taken|)
      ensures sock.inbox == Left(old(sock.inbox), |sock.taken|)
      ensures M.Live(cfg, stale, sock.taken)
      ensures M.Run(cfg, stale, sock.taken) == (Abs(if success then M.Finished else M.Aborted), sock.sent)
    {
      if role == M.Client {
        AwaitWriteAck();
      } else {
        StartBursts(cfg, stale, Abs(M.Waiting));
      }
      success := SendBlocks();
      RunOf(cfg, stale, sock.taken, Abs(if success then M.Finished else M.Aborted), sock.sent);
    }

    /** The sending loop. */
    method SendBlocks() returns (success: bool)
      requires Valid() && AtLoopHead()
      modifies this`fpos, this`ssize, this`count, this`cur, this`bcount, this`len, this`j
      modifies filebuf, recvbuf, packetbuf, sock
      ensures Valid() && InStep(if success then M.Finished else M.Aborted) && old(|sock.taken|) <= |sock.taken|
    {
      while true
        invariant Valid() && AtLoopHead() && old(|sock.taken|) <= |sock.taken|
        decreases |cfg.blocks| - cur
      {
        SendAndAwait();
        if j == RETRIES {
          return false;
        }
        if ssize != datasize {
          return true;
        }
      }
    }
  }

  /** The four header bytes decide what `Opcode` and `BlockNumber` see. */
  lemma SameHeader(h: Datagram, d: Datagram)
    requires h[..4] == d[..4]
    ensures Opcode(h) == Opcode(d) && BlockNumber(h) == BlockNumber(d)
  {
    assert forall i :: 0 <= i < 4 ==> h[i] == h[..4][i] && d[i] == d[..4][i];
  }
}
