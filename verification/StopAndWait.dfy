/** One move of either side of a transfer at ackfreq 1, when what it hears comes from an honest peer. */
module StopAndWait {
  import opened Packets
  import opened Chunking
  import M = SenderMachine
  import R = ReceiverMachines

  /** The acknowledgement of true block k. */
  function Ack(k: nat): Datagram { AckPacket(k % WRAP) }

  lemma ConsecutiveDiffer(k: nat)
    ensures k % WRAP != (k + 1) % WRAP
  {
  }

  /** Below 2^16 an ACK tells its block. */
  lemma AckInjective(k: nat, k': nat)
    requires k < WRAP && k' < WRAP && Ack(k) == Ack(k')
    ensures k == k'
  {
    SplitBytes(k);
    SplitBytes(k');
    assert Ack(k)[2] == Ack(k')[2] && Ack(k)[3] == Ack(k')[3];
  }

  // ---------- sender ----------

  /** At ackfreq 1 slot 0 holds the block being sent and a resend repeats it exactly. */
  ghost predicate SenderReady(cfg: M.Config, s: M.Sender) {
    && cfg.Valid() && cfg.w == 1 && M.Ok(cfg, s)
    && (s.phase == M.Waiting ==> s.slots[0][..s.len] == cfg.Packet(s.cur))
  }

  lemma NextBlock(cfg: M.Config, s: M.Sender)
    requires cfg.Valid() && cfg.w == 1 && M.SlotArray(s.slots) && s.cur < |cfg.blocks|
    ensures var (t, out) := M.Burst(cfg, s);
      SenderReady(cfg, t) && t.phase == M.Waiting && t.cur == s.cur + 1 && out == [cfg.Packet(t.cur)]
  {
    var (t, packet) := M.SendBlock(cfg, s);
    assert M.SlotIndex(t.Count(), 1) == 0;
    assert t.slots[0][..t.len] == packet;
  }

  lemma AckRead(k: nat)
    ensures Opcode(Ack(k)) == ACK && BlockNumber(Ack(k)) == k % WRAP
  {
    AckNumber(k % WRAP);
  }

  /** An ACK datagram is judged by its number. */
  lemma JudgedByNumber(d: Datagram, port: Port, count: uint16)
    requires Opcode(d) == ACK
    ensures M.Judge(Packet(d, port), count) == if BlockNumber(d) == count then M.Accepted else M.Rejected
  {
  }

  lemma AckJudged(k: nat, count: uint16, port: Port)
    ensures M.Judge(Packet(Ack(k), port), count) == if k % WRAP == count then M.Accepted else M.Rejected
  {
    AckRead(k);
    JudgedByNumber(Ack(k), port, count);
  }

  lemma FailResends(cfg: M.Config, s: M.Sender)
    requires SenderReady(cfg, s) && s.phase == M.Waiting
    ensures var (t, out) := M.Fail(cfg, s, false);
      SenderReady(cfg, t) && t.phase in {M.Waiting, M.Aborted} && t.cur == s.cur && out == [cfg.Packet(s.cur)]
  {
    assert M.SlotIndex(s.Count(), 1) == 0;
    var packets := M.Resend(cfg, s);
    assert packets == [cfg.Packet(s.cur)];
    assert [] + packets == packets;
  }

  /** What the sender does with silence, with a stranger, and with the ACK of true block k. */
  lemma SenderMove(cfg: M.Config, s: M.Sender, e: Event, k: nat)
    requires SenderReady(cfg, s)
    requires e.Packet? ==> e.d == Ack(k)
    requires e.Packet? && s.phase == M.Waiting && k % WRAP == s.Count() ==> k == s.cur
    ensures var (t, out) := M.Step(cfg, s, e);
      && SenderReady(cfg, t) && t.port == (if s.phase == M.Handshake then Heard(s.port, e) else s.port)
      && (if s.phase in {M.Finished, M.Aborted} || e.Foreign? then t == s.(port := t.port) && out == []
          else if s.phase == M.Handshake || (e.Packet? && k == s.cur < |cfg.blocks|) then
            t.phase == M.Waiting && t.cur == s.cur + 1 && out == [cfg.Packet(t.cur)]
          else if e.Packet? && k == s.cur then t == s.(phase := M.Finished) && out == [] && s.cur == |cfg.blocks|
          else t.phase in {M.Waiting, M.Aborted} && t.cur == s.cur && out == [cfg.Packet(s.cur)])
  {
    if e.Packet? {
      AckJudged(k, s.Count(), e.port);
    }
    if s.phase == M.Waiting && M.Judge(e, s.Count()) == M.Rejected {
      FailResends(cfg, s);
    } else if s.cur < |cfg.blocks| {
      NextBlock(cfg, if s.phase == M.Handshake then s.(port := Heard(s.port, e)) else s);
    }
  }

  /** When the count has wrapped to 0, the ACK of the request is taken for that of the block. */
  lemma FirstAckTaken(cfg: M.Config, s: M.Sender, port: Port)
    requires SenderReady(cfg, s) && s.phase == M.Waiting && s.cur == WRAP
    ensures var t := M.Step(cfg, s, Packet(Ack(0), port)).0;
      if s.cur < |cfg.blocks| then t.cur == s.cur + 1 else t.phase == M.Finished && t.cur == s.cur
  {
    AckJudged(0, s.Count(), port);
    if s.cur < |cfg.blocks| {
      NextBlock(cfg, s);
    }
  }

  // ---------- the server's receiver ----------

  /** The chunk size the receiver goes by once it has seen the first block. */
  function Settled(r0: BlockSize, blocks: seq<seq<byte>>): int
    requires blocks != []
  {
    R.ServerAdapts(r0, 4 + |blocks[0]|)
  }

  /** The receiver's end-of-file test says what the sender's says, on every block. */
  ghost predicate EofAgrees(blocks: seq<seq<byte>>, d: int, settled: int) {
    forall k :: 0 <= k < |blocks| ==> (|blocks[k]| != settled <==> |blocks[k]| != d)
  }

  /** The receiver holds exactly the first `accepted` blocks, and would repeat the ACK of the last. */
  ghost predicate ReceiverHolds(cfg: M.Config, r0: BlockSize, s: R.Receiver) {
    && cfg.Valid() && R.Ok(s)
    && s.accepted <= |cfg.blocks|
    && s.written == Flatten(cfg.blocks[..s.accepted])
    && s.len == 4 && s.ackbuf[..4] == Ack(s.accepted)
    && s.flag == (s.accepted == 0)
    && (s.phase == R.Done ==> s.accepted > 0)
    && s.datasize == (if s.accepted == 0 then r0 else Settled(r0, cfg.blocks))
    && (s.accepted > 0 ==> (s.phase == R.Done <==> |cfg.blocks[s.accepted - 1]| != s.datasize))
  }

  lemma DataRead(cfg: M.Config, k: nat)
    requires cfg.Valid() && 1 <= k <= |cfg.blocks|
    ensures var d := cfg.Packet(k); Opcode(d) == DATA && BlockNumber(d) == k % WRAP
  {
    DataNumber(k % WRAP, cfg.blocks[k - 1]);
  }

  /** A DATA datagram is judged by its number, or taken as it comes. */
  lemma JudgedAsData(d: Datagram, port: Port, count: uint16)
    requires Opcode(d) == DATA
    ensures R.ServerJudge(Packet(d, port), count) == if BlockNumber(d) == count then R.Accepted else R.Rejected
    ensures R.ClientJudge(Packet(d, port)) == R.Accepted
  {
  }

  lemma DataJudged(cfg: M.Config, k: nat, count: uint16, port: Port)
    requires cfg.Valid() && 1 <= k <= |cfg.blocks|
    ensures var d := cfg.Packet(k);
      && R.ServerJudge(Packet(d, port), count) == (if k % WRAP == count then R.Accepted else R.Rejected)
      && R.ClientJudge(Packet(d, port)) == R.Accepted
      && Payload(d) == cfg.blocks[k - 1] && |d| == 4 + |cfg.blocks[k - 1]|
  {
    DataRead(cfg, k);
    JudgedAsData(cfg.Packet(k), port, count);
    DataRoundTrip(k % WRAP, cfg.blocks[k - 1]);
  }

  /** Any block that bears the number waited for is written. */
  lemma NumberTaken(cfg: M.Config, w: Window, s: R.Receiver, k: nat)
    requires cfg.Valid() && R.Ok(s) && s.phase == R.Receiving && !s.flag && s.datasize == cfg.d
    requires 1 <= k <= |cfg.blocks| && k % WRAP == s.Count()
    ensures var t := R.ServerStep(w, s, Packet(cfg.Packet(k))).0;
      && t.written == s.written + cfg.blocks[k - 1] && t.accepted == s.accepted + 1
      && !t.flag && t.datasize == cfg.d && t.phase == if k < |cfg.blocks| then R.Receiving else R.Done
  {
    DataJudged(cfg, k, s.Count(), TFTP_PORT);
    assert k < |cfg.blocks| ==> |cfg.blocks[k - 1]| == cfg.d;
  }

  lemma FailRepeatsAck(cfg: M.Config, r0: BlockSize, s: R.Receiver)
    requires ReceiverHolds(cfg, r0, s) && s.phase == R.Receiving
    ensures var (t, out) := R.ServerFail(s, false);
      && ReceiverHolds(cfg, r0, t) && t.accepted == s.accepted && t.phase in {R.Receiving, R.Aborted}
      && out == [Ack(s.accepted)]
  {
    var ack: Datagram := s.ackbuf[..4];
    assert [] + [ack] == [ack];
  }

  lemma NextBlockAccepted(cfg: M.Config, r0: BlockSize, s: R.Receiver)
    requires ReceiverHolds(cfg, r0, s) && s.phase == R.Receiving && s.accepted < |cfg.blocks|
    ensures var (t, out) := R.ServerStep(1, s, Packet(cfg.Packet(s.accepted + 1)));
      && ReceiverHolds(cfg, r0, t) && t.accepted == s.accepted + 1 && t.phase in {R.Receiving, R.Done}
      && out == [Ack(t.accepted)]
  {
    DataJudged(cfg, s.accepted + 1, s.Count(), TFTP_PORT);
    FlattenPrefix(cfg.blocks, s.accepted);
  }

  /** What the receiver does with silence, with a stranger, and with the packet of true block k. */
  lemma ReceiverMove(cfg: M.Config, r0: BlockSize, s: R.Receiver, e: Event, k: nat)
    requires ReceiverHolds(cfg, r0, s)
    requires e.Packet? ==> 1 <= k <= |cfg.blocks| && e.d == cfg.Packet(k)
    requires e.Packet? && s.accepted == 0 ==> k == 1
    requires e.Packet? && k % WRAP == s.Count() ==> k == s.accepted + 1
    ensures var (t, out) := R.ServerStep(1, s, e);
      && ReceiverHolds(cfg, r0, t)
      && (if s.phase != R.Receiving || e.Foreign? then t == s && out == []
          else if e.Packet? && k == s.accepted + 1 then
            t.accepted == k && t.phase in {R.Receiving, R.Done} && out == [Ack(k)]
          else t.accepted == s.accepted && t.phase in {R.Receiving, R.Aborted} && out == [Ack(s.accepted)])
  {
    if e.Packet? {
      DataJudged(cfg, k, s.Count(), e.port);
    }
    if s.phase == R.Receiving {
      if e.Packet? && k == s.accepted + 1 {
        NextBlockAccepted(cfg, r0, s);
      } else if !e.Foreign? {
        FailRepeatsAck(cfg, r0, s);
      }
    }
  }

  /** A receiver that is done has the whole file if it goes by the sender's chunk size, or one chunk holds
      the file; else it may have ended with the first block. */
  lemma WholeWhenDone(cfg: M.Config, r0: BlockSize, s: R.Receiver)
    requires ReceiverHolds(cfg, r0, s) && s.phase == R.Done
    requires |Flatten(cfg.blocks)| <= cfg.d || Settled(r0, cfg.blocks) == cfg.d
    ensures s.written == Flatten(cfg.blocks)
  {
    AtMostOneChunk(cfg.blocks, cfg.d);
    assert cfg.blocks[..|cfg.blocks|] == cfg.blocks;
    if s.accepted == 1 {
      SingleBlock(cfg.blocks[..1]);
    }
  }

  lemma ReceiverStarts(cfg: M.Config, r0: BlockSize)
    requires cfg.Valid()
    ensures ReceiverHolds(cfg, r0, R.ServerStart(1, r0).0) && R.ServerStart(1, r0).1 == [Ack(0)]
    ensures R.ServerStart(1, r0).0.accepted == 0
  {
  }
}
