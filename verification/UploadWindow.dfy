/** Uploading over channels that keep the order but lose and repeat, by the window w. At w = 2 a resend
    still cannot do harm, and the transfer is as safe as at w = 1; from w = 3 on, a resend can cut an
    outstanding block to the length of the last one, and the server reports success with a shortened file. */
module UploadWindow {
  import opened Packets
  import opened Chunking
  import opened SlotBuffer
  import opened Budget
  import S = StopAndWait
  import opened F = UploadFifo
  import M = SenderMachine
  import R = ReceiverMachines

  // ---------- w = 2: what is about ----------

  /** The last block before block c whose ACK the client awaits. */
  function Prev(c: nat): nat
    requires c > 0
  {
    (c - 1) - (c - 1) % 2
  }

  ghost predicate Bears(x: Datagram, k: nat) { Opcode(x) == DATA && BlockNumber(x) == k % WRAP }

  ghost predicate Acks(y: Datagram, k: nat) { Opcode(y) == ACK && BlockNumber(y) == k % WRAP }

  /** A datagram under way to the server: a whole packet since the last wait, or anything with the number
      of the block waited for then. */
  ghost predicate Good(cfg: M.Config, c: nat, x: Datagram)
    requires cfg.Valid() && 1 <= c <= |cfg.blocks|
  {
    var p := Prev(c);
    (p > 0 && Bears(x, p)) || x == cfg.Packet(p + 1) || x == cfg.Packet(c)
  }

  ghost predicate DataChannel(cfg: M.Config, c: nat, ch: seq<Datagram>)
    requires cfg.Valid() && 1 <= c <= |cfg.blocks|
  {
    && (forall i :: 0 <= i < |ch| ==> Good(cfg, c, ch[i]))
    && (c % 2 == 0 ==> forall i, j :: 0 <= i <= j < |ch| && ch[i] == cfg.Packet(c) ==> ch[j] == cfg.Packet(c))
  }

  ghost predicate AckChannel(c: nat, ch: seq<Datagram>) {
    && (forall i :: 0 <= i < |ch| ==> Opcode(ch[i]) <= 5)
    && (forall i, j :: 0 <= i <= j < |ch| && Acks(ch[i], c) ==> Acks(ch[j], c))
  }

  /** The server has block c and keeps acknowledging it. */
  ghost predicate Confirmed(c: nat, rcv: R.Receiver) { rcv.accepted == c && (c % 2 == 0 || rcv.phase == R.Done) }

  ghost predicate SenderReady(cfg: M.Config, s: M.Sender) {
    && cfg.Valid() && cfg.w == 2 && cfg.role == M.Client && M.Ok(cfg, s) && SlotsHold(cfg, s.slots, s.cur)
    && (s.phase == M.Waiting ==> s.len == 4 + |cfg.blocks[s.cur - 1]|)
  }

  ghost predicate ReceiverHolds(cfg: M.Config, r0: BlockSize, s: R.Receiver) {
    && cfg.Valid() && R.Ok(s)
    && s.accepted <= |cfg.blocks| && s.written == Flatten(cfg.blocks[..s.accepted])
    && s.len == 4
    && s.ackbuf == (if s.accepted % 2 == 0 || s.phase == R.Done then R.AckBuffer(s.accepted % WRAP) else R.ZeroBuffer())
    && (s.flag ==> s.accepted == 0 && s.datasize == r0)
    && (s.accepted > 0 ==> s.datasize == S.Settled(r0, cfg.blocks))
    && (s.accepted > 0 ==> (s.phase == R.Done <==> |cfg.blocks[s.accepted - 1]| != s.datasize))
    && (s.phase == R.Done ==> s.accepted > 0)
  }

  ghost predicate Channels(t: Transfer, s: System)
    requires t.Valid()
  {
    var c, r := s.snd.cur, s.rcv.accepted;
    && 1 <= c <= |t.cfg.blocks| && Prev(c) <= r <= c
    && DataChannel(t.cfg, c, s.data) && AckChannel(c, s.acks)
    && (c % 2 == 0 && r == c ==> forall i :: 0 <= i < |s.data| ==> s.data[i] == t.cfg.Packet(c))
    && (forall i :: 0 <= i < |s.acks| && Acks(s.acks[i], c) ==> Confirmed(c, s.rcv))
    // a server that has heard of block 2 before block 1 never gets block 1
    && (r == 0 && !s.rcv.flag ==> c == 2 && forall i :: 0 <= i < |s.data| ==> s.data[i] == t.cfg.Packet(2))
  }

  ghost predicate Ring2(t: Transfer, s: System) {
    && t.Valid() && SenderReady(t.cfg, s.snd) && ReceiverHolds(t.cfg, t.r0, s.rcv)
    && (s.snd.phase == M.Handshake <==> s.snd.cur == 0)
    && (s.snd.phase == M.Finished ==> s.rcv.accepted == s.snd.cur)
    && if s.snd.cur == 0 then
         s.rcv.accepted == 0 && s.rcv.flag && s.data == [] && forall i :: 0 <= i < |s.acks| ==> s.acks[i] == S.Ack(0)
       else Channels(t, s)
  }

  // ---------- numbers ----------

  lemma PacketBears(cfg: M.Config, k: nat)
    requires cfg.Valid() && 1 <= k <= |cfg.blocks|
    ensures Bears(cfg.Packet(k), k)
  {
    S.DataRead(cfg, k);
  }

  lemma AckAcks(k: nat)
    ensures Acks(S.Ack(k), k) && Opcode(S.Ack(k)) <= 5
  {
    S.AckRead(k);
  }

  /** Blocks near each other have different numbers. */
  lemma NearDiffer(a: nat, b: nat)
    requires a < b <= a + 3
    ensures a % WRAP != b % WRAP
  {
  }

  // ---------- w = 2: the sender ----------

  lemma NextWait(c: nat, u: nat)
    requires c % 2 == 0 && c < u && PrevWait(M.Client, u, 2) == PrevWait(M.Client, c + 1, 2)
    ensures Prev(u) == c
  {
    ClientOutstanding(u, 2);
    ClientOutstanding(c + 1, 2);
  }

  /** A burst from block c goes to the next even block, or to the last. */
  lemma NextBurst(cfg: M.Config, s: M.Sender)
    requires SenderReady(cfg, s) && s.cur < |cfg.blocks| && s.cur % 2 == 0
    ensures var (u, out) := M.Burst(cfg, s);
      && SenderReady(cfg, u) && u.phase == M.Waiting
      && s.cur < u.cur <= |cfg.blocks| && Prev(u.cur) == s.cur && out == PacketRange(cfg, s.cur + 1, u.cur)
  {
    BurstFacts(cfg, s);
    NextWait(s.cur, M.Burst(cfg, s).0.cur);
  }

  /** Every packet since the last wait is of block c, or of the block before it at an even c. */
  lemma RangeGood(cfg: M.Config, c: nat)
    requires cfg.Valid() && 1 <= c <= |cfg.blocks|
    ensures DataChannel(cfg, c, PacketRange(cfg, Prev(c) + 1, c))
  {
    var ch := PacketRange(cfg, Prev(c) + 1, c);
    forall i | 0 <= i < |ch| ensures Good(cfg, c, ch[i]) {
      assert ch[i] == cfg.Packet(Prev(c) + 1 + i);
      PrevNear(c);
    }
  }

  lemma PrevNear(c: nat)
    requires c > 0
    ensures c - 2 <= Prev(c) < c && (c % 2 == 1 ==> Prev(c) == c - 1)
  {
  }

  /** The head of a packet says which block it is of. */
  lemma HeadBears(cfg: M.Config, k: nat, slot: seq<byte>, len: nat)
    requires cfg.Valid() && 1 <= k <= |cfg.blocks| && 4 <= len <= MAX_DATA_SIZE + 4 && len <= |slot|
    requires cfg.Packet(k) <= slot
    ensures Bears(slot[..len], k)
  {
    PacketBears(cfg, k);
    var d, x := cfg.Packet(k), slot[..len];
    assert forall i :: 0 <= i < 4 ==> x[i] == slot[i] == d[i];
  }

  /** A resend: only block c at an even c, and else, before it, something with the number of the block before. */
  lemma ResendGood(cfg: M.Config, s: M.Sender)
    requires SenderReady(cfg, s) && s.phase == M.Waiting
    ensures var out := M.Resend(cfg, s);
      && (forall i :: 0 <= i < |out| ==> Good(cfg, s.cur, out[i]))
      && (s.cur % 2 == 0 ==> out == [cfg.Packet(s.cur)])
  {
    SlotOfTwo(s.cur);
    CurrentResent(cfg, s);
    if M.SlotIndex(s.Count(), 2) == 1 {
      BeforeResent(cfg, s);
    }
  }

  lemma SlotBefore(cfg: M.Config, s: M.Sender)
    requires SenderReady(cfg, s) && s.phase == M.Waiting && M.SlotIndex(s.Count(), 2) == 1
    ensures s.cur >= 2 && cfg.Packet(s.cur - 1) <= s.slots[0]
  {
  }

  lemma BeforeResent(cfg: M.Config, s: M.Sender)
    requires SenderReady(cfg, s) && s.phase == M.Waiting && M.SlotIndex(s.Count(), 2) == 1 && s.cur % 2 == 1
    ensures |M.Resend(cfg, s)| == 2 && Good(cfg, s.cur, M.Resend(cfg, s)[0])
  {
    SlotBefore(cfg, s);
    HeadBears(cfg, s.cur - 1, s.slots[0], s.len);
    BearsGood(cfg, s.cur, s.slots[0][..s.len]);
  }

  lemma BearsGood(cfg: M.Config, c: nat, x: Datagram)
    requires cfg.Valid() && 2 <= c <= |cfg.blocks| && c % 2 == 1 && Bears(x, c - 1)
    ensures Good(cfg, c, x)
  {
    PrevNear(c);
  }

  lemma CurrentResent(cfg: M.Config, s: M.Sender)
    requires SenderReady(cfg, s) && s.phase == M.Waiting
    ensures var b := M.SlotIndex(s.Count(), 2); 0 <= b < |M.Resend(cfg, s)| && M.Resend(cfg, s)[b] == cfg.Packet(s.cur)
  {
    var b := M.SlotIndex(s.Count(), 2);
    assert cfg.Packet(s.cur) <= s.slots[b];
    assert |cfg.Packet(s.cur)| == s.len;
  }

  lemma FailedTry(cfg: M.Config, s: M.Sender, e: Event)
    requires SenderReady(cfg, s) && s.phase == M.Waiting && M.Judge(e, s.Count()) == M.Rejected
    ensures var (u, out) := M.Step(cfg, s, e);
      && SenderReady(cfg, u) && u.cur == s.cur && u.phase in {M.Waiting, M.Aborted}
      && (forall i :: 0 <= i < |out| ==> Good(cfg, s.cur, out[i]))
      && (s.cur % 2 == 0 ==> out == [cfg.Packet(s.cur)])
  {
    ResendGood(cfg, s);
    var out := M.Resend(cfg, s);
    assert [] + out == out;
  }

  lemma AcceptedTry(cfg: M.Config, s: M.Sender, y: Datagram, port: Port)
    requires SenderReady(cfg, s) && s.phase == M.Waiting && Acks(y, s.cur) && |cfg.blocks[s.cur - 1]| == cfg.d
    ensures s.cur % 2 == 0 && s.cur < |cfg.blocks|
    ensures var (u, out) := M.Step(cfg, s, Packet(y, port));
      && SenderReady(cfg, u) && u.phase == M.Waiting
      && s.cur < u.cur <= |cfg.blocks| && Prev(u.cur) == s.cur && out == PacketRange(cfg, s.cur + 1, u.cur)
  {
    assert s.cur < |cfg.blocks|;
    ClientAwaits(s.cur, 2);
    assert M.Step(cfg, s, Packet(y, port)) == M.Burst(cfg, s);
    NextBurst(cfg, s);
  }

  lemma HandshakeBursts(cfg: M.Config, s: M.Sender, e: Event)
    requires SenderReady(cfg, s) && s.phase == M.Handshake && !e.Foreign? && (e.Packet? ==> Opcode(e.d) <= 5)
    ensures s.cur == 0 < |cfg.blocks| && M.Step(cfg, s, e) == M.Burst(cfg, s.(port := Heard(s.port, e)))
  {
  }

  lemma FirstBurst(cfg: M.Config, s: M.Sender)
    requires SenderReady(cfg, s) && s.cur == 0 < |cfg.blocks|
    ensures var (u, out) := M.Burst(cfg, s);
      && SenderReady(cfg, u) && u.phase == M.Waiting && 1 <= u.cur <= 2 && u.cur <= |cfg.blocks|
      && DataChannel(cfg, u.cur, out)
  {
    NextBurst(cfg, s);
    RangeGood(cfg, M.Burst(cfg, s).0.cur);
  }

  // ---------- w = 2: every happening keeps the invariant ----------

  lemma BeginKeeps(t: Transfer, s: System, e: Event)
    requires Ring2(t, s) && s.snd.cur == 0 && !e.Foreign? && (e.Packet? ==> Opcode(e.d) <= 5)
    ensures Ring2(t, Senders(t, s, e))
  {
    HandshakeBursts(t.cfg, s.snd, e);
    FirstBurst(t.cfg, s.snd.(port := Heard(s.snd.port, e)));
    var (u, out) := M.Step(t.cfg, s.snd, e);
    assert s.data + out == out && s.data + [] == [];
    FirstAcks(s.acks, u.cur);
  }

  lemma FirstAcks(acks: seq<Datagram>, c: nat)
    requires 1 <= c <= 2 && forall i :: 0 <= i < |acks| ==> acks[i] == S.Ack(0)
    ensures AckChannel(c, acks) && forall i :: 0 <= i < |acks| ==> !Acks(acks[i], c)
  {
    AckAcks(0);
    NearDiffer(0, c);
  }

  /** Sent again into a channel that fits, a resend fits. */
  lemma ResentData(cfg: M.Config, c: nat, data: seq<Datagram>, out: seq<Datagram>)
    requires cfg.Valid() && 1 <= c <= |cfg.blocks| && DataChannel(cfg, c, data)
    requires forall i :: 0 <= i < |out| ==> Good(cfg, c, out[i])
    requires c % 2 == 0 ==> out == [cfg.Packet(c)]
    ensures DataChannel(cfg, c, data + out) && data + [] == data
  {
  }

  lemma FailKeeps(t: Transfer, s: System, e: Event)
    requires Ring2(t, s) && s.snd.phase == M.Waiting && M.Judge(e, s.snd.Count()) == M.Rejected
    ensures Ring2(t, Senders(t, s, e))
  {
    FailedTry(t.cfg, s.snd, e);
    var (u, out) := M.Step(t.cfg, s.snd, e);
    ResentData(t.cfg, s.snd.cur, s.data, out);
    MoreData(t, s, Senders(t, s, e), Delivered(t, u, out));
  }

  /** Datagrams sent again while block c waits for its ACK leave what is known of the channels. */
  lemma MoreData(t: Transfer, s: System, s': System, out: seq<Datagram>)
    requires t.Valid() && s.snd.cur > 0 && Channels(t, s) && DataChannel(t.cfg, s.snd.cur, s.data + out)
    requires s'.snd.cur == s.snd.cur && s'.rcv == s.rcv && s'.acks == s.acks && s'.data == s.data + out
    requires s.snd.cur % 2 == 0 ==> out == [] || out == [t.cfg.Packet(s.snd.cur)]
    ensures Channels(t, s')
  {
  }

  lemma NextKeeps(t: Transfer, s: System)
    requires Ring2(t, s) && s.snd.phase == M.Waiting && s.acks != [] && Acks(s.acks[0], s.snd.cur)
    requires |t.cfg.blocks[s.snd.cur - 1]| == t.cfg.d
    ensures Ring2(t, Apply(t, s, AckArrives))
  {
    var c := s.snd.cur;
    AcceptedTry(t.cfg, s.snd, s.acks[0], t.port);
    var (u, out) := M.Step(t.cfg, s.snd, Packet(s.acks[0], t.port));
    NextData(t, s.data, out, c, u.cur);
    LaterAcks(s.acks, c, u.cur);
  }

  /** All that is left acknowledges block c, and so no block after it. */
  lemma LaterAcks(acks: seq<Datagram>, c: nat, c': nat)
    requires AckChannel(c, acks) && acks != [] && Acks(acks[0], c) && c < c' <= c + 2
    ensures AckChannel(c', acks[1..]) && forall i :: 0 <= i < |acks[1..]| ==> !Acks(acks[1..][i], c')
  {
    NearDiffer(c, c');
    assert forall i :: 0 <= i < |acks| ==> Acks(acks[i], c);
  }

  /** Only block c was under way, and now the blocks after it are. */
  lemma NextData(t: Transfer, data: seq<Datagram>, out: seq<Datagram>, c: nat, c': nat)
    requires t.Valid() && 1 <= c < c' <= |t.cfg.blocks| && Prev(c') == c && out == PacketRange(t.cfg, c + 1, c')
    requires forall i :: 0 <= i < |data| ==> data[i] == t.cfg.Packet(c)
    ensures DataChannel(t.cfg, c', data + out) && DataChannel(t.cfg, c', data + [])
  {
    RangeGood(t.cfg, c');
    PacketBears(t.cfg, c);
    PacketBears(t.cfg, c');
    NearDiffer(c, c');
  }

  lemma FinishKeeps(t: Transfer, s: System)
    requires Ring2(t, s) && s.snd.phase == M.Waiting && s.acks != [] && Acks(s.acks[0], s.snd.cur)
    requires |t.cfg.blocks[s.snd.cur - 1]| != t.cfg.d
    ensures Ring2(t, Apply(t, s, AckArrives))
  {
    assert s.data + [] == s.data;
  }

  lemma AckKeeps(t: Transfer, s: System)
    requires Ring2(t, s) && s.acks != []
    ensures Ring2(t, Apply(t, s, AckArrives))
  {
    var y, s' := s.acks[0], s.(acks := s.acks[1..]);
    assert Ring2(t, s');
    AckAcks(0);
    if s.snd.cur == 0 {
      BeginKeeps(t, s', Packet(y, t.port));
    } else if s.snd.phase != M.Waiting {
      assert s.data + [] == s.data;
    } else if !Acks(y, s.snd.cur) {
      FailKeeps(t, s', Packet(y, t.port));
    } else if |t.cfg.blocks[s.snd.cur - 1]| == t.cfg.d {
      NextKeeps(t, s);
    } else {
      FinishKeeps(t, s);
    }
  }

  lemma SenderKeeps(t: Transfer, s: System, e: Event)
    requires Ring2(t, s) && !e.Packet?
    ensures Ring2(t, Senders(t, s, e))
  {
    if e == Timeout && s.snd.cur == 0 {
      BeginKeeps(t, s, e);
    } else if e == Timeout && s.snd.phase == M.Waiting {
      FailKeeps(t, s, e);
    } else {
      assert s.data + [] == s.data;
    }
  }

  /** What a failed try of the server sends acknowledges block c only if the server has it for good. */
  lemma RepeatHonest(cfg: M.Config, r0: BlockSize, s: R.Receiver, c: nat)
    requires ReceiverHolds(cfg, r0, s) && c <= s.accepted + 2 && s.accepted <= c
    ensures var y: Datagram := s.ackbuf[..s.len];
      Opcode(y) <= 5 && (Acks(y, c) <==> Confirmed(c, s))
  {
    var y: Datagram := s.ackbuf[..s.len];
    if s.accepted % 2 == 0 || s.phase == R.Done {
      AckAcks(s.accepted);
      assert y == S.Ack(s.accepted);
      if s.accepted < c {
        NearDiffer(s.accepted, c);
      }
    } else {
      assert y == [0, 0, 0, 0];
    }
  }

  lemma MissedTry(cfg: M.Config, r0: BlockSize, s: R.Receiver, e: Event)
    requires ReceiverHolds(cfg, r0, s) && s.phase == R.Receiving && R.ServerJudge(e, s.Count()) == R.Rejected
    ensures var (rcv, out) := R.ServerStep(2, s, e);
      && ReceiverHolds(cfg, r0, rcv) && rcv.accepted == s.accepted && rcv.phase in {R.Receiving, R.Aborted}
      && rcv.flag == (s.flag && !e.Packet?) && out == [s.ackbuf[..s.len]]
  {
    var y: Datagram := s.ackbuf[..s.len];
    assert [] + [y] == [y];
  }

  /** A try that fails: silence, or a packet that does not bear the number waited for. */
  lemma MissKeeps(t: Transfer, s: System, e: Event)
    requires Ring2(t, s) && s.rcv.phase == R.Receiving && R.ServerJudge(e, s.rcv.Count()) == R.Rejected
    requires e.Packet? && s.rcv.accepted == 0 ==>
      s.snd.cur == 2 && forall i :: 0 <= i < |s.data| ==> s.data[i] == t.cfg.Packet(2)
    ensures Ring2(t, Receivers(t, s, e))
  {
    var y: Datagram := s.rcv.ackbuf[..s.rcv.len];
    MissedTry(t.cfg, t.r0, s.rcv, e);
    var s' := Receivers(t, s, e);
    assert s'.acks == s.acks + [y] && s' == s.(rcv := s'.rcv, acks := s'.acks, allAcks := s'.allAcks);
    if s.snd.cur == 0 {
      assert y == S.Ack(0);
    } else {
      RepeatHonest(t.cfg, t.r0, s.rcv, s.snd.cur);
      RepeatedAcks(s.snd.cur, s.acks, y, Confirmed(s.snd.cur, s.rcv));
    }
  }

  lemma RepeatedAcks(c: nat, acks: seq<Datagram>, y: Datagram, confirmed: bool)
    requires AckChannel(c, acks) && Opcode(y) <= 5 && (Acks(y, c) <==> confirmed)
    requires forall i :: 0 <= i < |acks| && Acks(acks[i], c) ==> confirmed
    ensures AckChannel(c, acks + [y]) && forall i :: 0 <= i < |acks + [y]| && Acks((acks + [y])[i], c) ==> confirmed
  {
  }

  /** The head of the server's loop at w = 2. */
  lemma LoopHead(s: R.Receiver, n: nat)
    requires R.Ok(s) && s.len == 4 && s.accepted > 0
    ensures var last := n != s.datasize + 4;
      var acks := s.accepted % 2 == 0 || last;
      R.ServerLoopHead(2, s, n)
      == (s.(phase := if last then R.Done else R.Receiving, j := 0, len := 4,
             ackbuf := if acks then R.AckBuffer(s.accepted % WRAP) else R.ZeroBuffer()),
          if acks then [S.Ack(s.accepted)] else [])
  {
    assert s.accepted % WRAP % 2 == s.accepted % 2;
  }

  lemma BlockTaken(cfg: M.Config, r0: BlockSize, s: R.Receiver)
    requires ReceiverHolds(cfg, r0, s) && s.phase == R.Receiving && s.accepted < |cfg.blocks|
    requires s.accepted == 0 ==> s.flag
    ensures var k := s.accepted + 1;
      var (rcv, out) := R.ServerStep(2, s, Packet(cfg.Packet(k)));
      && ReceiverHolds(cfg, r0, rcv) && rcv.accepted == k && !rcv.flag
      && out == if k % 2 == 0 || rcv.phase == R.Done then [S.Ack(k)] else []
  {
    var k, d := s.accepted + 1, cfg.Packet(s.accepted + 1);
    S.DataJudged(cfg, k, s.Count(), TFTP_PORT);
    FlattenPrefix(cfg.blocks, s.accepted);
    var datasize := if s.flag then R.ServerAdapts(r0, |d|) else s.datasize;
    assert datasize == S.Settled(r0, cfg.blocks);
    var t := s.(flag := false, datasize := datasize, accepted := k, written := s.written + cfg.blocks[k - 1]);
    assert R.ServerStep(2, s, Packet(d)) == R.ServerLoopHead(2, t, |d|);
    LoopHead(t, |d|);
  }

  /** The ACKs once block k is taken. */
  lemma TakenAcks(c: nat, k: nat, acks: seq<Datagram>, out: seq<Datagram>)
    requires AckChannel(c, acks) && k <= c <= k + 1 && (forall i :: 0 <= i < |acks| ==> !Acks(acks[i], c))
    requires out == [] || out == [S.Ack(k)]
    ensures AckChannel(c, acks + out)
    ensures out == [] || k < c ==> forall i :: 0 <= i < |acks + out| ==> !Acks((acks + out)[i], c)
  {
    AckAcks(k);
    if k < c {
      NearDiffer(k, c);
    }
  }

  ghost predicate AllAre(ch: seq<Datagram>, x: Datagram) { forall i :: 0 <= i < |ch| ==> ch[i] == x }

  lemma TakeKeeps(t: Transfer, s: System)
    requires Ring2(t, s) && s.rcv.phase == R.Receiving && s.rcv.accepted < s.snd.cur
    requires s.rcv.accepted == 0 ==> s.rcv.flag
    requires s.rcv.accepted + 1 == s.snd.cur && s.snd.cur % 2 == 0 ==> AllAre(s.data, t.cfg.Packet(s.snd.cur))
    ensures Ring2(t, Receivers(t, s, Packet(t.cfg.Packet(s.rcv.accepted + 1))))
  {
    var k, c := s.rcv.accepted + 1, s.snd.cur;
    BlockTaken(t.cfg, t.r0, s.rcv);
    var (rcv, out) := R.ServerStep(2, s.rcv, Packet(t.cfg.Packet(k)));
    TakenAcks(c, k, s.acks, out);
    var s' := s.(rcv := rcv, acks := s.acks + out, allAcks := s.allAcks + out);
    assert Channels(t, s');
  }

  lemma DataDropped(t: Transfer, s: System)
    requires Ring2(t, s) && s.data != []
    ensures Ring2(t, s.(data := s.data[1..]))
  {
  }

  lemma DoneKeeps(t: Transfer, s: System, e: Event)
    requires Ring2(t, s) && s.rcv.phase != R.Receiving
    ensures Ring2(t, Receivers(t, s, e))
  {
    assert s.acks + [] == s.acks;
  }

  /** The first datagram under way is the block the server waits for, and the server will look for it. */
  ghost predicate Awaited(t: Transfer, s: System)
    requires Ring2(t, s) && s.data != []
  {
    s.rcv.accepted < s.snd.cur && s.data[0] == t.cfg.Packet(s.rcv.accepted + 1) && (s.rcv.accepted == 0 ==> s.rcv.flag)
  }

  /** Behind the second block of a window only that block is under way. */
  lemma OnlyLastBehind(t: Transfer, s: System)
    requires Ring2(t, s) && s.data != [] && Awaited(t, s)
    ensures s.rcv.accepted + 1 == s.snd.cur && s.snd.cur % 2 == 0 ==> AllAre(s.data[1..], t.cfg.Packet(s.snd.cur))
  {
    assert DataChannel(t.cfg, s.snd.cur, s.data);
  }

  /** The block waited for arrives. */
  lemma NextDataKeeps(t: Transfer, s: System)
    requires Ring2(t, s) && s.data != [] && s.rcv.phase == R.Receiving && Awaited(t, s)
    ensures Ring2(t, Receivers(t, s.(data := s.data[1..]), Packet(s.data[0])))
  {
    DataDropped(t, s);
    OnlyLastBehind(t, s);
    TakeKeeps(t, s.(data := s.data[1..]));
  }

  lemma OtherDataKeeps(t: Transfer, s: System)
    requires Ring2(t, s) && s.data != [] && s.rcv.phase == R.Receiving && !Awaited(t, s)
    ensures Ring2(t, Receivers(t, s.(data := s.data[1..]), Packet(s.data[0])))
  {
    DataDropped(t, s);
    OthersRejected(t, s);
    MissKeeps(t, s.(data := s.data[1..]), Packet(s.data[0]));
  }

  lemma DataKeeps(t: Transfer, s: System)
    requires Ring2(t, s) && s.data != []
    ensures Ring2(t, Apply(t, s, DataArrives))
  {
    if s.rcv.phase != R.Receiving {
      DataDropped(t, s);
      DoneKeeps(t, s.(data := s.data[1..]), Packet(s.data[0]));
    } else if Awaited(t, s) {
      NextDataKeeps(t, s);
    } else {
      OtherDataKeeps(t, s);
    }
  }

  /** The block whose number a datagram under way bears. */
  lemma WhichBlock(cfg: M.Config, c: nat, x: Datagram) returns (k: nat)
    requires cfg.Valid() && 1 <= c <= |cfg.blocks| && Good(cfg, c, x)
    ensures Prev(c) <= k <= c && k > 0 && Bears(x, k) && (k > Prev(c) ==> x == cfg.Packet(k))
  {
    var p := Prev(c);
    PacketBears(cfg, c);
    PacketBears(cfg, p + 1);
    k := if p > 0 && Bears(x, p) then p else if x == cfg.Packet(p + 1) then p + 1 else c;
  }

  lemma NotAwaited(x: Datagram, k: nat, rcv: R.Receiver)
    requires Bears(x, k) && k != rcv.accepted + 1 && k <= rcv.accepted + 2 && rcv.accepted <= k + 2
    ensures R.ServerJudge(Packet(x), rcv.Count()) == R.Rejected
  {
    if k < rcv.accepted + 1 { NearDiffer(k, rcv.accepted + 1); } else { NearDiffer(rcv.accepted + 1, k); }
  }

  /** Nothing else under way bears the number waited for. */
  lemma OthersRejected(t: Transfer, s: System)
    requires Ring2(t, s) && s.data != [] && s.rcv.phase == R.Receiving
    requires !Awaited(t, s)
    ensures R.ServerJudge(Packet(s.data[0]), s.rcv.Count()) == R.Rejected
    ensures s.rcv.accepted == 0 ==> s.snd.cur == 2 && forall i :: 0 <= i < |s.data| ==> s.data[i] == t.cfg.Packet(2)
  {
    assert Good(t.cfg, s.snd.cur, s.data[0]);
    var k := WhichBlock(t.cfg, s.snd.cur, s.data[0]);
    if k == s.rcv.accepted + 1 {
      assert s.rcv.accepted == 0 && !s.rcv.flag;
      PacketBears(t.cfg, 2);
      assert false;
    }
    NotAwaited(s.data[0], k, s.rcv);
  }

  lemma ReceiverKeeps(t: Transfer, s: System, e: Event)
    requires Ring2(t, s) && !e.Packet?
    ensures Ring2(t, Receivers(t, s, e))
  {
    if e == Timeout && s.rcv.phase == R.Receiving {
      MissKeeps(t, s, e);
    } else {
      assert s.acks + [] == s.acks;
    }
  }

  /** y is x, or comes later in the channel. */
  ghost predicate Follows(x: Datagram, y: Datagram, ch: seq<Datagram>) {
    exists i, j :: 0 <= i <= j < |ch| && x == ch[i] && y == ch[j]
  }

  /** What a channel holds after dropping or repeating comes from what it held, in the same order. */
  ghost predicate Drawn(ch: seq<Datagram>, from: seq<Datagram>) {
    forall i, j :: 0 <= i <= j < |ch| ==> Follows(ch[i], ch[j], from)
  }

  lemma LoseDrawn(ch: seq<Datagram>, n: nat)
    ensures Drawn(Lose(ch, n), ch)
  {
    var c := Lose(ch, n);
    forall i, j | 0 <= i <= j < |c| ensures Follows(c[i], c[j], ch) {
      var i', j' := if n < |ch| && i >= n then i + 1 else i, if n < |ch| && j >= n then j + 1 else j;
      assert c[i] == ch[i'] && c[j] == ch[j'];
    }
  }

  lemma RepeatDrawn(ch: seq<Datagram>, n: nat)
    ensures Drawn(Repeat(ch, n), ch)
  {
    var c := Repeat(ch, n);
    forall i, j | 0 <= i <= j < |c| ensures Follows(c[i], c[j], ch) {
      var i', j' := if n < |ch| && i > n then i - 1 else i, if n < |ch| && j > n then j - 1 else j;
      assert c[i] == ch[i'] && c[j] == ch[j'];
    }
  }

  lemma DrawnAcks(c: nat, ch: seq<Datagram>, from: seq<Datagram>)
    requires AckChannel(c, from) && Drawn(ch, from)
    ensures AckChannel(c, ch) && forall i :: 0 <= i < |ch| ==> ch[i] in from
  {
    forall i | 0 <= i < |ch| ensures ch[i] in from {
      assert Follows(ch[i], ch[i], from);
    }
    forall i, j | 0 <= i <= j < |ch| && Acks(ch[i], c) ensures Acks(ch[j], c) {
      assert Follows(ch[i], ch[j], from);
    }
  }

  lemma DrawnData(cfg: M.Config, c: nat, ch: seq<Datagram>, from: seq<Datagram>)
    requires cfg.Valid() && 1 <= c <= |cfg.blocks| && DataChannel(cfg, c, from) && Drawn(ch, from)
    ensures DataChannel(cfg, c, ch) && forall i :: 0 <= i < |ch| ==> ch[i] in from
  {
    forall i | 0 <= i < |ch| ensures ch[i] in from {
      assert Follows(ch[i], ch[i], from);
    }
    forall i, j | 0 <= i <= j < |ch| && c % 2 == 0 && ch[i] == cfg.Packet(c) ensures ch[j] == cfg.Packet(c) {
      assert Follows(ch[i], ch[j], from);
    }
  }

  lemma AcksDrawnKeep(t: Transfer, s: System, ch: seq<Datagram>)
    requires Ring2(t, s) && Drawn(ch, s.acks)
    ensures Ring2(t, s.(acks := ch))
  {
    if s.snd.cur > 0 {
      DrawnAcks(s.snd.cur, ch, s.acks);
    } else {
      forall i | 0 <= i < |ch| ensures ch[i] == S.Ack(0) {
        assert Follows(ch[i], ch[i], s.acks);
      }
    }
  }

  lemma DataDrawnKeep(t: Transfer, s: System, ch: seq<Datagram>)
    requires Ring2(t, s) && Drawn(ch, s.data) && s.snd.cur > 0
    ensures Ring2(t, s.(data := ch))
  {
    DrawnData(t.cfg, s.snd.cur, ch, s.data);
  }

  lemma ChannelsKeep(t: Transfer, s: System, h: Happening)
    requires Ring2(t, s) && (h.AckLost? || h.DataLost? || h.AckRepeated? || h.DataRepeated?)
    ensures Ring2(t, Apply(t, s, h))
  {
    match h
    case AckLost(i) => LoseDrawn(s.acks, i); AcksDrawnKeep(t, s, Lose(s.acks, i));
    case DataLost(i) => LoseDrawn(s.data, i); if s.snd.cur > 0 { DataDrawnKeep(t, s, Lose(s.data, i)); }
    case AckRepeated(i) => RepeatDrawn(s.acks, i); AcksDrawnKeep(t, s, Repeat(s.acks, i));
    case DataRepeated(i) => RepeatDrawn(s.data, i); if s.snd.cur > 0 { DataDrawnKeep(t, s, Repeat(s.data, i)); }
  }

  lemma {:induction false} Ring2Holds(t: Transfer, history: seq<Happening>)
    requires t.Valid() && t.cfg.w == 2
    ensures Ring2(t, After(t, history))
  {
    if history != [] {
      var s, h := After(t, history[..|history| - 1]), history[|history| - 1];
      Ring2Holds(t, history[..|history| - 1]);
      match h
      case SenderHears(e) => if !e.Packet? { SenderKeeps(t, s, e); }
      case ReceiverHears(e) => if !e.Packet? { ReceiverKeeps(t, s, e); }
      case AckArrives => if s.acks != [] { AckKeeps(t, s); }
      case DataArrives => if s.data != [] { DataKeeps(t, s); }
      case _ => ChannelsKeep(t, s, h);
    }
  }

}
