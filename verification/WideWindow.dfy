/** Uploading at windows from 3 on over channels that keep the order but lose and repeat. Resends of full blocks
    are whole packets. Only at the last wait can a resend cut blocks, to the length of the last one; that does
    harm exactly if it can cut a block the server may still wait for. */
module WideWindow {
  import opened Packets
  import opened Chunking
  import opened SlotBuffer
  import opened Budget
  import opened UploadWindow
  import S = StopAndWait
  import opened F = UploadFifo
  import M = SenderMachine
  import R = ReceiverMachines

  // ---------- what is about ----------

  /** The last block before block c whose ACK the client awaits. */
  function WaitBefore(t: Transfer, c: nat): nat { PrevWait(M.Client, c, t.cfg.w) }

  /** The server goes by another chunk size and ends with the first of several blocks. */
  ghost predicate EndsEarly(t: Transfer)
    requires t.Valid()
  {
    |t.cfg.blocks| > 1 && S.Settled(t.r0, t.cfg.blocks) != t.cfg.d
  }

  /** At the last wait at most two blocks are outstanding; or the server has ended by then. */
  ghost predicate NoHarmfulCut(t: Transfer)
    requires t.Valid()
  {
    (|t.cfg.blocks| - 1) % t.cfg.w < 2 || S.Settled(t.r0, t.cfg.blocks) != t.cfg.d
  }

  /** A datagram under way to the server: a packet sent so far, whole unless the server is past that block. */
  ghost predicate Stems(t: Transfer, c: nat, x: Datagram)
    requires t.Valid() && c <= |t.cfg.blocks|
  {
    var k := BlockNumber(x);
    && Opcode(x) == DATA && 1 <= k <= c
    && (x == t.cfg.Packet(k) || k <= WaitBefore(t, c) || (k >= 2 && EndsEarly(t)))
  }

  /** Until block 1 is taken its copies are in front, and once another block has been heard they are gone. */
  ghost predicate FirstInFront(t: Transfer, rcv: R.Receiver, data: seq<Datagram>)
    requires t.Valid()
  {
    rcv.accepted == 0 ==>
      forall i, j :: 0 <= i <= j < |data| && BlockNumber(data[j]) == 1 ==> rcv.flag && data[i] == t.cfg.Packet(1)
  }

  /** What the server sends: zeros, or the ACK of a block it has. */
  ghost predicate AckStems(r: nat, y: Datagram) { Opcode(y) == 0 || (Opcode(y) == ACK && BlockNumber(y) <= r) }

  ghost predicate AllAckStem(r: nat, acks: seq<Datagram>) { forall i :: 0 <= i < |acks| ==> AckStems(r, acks[i]) }

  ghost predicate AllStem(t: Transfer, c: nat, data: seq<Datagram>)
    requires t.Valid() && c <= |t.cfg.blocks|
  {
    forall i :: 0 <= i < |data| ==> Stems(t, c, data[i])
  }

  ghost predicate WideReady(t: Transfer, s: M.Sender) {
    && t.Valid() && t.cfg.w >= 3 && M.Ok(t.cfg, s) && SlotsHold(t.cfg, s.slots, s.cur)
    && (s.phase == M.Waiting ==> s.len == 4 + |t.cfg.blocks[s.cur - 1]|)
  }

  ghost predicate WideHolds(t: Transfer, s: R.Receiver) {
    && t.Valid() && R.Ok(s)
    && s.accepted <= |t.cfg.blocks| && s.written == Flatten(t.cfg.blocks[..s.accepted])
    && s.len == 4 && AckStems(s.accepted, s.ackbuf[..4])
    && (s.flag ==> s.accepted == 0 && s.datasize == t.r0)
    && (s.accepted > 0 ==> s.datasize == S.Settled(t.r0, t.cfg.blocks))
    && (s.accepted > 0 ==> (s.phase == R.Done <==> |t.cfg.blocks[s.accepted - 1]| != s.datasize))
    && (s.phase == R.Done ==> s.accepted > 0)
  }

  ghost predicate DataInv(t: Transfer, s: System)
    requires t.Valid()
  {
    var c, r := s.snd.cur, s.rcv.accepted;
    && 1 <= c <= |t.cfg.blocks| && WaitBefore(t, c) <= r <= c
    && AllStem(t, c, s.data) && FirstInFront(t, s.rcv, s.data)
    && (r == 0 && !s.rcv.flag ==> c >= 2)
  }

  ghost predicate Wide(t: Transfer, s: System) {
    && t.Valid() && NoHarmfulCut(t) && WideReady(t, s.snd) && WideHolds(t, s.rcv)
    && (s.snd.phase == M.Handshake <==> s.snd.cur == 0)
    && (s.snd.phase == M.Finished ==> s.rcv.accepted == s.snd.cur)
    && AllAckStem(s.rcv.accepted, s.acks)
    && if s.snd.cur == 0 then s.rcv.accepted == 0 && s.rcv.flag && s.data == [] else DataInv(t, s)
  }

  // ---------- the sender ----------

  lemma PacketStems(t: Transfer, c: nat, k: nat)
    requires t.Valid() && t.cfg.w >= 3 && 1 <= k <= c <= |t.cfg.blocks|
    ensures Stems(t, c, t.cfg.Packet(k)) && BlockNumber(t.cfg.Packet(k)) == k
  {
    PacketBears(t.cfg, k);
  }

  lemma RangeStems(t: Transfer, a: nat, c: nat)
    requires t.Valid() && t.cfg.w >= 3 && 1 <= a <= c <= |t.cfg.blocks|
    ensures var out := PacketRange(t.cfg, a, c);
      AllStem(t, c, out) && forall i :: 0 <= i < |out| ==> BlockNumber(out[i]) == a + i
  {
    var out := PacketRange(t.cfg, a, c);
    forall i | 0 <= i < |out| ensures Stems(t, c, out[i]) && BlockNumber(out[i]) == a + i {
      PacketStems(t, c, a + i);
    }
  }

  /** A burst from a wait, or from the start. */
  lemma WideBurst(t: Transfer, s: M.Sender)
    requires WideReady(t, s) && s.cur < |t.cfg.blocks|
    ensures var (u, out) := M.Burst(t.cfg, s);
      && WideReady(t, u) && u.phase == M.Waiting && s.cur < u.cur <= |t.cfg.blocks| && u.port == s.port
      && out == PacketRange(t.cfg, s.cur + 1, u.cur) && WaitBefore(t, u.cur) == WaitBefore(t, s.cur + 1)
  {
    BurstFacts(t.cfg, s);
  }

  lemma SmallRem(a: nat, w: Window)
    ensures a % w <= a
  {
    QuotientUnique(a, w, a / w);
  }

  /** Which blocks are in the slots at block c. */
  lemma SlotFirst(t: Transfer, c: nat)
    requires t.Valid() && t.cfg.w >= 3 && 1 <= c <= |t.cfg.blocks|
    ensures var b := M.SlotIndex(c % WRAP, t.cfg.w);
      && 0 <= b < c && (c >= 2 ==> b <= c - 2)
      && ((c - 1) % t.cfg.w == 1 ==> b == 0)
  {
    if c >= 2 {
      SlotIs(c, t.cfg.w);
      SmallRem(c - 2, t.cfg.w);
      ModStep(c - 2, c - 1, t.cfg.w);
    } else {
      assert c % WRAP == 1;
    }
  }

  lemma CutHarmless(t: Transfer, k: nat)
    requires t.Valid() && NoHarmfulCut(t) && t.cfg.w >= 3 && 2 <= k < |t.cfg.blocks|
    requires (|t.cfg.blocks| - 1) % t.cfg.w != 1
    ensures k <= WaitBefore(t, |t.cfg.blocks|) || EndsEarly(t)
  {
    ClientOutstanding(|t.cfg.blocks|, t.cfg.w);
  }

  /** The datagram a resend takes from slot i. */
  lemma SlotResent(t: Transfer, s: M.Sender, i: nat)
    requires WideReady(t, s) && NoHarmfulCut(t) && s.phase == M.Waiting && i <= M.SlotIndex(s.Count(), t.cfg.w)
    ensures M.SlotIndex(s.Count(), t.cfg.w) < s.cur
    ensures var x: Datagram := s.slots[i][..s.len];
      Stems(t, s.cur, x) && BlockNumber(x) == s.cur - M.SlotIndex(s.Count(), t.cfg.w) + i
  {
    var c := s.cur;
    var b := M.SlotIndex(s.Count(), t.cfg.w);
    var k := c - b + i;
    SlotFirst(t, c);
    PacketStems(t, c, k);
    HeadBears(t.cfg, k, s.slots[i], s.len);
    if ResendFits(t.cfg, s) {
      FittingResend(t.cfg, s, i);
    } else if k < c {
      assert c == |t.cfg.blocks|;
      CutHarmless(t, k);
    } else {
      assert t.cfg.Packet(c) <= s.slots[i] && |t.cfg.Packet(c)| == s.len;
    }
  }

  lemma WideResend(t: Transfer, s: M.Sender)
    requires WideReady(t, s) && NoHarmfulCut(t) && s.phase == M.Waiting
    ensures var out := M.Resend(t.cfg, s);
      AllStem(t, s.cur, out) && forall i :: 0 <= i < |out| ==> (s.cur >= 2 ==> BlockNumber(out[i]) >= 2)
  {
    var out := M.Resend(t.cfg, s);
    SlotFirst(t, s.cur);
    forall i | 0 <= i < |out| ensures Stems(t, s.cur, out[i]) && (s.cur >= 2 ==> BlockNumber(out[i]) >= 2) {
      SlotResent(t, s, i);
    }
  }

  lemma WideFail(t: Transfer, s: M.Sender, e: Event)
    requires WideReady(t, s) && NoHarmfulCut(t) && s.phase == M.Waiting && M.Judge(e, s.Count()) == M.Rejected
    ensures var (u, out) := M.Step(t.cfg, s, e);
      && WideReady(t, u) && u.cur == s.cur && u.phase in {M.Waiting, M.Aborted}
      && AllStem(t, s.cur, out) && forall i :: 0 <= i < |out| ==> (s.cur >= 2 ==> BlockNumber(out[i]) >= 2)
  {
    WideResend(t, s);
    var out := M.Resend(t.cfg, s);
    assert [] + out == out;
  }

  // ---------- every happening at the sender keeps the invariant ----------

  lemma FirstRange(t: Transfer, rcv: R.Receiver, c: nat)
    requires t.Valid() && t.cfg.w >= 3 && 1 <= c <= |t.cfg.blocks| && rcv.flag
    ensures AllStem(t, c, PacketRange(t.cfg, 1, c)) && FirstInFront(t, rcv, PacketRange(t.cfg, 1, c))
  {
    RangeStems(t, 1, c);
  }

  lemma HandshakeWide(t: Transfer, s: M.Sender, e: Event)
    requires WideReady(t, s) && s.phase == M.Handshake && !e.Foreign? && (e.Packet? ==> Opcode(e.d) <= 5)
    ensures M.Step(t.cfg, s, e) == M.Burst(t.cfg, s.(port := Heard(s.port, e)))
  {
  }

  lemma BeginWide(t: Transfer, s: System, e: Event)
    requires Wide(t, s) && s.snd.cur == 0 && !e.Foreign? && (e.Packet? ==> Opcode(e.d) <= 5)
    ensures Wide(t, Senders(t, s, e))
  {
    var v := s.snd.(port := Heard(s.snd.port, e));
    HandshakeWide(t, s.snd, e);
    WideBurst(t, v);
    var (u, out) := M.Burst(t.cfg, v);
    FirstRange(t, s.rcv, u.cur);
    var s' := Senders(t, s, e);
    assert s'.data == out || s'.data == [];
    assert DataInv(t, s');
  }

  lemma SentAgain(t: Transfer, s: System, s': System, out: seq<Datagram>)
    requires t.Valid() && DataInv(t, s) && AllStem(t, s.snd.cur, out)
    requires s.snd.cur >= 2 ==> forall i :: 0 <= i < |out| ==> BlockNumber(out[i]) >= 2
    requires s'.snd.cur == s.snd.cur && s'.rcv == s.rcv && s'.data == s.data + out
    ensures DataInv(t, s')
  {
    if s.snd.cur == 1 {
      assert forall i :: 0 <= i < |s'.data| ==> Stems(t, 1, s'.data[i]);
    }
  }

  lemma FailWide(t: Transfer, s: System, e: Event)
    requires Wide(t, s) && s.snd.phase == M.Waiting && M.Judge(e, s.snd.Count()) == M.Rejected
    ensures Wide(t, Senders(t, s, e))
  {
    WideFail(t, s.snd, e);
    var (u, out) := M.Step(t.cfg, s.snd, e);
    SentAgain(t, s, Senders(t, s, e), Delivered(t, u, out));
  }

  /** The ACK awaited comes only if the server has the block. */
  lemma AwaitedIsTrue(c: nat, r: nat, y: Datagram, port: Port)
    requires 0 < c < WRAP && AckStems(r, y) && M.Judge(Packet(y, port), c % WRAP) == M.Accepted
    ensures c <= r
  {
    assert BlockNumber(y) == c;
  }

  lemma NextWide(t: Transfer, s: System, y: Datagram)
    requires Wide(t, s) && s.snd.phase == M.Waiting && s.rcv.accepted == s.snd.cur < |t.cfg.blocks|
    requires M.Judge(Packet(y, t.port), s.snd.Count()) == M.Accepted
    ensures Wide(t, Senders(t, s, Packet(y, t.port)))
  {
    var c := s.snd.cur;
    WideBurst(t, s.snd);
    var (u, out) := M.Burst(t.cfg, s.snd);
    assert M.Step(t.cfg, s.snd, Packet(y, t.port)) == (u, out);
    RangeStems(t, c + 1, u.cur);
    OldStem(t, c, u.cur, s.data);
    AllStemAppend(t, u.cur, s.data, out);
  }

  /** Packets up to block c are old ones once block c is acknowledged. */
  lemma OldStem(t: Transfer, c: nat, u: nat, data: seq<Datagram>)
    requires t.Valid() && 1 <= c < u <= |t.cfg.blocks| && AllStem(t, c, data) && c <= WaitBefore(t, u)
    ensures AllStem(t, u, data)
  {
    forall i | 0 <= i < |data| ensures Stems(t, u, data[i]) {
      assert Stems(t, c, data[i]);
    }
  }

  lemma AllStemAppend(t: Transfer, c: nat, data: seq<Datagram>, out: seq<Datagram>)
    requires t.Valid() && c <= |t.cfg.blocks| && AllStem(t, c, data) && AllStem(t, c, out)
    ensures AllStem(t, c, data + out) && data + [] == data
  {
  }

  lemma AckWide(t: Transfer, s: System, y: Datagram)
    requires Wide(t, s) && AckStems(s.rcv.accepted, y)
    ensures Wide(t, Senders(t, s, Packet(y, t.port)))
  {
    var e := Packet(y, t.port);
    if s.snd.cur == 0 {
      BeginWide(t, s, e);
    } else if s.snd.phase != M.Waiting {
      assert s.data + [] == s.data;
    } else if M.Judge(e, s.snd.Count()) == M.Rejected {
      FailWide(t, s, e);
    } else {
      AwaitedIsTrue(s.snd.cur, s.rcv.accepted, y, t.port);
      if s.snd.cur < |t.cfg.blocks| { NextWide(t, s, y); } else { assert s.data + [] == s.data; }
    }
  }

  lemma SenderWide(t: Transfer, s: System, e: Event)
    requires Wide(t, s) && !e.Packet?
    ensures Wide(t, Senders(t, s, e))
  {
    if e == Timeout && s.snd.cur == 0 {
      BeginWide(t, s, e);
    } else if e == Timeout && s.snd.phase == M.Waiting {
      FailWide(t, s, e);
    } else {
      assert s.data + [] == s.data;
    }
  }

  // ---------- every happening at the receiver ----------

  lemma ZerosStem(r: nat)
    ensures AckStems(r, R.ZeroBuffer()[..4])
  {
    assert R.ZeroBuffer()[..4] == [0, 0, 0, 0];
  }

  lemma OwnAckStems(r: nat)
    requires r < WRAP
    ensures AckStems(r, R.AckBuffer(r)[..4])
  {
    AckNumber(r);
  }

  /** The head of the server's loop below 2^16 blocks. */
  lemma WideLoopHead(w: Window, s: R.Receiver, n: nat)
    requires R.Ok(s) && s.len == 4 && 0 < s.accepted < WRAP
    ensures var (u, out) := R.ServerLoopHead(w, s, n);
      && u == s.(phase := u.phase, j := 0, ackbuf := u.ackbuf)
      && u.phase == (if n != s.datasize + 4 then R.Done else R.Receiving)
      && AckStems(s.accepted, u.ackbuf[..4]) && (out == [] || out == [u.ackbuf[..4]])
  {
    var u := R.ServerLoopHead(w, s, n).0;
    assert s.accepted % WRAP == s.accepted;
    if u.ackbuf == R.ZeroBuffer() {
      ZerosStem(s.accepted);
    } else {
      OwnAckStems(s.accepted);
    }
  }

  lemma WideTaken(t: Transfer, s: R.Receiver)
    requires WideHolds(t, s) && t.cfg.w >= 3 && s.phase == R.Receiving && s.accepted < |t.cfg.blocks|
    requires s.accepted == 0 ==> s.flag
    ensures var k := s.accepted + 1;
      var (rcv, out) := R.ServerStep(t.cfg.w, s, Packet(t.cfg.Packet(k)));
      WideHolds(t, rcv) && rcv.accepted == k && !rcv.flag && AllAckStem(k, out)
  {
    var k, d := s.accepted + 1, t.cfg.Packet(s.accepted + 1);
    S.DataJudged(t.cfg, k, s.Count(), TFTP_PORT);
    FlattenPrefix(t.cfg.blocks, s.accepted);
    var datasize := if s.flag then R.ServerAdapts(t.r0, |d|) else s.datasize;
    assert datasize == S.Settled(t.r0, t.cfg.blocks);
    var u := s.(flag := false, datasize := datasize, accepted := k, written := s.written + t.cfg.blocks[k - 1]);
    assert R.ServerStep(t.cfg.w, s, Packet(d)) == R.ServerLoopHead(t.cfg.w, u, |d|);
    WideLoopHead(t.cfg.w, u, |d|);
  }

  lemma WideMissed(t: Transfer, s: R.Receiver, e: Event)
    requires WideHolds(t, s) && s.phase == R.Receiving && R.ServerJudge(e, s.Count()) == R.Rejected
    ensures var (rcv, out) := R.ServerStep(t.cfg.w, s, e);
      && WideHolds(t, rcv) && rcv.accepted == s.accepted && rcv.flag == (s.flag && !e.Packet?)
      && AllAckStem(s.accepted, out)
  {
    var y: Datagram := s.ackbuf[..s.len];
    assert [] + [y] == [y];
  }

  lemma StillStem(r: nat, r': nat, acks: seq<Datagram>, out: seq<Datagram>)
    requires AllAckStem(r, acks) && r <= r' && AllAckStem(r', out)
    ensures AllAckStem(r', acks + out)
  {
  }

  lemma MissWide(t: Transfer, s: System, e: Event)
    requires Wide(t, s) && s.rcv.phase == R.Receiving && R.ServerJudge(e, s.rcv.Count()) == R.Rejected
    requires e.Packet? && s.rcv.accepted == 0 ==>
      s.snd.cur >= 2 && forall i :: 0 <= i < |s.data| ==> BlockNumber(s.data[i]) != 1
    ensures Wide(t, Receivers(t, s, e))
  {
    WideMissed(t, s.rcv, e);
    StillStem(s.rcv.accepted, s.rcv.accepted, s.acks, R.ServerStep(t.cfg.w, s.rcv, e).1);
  }

  lemma TakeWide(t: Transfer, s: System)
    requires Wide(t, s) && s.rcv.phase == R.Receiving && s.rcv.accepted < s.snd.cur
    requires s.rcv.accepted == 0 ==> s.rcv.flag
    ensures Wide(t, Receivers(t, s, Packet(t.cfg.Packet(s.rcv.accepted + 1))))
  {
    var k := s.rcv.accepted + 1;
    WideTaken(t, s.rcv);
    StillStem(k - 1, k, s.acks, R.ServerStep(t.cfg.w, s.rcv, Packet(t.cfg.Packet(k))).1);
  }

  lemma DoneWide(t: Transfer, s: System, e: Event)
    requires Wide(t, s) && s.rcv.phase != R.Receiving
    ensures Wide(t, Receivers(t, s, e))
  {
    assert s.acks + [] == s.acks;
  }

  lemma DroppedWide(t: Transfer, s: System)
    requires Wide(t, s) && s.data != []
    ensures Wide(t, s.(data := s.data[1..]))
  {
  }

  lemma NumberTold(x: Datagram, count: uint16)
    requires Opcode(x) == DATA && R.ServerJudge(Packet(x), count) != R.Rejected
    ensures BlockNumber(x) == count
  {
  }

  /** The block the server waits for comes whole. */
  lemma NumberedIsWhole(t: Transfer, s: System)
    requires Wide(t, s) && s.data != [] && s.rcv.phase == R.Receiving
    requires R.ServerJudge(Packet(s.data[0]), s.rcv.Count()) != R.Rejected
    ensures s.rcv.accepted < s.snd.cur && s.data[0] == t.cfg.Packet(s.rcv.accepted + 1)
    ensures s.rcv.accepted == 0 ==> s.rcv.flag
  {
    var x := s.data[0];
    assert Stems(t, s.snd.cur, x);
    NumberTold(x, s.rcv.Count());
    SmallCount(s.rcv.accepted, BlockNumber(x));
  }

  lemma SmallCount(r: nat, k: nat)
    requires r < WRAP && k > 0 && k == (r + 1) % WRAP
    ensures k == r + 1
  {
  }

  /** Once another block than the first has been heard, the first is not about any more. */
  lemma FirstGone(t: Transfer, s: System)
    requires Wide(t, s) && s.data != [] && s.rcv.phase == R.Receiving && s.rcv.accepted == 0
    requires R.ServerJudge(Packet(s.data[0]), s.rcv.Count()) == R.Rejected
    ensures s.snd.cur >= 2 && forall i :: 0 <= i < |s.data[1..]| ==> BlockNumber(s.data[1..][i]) != 1
  {
    assert Stems(t, s.snd.cur, s.data[0]);
    PacketStems(t, 1, 1);
    forall i | 0 <= i < |s.data[1..]| ensures BlockNumber(s.data[1..][i]) != 1 {
      assert s.data[1..][i] == s.data[i + 1];
    }
  }

  lemma DataWide(t: Transfer, s: System)
    requires Wide(t, s) && s.data != []
    ensures Wide(t, Receivers(t, s.(data := s.data[1..]), Packet(s.data[0])))
  {
    var s', e := s.(data := s.data[1..]), Packet(s.data[0]);
    DroppedWide(t, s);
    if s.rcv.phase != R.Receiving {
      DoneWide(t, s', e);
    } else if R.ServerJudge(e, s.rcv.Count()) != R.Rejected {
      NumberedIsWhole(t, s);
      TakeWide(t, s');
    } else {
      if s.rcv.accepted == 0 {
        FirstGone(t, s);
      }
      MissWide(t, s', e);
    }
  }

  lemma ReceiverWide(t: Transfer, s: System, e: Event)
    requires Wide(t, s) && !e.Packet?
    ensures Wide(t, Receivers(t, s, e))
  {
    if s.rcv.phase != R.Receiving {
      DoneWide(t, s, e);
    } else if e == Timeout {
      MissWide(t, s, e);
    } else {
      assert s.acks + [] == s.acks;
    }
  }

  // ---------- the channels ----------

  lemma AcksDrawn(t: Transfer, s: System, ch: seq<Datagram>)
    requires Wide(t, s) && Drawn(ch, s.acks)
    ensures Wide(t, s.(acks := ch))
  {
    forall i | 0 <= i < |ch| ensures AckStems(s.rcv.accepted, ch[i]) {
      assert Follows(ch[i], ch[i], s.acks);
    }
  }

  lemma DataDrawn(t: Transfer, s: System, ch: seq<Datagram>)
    requires Wide(t, s) && s.snd.cur > 0 && Drawn(ch, s.data)
    ensures Wide(t, s.(data := ch))
  {
    forall i | 0 <= i < |ch| ensures Stems(t, s.snd.cur, ch[i]) {
      assert Follows(ch[i], ch[i], s.data);
    }
    forall i, j | 0 <= i <= j < |ch| && s.rcv.accepted == 0 && BlockNumber(ch[j]) == 1
      ensures s.rcv.flag && ch[i] == t.cfg.Packet(1)
    {
      assert Follows(ch[i], ch[j], s.data);
    }
  }

  lemma ChannelsWide(t: Transfer, s: System, h: Happening)
    requires Wide(t, s) && (h.AckLost? || h.DataLost? || h.AckRepeated? || h.DataRepeated?)
    ensures Wide(t, Apply(t, s, h))
  {
    match h
    case AckLost(i) => LoseDrawn(s.acks, i); AcksDrawn(t, s, Lose(s.acks, i));
    case DataLost(i) => LoseDrawn(s.data, i); if s.snd.cur > 0 { DataDrawn(t, s, Lose(s.data, i)); }
    case AckRepeated(i) => RepeatDrawn(s.acks, i); AcksDrawn(t, s, Repeat(s.acks, i));
    case DataRepeated(i) => RepeatDrawn(s.data, i); if s.snd.cur > 0 { DataDrawn(t, s, Repeat(s.data, i)); }
  }

  lemma AckDropped(t: Transfer, s: System)
    requires Wide(t, s) && s.acks != []
    ensures Wide(t, s.(acks := s.acks[1..])) && AckStems(s.rcv.accepted, s.acks[0])
  {
  }

  /** At every window from 3 on, where no harmful cut can be made: everything under way to the server is a packet
      sent so far, whole unless the server is past that block; and an ACK is of a block the server has. */
  lemma {:induction false} WideHoldsOnRuns(t: Transfer, history: seq<Happening>)
    requires t.Valid() && t.cfg.w >= 3 && NoHarmfulCut(t)
    ensures Wide(t, After(t, history))
  {
    if history == [] {
      S.AckRead(0);
    } else {
      var s, h := After(t, history[..|history| - 1]), history[|history| - 1];
      WideHoldsOnRuns(t, history[..|history| - 1]);
      match h
      case SenderHears(e) => if !e.Packet? { SenderWide(t, s, e); }
      case ReceiverHears(e) => if !e.Packet? { ReceiverWide(t, s, e); }
      case AckArrives => if s.acks != [] { AckDropped(t, s); AckWide(t, s.(acks := s.acks[1..]), s.acks[0]); }
      case DataArrives => if s.data != [] { DataWide(t, s); }
      case _ => ChannelsWide(t, s, h);
    }
  }
}
