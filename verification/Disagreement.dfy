/** Lossless transfers in which the receiver does not take the sender's last block for the last: none of
    them ever succeeds. And those in which the two ACK schedules differ: none of them meets every ACK wait on its
    first try. */
module Disagreement {
  import opened Packets
  import opened Chunking
  import opened StopAndWait
  import opened SlotBuffer
  import opened Budget
  import opened Lossless
  import M = SenderMachine
  import R = ReceiverMachines

  lemma DisagreesIff(t: Transfer)
    requires t.Valid()
    ensures t.SameEnd() <==> if |t.cfg.blocks| > 1 then t.Settled() == t.cfg.d else t.Settled() != |t.cfg.blocks[0]|
  {
    if |t.cfg.blocks| > 1 {
      assert |t.cfg.blocks[0]| == t.cfg.d;
    }
  }

  // ---------- the receiver ends with the first of several blocks ----------

  /** Nothing the sender does matters before the first block arrives. */
  ghost predicate Before(t: Transfer, s: System) {
    && t.Valid() && s.rcv == t.ReceiverStart().0 && s.snd.phase != M.Finished
    && if s.snd.cur == 0 then s.data == [] && s.acks == [Ack(0)] && s.snd.phase == M.Handshake
       else s.data != [] && s.data[0] == t.cfg.Packet(1) && s.acks == []
  }

  /** Then the receiver has ended with that block; the ACK of a second block never comes. */
  ghost predicate Ended(t: Transfer, s: System) {
    && t.Valid() && s.rcv.phase == R.Done && s.rcv.written == t.cfg.blocks[0]
    && s.snd.cur > 0
    && (|t.cfg.blocks| == 2 ==> s.snd.phase != M.Finished && forall i :: 0 <= i < |s.acks| ==> s.acks[i] == Ack(1))
  }

  lemma FirstBurst(t: Transfer, s: M.Sender)
    requires t.Valid() && M.SlotArray(s.slots) && s.cur == 0
    ensures var (u, out) := M.Burst(t.cfg, s);
      out != [] && out[0] == t.cfg.Packet(1) && u.cur > 0 && u.phase == M.Waiting
  {
    BurstTo(t.cfg, s);
    PacketRangeCons(t.cfg, 1, M.Burst(t.cfg, s).0.cur);
  }

  lemma StartsBefore(t: Transfer)
    requires t.Valid()
    ensures Before(t, Start(t))
  {
    if t.cfg.role == M.Server {
      FirstBurst(t, M.Idle(t.cfg, t.stale));
    }
  }

  lemma FirstAck(t: Transfer, s: System)
    requires Ok(t, s) && Before(t, s) && s.acks != []
    ensures Before(t, Apply(t, s, AckArrives))
  {
    AckJudged(0, 0, t.port);
    FirstBurst(t, Settles(t, s.snd));
    var (u, out) := M.Burst(t.cfg, Settles(t, s.snd));
    assert M.Step(t.cfg, s.snd, Packet(s.acks[0], t.port)) == (u, out);
    assert s.data + out == out && s.acks[1..] == [];
  }

  lemma FirstBlock(t: Transfer, s: System)
    requires Ok(t, s) && Before(t, s) && s.data != [] && |t.cfg.blocks| > 1 && t.Settled() != t.cfg.d
    ensures Ended(t, Apply(t, s, DataArrives))
  {
    DataJudged(t.cfg, 1, s.rcv.Count(), t.port);
    assert |t.cfg.blocks[0]| == t.cfg.d;
    assert s.acks == [] && [] + t.cfg.blocks[0] == t.cfg.blocks[0];
  }

  /** The ACK of block 1 is not that of block 2. */
  lemma OldAck(t: Transfer, s: M.Sender)
    requires t.Valid() && M.Ok(t.cfg, s) && |t.cfg.blocks| == 2 && s.cur > 0 && s.phase != M.Finished
    ensures var u := M.Step(t.cfg, s, Packet(Ack(1), t.port)).0; u.phase != M.Finished && u.cur > 0
  {
    AckJudged(1, s.Count(), t.port);
    assert |t.cfg.blocks[0]| == t.cfg.d;
  }

  lemma EndedStays(t: Transfer, s: System, h: Happening)
    requires Ok(t, s) && Ended(t, s)
    ensures Ended(t, Apply(t, s, h))
  {
    if h == DataArrives {
      assert s.acks + [] == s.acks;
    } else if s.acks != [] && |t.cfg.blocks| == 2 {
      OldAck(t, s.snd);
    }
  }

  lemma {:induction false} BeforeOrEnded(t: Transfer, history: seq<Happening>)
    requires t.Valid() && |t.cfg.blocks| > 1 && t.Settled() != t.cfg.d
    ensures Before(t, After(t, history)) || Ended(t, After(t, history))
  {
    if history == [] {
      StartsBefore(t);
    } else {
      var s, h := After(t, history[..|history| - 1]), history[|history| - 1];
      BeforeOrEnded(t, history[..|history| - 1]);
      if Ended(t, s) {
        EndedStays(t, s, h);
      } else if Enabled(s, h) {
        if h == DataArrives { FirstBlock(t, s); } else { FirstAck(t, s); }
      }
    }
  }

  // ---------- the receiver waits for more than the only block ----------

  /** The only packet there is keeps the receiver waiting. */
  ghost predicate Waiting(t: Transfer, s: System) {
    && t.Valid() && |t.cfg.blocks| == 1 && M.Ok(t.cfg, s.snd)
    && s.snd.cur <= 1 && (s.snd.phase == M.Waiting ==> s.snd.slots[0][..s.snd.len] == t.cfg.Packet(1))
    && ReceiverWaits(t, s.rcv)
    && (forall i :: 0 <= i < |s.data| ==> s.data[i] == t.cfg.Packet(1))
    && (forall i :: 0 <= i < |s.acks| ==> s.acks[i][1] in {0, ACK})
  }

  ghost predicate ReceiverWaits(t: Transfer, r: R.Receiver)
    requires t.Valid()
  {
    && R.Ok(r) && r.phase != R.Done && r.len == 4 && r.ackbuf[1] in {0, ACK}
    && (if r.flag then r.accepted == 0 && r.datasize == t.r0 else r.datasize == t.Settled())
    && (r.accepted == 0 ==> r.flag)
  }

  lemma OnlyBlock(t: Transfer, r: R.Receiver)
    requires t.Valid() && |t.cfg.blocks| == 1 && |t.cfg.blocks[0]| == t.Settled() && ReceiverWaits(t, r)
    ensures var (u, out) := t.ReceiverStep(r, Packet(t.cfg.Packet(1), t.port));
      ReceiverWaits(t, u) && forall i :: 0 <= i < |out| ==> out[i][1] in {0, ACK}
  {
    DataJudged(t.cfg, 1, r.Count(), t.port);
  }

  lemma SenderOfOne(t: Transfer, s: M.Sender, ack: Datagram)
    requires t.Valid() && |t.cfg.blocks| == 1 && M.Ok(t.cfg, s) && s.cur <= 1 && ack[1] in {0, ACK}
    requires s.phase == M.Waiting ==> s.slots[0][..s.len] == t.cfg.Packet(1)
    ensures var (u, out) := M.Step(t.cfg, s, Packet(ack, t.port));
      && u.cur <= 1 && (u.phase == M.Waiting ==> u.slots[0][..u.len] == t.cfg.Packet(1))
      && forall i :: 0 <= i < |out| ==> out[i] == t.cfg.Packet(1)
  {
    assert Opcode(ack) <= 5;
    if s.phase == M.Handshake {
      OneBurst(t, Settles(t, s));
    } else if s.phase == M.Waiting {
      assert M.Resend(t.cfg, s) == [t.cfg.Packet(1)];
      assert [] + [t.cfg.Packet(1)] == [t.cfg.Packet(1)];
    }
  }

  lemma OneBurst(t: Transfer, s: M.Sender)
    requires t.Valid() && |t.cfg.blocks| == 1 && M.SlotArray(s.slots) && s.cur == 0
    ensures var (u, out) := M.Burst(t.cfg, s);
      u.cur == 1 && u.slots[0][..u.len] == t.cfg.Packet(1) && out == [t.cfg.Packet(1)]
  {
    var (u, packet) := M.SendBlock(t.cfg, s);
    assert u.slots[0][..u.len] == packet;
  }

  lemma StartsWaiting(t: Transfer)
    requires t.Valid() && |t.cfg.blocks| == 1
    ensures Waiting(t, Start(t))
  {
    if t.cfg.role == M.Server {
      OneBurst(t, M.Idle(t.cfg, t.stale));
    }
  }

  lemma WaitingStays(t: Transfer, s: System, h: Happening)
    requires Ok(t, s) && Waiting(t, s) && |t.cfg.blocks[0]| == t.Settled() && Enabled(s, h)
    ensures Waiting(t, Apply(t, s, h))
  {
    match h
    case DataArrives => OnlyBlock(t, s.rcv);
    case AckArrives => SenderOfOne(t, s.snd, s.acks[0]);
  }

  lemma {:induction false} WaitingHolds(t: Transfer, history: seq<Happening>)
    requires t.Valid() && |t.cfg.blocks| == 1 && |t.cfg.blocks[0]| == t.Settled()
    ensures Waiting(t, After(t, history))
  {
    if history == [] {
      StartsWaiting(t);
    } else {
      var s, h := After(t, history[..|history| - 1]), history[|history| - 1];
      WaitingHolds(t, history[..|history| - 1]);
      if Enabled(s, h) {
        WaitingStays(t, s, h);
      }
    }
  }

  // ---------- exactly ----------

  lemma NeverSucceeds(t: Transfer, history: seq<Happening>)
    requires t.Valid() && !t.SameEnd()
    ensures !Succeeded(t, After(t, history))
  {
    DisagreesIff(t);
    if |t.cfg.blocks| > 1 {
      BeforeOrEnded(t, history);
      AtMostOneChunk(t.cfg.blocks, t.cfg.d);
    } else {
      WaitingHolds(t, history);
    }
  }

  /** The transfer can go on from here into success. */
  ghost predicate CanSucceed(t: Transfer, history: seq<Happening>)
    requires t.Valid()
  {
    exists all :: history <= all && Succeeded(t, After(t, all))
  }

  /** With schedules that agree, as equal windows do: every lossless transfer can go on into success from
      wherever it has got to if the two sides agree on the last block, and else none ever can. */
  lemma LosslessSucceedsIff(t: Transfer, history: seq<Happening>)
    requires t.Valid() && t.SchedulesAgree()
    ensures CanSucceed(t, history) <==> t.SameEnd()
  {
    if t.SameEnd() {
      var all := RunsOn(t, history);
    } else if CanSucceed(t, history) {
      var all :| history <= all && Succeeded(t, After(t, all));
      NeverSucceeds(t, all);
    }
  }

  // ---------- windows set apart ----------

  function Least(a: Window, b: Window): Window { if a < b then a else b }

  /** The first block one side's schedule may ask an ACK for and the other's not. */
  function FirstApart(t: Transfer): nat { Least(t.cfg.w, t.rw) + if t.cfg.role == M.Server then 1 else 0 }

  ghost predicate WindowsMatch(t: Transfer) { t.rw == t.cfg.w || |t.cfg.blocks| <= FirstApart(t) }

  /** Both formulas say: every w-th block, counted from the first on a server's side. */
  lemma Scheduled(role: M.Role, k: nat, w: Window, short: bool)
    requires 1 <= k < WRAP
    ensures M.Awaits(role, k % WRAP, w, short) <==> short || (if role == M.Client then k % w == 0 else (k - 1) % w == 0)
  {
    if role == M.Client {
      ClientAwaits(k, w);
    } else if k >= 2 {
      ServerAwaits(k, w);
    }
  }

  lemma ReceiverScheduled(t: Transfer, k: nat)
    requires 1 <= k < WRAP
    ensures t.Acknowledges(k) <==> M.Awaits(t.cfg.role, k % WRAP, t.rw, k == |t.cfg.blocks|)
  {
  }

  lemma SmallRem(a: nat, w: Window)
    ensures 0 < a < w ==> a % w != 0
    ensures a == 0 || a == w ==> a % w == 0
  {
  }

  lemma ApartAt(t: Transfer)
    requires t.Valid() && !WindowsMatch(t)
    ensures !t.AgreesAt(FirstApart(t)) && forall k :: 1 <= k < FirstApart(t) ==> t.AgreesAt(k)
  {
    var p, m := FirstApart(t), Least(t.cfg.w, t.rw);
    Scheduled(t.cfg.role, p, t.cfg.w, false);
    Scheduled(t.cfg.role, p, t.rw, false);
    ReceiverScheduled(t, p);
    SmallRem(m, t.cfg.w);
    SmallRem(m, t.rw);
    forall k | 1 <= k < p ensures t.AgreesAt(k) {
      EarlyAgrees(t, k);
    }
  }

  lemma EarlyAgrees(t: Transfer, k: nat)
    requires t.Valid() && 1 <= k < FirstApart(t)
    ensures t.AgreesAt(k)
  {
    var last, a := k == |t.cfg.blocks|, if t.cfg.role == M.Server then k - 1 else k;
    Scheduled(t.cfg.role, k, t.cfg.w, last);
    Scheduled(t.cfg.role, k, t.rw, last);
    ReceiverScheduled(t, k);
    SmallRem(a, t.cfg.w);
    SmallRem(a, t.rw);
  }

  lemma SchedulesAgreeIff(t: Transfer)
    requires t.Valid()
    ensures t.SchedulesAgree() <==> WindowsMatch(t)
  {
    if !WindowsMatch(t) {
      ApartAt(t);
    } else if t.rw != t.cfg.w {
      forall k | 1 <= k <= |t.cfg.blocks| ensures t.AgreesAt(k) {
        if k < FirstApart(t) { EarlyAgrees(t, k); }
      }
    }
  }

  /** No failed try, and nothing left under way only after success. */
  ghost predicate Smooth(t: Transfer, s: System) {
    && s.snd.j == 0 && s.snd.phase != M.Aborted
    && (s.data == [] && s.acks == [] ==> Succeeded(t, s))
  }

  /** The transfer gets to the point at which block p is the next to arrive. */
  lemma {:induction false} ToBlock(t: Transfer, history: seq<Happening>, p: nat) returns (all: seq<Happening>)
    requires t.SameEnd() && InOrder(t, After(t, history)) && After(t, history).rcv.accepted < p <= |t.cfg.blocks|
    requires forall k :: 1 <= k < p ==> t.AgreesAt(k)
    ensures InOrder(t, After(t, all)) && After(t, all).rcv.accepted == p - 1 && After(t, all).data != []
    decreases Remaining(t, After(t, history))
  {
    var s := After(t, history);
    if s.data != [] && s.rcv.accepted == p - 1 {
      all := history;
    } else {
      var h := if s.data != [] then DataArrives else AckArrives;
      assert (history + [h])[..|history|] == history;
      if s.data != [] {
        DataKeepsOrder(t, s);
        DataProgress(t, s);
        DataCounts(t, s);
      } else {
        AckKeepsOrder(t, s);
        AckProgress(t, s);
      }
      all := ToBlock(t, history + [h], p);
    }
  }

  lemma DataCounts(t: Transfer, s: System)
    requires InOrder(t, s) && s.data != []
    ensures Apply(t, s, DataArrives).rcv.accepted == s.rcv.accepted + 1
  {
    PacketRangeCons(t.cfg, s.rcv.accepted + 1, s.snd.cur);
    NextBlockTaken(t, s.rcv);
  }

  lemma AfterSnoc(t: Transfer, history: seq<Happening>, h: Happening)
    requires t.Valid()
    ensures After(t, history + [h]) == Apply(t, After(t, history), h)
  {
    assert (history + [h])[..|history|] == history;
  }

  /** The ACK awaited is never sent: nothing is under way. */
  lemma NotSent(t: Transfer, s: System)
    requires InOrder(t, s) && s.data != [] && s.rcv.accepted + 1 < |t.cfg.blocks|
    requires var p := s.rcv.accepted + 1; !t.Acknowledges(p) && M.Awaits(t.cfg.role, p % WRAP, t.cfg.w, false)
    ensures !Smooth(t, Apply(t, s, DataArrives))
  {
    var c, p := s.snd.cur, s.rcv.accepted + 1;
    ArrivesInOrder(t, s);
    if p < c {
      NoWaitBetween(t.cfg.role, c, t.cfg.w, p);
    }
  }

  /** An ACK comes before the one awaited. */
  lemma TooSoon(t: Transfer, s: System)
    requires InOrder(t, s) && s.data != [] && s.rcv.accepted + 1 < |t.cfg.blocks|
    requires var p := s.rcv.accepted + 1; t.Acknowledges(p) && !M.Awaits(t.cfg.role, p % WRAP, t.cfg.w, false)
    ensures var s', p, c := Apply(t, s, DataArrives), s.rcv.accepted + 1, s.snd.cur;
      s'.snd == s.snd && s.snd.phase == M.Waiting && s'.acks == [Ack(p)] && p < c <= p + MAX_ACK_FREQ
  {
    ArrivesInOrder(t, s);
    WaitIsNear(t, s.snd.cur);
  }

  /** It fails the try. */
  lemma SoonFails(t: Transfer, s: System, p: nat)
    requires Ok(t, s) && s.snd.phase == M.Waiting && s.acks == [Ack(p)] && p < s.snd.cur <= p + MAX_ACK_FREQ
    ensures !Smooth(t, Apply(t, s, AckArrives))
  {
    NearCounts(p, s.snd.cur);
    AckJudged(p, s.snd.Count(), t.port);
  }

  lemma NearCounts(p: nat, c: nat)
    requires p < c <= p + MAX_ACK_FREQ
    ensures p % WRAP != c % WRAP
  {
  }

  lemma WaitIsNear(t: Transfer, c: nat)
    requires t.Valid() && 1 <= c <= |t.cfg.blocks|
    ensures c <= PrevWait(t.cfg.role, c, t.cfg.w) + MAX_ACK_FREQ
  {
    match t.cfg.role
    case Client => ClientOutstanding(c, t.cfg.w);
    case Server => if c >= 2 { ServerPrevWait(c, t.cfg.w); }
  }

  lemma ApartFails(t: Transfer) returns (history: seq<Happening>)
    requires t.SameEnd() && !WindowsMatch(t)
    ensures !Smooth(t, After(t, history))
  {
    var p := FirstApart(t);
    ApartAt(t);
    StartsInOrder(t);
    var before := ToBlock(t, [], p);
    ApartFailsAt(t, After(t, before), p);
    AfterSnoc(t, before, DataArrives);
    AfterSnoc(t, before + [DataArrives], AckArrives);
    history := before + [DataArrives] + if t.Acknowledges(p) then [AckArrives] else [];
    assert before + [DataArrives] + [] == before + [DataArrives];
  }

  lemma ApartFailsAt(t: Transfer, s: System, p: nat)
    requires InOrder(t, s) && s.data != [] && s.rcv.accepted + 1 == p < |t.cfg.blocks| && !t.AgreesAt(p)
    ensures var u := Apply(t, s, DataArrives); !Smooth(t, if t.Acknowledges(p) then Apply(t, u, AckArrives) else u)
  {
    if t.Acknowledges(p) {
      TooSoon(t, s);
      SoonFails(t, Apply(t, s, DataArrives), p);
    } else {
      NotSent(t, s);
    }
  }

  /** What can still happen, at most, while no try has failed. */
  function Budgeted(t: Transfer, s: System): int { 6 * (|t.cfg.blocks| - s.snd.cur) + 3 * |s.data| + |s.acks| }

  lemma DataCosts(t: Transfer, s: System)
    requires Ok(t, s) && s.data != []
    ensures 0 <= Budgeted(t, Apply(t, s, DataArrives)) < Budgeted(t, s)
  {
    assert |t.ReceiverStep(s.rcv, Packet(s.data[0], t.port)).1| <= 2;
  }

  lemma HandshakeCosts(cfg: M.Config, s: M.Sender, e: Event)
    requires cfg.Valid() && M.Ok(cfg, s) && s.phase == M.Handshake && !e.Foreign?
    ensures var (u, out) := M.Step(cfg, s, e); s.cur < u.cur <= |cfg.blocks| && |out| <= u.cur - s.cur + 1
  {
    BurstTo(cfg, s.(port := Heard(s.port, e)));
  }

  /** A try fails, or there are as many datagrams as new blocks and perhaps one reply. */
  lemma StepCosts(cfg: M.Config, s: M.Sender, e: Event)
    requires cfg.Valid() && M.Ok(cfg, s) && s.j == 0
    ensures var (u, out) := M.Step(cfg, s, e);
      u.j > 0 || (s.cur <= u.cur <= |cfg.blocks| && |out| <= u.cur - s.cur + (if u.cur > s.cur then 1 else 0))
  {
    if s.phase == M.Handshake {
      if !e.Foreign? { HandshakeCosts(cfg, s, e); }
    } else if s.phase == M.Waiting && s.cur < |cfg.blocks| {
      BurstTo(cfg, s);
    }
  }

  lemma AckCosts(t: Transfer, s: System)
    requires Ok(t, s) && s.acks != [] && s.snd.j == 0
    ensures var u := Apply(t, s, AckArrives); u.snd.j > 0 || 0 <= Budgeted(t, u) < Budgeted(t, s)
  {
    StepCosts(t.cfg, s.snd, Packet(s.acks[0], t.port));
  }

  lemma {:induction false} RunsOut(t: Transfer, history: seq<Happening>) returns (all: seq<Happening>)
    requires t.Valid() && !t.SameEnd()
    ensures !Smooth(t, After(t, all))
    decreases Budgeted(t, After(t, history))
  {
    var s := After(t, history);
    NeverSucceeds(t, history);
    if !Smooth(t, s) {
      all := history;
    } else {
      var h := if s.data != [] then DataArrives else AckArrives;
      assert (history + [h])[..|history|] == history;
      if s.data != [] { DataCosts(t, s); } else { AckCosts(t, s); }
      if Apply(t, s, h).snd.j > 0 {
        all := history + [h];
      } else {
        all := RunsOut(t, history + [h]);
      }
    }
  }

  /** Every lossless history meets every ACK wait on its first try and ends in success if and only if the two
      sides agree on the last block, and their windows are equal or the file has too few blocks to tell. */
  lemma SmoothIff(t: Transfer)
    requires t.Valid()
    ensures (forall history :: Smooth(t, After(t, history))) <==> t.SameEnd() && WindowsMatch(t)
  {
    if t.SameEnd() && WindowsMatch(t) {
      SchedulesAgreeIff(t);
      forall history ensures Smooth(t, After(t, history)) {
        FirstTry(t, history);
        if After(t, history).data == [] && After(t, history).acks == [] {
          LosslessCompletes(t, history);
        }
      }
    } else if t.SameEnd() {
      var history := ApartFails(t);
    } else {
      var history := RunsOut(t, []);
    }
  }
}
