/** The run in which an upload at a window from 3 on goes wrong, and exactly which uploads have one. */
module CutWindow {
  import opened Packets
  import opened Chunking
  import opened SlotBuffer
  import opened Budget
  import opened UploadWindow
  import opened WideWindow
  import S = StopAndWait
  import opened F = UploadFifo
  import L = Lossless
  import D = Disagreement
  import M = SenderMachine
  import R = ReceiverMachines

  // ---------- up to the last window without trouble ----------

  /** The same upload as one of the lossless transfers. */
  function Untroubled(t: Transfer): L.Transfer { L.Transfer(t.cfg, t.cfg.w, t.r0, t.stale, t.port, 0) }

  function Arrival(h: L.Happening): Happening { if h == L.DataArrives then DataArrives else AckArrives }

  function Arrivals(history: seq<L.Happening>): (r: seq<Happening>)
    ensures |r| == |history|
  {
    seq(|history|, i requires 0 <= i < |history| => Arrival(history[i]))
  }

  predicate Same(s: System, u: L.System) { s.snd == u.snd && s.rcv == u.rcv && s.data == u.data && s.acks == u.acks }

  /** Without loss the two compositions are the same. */
  lemma {:induction false} SameRun(t: Transfer, history: seq<L.Happening>)
    requires t.Valid()
    ensures Same(After(t, Arrivals(history)), L.After(Untroubled(t), history))
  {
    if history == [] {
      assert Arrivals(history) == [];
    } else {
      var before, h := history[..|history| - 1], history[|history| - 1];
      SameRun(t, before);
      assert Arrivals(history) == Arrivals(before) + [Arrival(h)];
      AfterSnoc(t, Arrivals(before), Arrival(h));
      SameMove(t, After(t, Arrivals(before)), L.After(Untroubled(t), before), h);
    }
  }

  lemma SameMove(t: Transfer, s: System, u: L.System, h: L.Happening)
    requires Ok(t, s) && L.Ok(Untroubled(t), u) && Same(s, u)
    ensures Same(Apply(t, s, Arrival(h)), L.Apply(Untroubled(t), u, h))
  {
    if h == L.DataArrives && s.data != [] {
      PortUnseen(t.cfg.w, s.rcv, s.data[0], t.port);
    }
  }

  lemma PortUnseen(w: Window, s: R.Receiver, d: Datagram, port: Port)
    requires R.Ok(s)
    ensures R.ServerStep(w, s, Packet(d, port)) == R.ServerStep(w, s, Packet(d))
  {
  }

  /** An upload whose last window holds a block that a resend at the last wait cuts. */
  ghost predicate Cuts(t: Transfer) { t.Valid() && t.cfg.w >= 3 && !NoHarmfulCut(t) }

  /** The last regular wait. */
  function LastRegular(t: Transfer): nat
    requires t.cfg.blocks != []
  {
    (|t.cfg.blocks| - 1) - (|t.cfg.blocks| - 1) % t.cfg.w
  }

  lemma RoundDown(n: nat, w: Window)
    ensures 0 <= n - n % w && (n - n % w) % w == 0
  {
    MultipleMod(n / w, w, 0);
  }

  /** The last window is under way, and all before it is taken and acknowledged. */
  ghost predicate LastUnderWay(t: Transfer, snd: M.Sender, rcv: R.Receiver, data: seq<Datagram>, acks: seq<Datagram>)
    requires t.Valid()
  {
    var p := LastRegular(t);
    && p + 2 < |t.cfg.blocks| && LastSent(t, snd)
    && L.ReceiverHolds(Untroubled(t), rcv) && rcv.accepted == p
    && data != [] && data[0] == t.cfg.Packet(p + 1) && acks == []
  }

  ghost predicate LastSent(t: Transfer, snd: M.Sender)
    requires t.Valid()
  {
    && M.Ok(t.cfg, snd) && snd.phase == M.Waiting && snd.cur == |t.cfg.blocks| && snd.j == 0
    && snd.port == t.port && snd.len == 4 + |t.cfg.blocks[snd.cur - 1]|
  }

  lemma LastWait(t: Transfer)
    requires Cuts(t)
    ensures var n, p := |t.cfg.blocks|, LastRegular(t); p + 2 < n && PrevWait(M.Client, n, t.cfg.w) == p
  {
    ClientOutstanding(|t.cfg.blocks|, t.cfg.w);
  }

  lemma LastReached(t: Transfer, s: L.System)
    requires Cuts(t) && L.InOrder(Untroubled(t), s) && s.data != [] && s.rcv.accepted == LastRegular(t)
    ensures LastUnderWay(t, s.snd, s.rcv, s.data, s.acks)
  {
    var n, c, p := |t.cfg.blocks|, s.snd.cur, LastRegular(t);
    LastWait(t);
    if c < n {
      L.NoWaitBetween(M.Client, n, t.cfg.w, c);
    }
    PacketRangeCons(t.cfg, p + 1, n);
  }

  lemma ToLastWindow(t: Transfer) returns (history: seq<Happening>)
    requires Cuts(t)
    ensures var s := After(t, history); LastUnderWay(t, s.snd, s.rcv, s.data, s.acks)
  {
    var u, p := Untroubled(t), LastRegular(t);
    RoundDown(|t.cfg.blocks| - 1, t.cfg.w);
    Agreed(t);
    L.StartsInOrder(u);
    var arrivals := D.ToBlock(u, [], p + 1);
    LastReached(t, L.After(u, arrivals));
    SameRun(t, arrivals);
    history := Arrivals(arrivals);
  }

  lemma Agreed(t: Transfer)
    requires Cuts(t)
    ensures Untroubled(t).SameEnd() && Untroubled(t).SchedulesAgree()
  {
    D.DisagreesIff(Untroubled(t));
    D.SchedulesAgreeIff(Untroubled(t));
  }

  // ---------- the last window ----------

  /** The server has its first block and no more; the sender waits for the last ACK. */
  ghost predicate FirstOnly(t: Transfer, snd: M.Sender, rcv: R.Receiver)
    requires t.Valid()
  {
    && LastRegular(t) + 2 < |t.cfg.blocks| && LastSent(t, snd)
    && L.ReceiverHolds(Untroubled(t), rcv) && rcv.accepted == LastRegular(t) + 1
  }

  lemma FirstOfLast(t: Transfer, s: System)
    requires Cuts(t) && Ok(t, s) && LastUnderWay(t, s.snd, s.rcv, s.data, s.acks)
    ensures var s' := Apply(t, s, DataArrives); FirstOnly(t, s'.snd, s'.rcv)
  {
    L.NextBlockTaken(Untroubled(t), s.rcv);
    PortUnseen(t.cfg.w, s.rcv, s.data[0], t.port);
  }

  lemma {:induction false} DropAll(t: Transfer, before: seq<Happening>, n: nat) returns (history: seq<Happening>)
    requires t.Valid() && n == |After(t, before).data|
    ensures var s, s' := After(t, before), After(t, history);
      s'.data == [] && s'.snd == s.snd && s'.rcv == s.rcv && s'.acks == s.acks
    decreases n
  {
    if n == 0 {
      history := before;
    } else {
      AfterSnoc(t, before, DataLost(0));
      history := DropAll(t, before + [DataLost(0)], n - 1);
    }
  }

  /** Block p + 2, cut to the length of the last one. */
  ghost function Cut(t: Transfer): Datagram
    requires t.Valid() && LastRegular(t) + 2 < |t.cfg.blocks|
  {
    var p := LastRegular(t);
    DataPacket((p + 2) % WRAP, t.cfg.blocks[p + 1][..|t.cfg.blocks[|t.cfg.blocks| - 1]|])
  }

  lemma LastSlots(t: Transfer)
    requires Cuts(t)
    ensures var n, p := |t.cfg.blocks|, LastRegular(t); M.SlotIndex(n % WRAP, t.cfg.w) == n - p - 2
  {
    var n, p, w := |t.cfg.blocks|, LastRegular(t), t.cfg.w;
    SlotIs(n, w);
    ModStep(n - 2, n - 1, w);
  }

  /** At the last wait a resend begins with that cut block. */
  lemma CutSent(t: Transfer, s: M.Sender)
    requires Cuts(t) && M.Ok(t.cfg, s) && SlotsHold(t.cfg, s.slots, s.cur) && s.phase == M.Waiting
    requires s.cur == |t.cfg.blocks| && LastRegular(t) + 2 < s.cur && s.len == 4 + |t.cfg.blocks[s.cur - 1]|
    ensures var out := M.Step(t.cfg, s, Timeout).1; out != [] && out[0] == Cut(t)
  {
    var p := LastRegular(t);
    LastSlots(t);
    var out := M.Resend(t.cfg, s);
    assert [] + out == out;
    assert t.cfg.Packet(p + 2) <= s.slots[0];
    assert out[0] == s.slots[0][..s.len] == t.cfg.Packet(p + 2)[..s.len] == Cut(t);
  }

  lemma NumberRead(c: nat, payload: seq<byte>)
    requires c < WRAP && |payload| <= MAX_DATA_SIZE
    ensures var d: Datagram := DataPacket(c, payload); Opcode(d) == DATA && BlockNumber(d) == c
  {
    DataNumber(c, payload);
  }

  lemma CutRead(t: Transfer)
    requires t.Valid() && LastRegular(t) + 2 < |t.cfg.blocks|
    ensures Opcode(Cut(t)) == DATA && BlockNumber(Cut(t)) == (LastRegular(t) + 2) % WRAP
  {
    var number, last := (LastRegular(t) + 2) % WRAP, t.cfg.blocks[|t.cfg.blocks| - 1];
    NumberRead(number, t.cfg.blocks[LastRegular(t) + 1][..|last|]);
  }

  lemma CutDecoded(t: Transfer)
    requires t.Valid() && LastRegular(t) + 2 < |t.cfg.blocks|
    ensures var d, p := Cut(t), LastRegular(t);
      && R.ServerJudge(Packet(d), (p + 2) % WRAP) == R.Accepted
      && Payload(d) == t.cfg.blocks[p + 1][..|t.cfg.blocks[|t.cfg.blocks| - 1]|] && |d| < 4 + t.cfg.d
  {
    CutRead(t);
    S.JudgedAsData(Cut(t), TFTP_PORT, (LastRegular(t) + 2) % WRAP);
  }

  lemma CutTaken(t: Transfer, s: R.Receiver)
    requires Cuts(t) && LastRegular(t) + 2 < |t.cfg.blocks|
    requires L.ReceiverHolds(Untroubled(t), s) && s.accepted == LastRegular(t) + 1
    ensures var u := R.ServerStep(t.cfg.w, s, Packet(Cut(t))).0;
      u.phase == R.Done && u.written == s.written + Payload(Cut(t))
  {
    CutDecoded(t);
  }

  /** The file as far as block p + 1, and the first bytes of block p + 2. */
  ghost predicate Shortened(t: Transfer, file: seq<byte>)
    requires t.Valid()
  {
    var n, p := |t.cfg.blocks|, LastRegular(t);
    && p + 2 < n
    && file == Flatten(t.cfg.blocks[..p + 1]) + t.cfg.blocks[p + 1][..|t.cfg.blocks[n - 1]|]
  }

  lemma ShortenedShows(t: Transfer, file: seq<byte>)
    requires t.Valid() && Shortened(t, file)
    ensures |file| < |t.File()|
  {
    var b, n, p := t.cfg.blocks, |t.cfg.blocks|, LastRegular(t);
    FlattenPrefix(b, n - 1);
    FlattenPrefix(b, p + 1);
    FlattenGrows(b, p + 2, n - 1);
    assert b[..n] == b;
  }

  lemma AllButFirstLost(t: Transfer) returns (history: seq<Happening>)
    requires Cuts(t)
    ensures var s := After(t, history); FirstOnly(t, s.snd, s.rcv) && s.data == []
  {
    var before := ToLastWindow(t);
    FirstOfLast(t, After(t, before));
    AfterSnoc(t, before, DataArrives);
    var first := before + [DataArrives];
    history := DropAll(t, first, |After(t, first).data|);
  }

  lemma SentCut(t: Transfer, s: System)
    requires Cuts(t) && Ok(t, s) && FirstOnly(t, s.snd, s.rcv) && s.data == []
    requires SlotsHold(t.cfg, s.snd.slots, s.snd.cur)
    ensures var s' := Apply(t, s, SenderHears(Timeout)); s'.data != [] && s'.data[0] == Cut(t) && s'.rcv == s.rcv
  {
    CutSent(t, s.snd);
    var out := M.Step(t.cfg, s.snd, Timeout).1;
    assert s.data + out == out;
  }

  lemma CutArrives(t: Transfer, s: System)
    requires Cuts(t) && Ok(t, s) && LastRegular(t) + 2 < |t.cfg.blocks|
    requires L.ReceiverHolds(Untroubled(t), s.rcv) && s.rcv.accepted == LastRegular(t) + 1
    requires s.data != [] && s.data[0] == Cut(t)
    ensures var s' := Apply(t, s, DataArrives); s'.rcv.phase == R.Done && Shortened(t, s'.rcv.written)
  {
    CutDecoded(t);
    CutTaken(t, s.rcv);
  }

  /** The last window but its first block is lost. The sender times out; its resend begins with the next block, cut;
      the server takes that for the last block and reports success. */
  lemma CutTakenForLast(t: Transfer) returns (history: seq<Happening>)
    requires Cuts(t)
    ensures After(t, history).rcv.phase == R.Done && Shortened(t, After(t, history).rcv.written)
  {
    var lost := AllButFirstLost(t);
    SidesAreRuns(t, lost);
    SlotsHoldOnRuns(t.cfg, t.stale, SenderHeard(t, lost));
    SentCut(t, After(t, lost));
    AfterSnoc(t, lost, SenderHears(Timeout));
    var again := lost + [SenderHears(Timeout)];
    CutArrives(t, After(t, again));
    AfterSnoc(t, again, DataArrives);
    history := again + [DataArrives];
  }

  // ---------- exactly ----------

  /** The server's file is made of the first blocks, and either side's success is one. */
  ghost predicate Honest(t: Transfer, s: System)
    requires t.Valid()
  {
    && s.rcv.accepted <= |t.cfg.blocks| && s.rcv.written == Flatten(t.cfg.blocks[..s.rcv.accepted])
    && (s.snd.phase == M.Finished ==> s.rcv.written == t.File())
    && (s.rcv.phase == R.Done && S.Settled(t.r0, t.cfg.blocks) == t.cfg.d ==> s.rcv.written == t.File())
  }

  lemma SafeIsHonest(t: Transfer, history: seq<Happening>)
    requires t.Valid() && (t.cfg.w <= 2 || NoHarmfulCut(t))
    ensures Honest(t, After(t, history))
  {
    assert t.cfg.blocks[..|t.cfg.blocks|] == t.cfg.blocks;
    if t.cfg.w == 1 {
      RingHolds(t, history);
    } else if t.cfg.w == 2 {
      Ring2Holds(t, history);
    } else {
      WideHoldsOnRuns(t, history);
    }
  }

  /** For each upload: every history over channels that lose and repeat is honest if and only if the window is at
      most 2, or the last window holds at most two blocks, or the server goes by another chunk size (and so ends
      with the first of several blocks). */
  lemma LossyHonestIff(t: Transfer)
    requires t.Valid()
    ensures (forall history :: Honest(t, After(t, history))) <==>
      t.cfg.w <= 2 || (|t.cfg.blocks| - 1) % t.cfg.w < 2 || S.Settled(t.r0, t.cfg.blocks) != t.cfg.d
  {
    if t.cfg.w <= 2 || NoHarmfulCut(t) {
      forall history ensures Honest(t, After(t, history)) {
        SafeIsHonest(t, history);
      }
    } else {
      var history := CutTakenForLast(t);
      ShortenedShows(t, After(t, history).rcv.written);
      assert !Honest(t, After(t, history));
    }
  }
}
