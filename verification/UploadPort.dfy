/** Where an upload's DATA goes: tftpc takes the port from the last wait of its handshake, even if that wait
    was silent. If it is not the server's port, no block ever arrives. */
module UploadPort {
  import opened Packets
  import opened Chunking
  import opened SlotBuffer
  import opened Budget
  import opened StopAndWait
  import opened F = UploadFifo
  import M = SenderMachine
  import R = ReceiverMachines

  /** The port that waits yielding `events` leave: strangers' datagrams go on setting it, and the first outcome
      that is no stranger's ends the handshake. */
  function HandshakePort(port0: nat, events: seq<Event>): nat
    decreases events
  {
    if events == [] then port0
    else if events[0].Foreign? then HandshakePort(events[0].port, events[1..])
    else Heard(port0, events[0])
  }

  ghost predicate OnlyStrangers(events: seq<Event>) { forall i :: 0 <= i < |events| ==> events[i].Foreign? }

  lemma {:induction false} HandshakePortSnoc(port0: nat, events: seq<Event>, e: Event)
    ensures HandshakePort(port0, events + [e])
         == if OnlyStrangers(events) then Heard(HandshakePort(port0, events), e) else HandshakePort(port0, events)
    decreases events
  {
    if events == [] {
      assert events + [e] == [e];
    } else {
      assert (events + [e])[1..] == events[1..] + [e];
      if events[0].Foreign? {
        HandshakePortSnoc(events[0].port, events[1..], e);
        assert OnlyStrangers(events) <==> OnlyStrangers(events[1..]);
      }
    }
  }

  /** On every run of the client's sender, whatever arrives. */
  lemma {:induction false} RunPort(cfg: M.Config, stale: seq<seq<byte>>, events: seq<Event>)
    requires cfg.Valid() && cfg.role == M.Client && M.SlotArray(stale)
    ensures var s := M.Run(cfg, stale, events).0;
      s.port == HandshakePort(cfg.port0, events) && (s.phase == M.Handshake <==> OnlyStrangers(events))
  {
    if events != [] {
      var before, e := events[..|events| - 1], events[|events| - 1];
      assert before + [e] == events;
      RunPort(cfg, stale, before);
      HandshakePortSnoc(cfg.port0, before, e);
      HandshakeEnds(cfg, M.Run(cfg, stale, before).0, e);
      M.RunSnoc(cfg, stale, before, e);
    }
  }

  lemma HandshakeEnds(cfg: M.Config, s: M.Sender, e: Event)
    requires cfg.Valid() && M.Ok(cfg, s)
    ensures M.Step(cfg, s, e).0.phase == M.Handshake <==> s.phase == M.Handshake && e.Foreign?
  {
  }

  // ---------- nothing arrives from a sender that has learnt another port ----------

  /** The server still waits for block 1 and has sent nothing but ACK 0. */
  ghost predicate NothingArrived(t: Transfer, s: System) {
    && Ok(t, s) && s.data == [] && s.rcv.accepted == 0 && s.rcv.written == [] && s.rcv.phase != R.Done
    && s.rcv.len == 4 && s.rcv.ackbuf[..4] == Ack(0) && OnlyFirstAck(s.acks)
  }

  ghost predicate OnlyFirstAck(acks: seq<Datagram>) { forall i :: 0 <= i < |acks| ==> acks[i] == Ack(0) }

  /** The sender is in its first burst, and its datagrams go elsewhere. */
  ghost predicate Astray(t: Transfer, s: System) {
    && NothingArrived(t, s) && s.snd.phase in {M.Waiting, M.Aborted} && s.snd.port != t.port
    && 0 < s.snd.cur < WRAP
  }

  lemma SilentReceiver(t: Transfer, s: System, e: Event)
    requires NothingArrived(t, s) && !e.Packet?
    ensures NothingArrived(t, Receivers(t, s, e)) && Receivers(t, s, e).snd == s.snd
  {
    if s.rcv.phase == R.Receiving && e == Timeout {
      var y: Datagram := s.rcv.ackbuf[..4];
      assert [] + [y] == [y];
      assert R.ServerStep(t.cfg.w, s.rcv, e).1 == [Ack(0)];
    }
  }

  lemma FirstAckRejected(cfg: M.Config, s: M.Sender, e: Event)
    requires cfg.Valid() && M.Ok(cfg, s) && s.phase in {M.Waiting, M.Aborted} && 0 < s.cur < WRAP
    requires e.Packet? ==> e.d == Ack(0)
    ensures var u := M.Step(cfg, s, e).0; u.phase in {M.Waiting, M.Aborted} && u.cur == s.cur
  {
    if e.Packet? {
      AckJudged(0, s.Count(), e.port);
    }
    assert s.phase == M.Waiting ==> M.Judge(e, s.Count()) in {M.Ignored, M.Rejected};
  }

  lemma AstrayStays(t: Transfer, s: System, h: Happening)
    requires Astray(t, s)
    ensures Astray(t, Apply(t, s, h))
  {
    match h
    case SenderHears(e) => if !e.Packet? { FirstAckRejected(t.cfg, s.snd, e); }
    case AckArrives => if s.acks != [] { FirstAckRejected(t.cfg, s.snd, Packet(s.acks[0], t.port)); }
    case ReceiverHears(e) => if !e.Packet? { SilentReceiver(t, s, e); }
    case _ =>
  }

  lemma FirstBurstEnds(cfg: M.Config, s: M.Sender, e: Event)
    requires cfg.Valid() && M.Ok(cfg, s) && s.phase == M.Handshake
    ensures var u := M.Step(cfg, s, e).0;
      if e.Foreign? then u.phase == M.Handshake else u.phase == M.Waiting && 0 < u.cur < WRAP
  {
    if !e.Foreign? {
      var v := s.(port := Heard(s.port, e));
      BurstTo(cfg, v);
      ClientOutstanding(M.Burst(cfg, v).0.cur, cfg.w);
      ClientOutstanding(1, cfg.w);
    }
  }

  /** In the handshake nothing is sent yet; the wait that ends it decides. */
  lemma HandshakeStep(t: Transfer, s: System, h: Happening)
    requires NothingArrived(t, s) && s.snd.phase == M.Handshake
    ensures var s' := Apply(t, s, h);
      if s'.snd.phase == M.Handshake then NothingArrived(t, s') else s'.snd.port != t.port ==> Astray(t, s')
  {
    match h
    case SenderHears(e) => FirstBurstEnds(t.cfg, s.snd, e);
    case AckArrives => if s.acks != [] { FirstBurstEnds(t.cfg, s.snd, Packet(s.acks[0], t.port)); }
    case ReceiverHears(e) => if !e.Packet? { SilentReceiver(t, s, e); }
    case _ =>
  }

  lemma {:induction false} NothingYet(t: Transfer, history: seq<Happening>)
    requires t.Valid()
    ensures var s := After(t, history);
      if s.snd.phase == M.Handshake then NothingArrived(t, s) else s.snd.port != t.port ==> Astray(t, s)
  {
    if history != [] {
      var s, h := After(t, history[..|history| - 1]), history[|history| - 1];
      NothingYet(t, history[..|history| - 1]);
      if s.snd.phase == M.Handshake {
        HandshakeStep(t, s, h);
      } else if s.snd.port != t.port {
        AstrayStays(t, s, h);
      } else {
        PortStays(t, s, h);
      }
    }
  }

  lemma PortStays(t: Transfer, s: System, h: Happening)
    requires Ok(t, s) && s.snd.phase != M.Handshake
    ensures Apply(t, s, h).snd.port == s.snd.port && Apply(t, s, h).snd.phase != M.Handshake
  {
  }

  /** The handshake has ended with another port than the server's, as what it heard tells. */
  ghost predicate GoesAstray(t: Transfer, history: seq<Happening>)
    requires t.Valid()
  {
    var heard := SenderHeard(t, history);
    !OnlyStrangers(heard) && HandshakePort(t.cfg.port0, heard) != t.port
  }

  lemma IsAstray(t: Transfer, history: seq<Happening>)
    requires t.Valid() && GoesAstray(t, history)
    ensures Astray(t, After(t, history))
  {
    SidesAreRuns(t, history);
    RunPort(t.cfg, t.stale, SenderHeard(t, history));
    NothingYet(t, history);
  }

  ghost predicate AstrayAfter(t: Transfer, history: seq<Happening>)
    requires t.Valid()
  {
    Astray(t, After(t, history))
  }

  lemma AstrayOn(t: Transfer, history: seq<Happening>, h: Happening)
    requires t.Valid() && AstrayAfter(t, history)
    ensures AstrayAfter(t, history + [h])
  {
    AfterSnoc(t, history, h);
    AstrayStays(t, After(t, history), h);
  }

  lemma {:induction false} StaysAstray(t: Transfer, all: seq<Happening>, n: nat)
    requires t.Valid() && n <= |all| && AstrayAfter(t, all[..n])
    ensures AstrayAfter(t, all)
    decreases |all| - n
  {
    if n == |all| {
      assert all[..n] == all;
    } else {
      AstrayOn(t, all[..n], all[n]);
      assert all[..n] + [all[n]] == all[..n + 1];
      StaysAstray(t, all, n + 1);
    }
  }

  /** At every window: then no history brings the server a single block, and neither side ever reports success. */
  lemma AstrayForGood(t: Transfer, history: seq<Happening>, more: seq<Happening>)
    requires t.Valid() && GoesAstray(t, history)
    ensures var s := After(t, history + more);
      s.rcv.accepted == 0 && s.rcv.written == [] && s.rcv.phase != R.Done && s.snd.phase != M.Finished
  {
    IsAstray(t, history);
    assert (history + more)[..|history|] == history;
    StaysAstray(t, history + more, |history|);
    assert AstrayAfter(t, history + more);
  }
}
