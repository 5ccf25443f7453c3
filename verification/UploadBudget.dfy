/** How many datagrams an upload at ackfreq 1 can take, on channels that keep the order and on a network that
    does not. */
module UploadBudget {
  import opened Packets
  import opened StopAndWait
  import opened F = UploadFifo
  import opened Budget
  import M = SenderMachine
  import N = UploadReorder
  import R = ReceiverMachines

  /** The datagrams that are not error replies: the server's receiver sends nothing else but its ACK buffer. */
  function AckCount(sent: seq<Datagram>): nat {
    if sent == [] then 0
    else AckCount(sent[..|sent| - 1]) + if sent[|sent| - 1][1] != ERR then 1 else 0
  }

  lemma {:induction false} AckCountAppend(a: seq<Datagram>, b: seq<Datagram>)
    ensures AckCount(a + b) == AckCount(a) + AckCount(b)
    decreases |b|
  {
    if b == [] {
      assert a + b == a;
    } else {
      AckCountAppend(a, b[..|b| - 1]);
      assert (a + b)[..|a + b| - 1] == a + b[..|b| - 1];
    }
  }

  /** The tries charged to the block waited for. */
  function FailedTries(s: R.Receiver): nat {
    match s.phase
    case Receiving => s.j
    case Aborted => RETRIES
    case Done => 0
  }

  lemma StepAcks(w: Window, s: R.Receiver, e: Event)
    requires R.Ok(s)
    ensures var (t, out) := R.ServerStep(w, s, e);
      AckCount(out) + 3 * s.accepted + FailedTries(s) <= 3 * t.accepted + FailedTries(t)
  {
    if s.phase == R.Receiving && R.ServerJudge(e, s.Count()) == R.Illegal {
      var t, reply := R.ServerStep(w, s, e).0, R.IllegalOperation();
      assert s.len <= 22;
      AckCountAppend([reply], [t.ackbuf[..t.len]]);
      assert AckCount([reply]) == 0;
    }
  }

  /** On every run of the server's receiver: three ACKs for each block, one at the start, and those of
      the tries for the block waited for. */
  lemma {:induction false} ReceiverAcks(w: Window, r0: BlockSize, events: seq<Event>)
    ensures var (s, sent) := R.ServerRun(w, r0, events);
      AckCount(sent) <= 1 + 3 * s.accepted + FailedTries(s)
  {
    if events != [] {
      var before, e := events[..|events| - 1], events[|events| - 1];
      ReceiverAcks(w, r0, before);
      var (s, sent) := R.ServerRun(w, r0, before);
      StepAcks(w, s, e);
      AckCountAppend(sent, R.ServerStep(w, s, e).1);
    }
  }

  /** A receiver that goes by the sender's chunk size is done with the last block. */
  lemma TriesFit(cfg: M.Config, r0: BlockSize, s: R.Receiver)
    requires ReceiverHolds(cfg, r0, s) && EofAgrees(cfg.blocks, cfg.d, Settled(r0, cfg.blocks))
    ensures 3 * s.accepted + FailedTries(s) <= 3 * |cfg.blocks|
  {
    if s.accepted == |cfg.blocks| {
      assert |cfg.blocks[s.accepted - 1]| != cfg.d;
    }
  }

  /** An upload of B blocks takes at most 3B + 1 DATA datagrams, and at most 3B + 1 ACKs if the chunk sizes agree. */
  lemma UploadWithinBudget(t: Transfer, history: seq<Happening>)
    requires t.OneByOne()
    ensures DataCount(After(t, history).allData) <= 3 * |t.cfg.blocks| + 1
    ensures EofAgrees(t.cfg.blocks, t.cfg.d, Settled(t.r0, t.cfg.blocks)) ==>
      AckCount(After(t, history).allAcks) <= 3 * |t.cfg.blocks| + 1
  {
    SidesAreRuns(t, history);
    DataBudget(t.cfg, t.stale, SenderHeard(t, history));
    ReceiverAcks(1, t.r0, ReceiverHeard(t, history));
    RingHolds(t, history);
    if EofAgrees(t.cfg.blocks, t.cfg.d, Settled(t.r0, t.cfg.blocks)) {
      TriesFit(t.cfg, t.r0, After(t, history).rcv);
    }
  }

  // ---------- over a network that reorders ----------

  /** What a turn lets either side hear. */
  function SenderTold(t: Transfer, s: N.Network, h: N.Turn): seq<Event> {
    if h.SenderTurn? && !(h.e.Packet? && (h.e.d !in s.acks || h.e.port != t.port)) then [h.e] else []
  }

  function ReceiverTold(s: N.Network, h: N.Turn): seq<Event> {
    if h.ReceiverTurn? && !(h.e.Packet? && h.e.d !in s.data) then [h.e] else []
  }

  function SenderTurns(t: Transfer, turns: seq<N.Turn>): seq<Event>
    requires t.OneByOne()
  {
    if turns == [] then []
    else
      var before := turns[..|turns| - 1];
      SenderTurns(t, before) + SenderTold(t, N.Played(t, before), turns[|turns| - 1])
  }

  function ReceiverTurns(t: Transfer, turns: seq<N.Turn>): seq<Event>
    requires t.OneByOne()
  {
    if turns == [] then []
    else
      var before := turns[..|turns| - 1];
      ReceiverTurns(t, before) + ReceiverTold(N.Played(t, before), turns[|turns| - 1])
  }

  /** There too each side is its machine run on exactly what it heard, and every ACK about was sent in that run. */
  lemma {:induction false} PlayersAreRuns(t: Transfer, turns: seq<N.Turn>)
    requires t.OneByOne()
    ensures var s, (rcv, acks) := N.Played(t, turns), R.ServerRun(1, t.r0, ReceiverTurns(t, turns));
      && M.Run(t.cfg, t.stale, SenderTurns(t, turns)).0 == s.snd
      && rcv == s.rcv && (set y | y in acks) == s.acks
  {
    if turns != [] {
      var before, h := turns[..|turns| - 1], turns[|turns| - 1];
      PlayersAreRuns(t, before);
      SenderPlays(t, N.Played(t, before), SenderTurns(t, before), h);
      ReceiverPlays(t, N.Played(t, before), ReceiverTurns(t, before), h);
    }
  }

  lemma SenderPlays(t: Transfer, s: N.Network, events: seq<Event>, h: N.Turn)
    requires N.NetOk(t, s) && M.Run(t.cfg, t.stale, events).0 == s.snd
    ensures M.Run(t.cfg, t.stale, events + SenderTold(t, s, h)).0 == N.Play(t, s, h).snd
  {
    var told := SenderTold(t, s, h);
    if told == [] {
      assert events + told == events;
    } else {
      M.RunSnoc(t.cfg, t.stale, events, h.e);
    }
  }

  lemma ReceiverPlays(t: Transfer, s: N.Network, events: seq<Event>, h: N.Turn)
    requires N.NetOk(t, s)
    requires var (rcv, acks) := R.ServerRun(1, t.r0, events); rcv == s.rcv && (set y | y in acks) == s.acks
    ensures var (rcv, acks) := R.ServerRun(1, t.r0, events + ReceiverTold(s, h));
      rcv == N.Play(t, s, h).rcv && (set y | y in acks) == N.Play(t, s, h).acks
  {
    var told := ReceiverTold(s, h);
    if told == [] {
      assert events + told == events;
    } else {
      assert (events + [h.e])[..|events|] == events;
    }
  }

  lemma NetHolds(t: Transfer, turns: seq<N.Turn>)
    requires t.OneByOne() && |t.cfg.blocks| <= WRAP
    requires EofAgrees(t.cfg.blocks, t.cfg.d, Settled(t.r0, t.cfg.blocks))
    ensures ReceiverHolds(t.cfg, t.r0, N.Played(t, turns).rcv)
  {
    if |t.cfg.blocks| < WRAP {
      N.InvHolds(t, turns);
    } else {
      assert |t.cfg.blocks[0]| == t.cfg.d;
      N.FileInvHolds(t, turns);
    }
  }

  /** The same bounds, the ACK bound up to 65536 blocks. */
  lemma ReorderWithinBudget(t: Transfer, turns: seq<N.Turn>)
    requires t.OneByOne()
    ensures DataCount(M.Run(t.cfg, t.stale, SenderTurns(t, turns)).1) <= 3 * |t.cfg.blocks| + 1
    ensures |t.cfg.blocks| <= WRAP && EofAgrees(t.cfg.blocks, t.cfg.d, Settled(t.r0, t.cfg.blocks)) ==>
      AckCount(R.ServerRun(1, t.r0, ReceiverTurns(t, turns)).1) <= 3 * |t.cfg.blocks| + 1
  {
    DataBudget(t.cfg, t.stale, SenderTurns(t, turns));
    ReceiverAcks(1, t.r0, ReceiverTurns(t, turns));
    if |t.cfg.blocks| <= WRAP && EofAgrees(t.cfg.blocks, t.cfg.d, Settled(t.r0, t.cfg.blocks)) {
      PlayersAreRuns(t, turns);
      NetHolds(t, turns);
      TriesFit(t.cfg, t.r0, N.Played(t, turns).rcv);
    }
  }
}
