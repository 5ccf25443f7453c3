/** Uploading at ackfreq 1 over a network that loses, repeats and reorders: whatever was ever sent may
    arrive at any later time, any number of times or never. The sides stay together up to 65535 blocks, the
    file is right up to 65536. */
module UploadReorder {
  import opened Packets
  import opened Chunking
  import opened StopAndWait
  import opened F = UploadFifo
  import M = SenderMachine
  import R = ReceiverMachines

  /** `data` and `acks` are the datagrams sent so far. */
  datatype Network = Network(snd: M.Sender, rcv: R.Receiver, data: set<Datagram>, acks: set<Datagram>)

  /** One of the two sides has an outcome of its wait. */
  datatype Turn = SenderTurn(e: Event) | ReceiverTurn(e: Event)

  ghost predicate NetOk(t: Transfer, s: Network) { t.OneByOne() && M.Ok(t.cfg, s.snd) && R.Ok(s.rcv) }

  /** A packet that was never sent cannot arrive, and the server's come from its port: such a turn changes nothing. */
  function Play(t: Transfer, s: Network, h: Turn): (r: Network)
    requires NetOk(t, s)
    ensures NetOk(t, r)
  {
    match h
    case SenderTurn(e) =>
      if e.Packet? && (e.d !in s.acks || e.port != t.port) then s
      else
        var (snd, out) := M.Step(t.cfg, s.snd, e);
        s.(snd := snd, data := s.data + set d | d in Delivered(t, snd, out))
    case ReceiverTurn(e) =>
      if e.Packet? && e.d !in s.data then s
      else
        var (rcv, out) := R.ServerStep(1, s.rcv, e);
        s.(rcv := rcv, acks := s.acks + set d | d in out)
  }

  function Played(t: Transfer, turns: seq<Turn>): (r: Network)
    requires t.OneByOne()
    ensures NetOk(t, r)
  {
    if turns == [] then
      var (rcv, acks) := R.ServerStart(1, t.r0);
      Network(M.Start(t.cfg, t.stale).0, rcv, {}, set d | d in acks)
    else Play(t, Played(t, turns[..|turns| - 1]), turns[|turns| - 1])
  }

  lemma PlayedSnoc(t: Transfer, turns: seq<Turn>, h: Turn)
    requires t.OneByOne()
    ensures Played(t, turns + [h]) == Play(t, Played(t, turns), h)
  {
    assert (turns + [h])[..|turns|] == turns;
  }

  /** The sides are at most one block apart, the file is a block prefix of the source, and success is success. */
  ghost predicate Safe(t: Transfer, s: Network) {
    && s.rcv.accepted <= s.snd.cur <= s.rcv.accepted + 1
    && s.rcv.accepted <= |t.cfg.blocks|
    && s.rcv.written == Flatten(t.cfg.blocks[..s.rcv.accepted])
    && (s.snd.phase == M.Finished ==> s.rcv.accepted == |t.cfg.blocks|)
  }

  ghost predicate WasSent(t: Transfer, c: nat, d: Datagram)
    requires t.OneByOne()
  {
    exists k :: 1 <= k <= c && k <= |t.cfg.blocks| && d == t.cfg.Packet(k)
  }

  ghost predicate WasAcked(r: nat, d: Datagram) { exists k :: 0 <= k <= r && d == Ack(k) }

  /** Every packet about is of a block up to the sender's, every ACK of a block the receiver has written. */
  ghost predicate FileInv(t: Transfer, s: Network) {
    var c, r := s.snd.cur, s.rcv.accepted;
    && t.OneByOne()
    && SenderReady(t.cfg, s.snd) && ReceiverHolds(t.cfg, t.r0, s.rcv)
    && r <= c <= r + 1
    && (s.snd.phase == M.Handshake <==> c == 0)
    && (forall d :: d in s.data ==> WasSent(t, c, d))
    && (forall d :: d in s.acks ==> WasAcked(r, d))
  }

  /** And the sender's success is one. */
  ghost predicate Inv(t: Transfer, s: Network) {
    FileInv(t, s) && (s.snd.phase == M.Finished ==> s.rcv.accepted == s.snd.cur)
  }

  /** Up to 2^16 equal counts are equal blocks. */
  lemma SameCount(k: nat, r: nat)
    requires 1 <= k <= r + 1 <= WRAP && k % WRAP == (r + 1) % WRAP
    ensures k == r + 1
  {
  }

  lemma SmallNumbers(k: nat, c: nat)
    requires k <= c < WRAP
    ensures k % WRAP == c % WRAP <==> k == c
  {
  }

  lemma PacketsGrow(t: Transfer, c: nat, c': nat, data: set<Datagram>, out: seq<Datagram>)
    requires t.OneByOne() && c <= c' && (forall d :: d in data ==> WasSent(t, c, d))
    requires out == [] || (1 <= c' <= |t.cfg.blocks| && out == [t.cfg.Packet(c')])
    ensures forall d :: d in data + (set d | d in out) ==> WasSent(t, c', d)
  {
    forall d | d in data + (set d | d in out) ensures WasSent(t, c', d) {
      if d in data {
        assert WasSent(t, c, d);
      } else {
        assert d == t.cfg.Packet(c');
      }
    }
  }

  lemma AcksGrow(r: nat, r': nat, acks: set<Datagram>, out: seq<Datagram>)
    requires r <= r' && (forall d :: d in acks ==> WasAcked(r, d))
    requires out == [] || out == [Ack(r')]
    ensures forall d :: d in acks + (set d | d in out) ==> WasAcked(r', d)
  {
    forall d | d in acks + (set d | d in out) ensures WasAcked(r', d) {
      if d in acks {
        assert WasAcked(r, d);
      } else {
        assert d == Ack(r');
      }
    }
  }

  lemma SenderTurnKeeps(t: Transfer, s: Network, e: Event, k: nat)
    requires Inv(t, s) && s.snd.cur < WRAP
    requires e.Packet? ==> e.d in s.acks && e.port == t.port && k <= s.rcv.accepted && e.d == Ack(k)
    ensures Inv(t, Play(t, s, SenderTurn(e)))
  {
    if e.Packet? {
      SmallNumbers(k, s.snd.cur);
    }
    SenderMove(t.cfg, s.snd, e, k);
    var (snd, out) := M.Step(t.cfg, s.snd, e);
    PacketsGrow(t, s.snd.cur, snd.cur, s.data, Delivered(t, snd, out));
  }

  lemma ReceiverTurnKeeps(t: Transfer, s: Network, e: Event, k: nat)
    requires Inv(t, s) && s.snd.cur < WRAP
    requires e.Packet? ==> e.d in s.data && 1 <= k <= s.snd.cur && k <= |t.cfg.blocks| && e.d == t.cfg.Packet(k)
    ensures Inv(t, Play(t, s, ReceiverTurn(e)))
  {
    if e.Packet? && k % WRAP == s.rcv.Count() {
      SameCount(k, s.rcv.accepted);
    }
    ReceiverMove(t.cfg, t.r0, s.rcv, e, k);
    var (rcv, out) := R.ServerStep(1, s.rcv, e);
    AcksGrow(s.rcv.accepted, rcv.accepted, s.acks, out);
  }

  lemma TurnKeeps(t: Transfer, s: Network, h: Turn)
    requires Inv(t, s) && s.snd.cur < WRAP
    ensures Inv(t, Play(t, s, h))
  {
    match h
    case SenderTurn(e) =>
      if !e.Packet? {
        SenderTurnKeeps(t, s, e, 0);
      } else if e.d in s.acks && e.port == t.port {
        assert WasAcked(s.rcv.accepted, e.d);
        var k :| 0 <= k <= s.rcv.accepted && e.d == Ack(k);
        SenderTurnKeeps(t, s, e, k);
      }
    case ReceiverTurn(e) =>
      if !e.Packet? {
        ReceiverTurnKeeps(t, s, e, 0);
      } else if e.d in s.data {
        assert WasSent(t, s.snd.cur, e.d);
        var k :| 1 <= k <= s.snd.cur && k <= |t.cfg.blocks| && e.d == t.cfg.Packet(k);
        ReceiverTurnKeeps(t, s, e, k);
      }
  }

  /** A receiver that goes by another chunk size ends with the first of several blocks. */
  ghost predicate EndsEarly(t: Transfer) { |t.cfg.blocks| > 1 && Settled(t.r0, t.cfg.blocks) != t.cfg.d }

  /** A receiver that ends early stays where it is. */
  lemma EarlyEndStays(t: Transfer, s: Network, h: Turn)
    requires Inv(t, s) && EndsEarly(t) && s.rcv.accepted <= 1
    ensures Play(t, s, h).rcv.accepted <= 1
  {
  }

  lemma {:induction false} InvHolds(t: Transfer, turns: seq<Turn>)
    requires t.OneByOne() && (|t.cfg.blocks| < WRAP || EndsEarly(t))
    ensures Inv(t, Played(t, turns)) && (EndsEarly(t) ==> Played(t, turns).rcv.accepted <= 1)
  {
    if turns == [] {
      ReceiverStarts(t.cfg, t.r0);
      assert WasAcked(0, Ack(0));
    } else {
      var s, h := Played(t, turns[..|turns| - 1]), turns[|turns| - 1];
      InvHolds(t, turns[..|turns| - 1]);
      TurnKeeps(t, s, h);
      if EndsEarly(t) {
        EarlyEndStays(t, s, h);
      }
    }
  }

  /** An ACK for block k in the network means that block k is in the receiver's file. */
  lemma AckMeansWritten(t: Transfer, turns: seq<Turn>, k: nat)
    requires t.OneByOne() && (|t.cfg.blocks| < WRAP || EndsEarly(t)) && k < WRAP
    requires Ack(k) in Played(t, turns).acks
    ensures k <= Played(t, turns).rcv.accepted && Safe(t, Played(t, turns))
  {
    InvHolds(t, turns);
    var r := Played(t, turns).rcv.accepted;
    assert WasAcked(r, Ack(k));
    var k' :| 0 <= k' <= r && Ack(k) == Ack(k');
    AckInjective(k, k');
  }

  // ---------- exactly 65536 blocks: the sender may be wrong, the file is not ----------

  /** At the last of 65536 blocks the sender sends that block again or ends, whatever it hears. */
  lemma LastSenderTurn(t: Transfer, s: Network, e: Event)
    requires FileInv(t, s) && s.snd.cur == |t.cfg.blocks|
    requires e.Packet? ==> exists k: nat :: e.d == Ack(k)
    ensures FileInv(t, Play(t, s, SenderTurn(e)))
  {
    if e.Packet? {
      var k: nat :| e.d == Ack(k);
      AckJudged(k, s.snd.Count(), e.port);
    }
    if s.snd.phase == M.Waiting {
      FailResends(t.cfg, s.snd);
    }
    var (snd, out) := M.Step(t.cfg, s.snd, e);
    PacketsGrow(t, s.snd.cur, snd.cur, s.data, Delivered(t, snd, out));
  }

  lemma FileTurn(t: Transfer, s: Network, h: Turn)
    requires FileInv(t, s) && |t.cfg.blocks| <= WRAP && Settled(t.r0, t.cfg.blocks) == t.cfg.d
    ensures FileInv(t, Play(t, s, h))
  {
    match h
    case SenderTurn(e) =>
      if e.Packet? && e.d in s.acks && e.port == t.port {
        assert WasAcked(s.rcv.accepted, e.d);
        var k: nat :| k <= s.rcv.accepted && e.d == Ack(k);
        if s.snd.cur == |t.cfg.blocks| {
          LastSenderTurn(t, s, e);
        } else {
          EarlierSenderTurn(t, s, e, k);
        }
      } else if !e.Packet? {
        EarlierSenderTurn(t, s, e, 0);
      }
    case ReceiverTurn(e) =>
      if !e.Packet? {
        FileReceiverTurn(t, s, e, 0);
      } else if e.d in s.data {
        assert WasSent(t, s.snd.cur, e.d);
        var k :| 1 <= k <= s.snd.cur && k <= |t.cfg.blocks| && e.d == t.cfg.Packet(k);
        FileReceiverTurn(t, s, e, k);
      }
  }

  lemma EarlierSenderTurn(t: Transfer, s: Network, e: Event, k: nat)
    requires FileInv(t, s) && |t.cfg.blocks| <= WRAP
    requires e.Packet? ==> e.d in s.acks && e.port == t.port && e.d == Ack(k) && k <= s.rcv.accepted
    requires e.Packet? ==> s.snd.cur < |t.cfg.blocks|
    ensures FileInv(t, Play(t, s, SenderTurn(e)))
  {
    if e.Packet? {
      SmallNumbers(k, s.snd.cur);
    }
    SenderMove(t.cfg, s.snd, e, k);
    var (snd, out) := M.Step(t.cfg, s.snd, e);
    PacketsGrow(t, s.snd.cur, snd.cur, s.data, Delivered(t, snd, out));
  }

  lemma FileReceiverTurn(t: Transfer, s: Network, e: Event, k: nat)
    requires FileInv(t, s) && |t.cfg.blocks| <= WRAP && Settled(t.r0, t.cfg.blocks) == t.cfg.d
    requires e.Packet? ==> e.d in s.data && 1 <= k <= s.snd.cur && k <= |t.cfg.blocks| && e.d == t.cfg.Packet(k)
    ensures FileInv(t, Play(t, s, ReceiverTurn(e)))
  {
    var (rcv, out) := R.ServerStep(1, s.rcv, e);
    if s.rcv.phase == R.Receiving {
      assert s.rcv.accepted < |t.cfg.blocks|;
      if e.Packet? && k % WRAP == s.rcv.Count() {
        SameCount(k, s.rcv.accepted);
      }
      ReceiverMove(t.cfg, t.r0, s.rcv, e, k);
    }
    AcksGrow(s.rcv.accepted, rcv.accepted, s.acks, out);
  }

  lemma {:induction false} FileInvHolds(t: Transfer, turns: seq<Turn>)
    requires t.OneByOne() && |t.cfg.blocks| <= WRAP && Settled(t.r0, t.cfg.blocks) == t.cfg.d
    ensures FileInv(t, Played(t, turns))
  {
    if turns == [] {
      ReceiverStarts(t.cfg, t.r0);
      assert WasAcked(0, Ack(0));
    } else {
      FileInvHolds(t, turns[..|turns| - 1]);
      FileTurn(t, Played(t, turns[..|turns| - 1]), turns[|turns| - 1]);
    }
  }

  // ---------- beyond ----------

  /** Block k is under way, the receiver waits for it, and every packet and the first ACK are still about. */
  ghost predicate Climbed(t: Transfer, s: Network, k: nat) {
    && t.OneByOne() && 1 <= k <= |t.cfg.blocks|
    && SenderReady(t.cfg, s.snd) && s.snd.phase == M.Waiting && s.snd.cur == k && s.snd.port == t.port
    && ReceiverHolds(t.cfg, t.r0, s.rcv) && s.rcv.phase == R.Receiving && s.rcv.accepted == k - 1
    && Ack(0) in s.acks && StillAbout(t, s, k)
  }

  ghost predicate StillAbout(t: Transfer, s: Network, k: nat)
    requires t.OneByOne() && k <= |t.cfg.blocks|
  {
    forall i :: 1 <= i <= k ==> t.cfg.Packet(i) in s.data
  }

  lemma ClimbStart(t: Transfer) returns (turns: seq<Turn>)
    requires t.OneByOne()
    ensures Climbed(t, Played(t, turns), 1)
  {
    ReceiverStarts(t.cfg, t.r0);
    var first := Packet(Ack(0), t.port);
    turns := [SenderTurn(first)];
    PlayedSnoc(t, [], SenderTurn(first));
    assert [] + turns == turns;
    SenderMove(t.cfg, Played(t, []).snd, first, 0);
  }

  /** Without trouble the transfer gets to any block. */
  lemma {:induction false} Climb(t: Transfer, k: nat) returns (turns: seq<Turn>)
    requires t.OneByOne() && Settled(t.r0, t.cfg.blocks) == t.cfg.d
    requires 1 <= k <= |t.cfg.blocks|
    ensures Climbed(t, Played(t, turns), k)
  {
    if k == 1 {
      turns := ClimbStart(t);
    } else {
      turns := Climb(t, k - 1);
      turns := ClimbOne(t, turns, k - 1);
    }
  }

  lemma ClimbOne(t: Transfer, before: seq<Turn>, k: nat) returns (turns: seq<Turn>)
    requires t.OneByOne() && Settled(t.r0, t.cfg.blocks) == t.cfg.d && k < |t.cfg.blocks|
    requires Climbed(t, Played(t, before), k)
    ensures Climbed(t, Played(t, turns), k + 1)
  {
    var s := Played(t, before);
    var data, ack := Packet(t.cfg.Packet(k)), Packet(Ack(k), t.port);
    ReceiverMove(t.cfg, t.r0, s.rcv, data, k);
    PlayedSnoc(t, before, ReceiverTurn(data));
    var middle := before + [ReceiverTurn(data)];
    SenderMove(t.cfg, s.snd, ack, k);
    PlayedSnoc(t, middle, SenderTurn(ack));
    turns := middle + [SenderTurn(ack)];
  }

  /** When the count wraps to 0, the old ACK 0 passes for that of block 65536. */
  lemma StaleAckBreaks(t: Transfer) returns (turns: seq<Turn>)
    requires t.OneByOne() && Settled(t.r0, t.cfg.blocks) == t.cfg.d
    requires |t.cfg.blocks| >= WRAP
    ensures !Safe(t, Played(t, turns))
  {
    turns := Climb(t, WRAP);
    var s := Played(t, turns);
    var ack := Packet(Ack(0), t.port);
    FirstAckTaken(t.cfg, s.snd, t.port);
    PlayedSnoc(t, turns, SenderTurn(ack));
    turns := turns + [SenderTurn(ack)];
  }

  /** The two sides keep together on every run exactly for files of at most 65535 blocks, or where the
      receiver ends with the first block. */
  lemma ReorderSafeIff(t: Transfer)
    requires t.OneByOne()
    ensures (forall turns :: Safe(t, Played(t, turns)))
            <==> |t.cfg.blocks| < WRAP || Settled(t.r0, t.cfg.blocks) != t.cfg.d
  {
    if |t.cfg.blocks| < WRAP || Settled(t.r0, t.cfg.blocks) != t.cfg.d {
      forall turns ensures Safe(t, Played(t, turns)) {
        InvHolds(t, turns);
      }
    } else {
      var turns := StaleAckBreaks(t);
    }
  }

  // ---------- what the user sees ----------

  /** The receiver waits for the block after `accepted`, and every packet sent is still about. */
  ghost predicate Waits(t: Transfer, s: Network, accepted: nat) {
    && t.OneByOne() && NetOk(t, s) && StillAbout(t, s, |t.cfg.blocks|)
    && s.rcv.phase == R.Receiving && s.rcv.accepted == accepted && !s.rcv.flag && s.rcv.datasize == t.cfg.d
  }

  /** It takes any packet with the number it waits for. */
  lemma StaleDataTaken(t: Transfer, before: seq<Turn>, accepted: nat, k: nat) returns (turns: seq<Turn>)
    requires t.OneByOne() && Waits(t, Played(t, before), accepted)
    requires 1 <= k <= |t.cfg.blocks| && k % WRAP == (accepted + 1) % WRAP
    ensures var s, s' := Played(t, before), Played(t, turns);
      && s'.rcv.written == s.rcv.written + t.cfg.blocks[k - 1]
      && if k < |t.cfg.blocks| then Waits(t, s', accepted + 1) else s'.rcv.phase == R.Done
  {
    var s, data := Played(t, before), Packet(t.cfg.Packet(k));
    NumberTaken(t.cfg, 1, s.rcv, k);
    PlayedSnoc(t, before, ReceiverTurn(data));
    turns := before + [ReceiverTurn(data)];
  }

  lemma PrefixesFit(t: Transfer, file: seq<byte>)
    requires BlockPrefix(t.cfg.blocks, file)
    ensures |file| <= |t.File()|
  {
    var blocks := t.cfg.blocks;
    var r :| 0 <= r <= |blocks| && file == Flatten(blocks[..r]);
    FlattenGrows(blocks, r, |blocks|);
    assert blocks[..|blocks|] == blocks;
  }

  lemma RoundOnce(k: nat)
    ensures (k + WRAP) % WRAP == k % WRAP
  {
  }

  lemma LastBlockAwaited(t: Transfer) returns (turns: seq<Turn>)
    requires t.OneByOne() && Settled(t.r0, t.cfg.blocks) == t.cfg.d && |t.cfg.blocks| > 1
    ensures Waits(t, Played(t, turns), |t.cfg.blocks| - 1)
    ensures |Played(t, turns).rcv.written| + |t.cfg.blocks[|t.cfg.blocks| - 1]| == |t.File()|
  {
    var blocks := t.cfg.blocks;
    turns := Climb(t, |blocks|);
    FlattenPrefix(blocks, |blocks| - 1);
    assert blocks[..|blocks| - 1 + 1] == blocks;
  }

  /** Beyond 65536 blocks an old block takes the place of the last one: the file gets too long. */
  lemma StaleDataBreaks(t: Transfer) returns (turns: seq<Turn>)
    requires t.OneByOne() && Settled(t.r0, t.cfg.blocks) == t.cfg.d && |t.cfg.blocks| > WRAP
    ensures Waits(t, Played(t, turns), |t.cfg.blocks|)
    ensures |Played(t, turns).rcv.written| > |t.File()|
  {
    var k := |t.cfg.blocks| - WRAP;
    OldIsLonger(t.cfg, k);
    turns := LastBlockAwaited(t);
    turns := OldBlockTaken(t, turns, k);
  }

  lemma OldIsLonger(cfg: M.Config, k: nat)
    requires cfg.Valid() && 1 <= k < |cfg.blocks|
    ensures |cfg.blocks[k - 1]| > |cfg.blocks[|cfg.blocks| - 1]|
  {
  }

  lemma OldBlockTaken(t: Transfer, before: seq<Turn>, k: nat) returns (turns: seq<Turn>)
    requires t.OneByOne() && k + WRAP == |t.cfg.blocks| && k > 0
    requires Waits(t, Played(t, before), |t.cfg.blocks| - 1)
    ensures Waits(t, Played(t, turns), |t.cfg.blocks|)
    ensures |Played(t, turns).rcv.written| == |Played(t, before).rcv.written| + |t.cfg.blocks[k - 1]|
  {
    RoundOnce(k);
    turns := StaleDataTaken(t, before, |t.cfg.blocks| - 1, k);
  }

  /** The receiver's file is made of the first blocks of the source on every run exactly for files of at
      most 65536 blocks, or where the receiver ends with the first block. */
  lemma ReorderFileSafeIff(t: Transfer)
    requires t.OneByOne()
    ensures (forall turns :: BlockPrefix(t.cfg.blocks, Played(t, turns).rcv.written))
            <==> |t.cfg.blocks| <= WRAP || Settled(t.r0, t.cfg.blocks) != t.cfg.d
  {
    if |t.cfg.blocks| <= WRAP || Settled(t.r0, t.cfg.blocks) != t.cfg.d {
      forall turns ensures BlockPrefix(t.cfg.blocks, Played(t, turns).rcv.written) {
        if Settled(t.r0, t.cfg.blocks) == t.cfg.d { FileInvHolds(t, turns); } else { InvHolds(t, turns); }
      }
    } else {
      var turns := StaleDataBreaks(t);
      if BlockPrefix(t.cfg.blocks, Played(t, turns).rcv.written) {
        PrefixesFit(t, Played(t, turns).rcv.written);
      }
    }
  }

  /** A receiver that reports success has the whole file, whatever became of the sender. */
  lemma ReceiverSuccessMeansComplete(t: Transfer, turns: seq<Turn>)
    requires t.OneByOne()
    requires |t.File()| <= t.cfg.d || (Settled(t.r0, t.cfg.blocks) == t.cfg.d && |t.cfg.blocks| <= WRAP)
    requires Played(t, turns).rcv.phase == R.Done
    ensures Played(t, turns).rcv.written == t.File()
  {
    AtMostOneChunk(t.cfg.blocks, t.cfg.d);
    if |t.File()| <= t.cfg.d { InvHolds(t, turns); } else { FileInvHolds(t, turns); }
    WholeWhenDone(t.cfg, t.r0, Played(t, turns).rcv);
  }

  /** Old blocks carry it round all 65536 numbers to the last block, which ends it. */
  lemma {:induction false} StaleClimb(t: Transfer, j: nat) returns (turns: seq<Turn>)
    requires t.OneByOne() && Settled(t.r0, t.cfg.blocks) == t.cfg.d && |t.cfg.blocks| > WRAP
    requires j < WRAP
    ensures Waits(t, Played(t, turns), |t.cfg.blocks| + j)
    ensures |Played(t, turns).rcv.written| > |t.File()|
  {
    if j == 0 {
      turns := StaleDataBreaks(t);
    } else {
      turns := StaleClimb(t, j - 1);
      RoundOnce(|t.cfg.blocks| - WRAP + j);
      turns := StaleDataTaken(t, turns, |t.cfg.blocks| + j - 1, |t.cfg.blocks| - WRAP + j);
    }
  }

  lemma FirstBlockEnds(t: Transfer) returns (turns: seq<Turn>)
    requires t.OneByOne() && EndsEarly(t)
    ensures Played(t, turns).rcv.phase == R.Done && Played(t, turns).rcv.written == t.cfg.blocks[0]
  {
    var before := ClimbStart(t);
    var data := Packet(t.cfg.Packet(1));
    ReceiverMove(t.cfg, t.r0, Played(t, before).rcv, data, 1);
    PlayedSnoc(t, before, ReceiverTurn(data));
    turns := before + [ReceiverTurn(data)];
    SingleBlock(t.cfg.blocks[..1]);
  }

  lemma WrongSuccess(t: Transfer) returns (turns: seq<Turn>)
    requires t.OneByOne() && |t.File()| > t.cfg.d
    requires |t.cfg.blocks| > WRAP || Settled(t.r0, t.cfg.blocks) != t.cfg.d
    ensures Played(t, turns).rcv.phase == R.Done && Played(t, turns).rcv.written != t.File()
  {
    AtMostOneChunk(t.cfg.blocks, t.cfg.d);
    if Settled(t.r0, t.cfg.blocks) == t.cfg.d {
      turns := StaleClimb(t, WRAP - 1);
      RoundOnce(|t.cfg.blocks|);
      turns := StaleDataTaken(t, turns, |t.cfg.blocks| + WRAP - 1, |t.cfg.blocks|);
    } else {
      turns := FirstBlockEnds(t);
    }
  }

  /** Every success of the receiver is one exactly for files of at most one chunk, and for those of at most
      65536 blocks if the receiver goes by the sender's chunk size. */
  lemma ReceiverSuccessMeansCompleteIff(t: Transfer)
    requires t.OneByOne()
    ensures (forall turns :: Played(t, turns).rcv.phase == R.Done ==> Played(t, turns).rcv.written == t.File())
            <==> |t.File()| <= t.cfg.d || (Settled(t.r0, t.cfg.blocks) == t.cfg.d && |t.cfg.blocks| <= WRAP)
  {
    if |t.File()| <= t.cfg.d || (Settled(t.r0, t.cfg.blocks) == t.cfg.d && |t.cfg.blocks| <= WRAP) {
      forall turns | Played(t, turns).rcv.phase == R.Done ensures Played(t, turns).rcv.written == t.File() {
        ReceiverSuccessMeansComplete(t, turns);
      }
    } else {
      var turns := WrongSuccess(t);
    }
  }
}
