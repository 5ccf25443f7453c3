/** Transfers in which nothing is lost and nobody times out. Both pairs: upload (client sender, server
    receiver) and download (server sender, client receiver). The two sides compute the blocks to acknowledge by
    different formulas and from windows set apart; where the two schedules agree, all goes well. */
module Lossless {
  import opened Packets
  import opened Chunking
  import opened StopAndWait
  import opened SlotBuffer
  import opened Budget
  import M = SenderMachine
  import R = ReceiverMachines

  /** The sender's role tells which pair it is; `rw` is the receiver's window, `port` the server's for this
      transfer, `stalePort` what the address structure of a receiving client holds at first. */
  datatype Transfer = Transfer(cfg: M.Config, rw: Window, r0: BlockSize, stale: seq<seq<byte>>,
                               port: Port, stalePort: nat) {
    ghost predicate Valid() { cfg.Valid() && M.SlotArray(stale) }

    /** Both sides take the same block for the last. */
    ghost predicate SameEnd() { Valid() && EofAgrees(cfg.blocks, cfg.d, Settled()) }

    /** The receiver acknowledges block k when it comes. */
    ghost predicate Acknowledges(k: nat) {
      var count: uint16 := k % WRAP;
      match cfg.role
      case Client => count == 0 || count as int % rw == 0 || k == |cfg.blocks|
      case Server => R.ClientAcks(count, rw) || k == |cfg.blocks|
    }

    /** It does so exactly if the sender waits for that. */
    ghost predicate AgreesAt(k: nat) {
      Acknowledges(k) <==> M.Awaits(cfg.role, k % WRAP, cfg.w, k == |cfg.blocks|)
    }

    ghost predicate SchedulesAgree() { forall k :: 1 <= k <= |cfg.blocks| ==> AgreesAt(k) }

    ghost predicate Agrees() { SameEnd() && SchedulesAgree() }

    /** Where the sender's datagrams go, and the receiver's: only clients have to learn that. */
    predicate Reaches(snd: M.Sender) { cfg.role == M.Client ==> snd.port == port }

    predicate Answers(rcv: R.Receiver) { cfg.role == M.Server ==> rcv.port == port }

    function Adapts(n: nat): int {
      if cfg.role == M.Client then R.ServerAdapts(r0, n) else R.ClientAdapts(r0, n)
    }

    ghost function Settled(): int
      requires cfg.Valid()
    {
      Adapts(4 + |cfg.blocks[0]|)
    }

    function ReceiverStep(s: R.Receiver, e: Event): (r: (R.Receiver, seq<Datagram>))
      requires R.Ok(s)
      ensures R.Ok(r.0)
    {
      if cfg.role == M.Client then R.ServerStep(rw, s, e) else R.ClientStep(rw, s, e)
    }

    function ReceiverStart(): (r: (R.Receiver, seq<Datagram>))
      ensures R.Ok(r.0)
    {
      if cfg.role == M.Client then R.ServerStart(rw, r0) else (R.ClientStart(r0, stalePort), [])
    }
  }

  /** `sent` is every DATA datagram sent so far. */
  datatype System = System(snd: M.Sender, rcv: R.Receiver, data: seq<Datagram>, acks: seq<Datagram>,
                           sent: seq<Datagram>)

  datatype Happening = DataArrives | AckArrives

  ghost predicate Ok(t: Transfer, s: System) { t.Valid() && M.Ok(t.cfg, s.snd) && R.Ok(s.rcv) }

  predicate Enabled(s: System, h: Happening) {
    if h == DataArrives then s.data != [] else s.acks != []
  }

  function Apply(t: Transfer, s: System, h: Happening): (r: System)
    requires Ok(t, s)
    ensures Ok(t, r)
  {
    if !Enabled(s, h) then s
    else
      match h
      case DataArrives =>
        var (rcv, out) := t.ReceiverStep(s.rcv, Packet(s.data[0], t.port));
        s.(rcv := rcv, data := s.data[1..], acks := s.acks + if t.Answers(rcv) then out else [])
      case AckArrives =>
        var (snd, out) := M.Step(t.cfg, s.snd, Packet(s.acks[0], t.port));
        s.(snd := snd, acks := s.acks[1..], data := s.data + (if t.Reaches(snd) then out else []), sent := s.sent + out)
  }

  function Start(t: Transfer): (r: System)
    requires t.Valid()
    ensures Ok(t, r)
  {
    var (snd, data) := M.Start(t.cfg, t.stale);
    var (rcv, acks) := t.ReceiverStart();
    System(snd, rcv, data, acks, data)
  }

  function After(t: Transfer, history: seq<Happening>): (r: System)
    requires t.Valid()
    ensures Ok(t, r)
  {
    if history == [] then Start(t)
    else Apply(t, After(t, history[..|history| - 1]), history[|history| - 1])
  }

  // ---------- the receiver ----------

  ghost predicate ReceiverHolds(t: Transfer, s: R.Receiver) {
    && t.SameEnd() && R.Ok(s) && s.phase != R.Aborted
    && s.accepted <= |t.cfg.blocks|
    && s.written == Flatten(t.cfg.blocks[..s.accepted])
    && s.flag == (s.accepted == 0)
    && s.datasize == (if s.accepted == 0 then t.r0 else t.Settled())
    && (s.phase == R.Done <==> s.accepted == |t.cfg.blocks|)
    && (t.cfg.role == M.Server ==> s.port == if s.accepted == 0 then 0 else t.port)
  }

  /** The ACKs for block k: one where the schedule asks for it, two for the last block of some downloads. */
  ghost predicate AcksFor(t: Transfer, k: nat, out: seq<Datagram>) {
    if t.Acknowledges(k) then out == [Ack(k)] || (k == |t.cfg.blocks| && out == [Ack(k), Ack(k)]) else out == []
  }

  lemma UploadTakes(t: Transfer, s: R.Receiver)
    requires ReceiverHolds(t, s) && s.accepted < |t.cfg.blocks| && t.cfg.role == M.Client
    ensures var (r, out) := R.ServerStep(t.rw, s, Packet(t.cfg.Packet(s.accepted + 1), t.port));
      ReceiverHolds(t, r) && r.accepted == s.accepted + 1 && AcksFor(t, r.accepted, out)
  {
    var k := s.accepted + 1;
    DataJudged(t.cfg, k, s.Count(), t.port);
    FlattenPrefix(t.cfg.blocks, s.accepted);
    assert k == |t.cfg.blocks| <==> |t.cfg.blocks[k - 1]| != t.Settled();
  }

  lemma DownloadTakes(t: Transfer, s: R.Receiver)
    requires ReceiverHolds(t, s) && s.accepted < |t.cfg.blocks| && t.cfg.role == M.Server
    ensures var (r, out) := R.ClientStep(t.rw, s, Packet(t.cfg.Packet(s.accepted + 1), t.port));
      ReceiverHolds(t, r) && r.accepted == s.accepted + 1 && AcksFor(t, r.accepted, out)
  {
    var k := s.accepted + 1;
    DataJudged(t.cfg, k, s.Count(), t.port);
    FlattenPrefix(t.cfg.blocks, s.accepted);
    assert k == |t.cfg.blocks| <==> |t.cfg.blocks[k - 1]| != t.Settled();
  }

  lemma NextBlockTaken(t: Transfer, s: R.Receiver)
    requires ReceiverHolds(t, s) && s.accepted < |t.cfg.blocks|
    ensures var (r, out) := t.ReceiverStep(s, Packet(t.cfg.Packet(s.accepted + 1), t.port));
      ReceiverHolds(t, r) && r.accepted == s.accepted + 1 && AcksFor(t, r.accepted, out)
  {
    if t.cfg.role == M.Client { UploadTakes(t, s); } else { DownloadTakes(t, s); }
  }

  // ---------- the whole system ----------

  lemma {:induction false} NoWaitBetween(role: M.Role, c: nat, w: Window, k: nat)
    requires PrevWait(role, c, w) < k < c
    ensures !M.Awaits(role, k % WRAP, w, false)
  {
    if k < c - 1 {
      NoWaitBetween(role, c - 1, w, k);
    }
  }

  /** The ACKs under way once the receiver has caught up with the sender. */
  ghost predicate AcksUnderWay(t: Transfer, s: System) {
    var c := s.snd.cur;
    if s.snd.phase == M.Finished then s.acks == [] || s.acks == [Ack(c)]
    else s.acks == [Ack(c)] || (c == |t.cfg.blocks| && s.acks == [Ack(c), Ack(c)])
  }

  /** No try has failed, and every block so far has been sent once, to the receiver's port. */
  ghost predicate SenderInOrder(t: Transfer, snd: M.Sender, sent: seq<Datagram>)
    requires t.Valid()
  {
    && M.Ok(t.cfg, snd) && snd.phase != M.Aborted && snd.j == 0 && (snd.cur > 0 ==> t.Reaches(snd))
    && (snd.phase == M.Waiting ==> snd.len == 4 + |t.cfg.blocks[snd.cur - 1]|)
    && (snd.phase == M.Handshake <==> snd.cur == 0)
    && sent == PacketRange(t.cfg, 1, snd.cur)
  }

  /** The data under way are the blocks between the two sides, all of one window; the ACK awaited
      comes when the receiver has them all, and no try is ever lost. */
  ghost predicate InOrder(t: Transfer, s: System) {
    var c, r := s.snd.cur, s.rcv.accepted;
    && t.SameEnd() && SenderInOrder(t, s.snd, s.sent) && ReceiverHolds(t, s.rcv)
    && r <= c && (c > 0 ==> PrevWait(t.cfg.role, c, t.cfg.w) <= r)
    && s.data == PacketRange(t.cfg, r + 1, c)
    && (if r == c then AcksUnderWay(t, s) else s.acks == [] && s.snd.phase == M.Waiting)
  }

  lemma PacketRangeAppend(cfg: M.Config, a: nat, b: nat, c: nat)
    requires cfg.Valid() && 1 <= a <= b + 1 <= c + 1 <= |cfg.blocks| + 1
    ensures PacketRange(cfg, a, b) + PacketRange(cfg, b + 1, c) == PacketRange(cfg, a, c)
  {
  }

  /** What an arriving block leaves under way. */
  lemma ArrivesInOrder(t: Transfer, s: System)
    requires InOrder(t, s) && s.data != []
    ensures var k := s.rcv.accepted + 1;
      var (rcv, out) := t.ReceiverStep(s.rcv, Packet(t.cfg.Packet(k), t.port));
      && k <= s.snd.cur && ReceiverHolds(t, rcv) && rcv.accepted == k && AcksFor(t, k, out)
      && Apply(t, s, DataArrives) == s.(rcv := rcv, data := PacketRange(t.cfg, k + 1, s.snd.cur), acks := out)
  {
    var c, k := s.snd.cur, s.rcv.accepted + 1;
    PacketRangeCons(t.cfg, k, c);
    assert s.data[0] == t.cfg.Packet(k) && s.data[1..] == PacketRange(t.cfg, k + 1, c);
    NextBlockTaken(t, s.rcv);
    var out := t.ReceiverStep(s.rcv, Packet(s.data[0], t.port)).1;
    assert s.acks + out == out;
  }

  /** The ACKs are those the sender waits for, or none before its last block. */
  lemma AcksInOrder(t: Transfer, s: System, out: seq<Datagram>)
    requires InOrder(t, s) && s.rcv.accepted < s.snd.cur
    requires var k := s.rcv.accepted + 1; t.AgreesAt(k) && AcksFor(t, k, out)
    ensures if s.rcv.accepted + 1 < s.snd.cur then out == []
            else out == [Ack(s.snd.cur)] || (s.snd.cur == |t.cfg.blocks| && out == [Ack(s.snd.cur), Ack(s.snd.cur)])
  {
    var c, k := s.snd.cur, s.rcv.accepted + 1;
    if k < c {
      NoWaitBetween(t.cfg.role, c, t.cfg.w, k);
    }
  }

  lemma DataKeepsOrder(t: Transfer, s: System)
    requires InOrder(t, s) && s.data != [] && t.AgreesAt(s.rcv.accepted + 1)
    ensures InOrder(t, Apply(t, s, DataArrives))
  {
    ArrivesInOrder(t, s);
    AcksInOrder(t, s, t.ReceiverStep(s.rcv, Packet(t.cfg.Packet(s.rcv.accepted + 1), t.port)).1);
  }

  /** The first ACK under way is the one awaited, or a second one after the end. */
  lemma AckTurns(t: Transfer, s: System)
    requires InOrder(t, s) && s.acks != []
    ensures M.Step(t.cfg, s.snd, Packet(s.acks[0], t.port))
         == if s.snd.cur < |t.cfg.blocks| then M.Burst(t.cfg, Settles(t, s.snd)) else (s.snd.(phase := M.Finished), [])
  {
    assert s.acks[0] == Ack(s.snd.cur);
    AckJudged(s.snd.cur, s.snd.Count(), t.port);
  }

  /** The handshake learns the server's port. */
  function Settles(t: Transfer, snd: M.Sender): M.Sender {
    if snd.phase == M.Handshake then snd.(port := t.port) else snd
  }

  /** The next burst goes to a receiver that has caught up. */
  lemma BurstKeepsOrder(t: Transfer, s: System)
    requires InOrder(t, s) && s.acks != [] && s.rcv.accepted == s.snd.cur < |t.cfg.blocks|
    ensures var (u, out) := M.Burst(t.cfg, Settles(t, s.snd)); InOrder(t, System(u, s.rcv, out, [], s.sent + out))
  {
    WholeBurst(t.cfg, Settles(t, s.snd));
  }

  /** A burst and all before it. */
  lemma WholeBurst(cfg: M.Config, s: M.Sender)
    requires cfg.Valid() && M.SlotArray(s.slots) && s.cur < |cfg.blocks|
    ensures var (u, out) := M.Burst(cfg, s);
      && out == PacketRange(cfg, s.cur + 1, u.cur) && PacketRange(cfg, 1, s.cur) + out == PacketRange(cfg, 1, u.cur)
      && PrevWait(cfg.role, u.cur, cfg.w) <= s.cur && u.len == 4 + |cfg.blocks[u.cur - 1]|
  {
    BurstFacts(cfg, s);
    PacketRangeAppend(cfg, 1, s.cur, M.Burst(cfg, s).0.cur);
  }

  lemma AckKeepsOrder(t: Transfer, s: System)
    requires InOrder(t, s) && s.acks != []
    ensures InOrder(t, Apply(t, s, AckArrives))
  {
    AckTurns(t, s);
    if s.snd.cur < |t.cfg.blocks| {
      BurstKeepsOrder(t, s);
      var (u, out) := M.Burst(t.cfg, Settles(t, s.snd));
      assert s.data + out == out && s.acks[1..] == [];
    } else {
      assert s.data + [] == s.data && s.sent + [] == s.sent;
    }
  }

  lemma StartsInOrder(t: Transfer)
    requires t.SameEnd()
    ensures InOrder(t, Start(t))
  {
    if t.cfg.role == M.Server {
      BurstFacts(t.cfg, M.Idle(t.cfg, t.stale));
    }
  }

  lemma {:induction false} InOrderHolds(t: Transfer, history: seq<Happening>)
    requires t.Agrees()
    ensures InOrder(t, After(t, history))
  {
    if history == [] {
      StartsInOrder(t);
    } else {
      var s, h := After(t, history[..|history| - 1]), history[|history| - 1];
      InOrderHolds(t, history[..|history| - 1]);
      if Enabled(s, h) {
        if h == DataArrives { DataKeepsOrder(t, s); } else { AckKeepsOrder(t, s); }
      }
    }
  }

  // ---------- what it gives ----------

  /** Every ACK wait is met on its first try, and no block is ever sent twice. */
  lemma FirstTry(t: Transfer, history: seq<Happening>)
    requires t.Agrees()
    ensures var s := After(t, history);
      s.snd.j == 0 && s.snd.phase != M.Aborted && s.sent == PacketRange(t.cfg, 1, s.snd.cur)
  {
    InOrderHolds(t, history);
  }

  /** The arrivals still to come, at most. */
  function Remaining(t: Transfer, s: System): int { 3 * (|t.cfg.blocks| - s.rcv.accepted) + |s.acks| }

  lemma DataProgress(t: Transfer, s: System)
    requires InOrder(t, s) && s.data != [] && t.AgreesAt(s.rcv.accepted + 1)
    ensures 0 <= Remaining(t, Apply(t, s, DataArrives)) < Remaining(t, s)
  {
    PacketRangeCons(t.cfg, s.rcv.accepted + 1, s.snd.cur);
    NextBlockTaken(t, s.rcv);
  }

  lemma AckProgress(t: Transfer, s: System)
    requires Ok(t, s) && s.acks != [] && s.rcv.accepted <= |t.cfg.blocks|
    ensures 0 <= Remaining(t, Apply(t, s, AckArrives)) < Remaining(t, s)
  {
  }

  /** Every arrival brings the end nearer. */
  lemma Progress(t: Transfer, history: seq<Happening>, h: Happening)
    requires t.Agrees() && Enabled(After(t, history), h)
    ensures 0 <= Remaining(t, Apply(t, After(t, history), h)) < Remaining(t, After(t, history))
  {
    InOrderHolds(t, history);
    match h
    case DataArrives => DataProgress(t, After(t, history));
    case AckArrives => AckProgress(t, After(t, history));
  }

  /** Both sides report success, and the files are the same. */
  ghost predicate Succeeded(t: Transfer, s: System) {
    s.snd.phase == M.Finished && s.rcv.phase == R.Done && s.rcv.written == Flatten(t.cfg.blocks)
  }

  /** When nothing is under way any more, both sides have succeeded, the files are the same, and every
      block has been sent exactly once. */
  lemma LosslessCompletes(t: Transfer, history: seq<Happening>)
    requires t.Agrees() && !Enabled(After(t, history), DataArrives) && !Enabled(After(t, history), AckArrives)
    ensures var s := After(t, history);
      && Succeeded(t, s)
      && s.sent == PacketRange(t.cfg, 1, |t.cfg.blocks|)
  {
    InOrderHolds(t, history);
    assert t.cfg.blocks[..|t.cfg.blocks|] == t.cfg.blocks;
  }

  /** So every lossless run, from any point it may have reached, runs on into success. */
  lemma {:induction false} RunsOn(t: Transfer, history: seq<Happening>) returns (all: seq<Happening>)
    requires t.Agrees()
    ensures history <= all
    ensures Succeeded(t, After(t, all))
    decreases Remaining(t, After(t, history))
  {
    var s := After(t, history);
    if !Enabled(s, DataArrives) && !Enabled(s, AckArrives) {
      all := history;
      LosslessCompletes(t, history);
    } else {
      var h := if Enabled(s, DataArrives) then DataArrives else AckArrives;
      Progress(t, history, h);
      assert (history + [h])[..|history|] == history;
      all := RunsOn(t, history + [h]);
    }
  }
}
