/** Uploading (`tsend` of tftpc.c, `tget` of tftpd.c) over channels that keep the order of what they
    deliver but lose and repeat datagrams; and its safety at ackfreq 1, for files of any length: the 16-bit
    block numbers wrap as often as they like. */
module UploadFifo {
  import opened Packets
  import opened Chunking
  import opened StopAndWait
  import M = SenderMachine
  import R = ReceiverMachines

  /** `data` and `acks` are under way; `allData` and `allAcks` is what each side has sent so far. */
  datatype System = System(snd: M.Sender, rcv: R.Receiver, data: seq<Datagram>, acks: seq<Datagram>,
                           allData: seq<Datagram>, allAcks: seq<Datagram>)

  /** `port` is the one the server does this transfer on. */
  datatype Transfer = Transfer(cfg: M.Config, r0: BlockSize, stale: seq<seq<byte>>, port: Port) {
    ghost predicate Valid() { cfg.Valid() && cfg.role == M.Client && M.SlotArray(stale) }

    ghost predicate OneByOne() { Valid() && cfg.w == 1 }

    /** The file being sent. */
    ghost function File(): seq<byte> { Flatten(cfg.blocks) }
  }

  /** One thing that happens; an arrival, a loss or a repetition of what is not there changes nothing. */
  datatype Happening =
    | SenderHears(e: Event)    // a timeout or a stranger
    | ReceiverHears(e: Event)  // the same
    | AckArrives
    | DataArrives
    | AckLost(i: nat)
    | DataLost(i: nat)
    | AckRepeated(i: nat)
    | DataRepeated(i: nat)

  function Lose(ch: seq<Datagram>, i: nat): seq<Datagram> {
    if i < |ch| then ch[..i] + ch[i + 1..] else ch
  }

  function Repeat(ch: seq<Datagram>, i: nat): seq<Datagram> {
    if i < |ch| then ch[..i] + [ch[i]] + ch[i..] else ch
  }

  ghost predicate Ok(t: Transfer, s: System) { t.Valid() && M.Ok(t.cfg, s.snd) && R.Ok(s.rcv) }

  /** What gets under way of what the sender sends: what goes to another port is lost. */
  function Delivered(t: Transfer, snd: M.Sender, out: seq<Datagram>): seq<Datagram> {
    if snd.port == t.port then out else []
  }

  function Senders(t: Transfer, s: System, e: Event): (r: System)
    requires Ok(t, s)
    ensures Ok(t, r)
  {
    var (snd, out) := M.Step(t.cfg, s.snd, e);
    s.(snd := snd, data := s.data + Delivered(t, snd, out), allData := s.allData + out)
  }

  function Receivers(t: Transfer, s: System, e: Event): (r: System)
    requires Ok(t, s)
    ensures Ok(t, r)
  {
    var (rcv, out) := R.ServerStep(t.cfg.w, s.rcv, e);
    s.(rcv := rcv, acks := s.acks + out, allAcks := s.allAcks + out)
  }

  function Apply(t: Transfer, s: System, h: Happening): (r: System)
    requires Ok(t, s)
    ensures Ok(t, r)
  {
    match h
    case SenderHears(e) => if e.Packet? then s else Senders(t, s, e)
    case ReceiverHears(e) => if e.Packet? then s else Receivers(t, s, e)
    case AckArrives => if s.acks == [] then s else Senders(t, s.(acks := s.acks[1..]), Packet(s.acks[0], t.port))
    case DataArrives => if s.data == [] then s else Receivers(t, s.(data := s.data[1..]), Packet(s.data[0]))
    case AckLost(i) => s.(acks := Lose(s.acks, i))
    case DataLost(i) => s.(data := Lose(s.data, i))
    case AckRepeated(i) => s.(acks := Repeat(s.acks, i))
    case DataRepeated(i) => s.(data := Repeat(s.data, i))
  }

  function Start(t: Transfer): (r: System)
    requires t.Valid()
    ensures Ok(t, r)
  {
    var (rcv, acks) := R.ServerStart(t.cfg.w, t.r0);
    System(M.Start(t.cfg, t.stale).0, rcv, [], acks, [], acks)
  }

  /** The state after a history: every history is allowed. */
  function After(t: Transfer, history: seq<Happening>): (r: System)
    requires t.Valid()
    ensures Ok(t, r)
  {
    if history == [] then Start(t)
    else Apply(t, After(t, history[..|history| - 1]), history[|history| - 1])
  }

  lemma AfterSnoc(t: Transfer, history: seq<Happening>, h: Happening)
    requires t.Valid()
    ensures After(t, history + [h]) == Apply(t, After(t, history), h)
  {
    assert (history + [h])[..|history|] == history;
  }

  // ---------- the ring invariant ----------

  /** Some x's (perhaps none), then only y's. */
  ghost predicate TwoPart(ch: seq<Datagram>, x: Datagram, y: Datagram) {
    forall i, j :: 0 <= i <= j < |ch| ==> ch[i] == x || ch[j] == y
  }

  /** The packet before that of block c. */
  ghost function Old(cfg: M.Config, c: nat): Datagram
    requires cfg.Valid() && 1 <= c <= |cfg.blocks|
  {
    if c >= 2 then cfg.Packet(c - 1) else cfg.Packet(c)
  }

  /** All the way round (sender, data channel, receiver, ACK channel) only two consecutive true
      block indices occur, the older ones ahead of the newer. */
  ghost predicate Ring(t: Transfer, s: System) {
    var c, r := s.snd.cur, s.rcv.accepted;
    && t.Valid()
    && SenderReady(t.cfg, s.snd) && ReceiverHolds(t.cfg, t.r0, s.rcv)
    && (s.snd.phase == M.Handshake <==> c == 0)
    && (s.snd.phase == M.Finished ==> r == c)
    && (c == 0 ==> r == 0 && s.data == [] && TwoPart(s.acks, Ack(0), Ack(0)))
    && (c > 0 ==> r == c || r == c - 1)
    && (c > 0 && r == c - 1 ==>
          TwoPart(s.data, Old(t.cfg, c), t.cfg.Packet(c)) && TwoPart(s.acks, Ack(r), Ack(r)))
    && (c > 0 && r == c ==>
          TwoPart(s.data, t.cfg.Packet(c), t.cfg.Packet(c)) && TwoPart(s.acks, Ack(c - 1), Ack(c)))
  }

  lemma LoseTwoPart(ch: seq<Datagram>, i: nat, x: Datagram, y: Datagram)
    requires TwoPart(ch, x, y)
    ensures TwoPart(Lose(ch, i), x, y)
  {
    var c := Lose(ch, i);
    if i < |ch| {
      assert forall k :: 0 <= k < |c| ==> c[k] == ch[if k < i then k else k + 1];
    }
  }

  lemma RepeatTwoPart(ch: seq<Datagram>, i: nat, x: Datagram, y: Datagram)
    requires TwoPart(ch, x, y)
    ensures TwoPart(Repeat(ch, i), x, y)
  {
    var c := Repeat(ch, i);
    if i < |ch| {
      assert forall k :: 0 <= k < |c| ==> c[k] == ch[if k <= i then k else k - 1];
    }
  }

  lemma {:induction false} ChannelsKeepRing(t: Transfer, s: System, h: Happening)
    requires Ring(t, s) && (h.AckLost? || h.DataLost? || h.AckRepeated? || h.DataRepeated?)
    ensures Ring(t, Apply(t, s, h))
  {
    var c := s.snd.cur;
    if c == 0 || s.rcv.accepted == c - 1 {
      LoseTwoPart(s.acks, h.i, Ack(s.rcv.accepted), Ack(s.rcv.accepted));
      RepeatTwoPart(s.acks, h.i, Ack(s.rcv.accepted), Ack(s.rcv.accepted));
    } else {
      LoseTwoPart(s.acks, h.i, Ack(c - 1), Ack(c));
      RepeatTwoPart(s.acks, h.i, Ack(c - 1), Ack(c));
    }
    if c > 0 {
      var older := if s.rcv.accepted == c then t.cfg.Packet(c) else Old(t.cfg, c);
      LoseTwoPart(s.data, h.i, older, t.cfg.Packet(c));
      RepeatTwoPart(s.data, h.i, older, t.cfg.Packet(c));
    }
  }

  /** The sender hears silence or a stranger. */
  lemma SenderKeepsRing(t: Transfer, s: System, e: Event)
    requires Ring(t, s) && !e.Packet?
    ensures Ring(t, Senders(t, s, e))
  {
    SenderMove(t.cfg, s.snd, e, 0);
  }

  /** Before the first block, any ACK lets the sender begin. */
  lemma FirstAckKeepsRing(t: Transfer, s: System)
    requires Ring(t, s) && s.acks != [] && s.snd.cur == 0
    ensures Ring(t, Apply(t, s, AckArrives))
  {
    SenderMove(t.cfg, s.snd, Packet(s.acks[0], t.port), 0);
  }

  /** The first ACK in the channel is for the sender's block or for the one before: 16 bits tell the two apart. */
  lemma OldAckKeepsRing(t: Transfer, s: System)
    requires Ring(t, s) && s.acks != [] && s.snd.cur > 0 && s.acks[0] == Ack(s.snd.cur - 1)
    ensures Ring(t, Apply(t, s, AckArrives))
  {
    ConsecutiveDiffer(s.snd.cur - 1);
    SenderMove(t.cfg, s.snd, Packet(s.acks[0], t.port), s.snd.cur - 1);
  }

  lemma NewAckKeepsRing(t: Transfer, s: System)
    requires Ring(t, s) && s.acks != [] && s.snd.cur == s.rcv.accepted > 0 && s.acks[0] == Ack(s.snd.cur)
    ensures Ring(t, Apply(t, s, AckArrives))
  {
    ConsecutiveDiffer(s.snd.cur - 1);
    SenderMove(t.cfg, s.snd, Packet(s.acks[0], t.port), s.snd.cur);
  }

  lemma AckKeepsRing(t: Transfer, s: System)
    requires Ring(t, s) && s.acks != []
    ensures Ring(t, Apply(t, s, AckArrives))
  {
    var c := s.snd.cur;
    if c == 0 {
      FirstAckKeepsRing(t, s);
    } else if s.acks[0] == Ack(c - 1) {
      OldAckKeepsRing(t, s);
    } else {
      NewAckKeepsRing(t, s);
    }
  }

  lemma ReceiverKeepsRing(t: Transfer, s: System, e: Event)
    requires Ring(t, s) && !e.Packet?
    ensures Ring(t, Receivers(t, s, e))
  {
    ReceiverMove(t.cfg, t.r0, s.rcv, e, 0);
    var (rcv, out) := R.ServerStep(1, s.rcv, e);
    assert out == [] || out == [Ack(s.rcv.accepted)];
    if s.snd.cur > 0 && s.rcv.accepted == s.snd.cur {
      MoreOfLast(s.acks, Ack(s.snd.cur - 1), Ack(s.rcv.accepted), out);
    } else {
      MoreOfLast(s.acks, Ack(s.rcv.accepted), Ack(s.rcv.accepted), out);
    }
  }

  lemma MoreOfLast(ch: seq<Datagram>, x: Datagram, y: Datagram, out: seq<Datagram>)
    requires TwoPart(ch, x, y) && (out == [] || out == [y])
    ensures TwoPart(ch + out, x, y)
  {
  }

  lemma NewDataKeepsRing(t: Transfer, s: System)
    requires Ring(t, s) && s.data != [] && s.rcv.accepted == s.snd.cur - 1 && s.data[0] == t.cfg.Packet(s.snd.cur)
    ensures Ring(t, Apply(t, s, DataArrives))
  {
    ReceiverMove(t.cfg, t.r0, s.rcv, Packet(s.data[0]), s.snd.cur);
  }

  lemma OldDataKeepsRing(t: Transfer, s: System, k: nat)
    requires Ring(t, s) && s.data != [] && 1 <= k == s.rcv.accepted && s.data[0] == t.cfg.Packet(k)
    ensures Ring(t, Apply(t, s, DataArrives))
  {
    ConsecutiveDiffer(k);
    ReceiverMove(t.cfg, t.r0, s.rcv, Packet(s.data[0]), k);
  }

  lemma DataKeepsRing(t: Transfer, s: System)
    requires Ring(t, s) && s.data != []
    ensures Ring(t, Apply(t, s, DataArrives))
  {
    var c, r := s.snd.cur, s.rcv.accepted;
    if r == c - 1 && s.data[0] == t.cfg.Packet(c) {
      NewDataKeepsRing(t, s);
    } else {
      OldDataKeepsRing(t, s, r);
    }
  }

  lemma {:induction false} RingHolds(t: Transfer, history: seq<Happening>)
    requires t.OneByOne()
    ensures Ring(t, After(t, history))
  {
    if history == [] {
      ReceiverStarts(t.cfg, t.r0);
    } else {
      var s, h := After(t, history[..|history| - 1]), history[|history| - 1];
      RingHolds(t, history[..|history| - 1]);
      match h
      case SenderHears(e) => if !e.Packet? { SenderKeepsRing(t, s, e); }
      case ReceiverHears(e) => if !e.Packet? { ReceiverKeepsRing(t, s, e); }
      case AckArrives => if s.acks != [] { AckKeepsRing(t, s); }
      case DataArrives => if s.data != [] { DataKeepsRing(t, s); }
      case _ => ChannelsKeepRing(t, s, h);
    }
  }

  // ---------- what it gives ----------

  /** Whatever the channels lose and repeat and whoever times out, the receiver's file is the first r
      blocks, r being the sender's true block index or one less. */
  lemma UploadSafe(t: Transfer, history: seq<Happening>)
    requires t.OneByOne()
    ensures var s := After(t, history);
      && s.rcv.accepted <= s.snd.cur <= s.rcv.accepted + 1
      && s.rcv.accepted <= |t.cfg.blocks|
      && s.rcv.written == Flatten(t.cfg.blocks[..s.rcv.accepted])
  {
    RingHolds(t, history);
  }

  /** A sender that reports success left the whole file with the receiver. */
  lemma SenderSuccessMeansDelivered(t: Transfer, history: seq<Happening>)
    requires t.OneByOne() && After(t, history).snd.phase == M.Finished
    ensures After(t, history).rcv.written == t.File()
  {
    RingHolds(t, history);
    assert t.cfg.blocks[..|t.cfg.blocks|] == t.cfg.blocks;
  }

  /** A receiver that reports success has the whole file, even if its last ACK is lost and the sender
      aborts, if it goes by the sender's chunk size or one chunk holds the file. */
  lemma ReceiverSuccessMeansComplete(t: Transfer, history: seq<Happening>)
    requires t.OneByOne() && (|t.File()| <= t.cfg.d || Settled(t.r0, t.cfg.blocks) == t.cfg.d)
    requires After(t, history).rcv.phase == R.Done
    ensures After(t, history).rcv.written == t.File()
  {
    RingHolds(t, history);
    WholeWhenDone(t.cfg, t.r0, After(t, history).rcv);
  }

  /** On every history exactly then. */
  lemma ReceiverSuccessMeansCompleteIff(t: Transfer)
    requires t.OneByOne()
    ensures (forall history :: After(t, history).rcv.phase == R.Done ==> After(t, history).rcv.written == t.File())
            <==> |t.File()| <= t.cfg.d || Settled(t.r0, t.cfg.blocks) == t.cfg.d
  {
    AtMostOneChunk(t.cfg.blocks, t.cfg.d);
    if |t.File()| <= t.cfg.d || Settled(t.r0, t.cfg.blocks) == t.cfg.d {
      forall history | After(t, history).rcv.phase == R.Done ensures After(t, history).rcv.written == t.File() {
        ReceiverSuccessMeansComplete(t, history);
      }
    } else {
      var history := FirstBlockEnds(t);
    }
  }

  /** Where the first block is taken for the last, a run that ends with it. */
  lemma FirstBlockEnds(t: Transfer) returns (history: seq<Happening>)
    requires t.OneByOne() && Settled(t.r0, t.cfg.blocks) != t.cfg.d && |t.cfg.blocks| > 1
    ensures After(t, history).rcv.phase == R.Done && After(t, history).rcv.written == t.cfg.blocks[0]
  {
    var h1 := [AckArrives];
    history := h1 + [DataArrives];
    assert h1[..0] == [] && history[..1] == h1;
    RingHolds(t, []);
    var s := After(t, []);
    assert s.acks == [Ack(0)];
    SenderMove(t.cfg, s.snd, Packet(s.acks[0], t.port), 0);
    RingHolds(t, h1);
    var s1 := After(t, h1);
    assert s1.data == [t.cfg.Packet(1)];
    ReceiverMove(t.cfg, t.r0, s1.rcv, Packet(s1.data[0]), 1);
    SingleBlock(t.cfg.blocks[..1]);
  }

  // ---------- the sides are runs of the programs' machines ----------

  /** What the next thing that happens lets either side hear. */
  function HeardBySender(t: Transfer, s: System, h: Happening): seq<Event> {
    match h
    case SenderHears(e) => if e.Packet? then [] else [e]
    case AckArrives => if s.acks == [] then [] else [Packet(s.acks[0], t.port)]
    case _ => []
  }

  function HeardByReceiver(s: System, h: Happening): seq<Event> {
    match h
    case ReceiverHears(e) => if e.Packet? then [] else [e]
    case DataArrives => if s.data == [] then [] else [Packet(s.data[0])]
    case _ => []
  }

  /** All that a side has heard in a history. */
  function SenderHeard(t: Transfer, history: seq<Happening>): seq<Event>
    requires t.Valid()
  {
    if history == [] then []
    else
      var before := history[..|history| - 1];
      SenderHeard(t, before) + HeardBySender(t, After(t, before), history[|history| - 1])
  }

  function ReceiverHeard(t: Transfer, history: seq<Happening>): seq<Event>
    requires t.Valid()
  {
    if history == [] then []
    else
      var before := history[..|history| - 1];
      ReceiverHeard(t, before) + HeardByReceiver(After(t, before), history[|history| - 1])
  }

  /** Each side is its machine run on exactly what it heard, and has sent exactly what that run sends. */
  lemma {:induction false} SidesAreRuns(t: Transfer, history: seq<Happening>)
    requires t.Valid()
    ensures M.Run(t.cfg, t.stale, SenderHeard(t, history)) == (After(t, history).snd, After(t, history).allData)
    ensures R.ServerRun(t.cfg.w, t.r0, ReceiverHeard(t, history)) == (After(t, history).rcv, After(t, history).allAcks)
  {
    if history != [] {
      var before, h := history[..|history| - 1], history[|history| - 1];
      var s := After(t, before);
      SidesAreRuns(t, before);
      SenderRuns(t, s, SenderHeard(t, before), h);
      ReceiverRuns(t, s, ReceiverHeard(t, before), h);
    }
  }

  lemma SenderRuns(t: Transfer, s: System, events: seq<Event>, h: Happening)
    requires Ok(t, s) && M.Run(t.cfg, t.stale, events) == (s.snd, s.allData)
    ensures M.Run(t.cfg, t.stale, events + HeardBySender(t, s, h)) == (Apply(t, s, h).snd, Apply(t, s, h).allData)
  {
    var heard := HeardBySender(t, s, h);
    if heard == [] {
      assert events + heard == events;
      assert Apply(t, s, h).snd == s.snd && Apply(t, s, h).allData == s.allData;
    } else {
      var e := heard[0];
      assert heard == [e];
      M.RunSnoc(t.cfg, t.stale, events, e);
      HearsOne(t, s, h, e);
    }
  }

  lemma HearsOne(t: Transfer, s: System, h: Happening, e: Event)
    requires Ok(t, s) && HeardBySender(t, s, h) == [e]
    ensures var (snd, out) := M.Step(t.cfg, s.snd, e);
      Apply(t, s, h).snd == snd && Apply(t, s, h).allData == s.allData + out
  {
  }

  lemma ReceiverRuns(t: Transfer, s: System, events: seq<Event>, h: Happening)
    requires Ok(t, s) && R.ServerRun(t.cfg.w, t.r0, events) == (s.rcv, s.allAcks)
    ensures R.ServerRun(t.cfg.w, t.r0, events + HeardByReceiver(s, h)) == (Apply(t, s, h).rcv, Apply(t, s, h).allAcks)
  {
    var heard := HeardByReceiver(s, h);
    if heard == [] {
      assert events + heard == events;
    } else {
      assert (events + heard)[..|events|] == events;
    }
  }
}
