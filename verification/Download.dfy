/** Downloading at ackfreq 1: `tsend` of tftpd.c with `tget` of tftpc.c, which takes any DATA packet for
    the block it waits for, and sends its ACKs to the port its first wait gave it. It is safe exactly where ACKs
    are never lost, nothing is repeated, the sender gives up waiting only when nothing is under way, and that
    first wait gives the server's port: then there is one token. */
module Download {
  import opened Packets
  import opened Chunking
  import opened StopAndWait
  import M = SenderMachine
  import R = ReceiverMachines

  /** `port` is the one the server does this transfer on, `stalePort` what the client's `data.sin_port` holds before
      anything is received. */
  datatype Transfer = Transfer(cfg: M.Config, r0: BlockSize, stale: seq<seq<byte>>, port: Port, stalePort: nat) {
    ghost predicate Valid() { cfg.Valid() && cfg.role == M.Server && cfg.w == 1 && M.SlotArray(stale) }

    /** The file being sent. */
    ghost function File(): seq<byte> { Flatten(cfg.blocks) }

    ghost function Settled(): int
      requires Valid()
    {
      R.ClientAdapts(r0, 4 + |cfg.blocks[0]|)
    }
  }

  /** What the network may do besides losing and reordering DATA. The last two are about the client before any
      datagram has reached it: it may hear another host first, or a wait may run out. */
  datatype Faults = Faults(losesAcks: bool, repeatsData: bool, repeatsAcks: bool, earlyTimeouts: bool,
                           strangersFirst: bool, silentStart: bool)

  predicate Elsewhere(t: Transfer, port: nat) { port != 0 && port != t.port }

  /** The client can be given another port than the server's. */
  predicate Misleads(t: Transfer, f: Faults) {
    f.strangersFirst || (f.silentStart && Elsewhere(t, t.stalePort))
  }

  /** Nothing that can do harm, but repeated ACKs if they are let pass. */
  predicate Clean(t: Transfer, f: Faults, repeatedAcks: bool) {
    !f.losesAcks && !f.repeatsData && !f.earlyTimeouts && !Misleads(t, f) && (f.repeatsAcks ==> repeatedAcks)
  }

  datatype System = System(snd: M.Sender, rcv: R.Receiver, data: seq<Datagram>, acks: seq<Datagram>)

  datatype Happening =
    | SenderTimesOut
    | ReceiverTimesOut
    | SenderHearsStranger(f: Datagram)
    | ReceiverHearsStranger(f: Datagram, q: Port)
    | DataArrives(i: nat)
    | AckArrives(i: nat)
    | DataLost(i: nat)
    | AckLost(i: nat)
    | DataRepeated(i: nat)
    | AckRepeated(i: nat)

  function Without(ch: seq<Datagram>, i: nat): seq<Datagram>
    requires i < |ch|
  {
    ch[..i] + ch[i + 1..]
  }

  ghost predicate Ok(t: Transfer, s: System) { t.Valid() && M.Ok(t.cfg, s.snd) && R.Ok(s.rcv) }

  predicate Allowed(t: Transfer, f: Faults, s: System, h: Happening) {
    match h
    case SenderTimesOut => f.earlyTimeouts || (s.data == [] && s.acks == [])
    case ReceiverTimesOut => s.rcv.port != 0 || f.silentStart
    case ReceiverHearsStranger(_, q) => s.rcv.port != 0 || q == t.port || f.strangersFirst
    case DataArrives(i) => i < |s.data|
    case AckArrives(i) => i < |s.acks|
    case DataLost(i) => i < |s.data|
    case AckLost(i) => i < |s.acks| && f.losesAcks
    case DataRepeated(i) => i < |s.data| && f.repeatsData
    case AckRepeated(i) => i < |s.acks| && f.repeatsAcks
    case _ => true
  }

  function Senders(t: Transfer, s: System, e: Event): (r: System)
    requires Ok(t, s)
    ensures Ok(t, r)
  {
    var (snd, out) := M.Step(t.cfg, s.snd, e);
    s.(snd := snd, data := s.data + out)
  }

  /** An ACK that goes to another port than the server's is lost. */
  function Receivers(t: Transfer, s: System, e: Event): (r: System)
    requires Ok(t, s)
    ensures Ok(t, r)
  {
    var (rcv, out) := R.ClientStep(1, s.rcv, e);
    s.(rcv := rcv, acks := s.acks + if rcv.port == t.port then out else [])
  }

  /** What is not allowed, or names a datagram that is not there, changes nothing. */
  function Apply(t: Transfer, f: Faults, s: System, h: Happening): (r: System)
    requires Ok(t, s)
    ensures Ok(t, r)
  {
    if !Allowed(t, f, s, h) then s
    else
      match h
      case SenderTimesOut => Senders(t, s, Timeout)
      case ReceiverTimesOut => Receivers(t, s, Timeout)
      case SenderHearsStranger(d) => Senders(t, s, Foreign(d))
      case ReceiverHearsStranger(d, q) => Receivers(t, s, Foreign(d, q))
      case DataArrives(i) => Receivers(t, s.(data := Without(s.data, i)), Packet(s.data[i], t.port))
      case AckArrives(i) => Senders(t, s.(acks := Without(s.acks, i)), Packet(s.acks[i]))
      case DataLost(i) => s.(data := Without(s.data, i))
      case AckLost(i) => s.(acks := Without(s.acks, i))
      case DataRepeated(i) => s.(data := s.data + [s.data[i]])
      case AckRepeated(i) => s.(acks := s.acks + [s.acks[i]])
  }

  function Start(t: Transfer): (r: System)
    requires t.Valid()
    ensures Ok(t, r)
  {
    var (snd, data) := M.Start(t.cfg, t.stale);
    System(snd, R.ClientStart(t.r0, t.stalePort), data, [])
  }

  function After(t: Transfer, f: Faults, history: seq<Happening>): (r: System)
    requires t.Valid()
    ensures Ok(t, r)
  {
    if history == [] then Start(t)
    else Apply(t, f, After(t, f, history[..|history| - 1]), history[|history| - 1])
  }

  // ---------- the receiver ----------

  /** The receiver holds exactly the first `accepted` blocks. */
  ghost predicate ReceiverHolds(t: Transfer, s: R.Receiver) {
    && t.Valid() && R.Ok(s)
    && s.accepted <= |t.cfg.blocks|
    && s.written == Flatten(t.cfg.blocks[..s.accepted])
    && s.flag == (s.accepted == 0)
    && (s.phase == R.Done ==> s.accepted > 0)
    && s.datasize == (if s.accepted == 0 then t.r0 else t.Settled())
    && (s.accepted > 0 ==> (s.phase == R.Done <==> |t.cfg.blocks[s.accepted - 1]| != s.datasize))
    && s.stalePort == t.stalePort
  }

  /** The receiver sends its ACKs to the server, or will. */
  ghost predicate PortGood(t: Transfer, s: R.Receiver) {
    s.stalePort == t.stalePort && if s.accepted > 0 then s.port == t.port else !Elsewhere(t, s.port)
  }

  /** Unless the client can be misled, no wait gives it another port. */
  lemma PortStaysGood(t: Transfer, f: Faults, s: System, e: Event)
    requires Ok(t, s) && PortGood(t, s.rcv) && !Misleads(t, f) && !e.Packet?
    requires s.rcv.port != 0 || if e == Timeout then f.silentStart else e.port == t.port
    ensures PortGood(t, Receivers(t, s, e).rcv)
  {
  }

  /** The next block, when it comes, is written and acknowledged; the last one twice. */
  lemma NextBlockTaken(t: Transfer, s: R.Receiver)
    requires ReceiverHolds(t, s) && s.phase == R.Receiving && s.accepted < |t.cfg.blocks|
    ensures var (r, out) := R.ClientStep(1, s, Packet(t.cfg.Packet(s.accepted + 1), t.port));
      && ReceiverHolds(t, r) && r.accepted == s.accepted + 1 && r.phase in {R.Receiving, R.Done}
      && out == if r.phase == R.Done then [Ack(r.accepted), Ack(r.accepted)] else [Ack(r.accepted)]
  {
    DataJudged(t.cfg, s.accepted + 1, s.Count(), t.port);
    FlattenPrefix(t.cfg.blocks, s.accepted);
  }

  // ---------- the token ----------

  /** One datagram carries the turn, until the receiver is done. */
  ghost predicate Token(t: Transfer, s: System) {
    var c, r := s.snd.cur, s.rcv.accepted;
    && t.Valid() && SenderReady(t.cfg, s.snd) && ReceiverHolds(t, s.rcv) && PortGood(t, s.rcv)
    && s.snd.phase != M.Handshake && 1 <= c && (r == c - 1 || r == c)
    && (s.snd.phase == M.Finished ==> r == c)
    && if s.rcv.phase == R.Done then forall i :: 0 <= i < |s.acks| ==> s.acks[i] == Ack(r)
       else if r == c - 1 then s.acks == [] && (s.data == [] || s.data == [t.cfg.Packet(c)])
       else s.data == [] && (s.acks == [Ack(c)] || (s.acks == [] && s.snd.phase != M.Waiting))
  }

  lemma SenderKeepsToken(t: Transfer, s: System, e: Event)
    requires Token(t, s) && (e == Timeout ==> s.data == [] && s.acks == []) && !e.Packet?
    ensures Token(t, Senders(t, s, e))
  {
    SenderMove(t.cfg, s.snd, e, 0);
  }

  lemma AckKeepsToken(t: Transfer, f: Faults, s: System, i: nat)
    requires Token(t, s) && i < |s.acks|
    ensures Token(t, Apply(t, f, s, AckArrives(i)))
  {
    assert s.acks[i] == Ack(s.rcv.accepted);
    ConsecutiveDiffer(s.snd.cur - 1);
    SenderMove(t.cfg, s.snd, Packet(s.acks[i]), s.rcv.accepted);
    if s.rcv.phase != R.Done {
      assert Without(s.acks, i) == [];
    }
  }

  /** A receiver that has ended drops what arrives. */
  lemma LateDataKeepsToken(t: Transfer, f: Faults, s: System, i: nat)
    requires Token(t, s) && i < |s.data| && s.rcv.phase != R.Receiving
    ensures Token(t, Apply(t, f, s, DataArrives(i)))
  {
    var s' := Apply(t, f, s, DataArrives(i));
    assert s' == s.(data := Without(s.data, i)) by {
      assert s.acks + [] == s.acks;
    }
    assert s.rcv.phase != R.Done ==> s'.data == [];
  }

  lemma OnlyDataArrives(t: Transfer, f: Faults, s: System, d: Datagram)
    requires Ok(t, s) && s.data == [d] && s.acks == []
    ensures var (r, out) := R.ClientStep(1, s.rcv, Packet(d, t.port));
      Apply(t, f, s, DataArrives(0)) == s.(rcv := r, data := [], acks := if r.port == t.port then out else [])
  {
    var out := R.ClientStep(1, s.rcv, Packet(d, t.port)).1;
    assert Without(s.data, 0) == [];
    assert s.acks + out == out;
  }

  lemma TokenPassed(t: Transfer, s: System, r: R.Receiver, out: seq<Datagram>)
    requires Token(t, s) && s.data != [] && s.rcv.phase == R.Receiving
    requires ReceiverHolds(t, r) && PortGood(t, r) && r.accepted == s.snd.cur && r.phase in {R.Receiving, R.Done}
    requires out == if r.phase == R.Done then [Ack(r.accepted), Ack(r.accepted)] else [Ack(r.accepted)]
    ensures Token(t, s.(rcv := r, data := [], acks := out))
  {
  }

  lemma DataKeepsToken(t: Transfer, f: Faults, s: System)
    requires Token(t, s) && s.data != [] && s.rcv.phase == R.Receiving
    ensures Token(t, Apply(t, f, s, DataArrives(0)))
  {
    var d := t.cfg.Packet(s.rcv.accepted + 1);
    assert s.data == [d];
    NextBlockTaken(t, s.rcv);
    OnlyDataArrives(t, f, s, d);
    var (r, out) := R.ClientStep(1, s.rcv, Packet(d, t.port));
    TokenPassed(t, s, r, out);
  }

  /** Silence and strangers only wear out the receiver's patience. */
  lemma ReceiverKeepsToken(t: Transfer, f: Faults, s: System, e: Event)
    requires Token(t, s) && !e.Packet? && !Misleads(t, f)
    requires s.rcv.port != 0 || if e == Timeout then f.silentStart else e.port == t.port
    ensures Token(t, Receivers(t, s, e))
  {
    PortStaysGood(t, f, s, e);
    var (r, out) := R.ClientStep(1, s.rcv, e);
    assert s.acks + out == s.acks;
  }

  lemma TokenStays(t: Transfer, f: Faults, s: System, h: Happening)
    requires Token(t, s) && Clean(t, f, false) && Allowed(t, f, s, h)
    ensures Token(t, Apply(t, f, s, h))
  {
    match h
    case SenderTimesOut => SenderKeepsToken(t, s, Timeout);
    case SenderHearsStranger(d) => SenderKeepsToken(t, s, Foreign(d));
    case AckArrives(i) => AckKeepsToken(t, f, s, i);
    case DataArrives(i) =>
      if s.rcv.phase == R.Receiving { DataKeepsToken(t, f, s); } else { LateDataKeepsToken(t, f, s, i); }
    case ReceiverTimesOut => ReceiverKeepsToken(t, f, s, Timeout);
    case ReceiverHearsStranger(d, q) => ReceiverKeepsToken(t, f, s, Foreign(d, q));
    case DataLost(i) => if s.rcv.phase != R.Done { assert Without(s.data, i) == []; }
  }

  lemma {:induction false} TokenHolds(t: Transfer, f: Faults, history: seq<Happening>)
    requires t.Valid() && Clean(t, f, false)
    ensures Token(t, After(t, f, history))
  {
    if history == [] {
      NextBlock(t.cfg, M.Idle(t.cfg, t.stale));
    } else {
      var s, h := After(t, f, history[..|history| - 1]), history[|history| - 1];
      TokenHolds(t, f, history[..|history| - 1]);
      if Allowed(t, f, s, h) {
        TokenStays(t, f, s, h);
      }
    }
  }

  /** On such a network at most one datagram is under way until the last block is in, and every DATA
      packet taken is the next block: each is taken once and in order though no number is looked at. */
  lemma DownloadSafe(t: Transfer, f: Faults, history: seq<Happening>)
    requires t.Valid() && Clean(t, f, false)
    ensures var s := After(t, f, history);
      && (s.rcv.phase != R.Done ==> |s.data| + |s.acks| <= 1)
      && s.rcv.accepted <= s.snd.cur <= s.rcv.accepted + 1
      && s.rcv.accepted <= |t.cfg.blocks|
      && s.rcv.written == Flatten(t.cfg.blocks[..s.rcv.accepted])
      && (s.snd.phase == M.Finished ==> s.rcv.written == Flatten(t.cfg.blocks))
  {
    TokenHolds(t, f, history);
    assert t.cfg.blocks[..|t.cfg.blocks|] == t.cfg.blocks;
  }

  /** A receiver that reports success has the whole file, even if the sender aborts, if it goes by the
      sender's chunk size or one chunk holds the file. */
  lemma ReceiverSuccessMeansComplete(t: Transfer, f: Faults, history: seq<Happening>)
    requires t.Valid() && Clean(t, f, false) && (|t.File()| <= t.cfg.d || t.Settled() == t.cfg.d)
    requires After(t, f, history).rcv.phase == R.Done
    ensures After(t, f, history).rcv.written == t.File()
  {
    TokenHolds(t, f, history);
    AtMostOneChunk(t.cfg.blocks, t.cfg.d);
    assert t.cfg.blocks[..|t.cfg.blocks|] == t.cfg.blocks;
    if After(t, f, history).rcv.accepted == 1 {
      SingleBlock(t.cfg.blocks[..1]);
    }
  }

  /** On every history exactly then. */
  lemma ReceiverSuccessMeansCompleteIff(t: Transfer, f: Faults)
    requires t.Valid() && Clean(t, f, false)
    ensures (forall history :: After(t, f, history).rcv.phase == R.Done ==>
                               After(t, f, history).rcv.written == t.File())
            <==> |t.File()| <= t.cfg.d || t.Settled() == t.cfg.d
  {
    if |t.File()| <= t.cfg.d || t.Settled() == t.cfg.d {
      forall history | After(t, f, history).rcv.phase == R.Done
        ensures After(t, f, history).rcv.written == t.File()
      {
        ReceiverSuccessMeansComplete(t, f, history);
      }
    } else {
      AtMostOneChunk(t.cfg.blocks, t.cfg.d);
      var history := FirstBlockEnds(t, f);
    }
  }

  // ---------- on other networks ----------

  lemma AfterSnoc(t: Transfer, f: Faults, history: seq<Happening>, h: Happening)
    requires t.Valid()
    ensures After(t, f, history + [h]) == Apply(t, f, After(t, f, history), h)
  {
    assert (history + [h])[..|history|] == history;
  }

  /** The number of blocks after which the receiver goes on waiting. */
  ghost function GoesOnAfter(t: Transfer): nat
    requires t.Valid()
  {
    if |t.cfg.blocks| > 1 then if t.Settled() == t.cfg.d then |t.cfg.blocks| - 1 else 0
    else if |t.cfg.blocks[0]| == t.Settled() then 1 else 0
  }

  lemma GoesOn(t: Transfer, k: nat)
    requires t.Valid() && 1 <= k <= |t.cfg.blocks|
    ensures k <= GoesOnAfter(t) ==> |t.cfg.blocks[k - 1]| == t.Settled()
    ensures k == 1 && GoesOnAfter(t) == 0 ==> |t.cfg.blocks[k - 1]| != t.Settled()
    ensures GoesOnAfter(t) == 1 ==> |t.cfg.blocks| <= 2
  {
  }

  // ---------- a block twice ----------

  /** The receiver has taken n packets, which made up `file`, and waits for more. */
  ghost predicate Waits(t: Transfer, s: R.Receiver, n: nat, file: seq<byte>) {
    && t.Valid()
    && R.Ok(s) && s.phase == R.Receiving && s.accepted == n && s.written == file
    && s.flag == (n == 0) && s.datasize == (if n == 0 then t.r0 else t.Settled())
    && PortGood(t, s)
  }

  /** It takes any packet for the one it waits for, and goes on if it looks full. */
  lemma AnyBlockTaken(t: Transfer, s: R.Receiver, n: nat, file: seq<byte>, k: nat)
    requires Waits(t, s, n, file) && 1 <= k <= |t.cfg.blocks| && (n == 0 ==> k == 1)
    ensures var (r, out) := R.ClientStep(1, s, Packet(t.cfg.Packet(k), t.port));
      && r.written == file + t.cfg.blocks[k - 1]
      && if |t.cfg.blocks[k - 1]| == t.Settled() then Waits(t, r, n + 1, r.written) && out == [Ack(n + 1)]
         else r.phase == R.Done
    ensures R.ClientStep(1, s, Packet(t.cfg.Packet(k), t.port)).0.port == t.port
  {
    DataJudged(t.cfg, k, s.Count(), t.port);
  }

  /** Block k is under way for the first time, and nothing else. */
  ghost predicate Reached(t: Transfer, s: System, k: nat) {
    && t.Valid() && 1 <= k <= |t.cfg.blocks|
    && SenderReady(t.cfg, s.snd) && s.snd.phase == M.Waiting && s.snd.cur == k
    && Waits(t, s.rcv, k - 1, Flatten(t.cfg.blocks[..k - 1]))
    && s.data == [t.cfg.Packet(k)] && s.acks == []
  }

  /** Block k is taken, and its ACK under way. */
  ghost predicate Answered(t: Transfer, s: System, k: nat) {
    && t.Valid() && 1 <= k <= |t.cfg.blocks|
    && SenderReady(t.cfg, s.snd) && s.snd.phase == M.Waiting && s.snd.cur == k
    && Waits(t, s.rcv, k, Flatten(t.cfg.blocks[..k]))
    && s.data == [] && s.acks == [Ack(k)]
  }

  lemma Begins(t: Transfer, f: Faults)
    requires t.Valid()
    ensures Reached(t, After(t, f, []), 1)
  {
    NextBlock(t.cfg, M.Idle(t.cfg, t.stale));
    assert t.cfg.blocks[..0] == [];
  }

  lemma FirstBlockEnds(t: Transfer, f: Faults) returns (history: seq<Happening>)
    requires t.Valid() && GoesOnAfter(t) == 0
    ensures var s := After(t, f, history); s.rcv.phase == R.Done && s.rcv.written == t.cfg.blocks[0]
  {
    Begins(t, f);
    var s := After(t, f, []);
    GoesOn(t, 1);
    assert t.cfg.blocks[..0] == [];
    AnyBlockTaken(t, s.rcv, 0, [], 1);
    OnlyDataArrives(t, f, s, t.cfg.Packet(1));
    AfterSnoc(t, f, [], DataArrives(0));
    history := [] + [DataArrives(0)];
  }

  lemma Arrives(t: Transfer, f: Faults, before: seq<Happening>, k: nat) returns (history: seq<Happening>)
    requires t.Valid() && Reached(t, After(t, f, before), k) && k <= GoesOnAfter(t)
    ensures Answered(t, After(t, f, history), k)
  {
    var s := After(t, f, before);
    GoesOn(t, k);
    AnyBlockTaken(t, s.rcv, k - 1, s.rcv.written, k);
    OnlyDataArrives(t, f, s, t.cfg.Packet(k));
    FlattenPrefix(t.cfg.blocks, k - 1);
    AfterSnoc(t, f, before, DataArrives(0));
    history := before + [DataArrives(0)];
  }

  lemma FirstAckArrives(t: Transfer, f: Faults, s: System)
    requires Ok(t, s) && s.acks != []
    ensures var (snd, out) := M.Step(t.cfg, s.snd, Packet(s.acks[0]));
      Apply(t, f, s, AckArrives(0)) == System(snd, s.rcv, s.data + out, s.acks[1..])
  {
    assert Without(s.acks, 0) == s.acks[1..];
  }

  lemma Acknowledged(t: Transfer, f: Faults, before: seq<Happening>, k: nat) returns (history: seq<Happening>)
    requires t.Valid() && Answered(t, After(t, f, before), k) && k < |t.cfg.blocks|
    ensures Reached(t, After(t, f, history), k + 1)
  {
    var s := After(t, f, before);
    FirstAckArrives(t, f, s);
    SenderMove(t.cfg, s.snd, Packet(Ack(k)), k);
    AfterSnoc(t, f, before, AckArrives(0));
    history := before + [AckArrives(0)];
  }

  /** Without trouble the download gets to any block the receiver waits for. */
  lemma {:induction false} Reach(t: Transfer, f: Faults, k: nat) returns (history: seq<Happening>)
    requires t.Valid() && 1 <= k <= GoesOnAfter(t)
    ensures Reached(t, After(t, f, history), k)
  {
    if k == 1 {
      Begins(t, f);
      history := [];
    } else {
      history := Reach(t, f, k - 1);
      history := Arrives(t, f, history, k - 1);
      history := Acknowledged(t, f, history, k - 1);
    }
  }

  /** The last block the receiver goes on after has been written twice. */
  ghost predicate Doubled(t: Transfer, file: seq<byte>)
    requires t.Valid() && GoesOnAfter(t) > 0
  {
    var k := GoesOnAfter(t);
    file == Flatten(t.cfg.blocks[..k]) + t.cfg.blocks[k - 1]
  }

  /** That file is longer than the source. */
  lemma DoubledShows(t: Transfer, file: seq<byte>)
    requires t.Valid() && GoesOnAfter(t) > 0 && Doubled(t, file)
    ensures !BlockPrefix(t.cfg.blocks, file)
  {
    var b, n, k := t.cfg.blocks, |t.cfg.blocks|, GoesOnAfter(t);
    assert b[..n] == b;
    GoesOn(t, k);
    if n > 1 {
      FlattenPrefix(b, n - 1);
    }
    assert |file| > |t.File()|;
    forall r | 0 <= r <= n ensures Flatten(b[..r]) != file {
      FlattenGrows(b, r, n);
    }
  }

  /** Two copies under way are both taken. */
  lemma BothTaken(t: Transfer, f: Faults, before: seq<Happening>) returns (history: seq<Happening>)
    requires t.Valid() && GoesOnAfter(t) > 0
    requires var k := GoesOnAfter(t);
      && Waits(t, After(t, f, before).rcv, k - 1, Flatten(t.cfg.blocks[..k - 1]))
      && After(t, f, before).data == [t.cfg.Packet(k), t.cfg.Packet(k)]
    ensures Doubled(t, After(t, f, history).rcv.written)
  {
    var k, s := GoesOnAfter(t), After(t, f, before);
    GoesOn(t, k);
    AnyBlockTaken(t, s.rcv, k - 1, s.rcv.written, k);
    AfterSnoc(t, f, before, DataArrives(0));
    var once := before + [DataArrives(0)];
    var s' := After(t, f, once);
    assert s'.data == [t.cfg.Packet(k)];
    FlattenPrefix(t.cfg.blocks, k - 1);
    AnyBlockTaken(t, s'.rcv, k, s'.rcv.written, k);
    AfterSnoc(t, f, once, DataArrives(0));
    history := once + [DataArrives(0)];
  }

  lemma RepeatedDataBreaks(t: Transfer, f: Faults) returns (history: seq<Happening>)
    requires t.Valid() && GoesOnAfter(t) > 0 && f.repeatsData
    ensures Doubled(t, After(t, f, history).rcv.written)
  {
    var k := GoesOnAfter(t);
    var before := Reach(t, f, k);
    AfterSnoc(t, f, before, DataRepeated(0));
    var twice := before + [DataRepeated(0)];
    assert After(t, f, twice).data == [t.cfg.Packet(k)] + [t.cfg.Packet(k)];
    history := BothTaken(t, f, twice);
  }

  lemma EarlyTimeoutBreaks(t: Transfer, f: Faults) returns (history: seq<Happening>)
    requires t.Valid() && GoesOnAfter(t) > 0 && f.earlyTimeouts
    ensures Doubled(t, After(t, f, history).rcv.written)
  {
    var k := GoesOnAfter(t);
    var before := Reach(t, f, k);
    SenderMove(t.cfg, After(t, f, before).snd, Timeout, 0);
    AfterSnoc(t, f, before, SenderTimesOut);
    var twice := before + [SenderTimesOut];
    assert After(t, f, twice).data == [t.cfg.Packet(k)] + [t.cfg.Packet(k)];
    history := BothTaken(t, f, twice);
  }

  /** The ACK of the block is lost, and the sender sends the block again. */
  lemma SentAgain(t: Transfer, f: Faults) returns (history: seq<Happening>)
    requires t.Valid() && GoesOnAfter(t) > 0 && f.losesAcks
    ensures var k, s := GoesOnAfter(t), After(t, f, history);
      Waits(t, s.rcv, k, Flatten(t.cfg.blocks[..k])) && s.data == [t.cfg.Packet(k)] && s.acks == []
  {
    var k := GoesOnAfter(t);
    history := Reach(t, f, k);
    history := Arrives(t, f, history, k);
    AfterSnoc(t, f, history, AckLost(0));
    history := history + [AckLost(0)];
    var s := After(t, f, history);
    assert s.acks == [];
    SenderMove(t.cfg, s.snd, Timeout, 0);
    AfterSnoc(t, f, history, SenderTimesOut);
    history := history + [SenderTimesOut];
  }

  lemma LostAckBreaks(t: Transfer, f: Faults) returns (history: seq<Happening>)
    requires t.Valid() && GoesOnAfter(t) > 0 && f.losesAcks
    ensures Doubled(t, After(t, f, history).rcv.written)
  {
    var k := GoesOnAfter(t);
    var before := SentAgain(t, f);
    var s := After(t, f, before);
    AnyBlockTaken(t, s.rcv, k, s.rcv.written, k);
    OnlyDataArrives(t, f, s, t.cfg.Packet(k));
    AfterSnoc(t, f, before, DataArrives(0));
    history := before + [DataArrives(0)];
  }

  /** The ACK of the block before comes twice: the block is sent, and sent again. */
  lemma AckTwice(t: Transfer, f: Faults) returns (history: seq<Happening>)
    requires t.Valid() && GoesOnAfter(t) > 1 && f.repeatsAcks
    ensures var k, s := GoesOnAfter(t), After(t, f, history);
      && SenderReady(t.cfg, s.snd) && s.snd.phase == M.Waiting && s.snd.cur == k
      && Waits(t, s.rcv, k - 1, Flatten(t.cfg.blocks[..k - 1]))
      && s.data == [t.cfg.Packet(k)] && s.acks == [Ack(k - 1)]
  {
    var k := GoesOnAfter(t);
    history := Reach(t, f, k - 1);
    history := Arrives(t, f, history, k - 1);
    AfterSnoc(t, f, history, AckRepeated(0));
    history := history + [AckRepeated(0)];
    var s := After(t, f, history);
    assert s.acks == [Ack(k - 1), Ack(k - 1)];
    FirstAckArrives(t, f, s);
    SenderMove(t.cfg, s.snd, Packet(Ack(k - 1)), k - 1);
    AfterSnoc(t, f, history, AckArrives(0));
    history := history + [AckArrives(0)];
  }

  lemma RepeatedAckBreaks(t: Transfer, f: Faults) returns (history: seq<Happening>)
    requires t.Valid() && GoesOnAfter(t) > 1 && f.repeatsAcks
    ensures Doubled(t, After(t, f, history).rcv.written)
  {
    var k := GoesOnAfter(t);
    var before := AckTwice(t, f);
    var s := After(t, f, before);
    FirstAckArrives(t, f, s);
    ConsecutiveDiffer(k - 1);
    SenderMove(t.cfg, s.snd, Packet(Ack(k - 1)), k - 1);
    AfterSnoc(t, f, before, AckArrives(0));
    var twice := before + [AckArrives(0)];
    assert After(t, f, twice).data == [t.cfg.Packet(k)] + [t.cfg.Packet(k)];
    history := BothTaken(t, f, twice);
  }

  // ---------- where no block is taken twice all the same ----------

  /** Every block counted as taken is the next one of the source, and has been sent: none is taken twice. */
  ghost predicate TakenOnce(t: Transfer, s: System) {
    && s.rcv.accepted <= s.snd.cur && s.rcv.accepted <= |t.cfg.blocks|
    && s.rcv.written == Flatten(t.cfg.blocks[..s.rcv.accepted])
  }

  ghost predicate All(ch: seq<Datagram>, d: Datagram) { forall i :: 0 <= i < |ch| ==> ch[i] == d }

  /** Until the receiver has a block, the first is all there is. */
  ghost predicate OnlyFirst(t: Transfer, s: System)
    requires t.Valid()
  {
    SenderReady(t.cfg, s.snd) && s.snd.cur == 1 && s.snd.phase in {M.Waiting, M.Aborted}
    && s.acks == [] && All(s.data, t.cfg.Packet(1))
  }

  /** A receiver that ends with the first block. */
  ghost predicate EndsAtOnce(t: Transfer, s: System) {
    && t.Valid() && ReceiverHolds(t, s.rcv) && s.rcv.accepted <= 1 <= s.snd.cur
    && (s.rcv.accepted == 0 ==> OnlyFirst(t, s))
  }

  lemma FirstMove(t: Transfer, s: System, e: Event)
    requires t.Valid() && OnlyFirst(t, s) && ReceiverHolds(t, s.rcv) && !e.Packet?
    ensures OnlyFirst(t, Senders(t, s, e)) && Senders(t, s, e).rcv == s.rcv
    ensures (e == Timeout ==> s.data == []) ==> |s.data| <= 1 ==> |Senders(t, s, e).data| <= 1
  {
    SenderMove(t.cfg, s.snd, e, 0);
  }

  lemma FirstTaken(t: Transfer, s: System, i: nat)
    requires t.Valid() && OnlyFirst(t, s) && ReceiverHolds(t, s.rcv) && s.rcv.accepted == 0 && i < |s.data|
    ensures var s' := Receivers(t, s.(data := Without(s.data, i)), Packet(s.data[i], t.port));
      && ReceiverHolds(t, s'.rcv) && s'.snd == s.snd && s'.data == Without(s.data, i)
      && (PortGood(t, s.rcv) ==> PortGood(t, s'.rcv))
      && if s.rcv.phase == R.Receiving then
           s'.rcv.accepted == 1 && All(s'.acks, Ack(1)) && (PortGood(t, s.rcv) ==> s'.acks != [])
         else s'.rcv == s.rcv && s'.acks == s.acks
  {
    if s.rcv.phase == R.Receiving {
      NextBlockTaken(t, s.rcv);
    }
  }

  lemma EndedForGood(t: Transfer, f: Faults, s: System, h: Happening)
    requires Ok(t, s) && s.rcv.phase != R.Receiving
    ensures Apply(t, f, s, h).rcv == s.rcv
  {
  }

  lemma NeverBack(t: Transfer, f: Faults, s: System, h: Happening)
    requires Ok(t, s)
    ensures Apply(t, f, s, h).snd.cur >= s.snd.cur
  {
  }

  lemma EndsAtOnceKept(t: Transfer, f: Faults, s: System, h: Happening)
    requires EndsAtOnce(t, s) && GoesOnAfter(t) == 0 && Ok(t, s)
    ensures EndsAtOnce(t, Apply(t, f, s, h))
  {
    GoesOn(t, 1);
    if s.rcv.accepted == 1 {
      EndedForGood(t, f, s, h);
      NeverBack(t, f, s, h);
    } else if Allowed(t, f, s, h) {
      match h
      case SenderTimesOut => FirstMove(t, s, Timeout);
      case SenderHearsStranger(d) => FirstMove(t, s, Foreign(d));
      case DataArrives(i) => FirstTaken(t, s, i);
      case ReceiverTimesOut => WaitKept(t, s, Timeout);
      case ReceiverHearsStranger(d, q) => WaitKept(t, s, Foreign(d, q));
      case _ =>
    }
  }

  lemma WaitKept(t: Transfer, s: System, e: Event)
    requires Ok(t, s) && ReceiverHolds(t, s.rcv) && !e.Packet?
    ensures var s' := Receivers(t, s, e);
      ReceiverHolds(t, s'.rcv) && s'.rcv.accepted == s.rcv.accepted && s' == s.(rcv := s'.rcv)
  {
    assert s.acks + [] == s.acks;
  }

  lemma {:induction false} EndsAtOnceHolds(t: Transfer, f: Faults, history: seq<Happening>)
    requires t.Valid() && GoesOnAfter(t) == 0
    ensures EndsAtOnce(t, After(t, f, history))
  {
    if history == [] {
      Begins(t, f);
    } else {
      EndsAtOnceHolds(t, f, history[..|history| - 1]);
      EndsAtOnceKept(t, f, After(t, f, history[..|history| - 1]), history[|history| - 1]);
    }
  }

  /** Where repeated ACKs are the only fault and the receiver goes on after one block: a second ACK of that
      block can only make the sender repeat the last one, which ends the download. */
  ghost predicate OneMore(t: Transfer, s: System) {
    && t.Valid() && ReceiverHolds(t, s.rcv) && PortGood(t, s.rcv) && s.rcv.accepted <= s.snd.cur
    && (s.rcv.accepted == 0 ==> OnlyFirst(t, s) && |s.data| <= 1)
    && (s.rcv.accepted == 1 ==> SenderReady(t.cfg, s.snd) && All(s.acks, Ack(1)) && SecondNext(t, s))
  }

  ghost predicate SecondNext(t: Transfer, s: System)
    requires t.Valid()
  {
    if s.snd.cur == 1 then s.data == [] && (s.acks != [] || s.snd.phase in {M.Finished, M.Aborted})
    else s.snd.cur == 2 == |t.cfg.blocks| && s.snd.phase != M.Handshake && All(s.data, t.cfg.Packet(2))
  }

  lemma SenderOneMore(t: Transfer, s: System, e: Event)
    requires OneMore(t, s) && s.rcv.accepted == 1 && Ok(t, s) && !e.Packet?
    requires e == Timeout ==> s.data == [] && s.acks == []
    ensures OneMore(t, Senders(t, s, e))
  {
    SenderMove(t.cfg, s.snd, e, 0);
  }

  lemma AckOneMore(t: Transfer, s: System, i: nat)
    requires OneMore(t, s) && s.rcv.accepted == 1 && Ok(t, s) && i < |s.acks| && |t.cfg.blocks| <= 2
    ensures OneMore(t, Senders(t, s.(acks := Without(s.acks, i)), Packet(s.acks[i])))
  {
    SenderMove(t.cfg, s.snd, Packet(s.acks[i]), 1);
  }

  lemma DataOneMore(t: Transfer, s: System, i: nat)
    requires OneMore(t, s) && s.rcv.accepted == 1 && Ok(t, s) && i < |s.data|
    ensures OneMore(t, Receivers(t, s.(data := Without(s.data, i)), Packet(s.data[i], t.port)))
  {
    if s.rcv.phase == R.Receiving {
      NextBlockTaken(t, s.rcv);
    } else {
      assert s.acks + [] == s.acks;
    }
  }

  lemma BeforeFirst(t: Transfer, f: Faults, s: System, h: Happening)
    requires OneMore(t, s) && s.rcv.accepted == 0 && Ok(t, s) && Allowed(t, f, s, h) && Clean(t, f, true)
    ensures OneMore(t, Apply(t, f, s, h))
  {
    match h
    case SenderTimesOut => FirstMove(t, s, Timeout);
    case SenderHearsStranger(d) => FirstMove(t, s, Foreign(d));
    case DataArrives(i) => FirstTaken(t, s, i);
    case ReceiverTimesOut => WaitKept(t, s, Timeout); PortStaysGood(t, f, s, Timeout);
    case ReceiverHearsStranger(d, q) => WaitKept(t, s, Foreign(d, q)); PortStaysGood(t, f, s, Foreign(d, q));
    case _ =>
  }

  lemma AfterFirst(t: Transfer, f: Faults, s: System, h: Happening)
    requires OneMore(t, s) && s.rcv.accepted == 1 && Ok(t, s) && Allowed(t, f, s, h) && |t.cfg.blocks| <= 2
    requires Clean(t, f, true)
    ensures OneMore(t, Apply(t, f, s, h))
  {
    match h
    case SenderTimesOut => SenderOneMore(t, s, Timeout);
    case SenderHearsStranger(d) => SenderOneMore(t, s, Foreign(d));
    case DataArrives(i) => DataOneMore(t, s, i);
    case AckArrives(i) => AckOneMore(t, s, i);
    case ReceiverTimesOut => WaitKept(t, s, Timeout); PortStaysGood(t, f, s, Timeout);
    case ReceiverHearsStranger(d, q) => WaitKept(t, s, Foreign(d, q)); PortStaysGood(t, f, s, Foreign(d, q));
    case _ =>
  }

  lemma AfterSecond(t: Transfer, f: Faults, s: System, h: Happening)
    requires OneMore(t, s) && s.rcv.accepted > 1 && Ok(t, s) && GoesOnAfter(t) == 1
    ensures OneMore(t, Apply(t, f, s, h))
  {
    EndedForGood(t, f, s, h);
    NeverBack(t, f, s, h);
  }

  lemma {:induction false} OneMoreHolds(t: Transfer, f: Faults, history: seq<Happening>)
    requires t.Valid() && GoesOnAfter(t) == 1 && Clean(t, f, true)
    ensures OneMore(t, After(t, f, history))
  {
    if history == [] {
      Begins(t, f);
    } else {
      var s, h := After(t, f, history[..|history| - 1]), history[|history| - 1];
      OneMoreHolds(t, f, history[..|history| - 1]);
      GoesOn(t, 1);
      if !Allowed(t, f, s, h) {
      } else if s.rcv.accepted == 0 {
        BeforeFirst(t, f, s, h);
      } else if s.rcv.accepted == 1 {
        AfterFirst(t, f, s, h);
      } else {
        AfterSecond(t, f, s, h);
      }
    }
  }

  // ---------- a client that is given another port ----------

  /** The client has taken n copies of block 1, which make up `file`, and sends its ACKs elsewhere; the sender
      waits for the first of them. */
  ghost predicate Misled(t: Transfer, s: System, n: nat, file: seq<byte>) {
    && t.Valid() && SenderReady(t.cfg, s.snd) && s.snd.phase == M.Waiting && s.snd.cur == 1
    && R.Ok(s.rcv) && s.rcv.phase == R.Receiving && s.rcv.accepted == n && s.rcv.written == file
    && s.rcv.flag == (n == 0) && s.rcv.datasize == (if n == 0 then t.r0 else t.Settled())
    && Elsewhere(t, s.rcv.port) && s.acks == []
  }

  /** A stranger's datagram comes first, or a wait runs out and the stale port is taken for the server's. */
  lemma MisledAtOnce(t: Transfer, f: Faults) returns (h: Happening)
    requires t.Valid() && Misleads(t, f)
    ensures Misled(t, After(t, f, [h]), 0, [])
    ensures After(t, f, [h]).data == [t.cfg.Packet(1)] && After(t, f, [h]).snd.j == 0
  {
    Begins(t, f);
    AfterSnoc(t, f, [], SilentOrStrange(t, f));
    h := SilentOrStrange(t, f);
    assert [] + [h] == [h];
  }

  function SilentOrStrange(t: Transfer, f: Faults): Happening {
    if f.strangersFirst then ReceiverHearsStranger(AckPacket(0), OtherPort(t.port)) else ReceiverTimesOut
  }

  function OtherPort(p: Port): Port { if p == 1 then 2 else 1 }

  /** A misled client takes block 1, once more, and nothing is under way. */
  lemma TakenUnheard(t: Transfer, f: Faults, s: System, n: nat, file: seq<byte>)
    requires Ok(t, s) && GoesOnAfter(t) > 0 && Misled(t, s, n, file) && s.data == [t.cfg.Packet(1)]
    ensures var s' := Apply(t, f, s, DataArrives(0));
      Misled(t, s', n + 1, file + t.cfg.blocks[0]) && s'.data == [] && s'.snd == s.snd
  {
    GoesOn(t, 1);
    DataJudged(t.cfg, 1, s.rcv.Count(), t.port);
    OnlyDataArrives(t, f, s, t.cfg.Packet(1));
  }

  /** So the sender may time out, and repeats it. */
  lemma RepeatedUnheard(t: Transfer, f: Faults, s: System, n: nat, file: seq<byte>)
    requires Ok(t, s) && Misled(t, s, n, file) && s.data == [] && s.snd.j == 0
    ensures var s' := Apply(t, f, s, SenderTimesOut); Misled(t, s', n, file) && s'.data == [t.cfg.Packet(1)]
  {
    SenderMove(t.cfg, s.snd, Timeout, 0);
    assert [] + [t.cfg.Packet(1)] == [t.cfg.Packet(1)];
  }

  /** Block 1 is written twice: its ACK never comes, and the sender repeats it. */
  lemma FirstTwice(t: Transfer, f: Faults, h: Happening)
    requires t.Valid() && GoesOnAfter(t) > 0
    requires Misled(t, After(t, f, [h]), 0, []) && After(t, f, [h]).data == [t.cfg.Packet(1)]
    requires After(t, f, [h]).snd.j == 0
    ensures var s := After(t, f, [h, DataArrives(0), SenderTimesOut, DataArrives(0)]);
      s.snd.cur == 1 && s.rcv.accepted == 2 && s.rcv.written == t.cfg.blocks[0] + t.cfg.blocks[0]
  {
    var b, s := t.cfg.blocks[0], After(t, f, [h]);
    ThreeMore(t, f, h);
    TakenUnheard(t, f, s, 0, []);
    var s2 := Apply(t, f, s, DataArrives(0));
    RepeatedUnheard(t, f, s2, 1, [] + b);
    TakenUnheard(t, f, Apply(t, f, s2, SenderTimesOut), 1, [] + b);
    assert [] + b == b;
  }

  lemma ThreeMore(t: Transfer, f: Faults, h: Happening)
    requires t.Valid()
    ensures var s := Apply(t, f, Apply(t, f, After(t, f, [h]), DataArrives(0)), SenderTimesOut);
      After(t, f, [h, DataArrives(0), SenderTimesOut, DataArrives(0)]) == Apply(t, f, s, DataArrives(0))
  {
    var h2 := [h, DataArrives(0)];
    var h3 := [h, DataArrives(0), SenderTimesOut];
    assert [h] + [DataArrives(0)] == h2 && h2 + [SenderTimesOut] == h3;
    assert h3 + [DataArrives(0)] == [h, DataArrives(0), SenderTimesOut, DataArrives(0)];
    AfterSnoc(t, f, [h], DataArrives(0));
    AfterSnoc(t, f, h2, SenderTimesOut);
    AfterSnoc(t, f, h3, DataArrives(0));
  }

  /** The input: another host is heard before the server, whatever else the network is spared. */
  lemma StrangerFirstBreaks(t: Transfer, f: Faults, q: Port, d: Datagram)
    requires t.Valid() && GoesOnAfter(t) > 0 && f.strangersFirst && q != t.port
    ensures var s := After(t, f, [ReceiverHearsStranger(d, q), DataArrives(0), SenderTimesOut, DataArrives(0)]);
      s.snd.cur == 1 && s.rcv.accepted == 2 && s.rcv.written == t.cfg.blocks[0] + t.cfg.blocks[0]
  {
    Begins(t, f);
    var h := ReceiverHearsStranger(d, q);
    AfterSnoc(t, f, [], h);
    assert [] + [h] == [h];
    FirstTwice(t, f, h);
  }

  lemma MisledBreaks(t: Transfer, f: Faults) returns (history: seq<Happening>)
    requires t.Valid() && GoesOnAfter(t) > 0 && Misleads(t, f)
    ensures After(t, f, history).rcv.accepted > After(t, f, history).snd.cur
  {
    var h := MisledAtOnce(t, f);
    FirstTwice(t, f, h);
    history := [h, DataArrives(0), SenderTimesOut, DataArrives(0)];
  }

  // ---------- exactly ----------

  /** What the network must not do, by the number of blocks the receiver goes on after. */
  predicate Harmless(t: Transfer, f: Faults, goesOnAfter: nat) {
    goesOnAfter == 0 || Clean(t, f, goesOnAfter == 1)
  }

  lemma HarmlessIsSafe(t: Transfer, f: Faults, history: seq<Happening>)
    requires t.Valid() && Harmless(t, f, GoesOnAfter(t))
    ensures TakenOnce(t, After(t, f, history))
  {
    if GoesOnAfter(t) == 0 {
      EndsAtOnceHolds(t, f, history);
    } else if GoesOnAfter(t) == 1 {
      OneMoreHolds(t, f, history);
    } else {
      DownloadSafe(t, f, history);
    }
  }

  /** Repetition, lost ACKs and early timeouts. */
  lemma FaultsBreak(t: Transfer, f: Faults) returns (history: seq<Happening>)
    requires t.Valid() && GoesOnAfter(t) > 0 && !Misleads(t, f) && !Clean(t, f, GoesOnAfter(t) == 1)
    ensures Doubled(t, After(t, f, history).rcv.written)
  {
    if f.repeatsData {
      history := RepeatedDataBreaks(t, f);
    } else if f.earlyTimeouts {
      history := EarlyTimeoutBreaks(t, f);
    } else if f.losesAcks {
      history := LostAckBreaks(t, f);
    } else {
      history := RepeatedAckBreaks(t, f);
    }
  }

  /** Every history takes each block once and in order exactly if the network has none of the four faults and
      cannot mislead the client about the port; or the receiver ends with the first block; or it goes on after
      just one, and repeated ACKs are the only fault. */
  lemma DownloadSafeIff(t: Transfer, f: Faults)
    requires t.Valid()
    ensures (forall history :: TakenOnce(t, After(t, f, history))) <==> Harmless(t, f, GoesOnAfter(t))
  {
    if Harmless(t, f, GoesOnAfter(t)) {
      forall history ensures TakenOnce(t, After(t, f, history)) {
        HarmlessIsSafe(t, f, history);
      }
    } else if Misleads(t, f) {
      var history := MisledBreaks(t, f);
      assert !TakenOnce(t, After(t, f, history));
    } else {
      var history := FaultsBreak(t, f);
      DoubledShows(t, After(t, f, history).rcv.written);
      assert !TakenOnce(t, After(t, f, history));
    }
  }
}
