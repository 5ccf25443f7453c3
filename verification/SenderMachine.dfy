/** `tsend` of tftpd.c (Role.Server, answering a read request) and of tftpc.c (Role.Client, after a
    write request) as a machine that moves once per wait on its socket. The two functions differ in
    which blocks they await an ACK for, in the client's wait for ACK 0, and in one error text. */
module SenderMachine {
  import opened Packets
  import opened Chunking

  datatype Role = Server | Client

  /** `d` is `datasize`, `w` is `ackfreq`, `blocks` what successive `fread`s of the file deliver. `port0` is,
      for the server, its client's port; for the client, what `ack.sin_port` holds before anything is received. */
  datatype Config = Config(role: Role, d: BlockSize, w: Window, blocks: seq<seq<byte>>, port0: nat) {
    /** The command line admits these; past 65535 blocks a window above 2 would index a slot below 0. */
    ghost predicate Valid() {
      && Chunked(blocks, d)
      && (w <= 2 || |blocks| < WRAP)
    }

    /** The data packet of block k, numbered from 1. */
    ghost function Packet(k: nat): Datagram
      requires 1 <= k <= |blocks| && Chunked(blocks, d)
    {
      DataPacket(k % WRAP, blocks[k - 1])
    }
  }

  datatype Phase = Handshake | Waiting | Finished | Aborted

  /** `cur` counts the `fread`s, so `count` is `cur % WRAP`; `j` counts failed tries for this ACK;
      `len` is the length the next resend uses; `slots` is `packetbuf`; `port` is where datagrams go, which
      the client's handshake takes anew from every wait, silence included. */
  datatype Sender = Sender(phase: Phase, cur: nat, j: nat, len: nat, slots: seq<seq<byte>>, port: nat) {
    function Count(): uint16 { cur % WRAP }
  }

  /** `bcount`: the slot for the block numbered `count`. */
  function SlotIndex(count: uint16, w: Window): int
  {
    if count == 1 || count == 2 then 0 else CRem(count - 2, w)
  }

  /** Whether the loop awaits an ACK after sending the block numbered `count`. */
  predicate Awaits(role: Role, count: uint16, w: Window, short: bool)
  {
    match role
    case Server => count - 1 == 0 || CRem(count - 1, w) == 0 || short
    case Client => count as int % w == 0 || short
  }

  /** `bytes` written over `s` from offset `at` on. */
  function Splice(s: seq<byte>, at: nat, bytes: seq<byte>): (r: seq<byte>)
    requires at + |bytes| <= |s|
    ensures |r| == |s|
  {
    s[..at] + bytes + s[at + |bytes|..]
  }

  /** The slot after `sprintf` (which also writes a NUL), `memcpy` and the two number bytes. */
  function FillSlot(slot: seq<byte>, count: uint16, block: seq<byte>): (r: seq<byte>)
    requires |slot| == SLOT_SIZE && |block| <= MAX_DATA_SIZE
    ensures |r| == SLOT_SIZE && r[..4 + |block|] == DataPacket(count, block)
  {
    var copied := Splice(Splice(slot, 0, [0, DATA, 0, 0, 0]), 4, block);
    var r := Splice(Splice(copied, 2, [HighByte(count)]), 3, [LowByte(count)]);
    assert r[..4] == [0, DATA, HighByte(count), LowByte(count)];
    assert copied[4..4 + |block|] == block;
    assert r[4..4 + |block|] == copied[4..4 + |block|];
    assert r[..4 + |block|] == r[..4] + r[4..4 + |block|];
    r
  }

  function IllegalOperation(role: Role): (r: Datagram)
    ensures 22 <= |r| <= 27 && r[1] == ERR
  {
    match role
    case Server => ErrorPacket(4, "Illegal operation")
    case Client => ErrorPacket(4, "Illegal TFTP operation")
  }

  ghost predicate SlotArray(slots: seq<seq<byte>>) {
    |slots| == MAX_ACK_FREQ && forall i :: 0 <= i < |slots| ==> |slots[i]| == SLOT_SIZE
  }

  /** What every reachable machine state keeps. */
  ghost predicate Ok(cfg: Config, s: Sender) {
    && SlotArray(s.slots)
    && s.cur <= |cfg.blocks|
    && 4 <= s.len <= MAX_DATA_SIZE + 4
    && (s.phase == Waiting ==> 1 <= s.cur && s.j < RETRIES)
    && (s.phase == Waiting ==> Awaits(cfg.role, s.Count(), cfg.w, |cfg.blocks[s.cur - 1]| != cfg.d))
    && (s.phase in {Finished, Aborted} ==> 1 <= s.cur)
    && (s.phase == Finished ==> s.cur == |cfg.blocks|)
    && (s.phase == Handshake ==> s.cur == 0 && cfg.role == Client)
  }

  lemma SlotInRange(cfg: Config, count: uint16)
    ensures 0 <= SlotIndex(count, cfg.w) < cfg.w <==> cfg.w <= 2 || count > 0
  {
  }

  /** One pass of the sending loop up to its ACK test: read a block, store it in its slot, send it. */
  function SendBlock(cfg: Config, s: Sender): (r: (Sender, Datagram))
    requires cfg.Valid() && SlotArray(s.slots) && s.cur < |cfg.blocks|
    ensures SlotArray(r.0.slots) && r.0.cur == s.cur + 1 && r.0.port == s.port
    ensures r.1 == cfg.Packet(r.0.cur)
  {
    var cur := s.cur + 1;
    var count: uint16 := cur % WRAP;
    var block := cfg.blocks[s.cur];
    SlotInRange(cfg, count);
    var b := SlotIndex(count, cfg.w);
    var slot := FillSlot(s.slots[b], count, block);
    (s.(cur := cur, len := 4 + |block|, slots := s.slots[b := slot]), slot[..4 + |block|])
  }

  /** The sending loop from its head to the next ACK wait. */
  function Burst(cfg: Config, s: Sender): (r: (Sender, seq<Datagram>))
    requires cfg.Valid() && SlotArray(s.slots) && s.cur < |cfg.blocks|
    ensures Ok(cfg, r.0) && r.0.phase == Waiting && r.0.j == 0 && s.cur < r.0.cur && r.0.port == s.port
    decreases |cfg.blocks| - s.cur
  {
    var (t, packet) := SendBlock(cfg, s);
    var short := |cfg.blocks[s.cur]| != cfg.d;
    if Awaits(cfg.role, t.Count(), cfg.w, short) then
      (t.(phase := Waiting, j := 0), [packet])
    else
      var (u, packets) := Burst(cfg, t);
      (u, [packet] + packets)
  }

  /** Slots 0..bcount, all cut to the current `len`. */
  function Resend(cfg: Config, s: Sender): (r: seq<Datagram>)
    requires cfg.Valid() && Ok(cfg, s) && s.phase == Waiting
    ensures |r| == SlotIndex(s.Count(), cfg.w) + 1
  {
    SlotInRange(cfg, s.Count());
    seq(SlotIndex(s.Count(), cfg.w) + 1, i requires 0 <= i <= SlotIndex(s.Count(), cfg.w) => s.slots[i][..s.len])
  }

  /** A try for the awaited ACK failed: an error reply if one is due (its length replaces `len`), then the resend. */
  function Fail(cfg: Config, s: Sender, illegal: bool): (r: (Sender, seq<Datagram>))
    requires cfg.Valid() && Ok(cfg, s) && s.phase == Waiting
    ensures Ok(cfg, r.0) && r.0.port == s.port
  {
    var reply := IllegalOperation(cfg.role);
    var t := if illegal then s.(len := |reply|) else s;
    (t.(j := s.j + 1, phase := if s.j + 1 == RETRIES then Aborted else Waiting),
     (if illegal then [reply] else []) + Resend(cfg, t))
  }

  /** How the outcome of one wait is taken: another host's datagram does not count as a try. */
  datatype Verdict = Ignored | Accepted | Rejected | Illegal

  function Judge(e: Event, count: uint16): Verdict {
    match e
    case Timeout => Rejected
    case Foreign(_, _) => Ignored
    case Packet(d, _) =>
      if Opcode(d) == ACK && BlockNumber(d) == count then Accepted
      else if Opcode(d) > 5 then Illegal
      else Rejected
  }

  /** The move made while an ACK is awaited, and the datagrams it sends. */
  function Move(cfg: Config, s: Sender, verdict: Verdict): (r: (Sender, seq<Datagram>))
    requires cfg.Valid() && Ok(cfg, s) && s.phase == Waiting
    ensures Ok(cfg, r.0) && r.0.port == s.port
  {
    match verdict
    case Ignored => (s, [])
    case Accepted => if |cfg.blocks[s.cur - 1]| != cfg.d then (s.(phase := Finished), []) else Burst(cfg, s)
    case Rejected => Fail(cfg, s, false)
    case Illegal => Fail(cfg, s, true)
  }

  /** The move made on one outcome of a wait, and the datagrams it sends. */
  function Step(cfg: Config, s: Sender, e: Event): (r: (Sender, seq<Datagram>))
    requires cfg.Valid() && Ok(cfg, s)
    ensures Ok(cfg, r.0) && r.0.port == if s.phase == Handshake then Heard(s.port, e) else s.port
  {
    var verdict := Judge(e, s.Count());
    match s.phase
    case Finished => (s, [])
    case Aborted => (s, [])
    case Waiting => Move(cfg, s, verdict)
    case Handshake =>
      // RETRIES - 2 is one try, and whether it failed is not looked at
      var u := s.(port := Heard(s.port, e));
      if verdict == Ignored then (u, [])
      else
        var (t, packets) := Burst(cfg, u);
        (t, if verdict == Illegal then [IllegalOperation(cfg.role)] + packets else packets)
  }

  /** The machine before it does anything; the buffer starts with stale bytes. */
  function Idle(cfg: Config, stale: seq<seq<byte>>): Sender {
    Sender(if cfg.role == Server then Waiting else Handshake, 0, 0, 4, stale, cfg.port0)
  }

  /** The machine before its first wait, and the datagrams sent by then. */
  function Start(cfg: Config, stale: seq<seq<byte>>): (r: (Sender, seq<Datagram>))
    requires cfg.Valid() && SlotArray(stale)
    ensures Ok(cfg, r.0)
  {
    match cfg.role
    case Server => Burst(cfg, Idle(cfg, stale))
    case Client => (Idle(cfg, stale), [])
  }

  /** The state after the waits in `events`, and everything sent so far. */
  function Run(cfg: Config, stale: seq<seq<byte>>, events: seq<Event>): (r: (Sender, seq<Datagram>))
    requires cfg.Valid() && SlotArray(stale)
    ensures Ok(cfg, r.0)
  {
    if events == [] then Start(cfg, stale)
    else
      var last := |events| - 1;
      var (s, sent) := Run(cfg, stale, events[..last]);
      var (t, more) := Step(cfg, s, events[last]);
      (t, sent + more)
  }

  /** The sender was still at work before the last event. */
  ghost predicate Live(cfg: Config, stale: seq<seq<byte>>, events: seq<Event>)
    requires cfg.Valid() && SlotArray(stale)
  {
    events == [] || Run(cfg, stale, events[..|events| - 1]).0.phase in {Handshake, Waiting}
  }

  lemma RunSnoc(cfg: Config, stale: seq<seq<byte>>, events: seq<Event>, e: Event)
    requires cfg.Valid() && SlotArray(stale)
    ensures var (s, sent) := Run(cfg, stale, events);
      var (t, more) := Step(cfg, s, e);
      Run(cfg, stale, events + [e]) == (t, sent + more)
  {
    assert (events + [e])[..|events|] == events;
  }
}
