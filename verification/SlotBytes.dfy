/** What the slots of either sender hold, byte by byte: sprintf, memcpy and the two number bytes write over what an
    earlier packet, or nobody, has left there. */
module SlotBytes {
  import opened Packets
  import opened Chunking
  import opened Wire
  import M = SenderMachine

  /** The packet of block k. */
  function Data(cfg: M.Config, k: nat): seq<byte>
    requires 1 <= k <= |cfg.blocks|
  {
    DataBytes(k, cfg.blocks[k - 1])
  }

  /** How many packets are stored before that of block k. */
  function Slot(k: nat, w: Window): nat { if k % 65536 == 1 then 0 else (k % 65536 - 2) % w }

  /** Byte p of slot i once the first k blocks have been stored. */
  function StoredByte(cfg: M.Config, stale: seq<seq<byte>>, k: nat, i: nat, p: nat): byte
    requires k <= |cfg.blocks| && i < |stale| && p < |stale[i]|
  {
    if k == 0 then stale[i][p]
    else if Slot(k, cfg.w) != i then StoredByte(cfg, stale, k - 1, i, p)
    else if p < |Data(cfg, k)| then Data(cfg, k)[p]
    else if p == 4 then 0  // the NUL of sprintf, behind an empty block
    else StoredByte(cfg, stale, k - 1, i, p)
  }

  ghost predicate Stored(cfg: M.Config, stale: seq<seq<byte>>, slots: seq<seq<byte>>, k: nat) {
    && M.SlotArray(stale) && M.SlotArray(slots) && k <= |cfg.blocks|
    && forall i, p :: 0 <= i < MAX_ACK_FREQ && 0 <= p < SLOT_SIZE ==>
         slots[i][p] == StoredByte(cfg, stale, k, i, p)
  }

  lemma SlotsAgree(k: nat, w: Window)
    requires 1 <= k && (w <= 2 || k < WRAP)
    ensures M.SlotIndex(k % WRAP, w) == Slot(k, w)
  {
    SlotOfCount(k % WRAP, w);
  }

  lemma SlotOfCount(count: uint16, w: Window)
    requires w <= 2 || count > 0
    ensures M.SlotIndex(count, w) == if count == 1 then 0 else (count - 2) % w
  {
  }

  lemma PacketIsData(cfg: M.Config, k: nat)
    requires cfg.Valid() && 1 <= k <= |cfg.blocks|
    ensures cfg.Packet(k) == Data(cfg, k)
  {
    PrintedAs(k, cfg.blocks[k - 1]);
  }

  lemma SpliceByte(s: seq<byte>, at: nat, bytes: seq<byte>, p: nat)
    requires at + |bytes| <= |s| && p < |s|
    ensures M.Splice(s, at, bytes)[p] == if at <= p < at + |bytes| then bytes[p - at] else s[p]
  {
  }

  /** Filling a slot leaves alone what lies behind the packet. */
  lemma FillByte(slot: seq<byte>, count: uint16, block: seq<byte>, p: nat)
    requires |slot| == SLOT_SIZE && |block| <= MAX_DATA_SIZE && p < SLOT_SIZE
    ensures M.FillSlot(slot, count, block)[p]
         == if p < 4 + |block| then DataPacket(count, block)[p] else if p == 4 then 0 else slot[p]
  {
    var r := M.FillSlot(slot, count, block);
    if p < 4 + |block| {
      assert r[p] == r[..4 + |block|][p];
    } else {
      var printed := M.Splice(slot, 0, [0, DATA, 0, 0, 0]);
      var copied := M.Splice(printed, 4, block);
      SpliceByte(slot, 0, [0, DATA, 0, 0, 0], p);
      SpliceByte(printed, 4, block, p);
      SpliceByte(copied, 2, [HighByte(count)], p);
      SpliceByte(M.Splice(copied, 2, [HighByte(count)]), 3, [LowByte(count)], p);
    }
  }

  lemma StoreByte(cfg: M.Config, stale: seq<seq<byte>>, slots: seq<seq<byte>>, k: nat, p: nat)
    requires cfg.Valid() && Stored(cfg, stale, slots, k) && k < |cfg.blocks| && p < SLOT_SIZE
    requires Slot(k + 1, cfg.w) < MAX_ACK_FREQ
    ensures var b := Slot(k + 1, cfg.w);
      M.FillSlot(slots[b], (k + 1) % WRAP, cfg.blocks[k])[p] == StoredByte(cfg, stale, k + 1, b, p)
  {
    FillByte(slots[Slot(k + 1, cfg.w)], (k + 1) % WRAP, cfg.blocks[k], p);
    PrintedAs(k + 1, cfg.blocks[k]);
  }

  lemma SendBlockStores(cfg: M.Config, stale: seq<seq<byte>>, s: M.Sender)
    requires cfg.Valid() && Stored(cfg, stale, s.slots, s.cur) && s.cur < |cfg.blocks|
    ensures Stored(cfg, stale, M.SendBlock(cfg, s).0.slots, s.cur + 1)
  {
    var k, slots := s.cur + 1, M.SendBlock(cfg, s).0.slots;
    SlotsAgree(k, cfg.w);
    M.SlotInRange(cfg, k % WRAP);
    forall i, p | 0 <= i < MAX_ACK_FREQ && 0 <= p < SLOT_SIZE
      ensures slots[i][p] == StoredByte(cfg, stale, k, i, p)
    {
      if i == Slot(k, cfg.w) {
        StoreByte(cfg, stale, s.slots, s.cur, p);
      } else {
        assert slots[i] == s.slots[i];
      }
    }
  }

  lemma {:induction false} BurstStores(cfg: M.Config, stale: seq<seq<byte>>, s: M.Sender)
    requires cfg.Valid() && Stored(cfg, stale, s.slots, s.cur) && s.cur < |cfg.blocks|
    ensures Stored(cfg, stale, M.Burst(cfg, s).0.slots, M.Burst(cfg, s).0.cur)
    decreases |cfg.blocks| - s.cur
  {
    SendBlockStores(cfg, stale, s);
    var t := M.SendBlock(cfg, s).0;
    if !M.Awaits(cfg.role, t.Count(), cfg.w, |cfg.blocks[s.cur]| != cfg.d) {
      BurstStores(cfg, stale, t);
    }
  }

  lemma StepStores(cfg: M.Config, stale: seq<seq<byte>>, s: M.Sender, e: Event)
    requires cfg.Valid() && M.Ok(cfg, s) && Stored(cfg, stale, s.slots, s.cur)
    ensures Stored(cfg, stale, M.Step(cfg, s, e).0.slots, M.Step(cfg, s, e).0.cur)
  {
    if s.phase == M.Handshake {
      BurstStores(cfg, stale, s.(port := Heard(s.port, e)));
    } else if s.cur < |cfg.blocks| {
      BurstStores(cfg, stale, s);
    }
  }

  /** On every run of either sender, whatever arrives: each byte of each slot. */
  lemma {:induction false} RunStores(cfg: M.Config, stale: seq<seq<byte>>, events: seq<Event>)
    requires cfg.Valid() && M.SlotArray(stale)
    ensures var s := M.Run(cfg, stale, events).0; Stored(cfg, stale, s.slots, s.cur)
  {
    if events == [] {
      BurstStores(cfg, stale, M.Idle(cfg, stale));
    } else {
      var before := M.Run(cfg, stale, events[..|events| - 1]).0;
      RunStores(cfg, stale, events[..|events| - 1]);
      StepStores(cfg, stale, before, events[|events| - 1]);
    }
  }
}
