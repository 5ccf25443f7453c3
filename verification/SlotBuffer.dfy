/** What both senders keep on every run, whatever arrives: what the slot buffer holds at an ACK wait,
    what a resend repeats, how many DATA datagrams go out, and that the run ends. */
module SlotBuffer {
  import opened Packets
  import opened Chunking
  import opened SenderMachine

  // ---------- slots and ACK waits ----------

  lemma ModStep(a: nat, b: nat, w: Window)
    requires b == a + 1
    ensures b % w == if a % w + 1 == w then 0 else a % w + 1
  {
    var q, r := a / w, a % w;
    assert a == q * w + r;
    if r + 1 == w {
      assert b == (q + 1) * w;
      MultipleMod(q + 1, w, 0);
    } else {
      MultipleMod(q, w, r + 1);
    }
  }

  lemma MultipleMod(q: nat, w: Window, r: nat)
    requires r < w
    ensures (q * w + r) % w == r
  {
    QuotientUnique(q * w + r, w, q);
  }

  lemma SlotIs(k: nat, w: Window)
    requires 2 <= k < WRAP
    ensures SlotIndex(k % WRAP, w) == (k - 2) % w
  {
    assert k % WRAP == k;
  }

  /** At w = 2 the wrapped counts 0, 1 and 2 all go to slot 0. */
  lemma SlotOfTwo(k: nat)
    ensures SlotIndex(k % WRAP, 2) == if k % WRAP >= 3 && k % 2 == 1 then 1 else 0
  {
    SameParity(k);
  }

  /** Block k + 1 goes to the slot after that of block k, or to slot 0. */
  lemma SlotStep(k: nat, w: Window)
    requires 1 <= k && (w <= 2 || k + 1 < WRAP)
    ensures var b, b' := SlotIndex(k % WRAP, w), SlotIndex((k + 1) % WRAP, w);
      0 <= b < w && (b' == 0 || b' == b + 1)
  {
    if w == 2 {
      SlotOfTwo(k);
      SlotOfTwo(k + 1);
    } else if w > 2 {
      SlotIs(k + 1, w);
      if k > 1 {
        SlotIs(k, w);
        ModStep(k - 2, k - 1, w);
      }
    }
  }

  /** Slots 0..bcount hold the bcount + 1 packets up to that of block k. */
  ghost predicate SlotsHold(cfg: Config, slots: seq<seq<byte>>, k: nat)
    requires cfg.Valid() && SlotArray(slots) && k <= |cfg.blocks|
  {
    k > 0 ==>
      var b := SlotIndex(k % WRAP, cfg.w);
      && 0 <= b < cfg.w && b < k
      && forall i :: 0 <= i <= b ==> cfg.Packet(k - b + i) <= slots[i]
  }

  lemma SendBlockKeepsSlots(cfg: Config, s: Sender)
    requires cfg.Valid() && SlotArray(s.slots) && s.cur < |cfg.blocks|
    requires SlotsHold(cfg, s.slots, s.cur)
    ensures SlotsHold(cfg, SendBlock(cfg, s).0.slots, s.cur + 1)
  {
    var t := SendBlock(cfg, s).0;
    var b' := SlotIndex(t.Count(), cfg.w);
    SlotInRange(cfg, t.Count());
    assert cfg.Packet(t.cur) <= t.slots[b'];
    if s.cur > 0 {
      SlotStep(s.cur, cfg.w);
    }
  }

  lemma {:induction false} BurstKeepsSlots(cfg: Config, s: Sender)
    requires cfg.Valid() && SlotArray(s.slots) && s.cur < |cfg.blocks|
    requires SlotsHold(cfg, s.slots, s.cur)
    ensures SlotsHold(cfg, Burst(cfg, s).0.slots, Burst(cfg, s).0.cur)
    decreases |cfg.blocks| - s.cur
  {
    SendBlockKeepsSlots(cfg, s);
    var t := SendBlock(cfg, s).0;
    if !Awaits(cfg.role, t.Count(), cfg.w, |cfg.blocks[s.cur]| != cfg.d) {
      BurstKeepsSlots(cfg, t);
    }
  }

  /** A burst leaves the length of its last packet. */
  lemma {:induction false} BurstLength(cfg: Config, s: Sender)
    requires cfg.Valid() && SlotArray(s.slots) && s.cur < |cfg.blocks|
    ensures var u := Burst(cfg, s).0; u.len == 4 + |cfg.blocks[u.cur - 1]|
    decreases |cfg.blocks| - s.cur
  {
    var u := SendBlock(cfg, s).0;
    if !Awaits(cfg.role, u.Count(), cfg.w, |cfg.blocks[s.cur]| != cfg.d) {
      BurstLength(cfg, u);
    }
  }

  lemma StepKeepsSlots(cfg: Config, s: Sender, e: Event)
    requires cfg.Valid() && Ok(cfg, s) && SlotsHold(cfg, s.slots, s.cur)
    ensures SlotsHold(cfg, Step(cfg, s, e).0.slots, Step(cfg, s, e).0.cur)
  {
    if s.phase == Handshake {
      BurstKeepsSlots(cfg, s.(port := Heard(s.port, e)));
    } else if s.cur < |cfg.blocks| {
      BurstKeepsSlots(cfg, s);
    }
  }

  /** The buffer invariant, on every run of either sender. */
  lemma {:induction false} SlotsHoldOnRuns(cfg: Config, stale: seq<seq<byte>>, events: seq<Event>)
    requires cfg.Valid() && SlotArray(stale)
    ensures var s := Run(cfg, stale, events).0; SlotsHold(cfg, s.slots, s.cur)
  {
    if events == [] {
      BurstKeepsSlots(cfg, Idle(cfg, stale));
    } else {
      SlotsHoldOnRuns(cfg, stale, events[..|events| - 1]);
      StepKeepsSlots(cfg, Run(cfg, stale, events[..|events| - 1]).0, events[|events| - 1]);
    }
  }

  // ---------- what a resend repeats ----------

  /** The packets of blocks a..b. */
  ghost function PacketRange(cfg: Config, a: nat, b: nat): (r: seq<Datagram>)
    requires cfg.Valid() && 1 <= a <= b + 1 <= |cfg.blocks| + 1
    ensures |r| == b + 1 - a && forall i :: 0 <= i < |r| ==> r[i] == cfg.Packet(a + i)
  {
    if a > b then [] else PacketRange(cfg, a, b - 1) + [cfg.Packet(b)]
  }

  /** The condition under which a resend is faithful: the current block is full or alone in the buffer,
      and no error reply has changed `len` during this wait. */
  predicate ResendFits(cfg: Config, s: Sender)
    requires 1 <= s.cur <= |cfg.blocks|
  {
    var size := |cfg.blocks[s.cur - 1]|;
    s.len == 4 + size && (size == cfg.d || SlotIndex(s.Count(), cfg.w) == 0)
  }

  lemma FittingResend(cfg: Config, s: Sender, i: nat)
    requires cfg.Valid() && Ok(cfg, s) && s.phase == Waiting && SlotsHold(cfg, s.slots, s.cur)
    requires ResendFits(cfg, s) && i <= SlotIndex(s.Count(), cfg.w)
    ensures s.slots[i][..s.len] == cfg.Packet(s.cur - SlotIndex(s.Count(), cfg.w) + i)
  {
    var packet := cfg.Packet(s.cur - SlotIndex(s.Count(), cfg.w) + i);
    assert packet <= s.slots[i];
    assert |packet| == s.len;
  }

  lemma ResendOf(cfg: Config, s: Sender)
    requires cfg.Valid() && Ok(cfg, s) && s.phase == Waiting && SlotsHold(cfg, s.slots, s.cur)
    ensures Resend(cfg, s) == PacketRange(cfg, s.cur - SlotIndex(s.Count(), cfg.w), s.cur) <==> ResendFits(cfg, s)
  {
    var b := SlotIndex(s.Count(), cfg.w);
    var sent, packets := Resend(cfg, s), PacketRange(cfg, s.cur - b, s.cur);
    if ResendFits(cfg, s) {
      forall i | 0 <= i <= b ensures sent[i] == packets[i] {
        FittingResend(cfg, s, i);
      }
    } else if s.len != 4 + |cfg.blocks[s.cur - 1]| {
      assert |sent[b]| == s.len && |packets[b]| == 4 + |cfg.blocks[s.cur - 1]|;
    } else {
      assert |sent[0]| == s.len && |packets[0]| == 4 + cfg.d;
    }
  }

  /** On every run, at every ACK wait: a resend repeats the original datagrams if and only if it fits. */
  lemma ResendExactIff(cfg: Config, stale: seq<seq<byte>>, events: seq<Event>, s: Sender)
    requires cfg.Valid() && SlotArray(stale)
    requires s == Run(cfg, stale, events).0 && s.phase == Waiting
    ensures 0 <= SlotIndex(s.Count(), cfg.w) < s.cur
    ensures Resend(cfg, s) == PacketRange(cfg, s.cur - SlotIndex(s.Count(), cfg.w), s.cur) <==> ResendFits(cfg, s)
  {
    SlotsHoldOnRuns(cfg, stale, events);
    ResendOf(cfg, s);
  }

  // ---------- which blocks a resend covers ----------

  /** The last block before block k whose ACK was awaited (0 for none); blocks after it are outstanding at k. */
  function PrevWait(role: Role, k: nat, w: Window): (p: nat)
    ensures k > 0 ==> p < k
  {
    if k <= 1 then 0
    else if Awaits(role, (k - 1) % WRAP, w, false) then k - 1
    else PrevWait(role, k - 1, w)
  }

  /** A wrap keeps the parity. */
  lemma SameParity(k: nat)
    ensures k % WRAP % 2 == k % 2
  {
    assert k - k % WRAP == 2 * (32768 * (k / WRAP));
  }

  lemma CRemOfTwo(c: nat)
    ensures CRem(c - 1, 2) == 0 <==> c % 2 == 1
  {
  }

  lemma ParityBefore(k: nat)
    requires k > 0
    ensures (k - 1) % 2 == 1 - k % 2
  {
  }

  lemma ServerAwaits(k: nat, w: Window)
    requires 2 <= k && (w <= 2 || k < WRAP)
    ensures Awaits(Server, k % WRAP, w, false) <==> (k - 1) % w == 0
  {
    if w == 2 {
      SameParity(k);
      CRemOfTwo(k % WRAP);
      ParityBefore(k);
    } else if w > 2 {
      assert k % WRAP == k;
    }
  }

  /** The server awaits block 1 and then every w-th. */
  lemma {:induction false} ServerPrevWait(k: nat, w: Window)
    requires 2 <= k && (w <= 2 || k < WRAP)
    ensures PrevWait(Server, k, w) == (k - 1) - (k - 2) % w
  {
    if k > 2 {
      ServerPrevWait(k - 1, w);
      ServerAwaits(k - 1, w);
      ModStep(k - 3, k - 2, w);
    }
  }

  /** At w = 2 the block counted 1 after a wrap gets slot 0, over the block before it, which is outstanding too. */
  predicate Overwrites(k: nat, w: Window) { w == 2 && k > 1 && k % WRAP == 1 }

  lemma OutstandingOfTwo(k: nat)
    requires 2 <= k
    ensures k - SlotIndex(k % WRAP, 2) == (k - 1) - (k - 2) % 2 + (if Overwrites(k, 2) then 2 else 1)
  {
    SlotOfTwo(k);
    SameParity(k);
    ParityBefore(k);
    ParityBefore(k - 1);
  }

  /** What has been sent since the last wait is what the server's slots hold, but for that one block. */
  lemma ServerOutstanding(k: nat, w: Window)
    requires 1 <= k && (w <= 2 || k < WRAP)
    ensures k - SlotIndex(k % WRAP, w) == PrevWait(Server, k, w) + (if Overwrites(k, w) then 2 else 1)
  {
    if k > 1 {
      ServerPrevWait(k, w);
      if w == 2 {
        OutstandingOfTwo(k);
      } else if w > 2 {
        SlotIs(k, w);
      }
    }
  }

  lemma ClientAwaits(k: nat, w: Window)
    requires 1 <= k && (w <= 2 || k < WRAP)
    ensures Awaits(Client, k % WRAP, w, false) <==> k % w == 0
  {
    if w == 2 {
      SameParity(k);
    } else if w > 2 {
      assert k % WRAP == k;
    }
  }

  /** The client awaits every w-th block. */
  lemma {:induction false} ClientOutstanding(k: nat, w: Window)
    requires 1 <= k && (w <= 2 || k < WRAP)
    ensures PrevWait(Client, k, w) == (k - 1) - (k - 1) % w
  {
    if k > 1 {
      ClientOutstanding(k - 1, w);
      ClientAwaits(k - 1, w);
      ModStep(k - 2, k - 1, w);
    }
  }

  /** A resend of the server starts exactly with the first outstanding block, but for the block just
      named. The client's reaches back that far only where the block before the current one ends a
      window: at its regular ACK waits, only for w = 1. */
  lemma ResendCoversIff(cfg: Config, k: nat)
    requires cfg.Valid() && 1 <= k <= |cfg.blocks|
    ensures var first := k - SlotIndex(k % WRAP, cfg.w);
      match cfg.role
      case Server => first == PrevWait(Server, k, cfg.w) + 1 <==> !Overwrites(k, cfg.w)
      case Client => first <= PrevWait(Client, k, cfg.w) + 1 <==> (k - 1) % cfg.w == 0
    ensures cfg.role == Client && k % cfg.w == 0 ==> ((k - 1) % cfg.w == 0 <==> cfg.w == 1)
  {
    match cfg.role
    case Server => ServerOutstanding(k, cfg.w);
    case Client => ClientCovers(k, cfg.w);
  }

  lemma ClientCovers(k: nat, w: Window)
    requires 1 <= k && (w <= 2 || k < WRAP)
    ensures k - SlotIndex(k % WRAP, w) <= PrevWait(Client, k, w) + 1 <==> (k - 1) % w == 0
    ensures k % w == 0 ==> ((k - 1) % w == 0 <==> w == 1)
  {
    ClientOutstanding(k, w);
    ModStep(k - 1, k, w);
    if w == 2 {
      SlotOfTwo(k);
    } else if w > 2 && k >= 2 {
      SlotIs(k, w);
      ModStep(k - 2, k - 1, w);
    }
  }
}
