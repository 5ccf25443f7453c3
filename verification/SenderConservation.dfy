/** `tsend` of both programs on every input, honest or not, at every window: which block's ACK it awaits, the tries
    it has left, its end and every datagram it sends, told from what arrived alone. */
module SenderConservation {
  import opened Packets
  import opened Chunking
  import opened Wire
  import opened SlotBytes
  import B = SlotBuffer
  import N = Budget
  import M = SenderMachine

  // ---------- told from what arrived ----------

  /** The block awaited after block k: the server awaits the first and every w-th from there, the client every
      w-th, both the last. There is none after that. */
  function Next(cfg: M.Config, k: nat): nat {
    var last := |cfg.blocks|;
    if k >= last then last + 1
    else
      var next := if cfg.role == M.Server && k == 0 then 1 else k + cfg.w;
      if next < last then next else last
  }

  /** The event ends the wait for block k. Block 0 stands for the client's request: whatever its server sends
      in answer, or silence, will do. */
  predicate Hits(e: Event, k: nat) { if k == 0 then !e.Foreign? else AckNumbered(e, k) }

  /** The block whose ACK is awaited. */
  function Awaited(cfg: M.Config, events: seq<Event>): nat {
    if events == [] then if cfg.role == M.Server then 1 else 0
    else
      var before := Awaited(cfg, events[..|events| - 1]);
      if Hits(events[|events| - 1], before) then Next(cfg, before) else before
  }

  /** The last event ended a wait. */
  predicate Ends(cfg: M.Config, events: seq<Event>) {
    events != [] && Hits(events[|events| - 1], Awaited(cfg, events[..|events| - 1]))
  }

  /** The tries since then: silence, and whatever else the peer sends. */
  function Misses(cfg: M.Config, events: seq<Event>): nat {
    if events == [] || Ends(cfg, events) then 0
    else Misses(cfg, events[..|events| - 1]) + if events[|events| - 1].Foreign? then 0 else 1
  }

  /** The events up to the end of the transfer: the ACK of the last block, or the third failed try in a row. */
  function UntilEnd(cfg: M.Config, events: seq<Event>): seq<Event> {
    if events == [] then []
    else
      var before := UntilEnd(cfg, events[..|events| - 1]);
      if Over(cfg, before) then before else before + [events[|events| - 1]]
  }

  predicate Over(cfg: M.Config, events: seq<Event>) {
    Misses(cfg, events) == 3 || Awaited(cfg, events) == |cfg.blocks| + 1
  }

  function Illegal(cfg: M.Config): seq<byte> {
    ErrorBytes(4, if cfg.role == M.Server then "Illegal operation" else "Illegal TFTP operation")
  }

  /** How long the datagrams of a resend are: like the last packet, or like the last error reply since. */
  function Length(cfg: M.Config, events: seq<Event>): nat
    requires 1 <= Awaited(cfg, events) <= |cfg.blocks|
  {
    if events == [] || Ends(cfg, events) then 4 + |cfg.blocks[Awaited(cfg, events) - 1]|
    else if BadOpcode(events[|events| - 1]) then if cfg.role == M.Server then 22 else 27
    else Length(cfg, events[..|events| - 1])
  }

  /** The packets of blocks a..b. */
  ghost predicate AreData(cfg: M.Config, a: nat, b: nat, out: seq<Datagram>) {
    && 1 <= a <= b + 1 <= |cfg.blocks| + 1 && |out| == b + 1 - a
    && forall i :: 0 <= i < |out| ==> out[i] == Data(cfg, a + i)
  }

  /** A packet cut to a length, or with something behind it. */
  predicate CutTo(x: seq<byte>, packet: seq<byte>, len: nat) {
    |x| == len && if len <= |packet| then x == packet[..len] else packet <= x
  }

  /** The stored packets up to that of block k, all cut to one length. */
  ghost predicate AreResent(cfg: M.Config, stale: seq<seq<byte>>, k: nat, len: nat, out: seq<Datagram>)
    requires M.SlotArray(stale)
  {
    var b := Slot(k, cfg.w);
    && b < k <= |cfg.blocks| && b < MAX_ACK_FREQ && len <= SLOT_SIZE && |out| == b + 1
    && (forall i :: 0 <= i < |out| ==> CutTo(out[i], Data(cfg, k - b + i), len))
    && (forall i, p :: 0 <= i < |out| && 0 <= p < len ==> out[i][p] == StoredByte(cfg, stale, k, i, p))
  }

  /** What follows an error reply, if there is one, on the last event. */
  ghost predicate Follows(cfg: M.Config, stale: seq<seq<byte>>, events: seq<Event>, out: seq<Datagram>)
    requires events != [] && M.SlotArray(stale)
  {
    var k, k', e := Awaited(cfg, events[..|events| - 1]), Awaited(cfg, events), events[|events| - 1];
    if e.Foreign? || k' > |cfg.blocks| then out == []
    else if Ends(cfg, events) then AreData(cfg, k + 1, k', out)
    else 1 <= k' && AreResent(cfg, stale, k', Length(cfg, events), out)
  }

  /** With the error reply before it, if one is due. */
  function WithError(cfg: M.Config, e: Event, out: seq<Datagram>): seq<Datagram> {
    (if BadOpcode(e) then [Illegal(cfg)] else []) + out
  }

  // ---------- bursts and slots ----------

  /** The first wait after block c. */
  function WaitAfter(cfg: M.Config, c: nat): int {
    match cfg.role
    case Server => if c == 0 then 1 else Multiple(c - 1, cfg.w) + 1
    case Client => Multiple(c, cfg.w)
  }

  predicate Regular(cfg: M.Config, k: nat) {
    match cfg.role
    case Server => k == 0 || (k - 1) % cfg.w == 0
    case Client => k % cfg.w == 0
  }

  lemma LastIsShort(cfg: M.Config, k: nat)
    requires cfg.Valid() && 1 <= k <= |cfg.blocks|
    ensures |cfg.blocks[k - 1]| != cfg.d <==> k == |cfg.blocks|
  {
  }

  lemma FullAwaits(cfg: M.Config, k: nat)
    requires cfg.Valid() && 1 <= k <= |cfg.blocks|
    ensures M.Awaits(cfg.role, k % WRAP, cfg.w, false) <==> Regular(cfg, k)
  {
    if cfg.role == M.Client {
      B.ClientAwaits(k, cfg.w);
    } else if k > 1 {
      B.ServerAwaits(k, cfg.w);
    } else {
      B.MultipleMod(0, cfg.w, 0);
    }
  }

  lemma ShortAwaits(role: M.Role, count: uint16, w: Window, short: bool)
    ensures M.Awaits(role, count, w, short) <==> M.Awaits(role, count, w, false) || short
  {
  }

  lemma AwaitsRegular(cfg: M.Config, k: nat)
    requires cfg.Valid() && 1 <= k <= |cfg.blocks|
    ensures M.Awaits(cfg.role, k % WRAP, cfg.w, |cfg.blocks[k - 1]| != cfg.d) <==>
            Regular(cfg, k) || k == |cfg.blocks|
  {
    FullAwaits(cfg, k);
    ShortAwaits(cfg.role, k % WRAP, cfg.w, |cfg.blocks[k - 1]| != cfg.d);
    LastIsShort(cfg, k);
  }

  /** The first multiple of w above c. */
  function Multiple(c: nat, w: Window): int { c + w - c % w }

  lemma MultipleStep(c: nat, w: Window)
    ensures Multiple(c, w) == (if (c + 1) % w == 0 then c + 1 else Multiple(c + 1, w)) > c
  {
    B.ModStep(c, c + 1, w);
  }

  lemma WaitStep(cfg: M.Config, c: nat)
    ensures WaitAfter(cfg, c) == (if Regular(cfg, c + 1) then c + 1 else WaitAfter(cfg, c + 1)) > c
  {
    var w := cfg.w;
    if cfg.role == M.Client {
      MultipleStep(c, w);
    } else if c > 0 {
      MultipleStep(c - 1, w);
      assert Regular(cfg, c + 1) <==> c % w == 0;
      assert WaitAfter(cfg, c + 1) == Multiple(c, w) + 1;
    } else {
      B.MultipleMod(0, w, 0);
      assert Regular(cfg, 1);
    }
  }

  lemma {:induction false} BurstEnds(cfg: M.Config, s: M.Sender)
    requires cfg.Valid() && M.SlotArray(s.slots) && s.cur < |cfg.blocks|
    ensures var m := WaitAfter(cfg, s.cur);
      M.Burst(cfg, s).0.cur == if m < |cfg.blocks| then m else |cfg.blocks|
    decreases |cfg.blocks| - s.cur
  {
    var t := M.SendBlock(cfg, s).0;
    AwaitsRegular(cfg, t.cur);
    WaitStep(cfg, s.cur);
    if !M.Awaits(cfg.role, t.Count(), cfg.w, |cfg.blocks[s.cur]| != cfg.d) {
      BurstEnds(cfg, t);
    }
  }

  lemma RegularNext(cfg: M.Config, k: nat)
    requires Regular(cfg, k)
    ensures WaitAfter(cfg, k) == (if cfg.role == M.Server && k == 0 then 1 else k + cfg.w)
    ensures Regular(cfg, WaitAfter(cfg, k))
  {
    var w := cfg.w;
    if cfg.role == M.Client {
      B.MultipleMod(k / w + 1, w, 0);
      assert k + w == (k / w + 1) * w;
    } else if k > 0 {
      B.MultipleMod((k - 1) / w + 1, w, 0);
      assert k - 1 + w == ((k - 1) / w + 1) * w;
    }
  }

  lemma NextIs(cfg: M.Config, k: nat)
    requires Regular(cfg, k) && k < |cfg.blocks|
    ensures var m, n := WaitAfter(cfg, k), Next(cfg, k);
      n == (if m < |cfg.blocks| then m else |cfg.blocks|) && (n < |cfg.blocks| ==> Regular(cfg, n))
  {
    RegularNext(cfg, k);
  }

  lemma RangeIsData(cfg: M.Config, a: nat, b: nat)
    requires cfg.Valid() && 1 <= a <= b + 1 <= |cfg.blocks| + 1
    ensures AreData(cfg, a, b, B.PacketRange(cfg, a, b))
  {
    forall k | a <= k <= b ensures cfg.Packet(k) == Data(cfg, k) {
      PacketIsData(cfg, k);
    }
  }

  lemma BurstNext(cfg: M.Config, s: M.Sender)
    requires cfg.Valid() && M.SlotArray(s.slots) && s.cur < |cfg.blocks| && Regular(cfg, s.cur)
    ensures var cur := M.Burst(cfg, s).0.cur; cur == Next(cfg, s.cur) && (cur < |cfg.blocks| ==> Regular(cfg, cur))
  {
    BurstEnds(cfg, s);
    NextIs(cfg, s.cur);
  }

  lemma BurstIsData(cfg: M.Config, s: M.Sender)
    requires cfg.Valid() && M.SlotArray(s.slots) && s.cur < |cfg.blocks|
    ensures AreData(cfg, s.cur + 1, M.Burst(cfg, s).0.cur, M.Burst(cfg, s).1)
  {
    N.BurstRange(cfg, s);
    RangeIsData(cfg, s.cur + 1, M.Burst(cfg, s).0.cur);
  }

  lemma BurstIsNext(cfg: M.Config, s: M.Sender, k: nat)
    requires cfg.Valid() && M.SlotArray(s.slots) && s.cur == k < |cfg.blocks| && Regular(cfg, k)
    ensures AreData(cfg, k + 1, Next(cfg, k), M.Burst(cfg, s).1)
  {
    BurstNext(cfg, s);
    BurstIsData(cfg, s);
  }

  /** The state after a burst. */
  ghost predicate Sent(cfg: M.Config, cur: nat, t: M.Sender)
    requires cfg.Valid()
  {
    && M.Ok(cfg, t) && t.phase == M.Waiting && t.j == 0 && B.SlotsHold(cfg, t.slots, t.cur)
    && t.cur == Next(cfg, cur) && t.len == 4 + |cfg.blocks[t.cur - 1]|
    && (t.cur < |cfg.blocks| ==> Regular(cfg, t.cur))
  }

  lemma BurstSent(cfg: M.Config, s: M.Sender)
    requires cfg.Valid() && M.SlotArray(s.slots) && s.cur < |cfg.blocks| && Regular(cfg, s.cur)
    requires B.SlotsHold(cfg, s.slots, s.cur)
    ensures Sent(cfg, s.cur, M.Burst(cfg, s).0)
  {
    BurstNext(cfg, s);
    B.BurstLength(cfg, s);
    B.BurstKeepsSlots(cfg, s);
  }

  lemma CutSlot(slot: seq<byte>, packet: seq<byte>, len: nat)
    requires packet <= slot && len <= |slot|
    ensures CutTo(slot[..len], packet, len)
  {
  }

  lemma SlotHolds(cfg: M.Config, s: M.Sender, i: nat)
    requires cfg.Valid() && M.Ok(cfg, s) && s.phase == M.Waiting && B.SlotsHold(cfg, s.slots, s.cur)
    requires i <= Slot(s.cur, cfg.w)
    ensures Slot(s.cur, cfg.w) < s.cur && Data(cfg, s.cur - Slot(s.cur, cfg.w) + i) <= s.slots[i]
  {
    SlotsAgree(s.cur, cfg.w);
    PacketIsData(cfg, s.cur - Slot(s.cur, cfg.w) + i);
  }

  lemma ResendTold(cfg: M.Config, stale: seq<seq<byte>>, s: M.Sender)
    requires cfg.Valid() && M.Ok(cfg, s) && s.phase == M.Waiting && B.SlotsHold(cfg, s.slots, s.cur)
    requires Stored(cfg, stale, s.slots, s.cur)
    ensures AreResent(cfg, stale, s.cur, s.len, M.Resend(cfg, s))
  {
    var b, out := Slot(s.cur, cfg.w), M.Resend(cfg, s);
    SlotsAgree(s.cur, cfg.w);
    forall i | 0 <= i < |out| ensures CutTo(out[i], Data(cfg, s.cur - b + i), s.len) {
      SlotHolds(cfg, s, i);
      CutSlot(s.slots[i], Data(cfg, s.cur - b + i), s.len);
    }
    forall i, p | 0 <= i < |out| && 0 <= p < s.len ensures out[i][p] == StoredByte(cfg, stale, s.cur, i, p) {
      assert out[i][p] == s.slots[i][p];
    }
  }

  // ---------- the machine ----------

  function PhaseAt(cfg: M.Config, events: seq<Event>): M.Phase {
    if Misses(cfg, events) == 3 then M.Aborted
    else if Awaited(cfg, events) == 0 then M.Handshake
    else if Awaited(cfg, events) > |cfg.blocks| then M.Finished
    else M.Waiting
  }

  /** What is known of the state from the events alone. */
  ghost predicate Accounted(cfg: M.Config, events: seq<Event>, s: M.Sender) {
    var k := Awaited(cfg, events);
    && cfg.Valid() && M.Ok(cfg, s) && B.SlotsHold(cfg, s.slots, s.cur)
    && k <= |cfg.blocks| + 1 && Misses(cfg, events) <= 3 && s.phase == PhaseAt(cfg, events)
    && (k < |cfg.blocks| ==> Regular(cfg, k))
    && (if k > |cfg.blocks| then s.cur == |cfg.blocks| && Misses(cfg, events) == 0 else s.cur == k)
    && (k == 0 ==> Misses(cfg, events) == 0)
    && (1 <= k <= |cfg.blocks| ==> s.j == Misses(cfg, events) && s.len == Length(cfg, events))
    && (cfg.role == M.Server ==> s.port == cfg.port0)
  }

  lemma JudgedAs(e: Event, k: nat)
    ensures M.Judge(e, k % WRAP)
         == if e.Foreign? then M.Ignored else if AckNumbered(e, k) then M.Accepted
            else if BadOpcode(e) then M.Illegal else M.Rejected
  {
    if e.Packet? {
      ReadAs(e.d);
    }
  }

  lemma Snoc(cfg: M.Config, events: seq<Event>, e: Event)
    ensures var all, k := events + [e], Awaited(cfg, events);
      && all[..|events|] == events && all[|events|] == e
      && (Ends(cfg, all) <==> Hits(e, k))
      && Awaited(cfg, all) == (if Hits(e, k) then Next(cfg, k) else k)
      && Misses(cfg, all)
      == if Hits(e, k) then 0 else if e.Foreign? then Misses(cfg, events) else Misses(cfg, events) + 1
  {
    assert (events + [e])[..|events|] == events;
  }

  lemma LengthSnoc(cfg: M.Config, events: seq<Event>, e: Event)
    requires 1 <= Awaited(cfg, events) <= |cfg.blocks| && !Hits(e, Awaited(cfg, events))
    ensures var all := events + [e];
      && Awaited(cfg, all) == Awaited(cfg, events)
      && Length(cfg, all)
      == if BadOpcode(e) then if cfg.role == M.Server then 22 else 27 else Length(cfg, events)
  {
    Snoc(cfg, events, e);
  }

  lemma FirstLength(cfg: M.Config, events: seq<Event>)
    requires (events == [] || Ends(cfg, events)) && 1 <= Awaited(cfg, events) <= |cfg.blocks|
    ensures Length(cfg, events) == 4 + |cfg.blocks[Awaited(cfg, events) - 1]|
  {
  }

  /** A failed try for the ACK of a block. */
  lemma MissAccounts(cfg: M.Config, events: seq<Event>, s: M.Sender, e: Event)
    requires Accounted(cfg, events, s) && s.phase == M.Waiting && !e.Foreign? && !AckNumbered(e, s.cur)
    ensures Accounted(cfg, events + [e], M.Step(cfg, s, e).0)
  {
    JudgedAs(e, s.cur);
    Snoc(cfg, events, e);
    LengthSnoc(cfg, events, e);
    assert M.Step(cfg, s, e) == M.Fail(cfg, s, BadOpcode(e));
  }

  lemma MissReplies(cfg: M.Config, stale: seq<seq<byte>>, events: seq<Event>, s: M.Sender, e: Event)
    returns (rest: seq<Datagram>)
    requires Accounted(cfg, events, s) && s.phase == M.Waiting && !e.Foreign? && !AckNumbered(e, s.cur)
    requires Stored(cfg, stale, s.slots, s.cur)
    ensures Follows(cfg, stale, events + [e], rest) && M.Step(cfg, s, e).1 == WithError(cfg, e, rest)
  {
    JudgedAs(e, s.cur);
    Snoc(cfg, events, e);
    LengthSnoc(cfg, events, e);
    var t := if BadOpcode(e) then s.(len := |Illegal(cfg)|) else s;
    ResendTold(cfg, stale, t);
    rest := M.Resend(cfg, t);
  }

  lemma StrangerAccounts(cfg: M.Config, events: seq<Event>, s: M.Sender, e: Event)
    requires Accounted(cfg, events, s) && s.phase in {M.Waiting, M.Handshake} && e.Foreign?
    ensures Accounted(cfg, events + [e], M.Step(cfg, s, e).0) && M.Step(cfg, s, e).1 == WithError(cfg, e, [])
  {
    JudgedAs(e, s.cur);
    Snoc(cfg, events, e);
    if s.phase == M.Waiting {
      LengthSnoc(cfg, events, e);
    }
  }

  /** The ACK of the last block. */
  lemma LastAckAccounts(cfg: M.Config, events: seq<Event>, s: M.Sender, e: Event)
    requires Accounted(cfg, events, s) && s.phase == M.Waiting && AckNumbered(e, s.cur) && s.cur == |cfg.blocks|
    ensures Accounted(cfg, events + [e], M.Step(cfg, s, e).0) && M.Step(cfg, s, e).1 == WithError(cfg, e, [])
  {
    JudgedAs(e, s.cur);
    Snoc(cfg, events, e);
  }

  lemma NothingFollows(cfg: M.Config, stale: seq<seq<byte>>, events: seq<Event>, e: Event)
    requires M.SlotArray(stale)
    requires e.Foreign? || (Awaited(cfg, events) == |cfg.blocks| && Hits(e, Awaited(cfg, events)))
    ensures Follows(cfg, stale, events + [e], [])
  {
    Snoc(cfg, events, e);
  }

  /** The sender as the burst finds it: in the handshake the port has just been set. */
  function Ready(s: M.Sender, e: Event): M.Sender { if s.phase == M.Handshake then s.(port := Heard(s.port, e)) else s }

  lemma BurstMoves(cfg: M.Config, s: M.Sender, e: Event)
    requires cfg.Valid() && M.Ok(cfg, s) && s.phase in {M.Waiting, M.Handshake}
    requires Hits(e, s.cur) && s.cur < |cfg.blocks|
    ensures M.Step(cfg, s, e).0 == M.Burst(cfg, Ready(s, e)).0
    ensures M.Step(cfg, s, e).1 == WithError(cfg, e, M.Burst(cfg, Ready(s, e)).1)
  {
    var out := M.Burst(cfg, Ready(s, e)).1;
    JudgedAs(e, s.cur);
    assert s.phase == M.Waiting ==> |cfg.blocks[s.cur - 1]| == cfg.d;
    assert [] + out == out;
  }

  /** The state after a burst, and the events that brought it on. */
  lemma BurstAccounted(cfg: M.Config, events: seq<Event>, cur: nat, t: M.Sender)
    requires cfg.Valid() && cur < |cfg.blocks| && Sent(cfg, cur, t)
    requires (events == [] || Ends(cfg, events)) && Awaited(cfg, events) == Next(cfg, cur) && Misses(cfg, events) == 0
    requires cfg.role == M.Server ==> t.port == cfg.port0
    ensures Accounted(cfg, events, t)
  {
    FirstLength(cfg, events);
  }

  /** What is known when a wait ends, but not with the last block. */
  lemma EndFacts(cfg: M.Config, events: seq<Event>, s: M.Sender, e: Event)
    requires Accounted(cfg, events, s) && s.phase in {M.Waiting, M.Handshake} && Hits(e, s.cur) && s.cur < |cfg.blocks|
    ensures Awaited(cfg, events) == s.cur && Regular(cfg, s.cur) && B.SlotsHold(cfg, s.slots, s.cur)
    ensures var all := events + [e];
      Ends(cfg, all) && Awaited(cfg, all) == Next(cfg, s.cur) && Misses(cfg, all) == 0
    ensures !e.Foreign? && (cfg.role == M.Server ==> s.port == cfg.port0)
  {
    Snoc(cfg, events, e);
  }

  /** The end of any other wait. */
  lemma BurstAccounts(cfg: M.Config, events: seq<Event>, s: M.Sender, e: Event)
    requires Accounted(cfg, events, s) && s.phase in {M.Waiting, M.Handshake} && Hits(e, s.cur) && s.cur < |cfg.blocks|
    ensures Accounted(cfg, events + [e], M.Step(cfg, s, e).0)
  {
    EndFacts(cfg, events, s, e);
    BurstMoves(cfg, s, e);
    BurstSent(cfg, Ready(s, e));
    BurstAccounted(cfg, events + [e], s.cur, M.Burst(cfg, Ready(s, e)).0);
  }

  lemma BurstFollows(cfg: M.Config, stale: seq<seq<byte>>, events: seq<Event>, e: Event, k: nat, out: seq<Datagram>)
    requires M.SlotArray(stale)
    requires !e.Foreign? && Awaited(cfg, events) == k < |cfg.blocks| && Hits(e, k)
    requires AreData(cfg, k + 1, Next(cfg, k), out)
    ensures Follows(cfg, stale, events + [e], out)
  {
    Snoc(cfg, events, e);
  }

  lemma BurstReplies(cfg: M.Config, stale: seq<seq<byte>>, events: seq<Event>, s: M.Sender, e: Event, k: nat)
    returns (rest: seq<Datagram>)
    requires M.SlotArray(stale)
    requires Accounted(cfg, events, s) && s.phase in {M.Waiting, M.Handshake} && Hits(e, k) && k == s.cur < |cfg.blocks|
    ensures Follows(cfg, stale, events + [e], rest) && M.Step(cfg, s, e).1 == WithError(cfg, e, rest)
  {
    var u := Ready(s, e);
    EndFacts(cfg, events, s, e);
    BurstMoves(cfg, s, e);
    rest := M.Burst(cfg, u).1;
    assert AreData(cfg, k + 1, Next(cfg, k), rest) by {
      BurstIsNext(cfg, u, k);
    }
    BurstFollows(cfg, stale, events, e, k, rest);
  }

  lemma StepAccounts(cfg: M.Config, events: seq<Event>, s: M.Sender, e: Event)
    requires Accounted(cfg, events, s) && s.phase in {M.Waiting, M.Handshake}
    ensures Accounted(cfg, events + [e], M.Step(cfg, s, e).0)
  {
    if e.Foreign? {
      StrangerAccounts(cfg, events, s, e);
    } else if !Hits(e, s.cur) {
      MissAccounts(cfg, events, s, e);
    } else if s.cur == |cfg.blocks| {
      LastAckAccounts(cfg, events, s, e);
    } else {
      BurstAccounts(cfg, events, s, e);
    }
  }

  lemma StepFollows(cfg: M.Config, stale: seq<seq<byte>>, events: seq<Event>, s: M.Sender, e: Event)
    returns (rest: seq<Datagram>)
    requires Accounted(cfg, events, s) && s.phase in {M.Waiting, M.Handshake} && Stored(cfg, stale, s.slots, s.cur)
    ensures Follows(cfg, stale, events + [e], rest) && M.Step(cfg, s, e).1 == WithError(cfg, e, rest)
  {
    rest := [];
    if e.Foreign? {
      StrangerAccounts(cfg, events, s, e);
      NothingFollows(cfg, stale, events, e);
    } else if !Hits(e, s.cur) {
      rest := MissReplies(cfg, stale, events, s, e);
    } else if s.cur == |cfg.blocks| {
      LastAckAccounts(cfg, events, s, e);
      NothingFollows(cfg, stale, events, e);
    } else {
      rest := BurstReplies(cfg, stale, events, s, e, s.cur);
    }
  }

  lemma StartAccounts(cfg: M.Config, stale: seq<seq<byte>>)
    requires cfg.Valid() && M.SlotArray(stale)
    ensures Accounted(cfg, [], M.Start(cfg, stale).0)
    ensures var sent := M.Start(cfg, stale).1; if cfg.role == M.Server then AreData(cfg, 1, 1, sent) else sent == []
  {
    var idle := M.Idle(cfg, stale);
    if cfg.role == M.Server {
      BurstSent(cfg, idle);
      BurstIsData(cfg, idle);
      BurstAccounted(cfg, [], 0, M.Burst(cfg, idle).0);
    }
  }

  lemma {:induction false} RunAccounts(cfg: M.Config, stale: seq<seq<byte>>, events: seq<Event>)
    requires cfg.Valid() && M.SlotArray(stale)
    ensures Accounted(cfg, UntilEnd(cfg, events), M.Run(cfg, stale, events).0)
  {
    if events == [] {
      StartAccounts(cfg, stale);
    } else {
      var before, e := events[..|events| - 1], events[|events| - 1];
      RunAccounts(cfg, stale, before);
      var s := M.Run(cfg, stale, before).0;
      if s.phase in {M.Waiting, M.Handshake} {
        StepAccounts(cfg, UntilEnd(cfg, before), s, e);
      }
    }
  }

  // ---------- whatever arrives, at every window ----------

  /** The wait for a block ends well only with its ACK from the peer: opcode 4 and the block's 16-bit number. The
      transfer ends well exactly when that of the last block has come, and is given up exactly at the third try in
      a row that brings no such ACK. */
  lemma TriesTold(cfg: M.Config, stale: seq<seq<byte>>, events: seq<Event>)
    requires cfg.Valid() && M.SlotArray(stale)
    ensures var h, s := UntilEnd(cfg, events), M.Run(cfg, stale, events).0;
      var k, n := Awaited(cfg, h), Misses(cfg, h);
      && n <= 3 && (s.phase == M.Aborted <==> n == 3)
      && (s.phase == M.Finished <==> k == |cfg.blocks| + 1)
      && (s.phase == M.Waiting <==> 1 <= k <= |cfg.blocks| && n < 3)
      && (s.phase == M.Waiting ==> s.cur == k && s.j == n)
      && (cfg.role == M.Server ==> s.port == cfg.port0)
  {
    RunAccounts(cfg, stale, events);
  }

  /** All it sends: the server its first block at once; then, on each event until the end, the blocks up to the next
      wait, or the stored packets again, after an error reply if the opcode was bad. */
  lemma SentTold(cfg: M.Config, stale: seq<seq<byte>>, events: seq<Event>, e: Event)
    returns (rest: seq<Datagram>)
    requires cfg.Valid() && M.SlotArray(stale)
    ensures var first := M.Run(cfg, stale, []).1;
      if cfg.role == M.Server then AreData(cfg, 1, 1, first) else first == []
    ensures var before, after := M.Run(cfg, stale, events).1, M.Run(cfg, stale, events + [e]).1;
      var h := UntilEnd(cfg, events);
      if Over(cfg, h) then after == before
      else Follows(cfg, stale, h + [e], rest) && after == before + WithError(cfg, e, rest)
  {
    var (s, sent) := M.Run(cfg, stale, events);
    StartAccounts(cfg, stale);
    RunAccounts(cfg, stale, events);
    RunStores(cfg, stale, events);
    M.RunSnoc(cfg, stale, events, e);
    rest := [];
    if s.phase in {M.Waiting, M.Handshake} {
      rest := StepFollows(cfg, stale, UntilEnd(cfg, events), s, e);
    } else {
      assert sent + [] == sent;
    }
  }
}
