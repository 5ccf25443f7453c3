/** How much a sender can send and how long it can go on, whatever the network does. */
module Budget {
  import opened Packets
  import opened SenderMachine
  import opened SlotBuffer

  /** The DATA datagrams among those sent. */
  function DataCount(sent: seq<Datagram>): nat {
    if sent == [] then 0
    else DataCount(sent[..|sent| - 1]) + if sent[|sent| - 1][1] == DATA then 1 else 0
  }

  lemma {:induction false} DataCountAppend(a: seq<Datagram>, b: seq<Datagram>)
    ensures DataCount(a + b) == DataCount(a) + DataCount(b)
    decreases |b|
  {
    if b == [] {
      assert a + b == a;
    } else {
      DataCountAppend(a, b[..|b| - 1]);
      assert (a + b)[..|a + b| - 1] == a + b[..|b| - 1];
    }
  }

  lemma {:induction false} AllData(sent: seq<Datagram>)
    requires forall i :: 0 <= i < |sent| ==> sent[i][1] == DATA
    ensures DataCount(sent) == |sent|
  {
    if sent != [] {
      AllData(sent[..|sent| - 1]);
    }
  }

  lemma PacketRangeCons(cfg: Config, a: nat, b: nat)
    requires cfg.Valid() && 1 <= a <= b <= |cfg.blocks|
    ensures PacketRange(cfg, a, b) == [cfg.Packet(a)] + PacketRange(cfg, a + 1, b)
  {
  }

  lemma {:induction false} BurstRange(cfg: Config, s: Sender)
    requires cfg.Valid() && SlotArray(s.slots) && s.cur < |cfg.blocks|
    ensures var (t, out) := Burst(cfg, s); out == PacketRange(cfg, s.cur + 1, t.cur)
    decreases |cfg.blocks| - s.cur
  {
    var t := SendBlock(cfg, s).0;
    PacketRangeCons(cfg, t.cur, Burst(cfg, s).0.cur);
    if !Awaits(cfg.role, t.Count(), cfg.w, |cfg.blocks[s.cur]| != cfg.d) {
      BurstRange(cfg, t);
    }
  }

  lemma {:induction false} BurstWait(cfg: Config, s: Sender)
    requires cfg.Valid() && SlotArray(s.slots) && s.cur < |cfg.blocks|
    ensures PrevWait(cfg.role, Burst(cfg, s).0.cur, cfg.w) == PrevWait(cfg.role, s.cur + 1, cfg.w)
    decreases |cfg.blocks| - s.cur
  {
    var t := SendBlock(cfg, s).0;
    if !Awaits(cfg.role, t.Count(), cfg.w, |cfg.blocks[s.cur]| != cfg.d) {
      BurstWait(cfg, t);
    }
  }

  /** A burst sends the blocks up to the next ACK wait, each once, and there is no wait among them. */
  lemma BurstTo(cfg: Config, s: Sender)
    requires cfg.Valid() && SlotArray(s.slots) && s.cur < |cfg.blocks|
    ensures var (t, out) := Burst(cfg, s);
      && out == PacketRange(cfg, s.cur + 1, t.cur)
      && PrevWait(cfg.role, t.cur, cfg.w) == PrevWait(cfg.role, s.cur + 1, cfg.w)
  {
    BurstRange(cfg, s);
    BurstWait(cfg, s);
  }

  lemma BurstFacts(cfg: Config, s: Sender)
    requires cfg.Valid() && SlotArray(s.slots) && s.cur < |cfg.blocks|
    ensures var (t, out) := Burst(cfg, s);
      && out == PacketRange(cfg, s.cur + 1, t.cur)
      && PrevWait(cfg.role, t.cur, cfg.w) == PrevWait(cfg.role, s.cur + 1, cfg.w)
      && t.len == 4 + |cfg.blocks[t.cur - 1]|
    ensures SlotsHold(cfg, s.slots, s.cur) ==> SlotsHold(cfg, Burst(cfg, s).0.slots, Burst(cfg, s).0.cur)
  {
    BurstTo(cfg, s);
    BurstLength(cfg, s);
    if SlotsHold(cfg, s.slots, s.cur) {
      BurstKeepsSlots(cfg, s);
    }
  }

  lemma BurstCount(cfg: Config, s: Sender)
    requires cfg.Valid() && SlotArray(s.slots) && s.cur < |cfg.blocks|
    ensures var (t, out) := Burst(cfg, s); DataCount(out) == t.cur - s.cur
  {
    BurstTo(cfg, s);
    AllData(Burst(cfg, s).1);
  }

  lemma ResendCount(cfg: Config, s: Sender)
    requires cfg.Valid() && Ok(cfg, s) && s.phase == Waiting && SlotsHold(cfg, s.slots, s.cur)
    ensures DataCount(Resend(cfg, s)) == SlotIndex(s.Count(), cfg.w) + 1
  {
    var sent, b := Resend(cfg, s), SlotIndex(s.Count(), cfg.w);
    forall i | 0 <= i <= b ensures sent[i][1] == DATA {
      assert cfg.Packet(s.cur - b + i) <= s.slots[i];
      assert s.slots[i][1] == cfg.Packet(s.cur - b + i)[1];
    }
    AllData(sent);
  }

  /** The failed tries charged to the current wait. */
  function FailedTries(s: Sender): nat {
    match s.phase
    case Handshake => 0
    case Waiting => s.j
    case Finished => RETRIES - 1
    case Aborted => RETRIES
  }

  /** tries * n, for at most RETRIES tries */
  function Charge(tries: nat, n: nat): nat {
    (if tries >= 1 then n else 0) + (if tries >= 2 then n else 0) + (if tries >= 3 then n else 0)
  }

  /** Each block up to the last wait was sent at most three times, the outstanding ones once, and the
      buffer again for every failed try of this wait. */
  ghost predicate Within(cfg: Config, s: Sender, total: nat)
    requires cfg.Valid() && Ok(cfg, s) && SlotsHold(cfg, s.slots, s.cur)
  {
    if s.cur == 0 then total == 0
    else total <= s.cur + 2 * PrevWait(cfg.role, s.cur, cfg.w) + Charge(FailedTries(s), SlotIndex(s.Count(), cfg.w) + 1)
  }

  /** At a client's wait after a full block the buffer holds no more blocks than the window outstanding. */
  lemma ClientBuffer(k: nat, w: Window)
    requires 1 <= k && (w <= 2 || k < WRAP) && k % w == 0
    ensures SlotIndex(k % WRAP, w) + 1 <= w == k - PrevWait(Client, k, w)
  {
    ClientOutstanding(k, w);
    ModStep(k - 1, k, w);
    if w == 2 {
      SlotOfTwo(k);
    } else if w > 2 {
      SlotIs(k, w);
    }
  }

  lemma BufferIsOutstanding(cfg: Config, k: nat)
    requires cfg.Valid() && 1 <= k <= |cfg.blocks|
    requires Awaits(cfg.role, k % WRAP, cfg.w, false)
    ensures SlotIndex(k % WRAP, cfg.w) + 1 <= k - PrevWait(cfg.role, k, cfg.w)
  {
    match cfg.role
    case Server => ServerOutstanding(k, cfg.w);
    case Client =>
      ClientAwaits(k, cfg.w);
      ClientBuffer(k, cfg.w);
  }

  lemma FailCount(cfg: Config, s: Sender, illegal: bool)
    requires cfg.Valid() && Ok(cfg, s) && s.phase == Waiting && SlotsHold(cfg, s.slots, s.cur)
    ensures DataCount(Fail(cfg, s, illegal).1) == SlotIndex(s.Count(), cfg.w) + 1
  {
    var reply := IllegalOperation(cfg.role);
    var t := if illegal then s.(len := |reply|) else s;
    var replies := if illegal then [reply] else [];
    ResendCount(cfg, t);
    DataCountAppend(replies, Resend(cfg, t));
    assert DataCount(replies) == 0;
  }

  lemma FailWithin(cfg: Config, s: Sender, illegal: bool, total: nat)
    requires cfg.Valid() && Ok(cfg, s) && s.phase == Waiting && SlotsHold(cfg, s.slots, s.cur)
    requires Within(cfg, s, total)
    ensures var (t, out) := Fail(cfg, s, illegal); Within(cfg, t, total + DataCount(out))
  {
    FailCount(cfg, s, illegal);
    OneMoreTry(s.j, SlotIndex(s.Count(), cfg.w) + 1);
    var t := Fail(cfg, s, illegal).0;
    assert t.cur == s.cur && t.slots == s.slots && FailedTries(t) == s.j + 1;
  }

  lemma OneMoreTry(tries: nat, n: nat)
    requires tries < RETRIES
    ensures Charge(tries + 1, n) == Charge(tries, n) + n
  {
  }

  lemma AcceptedWithin(cfg: Config, s: Sender, total: nat)
    requires cfg.Valid() && Ok(cfg, s) && s.phase == Waiting && SlotsHold(cfg, s.slots, s.cur)
    requires |cfg.blocks[s.cur - 1]| == cfg.d && Within(cfg, s, total)
    ensures var (t, out) := Burst(cfg, s);
      SlotsHold(cfg, t.slots, t.cur) && Within(cfg, t, total + DataCount(out))
  {
    BufferIsOutstanding(cfg, s.cur);
    BurstFacts(cfg, s);
    BurstCount(cfg, s);
    assert PrevWait(cfg.role, s.cur + 1, cfg.w) == s.cur;
  }

  lemma HandshakeCount(cfg: Config, s: Sender, e: Event)
    requires cfg.Valid() && Ok(cfg, s) && s.phase == Handshake && !e.Foreign?
    ensures var (t, out) := Step(cfg, s, e);
      t == Burst(cfg, s.(port := Heard(s.port, e))).0 && DataCount(out) == t.cur
  {
    var u := s.(port := Heard(s.port, e));
    BurstCount(cfg, u);
    if Judge(e, 0) == Illegal {
      var reply := IllegalOperation(cfg.role);
      DataCountAppend([reply], Burst(cfg, u).1);
      assert DataCount([reply]) == 0;
    }
  }

  lemma HandshakeWithin(cfg: Config, s: Sender, e: Event)
    requires cfg.Valid() && Ok(cfg, s) && s.phase == Handshake && !e.Foreign?
    ensures var (t, out) := Step(cfg, s, e);
      SlotsHold(cfg, t.slots, t.cur) && Within(cfg, t, DataCount(out))
  {
    var u := s.(port := Heard(s.port, e));
    BurstKeepsSlots(cfg, u);
    BurstTo(cfg, u);
    HandshakeCount(cfg, s, e);
  }

  lemma StepWithin(cfg: Config, s: Sender, e: Event, total: nat)
    requires cfg.Valid() && Ok(cfg, s) && SlotsHold(cfg, s.slots, s.cur)
    requires Within(cfg, s, total)
    ensures var (t, out) := Step(cfg, s, e);
      SlotsHold(cfg, t.slots, t.cur) && Within(cfg, t, total + DataCount(out))
  {
    StepKeepsSlots(cfg, s, e);
    if s.phase == Handshake {
      if !e.Foreign? { HandshakeWithin(cfg, s, e); }
    } else if s.phase == Waiting {
      MoveWithin(cfg, s, Judge(e, s.Count()), total);
    }
  }

  lemma MoveWithin(cfg: Config, s: Sender, verdict: Verdict, total: nat)
    requires cfg.Valid() && Ok(cfg, s) && s.phase == Waiting && SlotsHold(cfg, s.slots, s.cur)
    requires Within(cfg, s, total)
    ensures var (t, out) := Move(cfg, s, verdict);
      SlotsHold(cfg, t.slots, t.cur) && Within(cfg, t, total + DataCount(out))
  {
    match verdict
    case Ignored =>
    case Rejected => FailWithin(cfg, s, false, total);
    case Illegal => FailWithin(cfg, s, true, total);
    case Accepted => if |cfg.blocks[s.cur - 1]| == cfg.d { AcceptedWithin(cfg, s, total); }
  }

  ghost predicate RunIsWithin(cfg: Config, r: (Sender, seq<Datagram>))
    requires cfg.Valid() && Ok(cfg, r.0)
  {
    SlotsHold(cfg, r.0.slots, r.0.cur) && Within(cfg, r.0, DataCount(r.1))
  }

  lemma StartWithin(cfg: Config, stale: seq<seq<byte>>)
    requires cfg.Valid() && SlotArray(stale)
    ensures RunIsWithin(cfg, Start(cfg, stale))
  {
    var s := Idle(cfg, stale);
    BurstKeepsSlots(cfg, s);
    BurstTo(cfg, s);
    BurstCount(cfg, s);
  }

  lemma {:induction false} RunWithin(cfg: Config, stale: seq<seq<byte>>, events: seq<Event>)
    requires cfg.Valid() && SlotArray(stale)
    ensures RunIsWithin(cfg, Run(cfg, stale, events))
  {
    if events == [] {
      StartWithin(cfg, stale);
    } else {
      var before, e := events[..|events| - 1], events[|events| - 1];
      RunWithin(cfg, stale, before);
      var (s, sent) := Run(cfg, stale, before);
      StepWithin(cfg, s, e, DataCount(sent));
      DataCountAppend(sent, Step(cfg, s, e).1);
    }
  }

  /** For a file of B blocks a sender transmits, resends included, at most 3B + w DATA datagrams on the
      server and 3B + 3w - 2 on the client (3B + 1 for w = 1), on every run. */
  lemma DataBudget(cfg: Config, stale: seq<seq<byte>>, events: seq<Event>)
    requires cfg.Valid() && SlotArray(stale)
    ensures var total := DataCount(Run(cfg, stale, events).1);
      match cfg.role
      case Server => total <= 3 * |cfg.blocks| + cfg.w
      case Client => total <= 3 * |cfg.blocks| + 3 * cfg.w - 2
  {
    RunWithin(cfg, stale, events);
    BudgetAt(cfg, Run(cfg, stale, events).0, DataCount(Run(cfg, stale, events).1));
  }

  lemma BudgetAt(cfg: Config, s: Sender, total: nat)
    requires cfg.Valid() && Ok(cfg, s) && SlotsHold(cfg, s.slots, s.cur)
    requires Within(cfg, s, total)
    ensures match cfg.role
      case Server => total <= 3 * |cfg.blocks| + cfg.w
      case Client => total <= 3 * |cfg.blocks| + 3 * cfg.w - 2
  {
    if s.cur > 0 {
      if cfg.role == Server {
        ServerOutstanding(s.cur, cfg.w);
      }
    }
  }

  // ---------- termination ----------

  /** The waits that count as tries: a stranger's datagram is not one. */
  function Tries(events: seq<Event>): nat {
    if events == [] then 0
    else Tries(events[..|events| - 1]) + if events[|events| - 1].Foreign? then 0 else 1
  }

  function HandshakeTries(cfg: Config): nat { if cfg.role == Client then 1 else 0 }

  lemma {:induction false} TriesBound(cfg: Config, stale: seq<seq<byte>>, events: seq<Event>)
    requires cfg.Valid() && SlotArray(stale)
    ensures var s := Run(cfg, stale, events).0;
      && (s.phase == Handshake ==> Tries(events) == 0)
      && (s.phase == Waiting ==> Tries(events) <= HandshakeTries(cfg) + RETRIES * (s.cur - 1) + s.j)
  {
    if events != [] {
      var before, e := events[..|events| - 1], events[|events| - 1];
      TriesBound(cfg, stale, before);
      var s := Run(cfg, stale, before).0;
      assert Run(cfg, stale, events).0 == Step(cfg, s, e).0;
    }
  }

  /** A run ends within three tries for each block (and one for the client's handshake), however many
      strangers' datagrams come between. */
  lemma SenderTerminates(cfg: Config, stale: seq<seq<byte>>, events: seq<Event>)
    requires cfg.Valid() && SlotArray(stale)
    requires Tries(events) >= RETRIES * |cfg.blocks| + HandshakeTries(cfg)
    ensures Run(cfg, stale, events).0.phase in {Finished, Aborted}
  {
    TriesBound(cfg, stale, events);
  }
}
