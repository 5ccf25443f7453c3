/** `tget` of tftpd.c on every input, honest or not, at every window: its file, its end, the tries it has left and
    every datagram it sends, told from what arrived alone. */
module ServerConservation {
  import opened Packets
  import opened Chunking
  import opened Wire
  import R = ReceiverMachines

  // ---------- told from what arrived ----------

  /** The payloads that came in order: each the next DATA block by its 16-bit number. */
  function Taken(events: seq<Event>): seq<seq<byte>> {
    if events == [] then []
    else
      var before, e := Taken(events[..|events| - 1]), events[|events| - 1];
      if BlockNumbered(e, |before| + 1) then before + [Payload(e.d)] else before
  }

  /** The last event is the block waited for. */
  predicate Takes(events: seq<Event>) {
    events != [] && BlockNumbered(events[|events| - 1], |Taken(events[..|events| - 1])| + 1)
  }

  /** The tries since the last block taken: silence, and whatever else the peer sends. */
  function Misses(events: seq<Event>): nat {
    if events == [] || Takes(events) then 0
    else Misses(events[..|events| - 1]) + if events[|events| - 1].Foreign? then 0 else 1
  }

  /** `datasize`: that of the first packet of the peer if it is longer than 516 bytes. */
  function DataSize(r0: int, events: seq<Event>): int {
    if events == [] then r0
    else if events[0].Packet? then if |events[0].d| > 516 then |events[0].d| - 4 else r0
    else DataSize(r0, events[1..])
  }

  /** The last block taken is not full. */
  predicate Whole(r0: int, events: seq<Event>) {
    var taken := Taken(events);
    taken != [] && |taken[|taken| - 1]| != DataSize(r0, events)
  }

  /** The events up to the end of the transfer: the last block, or the third failed try in a row. */
  function UntilEnd(r0: int, events: seq<Event>): seq<Event> {
    if events == [] then []
    else
      var before := UntilEnd(r0, events[..|events| - 1]);
      if Misses(before) == 3 || Whole(r0, before) then before else before + [events[|events| - 1]]
  }

  /** The block last taken is one that gets an ACK. */
  predicate Due(w: Window, r0: int, events: seq<Event>) { |Taken(events)| % 65536 % w == 0 || Whole(r0, events) }

  /** A bad opcode has come since the last ACK was due: the ACK buffer then goes out 22 bytes long. */
  predicate Stretched(w: Window, r0: int, events: seq<Event>) {
    && events != []
    && (BadOpcode(events[|events| - 1])
        || (Stretched(w, r0, events[..|events| - 1]) && !(Takes(events) && Due(w, r0, events))))
  }

  function Zeros(n: nat): seq<byte> { seq(n, _ => 0) }

  /** What a failed try repeats: the ACK of the last block taken, or zeros if that gets none. */
  function Repeated(w: Window, r0: int, events: seq<Event>): (r: Datagram) {
    (if Due(w, r0, events) then AckBytes(|Taken(events)|) else Zeros(4))
    + if Stretched(w, r0, events) then Zeros(18) else []
  }

  /** What goes out on the last event. */
  function Reply(w: Window, r0: int, events: seq<Event>): seq<Datagram>
    requires events != []
  {
    var e := events[|events| - 1];
    if Takes(events) then if Due(w, r0, events) then [AckBytes(|Taken(events)|)] else []
    else if e.Foreign? then []
    else if BadOpcode(e) then [ErrorBytes(4, "Illegal operation"), Repeated(w, r0, events)]
    else [Repeated(w, r0, events)]
  }

  function Replies(w: Window, r0: int, events: seq<Event>): seq<Datagram> {
    if events == [] then [] else Replies(w, r0, events[..|events| - 1]) + Reply(w, r0, events)
  }

  // ---------- one more event ----------

  /** No packet of the peer has come yet. */
  ghost predicate Quiet(events: seq<Event>) { forall i :: 0 <= i < |events| ==> !events[i].Packet? }

  lemma {:induction false} DataSizeSnoc(r0: int, events: seq<Event>, e: Event)
    ensures DataSize(r0, events + [e])
         == if Quiet(events) && e.Packet? then if |e.d| > 516 then |e.d| - 4 else r0 else DataSize(r0, events)
    ensures Quiet(events) ==> DataSize(r0, events) == r0
    decreases |events|
  {
    var all := events + [e];
    if events == [] {
      assert all[1..] == [];
    } else if !events[0].Packet? {
      assert all[1..] == events[1..] + [e];
      DataSizeSnoc(r0, events[1..], e);
      assert forall i :: 1 <= i < |events| ==> events[1..][i - 1] == events[i];
    }
  }

  lemma QuietSnoc(events: seq<Event>, e: Event)
    ensures Quiet(events + [e]) <==> Quiet(events) && !e.Packet?
  {
    var all := events + [e];
    assert all[|events|] == e;
    assert forall i :: 0 <= i < |events| ==> all[i] == events[i];
  }

  lemma {:induction false} QuietTakes(events: seq<Event>)
    requires Quiet(events)
    ensures Taken(events) == []
  {
    if events != [] {
      QuietTakes(events[..|events| - 1]);
    }
  }

  lemma Snoc(events: seq<Event>, e: Event)
    ensures var all, next := events + [e], BlockNumbered(e, |Taken(events)| + 1);
      && (Takes(all) <==> next)
      && Taken(all) == (if next then Taken(events) + [Payload(e.d)] else Taken(events))
      && Misses(all) == if next then 0 else if e.Foreign? then Misses(events) else Misses(events) + 1
  {
    assert (events + [e])[..|events|] == events;
  }

  lemma StretchedSnoc(w: Window, r0: int, events: seq<Event>, e: Event)
    ensures var all := events + [e];
      Stretched(w, r0, all) <==> BadOpcode(e) || (Stretched(w, r0, events) && !(Takes(all) && Due(w, r0, all)))
  {
    assert (events + [e])[..|events|] == events;
  }

  /** Once a block has been taken the chunk size stays. */
  lemma WholeSnoc(r0: int, events: seq<Event>, e: Event)
    ensures var all := events + [e];
      Whole(r0, all) <==> if Takes(all) then |e.d| != DataSize(r0, all) + 4 else Whole(r0, events)
  {
    Snoc(events, e);
    DataSizeSnoc(r0, events, e);
    if Quiet(events) {
      QuietTakes(events);
    }
  }

  // ---------- the machine ----------

  /** What is known of the state from the events alone. */
  ghost predicate Accounted(w: Window, r0: int, events: seq<Event>, s: R.Receiver) {
    && R.Ok(s)
    && s.accepted == |Taken(events)| && s.written == Flatten(Taken(events))
    && s.datasize == DataSize(r0, events) && s.flag == Quiet(events) && s.j == Misses(events)
    && (Whole(r0, events) ==> Misses(events) == 0)
    && s.phase == (if Misses(events) == 3 then R.Aborted else if Whole(r0, events) then R.Done else R.Receiving)
    && s.ackbuf == (if Due(w, r0, events) then R.AckBuffer(s.accepted % WRAP) else R.ZeroBuffer())
    && s.len == if Stretched(w, r0, events) then 22 else 4
  }

  lemma JudgedAs(e: Event, k: nat)
    ensures R.ServerJudge(e, k % WRAP)
         == if e.Foreign? then R.Ignored else if BlockNumbered(e, k) then R.Accepted
            else if BadOpcode(e) then R.Illegal else R.Rejected
  {
    if e.Packet? {
      ReadAs(e.d);
    }
  }

  lemma BufferIs(w: Window, r0: int, events: seq<Event>, s: R.Receiver)
    requires R.Ok(s) && s.accepted == |Taken(events)|
    requires s.ackbuf == (if Due(w, r0, events) then R.AckBuffer(s.accepted % WRAP) else R.ZeroBuffer())
    requires s.len == if Stretched(w, r0, events) then 22 else 4
    ensures s.ackbuf[..s.len] == Repeated(w, r0, events)
  {
    PrintedAs(s.accepted, []);
    assert R.AckBuffer(s.accepted % WRAP)[..4] == AckBytes(s.accepted);
  }

  lemma FailAccounts(w: Window, r0: int, events: seq<Event>, s: R.Receiver, e: Event)
    requires Accounted(w, r0, events, s) && s.phase == R.Receiving
    requires !e.Foreign? && !BlockNumbered(e, s.accepted + 1)
    ensures Accounted(w, r0, events + [e], R.ServerStep(w, s, e).0)
  {
    JudgedAs(e, s.accepted + 1);
    Snoc(events, e);
    DataSizeSnoc(r0, events, e);
    QuietSnoc(events, e);
    WholeSnoc(r0, events, e);
    StretchedSnoc(w, r0, events, e);
  }

  lemma DueBy(k: nat, w: Window)
    ensures (k % WRAP == 0 || k % WRAP % w == 0) <==> k % 65536 % w == 0
  {
  }

  /** The move on the block waited for. */
  lemma TakeMoves(w: Window, s: R.Receiver, e: Event, size: int)
    requires R.Ok(s) && s.phase == R.Receiving && BlockNumbered(e, s.accepted + 1)
    requires size == if s.flag && |e.d| > 516 then |e.d| - 4 else s.datasize
    ensures var (t, out) := R.ServerStep(w, s, e);
      var k, last := s.accepted + 1, |e.d| != size + 4;
      var due := k % 65536 % w == 0 || last;
      && t.accepted == k && t.written == s.written + Payload(e.d) && t.datasize == size && !t.flag && t.j == 0
      && t.phase == (if last then R.Done else R.Receiving)
      && t.ackbuf == (if due then R.AckBuffer(k % WRAP) else R.ZeroBuffer())
      && t.len == (if due then 4 else s.len)
      && out == if due then [AckBytes(k)] else []
  {
    JudgedAs(e, s.accepted + 1);
    PrintedAs(s.accepted + 1, []);
    DueBy(s.accepted + 1, w);
    var u := s.(datasize := size, flag := false, accepted := s.accepted + 1, written := s.written + Payload(e.d));
    assert R.ServerStep(w, s, e) == R.ServerLoopHead(w, u, |e.d|);
  }

  lemma TakeFacts(w: Window, r0: int, events: seq<Event>, s: R.Receiver, e: Event)
    requires Accounted(w, r0, events, s) && s.phase == R.Receiving && BlockNumbered(e, s.accepted + 1)
    ensures var all, size := events + [e], if s.flag && |e.d| > 516 then |e.d| - 4 else s.datasize;
      && DataSize(r0, all) == size && !Quiet(all) && Misses(all) == 0 && Taken(all) == Taken(events) + [Payload(e.d)]
      && (Whole(r0, all) <==> |e.d| != size + 4)
      && (Stretched(w, r0, all) <==> Stretched(w, r0, events) && !Due(w, r0, all))
  {
    Snoc(events, e);
    DataSizeSnoc(r0, events, e);
    QuietSnoc(events, e);
    WholeSnoc(r0, events, e);
    StretchedSnoc(w, r0, events, e);
  }

  lemma TakeAccounts(w: Window, r0: int, events: seq<Event>, s: R.Receiver, e: Event)
    requires Accounted(w, r0, events, s) && s.phase == R.Receiving && BlockNumbered(e, s.accepted + 1)
    ensures Accounted(w, r0, events + [e], R.ServerStep(w, s, e).0)
    ensures R.ServerStep(w, s, e).1 == if Due(w, r0, events + [e]) then [AckBytes(s.accepted + 1)] else []
  {
    TakeFacts(w, r0, events, s, e);
    TakeMoves(w, s, e, DataSize(r0, events + [e]));
    FlattenSnoc(Taken(events), Payload(e.d));
  }

  lemma FailReplies(w: Window, r0: int, events: seq<Event>, s: R.Receiver, e: Event)
    requires Accounted(w, r0, events, s) && s.phase == R.Receiving
    requires !e.Foreign? && !BlockNumbered(e, s.accepted + 1)
    ensures R.ServerStep(w, s, e).1 == Reply(w, r0, events + [e])
  {
    var t := R.ServerStep(w, s, e).0;
    FailAccounts(w, r0, events, s, e);
    BufferIs(w, r0, events + [e], t);
    JudgedAs(e, s.accepted + 1);
    Snoc(events, e);
  }

  lemma StrangerAccounts(w: Window, r0: int, events: seq<Event>, s: R.Receiver, e: Event)
    requires Accounted(w, r0, events, s) && s.phase == R.Receiving && e.Foreign?
    ensures Accounted(w, r0, events + [e], s) && R.ServerStep(w, s, e) == (s, [])
  {
    Snoc(events, e);
    DataSizeSnoc(r0, events, e);
    QuietSnoc(events, e);
    WholeSnoc(r0, events, e);
    StretchedSnoc(w, r0, events, e);
  }

  lemma StepAccounts(w: Window, r0: int, events: seq<Event>, s: R.Receiver, e: Event)
    requires Accounted(w, r0, events, s) && s.phase == R.Receiving
    ensures var (t, more) := R.ServerStep(w, s, e);
      Accounted(w, r0, events + [e], t) && more == Reply(w, r0, events + [e])
  {
    Snoc(events, e);
    if e.Foreign? {
      StrangerAccounts(w, r0, events, s, e);
    } else if BlockNumbered(e, s.accepted + 1) {
      TakeAccounts(w, r0, events, s, e);
    } else {
      FailAccounts(w, r0, events, s, e);
      FailReplies(w, r0, events, s, e);
    }
  }

  lemma RepliesSnoc(w: Window, r0: int, events: seq<Event>, e: Event)
    ensures Replies(w, r0, events + [e]) == Replies(w, r0, events) + Reply(w, r0, events + [e])
  {
    assert (events + [e])[..|events|] == events;
  }

  lemma Regroup(a: seq<Datagram>, b: seq<Datagram>, c: seq<Datagram>)
    ensures (a + b) + c == a + (b + c)
  {
  }

  /** State and datagrams are as the events tell. */
  ghost predicate Told(w: Window, r0: int, events: seq<Event>, s: R.Receiver, sent: seq<Datagram>) {
    Accounted(w, r0, events, s) && sent == [AckBytes(0)] + Replies(w, r0, events)
  }

  lemma StepTold(w: Window, r0: int, events: seq<Event>, s: R.Receiver, sent: seq<Datagram>, e: Event)
    requires Told(w, r0, events, s, sent) && s.phase == R.Receiving
    ensures var (t, more) := R.ServerStep(w, s, e); Told(w, r0, events + [e], t, sent + more)
  {
    StepAccounts(w, r0, events, s, e);
    RepliesSnoc(w, r0, events, e);
    Regroup([AckBytes(0)], Replies(w, r0, events), Reply(w, r0, events + [e]));
  }

  lemma StartTold(w: Window, r0: BlockSize)
    ensures var (s, sent) := R.ServerStart(w, r0); Told(w, r0, [], s, sent)
  {
    PrintedAs(0, []);
    assert [AckBytes(0)] + [] == [AckBytes(0)];
  }

  lemma {:induction false} RunTold(w: Window, r0: BlockSize, events: seq<Event>, s: R.Receiver, sent: seq<Datagram>)
    requires R.ServerRun(w, r0, events) == (s, sent)
    ensures Told(w, r0, UntilEnd(r0, events), s, sent)
  {
    if events == [] {
      StartTold(w, r0);
    } else {
      var before, e := events[..|events| - 1], events[|events| - 1];
      var (s', sent') := R.ServerRun(w, r0, before);
      RunTold(w, r0, before, s', sent');
      if s'.phase == R.Receiving {
        StepTold(w, r0, UntilEnd(r0, before), s', sent', e);
      } else {
        assert sent' + [] == sent';
      }
    }
  }

  // ---------- whatever arrives, at every window ----------

  /** Though packets are copied before they are checked, the file is the payloads taken, in order: those of the
      peer's packets with opcode 3 and the next number. The receiver ends well exactly with the first of them
      that is not full, and gives up exactly at the third try in a row that brings no such packet. */
  lemma FileIsTaken(w: int, r0: int, events: seq<Event>)
    requires 1 <= w <= 16 && 1 <= r0 <= 1024
    ensures var h, s := UntilEnd(r0, events), R.ServerRun(w, r0, events).0;
      && s.written == Flatten(Taken(h)) && s.accepted == |Taken(h)|
      && (s.phase == R.Done <==> Whole(r0, h)) && (s.phase == R.Aborted <==> Misses(h) == 3)
      && s.j == Misses(h) <= 3
  {
    var (s, sent) := R.ServerRun(w, r0, events);
    RunTold(w, r0, events, s, sent);
  }

  /** It sends ACK 0, the ACK of every w-th block by number and of the last, and for each failed try, after an error
      reply if the opcode was bad, what it sent last or zeros; nothing to or about a stranger. */
  lemma AnswersAreLastAcks(w: int, r0: int, events: seq<Event>)
    requires 1 <= w <= 16 && 1 <= r0 <= 1024
    ensures R.ServerRun(w, r0, events).1 == [AckBytes(0)] + Replies(w, r0, UntilEnd(r0, events))
  {
    var (s, sent) := R.ServerRun(w, r0, events);
    RunTold(w, r0, events, s, sent);
  }
}
