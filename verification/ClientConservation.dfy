/** `tget` of tftpc.c on every input, honest or not, at every window: its file, its end, the tries it has left, the
    port it answers to and every datagram it sends, told from what arrived alone. */
module ClientConservation {
  import opened Packets
  import opened Chunking
  import opened Wire
  import R = ReceiverMachines
  import V = ServerConservation

  // ---------- told from what arrived ----------

  /** The payloads of the peer's DATA packets in order of arrival, whatever their numbers. */
  function Taken(events: seq<Event>): seq<seq<byte>> {
    if events == [] then []
    else
      var before, e := Taken(events[..|events| - 1]), events[|events| - 1];
      if Block(e) then before + [Payload(e.d)] else before
  }

  /** The tries since the last of them: silence, and whatever else the peer sends. */
  function Misses(events: seq<Event>): nat {
    if events == [] || Block(events[|events| - 1]) then 0
    else Misses(events[..|events| - 1]) + if events[|events| - 1].Foreign? then 0 else 1
  }

  /** The chunk size a packet of n bytes teaches. */
  function Adapted(r0: int, n: nat): int { if n > 516 then n - 4 else if n < 516 then 512 else r0 }

  /** `datasize`: the first packet of the peer decides, block or not. */
  function DataSize(r0: int, events: seq<Event>): int {
    if events == [] then r0 else if events[0].Packet? then Adapted(r0, |events[0].d|) else DataSize(r0, events[1..])
  }

  /** The last block taken is not full. */
  predicate Whole(r0: int, events: seq<Event>) {
    var taken := Taken(events);
    taken != [] && |taken[|taken| - 1]| != DataSize(r0, events)
  }

  /** The events up to the end of the transfer: the last block, or the third failed try in a row. */
  function UntilEnd(r0: int, events: seq<Event>): seq<Event> {
    if events == [] then []
    else
      var before := UntilEnd(r0, events[..|events| - 1]);
      if Misses(before) == 3 || Whole(r0, before) then before else before + [events[|events| - 1]]
  }

  /** The port the ACKs go to: that of the first datagram, even a stranger's, or what was there before if a
      wait was silent first. */
  function LearntPort(stalePort: nat, events: seq<Event>): nat {
    if events == [] then 0
    else
      var before, e := LearntPort(stalePort, events[..|events| - 1]), events[|events| - 1];
      if before != 0 then before else if e == Timeout then stalePort else e.port
  }

  /** What goes out on the last event: for the k-th block ACK k if it is the first of a window by number, and
      again (or only then) if it is the last. */
  function Reply(w: Window, r0: int, events: seq<Event>): seq<Datagram>
    requires events != []
  {
    var k, e := |Taken(events)|, events[|events| - 1];
    if Block(e) then
      (if (k % 65536 - 1) % w == 0 then [AckBytes(k)] else []) + (if Whole(r0, events) then [AckBytes(k)] else [])
    else if BadOpcode(e) then [ErrorBytes(4, "Illegal operation")]
    else []
  }

  function Replies(w: Window, r0: int, events: seq<Event>): seq<Datagram> {
    if events == [] then [] else Replies(w, r0, events[..|events| - 1]) + Reply(w, r0, events)
  }

  // ---------- one more event ----------

  lemma {:induction false} DataSizeSnoc(r0: int, events: seq<Event>, e: Event)
    ensures DataSize(r0, events + [e])
         == if V.Quiet(events) && e.Packet? then Adapted(r0, |e.d|) else DataSize(r0, events)
    ensures V.Quiet(events) ==> DataSize(r0, events) == r0
    decreases |events|
  {
    var all := events + [e];
    if events == [] {
      assert all[1..] == [];
    } else if !events[0].Packet? {
      assert all[1..] == events[1..] + [e];
      DataSizeSnoc(r0, events[1..], e);
      assert forall i :: 1 <= i < |events| ==> events[1..][i - 1] == events[i];
    }
  }

  lemma {:induction false} QuietTakes(events: seq<Event>)
    requires V.Quiet(events)
    ensures Taken(events) == []
  {
    if events != [] {
      QuietTakes(events[..|events| - 1]);
    }
  }

  lemma Snoc(events: seq<Event>, e: Event)
    ensures var all := events + [e];
      && Taken(all) == (if Block(e) then Taken(events) + [Payload(e.d)] else Taken(events))
      && Misses(all) == if Block(e) then 0 else if e.Foreign? then Misses(events) else Misses(events) + 1
  {
    assert (events + [e])[..|events|] == events;
  }

  lemma PortSnoc(stalePort: nat, events: seq<Event>, e: Event)
    ensures var before := LearntPort(stalePort, events);
      LearntPort(stalePort, events + [e]) == if before != 0 then before else if e == Timeout then stalePort else e.port
  {
    assert (events + [e])[..|events|] == events;
  }

  lemma WholeSnoc(r0: int, events: seq<Event>, e: Event)
    ensures var all := events + [e];
      Whole(r0, all) <==> if Block(e) then |e.d| != DataSize(r0, all) + 4 else Whole(r0, events)
  {
    Snoc(events, e);
    DataSizeSnoc(r0, events, e);
    if V.Quiet(events) {
      QuietTakes(events);
    }
  }

  // ---------- the machine ----------

  /** What is known of the state from the events alone. */
  ghost predicate Accounted(r0: int, stalePort: nat, events: seq<Event>, s: R.Receiver) {
    && R.Ok(s)
    && s.accepted == |Taken(events)| && s.written == Flatten(Taken(events))
    && s.datasize == DataSize(r0, events) && s.flag == V.Quiet(events) && s.j == Misses(events)
    && s.port == LearntPort(stalePort, events) && s.stalePort == stalePort
    && (Whole(r0, events) ==> Misses(events) == 0)
    && s.phase == if Misses(events) == 3 then R.Aborted else if Whole(r0, events) then R.Done else R.Receiving
  }

  lemma JudgedAs(e: Event)
    ensures R.ClientJudge(e)
         == if e.Foreign? then R.Ignored else if Block(e) then R.Accepted
            else if BadOpcode(e) then R.Illegal else R.Rejected
  {
    if e.Packet? {
      ReadAs(e.d);
    }
  }

  lemma DueBy(k: nat, w: Window)
    ensures R.ClientAcks(k % WRAP, w) <==> (k % 65536 - 1) % w == 0
  {
  }

  lemma Facts(r0: int, stalePort: nat, events: seq<Event>, e: Event)
    ensures var all := events + [e];
      && Taken(all) == (if Block(e) then Taken(events) + [Payload(e.d)] else Taken(events))
      && Misses(all) == (if Block(e) then 0 else if e.Foreign? then Misses(events) else Misses(events) + 1)
      && DataSize(r0, all) == (if V.Quiet(events) && e.Packet? then Adapted(r0, |e.d|) else DataSize(r0, events))
      && (V.Quiet(events) ==> DataSize(r0, events) == r0)
      && (V.Quiet(all) <==> V.Quiet(events) && !e.Packet?)
      && (Whole(r0, all) <==> if Block(e) then |e.d| != DataSize(r0, all) + 4 else Whole(r0, events))
  {
    Snoc(events, e);
    DataSizeSnoc(r0, events, e);
    V.QuietSnoc(events, e);
    WholeSnoc(r0, events, e);
  }

  lemma MissAccounts(w: Window, r0: int, stalePort: nat, events: seq<Event>, s: R.Receiver, e: Event)
    requires Accounted(r0, stalePort, events, s) && s.phase == R.Receiving && !Block(e)
    ensures var (t, more) := R.ClientStep(w, s, e);
      Accounted(r0, stalePort, events + [e], t) && more == Reply(w, r0, events + [e])
  {
    JudgedAs(e);
    Facts(r0, stalePort, events, e);
    PortSnoc(stalePort, events, e);
  }

  /** The move on a block. */
  lemma TakeMoves(w: Window, s: R.Receiver, e: Event, size: int)
    requires R.Ok(s) && s.phase == R.Receiving && Block(e)
    requires size == if s.flag then Adapted(s.datasize, |e.d|) else s.datasize
    ensures var (t, out) := R.ClientStep(w, s, e);
      var k, last := s.accepted + 1, |e.d| != size + 4;
      && t == R.Receiver(if last then R.Done else R.Receiving, k, s.written + Payload(e.d), size, false, 0,
                         s.ackbuf, s.len, R.Learnt(s, e).port, s.stalePort)
      && out == (if (k % 65536 - 1) % w == 0 then [AckBytes(k)] else []) + (if last then [AckBytes(k)] else [])
  {
    JudgedAs(e);
    PrintedAs(s.accepted + 1, []);
    DueBy(s.accepted + 1, w);
  }

  lemma TakeAccounts(w: Window, r0: int, stalePort: nat, events: seq<Event>, s: R.Receiver, e: Event)
    requires Accounted(r0, stalePort, events, s) && s.phase == R.Receiving && Block(e)
    ensures var (t, more) := R.ClientStep(w, s, e);
      Accounted(r0, stalePort, events + [e], t) && more == Reply(w, r0, events + [e])
  {
    Facts(r0, stalePort, events, e);
    PortSnoc(stalePort, events, e);
    TakeMoves(w, s, e, DataSize(r0, events + [e]));
    FlattenSnoc(Taken(events), Payload(e.d));
  }

  lemma RepliesSnoc(w: Window, r0: int, events: seq<Event>, e: Event)
    ensures Replies(w, r0, events + [e]) == Replies(w, r0, events) + Reply(w, r0, events + [e])
  {
    assert (events + [e])[..|events|] == events;
  }

  /** State and datagrams are as the events tell. */
  ghost predicate Told(w: Window, r0: int, stalePort: nat, events: seq<Event>, s: R.Receiver, sent: seq<Datagram>) {
    Accounted(r0, stalePort, events, s) && sent == Replies(w, r0, events)
  }

  lemma StepTold(w: Window, r0: int, stalePort: nat, events: seq<Event>, s: R.Receiver, sent: seq<Datagram>, e: Event)
    requires Told(w, r0, stalePort, events, s, sent) && s.phase == R.Receiving
    ensures var (t, more) := R.ClientStep(w, s, e); Told(w, r0, stalePort, events + [e], t, sent + more)
  {
    RepliesSnoc(w, r0, events, e);
    if Block(e) {
      TakeAccounts(w, r0, stalePort, events, s, e);
    } else {
      MissAccounts(w, r0, stalePort, events, s, e);
    }
  }

  lemma {:induction false} RunTold(w: Window, r0: BlockSize, stalePort: nat, events: seq<Event>, s: R.Receiver,
                                   sent: seq<Datagram>)
    requires R.ClientRun(w, r0, stalePort, events) == (s, sent)
    ensures Told(w, r0, stalePort, UntilEnd(r0, events), s, sent)
  {
    if events != [] {
      var before, e := events[..|events| - 1], events[|events| - 1];
      var (s', sent') := R.ClientRun(w, r0, stalePort, before);
      RunTold(w, r0, stalePort, before, s', sent');
      if s'.phase == R.Receiving {
        StepTold(w, r0, stalePort, UntilEnd(r0, before), s', sent', e);
      } else {
        assert sent' + [] == sent';
      }
    }
  }

  // ---------- whatever arrives, at every window ----------

  /** The file is the payloads of exactly the peer's packets with opcode 3, in order of arrival: anything else
      leaves it alone and never ends the download well. It ends well exactly with the first of them that is not
      full, and the client gives up exactly at the third try in a row that brings none. */
  lemma FileIsTaken(w: int, r0: int, stalePort: nat, events: seq<Event>)
    requires 1 <= w <= 16 && 1 <= r0 <= 1024
    ensures var h, s := UntilEnd(r0, events), R.ClientRun(w, r0, stalePort, events).0;
      && s.written == Flatten(Taken(h)) && s.accepted == |Taken(h)|
      && (s.phase == R.Done <==> Whole(r0, h)) && (s.phase == R.Aborted <==> Misses(h) == 3)
      && s.j == Misses(h) <= 3
  {
    var (s, sent) := R.ClientRun(w, r0, stalePort, events);
    RunTold(w, r0, stalePort, events, s, sent);
  }

  /** All it sends, and where. */
  lemma AnswersAreAcks(w: int, r0: int, stalePort: nat, events: seq<Event>)
    requires 1 <= w <= 16 && 1 <= r0 <= 1024
    ensures var h := UntilEnd(r0, events);
      var (s, sent) := R.ClientRun(w, r0, stalePort, events);
      sent == Replies(w, r0, h) && s.port == LearntPort(stalePort, h)
  {
    var (s, sent) := R.ClientRun(w, r0, stalePort, events);
    RunTold(w, r0, stalePort, events, s, sent);
  }
}
