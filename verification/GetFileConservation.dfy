/** `get_file` of tftp_client.cpp on every input, honest or not: which packets it refuses, its file, its end, the tries
    it has left and every datagram it sends, told from what arrived alone. */
module GetFileConservation {
  import opened Packets
  import opened Chunking
  import opened Wire
  import opened Socket
  import G = GetFile

  // ---------- told from what arrived ----------

  /** The port the first datagram came from, 0 if there was none. */
  function FirstPort(events: seq<Event>): nat {
    if events == [] then 0
    else
      var before, e := FirstPort(events[..|events| - 1]), events[|events| - 1];
      if before == 0 && e != Timeout then e.port else before
  }

  /** The payload, cut to the receive buffer. */
  function Cut(d: Datagram): seq<byte> { if |d| <= 1024 then d[4..] else d[4..1024] }

  /** The payloads of the DATA packets taken, in order of arrival, whatever their numbers. */
  function Taken(events: seq<Event>): seq<seq<byte>> {
    if events == [] then []
    else
      var before, e := events[..|events| - 1], events[|events| - 1];
      if Block(e) && !Locked(before) then Taken(before) + [Cut(e.d)] else Taken(before)
  }

  /** The request has been repeated to port 69 after another port was learnt: the peer is refused from now on. */
  predicate Locked(events: seq<Event>) {
    && events != []
    && var before := events[..|events| - 1];
       Locked(before)
       || (events[|events| - 1] == Timeout && Taken(before) == [] && FirstPort(before) !in {0, 69})
  }

  /** The last event is a block that is taken. */
  predicate Takes(events: seq<Event>) {
    events != [] && Block(events[|events| - 1]) && !Locked(events[..|events| - 1])
  }

  /** It costs no try: a stranger's packet, or a refused one. */
  predicate Free(events: seq<Event>) {
    && events != []
    && var e := events[|events| - 1]; e.Foreign? || (e.Packet? && Locked(events[..|events| - 1]))
  }

  /** The tries since the last block taken. */
  function Misses(events: seq<Event>): nat {
    if events == [] || Takes(events) then 0
    else Misses(events[..|events| - 1]) + if Free(events) then 0 else 1
  }

  /** A packet of the peer has been looked into. */
  predicate Opened(events: seq<Event>) {
    && events != []
    && var before := events[..|events| - 1]; Opened(before) || (events[|events| - 1].Packet? && !Locked(before))
  }

  /** The chunk size the client goes by: that of the first packet looked into if it is long. */
  function Section(events: seq<Event>): int {
    if events == [] then 512
    else
      var before, e := events[..|events| - 1], events[|events| - 1];
      if e.Packet? && !Locked(before) && !Opened(before) then if |Cut(e.d)| > 512 then |Cut(e.d)| else 512
      else Section(before)
  }

  /** Where the download stands: given up at the tenth try in a row, or as the last block taken says. */
  function PhaseAt(events: seq<Event>): G.Phase {
    var taken := Taken(events);
    if Misses(events) == 10 then G.Exhausted
    else if taken == [] || |taken[|taken| - 1]| == Section(events) then G.Receiving
    else if |taken[|taken| - 1]| < Section(events) then G.Complete
    else G.Oversize
  }

  function UntilEnd(events: seq<Event>): seq<Event> {
    if events == [] then []
    else
      var before := UntilEnd(events[..|events| - 1]);
      if PhaseAt(before) == G.Receiving then before + [events[|events| - 1]] else before
  }

  /** The answer to the last of these events: the k-th DATA packet taken gets ACK k, the last one twice; silence
      gets the latest ACK or else the request again. */
  function Reply(request: Datagram, events: seq<Event>): seq<Datagram>
    requires events != []
  {
    var k, e := |Taken(events)|, events[|events| - 1];
    if Takes(events) then [AckBytes(k)] + if PhaseAt(events) == G.Complete then [AckBytes(k)] else []
    else if e.Foreign? then []
    else if e == Timeout then [if k > 0 then AckBytes(k) else request]
    else if Locked(events) then [ErrorBytes(5, "Unknown transfer ID.")]
    else if BadOpcode(e) then [ErrorBytes(4, "Illegal TFTP operation.")]
    else []
  }

  function Replies(request: Datagram, events: seq<Event>): seq<Datagram> {
    if events == [] then [] else Replies(request, events[..|events| - 1]) + Reply(request, events)
  }

  // ---------- one more event ----------

  lemma Snoc(events: seq<Event>, e: Event)
    ensures var all, open := events + [e], !Locked(events);
      && all[..|events|] == events && all[|events|] == e
      && FirstPort(all) == (if FirstPort(events) == 0 && e != Timeout then e.port else FirstPort(events))
      && Taken(all) == (if Block(e) && open then Taken(events) + [Cut(e.d)] else Taken(events))
      && (Locked(all) <==>
          Locked(events) || (e == Timeout && Taken(events) == [] && FirstPort(events) !in {0, 69}))
      && (Takes(all) <==> Block(e) && open)
      && (Free(all) <==> e.Foreign? || (e.Packet? && !open))
  {
    assert (events + [e])[..|events|] == events;
  }

  lemma CountSnoc(events: seq<Event>, e: Event)
    ensures var all, open := events + [e], !Locked(events);
      && Misses(all) == (if Block(e) && open then 0
                         else if e.Foreign? || (e.Packet? && !open) then Misses(events) else Misses(events) + 1)
      && (Opened(all) <==> Opened(events) || (e.Packet? && open))
      && Section(all) == (if e.Packet? && open && !Opened(events) then if |Cut(e.d)| > 512 then |Cut(e.d)| else 512
                          else Section(events))
  {
    Snoc(events, e);
  }

  // ---------- the machine ----------

  /** What is known of the state from the events alone. */
  ghost predicate Accounted(events: seq<Event>, s: G.Getter) {
    && s.next == |Taken(events)| && s.written == Flatten(Taken(events)) && s.i == Misses(events) <= 10
    && s.section == Section(events) && s.first == !Opened(events) && (s.first ==> s.section == 512 && s.next == 0)
    && s.tid == FirstPort(events) && s.phase == PhaseAt(events)
    && (s.phase in {G.Complete, G.Oversize} ==> s.i == 0)
    && (if Locked(events) then s.tid !in {0, 69} && s.port == 69 && s.next == 0
        else s.tid > 0 ==> s.port == s.tid)
  }

  /** State and datagrams are as the events tell. */
  ghost predicate Told(request: Datagram, events: seq<Event>, s: G.Getter, sent: seq<Datagram>) {
    Accounted(events, s) && sent == Replies(request, events)
  }

  lemma SilenceAccounts(request: Datagram, events: seq<Event>, s: G.Getter)
    requires Accounted(events, s) && s.phase == G.Receiving
    ensures var (t, more) := G.Step(request, s, Timeout);
      Accounted(events + [Timeout], t) && more == Reply(request, events + [Timeout])
  {
    Snoc(events, Timeout);
    CountSnoc(events, Timeout);
    PrintedAs(s.next, []);
  }

  lemma RefusalAccounts(request: Datagram, events: seq<Event>, s: G.Getter, e: Event)
    requires Accounted(events, s) && s.phase == G.Receiving && e.Packet? && Locked(events)
    ensures var (t, more) := G.Step(request, s, e);
      t == s && Accounted(events + [e], t) && more == Reply(request, events + [e])
  {
    Snoc(events, e);
    CountSnoc(events, e);
  }

  lemma StrangerAccounts(request: Datagram, events: seq<Event>, s: G.Getter, e: Event)
    requires Accounted(events, s) && s.phase == G.Receiving && e.Foreign?
    ensures var (t, more) := G.Step(request, s, e);
      Accounted(events + [e], t) && more == Reply(request, events + [e])
  {
    Snoc(events, e);
    CountSnoc(events, e);
  }

  /** The packet as it lies in the receive buffer. */
  lemma CutIs(d: Datagram)
    ensures var r := Received(d, G.MAX_FILE_BUFFER); r[4..] == Cut(d) && |r| == 4 + |Cut(d)|
  {
  }

  lemma BlockAccounts(request: Datagram, events: seq<Event>, s: G.Getter, e: Event)
    requires Accounted(events, s) && s.phase == G.Receiving && Block(e) && !Locked(events)
    ensures var (t, more) := G.Step(request, s, e);
      Accounted(events + [e], t) && more == Reply(request, events + [e])
  {
    Snoc(events, e);
    CountSnoc(events, e);
    ReadAs(e.d);
    CutIs(e.d);
    PrintedAs(s.next + 1, []);
    FlattenSnoc(Taken(events), Cut(e.d));
  }

  lemma OtherAccounts(request: Datagram, events: seq<Event>, s: G.Getter, e: Event)
    requires Accounted(events, s) && s.phase == G.Receiving && e.Packet? && !Block(e) && !Locked(events)
    ensures var (t, more) := G.Step(request, s, e);
      Accounted(events + [e], t) && more == Reply(request, events + [e])
  {
    Snoc(events, e);
    CountSnoc(events, e);
    ReadAs(e.d);
    CutIs(e.d);
  }

  lemma RepliesSnoc(request: Datagram, events: seq<Event>, e: Event)
    ensures Replies(request, events + [e]) == Replies(request, events) + Reply(request, events + [e])
  {
    assert (events + [e])[..|events|] == events;
  }

  lemma StepTold(request: Datagram, events: seq<Event>, s: G.Getter, sent: seq<Datagram>, e: Event)
    requires Told(request, events, s, sent) && s.phase == G.Receiving
    ensures var (t, more) := G.Step(request, s, e); Told(request, events + [e], t, sent + more)
  {
    RepliesSnoc(request, events, e);
    if e == Timeout {
      SilenceAccounts(request, events, s);
    } else if e.Foreign? {
      StrangerAccounts(request, events, s, e);
    } else if Locked(events) {
      RefusalAccounts(request, events, s, e);
    } else if Block(e) {
      BlockAccounts(request, events, s, e);
    } else {
      OtherAccounts(request, events, s, e);
    }
  }

  lemma {:induction false} RunTold(request: Datagram, events: seq<Event>, s: G.Getter, sent: seq<Datagram>)
    requires G.Run(request, events) == (s, sent)
    ensures Told(request, UntilEnd(events), s, sent)
  {
    if events != [] {
      var before, e := events[..|events| - 1], events[|events| - 1];
      var (s', sent') := G.Run(request, before);
      RunTold(request, before, s', sent');
      if s'.phase == G.Receiving {
        StepTold(request, UntilEnd(before), s', sent', e);
      } else {
        assert sent' + [] == sent';
      }
    }
  }

  // ---------- whatever arrives ----------

  /** The file is the payloads taken in order of arrival, and what is sent is the replies. */
  lemma Conservation(request: Datagram, events: seq<Event>)
    ensures var h := UntilEnd(events);
      var (s, sent) := G.Run(request, events);
      s.written == Flatten(Taken(h)) && s.next == |Taken(h)| && sent == Replies(request, h)
  {
    var (s, sent) := G.Run(request, events);
    RunTold(request, events, s, sent);
  }

  /** The download ends well exactly with a taken block that is shorter than the chunk size, badly with a longer
      one, and is given up exactly at the tenth try in a row that brings no block: silences and other packets
      that are looked into, refused ones and strangers' not counted. */
  lemma EndsAt(request: Datagram, events: seq<Event>)
    ensures var h, s := UntilEnd(events), G.Run(request, events).0;
      s.phase == PhaseAt(h) && s.i == Misses(h) <= 10
  {
    var (s, sent) := G.Run(request, events);
    RunTold(request, events, s, sent);
  }

  // ---------- which DATA packets are taken ----------

  /** The payloads of all the peer's DATA packets. */
  function Arrived(events: seq<Event>): seq<seq<byte>> {
    if events == [] then []
    else
      var before, e := events[..|events| - 1], events[|events| - 1];
      if Block(e) then Arrived(before) + [Cut(e.d)] else Arrived(before)
  }

  /** Silence at j, when a port other than 69 was known and no DATA had come. */
  ghost predicate Silenced(events: seq<Event>, j: nat) {
    j < |events| && events[j] == Timeout && FirstPort(events[..j]) !in {0, 69} && Arrived(events[..j]) == []
  }

  lemma {:induction false} LockedIff(events: seq<Event>)
    ensures Locked(events) <==> exists j :: Silenced(events, j)
    ensures Taken(events) == if Locked(events) then [] else Arrived(events)
  {
    if events != [] {
      var before, last := events[..|events| - 1], |events| - 1;
      LockedIff(before);
      forall j: nat | j < last ensures Silenced(events, j) <==> Silenced(before, j) {
        assert events[..j] == before[..j];
      }
      assert Locked(before) ==> Locked(events) && (exists j :: Silenced(events, j)) by {
        if Locked(before) {
          var j :| Silenced(before, j);
          assert Silenced(events, j);
        }
      }
      if !Locked(before) {
        assert Locked(events) <==> Silenced(events, last);
        assert forall j :: Silenced(events, j) ==> j == last || Silenced(before, j);
      }
    }
  }

  /** Every DATA packet of the peer that comes before the end is taken if and only if there was no such silence
      before the first; else no block is ever taken. */
  lemma TakenIff(request: Datagram, events: seq<Event>)
    ensures var h, s := UntilEnd(events), G.Run(request, events).0;
      && (s.written == Flatten(Arrived(h)) && s.next == |Arrived(h)| <==>
          Arrived(h) == [] || !exists j :: Silenced(h, j))
      && ((exists j :: Silenced(h, j)) ==> s.written == [] && s.next == 0)
  {
    Conservation(request, events);
    LockedIff(UntilEnd(events));
  }

  /** An error packet from port p, silence, and a block: the block is written only if p is 69. */
  lemma LateBlockRefused(request: Datagram, port: Port, error: Datagram, block: Datagram)
    requires error[1] == 5 && block[1] == 3
    ensures var (s, sent) := G.Run(request, [Packet(error, port), Timeout, Packet(block, port)]);
      && s.next == (if port == 69 then 1 else 0)
      && sent == [request] + if port != 69 then [ErrorBytes(5, "Unknown transfer ID.")]
                             else [AckBytes(1)] + if s.phase == G.Complete then [AckBytes(1)] else []
  {
    var e1, e2, e3 := Packet(error, port), Timeout, Packet(block, port);
    ReadAs(error);
    ReadAs(block);
    PrintedAs(1, []);
    RunOfThree(request, e1, e2, e3);
  }

  lemma RunOfThree(request: Datagram, e1: Event, e2: Event, e3: Event)
    ensures var (s1, o1) := G.Step(request, G.START, e1);
      var (s2, o2) := G.Step(request, s1, e2);
      var (s3, o3) := G.Step(request, s2, e3);
      G.Run(request, [e1, e2, e3]) == (s3, o1 + o2 + o3)
  {
    G.RunSnoc(request, [], e1);
    G.RunSnoc(request, [e1], e2);
    G.RunSnoc(request, [e1, e2], e3);
    assert [] + [e1] == [e1] && [e1] + [e2] == [e1, e2] && [e1, e2] + [e3] == [e1, e2, e3];
    var o1 := G.Step(request, G.START, e1).1;
    assert [] + o1 == o1;
  }
}
