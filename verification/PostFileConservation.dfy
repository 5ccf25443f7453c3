/** `post_file` of tftp_client.cpp on every input, honest or not: which block's ACK it awaits, which packets it
    refuses, the tries it has left, its end and every datagram it sends, told from what arrived alone. */
module PostFileConservation {
  import opened Packets
  import opened Chunking
  import opened Wire
  import C = GetFileConservation
  import P = PostFile

  // ---------- told from what arrived ----------

  /** The peer's ACK of block k; unlike tftpc, the program does not wrap its counter. */
  predicate AckOf(e: Event, k: nat) { e.Packet? && e.d[1] == 4 && Number(e.d) == k }

  /** An opcode above 5, read as an unsigned byte. */
  predicate HighOpcode(e: Event) { e.Packet? && e.d[1] > 5 }

  /** The block number last read from the peer, 0 if none. */
  function LastNumber(events: seq<Event>): int {
    if events == [] then 0
    else
      var before, e := events[..|events| - 1], events[|events| - 1];
      if e.Packet? && !Locked(before) then Number(e.d) else LastNumber(before)
  }

  /** In the wait for ACK 0 the request has been repeated to port 69 after another port was learnt: the peer is
      refused from now on. */
  predicate Locked(events: seq<Event>) {
    && events != []
    && var before := events[..|events| - 1];
       Locked(before)
       || (events[|events| - 1] == Timeout && LastNumber(before) == 0 && C.FirstPort(before) !in {0, 69})
  }

  /** The number of the block whose ACK is awaited, 0 for that of the request. */
  function Awaited(events: seq<Event>): nat {
    if events == [] then 0
    else
      var before, e := events[..|events| - 1], events[|events| - 1];
      var k := Awaited(before);
      if AckOf(e, k) && (k == 0 ==> !Locked(before)) then k + 1 else k
  }

  /** The last event was the ACK awaited. */
  predicate Answers(events: seq<Event>) { events != [] && Awaited(events) > Awaited(events[..|events| - 1]) }

  /** The tries for ACK 0: silences, and packets of the peer that are looked into. */
  function Misses(events: seq<Event>): nat {
    if events == [] || Awaited(events) > 0 then 0
    else
      var before, e := events[..|events| - 1], events[|events| - 1];
      Misses(before) + if e.Foreign? || (e.Packet? && Locked(before)) then 0 else 1
  }

  /** No datagram has come since the last block went out. */
  predicate Unheard(events: seq<Event>) {
    events == [] || Answers(events) || (events[|events| - 1] == Timeout && Unheard(events[..|events| - 1]))
  }

  /** Where datagrams go: to the port of the first datagram after each block, even a stranger's; silence in the
      wait for ACK 0 sets 69. */
  function PortAt(events: seq<Event>): nat {
    if events == [] then 0
    else
      var before, e := events[..|events| - 1], events[|events| - 1];
      if e == Timeout then if Awaited(before) == 0 && LastNumber(before) == 0 then 69 else PortAt(before)
      else if Unheard(before) then e.port
      else PortAt(before)
  }

  /** Where an upload of n blocks stands: given up at the tenth try for ACK 0; stuck with the first silence, or
      packet of the peer other than its ACK, after a block. */
  function PhaseAt(n: nat, events: seq<Event>): P.Phase {
    var k := Awaited(events);
    if Misses(events) == 10 then P.Exhausted
    else if k == 0 then P.Handshake
    else if k > n then P.Complete
    else if Answers(events) || events[|events| - 1].Foreign? then P.Waiting
    else P.Stuck
  }

  function UntilEnd(n: nat, events: seq<Event>): seq<Event> {
    if events == [] then []
    else
      var before := UntilEnd(n, events[..|events| - 1]);
      if PhaseAt(n, before) in {P.Handshake, P.Waiting} then before + [events[|events| - 1]] else before
  }

  /** What goes out on the last event; the endless resending of a block is not listed. */
  function Reply(blocks: seq<seq<byte>>, request: Datagram, events: seq<Event>): seq<seq<byte>>
    requires events != []
  {
    var before, e := events[..|events| - 1], events[|events| - 1];
    var k := Awaited(before);
    if Answers(events) then if k < |blocks| then [DataBytes(k + 1, blocks[k])] else []
    else if e.Foreign? then []
    else if e == Timeout then if k == 0 && LastNumber(before) == 0 then [request] else []
    else if k == 0 && Locked(before) then [ErrorBytes(5, "Unknown transfer ID.")]
    else if HighOpcode(e) then [ErrorBytes(4, "Illegal TFTP operation.")]
    else []
  }

  function Replies(blocks: seq<seq<byte>>, request: Datagram, events: seq<Event>): seq<seq<byte>> {
    if events == [] then []
    else Replies(blocks, request, events[..|events| - 1]) + Reply(blocks, request, events)
  }

  // ---------- one more event ----------

  lemma Snoc(events: seq<Event>, e: Event)
    ensures var all := events + [e];
      && all[..|events|] == events && all[|events|] == e
      && C.FirstPort(all) == (if C.FirstPort(events) == 0 && e != Timeout then e.port else C.FirstPort(events))
      && LastNumber(all) == (if e.Packet? && !Locked(events) then Number(e.d) else LastNumber(events))
      && (Locked(all) <==>
          Locked(events) || (e == Timeout && LastNumber(events) == 0 && C.FirstPort(events) !in {0, 69}))
  {
    assert (events + [e])[..|events|] == events;
  }

  /** The last event is the ACK awaited after `events`. */
  predicate Hits(events: seq<Event>, e: Event) {
    var k := Awaited(events);
    AckOf(e, k) && (k == 0 ==> !Locked(events))
  }

  lemma CountSnoc(events: seq<Event>, e: Event)
    ensures var all, k, hit := events + [e], Awaited(events), Hits(events, e);
      && Awaited(all) == (if hit then k + 1 else k) && (Answers(all) <==> hit)
      && Misses(all) == (if hit || k > 0 then 0
                         else if e.Foreign? || (e.Packet? && Locked(events)) then Misses(events)
                         else Misses(events) + 1)
      && (Unheard(all) <==> hit || (e == Timeout && Unheard(events)))
      && PortAt(all) == (if e == Timeout then if k == 0 && LastNumber(events) == 0 then 69 else PortAt(events)
                         else if Unheard(events) then e.port else PortAt(events))
  {
    assert (events + [e])[..|events|] == events;
  }

  // ---------- the machine ----------

  /** What is known in the wait for ACK 0 from the events alone. */
  ghost predicate Known(events: seq<Event>, s: P.Poster) {
    && s.tid == C.FirstPort(events) && s.received == LastNumber(events) && s.i == Misses(events)
    && if Locked(events) then s.tid !in {0, 69} && s.port == 69 && s.received == 0
       else s.tid > 0 ==> s.port == s.tid
  }

  /** What is known of the state from the events alone. */
  ghost predicate Accounted(blocks: seq<seq<byte>>, events: seq<Event>, s: P.Poster) {
    var k := Awaited(events);
    && P.Ok(blocks, s) && s.phase == PhaseAt(|blocks|, events)
    && k <= |blocks| + 1 && s.sent == (if k > |blocks| then |blocks| else k)
    && Misses(events) <= 10 && (k > 0 ==> Misses(events) == 0)
    && (k == 0 ==> Known(events, s))
    && (s.phase in {P.Handshake, P.Waiting} ==> (s.tid == 0 <==> Unheard(events)))
    && (s.phase == P.Waiting && s.tid > 0 ==> s.tid == s.port)
    && s.port == PortAt(events)
  }

  lemma JudgedAs(d: Datagram, port: Port, k: nat)
    ensures P.Judge(d, k) == if AckOf(Packet(d, port), k) then P.Accepted
                             else if HighOpcode(Packet(d, port)) then P.Illegal else P.Rejected
  {
    ReadAs(d);
  }

  /** State and reply after one more event are as the events tell. */
  ghost predicate After(blocks: seq<seq<byte>>, request: Datagram, events: seq<Event>, s: P.Poster, e: Event)
    requires P.Ok(blocks, s)
  {
    var (t, more) := P.Step(blocks, request, s, e);
    Accounted(blocks, events + [e], t) && more == Reply(blocks, request, events + [e])
  }

  lemma StrangerAccounts(blocks: seq<seq<byte>>, request: Datagram, events: seq<Event>, s: P.Poster, e: Event)
    requires Accounted(blocks, events, s) && s.phase in {P.Handshake, P.Waiting} && e.Foreign?
    ensures After(blocks, request, events, s, e)
  {
    Snoc(events, e);
    CountSnoc(events, e);
  }

  /** Silence, or a packet of the peer, in the wait for ACK 0. */
  lemma SilenceAccounts(blocks: seq<seq<byte>>, request: Datagram, events: seq<Event>, s: P.Poster)
    requires Accounted(blocks, events, s) && s.phase == P.Handshake
    ensures After(blocks, request, events, s, Timeout)
  {
    Snoc(events, Timeout);
    CountSnoc(events, Timeout);
  }

  lemma RefusalAccounts(blocks: seq<seq<byte>>, request: Datagram, events: seq<Event>, s: P.Poster, e: Event)
    requires Accounted(blocks, events, s) && s.phase == P.Handshake && e.Packet? && Locked(events)
    ensures After(blocks, request, events, s, e)
  {
    Snoc(events, e);
    CountSnoc(events, e);
  }

  lemma AnswerAccounts(blocks: seq<seq<byte>>, request: Datagram, events: seq<Event>, s: P.Poster, e: Event)
    requires Accounted(blocks, events, s) && s.phase == P.Handshake && e.Packet? && !Locked(events)
    ensures After(blocks, request, events, s, e)
  {
    Snoc(events, e);
    CountSnoc(events, e);
    JudgedAs(e.d, e.port, 0);
    ReadAs(e.d);
    PrintedAs(1, blocks[0]);
  }

  /** Anything in the wait for the ACK of a block. */
  lemma HitAccounts(blocks: seq<seq<byte>>, request: Datagram, events: seq<Event>, s: P.Poster, e: Event)
    requires Accounted(blocks, events, s) && s.phase == P.Waiting && AckOf(e, s.sent)
    ensures After(blocks, request, events, s, e)
  {
    Snoc(events, e);
    CountSnoc(events, e);
    JudgedAs(e.d, e.port, s.sent);
    if s.sent < |blocks| {
      PrintedAs(s.sent + 1, blocks[s.sent]);
    }
  }

  lemma StuckAccounts(blocks: seq<seq<byte>>, request: Datagram, events: seq<Event>, s: P.Poster, e: Event)
    requires Accounted(blocks, events, s) && s.phase == P.Waiting && !e.Foreign? && !AckOf(e, s.sent)
    ensures After(blocks, request, events, s, e)
  {
    Snoc(events, e);
    CountSnoc(events, e);
    if e.Packet? {
      JudgedAs(e.d, e.port, s.sent);
    }
  }

  lemma StepAccounts(blocks: seq<seq<byte>>, request: Datagram, events: seq<Event>, s: P.Poster, e: Event)
    requires Accounted(blocks, events, s) && s.phase in {P.Handshake, P.Waiting}
    ensures After(blocks, request, events, s, e)
  {
    if e.Foreign? {
      StrangerAccounts(blocks, request, events, s, e);
    } else if s.phase == P.Waiting {
      if AckOf(e, s.sent) {
        HitAccounts(blocks, request, events, s, e);
      } else {
        StuckAccounts(blocks, request, events, s, e);
      }
    } else if e == Timeout {
      SilenceAccounts(blocks, request, events, s);
    } else if Locked(events) {
      RefusalAccounts(blocks, request, events, s, e);
    } else {
      AnswerAccounts(blocks, request, events, s, e);
    }
  }

  /** State and datagrams are as the events tell. */
  ghost predicate Told(blocks: seq<seq<byte>>, request: Datagram, events: seq<Event>, s: P.Poster,
                       sent: seq<Datagram>)
  {
    Accounted(blocks, events, s) && sent == Replies(blocks, request, events)
  }

  lemma RepliesSnoc(blocks: seq<seq<byte>>, request: Datagram, events: seq<Event>, e: Event)
    ensures Replies(blocks, request, events + [e])
         == Replies(blocks, request, events) + Reply(blocks, request, events + [e])
  {
    assert (events + [e])[..|events|] == events;
  }

  lemma {:induction false} RunTold(blocks: seq<seq<byte>>, request: Datagram, events: seq<Event>, s: P.Poster,
                                   sent: seq<Datagram>)
    requires Chunked(blocks, P.SECTION) && P.Run(blocks, request, events) == (s, sent)
    ensures Told(blocks, request, UntilEnd(|blocks|, events), s, sent)
  {
    if events != [] {
      var before, e := events[..|events| - 1], events[|events| - 1];
      var (s', sent') := P.Run(blocks, request, before);
      RunTold(blocks, request, before, s', sent');
      if s'.phase in {P.Handshake, P.Waiting} {
        StepAccounts(blocks, request, UntilEnd(|blocks|, before), s', e);
        RepliesSnoc(blocks, request, UntilEnd(|blocks|, before), e);
      } else {
        assert sent' + [] == sent';
      }
    }
  }

  // ---------- whatever arrives ----------

  /** Where the upload stands, the block it is at, the port its datagrams go to, and all it has sent. */
  lemma Conservation(blocks: seq<seq<byte>>, request: Datagram, events: seq<Event>)
    requires Chunked(blocks, 512)
    ensures var h := UntilEnd(|blocks|, events);
      var (s, sent) := P.Run(blocks, request, events);
      && s.phase == PhaseAt(|blocks|, h) && (s.phase == P.Waiting ==> s.sent == Awaited(h))
      && s.port == PortAt(h) && sent == Replies(blocks, request, h)
  {
    var (s, sent) := P.Run(blocks, request, events);
    RunTold(blocks, request, events, s, sent);
  }

  /** The wait for ACK 0 is given up exactly at the tenth try: silences and packets of the peer that are looked
      into, refused ones and strangers' not counted. */
  lemma TriesTold(blocks: seq<seq<byte>>, request: Datagram, events: seq<Event>)
    requires Chunked(blocks, 512)
    ensures var h, s := UntilEnd(|blocks|, events), P.Run(blocks, request, events).0;
      && (s.phase == P.Exhausted <==> Misses(h) == 10) && Misses(h) <= 10
      && (s.phase == P.Handshake ==> s.i == Misses(h))
  {
    var (s, sent) := P.Run(blocks, request, events);
    RunTold(blocks, request, events, s, sent);
  }

  /** Waiting for the ACK of block k, the upload goes on, to block k + 1 or to completion, if and only if the peer
      sends just that: opcode 4 and number k. Silence and every other packet of the peer end it in the endless
      resending; only a stranger's leaves it waiting. None is refused. */
  lemma BlockAckIff(blocks: seq<seq<byte>>, request: Datagram, events: seq<Event>, e: Event)
    requires Chunked(blocks, 512) && P.Run(blocks, request, events).0.phase == P.Waiting
    ensures var k, t := P.Run(blocks, request, events).0.sent, P.Run(blocks, request, events + [e]).0;
      && 1 <= k <= |blocks|
      && (AckOf(e, k) && k < |blocks| <==> t.phase == P.Waiting && t.sent == k + 1)
      && (AckOf(e, k) && k == |blocks| <==> t.phase == P.Complete)
      && (!AckOf(e, k) && !e.Foreign? <==> t.phase == P.Stuck)
      && (e.Foreign? <==> t.phase == P.Waiting && t.sent == k)
  {
    var (s, sent) := P.Run(blocks, request, events);
    var h := UntilEnd(|blocks|, events);
    RunTold(blocks, request, events, s, sent);
    P.RunSnoc(blocks, request, events, e);
    StepAccounts(blocks, request, h, s, e);
    CountSnoc(h, e);
    Snoc(h, e);
  }

  /** The ACK of block k came from the peer when it was awaited. */
  ghost predicate Acked(events: seq<Event>, k: nat, i: nat) {
    i < |events| && Awaited(events[..i]) == k && AckOf(events[i], k)
  }

  lemma {:induction false} AckedBefore(events: seq<Event>, k: nat)
    requires k < Awaited(events)
    ensures exists i :: Acked(events, k, i)
  {
    var before, last := events[..|events| - 1], |events| - 1;
    if k < Awaited(before) {
      AckedBefore(before, k);
      var i: nat :| Acked(before, k, i);
      assert before[..i] == events[..i];
      assert Acked(events, k, i);
    } else {
      assert Acked(events, k, last);
    }
  }

  /** An upload that is reported complete has heard ACK 0 and the ACK of every block from its server, each while
      it was awaited. */
  lemma CompleteMeansAcked(blocks: seq<seq<byte>>, request: Datagram, events: seq<Event>, k: nat)
    requires Chunked(blocks, 512) && P.Run(blocks, request, events).0.phase == P.Complete && k <= |blocks|
    ensures exists i :: Acked(UntilEnd(|blocks|, events), k, i)
  {
    Conservation(blocks, request, events);
    AckedBefore(UntilEnd(|blocks|, events), k);
  }

  // ---------- when ACK 0 is refused ----------

  /** In the wait for ACK 0 a packet of the peer ends it if and only if it is ACK 0 and the request has not been
      repeated to port 69 after another port was learnt. */
  lemma WriteAckTakenIff(blocks: seq<seq<byte>>, request: Datagram, events: seq<Event>, e: Event)
    requires Chunked(blocks, 512) && P.Run(blocks, request, events).0.phase == P.Handshake
    ensures P.Run(blocks, request, events + [e]).0.phase == P.Waiting <==> AckOf(e, 0) && !Locked(events)
  {
    var (s, sent) := P.Run(blocks, request, events);
    RunTold(blocks, request, events, s, sent);
    WholeHandshake(blocks, request, events);
    P.RunSnoc(blocks, request, events, e);
    StepAccounts(blocks, request, events, s, e);
    CountSnoc(events, e);
    Snoc(events, e);
  }

  /** While waiting for ACK 0 the program has heard everything. */
  lemma {:induction false} WholeHandshake(blocks: seq<seq<byte>>, request: Datagram, events: seq<Event>)
    requires Chunked(blocks, 512) && P.Run(blocks, request, events).0.phase == P.Handshake
    ensures UntilEnd(|blocks|, events) == events
  {
    if events != [] {
      var before, e := events[..|events| - 1], events[|events| - 1];
      assert before + [e] == events;
      WholeHandshake(blocks, request, before);
      var (s, sent) := P.Run(blocks, request, before);
      RunTold(blocks, request, before, s, sent);
    }
  }

  /** TID, port, number last received and tries, told from the events alone. */
  lemma HandshakeKnown(blocks: seq<seq<byte>>, request: Datagram, events: seq<Event>)
    requires Chunked(blocks, 512) && P.Run(blocks, request, events).0.phase == P.Handshake
    ensures Known(events, P.Run(blocks, request, events).0)
  {
    var (s, sent) := P.Run(blocks, request, events);
    RunTold(blocks, request, events, s, sent);
    WholeHandshake(blocks, request, events);
  }

  /** The peer is refused, and no block has been sent. */
  ghost predicate Refusing(blocks: seq<seq<byte>>, request: Datagram, events: seq<Event>)
    requires Chunked(blocks, 512)
  {
    var s := P.Run(blocks, request, events).0;
    Locked(events) && s.phase in {P.Handshake, P.Exhausted} && s.sent == 0
  }

  lemma StillRefusing(blocks: seq<seq<byte>>, request: Datagram, events: seq<Event>, e: Event)
    requires Chunked(blocks, 512) && Refusing(blocks, request, events)
    ensures Refusing(blocks, request, events + [e])
  {
    var s := P.Run(blocks, request, events).0;
    P.RunSnoc(blocks, request, events, e);
    Snoc(events, e);
    if s.phase == P.Handshake {
      HandshakeKnown(blocks, request, events);
      assert P.Step(blocks, request, s, e).0.sent == 0;
    }
  }

  /** From then on, whatever comes, no block is ever sent. */
  lemma {:induction false} RefusedForEver(blocks: seq<seq<byte>>, request: Datagram, events: seq<Event>,
                                          more: seq<Event>)
    requires Chunked(blocks, 512) && P.Run(blocks, request, events).0.phase == P.Handshake && Locked(events)
    ensures Refusing(blocks, request, events + more)
  {
    if more == [] {
      assert events + more == events;
      assert P.Ok(blocks, P.Run(blocks, request, events).0);
    } else {
      var before, e := more[..|more| - 1], more[|more| - 1];
      RefusedForEver(blocks, request, events, before);
      StillRefusing(blocks, request, events + before, e);
      assert events + more == events + before + [e];
    }
  }

  lemma LateLocked(error: Datagram, port: Port)
    requires Number(error) == 0
    ensures Locked([Packet(error, port), Timeout]) <==> port != 69
  {
    var e1, e2 := Packet(error, port), Timeout;
    Snoc([], e1);
    Snoc([e1], e2);
    assert [] + [e1] == [e1] && [e1] + [e2] == [e1, e2];
  }

  lemma LateWaits(blocks: seq<seq<byte>>, request: Datagram, error: Datagram, port: Port)
    requires Chunked(blocks, 512) && error[1] != 4
    ensures P.Run(blocks, request, [Packet(error, port), Timeout]).0.phase == P.Handshake
  {
    var e1, e2 := Packet(error, port), Timeout;
    P.RunSnoc(blocks, request, [], e1);
    P.RunSnoc(blocks, request, [e1], e2);
    assert [] + [e1] == [e1] && [e1] + [e2] == [e1, e2];
    assert P.Step(blocks, request, P.START, e1).0.phase == P.Handshake;
    assert P.Step(blocks, request, P.START, e1).0.i == 1;
  }

  /** A rejected packet with number 0 from port p, and silence: ACK 0 is refused unless p is 69. */
  lemma LateAckRefused(blocks: seq<seq<byte>>, request: Datagram, error: Datagram, port: Port)
    requires Chunked(blocks, 512) && error[1] != 4 && Number(error) == 0
    ensures var events := [Packet(error, port), Timeout, Packet(AckBytes(0), port)];
      P.Run(blocks, request, events).0.phase == P.Waiting <==> port == 69
  {
    var e1, e2 := Packet(error, port), Timeout;
    LateLocked(error, port);
    LateWaits(blocks, request, error, port);
    WriteAckTakenIff(blocks, request, [e1, e2], Packet(AckBytes(0), port));
    assert [e1, e2] + [Packet(AckBytes(0), port)] == [e1, e2, Packet(AckBytes(0), port)];
  }
}
