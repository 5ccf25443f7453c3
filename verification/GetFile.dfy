/** `get_file` of tftp_client.cpp: a download client that takes any DATA packet, acknowledges by its own
    count, repeats that ACK (or the request) on every timeout, and has a 1024-byte receive buffer. It
    learns its server's port once, from the first datagram; asking again for the file sets the port back
    to 69, and a server elsewhere is then refused for ever. */
module GetFile {
  import opened Packets
  import opened Chunking
  import opened Socket

  const MAX_RETRY := 10
  const MAX_FILE_BUFFER := 1024

  datatype Phase = Receiving | Complete | Oversize | Exhausted

  /** `next` is next_packet, `section` data_section, `first` first_time_response; `tid` is TID, 0 until it
      is learnt, and `port` the port in server_addr. */
  datatype Getter = Getter(phase: Phase, next: nat, written: seq<byte>, section: int, first: bool, i: nat,
                           tid: nat, port: nat)

  function IllegalOperation(): Datagram { ErrorPacket(4, "Illegal TFTP operation.") }

  function UnknownTid(): Datagram { ErrorPacket(5, "Unknown transfer ID.") }

  function Adapts(section: int, n: nat): int { if n > 516 then n - 4 else if n < 516 then 512 else section }

  /** The first datagram, whoever sent it, teaches the port. */
  function Learnt(s: Getter, e: Event): Getter {
    if s.tid == 0 then s.(tid := Source(e), port := Source(e)) else s
  }

  function Failed(s: Getter): Getter {
    s.(i := s.i + 1, phase := if s.i + 1 == MAX_RETRY then Exhausted else Receiving)
  }

  /** The answer to silence; asking again for the file sets the port back. */
  function Silence(request: Datagram, s: Getter): (Getter, seq<Datagram>) {
    if s.next > 0 then (Failed(s), [AckPacket(s.next)]) else (Failed(s.(port := TFTP_PORT)), [request])
  }

  /** The answer to a packet other than DATA. */
  function Missed(s: Getter, illegal: bool): (Getter, seq<Datagram>) {
    (Failed(s), if illegal then [IllegalOperation()] else [])
  }

  /** A packet of the peer that is not refused. */
  function Take(s: Getter, d: Datagram): (Getter, seq<Datagram>) {
    var r := Received(d, MAX_FILE_BUFFER);
    var t := if s.first then s.(section := Adapts(s.section, |r|), first := false) else s;
    if Opcode(d) != DATA then Missed(t, Opcode(d) > 5)
    else
      var k := s.next + 1;
      var full := t.section + 4;
      (t.(next := k, written := s.written + r[4..], i := 0,
          phase := if |r| == full then Receiving else if |r| < full then Complete else Oversize),
       [AckPacket(k)] + if |r| < full then [AckPacket(k)] else [])
  }

  function Step(request: Datagram, s: Getter, e: Event): (Getter, seq<Datagram>) {
    if s.phase != Receiving then (s, [])
    else
      var t := Learnt(s, e);
      match e
      case Timeout => Silence(request, t)
      case Foreign(_, _) => (t, [])
      case Packet(d, _) => if t.tid != t.port then (t, [UnknownTid()]) else Take(t, d)
  }

  const START := Getter(Receiving, 0, [], 512, true, 0, 0, 0)

  function Run(request: Datagram, events: seq<Event>): (Getter, seq<Datagram>) {
    if events == [] then (START, [])
    else
      var (s, sent) := Run(request, events[..|events| - 1]);
      var (t, more) := Step(request, s, events[|events| - 1]);
      (t, sent + more)
  }

  /** The client was still receiving before the last event. */
  ghost predicate Live(request: Datagram, events: seq<Event>) {
    events == [] || Run(request, events[..|events| - 1]).0.phase == Receiving
  }

  lemma RunSnoc(request: Datagram, events: seq<Event>, e: Event)
    ensures var (s, sent) := Run(request, events);
      var (t, more) := Step(request, s, e);
      Run(request, events + [e]) == (t, sent + more)
  {
    assert (events + [e])[..|events|] == events;
  }

  // ---------- end of file ----------

  function Kept(size: nat): nat { if size <= MAX_FILE_BUFFER - 4 then size else MAX_FILE_BUFFER - 4 }

  /** The client takes block k for the last one exactly when the sender does, for every k. */
  ghost predicate LastAgrees(blocks: seq<seq<byte>>, d: int)
    requires blocks != []
  {
    forall k :: 0 <= k < |blocks| ==>
      (Kept(|blocks[k]|) != Adapts(512, 4 + Kept(|blocks[0]|)) <==> |blocks[k]| != d)
  }

  /** Chunks above 1020 bytes are cut on arrival, and then a last block of 1020 bytes or more looks full. */
  lemma LastAgreesIff(file: seq<byte>, d: BlockSize)
    ensures var bs := Blocks(file, d);
      && bs != []
      && (LastAgrees(bs, d) <==>
          if |file| < d then |file| < 512 else 512 <= d && (d <= 1020 || |file| % d < 1020))
  {
    BlocksPartition(file, d);
    LastBlock(file, d);
    var bs := Blocks(file, d);
    if |file| < d {
      assert bs == [file];
    } else {
      assert |bs[0]| == d;
      assert |bs[|bs| - 1]| == |file| % d;
    }
  }

  /** The packets of the first n blocks, as they would arrive from a sender without trouble. */
  ghost function Arrivals(blocks: seq<seq<byte>>, d: BlockSize, n: nat, port: Port): (r: seq<Event>)
    requires Chunked(blocks, d) && n <= |blocks|
    ensures |r| == n
  {
    if n == 0 then [] else Arrivals(blocks, d, n - 1, port) + [Packet(DataPacket(n, blocks[n - 1]), port)]
  }

  lemma ArrivalTaken(s: Getter, k: nat, block: seq<byte>)
    requires |block| <= MAX_DATA_SIZE
    ensures var t := Take(s, DataPacket(k, block)).0;
      var section := if s.first then Adapts(s.section, 4 + Kept(|block|)) else s.section;
      && t.section == section && !t.first && t.tid == s.tid && t.port == s.port
      && t.written == s.written + block[..Kept(|block|)]
      && t.phase == if Kept(|block|) == section then Receiving
                    else if Kept(|block|) < section then Complete else Oversize
  {
    var d: Datagram := DataPacket(k, block);
    DataRoundTrip(k, block);
    assert Opcode(d) == DATA;
    assert Received(d, MAX_FILE_BUFFER)[4..] == block[..Kept(|block|)];
  }

  /** The chunk size the client learns from the first block. */
  function Settled(blocks: seq<seq<byte>>): int
    requires blocks != []
  {
    Adapts(512, 4 + Kept(|blocks[0]|))
  }

  /** The client waits for block n + 1. */
  ghost predicate Waits(s: Getter, blocks: seq<seq<byte>>, n: nat, port: Port)
    requires blocks != []
  {
    && s.phase == Receiving && s.first == (n == 0) && s.section == (if n == 0 then 512 else Settled(blocks))
    && (if n == 0 then s.tid == 0 else s.tid == s.port == port)
  }

  /** The client when the first n blocks have arrived. */
  ghost function Fed(request: Datagram, blocks: seq<seq<byte>>, d: BlockSize, n: nat, port: Port): Getter
    requires Chunked(blocks, d) && n <= |blocks|
  {
    if n == 0 then START
    else Step(request, Fed(request, blocks, d, n - 1, port), Packet(DataPacket(n, blocks[n - 1]), port)).0
  }

  lemma {:induction false} FedIsRun(request: Datagram, blocks: seq<seq<byte>>, d: BlockSize, n: nat, port: Port)
    requires Chunked(blocks, d) && n <= |blocks|
    ensures Fed(request, blocks, d, n, port) == Run(request, Arrivals(blocks, d, n, port)).0
  {
    if n > 0 {
      FedIsRun(request, blocks, d, n - 1, port);
      assert Arrivals(blocks, d, n, port)[..n - 1] == Arrivals(blocks, d, n - 1, port);
    }
  }

  lemma NextArrival(request: Datagram, blocks: seq<seq<byte>>, d: BlockSize, n: nat, port: Port)
    requires Chunked(blocks, d) && n < |blocks| && Waits(Fed(request, blocks, d, n, port), blocks, n, port)
    ensures var s, t := Fed(request, blocks, d, n, port), Fed(request, blocks, d, n + 1, port);
      var kept := Kept(|blocks[n]|);
      && t.written == s.written + blocks[n][..kept]
      && (if kept == Settled(blocks) then Waits(t, blocks, n + 1, port)
          else t.phase == if kept < Settled(blocks) then Complete else Oversize)
  {
    var s, e := Fed(request, blocks, d, n, port), Packet(DataPacket(n + 1, blocks[n]), port);
    ArrivalTaken(Learnt(s, e), n + 1, blocks[n]);
    assert Step(request, s, e).0 == Take(Learnt(s, e), e.d).0;
  }

  /** While blocks look full, the client goes on and holds what fits its buffer of each of them. */
  lemma {:induction false} FullBlocksTaken(request: Datagram, blocks: seq<seq<byte>>, d: BlockSize, n: nat, port: Port)
    requires Chunked(blocks, d) && n < |blocks| && (n > 0 ==> Kept(d) == Settled(blocks))
    ensures Waits(Fed(request, blocks, d, n, port), blocks, n, port)
    ensures |Fed(request, blocks, d, n, port).written| == n * Kept(d)
  {
    if n > 0 {
      FullBlocksTaken(request, blocks, d, n - 1, port);
      NextArrival(request, blocks, d, n - 1, port);
      Times(n, Kept(d));
    }
  }

  lemma OneWholeTaken(request: Datagram, blocks: seq<seq<byte>>, d: BlockSize, n: nat, port: Port)
    requires Chunked(blocks, d) && n + 1 < |blocks| && d == Settled(blocks) && d <= MAX_FILE_BUFFER - 4
    ensures Fed(request, blocks, d, n + 1, port).written == Fed(request, blocks, d, n, port).written + blocks[n]
  {
    FullBlocksTaken(request, blocks, d, n, port);
    NextArrival(request, blocks, d, n, port);
    assert blocks[n][..Kept(d)] == blocks[n];
  }

  lemma {:induction false} WholeBlocksTaken(request: Datagram, blocks: seq<seq<byte>>, d: BlockSize, n: nat, port: Port)
    requires Chunked(blocks, d) && n < |blocks| && (n > 0 ==> d == Settled(blocks)) && d <= MAX_FILE_BUFFER - 4
    ensures Fed(request, blocks, d, n, port).written == Flatten(blocks[..n])
  {
    if n > 0 {
      WholeBlocksTaken(request, blocks, d, n - 1, port);
      OneWholeTaken(request, blocks, d, n - 1, port);
      FlattenPrefix(blocks, n - 1);
    }
  }

  lemma Times(n: nat, k: nat)
    requires n > 0
    ensures n * k == (n - 1) * k + k
  {
  }

  /** A client that has ended stays as it is. */
  lemma {:induction false} EndedStays(request: Datagram, blocks: seq<seq<byte>>, d: BlockSize, m: nat, n: nat,
                                      port: Port)
    requires Chunked(blocks, d) && m <= n <= |blocks| && Fed(request, blocks, d, m, port).phase != Receiving
    ensures Fed(request, blocks, d, n, port) == Fed(request, blocks, d, m, port)
    decreases n
  {
    if m < n {
      EndedStays(request, blocks, d, m, n - 1, port);
    }
  }

  /** The client has completed with the file of the sender. */
  ghost predicate Holds(s: Getter, blocks: seq<seq<byte>>) { s.phase == Complete && s.written == Flatten(blocks) }

  lemma SmallFile(request: Datagram, blocks: seq<seq<byte>>, d: BlockSize, port: Port)
    requires Chunked(blocks, d) && |blocks| == 1
    ensures Holds(Fed(request, blocks, d, 1, port), blocks) <==> |blocks[0]| < 512
  {
    NextArrival(request, blocks, d, 0, port);
    SingleBlock(blocks);
    assert |blocks[0]| < 512 ==> blocks[0][..Kept(|blocks[0]|)] == blocks[0];
  }

  /** A first chunk below 512 bytes is taken for the last. */
  lemma FirstEnds(request: Datagram, blocks: seq<seq<byte>>, d: BlockSize, port: Port)
    requires Chunked(blocks, d) && |blocks| > 1 && d < 512
    ensures var s := Fed(request, blocks, d, 1, port); s.phase == Complete && s.written == blocks[0]
  {
    assert Fed(request, blocks, d, 0, port) == START;
    NextArrival(request, blocks, d, 0, port);
    assert blocks[0][..d] == blocks[0];
  }

  /** So chunks below 512 bytes yield the file only if nothing follows the first. */
  lemma TinyChunks(request: Datagram, blocks: seq<seq<byte>>, d: BlockSize, port: Port)
    requires Chunked(blocks, d) && |blocks| > 1 && d < 512
    ensures Holds(Fed(request, blocks, d, |blocks|, port), blocks) <==> blocks[0] == Flatten(blocks)
  {
    FirstEnds(request, blocks, d, port);
    EndedStays(request, blocks, d, 1, |blocks|, port);
  }

  lemma MoreThanKept(n: nat, d: nat, kept: nat, last: nat, keptLast: nat)
    requires n > 0 && kept < d && keptLast <= last
    ensures n * kept + keptLast < n * d + last
  {
    assert n * d - n * kept == n * (d - kept);
    assert n * (d - kept) > 0;
  }

  lemma UsualChunks(request: Datagram, blocks: seq<seq<byte>>, d: BlockSize, port: Port)
    requires Chunked(blocks, d) && |blocks| > 1 && 512 <= d
    requires |Flatten(blocks)| == (|blocks| - 1) * d + |blocks[|blocks| - 1]|
    ensures Holds(Fed(request, blocks, d, |blocks|, port), blocks) <==> d <= 1020
  {
    var last := |blocks| - 1;
    FullBlocksTaken(request, blocks, d, last, port);
    NextArrival(request, blocks, d, last, port);
    if d <= 1020 {
      WholeBlocksTaken(request, blocks, d, last, port);
      FlattenPrefix(blocks, last);
      assert blocks[..last + 1] == blocks;
      assert blocks[last][..Kept(|blocks[last]|)] == blocks[last];
    } else {
      MoreThanKept(last, d, Kept(d), |blocks[last]|, Kept(|blocks[last]|));
    }
  }

  /** From a sender without trouble, every block arriving once and in order, the client gets the file
      exactly when: it is below one chunk and below 512 bytes; or chunks have 512 to 1020 bytes; or it is a
      single full chunk below 512. */
  lemma FileArrivesIff(request: Datagram, file: seq<byte>, d: BlockSize, port: Port)
    ensures var bs := Blocks(file, d);
      && Chunked(bs, d) && Flatten(bs) == file
      && (Holds(Run(request, Arrivals(bs, d, |bs|, port)).0, bs) <==>
          if |file| < d then |file| < 512 else 512 <= d <= 1020 || (|file| == d && d < 512))
  {
    BlocksPartition(file, d);
    var bs := Blocks(file, d);
    FedIsRun(request, bs, d, |bs|, port);
    if |file| < d {
      SmallFile(request, bs, d, port);
    } else if d < 512 {
      TinyChunks(request, bs, d, port);
      assert bs[0] == file[..d];
      assert |file| == d ==> bs[0] == file;
    } else {
      FileSize(file, d);
      UsualChunks(request, bs, d, port);
    }
  }
}
