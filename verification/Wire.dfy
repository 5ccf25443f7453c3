/** Packets byte by byte (RFC 1350, section 5), without the programs' codecs and constants: what the runs of
    the five transfer functions are told in. */
module Wire {
  import opened Packets

  /** The unsigned number in the third and fourth byte. */
  function Number(d: Datagram): nat { 256 * (d[2] as int) + d[3] as int }

  /** A DATA packet of the peer; the programs do not insist on the first byte. */
  predicate Block(e: Event) { e.Packet? && e.d[1] == 3 }

  predicate BlockNumbered(e: Event, k: nat) { Block(e) && Number(e.d) == k % 65536 }

  predicate AckNumbered(e: Event, k: nat) { e.Packet? && e.d[1] == 4 && Number(e.d) == k % 65536 }

  /** An opcode above 5 that is read as a signed byte. */
  predicate BadOpcode(e: Event) { e.Packet? && 5 < e.d[1] < 128 }

  function AckBytes(k: nat): Datagram { [0, 4, k / 256 % 256, k % 256] }

  function DataBytes(k: nat, block: seq<byte>): seq<byte> { [0, 3, k / 256 % 256, k % 256] + block }

  /** An error packet: code, text, NUL. */
  function ErrorBytes(code: byte, text: string): seq<byte> { [0, 5, 0, code] + Ascii(text) + [0] }

  /** How the programs read a packet: the number as it stands, the opcode as a signed byte. */
  lemma ReadAs(d: Datagram)
    ensures BlockNumber(d) == BlockNumberInt(d) == Number(d)
    ensures Opcode(d) == DATA <==> d[1] == 3
    ensures Opcode(d) == ACK <==> d[1] == 4
    ensures Opcode(d) > 5 <==> 5 < d[1] < 128
  {
    DecodersAgree(d);
  }

  /** How they print one, from a counter of any width. */
  lemma PrintedAs(k: nat, block: seq<byte>)
    ensures AckPacket(k) == AckPacket(k % WRAP) == AckBytes(k)
    ensures DataPacket(k, block) == DataPacket(k % WRAP, block) == DataBytes(k, block)
  {
    AckWraps(k);
    assert AckPacket(k)[2] == AckPacket(k % WRAP)[2] && AckPacket(k)[3] == AckPacket(k % WRAP)[3];
  }
}
