/** TFTP packets as the programs build and read them: byte buffers whose first four bytes
    are the opcode and a 16-bit block number, high byte first (RFC 1350, section 5). */
module Packets {
  type byte = x: int | 0 <= x < 256
  type uint16 = x: int | 0 <= x < WRAP

  const WRAP := 65536
  const RETRIES := 3
  const MAX_ACK_FREQ := 16
  const MAX_DATA_SIZE := 1024
  const SLOT_SIZE := MAX_DATA_SIZE + 12
  const DATA := 3
  const ACK := 4
  const ERR := 5

  /** A datagram an honest peer can send: a full header, and at most MAX_DATA_SIZE bytes after it. */
  type Datagram = d: seq<byte> | 4 <= |d| <= MAX_DATA_SIZE + 4 witness [0, 0, 0, 0]

  /** A UDP port: requests go to TFTP_PORT; tftpd answers each from a socket of its own, on another port. */
  type Port = p: int | 0 < p < 65536 witness TFTP_PORT

  const TFTP_PORT := 69

  /** What one wait on the socket yields: nothing in time (or a receive error, which the programs
      treat alike), a datagram from another host, or a datagram from the peer's, and the port it came from. */
  datatype Event =
    | Timeout
    | Foreign(f: Datagram, port: Port := TFTP_PORT)
    | Packet(d: Datagram, port: Port := TFTP_PORT)

  /** The port an event came from, 0 for none. */
  function Source(e: Event): nat { if e == Timeout then 0 else e.port }

  /** The port in the address structure a wait fills in: silence leaves there what was there before. */
  function Heard(port: nat, e: Event): nat { if e == Timeout then port else e.port }

  /** The values of `ackfreq` and of `datasize` with which the programs transfer anything: each command line
      also lets some through with which they do not (0 for tftpc's `ackfreq`, a `datasize` below 1). */
  type Window = w: int | 1 <= w <= MAX_ACK_FREQ witness 1

  type BlockSize = d: int | 1 <= d <= MAX_DATA_SIZE witness 1

  /** C's `%`: the remainder takes the sign of the dividend. */
  function CRem(a: int, b: int): int
    requires b > 0
  {
    if a >= 0 then a % b else -((-a) % b)
  }

  /** A 16-bit counter that follows a true index keeps following it. */
  lemma NextCount(k: nat)
    ensures (k % WRAP + 1) % WRAP == (k + 1) % WRAP
  {
  }

  // ---------- encoding ----------

  /** `(c & 0xFF00) >> 8` and `c & 0x00FF`, on a two's-complement integer. */
  function HighByte(c: int): byte { (c / 256) % 256 }

  function LowByte(c: int): byte { c % 256 }

  function AckPacket(c: int): Datagram { [0, ACK, HighByte(c), LowByte(c)] }

  function DataPacket(c: int, payload: seq<byte>): seq<byte> {
    [0, DATA, HighByte(c), LowByte(c)] + payload
  }

  function Ascii(s: string): (r: seq<byte>)
    ensures |r| == |s|
  {
    seq(|s|, i requires 0 <= i < |s| => s[i] as int % 256)
  }

  /** The error datagram printed with "%c%c%c%c<text>%c". */
  function ErrorPacket(code: byte, text: string): (r: seq<byte>)
    ensures |r| == 5 + |text| && r[1] == ERR
  {
    [0, ERR, 0, code] + Ascii(text) + [0]
  }

  // ---------- decoding ----------

  /** A byte read through a (signed) `char *`. */
  function SignedChar(b: byte): int { if b < 128 then b else b - 256 }

  /** `x & 0xff00` and `x & 0x00ff` on a two's-complement integer. */
  function MaskHigh(x: int): int { x % WRAP - x % 256 }

  function MaskLow(x: int): int { x % 256 }

  /** The opcode as an `int` read through a `char *`. */
  function Opcode(d: Datagram): int { SignedChar(d[1]) }

  /** The block number as tftpd and tftpc decode it, into an `unsigned short`. */
  function BlockNumber(d: Datagram): uint16 {
    var rcount: uint16 := (SignedChar(d[2]) * 256) % WRAP;
    var masked: uint16 := MaskHigh(rcount);
    (masked + MaskLow(SignedChar(d[3]))) % WRAP
  }

  /** The block number as tftp_client decodes it, into an `int`. */
  function BlockNumberInt(d: Datagram): int {
    MaskHigh(SignedChar(d[2]) * 256) + MaskLow(SignedChar(d[3]))
  }

  function Payload(d: Datagram): seq<byte> { d[4..] }

  lemma SplitBytes(c: int)
    ensures HighByte(c) * 256 + LowByte(c) == c % WRAP
  {
    var q := c / 256;
    assert c == q * 256 + c % 256;
    assert q == (q / 256) * 256 + q % 256;
    assert c == (q / 256) * WRAP + (q % 256) * 256 + c % 256;
  }

  /** Sign extension of either byte does no harm: both decoders read the two bytes as an unsigned number. */
  lemma DecodersAgree(d: Datagram)
    ensures BlockNumber(d) == BlockNumberInt(d) == (d[2] as int) * 256 + d[3] as int
  {
    var h := SignedChar(d[2]) * 256;
    if d[2] >= 128 {
      assert h == (d[2] as int) * 256 - WRAP;
      assert h % WRAP == (d[2] as int) * 256;
    }
  }

  /** An acknowledgement carries its number modulo 2^16, whatever integer it was printed from. */
  lemma AckRoundTrip(c: int)
    ensures Opcode(AckPacket(c)) == ACK
    ensures BlockNumber(AckPacket(c)) == BlockNumberInt(AckPacket(c)) == c % WRAP
  {
    SplitBytes(c);
    DecodersAgree(AckPacket(c));
  }

  lemma DataRoundTrip(c: int, payload: seq<byte>)
    requires |payload| <= MAX_DATA_SIZE
    ensures var d: Datagram := DataPacket(c, payload);
      Opcode(d) == DATA && BlockNumber(d) == BlockNumberInt(d) == c % WRAP && Payload(d) == payload
  {
    SplitBytes(c);
    DecodersAgree(DataPacket(c, payload));
  }

  lemma AckNumber(c: int)
    ensures Opcode(AckPacket(c)) == ACK && BlockNumber(AckPacket(c)) == c % WRAP
  {
    AckRoundTrip(c);
  }

  lemma DataNumber(c: int, payload: seq<byte>)
    requires |payload| <= MAX_DATA_SIZE
    ensures var d: Datagram := DataPacket(c, payload); Opcode(d) == DATA && BlockNumber(d) == c % WRAP
  {
    DataRoundTrip(c, payload);
  }

  /** ACKs printed from equal numbers modulo 2^16 are the same bytes. */
  lemma AckWraps(c: int)
    ensures AckPacket(c) == AckPacket(c % WRAP)
  {
    SplitBytes(c);
    SplitBytes(c % WRAP);
  }

  /** `ack_packet`: prints the header (and the terminating NUL of sprintf), then fills in the number. */
  method FillAck(block: int, buf: array<byte>) returns (len: nat)
    requires buf.Length >= 5
    modifies buf
    ensures len == 4 && buf[..len] == AckPacket(block)
    ensures buf[4] == 0 && buf[5..] == old(buf[5..])
  {
    buf[0], buf[1], buf[2], buf[3], buf[4] := 0, ACK, 0, 0, 0;
    len := 4;
    buf[2] := HighByte(block);
    buf[3] := LowByte(block);
  }
}
