/** The read or write request: `req_packet` of tftpc.c prints it, `main` of tftpd.c takes it apart. */
module Request {
  import opened Packets

  const BUFSIZ := 8192
  const FILENAME_SIZE := 196
  const MODE_SIZE := 12

  ghost predicate NulFree(s: seq<byte>) { forall i :: 0 <= i < |s| ==> s[i] != 0 }

  function Zeros(n: nat): (r: seq<byte>)
    ensures |r| == n
  {
    seq(n, _ => 0)
  }

  /** What sprintf prints with "%c%c%s%c%s%c" (without its own terminating NUL). */
  function Printed(opcode: byte, filename: seq<byte>, mode: seq<byte>): seq<byte> {
    [0, opcode] + filename + [0] + mode + [0]
  }

  /** The C string at the start of s. */
  function CString(s: seq<byte>): (r: seq<byte>)
    ensures NulFree(r) && r <= s
    ensures |r| < |s| ==> s[|r|] == 0
  {
    if s == [] || s[0] == 0 then []
    else
      var rest := CString(s[1..]);
      assert s == [s[0]] + s[1..];
      [s[0]] + rest
  }

  /** strncpy: at most n characters of the string at src, padded with NULs up to n; the rest of dst stays. */
  function Strncpy(dst: seq<byte>, src: seq<byte>, n: nat): (r: seq<byte>)
    requires n <= |dst|
    ensures |r| == |dst|
  {
    var s := CString(src);
    var t := if |s| <= n then s else s[..n];
    t + Zeros(n - |t|) + dst[n..]
  }

  /** The outcome: the server exits on a bad first byte and ignores other opcodes; Overrun is a string
      that does not end inside its array. */
  datatype Parsed =
    | Malformed
    | Unknown(opcode: int)
    | Overrun
    | Request(opcode: int, filename: seq<byte>, mode: seq<byte>)

  /** The string in an array after strncpy has filled all but its last byte from the string at src. */
  function Field(dst: seq<byte>, src: seq<byte>): (r: seq<byte>)
    requires dst != []
    ensures |r| <= |dst|
  {
    CString(Strncpy(dst, src, |dst| - 1))
  }

  /** What `main` makes of a received buffer, given what its two arrays held before. */
  function Parse(buf: seq<byte>, oldname: seq<byte>, oldmode: seq<byte>): Parsed
    requires |buf| >= 2 && |oldname| == FILENAME_SIZE && |oldmode| == MODE_SIZE
  {
    if buf[0] != 0 then Malformed
    else
      var opcode := SignedChar(buf[1]);
      if opcode != 1 && opcode != 2 then Unknown(opcode)
      else
        var filename := Field(oldname, buf[2..]);
        if |filename| == FILENAME_SIZE || 2 + |filename| + 1 > |buf| then Overrun
        else
          var mode := Field(oldmode, buf[2 + |filename| + 1..]);
          if |mode| == MODE_SIZE then Overrun else Request(opcode, filename, mode)
  }

  /** A NUL-free string followed by a NUL is read back. */
  lemma {:induction false} CStringOf(s: seq<byte>, tail: seq<byte>)
    requires NulFree(s) && (tail == [] || tail[0] == 0)
    ensures CString(s + tail) == s
    decreases |s|
  {
    if s == [] {
      assert s + tail == tail;
    } else {
      CStringOf(s[1..], tail);
      assert (s + tail)[1..] == s[1..] + tail;
    }
  }

  /** A copied string that leaves room for a NUL is read back from the array, whatever was in it. */
  lemma FieldReadsBack(dst: seq<byte>, s: seq<byte>, tail: seq<byte>)
    requires NulFree(s) && tail != [] && tail[0] == 0 && |s| + 1 < |dst|
    ensures Field(dst, s + tail) == s
  {
    var n := |dst| - 1;
    CStringOf(s, tail);
    CStringOf(s, Zeros(n - |s|) + dst[n..]);
    assert Strncpy(dst, s + tail, n) == s + (Zeros(n - |s|) + dst[n..]);
  }

  /** A longer one is not, if the array's last byte was not NUL: what is found then fills the array. */
  lemma LongFieldOverruns(dst: seq<byte>, s: seq<byte>, tail: seq<byte>)
    requires NulFree(s) && tail != [] && tail[0] == 0 && dst != [] && |s| + 1 >= |dst| && dst[|dst| - 1] != 0
    ensures |Field(dst, s + tail)| == |dst|
  {
    var n := |dst| - 1;
    CStringOf(s, tail);
    var r := Strncpy(dst, s + tail, n);
    assert r == s[..n] + [dst[n]];
    CStringOf(r, []);
    assert r + [] == r;
  }

  /** The received buffer: the datagram, and zeros to its end. */
  function Buffer(packet: seq<byte>): seq<byte>
    requires |packet| <= BUFSIZ
  {
    packet + Zeros(BUFSIZ - |packet|)
  }

  /** Where the two strings of a printed request lie in the buffer. */
  lemma BufferSplit(opcode: byte, filename: seq<byte>, mode: seq<byte>)
      returns (buf: seq<byte>, tail1: seq<byte>, tail2: seq<byte>)
    requires |Printed(opcode, filename, mode)| <= BUFSIZ
    ensures buf == Buffer(Printed(opcode, filename, mode))
    ensures 2 + |filename| + 1 <= |buf| && buf[0] == 0 && buf[1] == opcode
    ensures tail1 != [] && tail1[0] == 0 && buf[2..] == filename + tail1
    ensures tail2 != [] && tail2[0] == 0 && buf[2 + |filename| + 1..] == mode + tail2
  {
    var packet := Printed(opcode, filename, mode);
    var zeros := Zeros(BUFSIZ - |packet|);
    buf := Buffer(packet);
    tail1, tail2 := [0] + mode + [0] + zeros, [0] + zeros;
    assert buf[2..] == filename + tail1;
    assert buf[2 + |filename| + 1..] == mode + tail2;
  }

  /** Whatever the server's arrays held, short strings come back as they were printed. */
  lemma ShortRequestReadsBack(opcode: byte, filename: seq<byte>, mode: seq<byte>, oldname: seq<byte>,
                              oldmode: seq<byte>)
    requires opcode in {1, 2} && NulFree(filename) && NulFree(mode) && |filename| <= 194 && |mode| <= 10
    requires |oldname| == FILENAME_SIZE && |oldmode| == MODE_SIZE
    ensures Parse(Buffer(Printed(opcode, filename, mode)), oldname, oldmode)
         == Request(opcode as int, filename, mode)
  {
    var buf, tail1, tail2 := BufferSplit(opcode, filename, mode);
    FieldReadsBack(oldname, filename, tail1);
    FieldReadsBack(oldmode, mode, tail2);
  }

  /** In arrays that hold no NUL, a longer string runs past the end of its array. */
  lemma LongRequestOverruns(opcode: byte, filename: seq<byte>, mode: seq<byte>, oldname: seq<byte>, oldmode: seq<byte>)
    requires opcode in {1, 2} && NulFree(filename) && NulFree(mode) && (|filename| > 194 || |mode| > 10)
    requires |Printed(opcode, filename, mode)| <= BUFSIZ
    requires |oldname| == FILENAME_SIZE && |oldmode| == MODE_SIZE && NulFree(oldname) && NulFree(oldmode)
    ensures Parse(Buffer(Printed(opcode, filename, mode)), oldname, oldmode) == Overrun
  {
    var buf, tail1, tail2 := BufferSplit(opcode, filename, mode);
    if |filename| > 194 {
      LongFieldOverruns(oldname, filename, tail1);
    } else {
      FieldReadsBack(oldname, filename, tail1);
      LongFieldOverruns(oldmode, mode, tail2);
    }
  }

  /** The server reads a request back as it was printed. */
  ghost predicate ReadsBack(opcode: byte, filename: seq<byte>, mode: seq<byte>, oldname: seq<byte>, oldmode: seq<byte>)
    requires |Printed(opcode, filename, mode)| <= BUFSIZ
  {
    |oldname| == FILENAME_SIZE && |oldmode| == MODE_SIZE ==>
      Parse(Buffer(Printed(opcode, filename, mode)), oldname, oldmode) == Request(opcode as int, filename, mode)
  }

  /** A request is read back whatever the server's arrays held exactly for filenames of at most 194 bytes
      and modes of at most 10. */
  lemma RequestRoundTripIff(opcode: byte, filename: seq<byte>, mode: seq<byte>)
    requires opcode in {1, 2} && NulFree(filename) && NulFree(mode)
    requires |Printed(opcode, filename, mode)| <= BUFSIZ
    ensures (forall oldname, oldmode :: ReadsBack(opcode, filename, mode, oldname, oldmode))
            <==> |filename| <= 194 && |mode| <= 10
  {
    if |filename| <= 194 && |mode| <= 10 {
      forall oldname, oldmode ensures ReadsBack(opcode, filename, mode, oldname, oldmode) {
        if |oldname| == FILENAME_SIZE && |oldmode| == MODE_SIZE {
          ShortRequestReadsBack(opcode, filename, mode, oldname, oldmode);
        }
      }
    } else {
      var oldname: seq<byte>, oldmode: seq<byte> := seq(FILENAME_SIZE, _ => 1), seq(MODE_SIZE, _ => 1);
      LongRequestOverruns(opcode, filename, mode, oldname, oldmode);
      assert !ReadsBack(opcode, filename, mode, oldname, oldmode);
    }
  }

  // ---------- the programs ----------

  /** `req_packet` */
  method ReqPacket(opcode: byte, filename: seq<byte>, mode: seq<byte>, buf: array<byte>) returns (len: nat)
    requires |filename| + |mode| + 4 < buf.Length
    modifies buf
    ensures len == |filename| + |mode| + 4 && buf[len] == 0
    ensures buf[..len] == [0, opcode] + filename + [0] + mode + [0] == Printed(opcode, filename, mode)
  {
    var packet := Printed(opcode, filename, mode);
    len := |packet|;
    forall k | 0 <= k < len {
      buf[k] := packet[k];
    }
    buf[len] := 0;
  }

  /** The characters of the string at offset `from` of src, at most n. */
  method CopyCharacters(dst: array<byte>, src: array<byte>, from: nat, n: nat) returns (i: nat)
    requires dst != src && n <= dst.Length && from <= src.Length
    modifies dst
    ensures var s := CString(src[from..]);
      && i == (if |s| <= n then |s| else n) && dst[..i] == s[..i] && dst[i..] == old(dst[..])[i..]
  {
    i := 0;
    ghost var s := CString(src[from..]);
    while i < n && from + i < src.Length && src[from + i] != 0
      invariant i <= n && i <= |s|
      invariant dst[..i] == s[..i] && dst[i..] == old(dst[..])[i..]
    {
      assert src[from..][i] == src[from + i];
      dst[i] := src[from + i];
      i := i + 1;
    }
    assert from + i < src.Length ==> src[from..][i] == src[from + i];
  }

  /** strncpy from offset `from` of src, one character at a time. */
  method CopyString(dst: array<byte>, src: array<byte>, from: nat, n: nat)
    requires dst != src && n <= dst.Length && from <= src.Length
    modifies dst
    ensures dst[..] == Strncpy(old(dst[..]), src[from..], n)
  {
    var i := CopyCharacters(dst, src, from, n);
    ghost var t := dst[..i];
    while i < n
      invariant |t| <= i <= n
      invariant dst[..i] == t + Zeros(i - |t|) && dst[i..] == old(dst[..])[i..]
    {
      ghost var before := dst[..i];
      dst[i] := 0;
      i := i + 1;
      assert dst[..i] == before + [0];
      assert Zeros(i - |t|) == Zeros(i - 1 - |t|) + [0];
    }
    assert dst[..] == dst[..n] + dst[n..];
  }

  /** strlen, and the string itself; the array's length if it holds no NUL. */
  method StringLength(a: array<byte>) returns (len: nat)
    ensures len == |CString(a[..])|
  {
    ghost var s := CString(a[..]);
    len := 0;
    while len < a.Length && a[len] != 0
      invariant len <= |s|
    {
      assert a[..][len] == a[len];
      len := len + 1;
    }
    assert len < a.Length ==> a[..][len] == 0;
  }

  /** One string of the request: strncpy from offset `from` of the buffer, and strlen. */
  method ReadField(field: array<byte>, buf: array<byte>, from: nat) returns (len: nat)
    requires field != buf && field.Length > 0 && from <= buf.Length
    modifies field
    ensures len <= field.Length && field[..len] == Field(old(field[..]), buf[..][from..])
  {
    CopyString(field, buf, from, field.Length - 1);
    assert buf[..][from..] == buf[from..];
    len := StringLength(field);
    assert field[..len] == CString(field[..]);
  }

  /** The request parser in `main`. */
  method ParseRequest(buf: array<byte>, filename: array<byte>, mode: array<byte>) returns (r: Parsed)
    requires buf.Length >= 2 && filename.Length == FILENAME_SIZE && mode.Length == MODE_SIZE
    requires buf != filename && buf != mode && filename != mode
    modifies filename, mode
    ensures r == Parse(buf[..], old(filename[..]), old(mode[..]))
  {
    if buf[0] != 0 {
      return Malformed;
    }
    var opcode := SignedChar(buf[1]);
    if opcode != 1 && opcode != 2 {
      return Unknown(opcode);
    }
    var len := ReadField(filename, buf, 2);
    var bufindex := 2 + len + 1;
    if len == FILENAME_SIZE || bufindex > buf.Length {
      return Overrun;
    }
    var modeLen := ReadField(mode, buf, bufindex);
    if modeLen == MODE_SIZE {
      return Overrun;
    }
    return Request(opcode, filename[..len], mode[..modeLen]);
  }
}
