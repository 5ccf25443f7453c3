/** Cutting a file into blocks and putting it together again (RFC 1350, sections 2 and 6). */
module Chunking {
  import opened Packets

  /** The payloads the `fread` loop of a sender produces, in order: the loop stops after the first short read. */
  function Blocks(file: seq<byte>, d: nat): seq<seq<byte>>
    requires d > 0
    decreases |file|
  {
    if |file| < d then [file] else [file[..d]] + Blocks(file[d..], d)
  }

  /** Concatenation in order. */
  function Flatten(bs: seq<seq<byte>>): seq<byte> {
    if bs == [] then [] else Flatten(bs[..|bs| - 1]) + bs[|bs| - 1]
  }

  /** What a receiver keeps that appends payloads until the first short one. */
  function Reassemble(bs: seq<seq<byte>>, d: nat): seq<byte> {
    if bs == [] then []
    else if |bs[0]| != d then bs[0]
    else bs[0] + Reassemble(bs[1..], d)
  }

  /** Every block is full except the last, which is short (possibly empty). */
  ghost predicate Chunked(bs: seq<seq<byte>>, d: nat) {
    && bs != []
    && (forall i :: 0 <= i < |bs| - 1 ==> |bs[i]| == d)
    && |bs[|bs| - 1]| < d
  }

  /** The file is made of the first blocks. */
  ghost predicate BlockPrefix(bs: seq<seq<byte>>, file: seq<byte>) {
    exists r :: 0 <= r <= |bs| && file == Flatten(bs[..r])
  }

  lemma RestAfter(file: seq<byte>, from: nat, n: nat)
    requires from + n <= |file|
    ensures file[from..][n..] == file[from + n..]
  {
  }

  lemma {:induction false} FlattenCons(b: seq<byte>, bs: seq<seq<byte>>)
    ensures Flatten([b] + bs) == b + Flatten(bs)
    decreases |bs|
  {
    var all := [b] + bs;
    if bs != [] {
      FlattenCons(b, bs[..|bs| - 1]);
      assert all[..|all| - 1] == [b] + bs[..|bs| - 1];
    } else {
      assert all[..|all| - 1] == [];
    }
  }

  lemma {:induction false} FlattenSnoc(bs: seq<seq<byte>>, b: seq<byte>)
    ensures Flatten(bs + [b]) == Flatten(bs) + b
  {
    assert (bs + [b])[..|bs|] == bs;
  }

  lemma SingleBlock(bs: seq<seq<byte>>)
    requires |bs| == 1
    ensures Flatten(bs) == bs[0]
  {
    assert Flatten(bs[..0]) == [];
  }

  lemma MulStrict(a: int, b: int, d: nat)
    requires a < b && 0 < d
    ensures a * d + d <= b * d
  {
    assert (b - a - 1) * d >= 0;
    assert b * d == (b - a - 1) * d + a * d + d;
  }

  /** Euclidean quotients are unique. */
  lemma QuotientUnique(n: nat, d: nat, q: int)
    requires 0 < d && q * d <= n < q * d + d
    ensures n / d == q
  {
    var p := n / d;
    assert p * d <= n < p * d + d;
    if p < q { MulStrict(p, q, d); }
    if q < p { MulStrict(q, p, d); }
  }

  lemma DivStep(n: nat, d: nat)
    requires 0 < d <= n
    ensures n / d == (n - d) / d + 1
  {
    var q := (n - d) / d;
    assert (q + 1) * d == q * d + d;
    QuotientUnique(n, d, q + 1);
  }

  lemma ChunkedCons(b: seq<byte>, bs: seq<seq<byte>>, d: nat)
    requires |b| == d && Chunked(bs, d)
    ensures Chunked([b] + bs, d)
  {
    var all := [b] + bs;
    forall i | 0 <= i < |all| - 1 ensures |all[i]| == d {
      assert all[i] == if i == 0 then b else bs[i - 1];
    }
    assert all[|all| - 1] == bs[|bs| - 1];
  }

  lemma {:induction false} BlocksChunked(file: seq<byte>, d: nat)
    requires d > 0
    ensures Chunked(Blocks(file, d), d)
    decreases |file|
  {
    if |file| >= d {
      BlocksChunked(file[d..], d);
      ChunkedCons(file[..d], Blocks(file[d..], d), d);
    }
  }

  lemma {:induction false} FlattenBlocks(file: seq<byte>, d: nat)
    requires d > 0
    ensures Flatten(Blocks(file, d)) == file
    decreases |file|
  {
    if |file| < d {
      SingleBlock([file]);
    } else {
      FlattenBlocks(file[d..], d);
      FlattenCons(file[..d], Blocks(file[d..], d));
      assert file[..d] + file[d..] == file;
    }
  }

  /** Only the last block is short, and the blocks hold the whole file. */
  lemma BlocksPartition(file: seq<byte>, d: nat)
    requires d > 0
    ensures Chunked(Blocks(file, d), d)
    ensures Flatten(Blocks(file, d)) == file
  {
    BlocksChunked(file, d);
    FlattenBlocks(file, d);
  }

  /** Exactly |file| / d + 1 blocks are sent: a file of whole blocks ends with an empty one. */
  lemma {:induction false} BlockCount(file: seq<byte>, d: nat)
    requires d > 0
    ensures |Blocks(file, d)| == |file| / d + 1
    decreases |file|
  {
    if |file| < d {
      QuotientUnique(|file|, d, 0);
    } else {
      BlockCount(file[d..], d);
      DivStep(|file|, d);
    }
  }

  /** The last block holds the remainder. */
  lemma {:induction false} LastBlock(file: seq<byte>, d: nat)
    requires d > 0
    ensures var bs := Blocks(file, d); bs != [] && |bs[|bs| - 1]| == |file| % d
    decreases |file|
  {
    if |file| < d {
      QuotientUnique(|file|, d, 0);
    } else {
      LastBlock(file[d..], d);
      DivStep(|file|, d);
      var q := (|file| - d) / d;
      assert (q + 1) * d == q * d + d;
    }
  }

  /** Full blocks and the last one make up the size of the file. */
  lemma FileSize(file: seq<byte>, d: nat)
    requires d > 0
    ensures var bs := Blocks(file, d); bs != [] && |file| == (|bs| - 1) * d + |bs[|bs| - 1]|
  {
    BlockCount(file, d);
    LastBlock(file, d);
  }

  /** A block list is what some file is cut into exactly when it is `Chunked`: so a claim about every
      `Chunked` list is a claim about every file. */
  lemma {:induction false} BlocksOfFlatten(bs: seq<seq<byte>>, d: nat)
    requires d > 0 && Chunked(bs, d)
    ensures Blocks(Flatten(bs), d) == bs
    decreases |bs|
  {
    var rest := bs[1..];
    assert bs == [bs[0]] + rest;
    FlattenCons(bs[0], rest);
    if rest == [] {
      assert Flatten(bs) == bs[0];
    } else {
      BlocksOfFlatten(rest, d);
      assert Flatten(bs)[..d] == bs[0];
      assert Flatten(bs)[d..] == Flatten(rest);
    }
  }

  /** A receiver that stops at the first short block rebuilds the file, whatever follows. */
  lemma {:induction false} ReassembleBlocks(file: seq<byte>, d: nat, more: seq<seq<byte>>)
    requires d > 0
    ensures Reassemble(Blocks(file, d) + more, d) == file
    decreases |file|
  {
    if |file| >= d {
      ReassembleBlocks(file[d..], d, more);
      assert (Blocks(file, d) + more)[1..] == Blocks(file[d..], d) + more;
    }
  }

  /** One more block lengthens the reassembled prefix by exactly that block. */
  lemma FlattenPrefix(bs: seq<seq<byte>>, r: nat)
    requires r < |bs|
    ensures Flatten(bs[..r + 1]) == Flatten(bs[..r]) + bs[r]
  {
    assert bs[..r + 1] == bs[..r] + [bs[r]];
    FlattenSnoc(bs[..r], bs[r]);
  }

  // ---------- reading a file ----------

  /** The n bytes from offset `from` on. */
  function Chunk(file: seq<byte>, from: nat, n: nat): (r: seq<byte>)
    requires from + n <= |file|
    ensures |r| == n
  {
    seq(n, i requires 0 <= i < n => file[from + i])
  }

  /** What one `fread` takes at offset `from`. */
  function ReadSize(file: seq<byte>, from: nat, d: nat): (n: nat)
    requires from <= |file|
    ensures from + n <= |file|
  {
    if |file| - from < d then |file| - from else d
  }

  /** Reading on from offset `from` yields the blocks after the first k, and then the file is read. */
  ghost predicate ToRead(bs: seq<seq<byte>>, k: nat, file: seq<byte>, from: nat, d: nat)
    decreases |bs| - k
  {
    && k <= |bs| && from <= |file|
    && (k < |bs| ==>
          var n := ReadSize(file, from, d);
          bs[k] == Chunk(file, from, n) && ToRead(bs, k + 1, file, from + n, d))
  }

  lemma {:induction false} ReadsOn(bs: seq<seq<byte>>, k: nat, file: seq<byte>, from: nat, d: nat)
    requires d > 0 && k < |bs| && from <= |file| && bs[k..] == Blocks(file[from..], d)
    ensures ToRead(bs, k, file, from, d)
    decreases |bs| - k
  {
    var rest, n := file[from..], ReadSize(file, from, d);
    assert bs[k] == bs[k..][0] == rest[..n] == Chunk(file, from, n);
    if n == d {
      RestAfter(file, from, d);
      assert bs[k + 1..] == bs[k..][1..] == Blocks(rest[d..], d);
      ReadsOn(bs, k + 1, file, from + d, d);
    } else {
      assert |bs[k..]| == 1;
    }
  }

  /** The `fread`s of a file yield its blocks. */
  lemma FileReads(file: seq<byte>, d: nat)
    requires d > 0
    ensures ToRead(Blocks(file, d), 0, file, 0, d)
  {
    assert file[0..] == file && Blocks(file, d)[0..] == Blocks(file, d);
    ReadsOn(Blocks(file, d), 0, file, 0, d);
  }

  /** A file of at most one chunk is its first block; a longer one is more than that. */
  lemma AtMostOneChunk(bs: seq<seq<byte>>, d: nat)
    requires d > 0 && Chunked(bs, d)
    ensures |Flatten(bs)| <= d <==> |bs| == 1 || (|bs| == 2 && bs[1] == [])
    ensures if |Flatten(bs)| <= d then Flatten(bs) == bs[0] else |bs[0]| < |Flatten(bs)|
  {
    var rest := bs[1..];
    assert bs == [bs[0]] + rest;
    FlattenCons(bs[0], rest);
    if |bs| > 1 {
      assert rest == [bs[1]] + rest[1..];
      FlattenCons(bs[1], rest[1..]);
    }
  }

  /** Longer prefixes extend shorter ones. */
  lemma {:induction false} FlattenGrows(bs: seq<seq<byte>>, n: nat, r: nat)
    requires n <= r <= |bs|
    ensures Flatten(bs[..n]) <= Flatten(bs[..r])
    decreases r
  {
    if n < r {
      FlattenGrows(bs, n, r - 1);
      FlattenPrefix(bs, r - 1);
    }
  }
}
