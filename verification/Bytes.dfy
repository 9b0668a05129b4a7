/** Bytes and flat files: the specification every layer of the data path is compared with. */
module Bytes {

  type byte = x: int | 0 <= x < 256

  function Min(a: nat, b: nat): nat { if a <= b then a else b }

  function Max(a: nat, b: nat): nat { if a >= b then a else b }

  function Zeros(n: nat): seq<byte> { seq(n, i => 0) }

  /** The byte of a flat file at x; everything past the end reads as zero. */
  function At(f: seq<byte>, x: nat): byte { if x < |f| then f[x] else 0 }

  /** Grow with zeros or cut to exactly n bytes. */
  function Resize(f: seq<byte>, n: nat): (r: seq<byte>)
    ensures |r| == n
    ensures forall x :: 0 <= x < n ==> r[x] == At(f, x)
  {
    if n <= |f| then f[..n] else f + Zeros(n - |f|)
  }

  /** Overwrite [off, off + |buf|), growing the file (zero-filled) when it is too short. */
  function FlatWrite(f: seq<byte>, off: nat, buf: seq<byte>): (r: seq<byte>)
    ensures |r| == Max(|f|, off + |buf|)
    ensures forall x :: 0 <= x < |r| ==> r[x] == if off <= x < off + |buf| then buf[x - off] else At(f, x)
  {
    var g := Resize(f, Max(|f|, off + |buf|));
    g[..off] + buf + g[off + |buf|..]
  }

  /** The bytes a read of count bytes at off returns: short at end of file. */
  function FlatRead(f: seq<byte>, off: nat, count: nat): seq<byte> {
    f[Min(off, |f|)..Min(off + count, |f|)]
  }
}
