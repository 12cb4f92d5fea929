/**
 * Bytes and the 4-byte big-endian length prefix (`struct.pack('>I', n)` and
 * `struct.unpack('>I', b)[0]`) that every numbered snapshot puts in front of
 * a serialized message on the wire.
 */
module Bytes {
  import opened Wrappers

  type byte = x: int | 0 <= x < 256

  /** Size of the length prefix (`CHUNK_SIZE` of the async protocols). */
  const CHUNK_SIZE: nat := 4

  /** `struct.pack('>I', n)` accepts exactly the unsigned 32-bit range. */
  const UINT32_LIMIT: nat := 0x1_0000_0000

  function Pack32(n: nat): (b: seq<byte>)
    requires n < UINT32_LIMIT
    ensures |b| == CHUNK_SIZE
  {
    [n / 0x100_0000, (n / 0x1_0000) % 256, (n / 256) % 256, n % 256]
  }

  function Unpack32(b: seq<byte>): (n: nat)
    requires |b| == CHUNK_SIZE
    ensures n < UINT32_LIMIT
  {
    (b[0] as int) * 0x100_0000 + (b[1] as int) * 0x1_0000 + (b[2] as int) * 256 + b[3] as int
  }

  /** Unpacking a packed length gives the length back. */
  lemma UnpackPack(n: nat)
    requires n < UINT32_LIMIT
    ensures Unpack32(Pack32(n)) == n
  {
    var b := Pack32(n);
    var q1 := n / 256;
    var q2 := q1 / 256;
    assert n == q1 * 256 + n % 256;
    assert q1 == q2 * 256 + q1 % 256;
    assert q2 == (q2 / 256) * 256 + q2 % 256;
    assert n / 0x1_0000 == q2;
    assert n / 0x100_0000 == q2 / 256;
  }

  /** Packing an unpacked prefix gives the same four bytes back. */
  lemma PackUnpack(b: seq<byte>)
    requires |b| == CHUNK_SIZE
    ensures Pack32(Unpack32(b)) == b
  {
    var n := Unpack32(b);
    assert n / 256 == (b[0] as int) * 0x1_0000 + (b[1] as int) * 256 + b[2] as int;
    assert n / 0x1_0000 == (b[0] as int) * 256 + b[1] as int;
    assert n / 0x100_0000 == b[0];
  }

  /** Different lengths get different prefixes. */
  lemma Pack32Injective(m: nat, n: nat)
    requires m < UINT32_LIMIT && n < UINT32_LIMIT
    ensures Pack32(m) == Pack32(n) ==> m == n
  {
    if Pack32(m) == Pack32(n) {
      UnpackPack(m);
      UnpackPack(n);
    }
  }

  /** Whether a payload can be framed at all (otherwise `struct.pack` raises). */
  predicate Framable(p: seq<byte>) {
    |p| < UINT32_LIMIT
  }

  /** A frame: the 4-byte big-endian length of the payload, then the payload. */
  function Frame(p: seq<byte>): (f: seq<byte>)
    requires Framable(p)
  {
    Pack32(|p|) + p
  }

  /**
   * The reference reader of a frame at the front of a byte stream: the
   * payload and the rest of the stream, or None while too few bytes are there.
   */
  function Unframe(s: seq<byte>): (r: Option<(seq<byte>, seq<byte>)>)
    ensures r.Some? ==> |r.value.0| + CHUNK_SIZE + |r.value.1| == |s|
  {
    if |s| < CHUNK_SIZE then None
    else
      var n := Unpack32(s[..CHUNK_SIZE]);
      if |s| - CHUNK_SIZE < n then None
      else Some((s[CHUNK_SIZE..CHUNK_SIZE + n], s[CHUNK_SIZE + n..]))
  }

  /** Frame round trip: reading a frame back gives the payload and leaves what followed. */
  lemma UnframeFrame(p: seq<byte>, rest: seq<byte>)
    requires Framable(p)
    ensures Unframe(Frame(p) + rest) == Some((p, rest))
  {
    var s := Frame(p) + rest;
    assert s[..CHUNK_SIZE] == Pack32(|p|);
    UnpackPack(|p|);
    assert s[CHUNK_SIZE..CHUNK_SIZE + |p|] == p;
    assert s[CHUNK_SIZE + |p|..] == rest;
  }

  /** Conversely every stream that yields a frame is that frame followed by the rest. */
  lemma FrameUnframe(s: seq<byte>)
    requires Unframe(s).Some?
    ensures Framable(Unframe(s).value.0)
    ensures s == Frame(Unframe(s).value.0) + Unframe(s).value.1
  {
    var n := Unpack32(s[..CHUNK_SIZE]);
    PackUnpack(s[..CHUNK_SIZE]);
    assert s == s[..CHUNK_SIZE] + s[CHUNK_SIZE..CHUNK_SIZE + n] + s[CHUNK_SIZE + n..];
  }
}
