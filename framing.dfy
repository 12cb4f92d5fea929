/**
 * The length-prefixed wire format of the async snapshots
 * (talkative_server/talkative_server/async_core.py, talkative_client/talkative_client/async_core.py,
 * talkative_phone/async_core.py): `write` sends `pack('>I', len) + payload`,
 * and `data_received` reassembles payloads from the chunks the event loop
 * reads, steering the size of the next read through `transport.max_size`.
 *
 * The event loop reads at most `transport.max_size` bytes per read (and a
 * read of 0 bytes looks like end of stream); which length it actually
 * gets is up to the network, so chunkings are quantified over.
 */
module Framing {
  import opened Wrappers
  import opened Bytes

  /** A peer address, `(ip, port)` from `get_extra_info('peername')`. */
  datatype Peer = Peer(ip: string, port: int)

  /**
   * The write side of a connection: what was written, whether it was
   * closed, and the read size the protocol asks the event loop for.
   * `broken` is the environment's choice that a write raises BrokenPipeError.
   */
  class Transport {
    var out: seq<byte>
    var closed: bool
    var maxSize: nat
    var broken: bool
    const peer: Peer

    constructor (peer: Peer, maxSize: nat, broken: bool)
      ensures this.peer == peer && this.maxSize == maxSize && this.broken == broken
      ensures out == [] && !closed
    {
      this.peer := peer;
      this.maxSize := maxSize;
      this.broken := broken;
      out := [];
      closed := false;
    }

    /**
     * `write(msg, transport)`: the 4-byte big-endian length then exactly the
     * payload; a broken pipe closes the transport instead, and a closed
     * transport drops the write. `struct.pack` raises for a payload of 2**32
     * bytes or more, and nothing catches that (`raised`).
     */
    method Write(payload: seq<byte>) returns (raised: bool)
      modifies this
      ensures raised <==> !Framable(payload)
      ensures raised || old(closed) ==> out == old(out) && closed == old(closed)
      ensures !raised && !old(closed) && !broken ==> out == old(out) + Frame(payload) && !closed
      ensures !raised && !old(closed) && broken ==> out == old(out) && closed
      ensures maxSize == old(maxSize) && broken == old(broken)
    {
      if !Framable(payload) {
        return true;
      }
      raised := false;
      if closed {
        return;
      }
      if broken {
        closed := true;
      } else {
        out := out + Frame(payload);
      }
    }

    method Close()
      modifies this
      ensures closed && out == old(out) && maxSize == old(maxSize) && broken == old(broken)
    {
      closed := true;
    }
  }

  /** What a protocol changes on a transport: its output, whether it is closed, whether its pipe is broken. */
  datatype Wire = Wire(out: seq<byte>, closed: bool, broken: bool)

  function WireOf(t: Transport): Wire
    reads t
  {
    Wire(t.out, t.closed, t.broken)
  }

  /** A transport after `proto.write(payload)`: the frame appended, or, on a broken pipe, closed instead; a closed one unchanged. */
  function Written(w: Wire, payload: seq<byte>): (r: Wire)
    requires Framable(payload)
    ensures r.broken == w.broken
    ensures w.closed ==> r == w
    ensures !w.closed && !w.broken ==> r.out == w.out + Frame(payload) && !r.closed
    ensures !w.closed && w.broken ==> r.out == w.out && r.closed
  {
    if w.closed then w else if w.broken then w.(closed := true) else w.(out := w.out + Frame(payload))
  }

  /** `proto.write(payload, t)` took `t` from `w` (nothing changes when the length does not fit and `struct.pack` raises). */
  predicate WroteTo(t: Transport, w: Wire, payload: seq<byte>)
    reads t
  {
    WireOf(t) == if Framable(payload) then Written(w, payload) else w
  }

  /** Whether `data_received` caps the payload read size at the announced length (server, phone) or not (client). */
  datatype Variant = Capped | Uncapped

  /** The reassembly state: `long_data`, `cur_size`, `transport.max_size` and `def_size`. */
  datatype RxState = RxState(longData: seq<byte>, curSize: nat, maxSize: nat, defSize: nat)

  /** `connection_made`: the event loop's read size is remembered as `def_size` and the next read is the 4-byte header. */
  function Initial(defSize: nat): (s: RxState)
    ensures s.longData == [] && s.curSize == CHUNK_SIZE && s.maxSize == CHUNK_SIZE && s.defSize == defSize
  {
    RxState([], CHUNK_SIZE, CHUNK_SIZE, defSize)
  }

  /**
   * One call of `data_received(data)` as written: any chunk of exactly four
   * bytes is a length header; other chunks are buffered until `cur_size`
   * bytes are there, and then the whole buffer is the payload.
   */
  function Step(v: Variant, s: RxState, data: seq<byte>): (r: (RxState, Option<seq<byte>>))
  {
    if |data| == CHUNK_SIZE then
      var size := Unpack32(data);
      var next := if v == Capped then (if size < s.defSize then size else s.defSize) else s.defSize;
      (s.(curSize := size, maxSize := next), None)
    else if s.curSize > |s.longData + data| then
      (s.(longData := s.longData + data), None)
    else
      (s.(longData := [], curSize := CHUNK_SIZE, maxSize := CHUNK_SIZE), Some(s.longData + data))
  }

  /**
   * The state between the size reset and `self.long_data = b''`: the
   * buffer still holds a completed payload; otherwise the step's state.
   */
  function Holding(r: (RxState, Option<seq<byte>>)): RxState {
    if r.1.Some? then r.0.(longData := r.1.value) else r.0
  }

  /** A 4-byte chunk is a header: it sets `cur_size` to its value, is not buffered, and dispatches nothing. */
  lemma HeaderChunk(v: Variant, s: RxState, data: seq<byte>)
    requires |data| == CHUNK_SIZE
    ensures Step(v, s, data).0.curSize == Unpack32(data)
    ensures Step(v, s, data).0.longData == s.longData && Step(v, s, data).1.None?
    ensures v == Capped ==> Step(v, s, data).0.maxSize == if Unpack32(data) < s.defSize then Unpack32(data) else s.defSize
    ensures v == Uncapped ==> Step(v, s, data).0.maxSize == s.defSize
  {
  }

  /**
   * Any other chunk either completes the payload, which is then the whole
   * buffer, with the state reset to the header read, or is buffered and
   * nothing is dispatched.
   */
  lemma BodyChunk(v: Variant, s: RxState, data: seq<byte>)
    requires |data| != CHUNK_SIZE
    ensures var (t, out) := Step(v, s, data);
      (out.Some? <==> |s.longData| + |data| >= s.curSize) &&
      (out.Some? ==> out.value == s.longData + data && t == Initial(s.defSize)) &&
      (out.None? ==> t == s.(longData := s.longData + data))
  {
  }

  /** The payloads dispatched by one step, as a list. */
  function Emitted(o: Option<seq<byte>>): seq<seq<byte>> {
    if o.Some? then [o.value] else []
  }

  function Min(a: nat, b: nat): nat {
    if a < b then a else b
  }

  /** The chunks the event loop reads when every read gets all it asks for: `min(max_size, available)` bytes. */
  function FullReads(v: Variant, s: RxState, stream: seq<byte>): (r: (RxState, seq<seq<byte>>))
    decreases |stream|
  {
    if stream == [] || s.maxSize == 0 then (s, [])
    else
      var k := Min(s.maxSize, |stream|);
      var step := Step(v, s, stream[..k]);
      var tail := FullReads(v, step.0, stream[k..]);
      (tail.0, Emitted(step.1) + tail.1)
  }

  /** One full read, unfolded. */
  lemma FullReadsUnfold(v: Variant, s: RxState, stream: seq<byte>, k: nat)
    requires stream != [] && s.maxSize != 0 && k == Min(s.maxSize, |stream|)
    ensures FullReads(v, s, stream) ==
      (FullReads(v, Step(v, s, stream[..k]).0, stream[k..]).0,
       Emitted(Step(v, s, stream[..k]).1) + FullReads(v, Step(v, s, stream[..k]).0, stream[k..]).1)
  {
  }

  /** The concatenation of the frames of a list of payloads. */
  function Frames(ps: seq<seq<byte>>): seq<byte>
    requires forall i :: 0 <= i < |ps| ==> Framable(ps[i])
  {
    if ps == [] then [] else Frame(ps[0]) + Frames(ps[1..])
  }

  /** The payload sizes for which the reader as written is correct under full reads. */
  predicate NiceSize(p: seq<byte>, defSize: nat) {
    0 < |p| <= defSize && |p| != CHUNK_SIZE && Framable(p)
  }

  /** One frame under full reads with the capped reader: header, then the payload in one read. */
  lemma FullReadsOneFrame(s: RxState, p: seq<byte>, rest: seq<byte>)
    requires s == Initial(s.defSize) && NiceSize(p, s.defSize)
    ensures FullReads(Capped, s, Frame(p) + rest) ==
      (FullReads(Capped, s, rest).0, [p] + FullReads(Capped, s, rest).1)
  {
    var stream := Frame(p) + rest;
    assert stream[..CHUNK_SIZE] == Pack32(|p|);
    UnpackPack(|p|);
    var t := Step(Capped, s, stream[..CHUNK_SIZE]).0;
    assert Step(Capped, s, stream[..CHUNK_SIZE]).1.None?;
    assert t.maxSize == |p| && t.curSize == |p| && t.longData == [];
    var stream' := stream[CHUNK_SIZE..];
    assert stream' == p + rest;
    assert stream'[..|p|] == p;
    assert stream'[|p|..] == rest;
    assert [] + p == p;
    assert Step(Capped, t, p) == (s, Some(p));
    FullReadsUnfold(Capped, t, stream', |p|);
    assert FullReads(Capped, t, stream') == (FullReads(Capped, s, rest).0, [p] + FullReads(Capped, s, rest).1);
    FullReadsUnfold(Capped, s, stream, CHUNK_SIZE);
    assert [] + FullReads(Capped, t, stream').1 == FullReads(Capped, t, stream').1;
  }

  /**
   * The reader as written works when every read is full and every payload
   * is non-empty, not four bytes long, and fits one read: the server and
   * phone then dispatch exactly the payloads that were framed.
   */
  lemma {:induction false} FullReadsDeliver(defSize: nat, ps: seq<seq<byte>>)
    requires forall i :: 0 <= i < |ps| ==> Framable(ps[i])
    requires forall i :: 0 <= i < |ps| ==> NiceSize(ps[i], defSize)
    ensures FullReads(Capped, Initial(defSize), Frames(ps)) == (Initial(defSize), ps)
  {
    if ps != [] {
      FullReadsOneFrame(Initial(defSize), ps[0], Frames(ps[1..]));
      FullReadsDeliver(defSize, ps[1..]);
      assert Frames(ps) == Frame(ps[0]) + Frames(ps[1..]);
      assert [ps[0]] + ps[1..] == ps;
    }
  }

  /**
   * The first way the reader as written fails: a four-byte piece of a
   * payload is taken for a header. With full reads this happens to every
   * payload of `def_size + 4` bytes: its last piece re-announces a length
   * and the payload is never dispatched.
   */
  lemma FourBytePieceIsTakenAsHeader(defSize: nat, p: seq<byte>)
    requires defSize > CHUNK_SIZE && |p| == defSize + CHUNK_SIZE && Framable(p)
    ensures FullReads(Capped, Initial(defSize), Frame(p)).1 == []
    ensures FullReads(Capped, Initial(defSize), Frame(p)).0.curSize == Unpack32(p[defSize..])
  {
    var s0 := Initial(defSize);
    var f := Frame(p);
    assert f[..CHUNK_SIZE] == Pack32(|p|);
    UnpackPack(|p|);
    var s1 := Step(Capped, s0, f[..CHUNK_SIZE]).0;
    assert s1.maxSize == defSize && s1.curSize == |p|;
    var f1 := f[CHUNK_SIZE..];
    assert f1 == p;
    var s2 := Step(Capped, s1, f1[..defSize]).0;
    assert Step(Capped, s1, f1[..defSize]).1.None?;
    assert s2.longData == p[..defSize] && s2.maxSize == defSize;
    var f2 := f1[defSize..];
    assert f2 == p[defSize..] && |f2| == CHUNK_SIZE;
    assert f2[..CHUNK_SIZE] == f2;
    var s3 := Step(Capped, s2, f2).0;
    assert Step(Capped, s2, f2).1.None?;
    assert s3.curSize == Unpack32(p[defSize..]);
    assert f2[CHUNK_SIZE..] == [];
    FullReadsUnfold(Capped, s2, f2, CHUNK_SIZE);
    assert f1[defSize..] == f2;
    FullReadsUnfold(Capped, s1, f1, defSize);
    FullReadsUnfold(Capped, s0, f, CHUNK_SIZE);
  }

  /**
   * The second way: the client's reader opens the payload read to the full
   * `def_size`, so when the next frame is already waiting the read takes
   * it too and the payload is the concatenation, header included.
   */
  lemma UncappedReadSwallowsNextFrame(defSize: nat, p: seq<byte>, q: seq<byte>)
    requires 0 < |p| && |p| != CHUNK_SIZE && Framable(p) && Framable(q)
    requires |p| + CHUNK_SIZE + |q| <= defSize
    ensures var (t, out) := Step(Uncapped, Step(Uncapped, Initial(defSize), (Frame(p) + Frame(q))[..CHUNK_SIZE]).0,
                                 (Frame(p) + Frame(q))[CHUNK_SIZE..]);
      out == Some(p + Frame(q)) && out != Some(p)
  {
    var s := Frame(p) + Frame(q);
    assert s[..CHUNK_SIZE] == Pack32(|p|);
    UnpackPack(|p|);
    var s1 := Step(Uncapped, Initial(defSize), s[..CHUNK_SIZE]).0;
    assert s1.curSize == |p| && s1.longData == [];
    var rest := s[CHUNK_SIZE..];
    assert rest == p + Frame(q);
    assert |rest| > |p| && |rest| != CHUNK_SIZE;
    assert [] + rest == rest;
  }

  /** With full reads the uncapped read is exactly that second read. */
  lemma UncappedFullReadsMergeFrames(defSize: nat, p: seq<byte>, q: seq<byte>)
    requires 0 < |p| && |p| != CHUNK_SIZE && Framable(p) && Framable(q)
    requires |p| + CHUNK_SIZE + |q| <= defSize
    ensures FullReads(Uncapped, Initial(defSize), Frame(p) + Frame(q)).1 == [p + Frame(q)]
  {
    var s := Frame(p) + Frame(q);
    assert s[..CHUNK_SIZE] == Pack32(|p|);
    UnpackPack(|p|);
    var s1 := Step(Uncapped, Initial(defSize), s[..CHUNK_SIZE]).0;
    assert s1.maxSize == defSize && s1.curSize == |p|;
    var rest := s[CHUNK_SIZE..];
    assert rest == p + Frame(q);
    assert |rest| <= defSize;
    assert rest[..|rest|] == rest;
    assert |rest| != CHUNK_SIZE && s1.longData == [];
    assert [] + rest == rest;
    assert Step(Uncapped, s1, rest) == (Initial(defSize), Some(rest));
    assert rest[|rest|..] == [];
    FullReadsUnfold(Uncapped, s1, rest, |rest|);
    FullReadsUnfold(Uncapped, Initial(defSize), s, CHUNK_SIZE);
  }

  // ---------------------------------------------------------------------
  // The evidently intended reader: header bytes are collected until there
  // are four, and each read asks for no more than the rest of the current
  // header or payload.
  // ---------------------------------------------------------------------

  /** Header phase with the header bytes so far, or payload phase with the announced size and the bytes so far. */
  datatype FixedState = Header(hdr: seq<byte>) | Body(size: nat, body: seq<byte>)

  /** The read size the fixed reader asks for: the rest of the header, or the rest of the payload capped at `def_size`. */
  function FixedMaxRead(fs: FixedState, defSize: nat): nat {
    match fs
    case Header(h) => if |h| < CHUNK_SIZE then CHUNK_SIZE - |h| else 0
    case Body(n, b) => var left := if |b| < n then n - |b| else 0; if left < defSize then left else defSize
  }

  /** The fixed `data_received`: the state after the chunk and the payloads completed by it (at most one). */
  function FixedStep(fs: FixedState, data: seq<byte>): (r: (FixedState, seq<seq<byte>>))
  {
    match fs
    case Header(h) =>
      var h' := h + data;
      if |h'| < CHUNK_SIZE then (Header(h'), [])
      else
        var n := Unpack32(h'[..CHUNK_SIZE]);
        if n == 0 then (Header([]), [[]]) else (Body(n, []), [])
    case Body(n, b) =>
      var b' := b + data;
      if |b'| < n then (Body(n, b'), []) else (Header([]), [b'])
  }

  /** The bytes consumed since the last frame boundary, which the fixed state stands for. */
  function Pending(fs: FixedState): seq<byte>
    requires fs.Body? ==> fs.size < UINT32_LIMIT
  {
    match fs
    case Header(h) => h
    case Body(n, b) => Pack32(n) + b
  }

  /** Well-formed fixed states: a header not yet complete, or a payload not yet complete after a non-zero announced size. */
  predicate FixedValid(fs: FixedState) {
    match fs
    case Header(h) => |h| < CHUNK_SIZE
    case Body(n, b) => 0 < n < UINT32_LIMIT && |b| < n
  }

  /** Chunkings the event loop can produce for the fixed reader: every read has 1..max_size bytes. */
  predicate Admissible(fs: FixedState, chunks: seq<seq<byte>>, defSize: nat)
    decreases |chunks|
  {
    chunks == [] ||
    (0 < |chunks[0]| <= FixedMaxRead(fs, defSize) && Admissible(FixedStep(fs, chunks[0]).0, chunks[1..], defSize))
  }

  /** Feeding a chunking to the fixed reader: the final state and every completed payload in order. */
  function FixedFeed(fs: FixedState, chunks: seq<seq<byte>>): (r: (FixedState, seq<seq<byte>>))
    decreases |chunks|
  {
    if chunks == [] then (fs, [])
    else
      var step := FixedStep(fs, chunks[0]);
      var tail := FixedFeed(step.0, chunks[1..]);
      (tail.0, step.1 + tail.1)
  }

  /** The concatenation of a chunking. */
  function Concat(chunks: seq<seq<byte>>): seq<byte> {
    if chunks == [] then [] else chunks[0] + Concat(chunks[1..])
  }

  /** Framing distributes over appending payload lists. */
  lemma {:induction false} FramesAppend(xs: seq<seq<byte>>, ys: seq<seq<byte>>)
    requires forall i :: 0 <= i < |xs| ==> Framable(xs[i])
    requires forall i :: 0 <= i < |ys| ==> Framable(ys[i])
    ensures Frames(xs + ys) == Frames(xs) + Frames(ys)
  {
    if xs == [] {
      assert xs + ys == ys;
    } else {
      assert (xs + ys)[1..] == xs[1..] + ys;
      FramesAppend(xs[1..], ys);
    }
  }

  /** Every payload the fixed reader completes can be framed again. */
  predicate AllFramable(ps: seq<seq<byte>>) {
    forall i :: 0 <= i < |ps| ==> Framable(ps[i])
  }

  /** One fixed step: either a frame is completed, or the pending bytes grow by the chunk and stay a valid state. */
  lemma FixedStepMeaning(fs: FixedState, data: seq<byte>, defSize: nat)
    requires FixedValid(fs) && 0 < |data| <= FixedMaxRead(fs, defSize)
    ensures var t := FixedStep(fs, data).0; var out := FixedStep(fs, data).1;
      FixedValid(t) && |out| <= 1 &&
      (out == [] ==> Pending(t) == Pending(fs) + data) &&
      (out != [] ==> t == Header([]) && Framable(out[0]) && Frame(out[0]) == Pending(fs) + data)
    ensures var t := FixedStep(fs, data).0; var out := FixedStep(fs, data).1;
      AllFramable(out) && Frames(out) + Pending(t) == Pending(fs) + data
  {
    match fs
    case Header(h) =>
      var h' := h + data;
      if |h'| >= CHUNK_SIZE {
        assert |h'| == CHUNK_SIZE;
        assert h'[..CHUNK_SIZE] == h';
        var n := Unpack32(h');
        PackUnpack(h');
        if n == 0 {
          assert Frame([]) == Pack32(0) + [];
        } else {
          assert Pending(FixedStep(fs, data).0) == Pack32(n) == h';
        }
      }
    case Body(n, b) =>
      var b' := b + data;
      if |b'| >= n {
        assert |b'| == n;
        assert Frame(b') == Pack32(n) + b';
      }
  }

  /** The bytes of a valid state hold no complete frame. */
  lemma PendingIncomplete(fs: FixedState)
    requires FixedValid(fs)
    ensures Unframe(Pending(fs)).None?
  {
    match fs
    case Header(h) =>
    case Body(n, b) =>
      assert (Pack32(n) + b)[..CHUNK_SIZE] == Pack32(n);
      UnpackPack(n);
  }

  /**
   * Soundness of feeding: the frames of the dispatched payloads followed by
   * the pending bytes of the final state are exactly the pending bytes of
   * the start state followed by every chunk.
   */
  predicate FeedSound(fs: FixedState, chunks: seq<seq<byte>>)
    requires FixedValid(fs)
  {
    var r := FixedFeed(fs, chunks);
    FixedValid(r.0) && AllFramable(r.1) && Frames(r.1) + Pending(r.0) == Pending(fs) + Concat(chunks)
  }

  /** Feeding a non-empty chunking, unfolded once. */
  lemma FixedFeedUnfold(fs: FixedState, chunks: seq<seq<byte>>)
    requires chunks != []
    ensures FixedFeed(fs, chunks) ==
      (FixedFeed(FixedStep(fs, chunks[0]).0, chunks[1..]).0,
       FixedStep(fs, chunks[0]).1 + FixedFeed(FixedStep(fs, chunks[0]).0, chunks[1..]).1)
    ensures Concat(chunks) == chunks[0] + Concat(chunks[1..])
  {
  }

  /** Two sound stretches of input, one after the other, make a sound stretch. */
  lemma ComposeSound(out: seq<seq<byte>>, tl: seq<seq<byte>>, before: seq<byte>, mid: seq<byte>, after: seq<byte>,
                     c: seq<byte>, rest: seq<byte>)
    requires AllFramable(out) && AllFramable(tl)
    requires Frames(out) + mid == before + c
    requires Frames(tl) + after == mid + rest
    ensures AllFramable(out + tl)
    ensures Frames(out + tl) + after == before + (c + rest)
  {
    FramesAppend(out, tl);
    calc {
      Frames(out + tl) + after;
      Frames(out) + (Frames(tl) + after);
      (Frames(out) + mid) + rest;
      before + (c + rest);
    }
  }

  /** The inductive step of `FixedFeedSound`: soundness after the first chunk gives soundness before it. */
  lemma FeedSoundStep(fs: FixedState, chunks: seq<seq<byte>>, defSize: nat)
    requires FixedValid(fs) && chunks != [] && 0 < |chunks[0]| <= FixedMaxRead(fs, defSize)
    requires FixedValid(FixedStep(fs, chunks[0]).0)
    requires FeedSound(FixedStep(fs, chunks[0]).0, chunks[1..])
    ensures FeedSound(fs, chunks)
  {
    var step := FixedStep(fs, chunks[0]);
    var tail := FixedFeed(step.0, chunks[1..]);
    FixedStepMeaning(fs, chunks[0], defSize);
    FixedFeedUnfold(fs, chunks);
    ComposeSound(step.1, tail.1, Pending(fs), Pending(step.0), Pending(tail.0), chunks[0], Concat(chunks[1..]));
  }

  /**
   * The fixed reader is sound for every chunking the event loop may
   * produce, short reads included.
   */
  lemma {:induction false} FixedFeedSound(fs: FixedState, chunks: seq<seq<byte>>, defSize: nat)
    requires FixedValid(fs) && Admissible(fs, chunks, defSize)
    ensures FeedSound(fs, chunks)
    decreases |chunks|
  {
    if chunks == [] {
      assert Frames([]) + Pending(fs) == Pending(fs) + Concat(chunks);
    } else {
      FixedStepMeaning(fs, chunks[0], defSize);
      FixedFeedSound(FixedStep(fs, chunks[0]).0, chunks[1..], defSize);
      FeedSoundStep(fs, chunks, defSize);
    }
  }

  /** The first frame of a non-empty list is read back, leaving the others. */
  lemma UnframeFrames(ps: seq<seq<byte>>, a: seq<byte>)
    requires AllFramable(ps) && ps != []
    ensures Unframe(Frames(ps) + a) == Some((ps[0], Frames(ps[1..]) + a))
  {
    assert Frames(ps) + a == Frame(ps[0]) + (Frames(ps[1..]) + a);
    UnframeFrame(ps[0], Frames(ps[1..]) + a);
  }

  /**
   * Frames followed by an incomplete remainder are read back uniquely: the
   * payload list and the remainder are determined by the bytes.
   */
  lemma {:induction false} FramesUnique(xs: seq<seq<byte>>, a: seq<byte>, ys: seq<seq<byte>>, b: seq<byte>)
    requires AllFramable(xs) && AllFramable(ys)
    requires Unframe(a).None? && Unframe(b).None?
    requires Frames(xs) + a == Frames(ys) + b
    ensures xs == ys && a == b
  {
    if xs == [] && ys == [] {
      assert Frames(xs) + a == a;
      assert Frames(ys) + b == b;
    } else if xs == [] {
      UnframeFrames(ys, b);
      assert false;
    } else if ys == [] {
      UnframeFrames(xs, a);
      assert false;
    } else {
      UnframeFrames(xs, a);
      UnframeFrames(ys, b);
      FramesUnique(xs[1..], a, ys[1..], b);
      assert xs == [xs[0]] + xs[1..] && ys == [ys[0]] + ys[1..];
    }
  }

  /**
   * The intended property: whatever chunking the network produces, the
   * fixed reader dispatches exactly the payloads that were framed, and is
   * back at the start of a header.
   */
  lemma FixedReaderDeliversFrames(ps: seq<seq<byte>>, chunks: seq<seq<byte>>, defSize: nat)
    requires AllFramable(ps)
    requires Concat(chunks) == Frames(ps) && Admissible(Header([]), chunks, defSize)
    ensures FixedFeed(Header([]), chunks) == (Header([]), ps)
  {
    FixedFeedSound(Header([]), chunks, defSize);
    var r := FixedFeed(Header([]), chunks);
    PendingIncomplete(r.0);
    assert Frames(r.1) + Pending(r.0) == Frames(ps) + [];
    FramesUnique(r.1, Pending(r.0), ps, []);
  }

  /** The fixed reader never asks for an empty read (which the event loop would take for end of stream). */
  lemma FixedNeverAsksForNothing(fs: FixedState, defSize: nat)
    requires FixedValid(fs) && defSize > 0
    ensures FixedMaxRead(fs, defSize) > 0
  {
  }

  /** The reader as written asks for an empty read after a zero-length header, so an empty payload ends the connection. */
  lemma EmptyPayloadAsksForNothing(v: Variant, defSize: nat)
    requires v == Capped
    ensures Step(v, Initial(defSize), Pack32(0)).0.maxSize == 0
    ensures FullReads(v, Initial(defSize), Frame([])).1 == []
  {
    UnpackPack(0);
    var s1 := Step(v, Initial(defSize), Pack32(0)).0;
    assert Frame([]) == Pack32(0);
    assert Frame([])[..CHUNK_SIZE] == Pack32(0);
    assert Frame([])[CHUNK_SIZE..] == [];
  }

  /**
   * The protocol's reassembly state as an object: the fields
   * `long_data`, `cur_size`, `def_size` of the protocol and the read size
   * of its transport.
   */
  class Receiver {
    var longData: seq<byte>
    var curSize: nat
    var defSize: nat
    const variant: Variant
    const transport: Transport

    function State(): RxState
      reads this, transport
    {
      RxState(longData, curSize, transport.maxSize, defSize)
    }

    /** `connection_made`: remember the loop's read size, then ask for the 4-byte header. */
    constructor (variant: Variant, transport: Transport)
      modifies transport
      ensures this.variant == variant && this.transport == transport
      ensures State() == Initial(old(transport.maxSize))
      ensures transport.out == old(transport.out) && transport.closed == old(transport.closed)
      ensures transport.broken == old(transport.broken)
    {
      this.variant := variant;
      this.transport := transport;
      defSize := transport.maxSize;
      longData := [];
      curSize := CHUNK_SIZE;
      new;
      transport.maxSize := CHUNK_SIZE;
    }

    /**
     * `data_received` up to the dispatch: the completed payload, if any.
     * The sizes are reset at once, but the buffer still holds the payload
     * until it has been decoded (`Release`).
     */
    method DataReceived(data: seq<byte>) returns (payload: Option<seq<byte>>)
      modifies this, transport
      ensures payload == Step(variant, old(State()), data).1
      ensures State() == Holding(Step(variant, old(State()), data))
      ensures transport.out == old(transport.out) && transport.closed == old(transport.closed)
      ensures transport.broken == old(transport.broken)
    {
      if |data| == CHUNK_SIZE {
        curSize := Unpack32(data);
        if variant == Capped {
          transport.maxSize := if curSize < defSize then curSize else defSize;
        } else {
          transport.maxSize := defSize;
        }
        return None;
      }
      longData := longData + data;
      if curSize > |longData| {
        return None;
      }
      transport.maxSize := CHUNK_SIZE;
      curSize := CHUNK_SIZE;
      payload := Some(longData);
    }

    /** `self.long_data = b''` once the payload has become a message. */
    method Release()
      modifies this`longData
      ensures longData == [] && curSize == old(curSize) && defSize == old(defSize)
    {
      longData := [];
    }
  }
}
