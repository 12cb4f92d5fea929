/**
 * Blocking sockets as the threaded server and client see them: what the peer
 * will deliver is a queue of events (a packet of bytes, a timeout, a
 * failure); an empty packet, or nothing left, is the end of the stream.
 * `recv(k)` hands back at most `k` bytes of the next packet.
 */
module Net {
  import opened Bytes

  datatype RecvEvent = Packet(data: seq<byte>) | Timeout | Failure

  /** What one `recv` call gives: bytes (empty at end of stream), `socket.timeout`, or another OSError. */
  datatype Received = Data(bytes: seq<byte>) | TimedOut | Failed

  /** One `recv(k)` against the pending events: the answer and the events left. */
  function RecvStep(events: seq<RecvEvent>, k: nat): (r: (Received, seq<RecvEvent>))
    requires k > 0
    ensures r.0.Data? ==> |r.0.bytes| <= k
  {
    if events == [] then (Data([]), [])
    else
      match events[0]
      case Packet(p) =>
        if |p| > k then (Data(p[..k]), [Packet(p[k..])] + events[1..]) else (Data(p), events[1..])
      case Timeout => (TimedOut, events[1..])
      case Failure => (Failed, events[1..])
  }

  /** What a `sendall` ends with. */
  datatype SendOutcome = Sent | BrokenPipe | OsError

  class Socket {
    const id: nat
    var incoming: seq<RecvEvent>
    var sent: seq<byte>
    /** The peer has gone away: the next send raises BrokenPipeError. */
    var broken: bool
    var closed: bool
    /** The connection was reset: `getpeername` raises OSError (ENOTCONN). */
    var reset: bool

    constructor (id: nat, incoming: seq<RecvEvent>, broken: bool)
      ensures this.id == id && this.incoming == incoming && this.broken == broken
      ensures sent == [] && !closed && !reset
    {
      this.id := id;
      this.incoming := incoming;
      this.broken := broken;
      sent := [];
      closed := false;
      reset := false;
    }

    /** `getpeername` has no address to answer: the socket is closed or its connection reset. */
    predicate NoPeer()
      reads this
    {
      closed || reset
    }

    /** `getpeername()`, as evaluated for a log line: True when it raises OSError. */
    method PeerName() returns (raised: bool)
      ensures raised <==> NoPeer()
    {
      raised := closed || reset;
    }

    /** `recv(k)`. */
    method Recv(k: nat) returns (r: Received)
      requires k > 0
      modifies this`incoming
      ensures (r, incoming) == RecvStep(old(incoming), k)
    {
      var step := RecvStep(incoming, k);
      r := step.0;
      incoming := step.1;
    }

    /** `sendall(data)`: OSError on a closed socket, BrokenPipeError to a gone peer, else every byte is sent. */
    method SendAll(data: seq<byte>) returns (o: SendOutcome)
      modifies this`sent
      ensures o == (if closed then OsError else if broken then BrokenPipe else Sent)
      ensures sent == (if o == Sent then old(sent) + data else old(sent))
    {
      if closed {
        o := OsError;
      } else if broken {
        o := BrokenPipe;
      } else {
        sent := sent + data;
        o := Sent;
      }
    }

    method Close()
      modifies this`closed
      ensures closed
    {
      closed := true;
    }
  }

  /** What `recvall` ends with: the bytes, None at end of stream, or an exception that escapes it. */
  datatype RecvAllResult = Got(data: seq<byte>) | Eof | Escaped

  /**
   * The `recvall(n)` loop from `data` collected so far. `partialOnTimeout`
   * is the client's variant, which answers the bytes so far on
   * `socket.timeout`; in the server's variant every exception escapes.
   */
  function RecvAll(events: seq<RecvEvent>, n: nat, data: seq<byte>, partialOnTimeout: bool): (r: (RecvAllResult, seq<RecvEvent>))
    requires |data| <= n
    ensures r.0.Got? ==> |r.0.data| <= n
    ensures r.0.Got? && !partialOnTimeout ==> |r.0.data| == n
    decreases n - |data|
  {
    if |data| >= n then (Got(data), events)
    else
      var step := RecvStep(events, n - |data|);
      match step.0
      case Data(p) =>
        if p == [] then (Eof, step.1) else RecvAll(step.1, n, data + p, partialOnTimeout)
      case TimedOut => if partialOnTimeout then (Got(data), step.1) else (Escaped, step.1)
      case Failed => (Escaped, step.1)
  }

  /** The bytes the peer delivers before the first timeout, failure or end of stream. */
  function Supply(events: seq<RecvEvent>): seq<byte> {
    if events == [] then []
    else
      match events[0]
      case Packet(p) => if p == [] then [] else p + Supply(events[1..])
      case _ => []
  }

  /** What ends the supply: a timeout, a failure, or the end of the stream (`Packet([])`). */
  function Stop(events: seq<RecvEvent>): RecvEvent {
    if events == [] then Packet([])
    else
      match events[0]
      case Packet(p) => if p == [] then Packet([]) else Stop(events[1..])
      case e => e
  }

  /**
   * The meaning of `recvall`. When the peer supplies enough bytes, exactly
   * the first `n` are returned; otherwise the event that ends the supply
   * decides: None at end of stream, the partial bytes on a client timeout,
   * and an escaping exception in every other case.
   */
  lemma {:induction false} RecvAllMeaning(events: seq<RecvEvent>, n: nat, data: seq<byte>, partialOnTimeout: bool)
    requires |data| <= n
    ensures var r := RecvAll(events, n, data, partialOnTimeout).0;
      if |data| + |Supply(events)| >= n then r == Got(data + Supply(events)[..n - |data|])
      else if Stop(events).Packet? then r == Eof
      else if Stop(events) == Timeout && partialOnTimeout then r == Got(data + Supply(events))
      else r == Escaped
    decreases n - |data|
  {
    if |data| >= n {
      assert data + Supply(events)[..0] == data;
    } else if events != [] && events[0].Packet? && events[0].data != [] {
      if |events[0].data| > n - |data| {
        RecvAllOverflow(events, n, data, partialOnTimeout);
      } else {
        RecvAllMeaning(events[1..], n, data + events[0].data, partialOnTimeout);
        RecvAllWhole(events, n, data, partialOnTimeout);
      }
    }
  }

  /** The first packet holds more than is still wanted: the wanted prefix is returned at once. */
  lemma RecvAllOverflow(events: seq<RecvEvent>, n: nat, data: seq<byte>, partialOnTimeout: bool)
    requires |data| < n && events != [] && events[0].Packet? && |events[0].data| > n - |data|
    ensures RecvAll(events, n, data, partialOnTimeout).0 == Got(data + Supply(events)[..n - |data|])
  {
    var p := events[0].data;
    var k := n - |data|;
    assert Supply(events) == p + Supply(events[1..]);
    assert Supply(events)[..k] == p[..k];
    assert RecvAll(events, n, data, partialOnTimeout).0 == RecvAll([Packet(p[k..])] + events[1..], n, data + p[..k], partialOnTimeout).0;
    assert data + p[..k] + Supply([Packet(p[k..])] + events[1..])[..0] == data + p[..k];
  }

  /** The first packet is taken whole: the meaning carries over from the rest of the events. */
  lemma RecvAllWhole(events: seq<RecvEvent>, n: nat, data: seq<byte>, partialOnTimeout: bool)
    requires |data| < n && events != [] && events[0].Packet? && events[0].data != [] && |events[0].data| <= n - |data|
    requires var r := RecvAll(events[1..], n, data + events[0].data, partialOnTimeout).0;
      var d := data + events[0].data;
      if |d| + |Supply(events[1..])| >= n then r == Got(d + Supply(events[1..])[..n - |d|])
      else if Stop(events[1..]).Packet? then r == Eof
      else if Stop(events[1..]) == Timeout && partialOnTimeout then r == Got(d + Supply(events[1..]))
      else r == Escaped
    ensures var r := RecvAll(events, n, data, partialOnTimeout).0;
      if |data| + |Supply(events)| >= n then r == Got(data + Supply(events)[..n - |data|])
      else if Stop(events).Packet? then r == Eof
      else if Stop(events) == Timeout && partialOnTimeout then r == Got(data + Supply(events))
      else r == Escaped
  {
    var p := events[0].data;
    assert Supply(events) == p + Supply(events[1..]);
    assert Stop(events) == Stop(events[1..]);
    assert RecvAll(events, n, data, partialOnTimeout) == RecvAll(events[1..], n, data + p, partialOnTimeout);
    if |data| + |Supply(events)| >= n {
      assert (data + p) + Supply(events[1..])[..n - |data + p|] == data + Supply(events)[..n - |data|];
    } else {
      assert (data + p) + Supply(events[1..]) == data + Supply(events);
    }
  }

  /** `recvall` with enough bytes before any interruption returns exactly `n` of them. */
  lemma RecvAllExact(events: seq<RecvEvent>, n: nat, partialOnTimeout: bool)
    requires |Supply(events)| >= n
    ensures RecvAll(events, n, [], partialOnTimeout).0 == Got(Supply(events)[..n])
  {
    RecvAllMeaning(events, n, [], partialOnTimeout);
    assert [] + Supply(events)[..n] == Supply(events)[..n];
  }

  /** One packet holding more than `n` bytes: `recvall(n)` takes its first `n` and leaves the rest queued. */
  lemma RecvAllFromPacket(a: seq<byte>, b: seq<byte>, rest: seq<RecvEvent>, partialOnTimeout: bool)
    requires |a| > 0
    ensures RecvAll([Packet(a + b)] + rest, |a|, [], partialOnTimeout) ==
      (Got(a), if b == [] then rest else [Packet(b)] + rest)
  {
    var events := [Packet(a + b)] + rest;
    assert events[1..] == rest;
    if b == [] {
      assert a + b == a;
      assert [] + a == a;
    } else {
      assert (a + b)[..|a|] == a && (a + b)[|a|..] == b;
      assert [] + a == a;
    }
  }

  /** An empty packet before any byte makes `recvall` answer None. */
  lemma RecvAllEofFirst(events: seq<RecvEvent>, n: nat, partialOnTimeout: bool)
    requires n > 0 && (events == [] || events[0] == Packet([]))
    ensures RecvAll(events, n, [], partialOnTimeout).0 == Eof
  {
  }

  /** A timeout before `n` bytes: the client's variant returns what it has, the server's lets the timeout escape. */
  lemma RecvAllTimeout(events: seq<RecvEvent>, n: nat)
    requires |Supply(events)| < n && Stop(events) == Timeout
    ensures RecvAll(events, n, [], true).0 == Got(Supply(events))
    ensures RecvAll(events, n, [], false).0 == Escaped
  {
    RecvAllMeaning(events, n, [], true);
    RecvAllMeaning(events, n, [], false);
    assert [] + Supply(events) == Supply(events);
  }
  /** A measure of what is still queued: each event counts one, a packet also its bytes. */
  function Weight(events: seq<RecvEvent>): nat {
    if events == [] then 0
    else (if events[0].Packet? then |events[0].data| + 1 else 1) + Weight(events[1..])
  }

  /** A `recv` never adds to the queue, and consumes something whenever the queue is not empty. */
  lemma RecvStepWeight(events: seq<RecvEvent>, k: nat)
    requires k > 0
    ensures Weight(RecvStep(events, k).1) <= Weight(events)
    ensures events != [] ==> Weight(RecvStep(events, k).1) < Weight(events)
  {
    if events != [] && events[0].Packet? && |events[0].data| > k {
      var rest := [Packet(events[0].data[k..])] + events[1..];
      assert rest[1..] == events[1..];
    }
  }

  /** `recvall` never adds to the queue, and consumes something whenever it returns new bytes. */
  lemma {:induction false} RecvAllWeight(events: seq<RecvEvent>, n: nat, data: seq<byte>, partialOnTimeout: bool)
    requires |data| <= n
    ensures var r := RecvAll(events, n, data, partialOnTimeout);
      Weight(r.1) <= Weight(events) && (r.0.Got? && |r.0.data| > |data| ==> Weight(r.1) < Weight(events))
    decreases n - |data|
  {
    if |data| < n {
      var step := RecvStep(events, n - |data|);
      RecvStepWeight(events, n - |data|);
      if step.0.Data? && step.0.bytes != [] {
        RecvAllWeight(step.1, n, data + step.0.bytes, partialOnTimeout);
      }
    }
  }

  /**
   * When enough bytes are supplied, `recvall` leaves queued exactly the
   * bytes after the ones it returned, ended by the same event.
   */
  lemma {:induction false} RecvAllRest(events: seq<RecvEvent>, n: nat, data: seq<byte>, partialOnTimeout: bool)
    requires |data| <= n && |data| + |Supply(events)| >= n
    ensures var rest := RecvAll(events, n, data, partialOnTimeout).1;
      Supply(rest) == Supply(events)[n - |data|..] && Stop(rest) == Stop(events)
    decreases n - |data|
  {
    if |data| < n {
      var p := events[0].data;
      var k := n - |data|;
      assert Supply(events) == p + Supply(events[1..]);
      if |p| > k {
        var rest := [Packet(p[k..])] + events[1..];
        assert rest[1..] == events[1..];
        assert Supply(rest) == p[k..] + Supply(events[1..]);
        assert Supply(events)[k..] == p[k..] + Supply(events[1..]);
      } else {
        RecvAllRest(events[1..], n, data + p, partialOnTimeout);
        assert Supply(events)[k..] == Supply(events[1..])[n - |data + p|..];
      }
    }
  }
}
