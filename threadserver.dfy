/**
 * The threaded server of the talkative snapshot
 * (talkative_server/talkative_server/core.py): a polling loop over client
 * sockets that reads length-prefixed messages into a queue, hands the queue
 * to the command table, and writes length-prefixed replies. It also keeps
 * the logged-in users' connections (`names`) and an observer table.
 */
module ThreadServer {
  import opened Wrappers
  import opened Bytes
  import opened Envelope
  import opened Net
  import opened Lists
  import opened ServerParts
  import Utf8

  /**
   * What reading one message from a client comes to. `NotUtf8`: the debug
   * log line decodes the body with the configured encoding (UTF-8) before
   * it is parsed, and raises UnicodeDecodeError on anything else.
   */
  datatype Incoming = NoData | Broken | Decoded(m: Message) | Undecodable | NotUtf8

  /**
   * `read_data`'s reading: a 4-byte header, then that many bytes, both with
   * the server's `recvall` (every exception escapes into `read_data`'s
   * handler); a body that is not UTF-8 makes the log line raise. The events
   * left afterwards come second.
   */
  function Receive(events: seq<RecvEvent>, c: Codec, stamp: string -> string): (r: (Incoming, seq<RecvEvent>)) {
    var h := RecvAll(events, CHUNK_SIZE, [], false);
    match h.0
    case Escaped => (Broken, h.1)
    case Eof => (NoData, h.1)
    case Got(hd) =>
      var b := RecvAll(h.1, Unpack32(hd), [], false);
      match b.0
      case Escaped => (Broken, b.1)
      case Eof => (NoData, b.1)
      case Got(d) => (Body(d, c, stamp), b.1)
  }

  /**
   * What becomes of a body read whole: an empty one is silence, one that is
   * not UTF-8 makes the log line raise, any other is parsed.
   */
  function Body(d: seq<byte>, c: Codec, stamp: string -> string): (r: Incoming)
    ensures r == NoData <==> d == []
    ensures r == NotUtf8 <==> d != [] && !Utf8.Valid(d)
    ensures r.Decoded? || r == Undecodable ==> Utf8.Valid(d) && (r == Undecodable <==> c.loads(d).None?)
    ensures r.Decoded? ==> r.m == Load(d, c, stamp).value
  {
    if d == [] then NoData
    else if !Utf8.Valid(d) then NotUtf8
    else
      match Load(d, c, stamp)
      case None => Undecodable
      case Some(m) => Decoded(m)
  }

  /**
   * What the server writes is what it reads: a message framed by
   * `write_client_data`, arriving in one packet, is decoded with the same
   * fields (the time stamp excepted) and leaves the following events queued.
   */
  lemma ReceiveWritten(m: Message, c: Codec, stamp: string -> string, rest: seq<RecvEvent>)
    requires RoundTrips(c) && Serializable(m.raw) && m.delimiter == CRLF
    requires 0 < |Encode(m, c)| && Framable(Encode(m, c))
    ensures var r := Receive([Packet(Frame(Encode(m, c)))] + rest, c, stamp);
      r.1 == rest && r.0.Decoded? && r.0.m == Load(Encode(m, c), c, stamp).value
    ensures var d := Receive([Packet(Frame(Encode(m, c)))] + rest, c, stamp).0.m;
      forall k :: k != TIME ==> (k in d.raw <==> k in m.raw) && (k in m.raw ==> d.raw[k] == m.raw[k])
  {
    ReceiveFrame(Encode(m, c), c, stamp, rest);
    LoadEncode(m, c, stamp);
  }

  /** A frame arriving in one packet is read as its body, and the events after it stay queued. */
  lemma ReceiveFrame(p: seq<byte>, c: Codec, stamp: string -> string, rest: seq<RecvEvent>)
    requires 0 < |p| && Framable(p)
    ensures Receive([Packet(Frame(p))] + rest, c, stamp) == (Body(p, c, stamp), rest)
  {
    var events := [Packet(Frame(p))] + rest;
    var h := RecvAll(events, CHUNK_SIZE, [], false);
    assert h == (Got(Pack32(|p|)), [Packet(p)] + rest) by {
      assert events == [Packet(Pack32(|p|) + p)] + rest;
      RecvAllFromPacket(Pack32(|p|), p, rest, false);
    }
    assert RecvAll(h.1, Unpack32(h.0.data), [], false) == (Got(p), rest) by {
      UnpackPack(|p|);
      assert p + [] == p;
      RecvAllFromPacket(p, [], rest, false);
    }
  }

  /**
   * A framed body that is not UTF-8 never reaches the decoder: the log line
   * raises on it, whatever the codec would have made of it.
   */
  lemma ReceiveNotUtf8(p: seq<byte>, c: Codec, stamp: string -> string, rest: seq<RecvEvent>)
    requires 0 < |p| && Framable(p) && !Utf8.Valid(p)
    ensures Receive([Packet(Frame(p))] + rest, c, stamp) == (NotUtf8, rest)
  {
    ReceiveFrame(p, c, stamp, rest);
  }

  /** Nothing escaped `service_update_lists`, or something did. */
  datatype UpdateOutcome = Finished | UpdateRaised

  /**
   * The logged-in users' connections (the dict `names`), in insertion
   * order: the names are distinct, as a dict's keys are. One socket may be
   * filed under several names.
   */
  predicate NamesDistinct(names: seq<(string, Socket)>) {
    forall i, j :: 0 <= i < j < |names| ==> names[i].0 != names[j].0
  }

  /** No socket is filed under two names. */
  predicate SocketsDistinct(names: seq<(string, Socket)>) {
    forall i, j :: 0 <= i < j < |names| ==> names[i].1 != names[j].1
  }

  /** The sockets of the `names` entries. */
  function Sockets(names: seq<(string, Socket)>): set<Socket> {
    set i | 0 <= i < |names| :: names[i].1
  }

  /** The fixed `response=205` notice `service_update_lists` sends. */
  function UpdateNotice(stamp: string -> string): Message {
    New(map[RESPONSE := Int(205)], stamp)
  }

  /** What a write depends on: the socket's state and whether it is in `clients`. */
  datatype SockView = SockView(closed: bool, broken: bool, listed: bool)

  function View(s: Socket, clients: seq<Socket>): SockView
    reads s
  {
    SockView(s.closed, s.broken, s in clients)
  }

  /** The views of the `names` sockets, entry by entry. */
  function Views(names: seq<(string, Socket)>, clients: seq<Socket>): (vs: seq<SockView>)
    reads Sockets(names)
    ensures |vs| == |names| && forall i :: 0 <= i < |names| ==> vs[i] == View(names[i].1, clients)
  {
    seq(|names|, i reads Sockets(names) requires 0 <= i < |names| => View(names[i].1, clients))
  }

  /** What has been sent on each of the `names` sockets. */
  function SentOf(names: seq<(string, Socket)>): (r: seq<seq<byte>>)
    reads Sockets(names)
    ensures |r| == |names| && forall i :: 0 <= i < |names| ==> r[i] == names[i].1.sent
  {
    seq(|names|, i reads Sockets(names) requires 0 <= i < |names| => names[i].1.sent)
  }

  /** Entry `j`'s socket is not among those of the entries from `k` up to `j`. */
  predicate FirstFrom(names: seq<(string, Socket)>, k: nat, j: nat)
    requires j < |names|
  {
    forall i :: k <= i < j ==> names[i].1 != names[j].1
  }

  /** A socket's state after a write to it that carried on: a broken one has been closed. */
  function AfterWrite(v: SockView): (r: SockView)
    ensures v.closed ==> r.closed
  {
    if v.broken then v.(closed := true) else v
  }

  /**
   * The state each entry's write meets: the socket's state at the start,
   * or, when an earlier entry shares the socket, that state after a write.
   */
  function Effective(names: seq<(string, Socket)>, vs: seq<SockView>): (ev: seq<SockView>)
    requires |vs| == |names|
    ensures |ev| == |names|
    ensures forall j :: 0 <= j < |names| ==> ev[j] == if FirstFrom(names, 0, j) then vs[j] else AfterWrite(vs[j])
  {
    seq(|names|, j requires 0 <= j < |names| => if FirstFrom(names, 0, j) then vs[j] else AfterWrite(vs[j]))
  }

  /** Each later entry on a socket meets the state an earlier one leaves. */
  predicate Repeats(names: seq<(string, Socket)>, ev: seq<SockView>)
    requires |ev| == |names|
  {
    forall i, j :: 0 <= i < j < |names| && names[i].1 == names[j].1 ==> ev[j] == AfterWrite(ev[i])
  }

  /** Two states give a write the same outcome: a closed socket's other flags, and a working socket's listing, do not matter. */
  predicate Alike(a: SockView, b: SockView) {
    a.closed == b.closed && (!a.closed ==> a.broken == b.broken && (a.broken ==> a.listed == b.listed))
  }

  /** The states entries with distinct sockets meet are their states at the start. */
  lemma {:induction false} EffectiveDistinct(names: seq<(string, Socket)>, vs: seq<SockView>)
    requires |vs| == |names| && SocketsDistinct(names)
    ensures Effective(names, vs) == vs
  {
    var ev := Effective(names, vs);
    forall j | 0 <= j < |names|
      ensures ev[j] == vs[j]
    {
      assert FirstFrom(names, 0, j);
    }
  }

  /** At the start, every entry's socket is alike the state its write meets, the first one on each socket being the actual state. */
  lemma {:induction false} EffectiveAtStart(names: seq<(string, Socket)>, clients: seq<Socket>)
    ensures var ev := Effective(names, Views(names, clients));
      Repeats(names, ev) && ViewsFrom(names, clients, ev, 0)
  {
    var vs := Views(names, clients);
    var ev := Effective(names, vs);
    forall i, j | 0 <= i < j < |names| && names[i].1 == names[j].1
      ensures ev[j] == AfterWrite(ev[i])
    {
      assert !FirstFrom(names, 0, j);
      assert vs[i] == vs[j];
    }
  }

  /**
   * How many of the first `k` entries on socket `s` were written `payload`:
   * their writes went through.
   */
  function Hits(names: seq<(string, Socket)>, payload: seq<byte>, ev: seq<SockView>, s: Socket, k: nat): (n: nat)
    requires |ev| == |names| && k <= |names|
    ensures n <= k && (n > 0 ==> Framable(payload))
  {
    if k == 0 then 0
    else Hits(names, payload, ev, s, k - 1) + if names[k - 1].1 == s && Verdict(payload, ev[k - 1]) == Written then 1 else 0
  }

  /** `n` frames of `payload`, one after the other. */
  function Frames(payload: seq<byte>, n: nat): (r: seq<byte>)
    requires n > 0 ==> Framable(payload)
  {
    if n == 0 then [] else Frames(payload, n - 1) + Frame(payload)
  }

  /**
   * The sockets' output once the first `k` entries have been written
   * `payload`: on each socket, a frame more for every one of those entries
   * on it whose write goes through, on top of what it had (`sent`).
   */
  predicate NotifiedUpTo(names: seq<(string, Socket)>, payload: seq<byte>, ev: seq<SockView>, sent: seq<seq<byte>>, k: nat)
    requires |ev| == |names| && |sent| == |names| && k <= |names|
    reads Sockets(names)
  {
    forall i :: 0 <= i < |names| ==> names[i].1.sent == sent[i] + Frames(payload, Hits(names, payload, ev, names[i].1, k))
  }

  /** A write that does not go through adds nothing to the output. */
  lemma NotifiedSkip(names: seq<(string, Socket)>, payload: seq<byte>, ev: seq<SockView>, sent: seq<seq<byte>>, k: nat)
    requires |ev| == |names| && |sent| == |names| && k < |names|
    requires NotifiedUpTo(names, payload, ev, sent, k + 1) && Verdict(payload, ev[k]) != Written
    ensures NotifiedUpTo(names, payload, ev, sent, k)
  {
  }

  /**
   * With no socket under two names, each socket gets at most one frame:
   * one exactly when its entry is among the first `k` and its write went
   * through.
   */
  lemma {:induction false} HitsDistinct(names: seq<(string, Socket)>, payload: seq<byte>, ev: seq<SockView>, i: nat, k: nat)
    requires |ev| == |names| && k <= |names| && i < |names| && SocketsDistinct(names)
    ensures Frames(payload, Hits(names, payload, ev, names[i].1, k)) ==
      if i < k && Verdict(payload, ev[i]) == Written then Frame(payload) else []
    decreases k
  {
    if k > 0 {
      HitsDistinct(names, payload, ev, i, k - 1);
      if i < k - 1 {
        assert names[k - 1].1 != names[i].1;
      }
    }
  }

  /**
   * The sockets of the entries from `k` on, each taken at its first entry
   * from `k`, are alike the states `ev` says those writes meet.
   */
  predicate ViewsFrom(names: seq<(string, Socket)>, clients: seq<Socket>, ev: seq<SockView>, k: nat)
    requires |ev| == |names|
    reads Sockets(names)
  {
    forall j :: k <= j < |names| && FirstFrom(names, k, j) ==> Alike(View(names[j].1, clients), ev[j])
  }

  /** Alike states give a write the same outcome. */
  lemma AlikeVerdict(payload: seq<byte>, a: SockView, b: SockView)
    requires Alike(a, b)
    ensures Verdict(payload, a) == Verdict(payload, b)
  {
  }

  /** The outcome of writing `payload` to a socket in that state. */
  function Verdict(payload: seq<byte>, v: SockView): WriteOutcome {
    if !Framable(payload) then WriteRaised
    else if v.closed then OsFailure
    else if v.broken then (if v.listed then Dropped else WriteRaised)
    else Written
  }

  /** A write after which `service_update_lists` carries on. */
  predicate Survives(o: WriteOutcome) {
    o == Written || o == Dropped
  }

  /** The index of the first entry whose write does not carry on, or the number of entries. */
  function FirstFailure(payload: seq<byte>, vs: seq<SockView>): (k: nat)
    ensures k <= |vs|
    ensures forall i :: 0 <= i < k ==> Survives(Verdict(payload, vs[i]))
    ensures k < |vs| ==> !Survives(Verdict(payload, vs[k]))
  {
    if vs == [] then 0
    else if !Survives(Verdict(payload, vs[0])) then 0
    else 1 + FirstFailure(payload, vs[1..])
  }

  /** The first entry that does not carry on is the one after a run of entries that do. */
  lemma {:induction false} FirstFailureAt(payload: seq<byte>, vs: seq<SockView>, i: nat)
    requires i <= |vs| && forall j :: 0 <= j < i ==> Survives(Verdict(payload, vs[j]))
    requires i < |vs| ==> !Survives(Verdict(payload, vs[i]))
    ensures FirstFailure(payload, vs) == i
    decreases i
  {
    if i > 0 {
      assert forall j :: 0 <= j < i - 1 ==> vs[1..][j] == vs[j + 1];
      FirstFailureAt(payload, vs[1..], i - 1);
    }
  }

  /**
   * `clients` once the first `k` entries have been written `payload`: the
   * socket of each entry whose write hit a broken pipe is removed, and with
   * `dropFailed` (the corrected loop) so is each one whose write raised
   * OSError, when it is still listed.
   */
  function Pruned(clients: seq<Socket>, names: seq<(string, Socket)>, payload: seq<byte>, vs: seq<SockView>, k: nat, dropFailed: bool): (r: seq<Socket>)
    requires |vs| == |names| && k <= |names|
    ensures forall s :: s in r ==> s in clients
    decreases k
  {
    if k == 0 then clients
    else PruneStep(Pruned(clients, names, payload, vs, k - 1, dropFailed), names[k - 1].1, Verdict(payload, vs[k - 1]), dropFailed)
  }

  /** `clients` after one write with outcome `w` to socket `s`. */
  function PruneStep(clients: seq<Socket>, s: Socket, w: WriteOutcome, dropFailed: bool): (r: seq<Socket>)
    ensures forall t :: t in r ==> t in clients
  {
    if (w == Dropped || (dropFailed && w == OsFailure)) && RemoveFirst(clients, s).Some? then RemoveFirst(clients, s).value
    else clients
  }

  /** The index of the first entry whose write raises something other than OSError, or the number of entries. */
  function FirstRaise(payload: seq<byte>, vs: seq<SockView>): (k: nat)
    ensures k <= |vs|
    ensures forall i :: 0 <= i < k ==> Verdict(payload, vs[i]) != WriteRaised
    ensures k < |vs| ==> Verdict(payload, vs[k]) == WriteRaised
  {
    if vs == [] then 0
    else if Verdict(payload, vs[0]) == WriteRaised then 0
    else 1 + FirstRaise(payload, vs[1..])
  }

  /** The first raising entry is the one after a run of entries that do not raise. */
  lemma {:induction false} FirstRaiseAt(payload: seq<byte>, vs: seq<SockView>, i: nat)
    requires i <= |vs| && forall j :: 0 <= j < i ==> Verdict(payload, vs[j]) != WriteRaised
    requires i < |vs| ==> Verdict(payload, vs[i]) == WriteRaised
    ensures FirstRaise(payload, vs) == i
    decreases i
  {
    if i > 0 {
      assert forall j :: 0 <= j < i - 1 ==> vs[1..][j] == vs[j + 1];
      FirstRaiseAt(payload, vs[1..], i - 1);
    }
  }

  /** The entries whose write does not raise OSError: what `names` should keep. */
  function Alive(payload: seq<byte>, names: seq<(string, Socket)>, vs: seq<SockView>): (r: seq<(string, Socket)>)
    requires |vs| == |names|
    ensures forall e :: e in r ==> e in names
  {
    if names == [] then []
    else
      var rest := Alive(payload, names[1..], vs[1..]);
      if Verdict(payload, vs[0]) == OsFailure then rest else [names[0]] + rest
  }

  /** `Alive` over one more entry. */
  lemma {:induction false} AliveSnoc(payload: seq<byte>, names: seq<(string, Socket)>, vs: seq<SockView>, i: nat)
    requires |vs| == |names| && i < |names|
    ensures Alive(payload, names[..i + 1], vs[..i + 1]) ==
      Alive(payload, names[..i], vs[..i]) + (if Verdict(payload, vs[i]) == OsFailure then [] else [names[i]])
    decreases i
  {
    if i > 0 {
      assert names[..i + 1][1..] == names[1..][..i] && vs[..i + 1][1..] == vs[1..][..i];
      assert names[..i][1..] == names[1..][..i - 1] && vs[..i][1..] == vs[1..][..i - 1];
      AliveSnoc(payload, names[1..], vs[1..], i - 1);
    }
  }

  class Server {
    var clients: seq<Socket>
    var messages: seq<Message>
    var names: seq<(string, Socket)>
    var observers: map<Value, seq<nat>>
    /** The `update(server, event)` calls made on observers, in order. */
    var updates: seq<(nat, Value)>
    /** The messages handed to the command table, in order. */
    var dispatched: seq<Message>
    const codec: Codec
    const stamp: string -> string
    /** The `response=205` notice of `service_update_lists`; the clock is fixed, so every call builds this same message. */
    const notice: Message

    constructor (codec: Codec, stamp: string -> string)
      ensures this.codec == codec && this.stamp == stamp && notice == UpdateNotice(stamp)
      ensures clients == [] && messages == [] && names == [] && observers == map[] && updates == [] && dispatched == []
    {
      this.codec := codec;
      this.stamp := stamp;
      notice := UpdateNotice(stamp);
      clients := [];
      messages := [];
      names := [];
      observers := map[];
      updates := [];
      dispatched := [];
    }

    /** `attach`: always succeeds. */
    method Attach(observer: nat, event: Value) returns (ok: bool)
      modifies this`observers
      ensures ok && observers == Attached(old(observers), observer, event)
    {
      observers := Attached(observers, observer, event);
      ok := true;
    }

    /** `detach`: removes one occurrence; ValueError (raised) and no change when the observer is not subscribed. */
    method Detach(observer: nat, event: Value) returns (raised: bool)
      modifies this`observers
      ensures raised <==> Detached(old(observers), observer, event).None?
      ensures !raised ==> observers == Detached(old(observers), observer, event).value
      ensures raised ==> observers == old(observers)
    {
      var t := Detached(observers, observer, event);
      if t.None? {
        return true;
      }
      observers := t.value;
      raised := false;
    }

    /** `notify`: `update(self, event)` on every observer of the event, in attachment order. */
    method Notify(event: Value)
      modifies this`updates
      ensures updates == old(updates) + Calls(ObserversOf(observers, event), event)
    {
      var obs := ObserversOf(observers, event);
      var i := 0;
      while i < |obs|
        invariant 0 <= i <= |obs|
        invariant updates == old(updates) + Calls(obs[..i], event)
      {
        assert Calls(obs[..i + 1], event) == Calls(obs[..i], event) + [(obs[i], event)];
        updates := updates + [(obs[i], event)];
        i := i + 1;
      }
      assert obs[..i] == obs;
    }

    /** `recvall(n, sock)`: the loop against `Net.RecvAll`, every exception escaping. */
    method RecvAllOf(n: nat, sock: Socket) returns (r: RecvAllResult)
      modifies sock`incoming
      ensures (r, sock.incoming) == Net.RecvAll(old(sock.incoming), n, [], false)
    {
      var data: seq<byte> := [];
      while |data| < n
        invariant |data| <= n
        invariant Net.RecvAll(old(sock.incoming), n, [], false) == Net.RecvAll(sock.incoming, n, data, false)
        decreases n - |data|
      {
        var packet := sock.Recv(n - |data|);
        match packet {
          case TimedOut => return Escaped;
          case Failed => return Escaped;
          case Data(p) =>
            if p == [] {
              return Eof;
            }
            data := data + p;
        }
      }
      r := Got(data);
    }

    /**
     * `read_data`: a broken read removes the client from `clients` (an
     * OSError escapes when the socket has no peer address to log, a
     * ValueError when it is no longer there); an end of stream or an
     * empty body gives None; a decoding error escapes.
     */
    method ReadData(client: Socket) returns (r: ReadResult)
      modifies this`clients, client`incoming
      ensures var rc := Receive(old(client.incoming), codec, stamp);
        client.incoming == rc.1 &&
        (rc.0 == NoData ==> r == ReadNone && clients == old(clients)) &&
        (rc.0 == Broken && !client.NoPeer() && client in old(clients) ==> r == ReadNone && clients == RemoveFirst(old(clients), client).value) &&
        (rc.0 == Broken && (client.NoPeer() || client !in old(clients)) ==> r == ReadRaised && clients == old(clients)) &&
        (rc.0.Decoded? ==> r == ReadMsg(rc.0.m) && clients == old(clients)) &&
        (rc.0 == Undecodable || rc.0 == NotUtf8 ==> r == ReadRaised && clients == old(clients))
    {
      var raw := RecvAllOf(CHUNK_SIZE, client);
      if raw.Escaped? {
        r := Disconnected(client);
        return;
      }
      if raw.Eof? {
        return ReadNone;
      }
      var data := RecvAllOf(Unpack32(raw.data), client);
      if data.Escaped? {
        r := Disconnected(client);
        return;
      }
      if data.Eof? || data.data == [] {
        return ReadNone;
      }
      if !Utf8.Valid(data.data) {
        return ReadRaised;
      }
      var mes := Load(data.data, codec, stamp);
      if mes.None? {
        return ReadRaised;
      }
      r := ReadMsg(mes.value);
    }

    /**
     * `read_data`'s exception handler: the log line asks for the peer's
     * address, which raises OSError when there is none; then the client is
     * removed.
     */
    method Disconnected(client: Socket) returns (r: ReadResult)
      modifies this`clients
      ensures client.NoPeer() ==> r == ReadRaised && clients == old(clients)
      ensures !client.NoPeer() && client in old(clients) ==> r == ReadNone && clients == RemoveFirst(old(clients), client).value
      ensures !client.NoPeer() && client !in old(clients) ==> r == ReadRaised && clients == old(clients)
    {
      var unnamed := client.PeerName();
      if unnamed {
        return ReadRaised;
      }
      r := RemoveClient(client);
    }

    /** `clients.remove(client)` in an exception handler: ValueError (ReadRaised) when it is not there. */
    method RemoveClient(client: Socket) returns (r: ReadResult)
      modifies this`clients
      ensures client in old(clients) ==> r == ReadNone && clients == RemoveFirst(old(clients), client).value
      ensures client !in old(clients) ==> r == ReadRaised && clients == old(clients)
    {
      var rest := RemoveFirst(clients, client);
      if rest.None? {
        return ReadRaised;
      }
      clients := rest.value;
      r := ReadNone;
    }

    /**
     * `read_client_data`: a message read is queued, with the socket attached
     * (`mes.client`) when it is a presence; nothing is queued otherwise.
     * True when an exception escapes.
     */
    method ReadClientData(client: Socket) returns (raised: bool)
      modifies this`clients, this`messages, client`incoming
      ensures var rc := Receive(old(client.incoming), codec, stamp);
        client.incoming == rc.1 &&
        (raised <==> rc.0 == Undecodable || rc.0 == NotUtf8 || (rc.0 == Broken && (client.NoPeer() || client !in old(clients)))) &&
        (rc.0.Decoded? ==> messages == old(messages) + [WithClient(rc.0.m, client)]) &&
        (!rc.0.Decoded? ==> messages == old(messages))
    {
      var mes := ReadData(client);
      raised := mes.ReadRaised?;
      if mes.ReadMsg? {
        messages := messages + [WithClient(mes.m, client)];
      }
    }

    /**
     * `write_client_data`: the 4-byte big-endian length and the encoded
     * message; on BrokenPipeError the client is removed (a ValueError
     * escapes if it is not in `clients`) and its socket closed.
     */
    method WriteClientData(client: Socket, mes: Message) returns (o: WriteOutcome)
      modifies this`clients, client`sent, client`closed
      ensures o == old(Verdict(Encode(mes, codec), View(client, clients)))
      ensures o == Written ==> client.sent == old(client.sent) + Frame(Encode(mes, codec))
      ensures o != Written ==> client.sent == old(client.sent)
      ensures o == Dropped ==> clients == RemoveFirst(old(clients), client).value && client.closed
      ensures o != Dropped ==> clients == old(clients) && client.closed == old(client.closed)
    {
      var msg := Encode(mes, codec);
      if !Framable(msg) {
        return WriteRaised;
      }
      var s := client.SendAll(Frame(msg));
      if s == Sent {
        return Written;
      }
      if s == OsError {
        return OsFailure;
      }
      var rest := RemoveFirst(clients, client);
      if rest.None? {
        return WriteRaised;
      }
      clients := rest.value;
      client.Close();
      o := Dropped;
    }

    /**
     * `process`: every queued message goes to the command table until one
     * raises; the queue is cleared either way. `raises` says which messages
     * make the (not modelled) command module raise.
     */
    method Process(raises: Message -> bool)
      modifies this`messages, this`dispatched
      ensures dispatched == old(dispatched) + old(messages)[..Handled(old(messages), raises)]
      ensures messages == []
    {
      var i := 0;
      while i < |messages|
        invariant 0 <= i <= |messages|
        invariant messages == old(messages)
        invariant forall j :: 0 <= j < i ==> !raises(messages[j])
        invariant dispatched == old(dispatched) + messages[..i]
      {
        dispatched := dispatched + [messages[i]];
        if raises(messages[i]) {
          HandledAt(messages, raises, i);
          assert messages[..i] + [messages[i]] == messages[..i + 1];
          messages := [];
          return;
        }
        i := i + 1;
      }
      HandledAll(messages, raises);
      assert messages[..i] == messages;
      messages := [];
    }

    /**
     * One step of `service_update_lists`: the notice written to the socket of
     * entry `i`. When the step carries on, the later entries keep meeting
     * the states `ev` says, the ones sharing this socket included.
     */
    method NoticeAt(entries: seq<(string, Socket)>, i: nat, client: Socket, ghost ev: seq<SockView>, ghost sent0: seq<seq<byte>>) returns (w: WriteOutcome)
      requires i < |entries| && |ev| == |entries| && |sent0| == |entries| && client == entries[i].1
      requires Repeats(entries, ev) && ViewsFrom(entries, clients, ev, i)
      requires NotifiedUpTo(entries, Encode(notice, codec), ev, sent0, i)
      modifies this`clients, client`sent, client`closed
      ensures w == Verdict(Encode(notice, codec), ev[i])
      ensures NotifiedUpTo(entries, Encode(notice, codec), ev, sent0, i + 1)
      ensures w != Dropped ==> clients == old(clients)
      ensures w == Dropped ==> RemoveFirst(old(clients), client).Some? && clients == RemoveFirst(old(clients), client).value
      ensures w == OsFailure ==> client.closed
      ensures w != WriteRaised ==> ViewsFrom(entries, clients, ev, i + 1)
    {
      ghost var p := Encode(notice, codec);
      ghost var before := clients;
      assert FirstFrom(entries, i, i);
      AlikeVerdict(p, View(client, clients), ev[i]);
      w := WriteClientData(client, notice);
      forall m | 0 <= m < |entries|
        ensures entries[m].1.sent == sent0[m] + Frames(p, Hits(entries, p, ev, entries[m].1, i + 1))
      {
        if entries[m].1 == client && w == Written {
          assert sent0[m] + Frames(p, Hits(entries, p, ev, entries[m].1, i)) + Frame(p) ==
            sent0[m] + Frames(p, Hits(entries, p, ev, entries[m].1, i + 1));
        }
      }
      if w != WriteRaised {
        forall j | i + 1 <= j < |entries| && FirstFrom(entries, i + 1, j)
          ensures Alike(View(entries[j].1, clients), ev[j])
        {
          if entries[j].1 != client {
            assert FirstFrom(entries, i, j);
            if w == Dropped {
              RemoveFirstKeeps(before, client, entries[j].1);
            }
          } else {
            assert ev[j] == AfterWrite(ev[i]);
          }
        }
      }
    }

    /**
     * `clients.remove(client)` after an OSError: the first occurrence goes,
     * or nothing when it is absent (where a ValueError is raised). Every
     * other socket keeps its membership.
     */
    method DropClient(client: Socket) returns (removed: bool)
      modifies this`clients
      ensures removed <==> client in old(clients)
      ensures removed ==> clients == RemoveFirst(old(clients), client).value
      ensures !removed ==> clients == old(clients)
      ensures forall s :: s != client ==> (s in clients <==> s in old(clients))
    {
      var rest := RemoveFirst(clients, client);
      removed := rest.Some?;
      if removed {
        forall s | s != client
          ensures s in rest.value <==> s in clients
        {
          RemoveFirstKeeps(clients, client, s);
        }
        clients := rest.value;
      }
    }

    /**
     * The `except OSError` handler of `service_update_lists` for entry `k`:
     * the client is removed and the name deleted, unless the removal raises
     * ValueError first.
     */
    method ForgetAt(k: nat)
      requires k < |names|
      modifies this`clients, this`names
      ensures names == if old(names[k].1 in clients) then old(names[..k] + names[k + 1..]) else old(names)
      ensures clients == if old(names[k].1 in clients) then old(RemoveFirst(clients, names[k].1).value) else old(clients)
    {
      var rest := RemoveFirst(clients, names[k].1);
      if rest.Some? {
        clients := rest.value;
        names := names[..k] + names[k + 1..];
      }
    }

    /**
     * The loop of `service_update_lists` as written, up to the first write
     * that does not carry on (index `k`, outcome `w`), or over every entry.
     */
    method NoticeUntilFailure(entries: seq<(string, Socket)>, ghost ev: seq<SockView>, ghost sent0: seq<seq<byte>>) returns (k: nat, w: WriteOutcome)
      requires |ev| == |entries| && |sent0| == |entries|
      requires Repeats(entries, ev) && ViewsFrom(entries, clients, ev, 0)
      requires SentOf(entries) == sent0
      modifies this`clients, Sockets(entries)
      ensures k == FirstFailure(Encode(notice, codec), ev)
      ensures k < |entries| ==> w == Verdict(Encode(notice, codec), ev[k])
      ensures NotifiedUpTo(entries, Encode(notice, codec), ev, sent0, k)
      ensures clients == Pruned(old(clients), entries, Encode(notice, codec), ev, k, false)
    {
      var p := Encode(notice, codec);
      k := 0;
      w := Written;
      while k < |entries|
        invariant 0 <= k <= |entries|
        invariant k <= FirstFailure(p, ev)
        invariant ViewsFrom(entries, clients, ev, k)
        invariant NotifiedUpTo(entries, p, ev, sent0, k)
        invariant clients == Pruned(old(clients), entries, p, ev, k, false)
      {
        assert entries[k].1 in Sockets(entries);
        w := NoticeAt(entries, k, entries[k].1, ev, sent0);
        if !Survives(w) {
          break;
        }
        k := k + 1;
      }
      if k < |entries| {
        NotifiedSkip(entries, p, ev, sent0, k);
      }
      FirstFailureAt(p, ev, k);
    }

    /**
     * The corrected OSError handler for entry `i`, whose socket is closed:
     * its client leaves `clients` when present, and the later entries
     * still meet the states `ev` says.
     */
    method DropAt(entries: seq<(string, Socket)>, i: nat, ghost ev: seq<SockView>)
      requires i < |entries| && |ev| == |entries| && entries[i].1.closed
      requires ViewsFrom(entries, clients, ev, i + 1)
      modifies this`clients
      ensures clients == if entries[i].1 in old(clients) then RemoveFirst(old(clients), entries[i].1).value else old(clients)
      ensures ViewsFrom(entries, clients, ev, i + 1)
    {
      var _ := DropClient(entries[i].1);
    }

    /**
     * The handler after the write to entry `k` did not carry on: on
     * OsFailure the client is removed and the name deleted, when the client
     * is in `clients`.
     */
    method HandleFailure(entries: seq<(string, Socket)>, k: nat, w: WriteOutcome, ghost ev: seq<SockView>, ghost sent0: seq<seq<byte>>)
      requires names == entries && k < |entries| && |ev| == |entries| && |sent0| == |entries|
      requires NotifiedUpTo(entries, Encode(notice, codec), ev, sent0, k)
      modifies this`clients, this`names
      ensures NotifiedUpTo(entries, Encode(notice, codec), ev, sent0, k)
      ensures names == if w == OsFailure && entries[k].1 in old(clients) then entries[..k] + entries[k + 1..] else entries
      ensures clients == if w == OsFailure && RemoveFirst(old(clients), entries[k].1).Some? then RemoveFirst(old(clients), entries[k].1).value else old(clients)
    {
      if w == OsFailure {
        ForgetAt(k);
      }
    }

    /**
     * `service_update_lists` as written: a `response=205` notice to every
     * logged-in connection, in order, a socket filed under several names
     * once per name. When a write raises OSError the client is removed (a
     * ValueError escapes if it is not in `clients`) and its name deleted
     * from the dictionary being iterated, so the next step of the iteration
     * raises RuntimeError: the later names get no notice. Any other
     * exception from the write escapes at once. Each write meets its
     * socket's state at the start, or the state an earlier write to the
     * same socket left (`Effective`).
     */
    method ServiceUpdateLists() returns (o: UpdateOutcome)
      requires NamesDistinct(names)
      modifies this`clients, this`names, Sockets(names)
      ensures var k := FirstFailure(Encode(notice, codec), old(Effective(names, Views(names, clients))));
        o == Finished <==> k == old(|names|)
      ensures var p := Encode(notice, codec);
        var ev := old(Effective(names, Views(names, clients)));
        NotifiedUpTo(old(names), p, ev, old(SentOf(names)), FirstFailure(p, ev))
      ensures var p := Encode(notice, codec);
        var ev := old(Effective(names, Views(names, clients)));
        var k := FirstFailure(p, ev);
        var c := Pruned(old(clients), old(names), p, ev, k, false);
        names == if k < |ev| && Verdict(p, ev[k]) == OsFailure && old(names[k].1) in c then old(names[..k] + names[k + 1..]) else old(names)
      ensures var p := Encode(notice, codec);
        var ev := old(Effective(names, Views(names, clients)));
        var k := FirstFailure(p, ev);
        var c := Pruned(old(clients), old(names), p, ev, k, false);
        clients == if k < |ev| && Verdict(p, ev[k]) == OsFailure && RemoveFirst(c, old(names[k].1)).Some? then RemoveFirst(c, old(names[k].1)).value else c
    {
      EffectiveAtStart(names, clients);
      o := UpdateListsOn(names, Encode(notice, codec), Effective(names, Views(names, clients)), SentOf(names));
    }

    /** `service_update_lists` over the entries it starts from, given the notice's bytes `p`, the states the writes meet and the bytes already sent. */
    method UpdateListsOn(entries: seq<(string, Socket)>, ghost p: seq<byte>, ghost ev: seq<SockView>, ghost sent0: seq<seq<byte>>) returns (o: UpdateOutcome)
      requires names == entries && p == Encode(notice, codec)
      requires |ev| == |entries| && Repeats(entries, ev) && ViewsFrom(entries, clients, ev, 0) && sent0 == SentOf(entries)
      modifies this`clients, this`names, Sockets(entries)
      ensures var k := FirstFailure(p, ev);
        (o == Finished <==> k == |entries|) && NotifiedUpTo(entries, p, ev, sent0, k)
      ensures var k := FirstFailure(p, ev);
        var c := Pruned(old(clients), entries, p, ev, k, false);
        names == if k < |ev| && Verdict(p, ev[k]) == OsFailure && entries[k].1 in c then entries[..k] + entries[k + 1..] else entries
      ensures var k := FirstFailure(p, ev);
        var c := Pruned(old(clients), entries, p, ev, k, false);
        clients == if k < |ev| && Verdict(p, ev[k]) == OsFailure && RemoveFirst(c, entries[k].1).Some? then RemoveFirst(c, entries[k].1).value else c
    {
      var k, w := NoticeUntilFailure(entries, ev, sent0);
      if k == |entries| {
        o := Finished;
      } else {
        HandleFailure(entries, k, w, ev, sent0);
        o := UpdateRaised;
      }
    }

    /** One step of the corrected loop: the notice written to entry `i`, its client dropped when the write raised OSError. */
    method NoticeAndDrop(entries: seq<(string, Socket)>, i: nat, ghost ev: seq<SockView>, ghost sent0: seq<seq<byte>>) returns (w: WriteOutcome)
      requires i < |entries| && |ev| == |entries| && |sent0| == |entries|
      requires Repeats(entries, ev) && ViewsFrom(entries, clients, ev, i)
      requires NotifiedUpTo(entries, Encode(notice, codec), ev, sent0, i)
      modifies this`clients, Sockets(entries)
      ensures w == Verdict(Encode(notice, codec), ev[i])
      ensures NotifiedUpTo(entries, Encode(notice, codec), ev, sent0, i + 1)
      ensures w != WriteRaised ==> ViewsFrom(entries, clients, ev, i + 1)
      ensures clients == PruneStep(old(clients), entries[i].1, w, true)
    {
      assert entries[i].1 in Sockets(entries);
      w := NoticeAt(entries, i, entries[i].1, ev, sent0);
      if w == OsFailure {
        DropAt(entries, i, ev);
      }
    }

    /**
     * The loop of `service_update_lists` as evidently intended: every entry
     * is written, a client whose write raised OSError is removed when
     * present, and `kept` collects the entries to keep. Stops only when a
     * write raises something else.
     */
    method NoticeAll(entries: seq<(string, Socket)>, ghost ev: seq<SockView>, ghost sent0: seq<seq<byte>>) returns (kept: seq<(string, Socket)>, raised: bool)
      requires |ev| == |entries| && |sent0| == |entries|
      requires Repeats(entries, ev) && ViewsFrom(entries, clients, ev, 0)
      requires SentOf(entries) == sent0
      modifies this`clients, Sockets(entries)
      ensures raised <==> exists j :: 0 <= j < |entries| && Verdict(Encode(notice, codec), ev[j]) == WriteRaised
      ensures !raised ==> kept == Alive(Encode(notice, codec), entries, ev)
      ensures !raised ==> NotifiedUpTo(entries, Encode(notice, codec), ev, sent0, |entries|)
      ensures NotifiedUpTo(entries, Encode(notice, codec), ev, sent0, FirstRaise(Encode(notice, codec), ev))
      ensures clients == Pruned(old(clients), entries, Encode(notice, codec), ev, FirstRaise(Encode(notice, codec), ev), true)
    {
      var p := Encode(notice, codec);
      var i;
      kept, i, raised := NoticeUntilRaise(entries, ev, sent0);
      FirstRaiseAt(p, ev, i);
      if !raised {
        assert entries[..i] == entries && ev[..i] == ev;
      }
    }

    /** The corrected loop up to the first write that raises something other than OSError (index `i`), or over every entry. */
    method NoticeUntilRaise(entries: seq<(string, Socket)>, ghost ev: seq<SockView>, ghost sent0: seq<seq<byte>>) returns (kept: seq<(string, Socket)>, i: nat, raised: bool)
      requires |ev| == |entries| && |sent0| == |entries|
      requires Repeats(entries, ev) && ViewsFrom(entries, clients, ev, 0)
      requires SentOf(entries) == sent0
      modifies this`clients, Sockets(entries)
      ensures i <= |entries| && (raised <==> i < |entries|)
      ensures raised ==> Verdict(Encode(notice, codec), ev[i]) == WriteRaised
      ensures forall j :: 0 <= j < i ==> Verdict(Encode(notice, codec), ev[j]) != WriteRaised
      ensures NotifiedUpTo(entries, Encode(notice, codec), ev, sent0, i)
      ensures kept == Alive(Encode(notice, codec), entries[..i], ev[..i])
      ensures clients == Pruned(old(clients), entries, Encode(notice, codec), ev, i, true)
    {
      var p := Encode(notice, codec);
      ghost var c0 := clients;
      kept := [];
      i := 0;
      raised := false;
      while i < |entries|
        invariant 0 <= i <= |entries|
        invariant forall j :: 0 <= j < i ==> Verdict(p, ev[j]) != WriteRaised
        invariant ViewsFrom(entries, clients, ev, i)
        invariant NotifiedUpTo(entries, p, ev, sent0, i)
        invariant kept == Alive(p, entries[..i], ev[..i])
        invariant clients == Pruned(c0, entries, p, ev, i, true)
      {
        ghost var before := clients;
        var w := NoticeAndDrop(entries, i, ev, sent0);
        if w == WriteRaised {
          assert clients == before;
          NotifiedSkip(entries, p, ev, sent0, i);
          raised := true;
          return;
        }
        assert clients == Pruned(c0, entries, p, ev, i + 1, true);
        if w != OsFailure {
          kept := kept + [entries[i]];
        }
        AliveSnoc(p, entries, ev, i);
        i := i + 1;
      }
    }

    /**
     * `service_update_lists` as evidently intended: every name gets its
     * notice, and the names whose write raised OSError are deleted after the
     * iteration instead of during it (their clients removed when present).
     * Exceptions from the write other than OSError still escape.
     */
    method ServiceUpdateListsFixed() returns (o: UpdateOutcome)
      requires NamesDistinct(names)
      modifies this`clients, this`names, Sockets(names)
      ensures var ev := old(Effective(names, Views(names, clients)));
        o == Finished <==> forall i :: 0 <= i < |ev| ==> Verdict(Encode(notice, codec), ev[i]) != WriteRaised
      ensures o == Finished ==> names == Alive(Encode(notice, codec), old(names), old(Effective(names, Views(names, clients))))
      ensures var p := Encode(notice, codec);
        o == Finished ==> NotifiedUpTo(old(names), p, old(Effective(names, Views(names, clients))), old(SentOf(names)), old(|names|))
      ensures o == UpdateRaised ==> names == old(names)
      ensures var p := Encode(notice, codec);
        var ev := old(Effective(names, Views(names, clients)));
        var k := FirstRaise(p, ev);
        NotifiedUpTo(old(names), p, ev, old(SentOf(names)), k) && clients == Pruned(old(clients), old(names), p, ev, k, true)
    {
      var entries := names;
      EffectiveAtStart(entries, clients);
      ghost var ev := Effective(entries, Views(entries, clients));
      ghost var sent0 := SentOf(entries);
      assert ev == old(Effective(names, Views(names, clients))) && sent0 == old(SentOf(names));
      var kept, raised := NoticeAll(entries, ev, sent0);
      if raised {
        return UpdateRaised;
      }
      names := kept;
      o := Finished;
    }
  }

  /** A codec that writes every message as no bytes: the notice is then the empty payload. */
  function Silent(): (c: Codec)
    ensures forall m :: Encode(m, c) == []
  {
    Codec((f: Fields) => "", (t: string) => [], (b: seq<byte>) => None)
  }

  /** A server with two logged-in users, "ann" on a closed socket and "bob" on a working one; nothing sent yet. */
  method TwoUsers() returns (server: Server, gone: Socket, peer: Socket)
    ensures fresh(server) && fresh(gone) && fresh(peer) && gone != peer
    ensures server.codec == Silent() && server.names == [("ann", gone), ("bob", peer)] && server.clients == [gone, peer]
    ensures NamesDistinct(server.names) && SocketsDistinct(server.names) && peer.sent == []
    ensures Views(server.names, server.clients) == [SockView(true, false, true), SockView(false, false, true)]
  {
    var stamp := (fmt: string) => "";
    gone := new Socket(0, [], false);
    gone.Close();
    peer := new Socket(1, [], false);
    server := new Server(Silent(), stamp);
    server.clients := [gone, peer];
    server.names := [("ann", gone), ("bob", peer)];
    assert View(gone, server.clients) == SockView(true, false, true) && View(peer, server.clients) == SockView(false, false, true);
  }

  /**
   * Two logged-in users, the first one's socket already closed. As written,
   * the OSError handler deletes the first name mid-iteration and the
   * iteration raises before the second user is written to.
   */
  method ClosedFirstSocket() returns (o: UpdateOutcome, heard: seq<byte>, left: seq<string>)
    ensures o == UpdateRaised && heard == [] && left == ["bob"]
  {
    var server, gone, peer := TwoUsers();
    ghost var entries := server.names;
    ghost var vs := Views(entries, server.clients);
    EffectiveDistinct(entries, vs);
    assert FirstFailure(Encode(server.notice, server.codec), vs) == 0;
    o := server.ServiceUpdateLists();
    assert server.names == entries[..0] + entries[1..] == [("bob", peer)];
    heard := peer.sent;
    left := if |server.names| == 1 then [server.names[0].0] else [];
  }

  /** The same two users under the corrected loop: the second one is notified and only the first name is deleted. */
  method ClosedFirstSocketFixed() returns (o: UpdateOutcome, heard: seq<byte>, left: seq<string>)
    ensures o == Finished && heard == Pack32(0) && left == ["bob"]
  {
    var server, gone, peer := TwoUsers();
    ghost var entries := server.names;
    ghost var vs := Views(entries, server.clients);
    ghost var p := Encode(server.notice, server.codec);
    EffectiveDistinct(entries, vs);
    HitsDistinct(entries, p, vs, 1, 2);
    assert entries[1..] == [("bob", peer)] && vs[1..] == [vs[1]];
    assert Alive(p, [("bob", peer)], [vs[1]]) == [("bob", peer)];
    assert Alive(p, entries, vs) == [("bob", peer)];
    assert Frame([]) == Pack32(0);
    o := server.ServiceUpdateListsFixed();
    heard := peer.sent;
    left := if |server.names| == 1 then [server.names[0].0] else [];
  }

  /**
   * One socket filed under two names, "ann" and "bob", whose peer has gone
   * (a broken pipe). As written, the write for "ann" drops the client and
   * closes the socket; the write for "bob" then raises OSError on the
   * closed socket, and `clients.remove` raises ValueError: both names stay.
   */
  method SharedBrokenSocket() returns (o: UpdateOutcome, left: seq<string>, listed: bool)
    ensures o == UpdateRaised && left == ["ann", "bob"] && !listed
  {
    var stamp := (fmt: string) => "";
    var s := new Socket(0, [], true);
    var server := new Server(Silent(), stamp);
    server.clients := [s];
    server.names := [("ann", s), ("bob", s)];
    ghost var entries := server.names;
    ghost var p := Encode(server.notice, server.codec);
    ghost var ev := Effective(entries, Views(entries, server.clients));
    assert View(s, server.clients) == SockView(false, true, true);
    assert FirstFrom(entries, 0, 0) && !FirstFrom(entries, 0, 1);
    assert ev == [SockView(false, true, true), SockView(true, true, true)];
    assert Verdict(p, ev[0]) == Dropped && Verdict(p, ev[1]) == OsFailure;
    FirstFailureAt(p, ev, 1);
    assert RemoveFirst([s], s) == Some([]);
    o := server.ServiceUpdateLists();
    left := if |server.names| == 2 then [server.names[0].0, server.names[1].0] else [];
    listed := s in server.clients;
  }
}
