/**
 * The threaded server of the first snapshot (server/core.py). Unlike the
 * talkative one it has no framing: a client's message is whatever one
 * `recv` of at most `max_package_length` bytes returns, and a reply is the
 * encoded message with no length prefix.
 */
module LegacyServer {
  import opened Wrappers
  import opened Bytes
  import opened Envelope
  import opened Net
  import opened Lists
  import opened ServerParts
  import Utf8

  /** The `max_package_length` setting's default: the most one read takes. */
  const MAX_PACKAGE_LENGTH: nat := 1024

  /**
   * What one `read_client_data` comes to. `NotUtf8`: the debug log line
   * decodes the bytes with the configured encoding (UTF-8) before they are
   * parsed, and raises UnicodeDecodeError on anything else.
   */
  datatype Incoming = Lost | Silence | Decoded(m: Message) | Undecodable | NotUtf8

  /**
   * One `recv(max_package_length)`: a raising read loses the client, an
   * empty read is silence, bytes that are not UTF-8 make the log line
   * raise, other bytes are decoded as one message. The events left
   * afterwards come second.
   */
  function Receive(events: seq<RecvEvent>, c: Codec, stamp: string -> string): (r: (Incoming, seq<RecvEvent>))
    ensures r.1 == RecvStep(events, MAX_PACKAGE_LENGTH).1
    ensures r.0 == Silence <==> RecvStep(events, MAX_PACKAGE_LENGTH).0 == Data([])
    ensures r.0 == Lost <==> !RecvStep(events, MAX_PACKAGE_LENGTH).0.Data?
    ensures r.0 == NotUtf8 <==> var d := RecvStep(events, MAX_PACKAGE_LENGTH).0;
      d.Data? && d.bytes != [] && !Utf8.Valid(d.bytes)
    ensures r.0.Decoded? || r.0 == Undecodable ==> var d := RecvStep(events, MAX_PACKAGE_LENGTH).0;
      d.Data? && Utf8.Valid(d.bytes) && (r.0 == Undecodable <==> c.loads(d.bytes).None?)
  {
    var st := RecvStep(events, MAX_PACKAGE_LENGTH);
    if !st.0.Data? then (Lost, st.1)
    else if st.0.bytes == [] then (Silence, st.1)
    else if !Utf8.Valid(st.0.bytes) then (NotUtf8, st.1)
    else
      match Load(st.0.bytes, c, stamp)
      case None => (Undecodable, st.1)
      case Some(m) => (Decoded(m), st.1)
  }

  /**
   * A reply written by `write_client_data` and arriving in one packet is read
   * back with the same fields (the time stamp excepted), provided it fits
   * in one read; the events after it stay queued.
   */
  lemma ReceiveWritten(m: Message, c: Codec, stamp: string -> string, rest: seq<RecvEvent>)
    requires RoundTrips(c) && Serializable(m.raw) && m.delimiter == CRLF
    requires 0 < |Encode(m, c)| <= MAX_PACKAGE_LENGTH
    ensures var r := Receive([Packet(Encode(m, c))] + rest, c, stamp);
      r.1 == rest && r.0.Decoded? && r.0.m == Load(Encode(m, c), c, stamp).value
    ensures var d := Receive([Packet(Encode(m, c))] + rest, c, stamp).0.m;
      forall k :: k != TIME ==> (k in d.raw <==> k in m.raw) && (k in m.raw ==> d.raw[k] == m.raw[k])
  {
    assert ([Packet(Encode(m, c))] + rest)[1..] == rest;
    LoadEncode(m, c, stamp);
  }

  /**
   * A reply longer than one read is cut: the first read holds only its
   * first `max_package_length` bytes and the rest stays queued for the next
   * read, where it is taken for another message.
   */
  lemma LongReplySplit(p: seq<byte>, rest: seq<RecvEvent>)
    requires |p| > MAX_PACKAGE_LENGTH
    ensures RecvStep([Packet(p)] + rest, MAX_PACKAGE_LENGTH) ==
      (Data(p[..MAX_PACKAGE_LENGTH]), [Packet(p[MAX_PACKAGE_LENGTH..])] + rest)
  {
    assert ([Packet(p)] + rest)[1..] == rest;
  }

  class Server {
    var clients: seq<Socket>
    var messages: seq<Message>
    var observers: map<Value, seq<nat>>
    /** The `update(server, event)` calls made on observers, in order. */
    var updates: seq<(nat, Value)>
    /** The messages handed to the command table, in order. */
    var dispatched: seq<Message>
    const codec: Codec
    const stamp: string -> string

    constructor (codec: Codec, stamp: string -> string)
      ensures this.codec == codec && this.stamp == stamp
      ensures clients == [] && messages == [] && observers == map[] && updates == [] && dispatched == []
    {
      this.codec := codec;
      this.stamp := stamp;
      clients := [];
      messages := [];
      observers := map[];
      updates := [];
      dispatched := [];
    }

    /** `attach`: always succeeds. */
    method Attach(observer: nat, event: Value) returns (ok: bool)
      modifies this`observers
      ensures ok && observers == Attached(old(observers), observer, event)
    {
      observers := Attached(observers, observer, event);
      ok := true;
    }

    /** `detach`: removes one occurrence and answers True; ValueError (raised) and no change when the observer is not subscribed. */
    method Detach(observer: nat, event: Value) returns (raised: bool)
      modifies this`observers
      ensures raised <==> Detached(old(observers), observer, event).None?
      ensures !raised ==> observers == Detached(old(observers), observer, event).value
      ensures raised ==> observers == old(observers)
    {
      var t := Detached(observers, observer, event);
      if t.None? {
        return true;
      }
      observers := t.value;
      raised := false;
    }

    /** `notify`: `update(self, event)` on every observer of the event, in attachment order. */
    method Notify(event: Value)
      modifies this`updates
      ensures updates == old(updates) + Calls(ObserversOf(observers, event), event)
    {
      var obs := ObserversOf(observers, event);
      var i := 0;
      while i < |obs|
        invariant 0 <= i <= |obs|
        invariant updates == old(updates) + Calls(obs[..i], event)
      {
        assert Calls(obs[..i + 1], event) == Calls(obs[..i], event) + [(obs[i], event)];
        updates := updates + [(obs[i], event)];
        i := i + 1;
      }
      assert obs[..i] == obs;
    }

    /**
     * `read_client_data`: a raising `recv` is logged with the peer's address,
     * which raises OSError when the socket has no peer any more; otherwise
     * the client is removed (a ValueError escapes when it is no longer in
     * `clients`). An empty read queues
     * nothing; otherwise the bytes are decoded (an error escapes) and the
     * message queued, with the socket attached to a presence. True when an
     * exception escapes.
     */
    method ReadClientData(client: Socket) returns (raised: bool)
      modifies this`clients, this`messages, client`incoming
      ensures var rc := Receive(old(client.incoming), codec, stamp);
        client.incoming == rc.1 &&
        (raised <==> rc.0 == Undecodable || rc.0 == NotUtf8 || (rc.0 == Lost && (client.NoPeer() || client !in old(clients)))) &&
        (rc.0 == Lost && !client.NoPeer() && client in old(clients) ==> clients == RemoveFirst(old(clients), client).value) &&
        (rc.0 != Lost || client.NoPeer() || client !in old(clients) ==> clients == old(clients)) &&
        (rc.0.Decoded? ==> messages == old(messages) + [WithClient(rc.0.m, client)]) &&
        (!rc.0.Decoded? ==> messages == old(messages))
    {
      var data := client.Recv(MAX_PACKAGE_LENGTH);
      if !data.Data? {
        var unnamed := client.PeerName();
        if unnamed {
          return true;
        }
        var rest := RemoveFirst(clients, client);
        if rest.None? {
          return true;
        }
        clients := rest.value;
        return false;
      }
      if data.bytes == [] {
        return false;
      }
      if !Utf8.Valid(data.bytes) {
        return true;
      }
      var mes := Load(data.bytes, codec, stamp);
      if mes.None? {
        return true;
      }
      messages := messages + [WithClient(mes.value, client)];
      raised := false;
    }

    /**
     * `write_client_data`: the encoded message as it is, with no length
     * prefix. On BrokenPipeError the client is removed (a ValueError escapes
     * if it is not in `clients`) and its socket closed; any other OSError
     * escapes.
     */
    method WriteClientData(client: Socket, mes: Message) returns (o: WriteOutcome)
      modifies this`clients, client`sent, client`closed
      ensures old(client.closed) ==> o == OsFailure
      ensures !old(client.closed) && !client.broken ==> o == Written
      ensures !old(client.closed) && client.broken ==> o == (if client in old(clients) then Dropped else WriteRaised)
      ensures client.sent == if o == Written then old(client.sent) + Encode(mes, codec) else old(client.sent)
      ensures o == Dropped ==> clients == RemoveFirst(old(clients), client).value && client.closed
      ensures o != Dropped ==> clients == old(clients) && client.closed == old(client.closed)
    {
      var s := client.SendAll(Encode(mes, codec));
      if s == Sent {
        return Written;
      }
      if s == OsError {
        return OsFailure;
      }
      var rest := RemoveFirst(clients, client);
      if rest.None? {
        return WriteRaised;
      }
      clients := rest.value;
      client.Close();
      o := Dropped;
    }

    /**
     * `process`: every queued message goes to the command table until one
     * raises; the queue is cleared either way. `raises` says which messages
     * make the (not modelled) command module raise.
     */
    method Process(raises: Message -> bool)
      modifies this`messages, this`dispatched
      ensures dispatched == old(dispatched) + old(messages)[..Handled(old(messages), raises)]
      ensures messages == []
    {
      var i := 0;
      while i < |messages|
        invariant 0 <= i <= |messages|
        invariant messages == old(messages)
        invariant forall j :: 0 <= j < i ==> !raises(messages[j])
        invariant dispatched == old(dispatched) + messages[..i]
      {
        dispatched := dispatched + [messages[i]];
        if raises(messages[i]) {
          HandledAt(messages, raises, i);
          assert messages[..i] + [messages[i]] == messages[..i + 1];
          messages := [];
          return;
        }
        i := i + 1;
      }
      HandledAll(messages, raises);
      assert messages[..i] == messages;
      messages := [];
    }
  }
}
