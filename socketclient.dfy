/**
 * The blocking client of the talkative snapshot
 * (talkative_client/talkative_client/core.py): length-prefixed messages
 * over one socket (`SocketMixin`), and the `connect` handshake that dials
 * the server, refreshes the local account record, sends a presence and
 * walks the server's response codes.
 */
module SocketClient {
  import opened Wrappers
  import opened Bytes
  import opened Envelope
  import opened Net
  import opened Secrets

  /** What `read_data` comes to: nothing, a message, an exception out of it, or `sys.exit(1)`. */
  datatype Reply = NoReply | Reply(m: Message) | Garbled | Lost

  /** The client's settings and the parameters standing for JSON, the clock and the primitives. */
  datatype Config = Config(
    userName: string,
    password: string,
    /** The `active` column's default for a record created by `connect`. */
    activeDefault: bool,
    codec: Codec,
    stamp: string -> string,
    crypto: Crypto)

  /**
   * `read_data`'s reading: a 4-byte header then that many bytes, both with
   * the client's `recvall` (the bytes so far on a timeout). An OSError out
   * of `recv` exits the process; one to three header bytes make
   * `struct.unpack` raise; a body that does not parse makes the decoder
   * raise. The events left afterwards come second.
   */
  function ReadReply(events: seq<RecvEvent>, c: Codec, stamp: string -> string): (r: (Reply, seq<RecvEvent>)) {
    var h := RecvAll(events, CHUNK_SIZE, [], true);
    match h.0
    case Escaped => (Lost, h.1)
    case Eof => (NoReply, h.1)
    case Got(hd) =>
      if hd == [] then (NoReply, h.1)
      else if |hd| != CHUNK_SIZE then (Garbled, h.1)
      else
        var b := RecvAll(h.1, Unpack32(hd), [], true);
        match b.0
        case Escaped => (Lost, b.1)
        case Eof => (NoReply, b.1)
        case Got(d) =>
          if d == [] then (NoReply, b.1)
          else
            match Load(d, c, stamp)
            case None => (Garbled, b.1)
            case Some(m) => (Reply(m), b.1)
  }

  /** A read never adds to the queue, and a read that yields a message consumes part of it. */
  lemma ReadReplyWeight(events: seq<RecvEvent>, c: Codec, stamp: string -> string)
    ensures Weight(ReadReply(events, c, stamp).1) <= Weight(events)
    ensures ReadReply(events, c, stamp).0.Reply? ==> Weight(ReadReply(events, c, stamp).1) < Weight(events)
  {
    RecvAllWeight(events, CHUNK_SIZE, [], true);
    var h := RecvAll(events, CHUNK_SIZE, [], true);
    if h.0.Got? && |h.0.data| == CHUNK_SIZE {
      RecvAllWeight(h.1, Unpack32(h.0.data), [], true);
    }
  }

  /**
   * A frame read back: whenever the peer supplies the 4-byte length of `p`
   * and then `p`, in however many packets, `read_data` decodes exactly `p`.
   */
  lemma ReadReplyFrame(events: seq<RecvEvent>, p: seq<byte>, more: seq<byte>, c: Codec, stamp: string -> string)
    requires Framable(p) && p != [] && Supply(events) == Frame(p) + more
    ensures ReadReply(events, c, stamp).0 == match Load(p, c, stamp) case None => Garbled case Some(m) => Reply(m)
  {
    RecvAllExact(events, CHUNK_SIZE, true);
    RecvAllRest(events, CHUNK_SIZE, [], true);
    assert Supply(events)[..CHUNK_SIZE] == Pack32(|p|);
    assert Supply(events)[CHUNK_SIZE..] == p + more;
    UnpackPack(|p|);
    var h := RecvAll(events, CHUNK_SIZE, [], true);
    RecvAllExact(h.1, |p|, true);
    assert (p + more)[..|p|] == p;
  }

  /** What `send_message` writes is what `read_data` reads: the fields come back, the time stamp excepted. */
  lemma ReadReplySent(events: seq<RecvEvent>, m: Message, more: seq<byte>, c: Codec, stamp: string -> string)
    requires RoundTrips(c) && Serializable(m.raw) && m.delimiter == CRLF
    requires Encode(m, c) != [] && Framable(Encode(m, c)) && Supply(events) == Frame(Encode(m, c)) + more
    ensures ReadReply(events, c, stamp).0.Reply?
    ensures var d := ReadReply(events, c, stamp).0.m;
      d.attrs == map[] && forall k :: k != TIME ==> (k in d.raw <==> k in m.raw) && (k in m.raw ==> d.raw[k] == m.raw[k])
  {
    ReadReplyFrame(events, Encode(m, c), more, c, stamp);
    LoadEncode(m, c, stamp);
  }

  /**
   * Fewer than four header bytes: `read_data` answers None at the end of
   * the stream or when the first read times out empty, raises from
   * `struct.unpack` when one to three bytes came before a timeout, and
   * exits on any other socket error.
   */
  lemma ReadReplyShortHeader(events: seq<RecvEvent>, c: Codec, stamp: string -> string)
    requires |Supply(events)| < CHUNK_SIZE
    ensures Stop(events).Packet? ==> ReadReply(events, c, stamp).0 == NoReply
    ensures Stop(events) == Timeout && Supply(events) == [] ==> ReadReply(events, c, stamp).0 == NoReply
    ensures Stop(events) == Timeout && Supply(events) != [] ==> ReadReply(events, c, stamp).0 == Garbled
    ensures Stop(events) == Failure ==> ReadReply(events, c, stamp).0 == Lost
  {
    RecvAllMeaning(events, CHUNK_SIZE, [], true);
    assert [] + Supply(events) == Supply(events);
  }

  /** A framed empty payload reads as no message at all. */
  lemma ReadReplyEmptyFrame(events: seq<RecvEvent>, more: seq<byte>, c: Codec, stamp: string -> string)
    requires Supply(events) == Frame([]) + more
    ensures ReadReply(events, c, stamp).0 == NoReply
  {
    RecvAllExact(events, CHUNK_SIZE, true);
    assert Supply(events)[..CHUNK_SIZE] == Pack32(0);
    UnpackPack(0);
  }

  /** The account record `connect` keeps in the local database (the columns it touches). */
  datatype Account = Account(username: string, password: string, authKey: seq<byte>, active: bool)

  /**
   * The record after `connect` refreshes it: a found record keeps its stored
   * user name and gets the password, the derived key and `active = False`;
   * otherwise a record is created.
   */
  function Refreshed(found: Option<Account>, cfg: Config): (a: Account)
    ensures a.password == cfg.password && a.authKey == cfg.crypto.kdf(cfg.password, cfg.userName)
    ensures found.Some? ==> a == found.value.(password := a.password, authKey := a.authKey, active := false)
    ensures found.None? ==> a.username == cfg.userName && a.active == cfg.activeDefault
  {
    var key := cfg.crypto.kdf(cfg.password, cfg.userName);
    match found
    case Some(u) => u.(password := cfg.password, authKey := key, active := false)
    case None => Account(cfg.userName, cfg.password, key, cfg.activeDefault)
  }

  /** The reply to a 511 challenge: the base64 digest of the nonce under the account key. */
  function AuthReply(nonce: string, a: Account, cfg: Config): (m: Message)
    ensures Get(m, RESPONSE) == Int(511) && Get(m, ACTION) == Str(AUTH)
    ensures Get(m, USER) == Str(a.username) && Get(m, DATA) == Str(Sign(cfg.crypto, a.authKey, nonce))
  {
    New(map[RESPONSE := Int(511), DATA := Str(Sign(cfg.crypto, a.authKey, nonce)), USER := Str(a.username), ACTION := Str(AUTH)], cfg.stamp)
  }

  /**
   * How `connect` ends: the handshake loop left with the last reply (200
   * or 205), `ServerError` with the error text (400), a plain return on any
   * other code, `sys.exit(1)`, or an exception that escapes.
   */
  datatype Handshake = Established(m: Message) | Rejected(error: Value) | Unanswered(code: Value) | Exited | Crashed

  /** Where a run of `connect` ends: outcome, events left, bytes sent, the local record. */
  datatype Run = Run(outcome: Handshake, events: seq<RecvEvent>, sent: seq<byte>, account: Option<Account>)

  /** The bytes on the wire after sending `payload`, when the socket can send at all. */
  function Transmit(sent: seq<byte>, healthy: bool, payload: seq<byte>): (s: seq<byte>)
    requires Framable(payload)
  {
    if healthy then sent + Frame(payload) else sent
  }

  /** One answered challenge: the loop stops with a run, or goes on with the next reply, the events left and the bytes sent. */
  datatype Turn = Ended(run: Run) | Continued(m: Message, events: seq<RecvEvent>, sent: seq<byte>)

  /**
   * The `511` branch of the handshake loop: the digest of the challenge is
   * sent and the next reply read. A challenge that is not a string or a
   * digest too long to frame raises, a garbled reply raises and a missing
   * one exits; each of those stops the loop with the record untouched. The
   * queue only shrinks, and the output only grows, and only when the
   * socket can send.
   */
  function Challenge(m: Message, events: seq<RecvEvent>, sent: seq<byte>, healthy: bool, a: Account, cfg: Config): (t: Turn)
    requires Get(m, RESPONSE) == Int(511)
    ensures t.Ended? ==> t.run.account == Some(a) && (t.run.outcome.Crashed? || t.run.outcome.Exited?)
    ensures t.Ended? ==> sent <= t.run.sent && (!healthy ==> t.run.sent == sent) && Weight(t.run.events) <= Weight(events)
    ensures t.Continued? ==> sent <= t.sent && (!healthy ==> t.sent == sent) && Weight(t.events) < Weight(events)
  {
    if !Get(m, DATA).Str? then Ended(Run(Crashed, events, sent, Some(a)))
    else
      var payload := Encode(AuthReply(Get(m, DATA).s, a, cfg), cfg.codec);
      if !Framable(payload) then Ended(Run(Crashed, events, sent, Some(a)))
      else
        var sent' := Transmit(sent, healthy, payload);
        var rr := ReadReply(events, cfg.codec, cfg.stamp);
        ReadReplyWeight(events, cfg.codec, cfg.stamp);
        match rr.0
        case Reply(next) => Continued(next, rr.1, sent')
        case Garbled => Ended(Run(Crashed, rr.1, sent', Some(a)))
        case _ => Ended(Run(Exited, rr.1, sent', Some(a)))
  }

  /**
   * The handshake loop from reply `m`: 200 and 205 end it, 400 raises,
   * 511 answers the challenge (Challenge) and goes on with the record
   * marked active, and everything else returns.
   */
  function Exchange(m: Message, events: seq<RecvEvent>, sent: seq<byte>, healthy: bool, a: Account, cfg: Config): (r: Run)
    ensures r.account.Some?
    decreases Weight(events)
  {
    var code := Get(m, RESPONSE);
    if code == Int(200) || code == Int(205) then Run(Established(m), events, sent, Some(a))
    else if code == Int(400) then Run(Rejected(Get(m, ERROR_FIELD)), events, sent, Some(a))
    else if code != Int(511) then Run(Unanswered(code), events, sent, Some(a))
    else
      match Challenge(m, events, sent, healthy, a, cfg)
      case Ended(r) => r
      case Continued(next, rest, sent') => Exchange(next, rest, sent', healthy, a.(active := true), cfg)
  }

  /** The whole of `connect` up to the end of the handshake loop. */
  function Connecting(connected: bool, events: seq<RecvEvent>, sent: seq<byte>, healthy: bool, found: Option<Account>, cfg: Config): (r: Run)
    ensures !connected ==> r == Run(Exited, events, sent, found)
  {
    if !connected then Run(Exited, events, sent, found)
    else
      var a := Refreshed(found, cfg);
      var presence := Encode(Presence("status", Null, map[], Some(cfg.userName), cfg.stamp), cfg.codec);
      if !Framable(presence) then Run(Crashed, events, sent, Some(a))
      else
        var sent' := Transmit(sent, healthy, presence);
        var rr := ReadReply(events, cfg.codec, cfg.stamp);
        match rr.0
        case Reply(m) => Exchange(m, rr.1, sent', healthy, a, cfg)
        case NoReply => Run(Unanswered(Null), rr.1, sent', Some(a))
        case Garbled => Run(Crashed, rr.1, sent', Some(a))
        case Lost => Run(Exited, rr.1, sent', Some(a))
  }

  /**
   * The handshake only ever writes: the bytes sent before it stay a
   * prefix, and nothing is added on a socket that cannot send.
   */
  lemma {:induction false} ExchangeSends(m: Message, events: seq<RecvEvent>, sent: seq<byte>, healthy: bool, a: Account, cfg: Config)
    ensures var r := Exchange(m, events, sent, healthy, a, cfg);
      sent <= r.sent && (!healthy ==> r.sent == sent)
    decreases Weight(events)
  {
    if Get(m, RESPONSE) == Int(511) {
      var t := Challenge(m, events, sent, healthy, a, cfg);
      if t.Continued? {
        ExchangeSends(t.m, t.events, t.sent, healthy, a.(active := true), cfg);
      }
    }
  }

  /** The handshake only ever sets the record's `active` flag: its name, password and key stay as they were. */
  lemma {:induction false} ExchangeKeeps(m: Message, events: seq<RecvEvent>, sent: seq<byte>, healthy: bool, a: Account, cfg: Config)
    ensures var r := Exchange(m, events, sent, healthy, a, cfg);
      r.account.value == a.(active := r.account.value.active)
    decreases Weight(events)
  {
    if Get(m, RESPONSE) == Int(511) {
      var t := Challenge(m, events, sent, healthy, a, cfg);
      if t.Continued? {
        ExchangeKeeps(t.m, t.events, t.sent, healthy, a.(active := true), cfg);
      }
    }
  }

  /**
   * The handshake is established only on a reply whose code is 200 or 205,
   * rejected only with the error text of a 400 reply, and the record is
   * left inactive only when no challenge was answered.
   */
  lemma {:induction false} ExchangeEnds(m: Message, events: seq<RecvEvent>, sent: seq<byte>, healthy: bool, a: Account, cfg: Config)
    ensures var r := Exchange(m, events, sent, healthy, a, cfg);
      (r.outcome.Established? ==> Get(r.outcome.m, RESPONSE) in {Int(200), Int(205)}) &&
      (r.outcome.Unanswered? ==> r.outcome.code !in {Int(200), Int(205), Int(400), Int(511)}) &&
      (!r.account.value.active ==> r.account.value == a)
    decreases Weight(events)
  {
    if Get(m, RESPONSE) == Int(511) {
      var t := Challenge(m, events, sent, healthy, a, cfg);
      if t.Continued? {
        assert Exchange(m, events, sent, healthy, a, cfg) == Exchange(t.m, t.events, t.sent, healthy, a.(active := true), cfg);
        ExchangeEnds(t.m, t.events, t.sent, healthy, a.(active := true), cfg);
      }
    }
  }

  /**
   * A challenge answered with success: after 511 the client sends its
   * digest and the server's 212 reply is an unknown code to this loop, so
   * `connect` returns before the reader starts, with the record marked
   * active.
   */
  lemma AcceptedAuthReturns(m: Message, ok: Message, events: seq<RecvEvent>, more: seq<byte>, sent: seq<byte>, a: Account, cfg: Config)
    requires RoundTrips(cfg.codec) && Serializable(ok.raw) && ok.delimiter == CRLF
    requires Get(m, RESPONSE) == Int(511) && Get(m, DATA).Str? && RESPONSE in ok.raw && ok.raw[RESPONSE] == Int(212)
    requires Framable(Encode(AuthReply(Get(m, DATA).s, a, cfg), cfg.codec))
    requires Encode(ok, cfg.codec) != [] && Framable(Encode(ok, cfg.codec)) && Supply(events) == Frame(Encode(ok, cfg.codec)) + more
    ensures var r := Exchange(m, events, sent, true, a, cfg);
      r.outcome == Unanswered(Int(212)) && r.account == Some(a.(active := true)) &&
      r.sent == sent + Frame(Encode(AuthReply(Get(m, DATA).s, a, cfg), cfg.codec))
  {
    var payload := Encode(AuthReply(Get(m, DATA).s, a, cfg), cfg.codec);
    var rr := ReadReply(events, cfg.codec, cfg.stamp);
    assert rr.0.Reply? && Get(rr.0.m, RESPONSE) == Int(212) by {
      ReadReplySent(events, ok, more, cfg.codec, cfg.stamp);
    }
    ChallengeAnswered(m, events, sent, a, cfg);
    assert Exchange(rr.0.m, rr.1, sent + Frame(payload), true, a.(active := true), cfg) ==
      Run(Unanswered(Int(212)), rr.1, sent + Frame(payload), Some(a.(active := true)));
  }

  /** A challenge answered on a sound socket and followed by a reply: the loop goes on from that reply with the record marked active. */
  lemma ChallengeAnswered(m: Message, events: seq<RecvEvent>, sent: seq<byte>, a: Account, cfg: Config)
    requires Get(m, RESPONSE) == Int(511) && Get(m, DATA).Str?
    requires Framable(Encode(AuthReply(Get(m, DATA).s, a, cfg), cfg.codec))
    requires ReadReply(events, cfg.codec, cfg.stamp).0.Reply?
    ensures var rr := ReadReply(events, cfg.codec, cfg.stamp);
      Exchange(m, events, sent, true, a, cfg) ==
      Exchange(rr.0.m, rr.1, sent + Frame(Encode(AuthReply(Get(m, DATA).s, a, cfg), cfg.codec)), true, a.(active := true), cfg)
  {
    var rr := ReadReply(events, cfg.codec, cfg.stamp);
    assert Challenge(m, events, sent, true, a, cfg) == Continued(rr.0.m, rr.1, sent + Frame(Encode(AuthReply(Get(m, DATA).s, a, cfg), cfg.codec)));
  }

  /** Whether a `send` on the socket goes through (it is neither closed nor talking to a gone peer). */
  predicate Healthy(s: Socket)
    reads s`closed, s`broken
  {
    !s.closed && !s.broken
  }

  /** `SocketMixin` over one socket, with the `connect` of `Client`. */
  class Client {
    const sock: Socket
    const cfg: Config
    /** What `User.by_name(USER_NAME)` finds in the local database. */
    var account: Option<Account>

    constructor (sock: Socket, cfg: Config, account: Option<Account>)
      ensures this.sock == sock && this.cfg == cfg && this.account == account
    {
      this.sock := sock;
      this.cfg := cfg;
      this.account := account;
    }

    /**
     * `send_message`: the 4-byte big-endian length, then the message bytes.
     * OSError and BrokenPipeError are only logged; a message too long for
     * the prefix makes `struct.pack` raise.
     */
    method SendMessage(mes: Message) returns (raised: bool)
      modifies sock`sent
      ensures raised <==> !Framable(Encode(mes, cfg.codec))
      ensures !raised ==> sock.sent == Transmit(old(sock.sent), Healthy(sock), Encode(mes, cfg.codec))
      ensures raised ==> sock.sent == old(sock.sent)
    {
      var msg := Encode(mes, cfg.codec);
      if !Framable(msg) {
        return true;
      }
      var _ := sock.SendAll(Frame(msg));
      raised := false;
    }

    /** `recvall(n)`: the bytes so far on a timeout, None on an empty packet. */
    method RecvAll(n: nat) returns (r: RecvAllResult)
      modifies sock`incoming
      ensures (r, sock.incoming) == Net.RecvAll(old(sock.incoming), n, [], true)
    {
      var data: seq<byte> := [];
      while |data| < n
        invariant |data| <= n
        invariant Net.RecvAll(old(sock.incoming), n, [], true) == Net.RecvAll(sock.incoming, n, data, true)
        decreases n - |data|
      {
        var packet := sock.Recv(n - |data|);
        match packet {
          case TimedOut => return Got(data);
          case Failed => return Escaped;
          case Data(p) =>
            if p == [] {
              return Eof;
            }
            data := data + p;
        }
      }
      r := Got(data);
    }

    /** `read_data`. */
    method ReadData() returns (r: Reply)
      modifies sock`incoming
      ensures (r, sock.incoming) == ReadReply(old(sock.incoming), cfg.codec, cfg.stamp)
    {
      var raw := RecvAll(CHUNK_SIZE);
      if raw.Escaped? {
        return Lost;
      }
      if raw.Eof? || raw.data == [] {
        return NoReply;
      }
      if |raw.data| != CHUNK_SIZE {
        return Garbled;
      }
      var data := RecvAll(Unpack32(raw.data));
      if data.Escaped? {
        return Lost;
      }
      if data.Eof? || data.data == [] {
        return NoReply;
      }
      var mes := Load(data.data, cfg.codec, cfg.stamp);
      if mes.None? {
        return Garbled;
      }
      r := Reply(mes.value);
    }

    /** The five connection attempts: `accepts[i]` says whether attempt `i` gets through. */
    method Dial(accepts: seq<bool>) returns (connected: bool)
      ensures connected <==> exists i :: 0 <= i < 5 && i < |accepts| && accepts[i]
    {
      connected := false;
      var i := 0;
      while i < 5
        invariant 0 <= i <= 5
        invariant forall j :: 0 <= j < i && j < |accepts| ==> !accepts[j]
        decreases 5 - i
      {
        if i < |accepts| && accepts[i] {
          connected := true;
          break;
        }
        i := i + 1;
      }
    }

    /** The challenge-response loop of `connect`, from the first reply `m`. */
    method HandshakeLoop(m: Message) returns (o: Handshake)
      requires account.Some?
      modifies sock`incoming, sock`sent, this`account
      ensures var r := Exchange(m, old(sock.incoming), old(sock.sent), Healthy(sock), old(account.value), cfg);
        o == r.outcome && sock.incoming == r.events && sock.sent == r.sent && account == r.account
    {
      var message := m;
      ghost var target := Exchange(m, sock.incoming, sock.sent, Healthy(sock), account.value, cfg);
      while true
        invariant account.Some?
        invariant Exchange(message, sock.incoming, sock.sent, Healthy(sock), account.value, cfg) == target
        decreases Weight(sock.incoming)
      {
        var response := Get(message, RESPONSE);
        if response == Int(200) || response == Int(205) {
          return Established(message);
        } else if response == Int(400) {
          return Rejected(Get(message, ERROR_FIELD));
        } else if response == Int(511) {
          var stop;
          stop, message := Authenticate(message);
          if stop.Some? {
            return stop.value;
          }
        } else {
          return Unanswered(response);
        }
      }
    }

    /**
     * One `511` turn of the handshake loop (Challenge): the answer to the
     * server's challenge is sent and the next reply read. Either the loop
     * ends here (`stop`), or it goes on with `next`, with the account
     * marked active.
     */
    method Authenticate(message: Message) returns (stop: Option<Handshake>, next: Message)
      requires account.Some? && Get(message, RESPONSE) == Int(511)
      modifies sock`incoming, sock`sent, this`account
      ensures var t := Challenge(message, old(sock.incoming), old(sock.sent), Healthy(sock), old(account.value), cfg);
        t.Ended? ==> stop == Some(t.run.outcome) && Run(t.run.outcome, sock.incoming, sock.sent, account) == t.run
      ensures var t := Challenge(message, old(sock.incoming), old(sock.sent), Healthy(sock), old(account.value), cfg);
        t.Continued? ==> (stop.None? && next == t.m && sock.incoming == t.events && sock.sent == t.sent &&
                          account == Some(old(account.value).(active := true)))
    {
      next := message;
      ghost var t := Challenge(message, sock.incoming, sock.sent, Healthy(sock), account.value, cfg);
      var ansData := Get(message, DATA);
      if !ansData.Str? {
        assert t == Ended(Run(Crashed, sock.incoming, sock.sent, account));
        return Some(Crashed), next;
      }
      var raised := SendMessage(AuthReply(ansData.s, account.value, cfg));
      if raised {
        assert t == Ended(Run(Crashed, sock.incoming, sock.sent, account));
        return Some(Crashed), next;
      }
      ghost var sent' := sock.sent;
      var reply := ReadData();
      assert t == match reply
        case Reply(n) => Continued(n, sock.incoming, sent')
        case Garbled => Ended(Run(Crashed, sock.incoming, sent', account))
        case _ => Ended(Run(Exited, sock.incoming, sent', account));
      if reply.Garbled? {
        return Some(Crashed), next;
      }
      if !reply.Reply? {
        return Some(Exited), next;
      }
      next := reply.m;
      account := Some(account.value.(active := true));
      stop := None;
    }

    /** `connect` up to the end of the handshake loop. */
    method Connect(accepts: seq<bool>) returns (o: Handshake)
      modifies sock`incoming, sock`sent, this`account
      ensures var connected := exists i :: 0 <= i < 5 && i < |accepts| && accepts[i];
        var r := Connecting(connected, old(sock.incoming), old(sock.sent), Healthy(sock), old(account), cfg);
        o == r.outcome && sock.incoming == r.events && sock.sent == r.sent && account == r.account
    {
      var connected := Dial(accepts);
      if !connected {
        return Exited;
      }
      account := Some(Refreshed(account, cfg));
      var raised := SendMessage(Presence("status", Null, map[], Some(cfg.userName), cfg.stamp));
      if raised {
        return Crashed;
      }
      var message := ReadData();
      match message {
        case Reply(m) => o := HandshakeLoop(m);
        case NoReply => o := Unanswered(Null);
        case Garbled => o := Crashed;
        case Lost => o := Exited;
      }
    }
  }
}
