/**
 * The asyncio server of the talkative snapshot
 * (talkative_server/talkative_server/async_core.py): a protocol per
 * connection that reassembles length-prefixed messages and hands each to the
 * server, which notifies the observers registered for the message's action
 * (or response code). The observers are the command classes a module-level
 * router registers by name, and Qt widgets that receive a signal instead.
 * The commands modelled here are the challenge-response login (`Presence`,
 * `Auth`, with the server's pending table `auth`), message relay, public
 * key lookup and exit, all against the document store (`db_mongo.py`).
 */
module AsyncServer {
  import opened Wrappers
  import opened Bytes
  import opened Envelope
  import opened Lists
  import opened Framing
  import opened Secrets
  import opened Guards
  import opened Dispatch
  import opened Text
  import MongoStore
  import Utf8

  const NOT_REGISTERED := "Пользователь не зарегистрирован."
  const NAME_TAKEN := "Имя пользователя уже занято."
  const AUTH_FAILED := "Ошибка авторизации"
  const NO_KEY := "Ошибка определения ключа"

  const USERS_REQUEST := "get_users"
  const GET_CONTACTS := "get_contacts"
  const AVA_INFO := "edit_ava"
  const PUBLIC_KEY_REQUEST := "pubkey_need"
  const DEL_CONTACT := "remove"
  const ADD_CONTACT := "add"

  /** The command classes of the module, and a command object that has no `name` attribute. */
  datatype Handler =
    | PresenceCmd | AuthCmd | UserListCmd | ListContactsCmd | EditAvatarCmd
    | RequestKeyCmd | DelContactCmd | AddContactCmd | MessageCmd | ExitCmd
    | Nameless(id: nat)

  /** A command's class attribute `name`. */
  function NameOf(h: Handler): Value {
    match h
    case PresenceCmd => Str(PRESENCE)
    case AuthCmd => Str(AUTH)
    case UserListCmd => Str(USERS_REQUEST)
    case ListContactsCmd => Str(GET_CONTACTS)
    case EditAvatarCmd => Str(AVA_INFO)
    case RequestKeyCmd => Str(PUBLIC_KEY_REQUEST)
    case DelContactCmd => Str(DEL_CONTACT)
    case AddContactCmd => Str(ADD_CONTACT)
    case MessageCmd => Str(MESSAGE)
    case ExitCmd => Str(EXIT)
    case Nameless(_) => Null
  }

  type Observer = Dispatch.Observer<Handler>

  /** What a command may draw from the outside world: the hexlified `os.urandom` nonce and `datetime.now()`. */
  datatype Env = Env(nonce: string, now: string)

  function Wires(ts: seq<Transport>): (r: seq<Wire>)
    reads set i | 0 <= i < |ts| :: ts[i]
    ensures |r| == |ts| && forall i :: 0 <= i < |ts| ==> r[i] == WireOf(ts[i])
  {
    seq(|ts|, i reads set i | 0 <= i < |ts| :: ts[i] requires 0 <= i < |ts| => WireOf(ts[i]))
  }

  /** `loop._transports` holds each transport once. */
  predicate Distinct(ts: seq<Transport>) {
    forall i, j :: 0 <= i < j < |ts| ==> ts[i] != ts[j]
  }

  function Peers(ts: seq<Transport>): (r: seq<Peer>)
    ensures |r| == |ts| && forall i :: 0 <= i < |ts| ==> r[i] == ts[i].peer
  {
    seq(|ts|, i requires 0 <= i < |ts| => ts[i].peer)
  }

  /** A session row stands for the connection at `p`. */
  predicate At(a: MongoStore.ActiveRow, p: Peer) {
    a.ip == p.ip && a.port == Some(p.port)
  }

  /** The end of `get_user_tr`: AttributeError, no transport, or the transport at an index. */
  datatype Route = Raises | NoRoute | Route(i: nat)

  /**
   * `get_user_tr` as written. Its `v is self` compares a transport with the
   * protocol and never holds, so the loop starts on the first transport and
   * reads `act_user.ip_addr` there, which raises when the user has no
   * session (`act_user` is None).
   */
  function UserTransport(act: Option<MongoStore.ActiveRow>, peers: seq<Peer>): Route {
    if peers == [] then NoRoute
    else if act.None? then Raises
    else
      match FirstWhere(peers, (p: Peer) => At(act.value, p))
      case None => NoRoute
      case Some(i) => Route(i)
  }

  /**
   * `get_user_tr` as its caller expects it: no transport for a user without
   * a session, else the first transport at the session's address.
   */
  function UserTransportFixed(act: Option<MongoStore.ActiveRow>, peers: seq<Peer>): (r: Route)
    ensures !r.Raises?
    ensures r.Route? ==> act.Some? && r.i < |peers| && At(act.value, peers[r.i]) && forall j :: 0 <= j < r.i ==> !At(act.value, peers[j])
    ensures r.NoRoute? <==> act.None? || forall j :: 0 <= j < |peers| ==> !At(act.value, peers[j])
  {
    if act.None? then NoRoute
    else
      match FirstWhere(peers, (p: Peer) => At(act.value, p))
      case None => NoRoute
      case Some(i) => Route(i)
  }

  /** Both readings agree for a user with a session. */
  lemma RoutesAgreeOnline(act: Option<MongoStore.ActiveRow>, peers: seq<Peer>)
    requires act.Some?
    ensures UserTransport(act, peers) == UserTransportFixed(act, peers)
  {
  }

  /**
   * The sender's own transport is always among the loop's transports, so as
   * written a message to a user without a session raises AttributeError
   * instead of being dropped.
   */
  lemma OfflineDestinationRaises(act: Option<MongoStore.ActiveRow>, ts: seq<Transport>, proto: Transport)
    requires proto in ts && act.None?
    ensures UserTransport(act, Peers(ts)).Raises?
    ensures UserTransportFixed(act, Peers(ts)).NoRoute?
  {
  }

  /** The username's pending entry: the HMAC of the nonce under the stored key, and the offered public key. */
  type Pending = map<string, (seq<byte>, Value)>

  /** `Presence.update`'s decision: the reply and the entry it files in `auth`, if any. */
  datatype Challenge = Challenge(reply: Message, entry: Option<(string, (seq<byte>, Value))>)

  function NotRegistered(stamp: string -> string): Message {
    ErrorResp(NOT_REGISTERED, map[], stamp)
  }

  /** The 511 challenge carrying the nonce. */
  function AuthChallenge(nonce: string, stamp: string -> string): (m: Message)
    ensures Get(m, RESPONSE) == Int(511) && Get(m, ACTION) == Str(AUTH) && Get(m, DATA) == Str(nonce)
  {
    New(map[RESPONSE := Int(511), ACTION := Str(AUTH), DATA := Str(nonce)], stamp)
  }

  /**
   * `Presence.update`: an unknown user and a user who already has a session
   * get an error reply and nothing is filed; otherwise the user's entry is
   * the HMAC of the nonce's bytes under the stored key together with the
   * message's public key, and the reply is the challenge.
   */
  function PresenceChallenge(store: MongoStore.Store, msg: Message, nonce: string, cr: Crypto, stamp: string -> string): (c: Challenge)
    reads store
    ensures var u := store.ByName(UserAccountName(msg));
      (u.None? ==> c == Challenge(NotRegistered(stamp), None)) &&
      (u.Some? && store.Activity(u.value) != [] ==> c == Challenge(ErrorResp(NAME_TAKEN, map[], stamp), None)) &&
      (u.Some? && store.Activity(u.value) == [] ==>
        c.reply == AuthChallenge(nonce, stamp) &&
        c.entry == Some((store.users[u.value].username, (cr.hmac(store.users[u.value].authKey, cr.utf8(nonce)), Get(msg, PUBLIC_KEY)))))
  {
    var u := store.ByName(UserAccountName(msg));
    if u.None? then Challenge(NotRegistered(stamp), None)
    else if store.Activity(u.value) != [] then Challenge(ErrorResp(NAME_TAKEN, map[], stamp), None)
    else
      var user := store.users[u.value];
      Challenge(AuthChallenge(nonce, stamp), Some((user.username, (cr.hmac(user.authKey, cr.utf8(nonce)), Get(msg, PUBLIC_KEY)))))
  }

  /** How `Auth.update` ends: unknown user, a `bin` field base64 cannot decode (raised before the pop), or after the pop. */
  datatype Verdict = Unregistered | Undecodable | Granted(user: nat, pubKey: Value) | Denied(user: nat)

  /** The client's digest: `a2b_base64` of the `bin` field; None when that raises (absent, not a string, not base64). */
  function ClientDigest(msg: Message, cr: Crypto): Option<seq<byte>> {
    var d := Get(msg, DATA);
    if d.Str? then cr.unb64(d.s) else None
  }

  /**
   * `Auth.update`'s decision and the pending table afterwards: the entry
   * of a known user is popped whatever the outcome, once the client's
   * digest has been decoded; access is granted exactly when the entry was
   * there with a non-empty digest equal to the client's.
   */
  function AuthVerdict(store: MongoStore.Store, auth: Pending, msg: Message, cr: Crypto): (r: (Verdict, Pending))
    reads store
    ensures var u := store.ByName(UserAccountName(msg));
      (u.None? <==> r.0.Unregistered?) &&
      (u.Some? ==> (r.0.Undecodable? <==> ClientDigest(msg, cr).None?)) &&
      (r.0.Unregistered? || r.0.Undecodable? ==> r.1 == auth)
    ensures r.0.Granted? || r.0.Denied? ==>
      var u := store.ByName(UserAccountName(msg)).value;
      var name := store.users[u].username;
      r.0.user == u && r.1 == auth - {name} &&
      (r.0.Granted? <==> name in auth && auth[name].0 != [] && ClientDigest(msg, cr) == Some(auth[name].0)) &&
      (r.0.Granted? ==> r.0.pubKey == auth[name].1)
  {
    var u := store.ByName(UserAccountName(msg));
    if u.None? then (Unregistered, auth)
    else
      var client := ClientDigest(msg, cr);
      if client.None? then (Undecodable, auth)
      else
        var name := store.users[u.value].username;
        var rest := auth - {name};
        if name in auth && auth[name].0 != [] && auth[name].0 == client.value then (Granted(u.value, auth[name].1), rest)
        else (Denied(u.value), rest)
  }

  /** The reply `Auth.update` writes for a decoded verdict. */
  function AuthAnswer(v: Verdict, stamp: string -> string): (m: Message)
    requires !v.Undecodable?
    ensures v.Unregistered? ==> m == NotRegistered(stamp)
    ensures v.Granted? ==> Get(m, RESPONSE) == Int(212) && Get(m, ACTION) == Str(AUTH)
    ensures v.Denied? ==> Get(m, RESPONSE) == Int(412) && Get(m, ACTION) == Str(AUTH) && Get(m, ERROR_FIELD) == Str(AUTH_FAILED)
  {
    match v
    case Unregistered => NotRegistered(stamp)
    case Granted(_, _) => New(map[RESPONSE := Int(212), ACTION := Str(AUTH)], stamp)
    case Denied(_) => New(map[RESPONSE := Int(412), ERROR_FIELD := Str(AUTH_FAILED), ACTION := Str(AUTH)], stamp)
  }

  /** An entry is good for one attempt: after any decided attempt, the same message is denied. */
  lemma AuthIsOneShot(store: MongoStore.Store, auth: Pending, msg: Message, cr: Crypto)
    requires var v := AuthVerdict(store, auth, msg, cr).0; v.Granted? || v.Denied?
    ensures AuthVerdict(store, AuthVerdict(store, auth, msg, cr).1, msg, cr).0.Denied?
  {
  }

  /**
   * The challenge and the answer fit together: a client that signs the
   * challenge's nonce with the key the store holds for it is granted, with
   * the public key it offered at presence.
   */
  lemma ChallengeAnswered(store: MongoStore.Store, auth: Pending, presence: Message, answer: Message, nonce: string, cr: Crypto, stamp: string -> string)
    requires Base64RoundTrips(cr)
    requires PresenceChallenge(store, presence, nonce, cr, stamp).entry.Some?
    requires store.ByName(UserAccountName(answer)) == store.ByName(UserAccountName(presence))
    requires var u := store.ByName(UserAccountName(presence)).value;
      Get(answer, DATA) == Str(Sign(cr, store.users[u].authKey, nonce)) &&
      cr.hmac(store.users[u].authKey, cr.utf8(nonce)) != []
    ensures var e := PresenceChallenge(store, presence, nonce, cr, stamp).entry.value;
      AuthVerdict(store, auth[e.0 := e.1], answer, cr).0 == Granted(store.ByName(UserAccountName(presence)).value, Get(presence, PUBLIC_KEY))
  {
    var u := store.ByName(UserAccountName(presence)).value;
    var d := cr.hmac(store.users[u].authKey, cr.utf8(nonce));
    assert cr.unb64(cr.b64(d)) == Some(d);
  }

  /** The 202 reply carrying a user's public key. */
  function KeyFound(pubKey: Value, dest: Value, stamp: string -> string): (m: Message)
    ensures Get(m, RESPONSE) == Int(202) && Get(m, DATA) == pubKey
    ensures Get(m, ACCOUNT_NAME) == dest && Get(m, ACTION) == Str(PUBLIC_KEY_REQUEST)
  {
    New(map[RESPONSE := Int(202), DATA := pubKey, ACCOUNT_NAME := dest, ACTION := Str(PUBLIC_KEY_REQUEST)], stamp)
  }

  /** The reply to a public key request: the destination's stored key when it has a truthy one, else an error. */
  function KeyReply(store: MongoStore.Store, msg: Message, stamp: string -> string): (m: Message)
    reads store
    ensures var u := store.ByName(Get(msg, DESTINATION));
      if u.Some? && Truthy(store.users[u.value].pubKey) then m == KeyFound(store.users[u.value].pubKey, Get(msg, DESTINATION), stamp)
      else m == ErrorResp(NO_KEY, map[], stamp)
  {
    var dest := Get(msg, DESTINATION);
    var u := store.ByName(dest);
    if u.Some? && Truthy(store.users[u.value].pubKey) then
      KeyFound(store.users[u.value].pubKey, dest, stamp)
    else ErrorResp(NO_KEY, map[], stamp)
  }

  /** The user a command message speaks for is known and has an open session: what `login_required_db` lets through. */
  predicate SessionOpen(store: MongoStore.Store, msg: Message)
    reads store
  {
    var u := store.ByName(UserAccountName(msg));
    u.Some? && store.Activity(u.value) != []
  }

  /** The positional arguments of `update(server, event, proto, msg)`. */
  function UpdateArgs(event: Value, msg: Message): seq<Arg> {
    [OtherArg(Ref(0)), OtherArg(event), OtherArg(Ref(1)), MessageArg(msg)]
  }

  /** The list-update notice `service_update_lists` sends. */
  function ListsChanged(stamp: string -> string): (m: Message)
    ensures Get(m, RESPONSE) == Int(205)
  {
    New(map[RESPONSE := Int(205)], stamp)
  }

  /** The wires after `service_update_lists` has written `p` to the first `k` transports, skipping `excep`. */
  function Notified(w0: seq<Wire>, ts: seq<Transport>, excep: Transport?, p: seq<byte>, k: nat): (r: seq<Wire>)
    requires |w0| == |ts| && Framable(p)
    ensures |r| == |ts|
    ensures forall j :: 0 <= j < |ts| ==> r[j] == if j < k && ts[j] != excep then Written(w0[j], p) else w0[j]
  {
    seq(|ts|, j requires 0 <= j < |ts| => if j < k && ts[j] != excep then Written(w0[j], p) else w0[j])
  }

  /** One more transport handled by `service_update_lists`. */
  lemma NotifiedStep(w0: seq<Wire>, ts: seq<Transport>, excep: Transport?, p: seq<byte>, k: nat)
    requires |w0| == |ts| && Framable(p) && k < |ts|
    ensures Notified(w0, ts, excep, p, k + 1) ==
      if ts[k] != excep then Notified(w0, ts, excep, p, k)[k := Written(w0[k], p)] else Notified(w0, ts, excep, p, k)
  {
    var a := Notified(w0, ts, excep, p, k + 1);
    var b := Notified(w0, ts, excep, p, k);
    if ts[k] != excep {
      assert forall j :: 0 <= j < |ts| ==> a[j] == b[k := Written(w0[k], p)][j];
    } else {
      assert forall j :: 0 <= j < |ts| ==> a[j] == b[j];
    }
  }

  class Server {
    var observers: map<Value, seq<Observer>>
    /** `auth`: the pending challenges, by username. */
    var auth: Pending
    /** The events emitted to Qt observers through the `update` signal, in order. */
    var signals: seq<Value>
    /** The `update(server, event, proto, msg)` calls made on commands, in order. */
    var calls: seq<(Handler, Value)>
    /** `loop._transports`: the transports of the open connections. */
    const transports: seq<Transport>
    const store: MongoStore.Store
    const codec: Codec
    const stamp: string -> string
    const crypto: Crypto

    /** `ServerA()` before the router attaches its commands. */
    constructor (store: MongoStore.Store, transports: seq<Transport>, codec: Codec, stamp: string -> string, crypto: Crypto)
      ensures this.store == store && this.transports == transports
      ensures this.codec == codec && this.stamp == stamp && this.crypto == crypto
      ensures observers == map[] && auth == map[] && signals == [] && calls == []
    {
      this.store := store;
      this.transports := transports;
      this.codec := codec;
      this.stamp := stamp;
      this.crypto := crypto;
      observers := map[];
      auth := map[];
      signals := [];
      calls := [];
    }

    function Links(): set<Transport> {
      set i | 0 <= i < |transports| :: transports[i]
    }

    /** `attach`: always succeeds. */
    method Attach(observer: Observer, event: Value) returns (ok: bool)
      modifies this`observers
      ensures ok && observers == Attached(old(observers), observer, event)
    {
      observers := Attached(observers, observer, event);
      ok := true;
    }

    /** `detach`: ValueError (raised) and no change when the observer is not subscribed. */
    method Detach(observer: Observer, event: Value) returns (raised: bool)
      modifies this`observers
      ensures raised <==> Detached(old(observers), observer, event).None?
      ensures !raised ==> observers == Detached(old(observers), observer, event).value
      ensures raised ==> observers == old(observers)
    {
      var t := Detached(observers, observer, event);
      if t.None? {
        return true;
      }
      observers := t.value;
      raised := false;
    }

    /** `notify(event)` without arguments, as the commands call it when done. */
    method Announce(event: Value) returns (raised: bool)
      modifies this`signals
      ensures var obs := ObserversOf(observers, event);
        signals == old(signals) + Repeat(event, Reached(obs)) && (raised <==> Reached(obs) < |obs|)
    {
      var obs := ObserversOf(observers, event);
      var i := 0;
      while i < |obs| && obs[i].Widget?
        invariant 0 <= i <= |obs| && forall j :: 0 <= j < i ==> obs[j].Widget?
        invariant signals == old(signals) + Repeat(event, i)
      {
        signals := signals + [event];
        i := i + 1;
      }
      assert i == Reached(obs);
      raised := i < |obs|;
    }

    /** `proto.write(msg, t)`. */
    method WriteTo(t: Transport, m: Message) returns (raised: bool)
      modifies t
      ensures raised <==> !Framable(Encode(m, codec))
      ensures WroteTo(t, old(WireOf(t)), Encode(m, codec)) && t.maxSize == old(t.maxSize)
    {
      raised := t.Write(Encode(m, codec));
    }

    /** `login_required_db` on `update(server, event, proto, msg)`: the message is the only one among the arguments. */
    method Guard(event: Value, msg: Message) returns (admitted: bool)
      ensures admitted <==> SessionOpen(store, msg)
    {
      var user, ok := LoginRequiredDb(store, UpdateArgs(event, msg), []);
      assert FirstMessage(UpdateArgs(event, msg)) == Some(msg) by {
        assert UpdateArgs(event, msg)[3] == MessageArg(msg);
      }
      assert FirstMessage(Values([])) == None;
      admitted := ok;
    }

    /**
     * The effect of a challenge on the asking connection: its entry filed
     * (before the write), its reply written, and `done_presence` announced
     * only when a challenge went out.
     */
    predicate Challenged(proto: Transport, c: Challenge, w0: Wire, auth0: Pending, signals0: seq<Value>, raised: bool)
      reads this, proto
    {
      var p := Encode(c.reply, codec);
      var obs := ObserversOf(observers, Str("done_presence"));
      auth == (if c.entry.Some? then auth0[c.entry.value.0 := c.entry.value.1] else auth0) &&
      WroteTo(proto, w0, p) &&
      (!Framable(p) ==> raised && signals == signals0) &&
      (Framable(p) && c.entry.None? ==> !raised && signals == signals0) &&
      (Framable(p) && c.entry.Some? ==>
        signals == signals0 + Repeat(Str("done_presence"), Reached(obs)) && (raised <==> Reached(obs) < |obs|))
    }

    /**
     * `Presence.update`: the entry is filed before the reply is written,
     * and `done_presence` is announced only after a challenge went out.
     */
    method PresenceUpdate(proto: Transport, msg: Message, nonce: string) returns (raised: bool)
      modifies proto, this`auth, this`signals
      ensures Challenged(proto, PresenceChallenge(store, msg, nonce, crypto, stamp), old(WireOf(proto)), old(auth), old(signals), raised)
    {
      var c := PresenceChallenge(store, msg, nonce, crypto, stamp);
      ghost var w0 := WireOf(proto);
      ghost var a0 := auth;
      ghost var s0 := signals;
      if c.entry.Some? {
        auth := auth[c.entry.value.0 := c.entry.value.1];
      }
      raised := WriteTo(proto, c.reply);
      if raised || c.entry.None? {
        assert Challenged(proto, c, w0, a0, s0, raised);
        return;
      }
      raised := Announce(Str("done_presence"));
      assert Challenged(proto, c, w0, a0, s0, raised);
    }

    /**
     * `Auth.update`: the decision pops the user's entry; access granted
     * writes 212, then opens a session at the connection's address with the
     * pending public key, then announces `auth_new_user`. A key the store
     * refuses makes the login raise after the 212 went out.
     */
    method AuthUpdate(proto: Transport, msg: Message, now: string) returns (raised: bool)
      modifies proto, this`auth, this`signals, store
      ensures var (v, t) := old(AuthVerdict(store, auth, msg, crypto));
        auth == t &&
        (v.Undecodable? ==> (raised && WireOf(proto) == old(WireOf(proto)) && signals == old(signals) &&
          store.users == old(store.users) && store.active == old(store.active) && store.history == old(store.history)))
      ensures var (v, t) := old(AuthVerdict(store, auth, msg, crypto));
        !v.Undecodable? ==>
          var p := Encode(AuthAnswer(v, stamp), codec);
          WroteTo(proto, old(WireOf(proto)), p) &&
          (!Framable(p) || !v.Granted? ==>
            (raised <==> !Framable(p)) && signals == old(signals) &&
            store.users == old(store.users) && store.active == old(store.active) && store.history == old(store.history))
      ensures var (v, t) := old(AuthVerdict(store, auth, msg, crypto));
        v.Granted? && Framable(Encode(AuthAnswer(v, stamp), codec)) && !MongoStore.StringValid(v.pubKey) ==>
          raised && signals == old(signals) &&
          store.users == old(store.users) && store.active == old(store.active) && store.history == old(store.history)
      ensures var (v, t) := old(AuthVerdict(store, auth, msg, crypto));
        v.Granted? && Framable(Encode(AuthAnswer(v, stamp), codec)) && MongoStore.StringValid(v.pubKey) ==>
          var obs := ObserversOf(observers, Str("auth_new_user"));
          store.users == old(store.users)[v.user := old(store.users)[v.user].(lastLogin := Some(now), pubKey := v.pubKey)] &&
          store.active == old(store.active) + [MongoStore.ActiveRow(Some(v.user), proto.peer.ip, Some(proto.peer.port))] &&
          store.history == old(store.history) + [MongoStore.HistoryRow(Some(v.user), MongoStore.Login, Some(proto.peer.ip), Some(proto.peer.port), None)] &&
          signals == old(signals) + Repeat(Str("auth_new_user"), Reached(obs)) && (raised <==> Reached(obs) < |obs|) &&
          store.Activity(v.user) == old(store.Activity(v.user)) + [MongoStore.ActiveRow(Some(v.user), proto.peer.ip, Some(proto.peer.port))]
    {
      var (v, t) := AuthVerdict(store, auth, msg, crypto);
      if v.Undecodable? {
        return true;
      }
      auth := t;
      raised := WriteTo(proto, AuthAnswer(v, stamp));
      if raised || !v.Granted? {
        return;
      }
      var name := store.users[v.user].username;
      LowerIdempotent(UserAccountName(msg).s);
      assert store.ByName(Str(name)) == Some(v.user);
      ghost var active0 := store.active;
      raised := store.LoginUser(name, proto.peer.ip, Some(proto.peer.port), v.pubKey, now);
      if raised {
        return;
      }
      MongoStore.SessionsOfSnoc(active0, MongoStore.ActiveRow(Some(v.user), proto.peer.ip, Some(proto.peer.port)));
      raised := Announce(Str("auth_new_user"));
    }

    /** `get_user_tr` with a user without a session answered by no transport: the first transport at the session's address. */
    method GetUserTr(name: Value) returns (dest: Transport?)
      ensures var r := UserTransportFixed(store.ActiveByName(name), Peers(transports));
        (dest == null <==> r.NoRoute?) && (r.Route? ==> dest == transports[r.i])
    {
      var act := store.ActiveByName(name);
      if act.None? {
        return null;
      }
      var i := 0;
      while i < |transports|
        invariant 0 <= i <= |transports|
        invariant forall j :: 0 <= j < i ==> !At(act.value, transports[j].peer)
      {
        if At(act.value, transports[i].peer) {
          assert UserTransportFixed(act, Peers(transports)) == Route(i);
          return transports[i];
        }
        i := i + 1;
      }
      return null;
    }

    /**
     * `MessageCommand.update`: `login_required_db` refuses (TypeError) a
     * message whose `user` account, or else `to` account, has no session;
     * an admitted message with the required fields goes to the
     * destination's connection, is counted for both users, and
     * `done_message` is announced. A destination without a session (which
     * the guard lets through only when `user` names another, logged-in
     * account) gets nothing.
     */
    method MessageUpdate(event: Value, proto: Transport, msg: Message) returns (raised: bool)
      requires Distinct(transports)
      modifies this`signals, store`history, Links()
      ensures !old(SessionOpen(store, msg)) ==> (raised && signals == old(signals) &&
        store.history == old(store.history) && Wires(transports) == old(Wires(transports)))
      ensures old(SessionOpen(store, msg)) ==>
        Relayed(msg, old(store.ActiveByName(Get(msg, DESTINATION))), old(Wires(transports)), old(store.history), old(signals),
          old(store.ByName(Get(msg, SENDER))), old(store.ByName(Get(msg, DESTINATION))), raised)
    {
      ghost var act, w0, h0, s0 := store.ActiveByName(Get(msg, DESTINATION)), Wires(transports), store.history, signals;
      ghost var src, dst := store.ByName(Get(msg, SENDER)), store.ByName(Get(msg, DESTINATION));
      var admitted := Guard(event, msg);
      if !admitted {
        return true;
      }
      raised := Relay(msg);
      assert Relayed(msg, act, w0, h0, s0, src, dst, raised);
    }

    /**
     * What happens to a message past the guard: nothing for a message
     * without the required fields or to a user without a connection,
     * otherwise the delivery.
     */
    predicate Relayed(msg: Message, act: Option<MongoStore.ActiveRow>, w0: seq<Wire>, history0: seq<MongoStore.HistoryRow>,
                      signals0: seq<Value>, s: Option<nat>, d: Option<nat>, raised: bool)
      requires |w0| == |transports|
      reads this, store, Links()
    {
      var r := UserTransportFixed(act, Peers(transports));
      if !Valid(msg, None) || r.NoRoute? then
        !raised && signals == signals0 && store.history == history0 && Wires(transports) == w0
      else
        Delivered(r.i, msg, w0, history0, signals0, s, d, raised)
    }

    /** `MessageCommand.update` past the guard: the field check, the destination's transport, the delivery. */
    method Relay(msg: Message) returns (raised: bool)
      requires Distinct(transports)
      modifies this`signals, store`history, Links()
      ensures Relayed(msg, old(store.ActiveByName(Get(msg, DESTINATION))), old(Wires(transports)), old(store.history), old(signals),
        old(store.ByName(Get(msg, SENDER))), old(store.ByName(Get(msg, DESTINATION))), raised)
    {
      if !Valid(msg, None) {
        return false;
      }
      var dest := GetUserTr(Get(msg, DESTINATION));
      if dest == null {
        return false;
      }
      ghost var r := UserTransportFixed(store.ActiveByName(Get(msg, DESTINATION)), Peers(transports));
      raised := Deliver(r.i, dest, msg);
    }

    /**
     * The relay's effect once the destination's transport (index `i`) is
     * known: the message written there, the two history rows, and the
     * `done_message` announcement, none of it after a write that raises.
     */
    predicate Delivered(i: nat, msg: Message, w0: seq<Wire>, history0: seq<MongoStore.HistoryRow>, signals0: seq<Value>,
                        s: Option<nat>, d: Option<nat>, raised: bool)
      requires i < |transports| && |w0| == |transports|
      reads this, store, Links()
    {
      var p := Encode(msg, codec);
      var obs := ObserversOf(observers, Str("done_message"));
      Wires(transports) == w0[i := if Framable(p) then Written(w0[i], p) else w0[i]] &&
      (!Framable(p) ==> raised && signals == signals0 && store.history == history0) &&
      (Framable(p) ==>
        store.history == history0 + (if s.Some? then [MongoStore.HistoryRow(s, MongoStore.MessageSent, None, None, None)] else []) +
          (if d.Some? then [MongoStore.HistoryRow(d, MongoStore.MessageAccepted, None, None, None)] else []) &&
        signals == signals0 + Repeat(Str("done_message"), Reached(obs)) && (raised <==> Reached(obs) < |obs|))
    }

    /** Write the message to `dest`, the transport at `i`, count it for both users, announce `done_message`. */
    method Deliver(ghost i: nat, dest: Transport, msg: Message) returns (raised: bool)
      requires i < |transports| && transports[i] == dest && Distinct(transports)
      modifies this`signals, store`history, Links()
      ensures Delivered(i, msg, old(Wires(transports)), old(store.history), old(signals),
        old(store.ByName(Get(msg, SENDER))), old(store.ByName(Get(msg, DESTINATION))), raised)
    {
      raised := WriteAt(i, dest, msg);
      if raised {
        return;
      }
      store.ProcMessage(Get(msg, SENDER), Get(msg, DESTINATION));
      raised := Announce(Str("done_message"));
    }

    /** `RequestKeyCommand.update`: the key reply goes back to the asker, then `done_pubkey_need` is announced. */
    method RequestKeyUpdate(event: Value, proto: Transport, msg: Message) returns (raised: bool)
      modifies proto, this`signals
      ensures !SessionOpen(store, msg) ==> raised && signals == old(signals) && WireOf(proto) == old(WireOf(proto))
      ensures SessionOpen(store, msg) ==>
        var p := Encode(KeyReply(store, msg, stamp), codec);
        var obs := ObserversOf(observers, Str("done_pubkey_need"));
        WroteTo(proto, old(WireOf(proto)), p) &&
        (!Framable(p) ==> raised && signals == old(signals)) &&
        (Framable(p) ==> signals == old(signals) + Repeat(Str("done_pubkey_need"), Reached(obs)) && (raised <==> Reached(obs) < |obs|))
    {
      var admitted := Guard(event, msg);
      if !admitted {
        return true;
      }
      raised := WriteTo(proto, KeyReply(store, msg, stamp));
      if raised {
        return;
      }
      raised := Announce(Str("done_pubkey_need"));
    }

    /**
     * `ExitCommand.update`: the connection is closed, every session of the
     * user ends with a logout row, and `done_exit` is announced.
     */
    method ExitUpdate(event: Value, proto: Transport, msg: Message) returns (raised: bool)
      modifies proto, this`signals, store`active, store`history
      ensures !old(SessionOpen(store, msg)) ==> (raised && signals == old(signals) && WireOf(proto) == old(WireOf(proto)) &&
        store.active == old(store.active) && store.history == old(store.history))
      ensures old(SessionOpen(store, msg)) ==>
        var u := old(store.ByName(UserAccountName(msg)));
        var obs := ObserversOf(observers, Str("done_exit"));
        WireOf(proto) == old(WireOf(proto)).(closed := true) &&
        store.active == MongoStore.EndSessions(old(store.active), u) &&
        store.history == old(store.history) + [MongoStore.HistoryRow(None, MongoStore.Logout, Some(proto.peer.ip), Some(proto.peer.port), None)] &&
        signals == old(signals) + Repeat(Str("done_exit"), Reached(obs)) && (raised <==> Reached(obs) < |obs|)
      ensures old(SessionOpen(store, msg)) ==> !SessionOpen(store, msg)
    {
      var admitted := Guard(event, msg);
      if !admitted {
        return true;
      }
      var u := store.ByName(UserAccountName(msg));
      var name := store.users[u.value].username;
      LowerIdempotent(UserAccountName(msg).s);
      assert store.ByName(Str(name)) == u;
      proto.Close();
      ghost var active0 := store.active;
      store.LogoutUser(name, proto.peer.ip, Some(proto.peer.port));
      MongoStore.EndSessionsMeaning(active0, u, u);
      raised := Announce(Str("done_exit"));
    }

    /** One command's `update(server, event, proto, msg)`; the commands this model leaves out return normally. */
    method Invoke(h: Handler, event: Value, proto: Transport, msg: Message, env: Env) returns (raised: bool)
      requires proto in transports && Distinct(transports)
      modifies this`auth, this`signals, store, Links()
      ensures !(h.PresenceCmd? || h.AuthCmd? || h.MessageCmd? || h.RequestKeyCmd? || h.ExitCmd?) ==>
        !raised && auth == old(auth) && signals == old(signals)
    {
      match h
      case PresenceCmd =>
        raised := PresenceUpdate(proto, msg, env.nonce);
      case AuthCmd =>
        raised := AuthUpdate(proto, msg, env.now);
      case MessageCmd =>
        raised := MessageUpdate(event, proto, msg);
      case RequestKeyCmd =>
        raised := RequestKeyUpdate(event, proto, msg);
      case ExitCmd =>
        raised := ExitUpdate(event, proto, msg);
      case _ =>
        raised := false;
    }

    /** One observer of `notify(event, proto, msg)`: a widget gets the signal, a command is called. */
    method Visit(o: Observer, event: Value, proto: Transport, msg: Message, env: Env) returns (raised: bool)
      requires proto in transports && Distinct(transports)
      modifies this`auth, this`signals, this`calls, store, Links()
      ensures calls == old(calls) + (if o.Command? then [(o.h, event)] else [])
      ensures raised ==> o.Command?
    {
      if o.Widget? {
        signals := signals + [event];
        return false;
      }
      calls := calls + [(o.h, event)];
      raised := Invoke(o.h, event, proto, msg, env);
    }

    /**
     * `notify(event, proto, msg)`: widgets receive the signal and commands
     * are called, in attachment order, until one raises; `reached` counts
     * the observers handled. A list or dict event makes the lookup raise
     * TypeError before anyone is reached.
     */
    method Notify(event: Value, proto: Transport, msg: Message, env: Env) returns (raised: bool, reached: nat)
      requires proto in transports && Distinct(transports)
      modifies this`auth, this`signals, this`calls, store, Links()
      ensures !Hashable(event) ==> raised && reached == 0 && calls == old(calls) && auth == old(auth) && signals == old(signals)
      ensures var obs := ObserversOf(observers, event);
        Hashable(event) ==>
          reached <= |obs| && (!raised ==> reached == |obs|) && (raised ==> 0 < reached && obs[reached - 1].Command?) &&
          calls == old(calls) + CommandsIn(obs[..reached], event)
    {
      if !Hashable(event) {
        return true, 0;
      }
      var obs := ObserversOf(observers, event);
      var i := 0;
      raised := false;
      while i < |obs|
        invariant 0 <= i <= |obs| && !raised
        invariant calls == old(calls) + CommandsIn(obs[..i], event)
      {
        assert obs[..i + 1][..i] == obs[..i];
        raised := Visit(obs[i], event, proto, msg, env);
        i := i + 1;
        if raised {
          break;
        }
      }
      reached := i;
    }

    /**
     * `run_command(proto, mes)`: notify under the action, else the response;
     * nothing for a message with neither, TypeError for a list or dict.
     */
    method RunCommand(proto: Transport, mes: Message, env: Env) returns (raised: bool)
      requires proto in transports && Distinct(transports)
      modifies this`auth, this`signals, this`calls, store, Links()
      ensures CommandKey(mes).None? ==> !raised && calls == old(calls) && auth == old(auth) && signals == old(signals)
      ensures CommandKey(mes).Some? && !Hashable(CommandKey(mes).value) ==>
        raised && calls == old(calls) && auth == old(auth) && signals == old(signals)
      ensures !raised ==> calls == old(calls) + CalledFor(observers, mes)
    {
      var key := CommandKey(mes);
      if key.None? {
        return false;
      }
      var reached;
      raised, reached := Notify(key.value, proto, mes, env);
      assert !raised ==> ObserversOf(observers, key.value)[..reached] == ObserversOf(observers, key.value);
    }

    /** `proto.write(m, t)` on `t`, the transport at `i`; the other transports keep their state. */
    method WriteAt(ghost i: nat, t: Transport, m: Message) returns (raised: bool)
      requires i < |transports| && transports[i] == t && Distinct(transports)
      modifies t
      ensures raised <==> !Framable(Encode(m, codec))
      ensures var p := Encode(m, codec);
        Wires(transports) == old(Wires(transports))[i := if Framable(p) then Written(old(Wires(transports))[i], p) else old(Wires(transports))[i]]
    {
      ghost var w0 := Wires(transports);
      raised := WriteTo(t, m);
      assert Wires(transports) == w0[i := WireOf(t)] by {
        forall j | 0 <= j < |transports|
          ensures Wires(transports)[j] == w0[i := WireOf(t)][j]
        {
          if j != i {
            assert transports[j] != t;
          }
        }
      }
    }

    /**
     * `service_update_lists(excep)`: the 205 notice to every transport but
     * `excep`, in order. The notice has one length for all, so either every
     * write fits or the first one raises and nothing is written.
     */
    method ServiceUpdateLists(excep: Transport?) returns (raised: bool)
      requires Distinct(transports)
      modifies Links()
      ensures var p := Encode(ListsChanged(stamp), codec);
        if Framable(p) then !raised && Wires(transports) == Notified(old(Wires(transports)), transports, excep, p, |transports|)
        else Wires(transports) == old(Wires(transports)) && (raised <==> exists j :: 0 <= j < |transports| && transports[j] != excep)
    {
      var notice := ListsChanged(stamp);
      ghost var p := Encode(notice, codec);
      ghost var w0 := Wires(transports);
      var i := 0;
      while i < |transports|
        invariant 0 <= i <= |transports|
        invariant Framable(p) ==> Wires(transports) == Notified(w0, transports, excep, p, i)
        invariant !Framable(p) ==> Wires(transports) == w0 && forall j :: 0 <= j < i ==> transports[j] == excep
      {
        if Framable(p) {
          NotifiedStep(w0, transports, excep, p, i);
        }
        if transports[i] != excep {
          raised := WriteAt(i, transports[i], notice);
          if raised {
            return;
          }
        }
        i := i + 1;
      }
      raised := false;
    }
  }

  /** The registrations the module makes at import, in order: each command under its own name. */
  function Registry(): (ps: seq<(Value, Handler)>)
    ensures forall k :: 0 <= k < |ps| ==> ps[k].0 == NameOf(ps[k].1) && Truthy(ps[k].0)
  {
    [(Str(PRESENCE), PresenceCmd), (Str(AUTH), AuthCmd), (Str(USERS_REQUEST), UserListCmd), (Str(GET_CONTACTS), ListContactsCmd),
     (Str(AVA_INFO), EditAvatarCmd), (Str(PUBLIC_KEY_REQUEST), RequestKeyCmd), (Str(DEL_CONTACT), DelContactCmd),
     (Str(ADD_CONTACT), AddContactCmd), (Str(MESSAGE), MessageCmd), (Str(EXIT), ExitCmd)]
  }

  /**
   * Once the server is up, a message whose action is a registered name
   * calls exactly that command, once.
   */
  lemma RegistryDispatch(m: Message, k: nat)
    requires k < |Registry()| && Get(m, ACTION) == Registry()[k].0
    ensures CalledFor(AttachAll(map[], Registry()), m) == [(Registry()[k].1, Registry()[k].0)]
  {
    var ps := Registry();
    CommandsNamedUnique(ps, k);
    AttachAllMeaning(map[], ps, ps[k].0);
    var obs := [Command(ps[k].1)];
    assert obs[..0] == [];
  }

  /** The module-level `router`: its registrations, and the server it attached them to. */
  class Router {
    var commands: seq<(Value, Handler)>
    var source: Server?

    constructor ()
      ensures commands == [] && source == null
    {
      commands := [];
      source := null;
    }

    function Source(): set<Server>
      reads this
    {
      if source == null then {} else {source}
    }

    /** `reg_command(command, name)`: needs a truthy name; attaches at once when a server is already there. */
    method RegCommand(command: Handler, name: Value)
      modifies this`commands, Source()`observers
      ensures var n := NameArg(name, NameOf(command));
        commands == old(commands) + (if Truthy(n) then [(n, command)] else []) &&
        (source != null ==> source.observers == if Truthy(n) then Attached(old(source.observers), Command(command), n) else old(source.observers))
    {
      var n := NameArg(name, NameOf(command));
      if Truthy(n) {
        commands := commands + [(n, command)];
        if source != null {
          var ok := source.Attach(Command(command), n);
        }
      }
    }

    /**
     * `unreg_command(command, name)`: drops every registration under the
     * name, then detaches this one command from the server, which raises
     * ValueError when it is not subscribed there.
     */
    method UnregCommand(command: Handler, name: Value) returns (raised: bool)
      modifies this`commands, Source()`observers
      ensures commands == Unnamed(old(commands), NameArg(name, NameOf(command)))
      ensures source == null ==> !raised
      ensures source != null ==>
        var t := Detached(old(source.observers), Command(command), NameArg(name, NameOf(command)));
        (raised <==> t.None?) && source.observers == if t.Some? then t.value else old(source.observers)
    {
      var n := NameArg(name, NameOf(command));
      commands := Unnamed(commands, n);
      raised := false;
      if source != null {
        raised := source.Detach(Command(command), n);
      }
    }

    /** `init(source)`: attach every registration to the server, in order. */
    method Init(s: Server)
      modifies this`source, s`observers
      ensures source == s && commands == old(commands)
      ensures s.observers == AttachAll(old(s.observers), commands)
    {
      source := s;
      var i := 0;
      while i < |commands|
        invariant 0 <= i <= |commands| && source == s
        invariant s.observers == AttachAll(old(s.observers), commands[..i])
      {
        assert commands[..i + 1][..i] == commands[..i];
        var ok := s.Attach(Command(commands[i].1), commands[i].0);
        i := i + 1;
      }
      assert commands[..i] == commands;
    }
  }

  /**
   * Importing the module and starting the server: the ten module-level
   * `router.reg_command(...)` calls, taken here in order from `Registry()`,
   * then `ServerA()`, whose initializer hands itself to `router.init`.
   */
  method Launch(store: MongoStore.Store, transports: seq<Transport>, codec: Codec, stamp: string -> string, crypto: Crypto)
    returns (server: Server, router: Router)
    ensures fresh(server) && fresh(router)
    ensures server.store == store && server.transports == transports && server.codec == codec && server.stamp == stamp && server.crypto == crypto
    ensures server.auth == map[] && server.signals == [] && server.calls == []
    ensures router.commands == Registry() && router.source == server
    ensures server.observers == AttachAll(map[], Registry())
  {
    router := new Router();
    var ps := Registry();
    for k := 0 to |ps|
      invariant router.commands == ps[..k] && router.source == null
    {
      router.RegCommand(ps[k].1, Null);
      assert ps[..k + 1] == ps[..k] + [ps[k]];
    }
    assert ps[..|ps|] == ps;
    server := new Server(store, transports, codec, stamp, crypto);
    router.Init(server);
  }

  /** `AsyncServerProtocol`: one connection's reassembly state and the server it reports to. */
  class Protocol {
    const server: Server
    const receiver: Receiver
    /** `notify('new_connect')` raised inside `connection_made`, before `long_data` was set. */
    var connectRaised: bool

    /**
     * `connection_made`: the receiver takes over the transport's read size,
     * then the server announces `new_connect`.
     */
    constructor (server: Server, transport: Transport)
      modifies transport, server`signals
      ensures this.server == server && fresh(receiver)
      ensures receiver.transport == transport && receiver.variant == Capped
      ensures receiver.State() == Initial(old(transport.maxSize))
      ensures WireOf(transport) == old(WireOf(transport))
      ensures var obs := ObserversOf(server.observers, Str("new_connect"));
        server.signals == old(server.signals) + Repeat(Str("new_connect"), Reached(obs)) && (connectRaised <==> Reached(obs) < |obs|)
    {
      this.server := server;
      receiver := new Receiver(Capped, transport);
      new;
      connectRaised := server.Announce(Str("new_connect"));
    }

    /**
     * `data_received(data)`: reassembly, then for a completed payload the
     * debug line's UTF-8 decode, the parsing and `run_command`; the buffer
     * is emptied only once the payload has been parsed. An exception
     * escaping here makes the event loop close the transport. When
     * `connection_made` raised before setting `long_data`, the first chunk
     * that is not a header raises AttributeError at `self.long_data += data`.
     */
    method DataReceived(data: seq<byte>, env: Env) returns (raised: bool)
      requires receiver.transport in server.transports && Distinct(server.transports)
      modifies receiver, server`auth, server`signals, server`calls, server.store, server.Links()
      ensures connectRaised && |data| != CHUNK_SIZE ==>
        raised && receiver.State() == old(receiver.State()) &&
        server.calls == old(server.calls) && server.auth == old(server.auth) && server.signals == old(server.signals)
      ensures !(connectRaised && |data| != CHUNK_SIZE) ==>
        var (st, payload) := Step(Capped, old(receiver.State()), data);
        receiver.curSize == st.curSize &&
        (payload.None? ==> !raised && receiver.longData == st.longData &&
                           server.calls == old(server.calls) && server.auth == old(server.auth) && server.signals == old(server.signals)) &&
        (payload.Some? && !Utf8.Valid(payload.value) ==>
           raised && receiver.longData == payload.value &&
           server.calls == old(server.calls) && server.auth == old(server.auth) && server.signals == old(server.signals)) &&
        (payload.Some? && Utf8.Valid(payload.value) ==>
          var mes := Load(payload.value, server.codec, server.stamp);
          (mes.None? ==> raised && receiver.longData == payload.value &&
                         server.calls == old(server.calls) && server.auth == old(server.auth) && server.signals == old(server.signals)) &&
          (mes.Some? ==> receiver.longData == []) &&
          (mes.Some? && !raised ==> server.calls == old(server.calls) + CalledFor(server.observers, mes.value)))
      ensures raised ==> receiver.transport.closed
    {
      if connectRaised && |data| != CHUNK_SIZE {
        receiver.transport.Close();
        return true;
      }
      var payload := receiver.DataReceived(data);
      if payload.None? {
        return false;
      }
      if !Utf8.Valid(payload.value) {
        receiver.transport.Close();
        return true;
      }
      var mes := Load(payload.value, server.codec, server.stamp);
      if mes.None? {
        raised := true;
      } else {
        receiver.Release();
        raised := server.RunCommand(receiver.transport, mes.value, env);
      }
      if raised {
        receiver.transport.Close();
      }
    }
  }
}
