/**
 * The asyncio core of the talkative phone client (talkative_phone/async_core.py):
 * the client thread with its event table, the protocol that reassembles
 * length-prefixed messages from the server, the module-level router that
 * instantiates each registered command class when it attaches it, and the
 * commands themselves. A command that finishes notifies a follow-up event
 * (`done_auth`, `send_get_users`, ...), which reaches the commands registered
 * under that name in turn: the login reply sets off the user and chat
 * requests, the chat list sets off the message request.
 */
module PhoneClient {
  import opened Wrappers
  import opened Bytes
  import opened Envelope
  import opened Lists
  import opened Text
  import opened Framing
  import opened Dispatch
  import opened SqlRows
  import opened SocketClient
  import PhoneStore
  import Utf8

  /** Action names of the phone protocol (talkative_phone/config/settings.py). */
  const USERS_REQUEST := "get_users"
  const GET_CONTACTS := "get_contacts"
  const GET_CHATS := "get_chats"
  const GET_MESSAGES := "get_messages"
  const PUBLIC_KEY_REQUEST := "pubkey_need"
  const SEND_MESSAGE := "send_message"
  /** The events `ClientAuth` and `GetChatsCommand` notify when done (`f'done_{self.name}'`). */
  const DONE_AUTH := "done_auth"
  const DONE_GET_CHATS := "done_get_chats"

  /**
   * The command classes of the module, and `Gui`: a Kivy object of the app
   * (`EventServerMixin`, which attaches itself with `attach`). It is no
   * QObject, so `notify` calls its plain `update(**kwargs)`, which hands the
   * event to the GUI and returns; `name` is its Kivy name.
   */
  datatype Kind = AuthCmd | ErrorCmd | AllUsers | Contacts | Chats | Messages | Incoming | Outgoing | KeyCmd
    | Gui(name: string)

  /** A class's `name` attribute: `ClientError` is named by the response code 400. */
  function NameOf(k: Kind): Value {
    match k
    case AuthCmd => Str(AUTH)
    case ErrorCmd => Int(400)
    case AllUsers => Str(USERS_REQUEST)
    case Contacts => Str(GET_CONTACTS)
    case Chats => Str(GET_CHATS)
    case Messages => Str(GET_MESSAGES)
    case Incoming => Str(MESSAGE)
    case Outgoing => Str(SEND_MESSAGE)
    case KeyCmd => Str(PUBLIC_KEY_REQUEST)
    case Gui(name) => Str(name)
  }

  /** A registered command: a class, or an instance of one (`serial` tells instances apart). */
  datatype Ref = Class(k: Kind) | Instance(k: Kind, serial: nat)

  type Observer = Dispatch.Observer<Ref>

  /** `init_cmd`: a class (it has `__name__`) is instantiated, an instance is attached as it is. */
  function Made(c: Ref, serial: nat): (r: Ref)
    ensures r.k == c.k && r.Instance?
    ensures c.Instance? ==> r == c
  {
    if c.Class? then Instance(c.k, serial) else c
  }

  /**
   * The registrations the module makes at import (lines 382-393), in
   * order, with the name each one is filed under.
   */
  function Registry(): (ps: seq<(Value, Ref)>)
    ensures |ps| == 12
    ensures forall k :: 0 <= k < |ps| ==> ps[k].1.Class? && Truthy(ps[k].0)
  {
    [ (Str(AUTH), Class(AuthCmd)),
      (Int(400), Class(ErrorCmd)),
      (Str(USERS_REQUEST), Class(AllUsers)),
      (Str(GET_CHATS), Class(Chats)),
      (Str(DONE_AUTH), Class(AllUsers)),
      (Str(DONE_AUTH), Class(Chats)),
      (Str(DONE_GET_CHATS), Class(Messages)),
      (Int(205), Class(AllUsers)),
      (Int(206), Class(Chats)),
      (Str(MESSAGE), Class(Incoming)),
      (Str(PUBLIC_KEY_REQUEST), Class(KeyCmd)),
      (Str(SEND_MESSAGE), Class(Outgoing)) ]
  }

  /**
   * The pairs `init` attaches for some registrations when the router has
   * made `from` instances before: the k-th class becomes instance `from + k`,
   * so one class filed under several names is attached as several objects.
   */
  function Instantiated(ps: seq<(Value, Ref)>, from: nat): (r: seq<(Value, Ref)>)
    ensures |r| == |ps|
    ensures forall k :: 0 <= k < |ps| ==> r[k] == (ps[k].0, Made(ps[k].1, from + k))
    ensures forall k, l :: 0 <= k < l < |ps| && ps[k].1.Class? && ps[l].1.Class? ==> r[k].1 != r[l].1
  {
    seq(|ps|, k requires 0 <= k < |ps| => (ps[k].0, Made(ps[k].1, from + k)))
  }

  /** Instantiating one more registration appends its instance. */
  lemma InstantiatedSnoc(ps: seq<(Value, Ref)>, n: nat, from: nat)
    requires n < |ps|
    ensures Instantiated(ps[..n + 1], from) == Instantiated(ps[..n], from) + [(ps[n].0, Made(ps[n].1, from + n))]
  {
    var a, b := Instantiated(ps[..n + 1], from), Instantiated(ps[..n], from) + [(ps[n].0, Made(ps[n].1, from + n))];
    assert |a| == |b|;
    forall k | 0 <= k < |a|
      ensures a[k] == b[k]
    {
    }
  }

  /** What the thread needs besides the blocking client's settings: `str` on values, the end-to-end decryption and the avatar decoding. */
  datatype Setup = Setup(
    base: Config,
    show: Value -> string,
    showFields: Fields -> string,
    /** `decrypter.decrypt(base64.b64decode(text)).decode('utf8')`; None when a step raises. */
    unseal: string -> Option<string>,
    /** `QByteArray.fromBase64(base64.b64decode(ava))`; None when it raises. */
    avatar: Value -> Option<Value>)

  /** The event a command notifies when it is done, with the message it passes along. */
  datatype Follow = Follow(event: Value, msg: Option<Message>)

  /** `getattr(msg, key, default)` on a message or on None. */
  function Field(msg: Option<Message>, key: string, default: Value): (v: Value)
    ensures msg.None? ==> v == default
    ensures msg.Some? ==> v == Get(msg.value, key)
  {
    if msg.None? then default else Get(msg.value, key)
  }

  /**
   * What `for item in v` goes through: a list's items, a string's
   * one-character strings, the byte values of bytes, nothing for an empty
   * dict; None (TypeError) for None, a boolean, a number or another object.
   * A non-empty dict, whose keys would be iterated in insertion order, is
   * taken as None.
   */
  function Items(v: Value): (r: Option<seq<Value>>)
    ensures v.List? ==> r == Some(v.items)
    ensures v.Str? ==> r.Some? && |r.value| == |v.s| && forall k :: 0 <= k < |v.s| ==> r.value[k] == Str([v.s[k]])
    ensures v.Bin? ==> r.Some? && |r.value| == |v.data| && forall k :: 0 <= k < |v.data| ==> r.value[k] == Int(v.data[k])
    ensures r == Some([]) <==> !Truthy(v) && (v.List? || v.Str? || v.Bin? || v.Obj?)
  {
    match v
    case List(xs) => Some(xs)
    case Str(t) => Some(seq(|t|, k requires 0 <= k < |t| => Str([t[k]])))
    case Bin(d) => Some(seq(|d|, k requires 0 <= k < |d| => Int(d[k])))
    case Obj(f) => if f == map[] then Some([]) else None
    case _ => None
  }

  /** `username, ava` unpacked from one entry of a user list; None when it raises. */
  function Entry(v: Value): (r: Option<(string, Value)>)
    ensures r.Some? <==> v.List? && |v.items| == 2 && v.items[0].Str?
  {
    if v.List? && |v.items| == 2 && v.items[0].Str? then Some((v.items[0].s, v.items[1])) else None
  }

  /** Every entry of a user list unpacked, or None when one does not unpack. */
  function Entries(vs: seq<Value>): (r: Option<seq<(string, Value)>>)
    ensures r.Some? <==> forall k :: 0 <= k < |vs| ==> Entry(vs[k]).Some?
    ensures r.Some? ==> |r.value| == |vs| && forall k :: 0 <= k < |vs| ==> r.value[k] == Entry(vs[k]).value
  {
    if vs == [] then Some([])
    else
      match Entries(vs[..|vs| - 1])
      case None => None
      case Some(es) =>
        match Entry(vs[|vs| - 1])
        case None => None
        case Some(e) => Some(es + [e])
  }

  /** The user names of some rows. */
  function Names(us: seq<PhoneStore.User>): (r: seq<string>)
    ensures |r| == |us| && forall k :: 0 <= k < |us| ==> r[k] == us[k].username
  {
    seq(|us|, k requires 0 <= k < |us| => us[k].username)
  }

  /**
   * The loop of `GetAllUsers` over some entries, against the stored rows
   * `base`: a stored user gets the entry's avatar when it has one, an
   * unknown name becomes a new row (placeholder password, no key). The
   * lookups only see stored rows, so a new name listed twice makes two
   * rows, which `save_all` refuses (the name is unique). The result is the
   * stored rows as updated and the new rows; None when an avatar does not
   * decode or a new name repeats.
   */
  function UsersSynced(base: seq<PhoneStore.User>, es: seq<(string, Value)>, avatar: Value -> Option<Value>)
    : (r: Option<(seq<PhoneStore.User>, seq<PhoneStore.User>)>)
    ensures r.Some? ==> |r.value.0| == |base| && Names(r.value.0) == Names(base)
    ensures r.Some? ==> forall k :: 0 <= k < |base| ==> r.value.0[k].pubKey == base[k].pubKey
    ensures r.Some? ==> forall k :: 0 <= k < |r.value.1| ==>
      NameIndex(base, PhoneStore.UserName, r.value.1[k].username).None? && r.value.1[k].pubKey == Null
    ensures r.Some? ==> forall k, l :: 0 <= k < l < |r.value.1| ==> r.value.1[k].username != r.value.1[l].username
  {
    if es == [] then Some((base, []))
    else
      match UsersSynced(base, es[..|es| - 1], avatar)
      case None => None
      case Some(done) =>
        var (name, ava) := es[|es| - 1];
        var (cur, added) := done;
        match NameIndex(base, PhoneStore.UserName, name)
        case Some(i) =>
          if !Truthy(ava) then Some(done)
          else if avatar(ava).None? then None
          else Some((cur[i := cur[i].(avatar := avatar(ava).value)], added))
        case None =>
          var a := if Truthy(ava) then avatar(ava) else Some(Null);
          if a.None? || name in Names(added) then None
          else
            assert Names(added + [PhoneStore.User(name, a.value, Null)]) == Names(added) + [name];
            Some((cur, added + [PhoneStore.User(name, a.value, Null)]))
  }

  /**
   * After `GetAllUsers` saved its rows, every listed name finds a user and
   * every stored user keeps its place and name.
   */
  lemma ListedUsersKnown(base: seq<PhoneStore.User>, es: seq<(string, Value)>, avatar: Value -> Option<Value>, k: nat)
    requires k < |es| && UsersSynced(base, es, avatar).Some?
    ensures var r := UsersSynced(base, es, avatar).value;
      NameIndex(r.0 + r.1, PhoneStore.UserName, es[k].0).Some?
  {
    var r := UsersSynced(base, es, avatar).value;
    ListedOrAdded(base, es, avatar, k);
    NamesCovered(base, r.0, r.1, es[k].0);
  }

  /** Every listed name is a stored user's or one of the new rows'. */
  lemma {:induction false} ListedOrAdded(base: seq<PhoneStore.User>, es: seq<(string, Value)>, avatar: Value -> Option<Value>, k: nat)
    requires k < |es| && UsersSynced(base, es, avatar).Some?
    ensures NameIndex(base, PhoneStore.UserName, es[k].0).Some? || es[k].0 in Names(UsersSynced(base, es, avatar).value.1)
    decreases |es|
  {
    var front := es[..|es| - 1];
    var before := UsersSynced(base, front, avatar).value.1;
    var after := UsersSynced(base, es, avatar).value.1;
    assert after == before || (|after| == |before| + 1 && after[..|before|] == before && after[|before|].username == es[|es| - 1].0);
    if k < |es| - 1 {
      assert front[k] == es[k];
      ListedOrAdded(base, front, avatar, k);
      if es[k].0 in Names(before) {
        var j :| 0 <= j < |before| && Names(before)[j] == es[k].0;
        assert Names(after)[j] == es[k].0;
      }
    } else if NameIndex(base, PhoneStore.UserName, es[k].0).None? {
      assert Names(after)[|before|] == es[k].0;
    }
  }

  /** A name a stored row has, or one of the new rows has, is found once the new rows follow the stored ones. */
  lemma NamesCovered(base: seq<PhoneStore.User>, cur: seq<PhoneStore.User>, added: seq<PhoneStore.User>, name: string)
    requires Names(cur) == Names(base)
    requires NameIndex(base, PhoneStore.UserName, name).Some? || name in Names(added)
    ensures NameIndex(cur + added, PhoneStore.UserName, name).Some?
  {
    var all := cur + added;
    match NameIndex(base, PhoneStore.UserName, name)
    case Some(i) =>
      assert Names(cur)[i] == Names(base)[i];
      assert all[i] == cur[i];
      StoredNameFound(all, PhoneStore.UserName, i, name);
    case None =>
      var j :| 0 <= j < |added| && Names(added)[j] == name;
      assert all[|cur| + j] == added[j];
      StoredNameFound(all, PhoneStore.UserName, |cur| + j, name);
  }

  /** Once a prefix of the entries fails, the whole list fails. */
  lemma {:induction false} FailedPrefixStops(base: seq<PhoneStore.User>, es: seq<(string, Value)>,
                                             avatar: Value -> Option<Value>, n: nat)
    requires n <= |es| && UsersSynced(base, es[..n], avatar).None?
    ensures UsersSynced(base, es, avatar).None?
    decreases |es| - n
  {
    if n < |es| {
      assert es[..n + 1][..n] == es[..n];
      FailedPrefixStops(base, es, avatar, n + 1);
    } else {
      assert es[..n] == es;
    }
  }

  /** A name no stored user has, listed twice, makes the whole list fail. */
  lemma RepeatedNewNameFails(base: seq<PhoneStore.User>, es: seq<(string, Value)>, avatar: Value -> Option<Value>, i: nat, j: nat)
    requires i < j < |es| && es[i].0 == es[j].0 && NameIndex(base, PhoneStore.UserName, es[i].0).None?
    ensures UsersSynced(base, es, avatar).None?
  {
    var p := es[..j + 1];
    assert p[i] == es[i] && p[j] == es[j];
    RepeatedLastNameFails(base, p, avatar, i);
    FailedPrefixStops(base, es, avatar, j + 1);
  }

  /** A new name listed again as the last entry makes the list fail. */
  lemma RepeatedLastNameFails(base: seq<PhoneStore.User>, es: seq<(string, Value)>, avatar: Value -> Option<Value>, i: nat)
    requires i < |es| - 1 && es[i].0 == es[|es| - 1].0 && NameIndex(base, PhoneStore.UserName, es[i].0).None?
    ensures UsersSynced(base, es, avatar).None?
  {
    var front := es[..|es| - 1];
    if UsersSynced(base, front, avatar).Some? {
      assert front[i] == es[i];
      ListedOrAdded(base, front, avatar, i);
    }
  }

  /** The commands of a prefix of observers come first among the commands of all of them. */
  lemma {:induction false} CommandsInPrefix<H>(obs: seq<Dispatch.Observer<H>>, i: nat, event: Value)
    requires i <= |obs|
    ensures |CommandsIn(obs[..i], event)| <= |CommandsIn(obs, event)|
    ensures forall k :: 0 <= k < |CommandsIn(obs[..i], event)| ==> CommandsIn(obs[..i], event)[k] == CommandsIn(obs, event)[k]
    decreases |obs| - i
  {
    if i < |obs| {
      CommandsInPrefix(obs, i + 1, event);
      assert obs[..i + 1][..i] == obs[..i];
    } else {
      assert obs[..i] == obs;
    }
  }

  /** `top` gives, past position `lo` and in increasing order, where in `calls` each call of `cs` sits. */
  ghost predicate Placed(top: seq<nat>, cs: seq<(Ref, Value)>, calls: seq<(Ref, Value)>, lo: nat) {
    |top| == |cs| &&
    (forall k :: 0 <= k < |top| ==> lo <= top[k] < |calls| && calls[top[k]] == cs[k]) &&
    (forall k, l :: 0 <= k < l < |top| ==> top[k] < top[l])
  }

  /** Later calls do not move the earlier ones, and a call made next extends the placement. */
  lemma PlacedExtends(top: seq<nat>, cs: seq<(Ref, Value)>, c0: seq<(Ref, Value)>, calls: seq<(Ref, Value)>, lo: nat, x: Option<(Ref, Value)>)
    requires Placed(top, cs, c0, lo) && c0 <= calls && lo <= |c0|
    requires x.Some? ==> |calls| > |c0| && calls[|c0|] == x.value
    ensures x.None? ==> Placed(top, cs, calls, lo)
    ensures x.Some? ==> Placed(top + [|c0|], cs + [x.value], calls, lo)
  {
    assert forall k :: 0 <= k < |top| ==> calls[top[k]] == c0[top[k]];
  }

  /** A placement of the calls of the first `i` observers is one of a prefix of all their calls, and of all of them when `i` covers every observer. */
  lemma PlacedPrefix(obs: seq<Dispatch.Observer<Ref>>, i: nat, event: Value, top: seq<nat>, calls: seq<(Ref, Value)>, lo: nat)
    requires i <= |obs| && Placed(top, CommandsIn(obs[..i], event), calls, lo)
    ensures |top| <= |CommandsIn(obs, event)| && Placed(top, CommandsIn(obs, event)[..|top|], calls, lo)
    ensures i == |obs| ==> |top| == |CommandsIn(obs, event)|
  {
    CommandsInPrefix(obs, i, event);
    assert CommandsIn(obs, event)[..|top|] == CommandsIn(obs[..i], event);
    if i == |obs| {
      assert obs[..i] == obs;
    }
  }

  /** A chat entry of a `get_chats` reply; None when it is not a dict or its members are not a list. */
  function ChatEntry(v: Value): (r: Option<PhoneStore.ChatItem>)
    ensures r.Some? ==> v.Obj?
  {
    if !v.Obj? then None
    else
      var f := v.fields;
      var members := if "members" in f then f["members"] else List([]);
      if !members.List? then None
      else
        Some(PhoneStore.ChatItem(
          if "name" in f then f["name"] else Null,
          if "avatar" in f then Some(f["avatar"]) else None,
          if "owner" in f then Some(f["owner"]) else None,
          if "is_personal" in f then Some(f["is_personal"]) else None,
          members.items))
  }

  /** The chat entries up to the first one `chats_merge` cannot read, and whether all could be read. */
  function ChatEntries(vs: seq<Value>): (r: (seq<PhoneStore.ChatItem>, bool))
    ensures |r.0| <= |vs|
    ensures forall k :: 0 <= k < |r.0| ==> ChatEntry(vs[k]) == Some(r.0[k])
    ensures r.1 <==> forall k :: 0 <= k < |vs| ==> ChatEntry(vs[k]).Some?
    ensures r.1 ==> |r.0| == |vs|
    ensures !r.1 ==> |r.0| < |vs| && ChatEntry(vs[|r.0|]).None?
  {
    if vs == [] then ([], true)
    else
      var (front, ok) := ChatEntries(vs[..|vs| - 1]);
      if !ok then (front, false)
      else
        match ChatEntry(vs[|vs| - 1])
        case None => (front, false)
        case Some(item) => (front + [item], true)
  }

  /** A request `Message(action=..., user=USER_NAME)`. */
  function Request(action: string, userName: string, stamp: string -> string): (m: Message)
    ensures Get(m, ACTION) == Str(action) && Get(m, USER) == Str(userName)
  {
    New(map[ACTION := Str(action), USER := Str(userName)], stamp)
  }

  /** The key request `Message(action=pubkey_need, from=USER_NAME, to=dest)`. */
  function KeyRequest(userName: string, dest: Value, stamp: string -> string): (m: Message)
    ensures Get(m, ACTION) == Str(PUBLIC_KEY_REQUEST) && Get(m, SENDER) == Str(userName) && Get(m, DESTINATION) == dest
  {
    New(map[ACTION := Str(PUBLIC_KEY_REQUEST), SENDER := Str(userName), DESTINATION := dest], stamp)
  }

  /**
   * `ClientTransport`: the client thread, its event table, the local
   * database and the credentials of the configured user (`User.by_name(USER_NAME)`
   * as far as `ClientAuth` reads it).
   */
  class ClientTransport {
    var observers: map<Value, seq<Observer>>
    /** The `update` calls made on commands, with their events, in order. */
    var calls: seq<(Ref, Value)>
    var account: Option<Account>
    const setup: Setup
    const store: PhoneStore.Store

    constructor (setup: Setup, store: PhoneStore.Store, account: Option<Account>)
      ensures this.setup == setup && this.store == store && this.account == account
      ensures observers == map[] && calls == []
    {
      this.setup := setup;
      this.store := store;
      this.account := account;
      observers := map[];
      calls := [];
    }

    /** The local database is sound and belongs to the configured user. */
    predicate Valid()
      reads store`users, store`chats
    {
      store.Valid() && store.me == setup.base.userName
    }

    /**
     * The start of `connection_made`: the account record is refreshed
     * (Refreshed), and the configured user is stored when the database
     * does not have it yet.
     */
    method Refresh()
      requires Valid()
      modifies this`account, store`users
      ensures Valid() && store.Me().Some?
      ensures account == Some(Refreshed(old(account), setup.base))
      ensures store.users == old(store.users) + if old(store.Me()).None? then [PhoneStore.User(setup.base.userName, Null, Null)] else []
    {
      account := Some(Refreshed(account, setup.base));
      if store.Me().None? {
        store.users := store.users + [PhoneStore.User(setup.base.userName, Null, Null)];
        StoredNameFound(store.users, PhoneStore.UserName, |store.users| - 1, store.me);
      }
    }

    /** `attach`: the observer joins the end of the event's list. */
    method Attach(observer: Observer, event: Value)
      modifies this`observers
      ensures observers == Attached(old(observers), observer, event)
    {
      observers := Attached(observers, observer, event);
    }

    /** `detach`: ValueError (raised) and no change when the observer is not subscribed. */
    method Detach(observer: Observer, event: Value) returns (raised: bool)
      modifies this`observers
      ensures raised <==> Detached(old(observers), observer, event).None?
      ensures !raised ==> observers == Detached(old(observers), observer, event).value
      ensures raised ==> observers == old(observers)
    {
      var t := Detached(observers, observer, event);
      if t.None? {
        return true;
      }
      observers := t.value;
      raised := false;
    }

    /** `proto.write(m)`. */
    method WriteTo(t: Transport, m: Message) returns (raised: bool)
      modifies t
      ensures raised <==> !Framable(Encode(m, setup.base.codec))
      ensures WroteTo(t, old(WireOf(t)), Encode(m, setup.base.codec)) && t.maxSize == old(t.maxSize)
    {
      raised := t.Write(Encode(m, setup.base.codec));
    }

    /** A request, then the follow-up event `send_<action>` when the write did not raise. */
    method Ask(proto: Transport, m: Message, action: string) returns (raised: bool, next: Option<Follow>)
      modifies proto
      ensures raised <==> !Framable(Encode(m, setup.base.codec))
      ensures WroteTo(proto, old(WireOf(proto)), Encode(m, setup.base.codec)) && proto.maxSize == old(proto.maxSize)
      ensures next == if raised then None else Some(Follow(Str("send_" + action), None))
    {
      raised := WriteTo(proto, m);
      next := if raised then None else Some(Follow(Str("send_" + action), None));
    }

    /**
     * `ClientAuth.update`: a 511 challenge is answered with the digest of
     * its nonce under the local key (then `done_511`), a 212 marks the
     * record active (then `done_auth`), a 412 gives `fail_auth` and writes
     * nothing. No local record, or a challenge without a string nonce,
     * raises AttributeError before anything is written.
     */
    method AuthUpdate(proto: Transport, msg: Option<Message>) returns (raised: bool, next: Option<Follow>)
      modifies this`account, proto
      ensures proto.maxSize == old(proto.maxSize)
      ensures raised ==> next.None?
      ensures Field(msg, RESPONSE, Str("")) != Int(212) ==> account == old(account)
      ensures Field(msg, RESPONSE, Str("")) == Int(511) ==>
        var data := Field(msg, DATA, Str(""));
        if old(account).None? || !data.Str? then raised && WireOf(proto) == old(WireOf(proto))
        else
          var p := Encode(AuthReply(data.s, old(account).value, setup.base), setup.base.codec);
          WroteTo(proto, old(WireOf(proto)), p) && (raised <==> !Framable(p)) &&
          (!raised ==> next == Some(Follow(Str("done_511"), None)))
      ensures Field(msg, RESPONSE, Str("")) == Int(212) ==>
        WireOf(proto) == old(WireOf(proto)) &&
        (old(account).None? ==> raised && account == old(account)) &&
        (old(account).Some? ==> !raised && account == Some(old(account).value.(active := true)) &&
                                next == Some(Follow(Str(DONE_AUTH), None)))
      ensures Field(msg, RESPONSE, Str("")) == Int(412) ==>
        !raised && WireOf(proto) == old(WireOf(proto)) && next == Some(Follow(Str("fail_" + AUTH), None))
      ensures Field(msg, RESPONSE, Str("")) !in {Int(511), Int(212), Int(412)} ==>
        !raised && next.None? && WireOf(proto) == old(WireOf(proto))
    {
      var code := Field(msg, RESPONSE, Str(""));
      var data := Field(msg, DATA, Str(""));
      next := None;
      if code == Int(511) {
        if account.None? || !data.Str? {
          return true, None;
        }
        raised := WriteTo(proto, AuthReply(data.s, account.value, setup.base));
        if !raised {
          next := Some(Follow(Str("done_511"), None));
        }
      } else if code == Int(212) {
        if account.None? {
          return true, None;
        }
        account := Some(account.value.(active := true));
        raised, next := false, Some(Follow(Str(DONE_AUTH), None));
      } else if code == Int(412) {
        raised, next := false, Some(Follow(Str("fail_" + AUTH), None));
      } else {
        raised := false;
      }
    }

    /** The loop of `GetAllUsers` over the entries of a 202 reply, then `save_all`; a raise saves nothing. */
    method SaveUsers(es: seq<(string, Value)>) returns (raised: bool)
      requires Valid()
      modifies store`users
      ensures Valid()
      ensures raised <==> UsersSynced(old(store.users), es, setup.avatar).None?
      ensures raised ==> store.users == old(store.users)
      ensures !raised ==> store.users == UsersSynced(old(store.users), es, setup.avatar).value.0 +
                                         UsersSynced(old(store.users), es, setup.avatar).value.1
    {
      var base := store.users;
      var cur, added := base, [];
      var i := 0;
      while i < |es|
        invariant 0 <= i <= |es|
        invariant UsersSynced(base, es[..i], setup.avatar) == Some((cur, added))
      {
        assert es[..i + 1][..i] == es[..i];
        var (name, ava) := es[i];
        var found := NameIndex(base, PhoneStore.UserName, name);
        if found.Some? {
          if Truthy(ava) {
            var a := setup.avatar(ava);
            if a.None? {
              FailedPrefixStops(base, es, setup.avatar, i + 1);
              return true;
            }
            cur := cur[found.value := cur[found.value].(avatar := a.value)];
          }
        } else {
          var a := if Truthy(ava) then setup.avatar(ava) else Some(Null);
          if a.None? || name in Names(added) {
            FailedPrefixStops(base, es, setup.avatar, i + 1);
            return true;
          }
          added := added + [PhoneStore.User(name, a.value, Null)];
        }
        i := i + 1;
      }
      assert es[..i] == es;
      store.users := cur + added;
      raised := false;
    }

    /**
     * `GetAllUsers.update`: a 202 reply saves its user list (then
     * `done_get_users`); anything else, including a call without a
     * message, sends the users request (then `send_get_users`).
     */
    method UsersUpdate(proto: Transport, msg: Option<Message>) returns (raised: bool, next: Option<Follow>)
      requires Valid()
      modifies store`users, proto
      ensures Valid()
      ensures proto.maxSize == old(proto.maxSize)
      ensures raised ==> next.None? && store.users == old(store.users)
      ensures Field(msg, RESPONSE, Str("")) == Int(202) ==> WireOf(proto) == old(WireOf(proto))
      ensures Field(msg, RESPONSE, Str("")) == Int(202) && Items(Field(msg, LIST_INFO, List([]))).None? ==> raised
      ensures Field(msg, RESPONSE, Str("")) == Int(202) && Items(Field(msg, LIST_INFO, List([]))).Some? ==>
        var es := Entries(Items(Field(msg, LIST_INFO, List([]))).value);
        (es.None? ==> raised) &&
        (es.Some? ==>
          (raised <==> UsersSynced(old(store.users), es.value, setup.avatar).None?) &&
          (!raised ==> store.users == UsersSynced(old(store.users), es.value, setup.avatar).value.0 +
                                      UsersSynced(old(store.users), es.value, setup.avatar).value.1 &&
                       next == Some(Follow(Str("done_" + USERS_REQUEST), None))))
      ensures Field(msg, RESPONSE, Str("")) != Int(202) ==>
        var p := Encode(Request(USERS_REQUEST, setup.base.userName, setup.base.stamp), setup.base.codec);
        store.users == old(store.users) && WroteTo(proto, old(WireOf(proto)), p) && (raised <==> !Framable(p)) &&
        (!raised ==> next == Some(Follow(Str("send_" + USERS_REQUEST), None)))
    {
      if Field(msg, RESPONSE, Str("")) != Int(202) {
        raised, next := Ask(proto, Request(USERS_REQUEST, setup.base.userName, setup.base.stamp), USERS_REQUEST);
        return;
      }
      var items := Items(Field(msg, LIST_INFO, List([])));
      if items.None? {
        return true, None;
      }
      var es := Entries(items.value);
      if es.None? {
        return true, None;
      }
      raised := SaveUsers(es.value);
      next := if raised then None else Some(Follow(Str("done_" + USERS_REQUEST), None));
    }

    /**
     * The loop of `GetContacts` over the names of a 202 reply:
     * `user.add_contact(name)` for the configured user, where only
     * ContactExists is caught. A name that is not a string, an unknown user
     * without a chat, or a clashing new chat name raises and ends the loop.
     */
    method AddContacts(me: Option<nat>, names: seq<Value>) returns (raised: bool)
      requires Valid() && me == store.Me()
      modifies store`contacts, store`history, store`chats
      ensures Valid()
      ensures names != [] && me.None? ==> raised
      ensures !raised ==> forall k :: 0 <= k < |names| ==> names[k].Str?
      ensures !raised ==> forall k :: 0 <= k < |names| ==>
        names[k].s != [] && store.ByName(names[k].s).Some? ==> store.HasContact(me.value, names[k].s)
    {
      var i := 0;
      while i < |names|
        invariant 0 <= i <= |names| && Valid() && store.users == old(store.users)
        invariant i > 0 ==> me.Some?
        invariant forall k :: 0 <= k < i ==> names[k].Str?
        invariant forall k :: 0 <= k < i ==>
          names[k].s != [] && store.ByName(names[k].s).Some? ==> store.HasContact(me.value, names[k].s)
      {
        if me.None? || !names[i].Str? {
          return true;
        }
        var before := store.contacts;
        var outcome, chat := store.AddContact(me.value, names[i].s);
        if outcome != PhoneStore.Done && outcome != PhoneStore.ContactExists {
          return true;
        }
        forall k | 0 <= k < i && names[k].s != [] && store.ByName(names[k].s).Some?
          ensures store.HasContact(me.value, names[k].s)
        {
          if outcome == PhoneStore.Done {
            LinksGrow(before, store.contacts[|before|..], me.value, store.ByName(names[k].s).value);
            assert before + store.contacts[|before|..] == store.contacts;
          }
        }
        i := i + 1;
      }
      raised := false;
    }

    /**
     * `GetContacts.update`: a 202 reply adds its names to the configured
     * user's contacts (then `done_get_contacts`); anything else sends the
     * contacts request (then `send_get_contacts`).
     */
    method ContactsUpdate(proto: Transport, msg: Option<Message>) returns (raised: bool, next: Option<Follow>)
      requires Valid()
      modifies store`contacts, store`history, store`chats, proto
      ensures Valid()
      ensures proto.maxSize == old(proto.maxSize)
      ensures raised ==> next.None?
      ensures Field(msg, RESPONSE, Str("")) == Int(202) ==>
        WireOf(proto) == old(WireOf(proto)) &&
        (Items(Field(msg, LIST_INFO, List([]))).None? ==> raised && store.contacts == old(store.contacts)) &&
        (!raised ==> next == Some(Follow(Str("done_" + GET_CONTACTS), None)))
      ensures Field(msg, RESPONSE, Str("")) == Int(202) && !raised ==>
        var names := Items(Field(msg, LIST_INFO, List([]))).value;
        (forall k :: 0 <= k < |names| ==> names[k].Str?) &&
        (forall k :: 0 <= k < |names| && names[k].s != [] && store.ByName(names[k].s).Some? ==>
           store.Me().Some? && store.HasContact(store.Me().value, names[k].s))
      ensures Field(msg, RESPONSE, Str("")) != Int(202) ==>
        var p := Encode(Request(GET_CONTACTS, setup.base.userName, setup.base.stamp), setup.base.codec);
        store.contacts == old(store.contacts) && store.chats == old(store.chats) &&
        WroteTo(proto, old(WireOf(proto)), p) && (raised <==> !Framable(p)) &&
        (!raised ==> next == Some(Follow(Str("send_" + GET_CONTACTS), None)))
    {
      if Field(msg, RESPONSE, Str("")) != Int(202) {
        raised, next := Ask(proto, Request(GET_CONTACTS, setup.base.userName, setup.base.stamp), GET_CONTACTS);
        return;
      }
      var items := Items(Field(msg, LIST_INFO, List([])));
      if items.None? {
        return true, None;
      }
      raised := AddContacts(store.Me(), items.value);
      next := if raised then None else Some(Follow(Str("done_" + GET_CONTACTS), None));
    }

    /**
     * `GetChatsCommand.update`: a 202 reply goes through `Chat.chats_merge`
     * (then `done_get_chats`); anything else sends the chats request (then
     * `send_get_chats`). An entry that is not a dict, or whose members are
     * not a list, raises after the entries before it were merged.
     */
    method ChatsUpdate(proto: Transport, msg: Option<Message>) returns (raised: bool, next: Option<Follow>)
      requires Valid()
      modifies store`chats, store`messages, proto
      ensures Valid()
      ensures proto.maxSize == old(proto.maxSize)
      ensures raised ==> next.None?
      ensures Field(msg, RESPONSE, Str("")) == Int(202) ==> WireOf(proto) == old(WireOf(proto))
      ensures Field(msg, RESPONSE, Str("")) == Int(202) && Items(Field(msg, LIST_INFO, List([]))).None? ==>
        raised && store.chats == old(store.chats)
      ensures Field(msg, RESPONSE, Str("")) == Int(202) && Items(Field(msg, LIST_INFO, List([]))).Some? ==>
        var (lst, ok) := ChatEntries(Items(Field(msg, LIST_INFO, List([]))).value);
        (raised <==> !ok || store.MergeAll(old(store.chats), lst).None?) &&
        (!ok && store.MergeAll(old(store.chats), lst).Some? ==>
           store.chats == store.MergeAll(old(store.chats), lst).value) &&
        (!raised ==> store.chats == PhoneStore.Pruned(store.MergeAll(old(store.chats), lst).value, PhoneStore.ItemNames(lst)) &&
                     next == Some(Follow(Str(DONE_GET_CHATS), None)))
      ensures Field(msg, RESPONSE, Str("")) != Int(202) ==>
        var p := Encode(Request(GET_CHATS, setup.base.userName, setup.base.stamp), setup.base.codec);
        store.chats == old(store.chats) && WroteTo(proto, old(WireOf(proto)), p) && (raised <==> !Framable(p)) &&
        (!raised ==> next == Some(Follow(Str("send_" + GET_CHATS), None)))
    {
      if Field(msg, RESPONSE, Str("")) != Int(202) {
        raised, next := Ask(proto, Request(GET_CHATS, setup.base.userName, setup.base.stamp), GET_CHATS);
        return;
      }
      var items := Items(Field(msg, LIST_INFO, List([])));
      if items.None? {
        return true, None;
      }
      var (lst, ok) := ChatEntries(items.value);
      if ok {
        raised := store.ChatsMerge(lst);
      } else {
        raised := store.MergeItems(lst);
        raised := true;
      }
      next := if raised then None else Some(Follow(Str(DONE_GET_CHATS), None));
    }

    /** `GetMessagesCommand.update`: always the messages request, then `send_get_messages`. */
    method MessagesUpdate(proto: Transport) returns (raised: bool, next: Option<Follow>)
      modifies proto
      ensures var p := Encode(Request(GET_MESSAGES, setup.base.userName, setup.base.stamp), setup.base.codec);
        WroteTo(proto, old(WireOf(proto)), p) && (raised <==> !Framable(p)) && proto.maxSize == old(proto.maxSize) &&
        next == if raised then None else Some(Follow(Str("send_" + GET_MESSAGES), None))
    {
      raised, next := Ask(proto, Request(GET_MESSAGES, setup.base.userName, setup.base.stamp), GET_MESSAGES);
    }

    /**
     * `MessageCommand.update`: a valid message addressed to the configured
     * user is decrypted and stored by `Chat.create_msg`, then `new_message`
     * is notified with it; anything else is ignored.
     */
    method IncomingUpdate(msg: Option<Message>) returns (raised: bool, next: Option<Follow>)
      requires Valid()
      modifies store`chats, store`messages
      ensures Valid()
      ensures raised ==> next.None?
      ensures msg.None? || !Envelope.Valid(msg.value, Some(setup.base.userName)) ==>
        !raised && next.None? && store.chats == old(store.chats) && store.messages == old(store.messages)
      ensures msg.Some? && Envelope.Valid(msg.value, Some(setup.base.userName)) ==>
        var text := setup.unseal(Render(msg.value, setup.show, setup.showFields));
        (text.None? ==> raised && store.chats == old(store.chats) && store.messages == old(store.messages)) &&
        (text.Some? && !raised ==>
           store.ChatNameFor(msg.value).Some? &&
           store.messages == old(store.messages) +
             [store.NewMessage(msg.value, Str(text.value)).(chat := store.ChatNamed(store.ChatNameFor(msg.value).value))] &&
           next == Some(Follow(Str("new_" + MESSAGE), msg)))
    {
      if msg.None? {
        return false, None;
      }
      var valid := IsValid(msg.value, Some(setup.base.userName));
      if !valid {
        return false, None;
      }
      var text := setup.unseal(Render(msg.value, setup.show, setup.showFields));
      if text.None? {
        return true, None;
      }
      raised := store.CreateMsg(msg.value, Str(text.value));
      next := if raised then None else Some(Follow(Str("new_" + MESSAGE), msg));
    }

    /** `SendMessageCommand.update`: the message goes out as it is, then `done_send_message`; without a message `bytes(None)` raises. */
    method OutgoingUpdate(proto: Transport, msg: Option<Message>) returns (raised: bool, next: Option<Follow>)
      modifies proto
      ensures proto.maxSize == old(proto.maxSize)
      ensures msg.None? ==> raised && next.None? && WireOf(proto) == old(WireOf(proto))
      ensures msg.Some? ==>
        var p := Encode(msg.value, setup.base.codec);
        WroteTo(proto, old(WireOf(proto)), p) && (raised <==> !Framable(p)) &&
        next == if raised then None else Some(Follow(Str("done_" + SEND_MESSAGE), None))
    {
      if msg.None? {
        return true, None;
      }
      raised := WriteTo(proto, msg.value);
      next := if raised then None else Some(Follow(Str("done_" + SEND_MESSAGE), None));
    }

    /**
     * `RequestKeyCommand.update`: called without a message it asks the
     * server for the key of the `contact` keyword argument (nothing when it
     * is missing); a 202 reply stores the key on the user it names.
     */
    method KeyUpdate(proto: Transport, msg: Option<Message>, contact: Value) returns (raised: bool, next: Option<Follow>)
      requires Valid()
      modifies store`users, proto
      ensures Valid()
      ensures proto.maxSize == old(proto.maxSize)
      ensures raised ==> next.None?
      ensures msg.None? && !Truthy(contact) ==>
        !raised && next.None? && WireOf(proto) == old(WireOf(proto)) && store.users == old(store.users)
      ensures msg.None? && Truthy(contact) ==>
        var p := Encode(KeyRequest(setup.base.userName, contact, setup.base.stamp), setup.base.codec);
        WroteTo(proto, old(WireOf(proto)), p) && (raised <==> !Framable(p)) && store.users == old(store.users) &&
        (!raised ==> next == Some(Follow(Str("send_" + PUBLIC_KEY_REQUEST), None)))
      ensures msg.Some? ==> WireOf(proto) == old(WireOf(proto))
      ensures msg.Some? && Get(msg.value, RESPONSE) != Int(202) ==> !raised && next.None? && store.users == old(store.users)
      ensures msg.Some? && Get(msg.value, RESPONSE) == Int(202) ==>
        var name := Get(msg.value, ACCOUNT_NAME);
        (raised <==> !name.Str? || old(store.ByName(name.s)).None?) &&
        (raised ==> store.users == old(store.users)) &&
        (!raised ==> var u := old(store.ByName(name.s)).value;
                     store.users == old(store.users)[u := old(store.users)[u].(pubKey := Get(msg.value, DATA))] &&
                     next == Some(Follow(Str("done_" + PUBLIC_KEY_REQUEST), None)))
    {
      if msg.None? {
        if !Truthy(contact) {
          return false, None;
        }
        raised, next := Ask(proto, KeyRequest(setup.base.userName, contact, setup.base.stamp), PUBLIC_KEY_REQUEST);
        return;
      }
      if Get(msg.value, RESPONSE) != Int(202) {
        return false, None;
      }
      var name := Get(msg.value, ACCOUNT_NAME);
      if !name.Str? || store.ByName(name.s).None? {
        return true, None;
      }
      var u := store.ByName(name.s).value;
      store.users := store.users[u := store.users[u].(pubKey := Get(msg.value, DATA))];
      raised, next := false, Some(Follow(Str("done_" + PUBLIC_KEY_REQUEST), None));
    }

    /** One command's `update`; `ClientError` only logs. */
    method Invoke(k: Kind, proto: Transport, msg: Option<Message>, contact: Value) returns (raised: bool, next: Option<Follow>)
      requires Valid()
      modifies this`account, store`users, store`contacts, store`history, store`chats, store`messages, proto
      ensures Valid()
      ensures proto.maxSize == old(proto.maxSize)
      ensures k.Gui? ==>
        !raised && next.None? && account == old(account) && WireOf(proto) == old(WireOf(proto)) && store.users == old(store.users)
    {
      match k
      case AuthCmd =>
        raised, next := AuthUpdate(proto, msg);
      case ErrorCmd =>
        raised, next := false, None;
      case AllUsers =>
        raised, next := UsersUpdate(proto, msg);
      case Contacts =>
        raised, next := ContactsUpdate(proto, msg);
      case Chats =>
        raised, next := ChatsUpdate(proto, msg);
      case Messages =>
        raised, next := MessagesUpdate(proto);
      case Incoming =>
        raised, next := IncomingUpdate(msg);
      case Outgoing =>
        raised, next := OutgoingUpdate(proto, msg);
      case KeyCmd =>
        raised, next := KeyUpdate(proto, msg, contact);
      case Gui(_) =>
        raised, next := false, None;
    }

    /** Nothing visible happened since: the credentials, the wire and the user table are as they were. */
    ghost predicate Quiet(account0: Option<Account>, wire0: Wire, users0: seq<PhoneStore.User>, proto: Transport)
      reads this`account, proto, store`users
    {
      account == account0 && WireOf(proto) == wire0 && store.users == users0
    }

    /**
     * One observer of `notify(event, proto, msg, **kwargs)`: a command gets
     * its `update`, and the event the command notifies when done is handled
     * before the next observer, one level deeper. `fuel` is how many nested
     * notifications the interpreter's recursion limit still allows; past it
     * RecursionError is raised. For a Qt object the thread emits its
     * `update` signal, but the thread is no QObject: reaching the signal
     * raises TypeError. A Kivy object's `update` is called and returns.
     */
    method Visit(o: Observer, event: Value, proto: Transport, msg: Option<Message>, contact: Value, fuel: nat)
      returns (raised: bool)
      requires Valid()
      modifies this`calls, this`account, store`users, store`contacts, store`history, store`chats,
        store`messages, proto
      ensures Valid()
      ensures old(calls) <= calls
      ensures o.Command? ==> |calls| > |old(calls)| && calls[|old(calls)|] == (o.h, event)
      ensures o.Widget? ==> raised && calls == old(calls)
      ensures o.Widget? ==> Quiet(old(account), old(WireOf(proto)), old(store.users), proto)
      ensures o.Command? && o.h.k.Gui? ==>
        !raised && calls == old(calls) + [(o.h, event)] && Quiet(old(account), old(WireOf(proto)), old(store.users), proto)
      ensures proto.maxSize == old(proto.maxSize)
      decreases fuel, 0
    {
      if o.Widget? {
        return true;
      }
      calls := calls + [(o.h, event)];
      var next;
      raised, next := Invoke(o.h.k, proto, msg, contact);
      if raised || next.None? {
        return;
      }
      if fuel == 0 {
        return true;
      }
      ghost var c0 := calls;
      ghost var top;
      raised, top := Notify(next.value.event, proto, next.value.msg, Null, fuel - 1);
      assert calls[|old(calls)|] == c0[|old(calls)|];
    }

    /** The turn of observer `i` in `notify`'s loop: its visit, and where a command's call lands. */
    method Reach(obs: seq<Observer>, i: nat, event: Value, proto: Transport, msg: Option<Message>, contact: Value, fuel: nat,
                 ghost top: seq<nat>, ghost lo: nat)
      returns (raised: bool, ghost top': seq<nat>)
      requires Valid() && i < |obs| && lo <= |calls|
      requires Placed(top, CommandsIn(obs[..i], event), calls, lo)
      modifies this`calls, this`account, store`users, store`contacts, store`history, store`chats,
        store`messages, proto
      ensures Valid()
      ensures old(calls) <= calls
      ensures Placed(top', CommandsIn(obs[..i + 1], event), calls, lo)
      ensures obs[i].Widget? ==> raised && calls == old(calls)
      ensures obs[i].Widget? ==> Quiet(old(account), old(WireOf(proto)), old(store.users), proto)
      ensures proto.maxSize == old(proto.maxSize)
      decreases fuel, 1
    {
      assert obs[..i + 1][..i] == obs[..i];
      ghost var c0 := calls;
      raised := Visit(obs[i], event, proto, msg, contact, fuel);
      if obs[i].Command? {
        PlacedExtends(top, CommandsIn(obs[..i], event), c0, calls, lo, Some((obs[i].h, event)));
        top' := top + [|c0|];
      } else {
        PlacedExtends(top, CommandsIn(obs[..i], event), c0, calls, lo, None);
        top' := top;
      }
    }

    /**
     * `notify(event, proto, msg, **kwargs)`: the observers of the event in
     * attachment order, until one raises. `top` gives the position in
     * `calls` of each command reached at this level: they are the event's
     * commands in order, and all of them when nothing raised. A list or
     * dict event makes the lookup raise TypeError before anyone is reached.
     */
    method Notify(event: Value, proto: Transport, msg: Option<Message>, contact: Value, fuel: nat)
      returns (raised: bool, ghost top: seq<nat>)
      requires Valid()
      modifies this`calls, this`account, store`users, store`contacts, store`history, store`chats,
        store`messages, proto
      ensures Valid()
      ensures old(calls) <= calls
      ensures var cs := CommandsIn(ObserversOf(observers, event), event);
        |top| <= |cs| && (!raised ==> |top| == |cs|) && Placed(top, cs[..|top|], calls, |old(calls)|)
      ensures !Hashable(event) ==> raised && calls == old(calls) && Quiet(old(account), old(WireOf(proto)), old(store.users), proto)
      ensures Hashable(event) && ObserversOf(observers, event) == [] ==>
        !raised && calls == old(calls) && Quiet(old(account), old(WireOf(proto)), old(store.users), proto)
      ensures Hashable(event) && ObserversOf(observers, event) != [] && ObserversOf(observers, event)[0].Widget? ==>
        raised && calls == old(calls) && Quiet(old(account), old(WireOf(proto)), old(store.users), proto)
      ensures proto.maxSize == old(proto.maxSize)
      decreases fuel, 2
    {
      top := [];
      if !Hashable(event) {
        return true, top;
      }
      var obs := ObserversOf(observers, event);
      var i := 0;
      raised := false;
      ghost var account0, wire0, users0, calls0 := account, WireOf(proto), store.users, calls;
      while i < |obs|
        invariant 0 <= i <= |obs| && !raised && Valid()
        invariant old(calls) <= calls
        invariant Placed(top, CommandsIn(obs[..i], event), calls, |old(calls)|)
        invariant i == 0 ==> calls == calls0 && Quiet(account0, wire0, users0, proto)
        invariant i > 0 ==> !obs[0].Widget?
        invariant proto.maxSize == old(proto.maxSize)
      {
        raised, top := Reach(obs, i, event, proto, msg, contact, fuel, top, |old(calls)|);
        i := i + 1;
        if raised {
          break;
        }
      }
      PlacedPrefix(obs, i, event, top, calls, |old(calls)|);
    }

    /**
     * `run_command(proto, mes)`: notify under the action, else the
     * response; a message with neither reaches nobody, and a list or dict
     * raises TypeError. `top` locates the calls made at the first level:
     * the commands `CalledFor` lists.
     */
    method RunCommand(proto: Transport, mes: Message, fuel: nat) returns (raised: bool, ghost top: seq<nat>)
      requires Valid()
      modifies this`calls, this`account, store`users, store`contacts, store`history, store`chats,
        store`messages, proto
      ensures Valid()
      ensures old(calls) <= calls
      ensures CommandKey(mes).None? ==>
        (!raised && calls == old(calls) &&
         WireOf(proto) == old(WireOf(proto)) && store.users == old(store.users) && store.chats == old(store.chats))
      ensures CommandKey(mes).Some? && !Hashable(CommandKey(mes).value) ==>
        raised && calls == old(calls) && Quiet(old(account), old(WireOf(proto)), old(store.users), proto)
      ensures proto.maxSize == old(proto.maxSize)
      ensures |top| <= |CalledFor(observers, mes)| && (!raised ==> |top| == |CalledFor(observers, mes)|)
      ensures forall k :: 0 <= k < |top| ==> |old(calls)| <= top[k] < |calls| && calls[top[k]] == CalledFor(observers, mes)[k]
    {
      var key := CommandKey(mes);
      if key.None? {
        return false, [];
      }
      raised, top := Notify(key.value, proto, Some(mes), Null, fuel);
    }

    /** The corrected `unreg_command`'s detach: every instance of the class under the event goes. */
    method DetachKind(k: Kind, event: Value)
      modifies this`observers
      ensures observers == DetachedKind(old(observers), k, event)
    {
      observers := DetachedKind(observers, k, event);
    }
  }

  /** The observers of an event that are not commands of class `k`, in order. */
  function WithoutKind(obs: seq<Observer>, k: Kind): (r: seq<Observer>)
    ensures forall j :: 0 <= j < |r| ==> !(r[j].Command? && r[j].h.k == k)
  {
    Filter(obs, (o: Observer) => !(o.Command? && o.h.k == k))
  }

  /** The event table without the commands of class `k` under one event. */
  function DetachedKind(table: map<Value, seq<Observer>>, k: Kind, event: Value): (t: map<Value, seq<Observer>>)
    ensures ObserversOf(t, event) == WithoutKind(ObserversOf(table, event), k)
    ensures forall e :: e != event ==> ObserversOf(t, e) == ObserversOf(table, e)
  {
    table[event := WithoutKind(ObserversOf(table, event), k)]
  }

  /** The module-level `router`: its registrations, the thread it attached them to, and how many instances `init_cmd` made. */
  class Router {
    var commands: seq<(Value, Ref)>
    var source: ClientTransport?
    var made: nat

    constructor ()
      ensures commands == [] && source == null && made == 0
    {
      commands := [];
      source := null;
      made := 0;
    }

    function Source(): set<ClientTransport>
      reads this
    {
      if source == null then {} else {source}
    }

    /**
     * `reg_command(command, name)`: needs a truthy name; with a thread
     * already there, `init_cmd` attaches a new instance at once.
     */
    method RegCommand(command: Ref, name: Value)
      modifies this`commands, this`made, Source()`observers
      ensures var n := NameArg(name, NameOf(command.k));
        commands == old(commands) + (if Truthy(n) then [(n, command)] else [])
      ensures var n := NameArg(name, NameOf(command.k));
        source != null && Truthy(n) ==>
          made == old(made) + 1 && source.observers == Attached(old(source.observers), Command(Made(command, old(made))), n)
      ensures var n := NameArg(name, NameOf(command.k));
        source == null || !Truthy(n) ==> made == old(made) && (source != null ==> source.observers == old(source.observers))
    {
      var n := NameArg(name, NameOf(command.k));
      if Truthy(n) {
        commands := commands + [(n, command)];
        if source != null {
          source.Attach(Command(Made(command, made)), n);
          made := made + 1;
        }
      }
    }

    /**
     * `unreg_command(command, name)` as written: drops the registrations
     * under the name, then detaches `command` itself, which for a class is
     * not what `init_cmd` attached.
     */
    method UnregCommand(command: Ref, name: Value) returns (raised: bool)
      modifies this`commands, Source()`observers
      ensures commands == Unnamed(old(commands), NameArg(name, NameOf(command.k)))
      ensures source == null ==> !raised
      ensures source != null ==>
        var t := Detached(old(source.observers), Command(command), NameArg(name, NameOf(command.k)));
        (raised <==> t.None?) && source.observers == if t.Some? then t.value else old(source.observers)
    {
      var n := NameArg(name, NameOf(command.k));
      commands := Unnamed(commands, n);
      raised := false;
      if source != null {
        raised := source.Detach(Command(command), n);
      }
    }

    /** `unreg_command` as intended: the registrations under the name and the instances of the class attached under it go. */
    method UnregCommandFixed(command: Ref, name: Value)
      modifies this`commands, Source()`observers
      ensures commands == Unnamed(old(commands), NameArg(name, NameOf(command.k)))
      ensures source != null ==> source.observers == DetachedKind(old(source.observers), command.k, NameArg(name, NameOf(command.k)))
    {
      var n := NameArg(name, NameOf(command.k));
      commands := Unnamed(commands, n);
      if source != null {
        source.DetachKind(command.k, n);
      }
    }

    /** `init(source)`: `init_cmd` on every registration, in order. */
    method Init(s: ClientTransport)
      modifies this`source, this`made, s`observers
      ensures source == s && commands == old(commands) && made == old(made) + |commands|
      ensures s.observers == AttachAll(old(s.observers), Instantiated(commands, old(made)))
    {
      source := s;
      var ps := commands;
      ghost var m0, t0 := made, s.observers;
      var i := 0;
      while i < |ps|
        invariant 0 <= i <= |ps| && source == s && commands == ps && made == m0 + i
        invariant s.observers == AttachAll(t0, Instantiated(ps[..i], m0))
      {
        ghost var q := Instantiated(ps[..i + 1], m0);
        InstantiatedSnoc(ps, i, m0);
        assert q[..i] == Instantiated(ps[..i], m0) && q[i] == (ps[i].0, Made(ps[i].1, made));
        s.Attach(Command(Made(ps[i].1, made)), ps[i].0);
        assert s.observers == AttachAll(t0, q);
        made := made + 1;
        i := i + 1;
      }
      assert ps[..i] == ps;
    }
  }

  /** The event table of a freshly launched client. */
  function LaunchTable(): map<Value, seq<Observer>> {
    AttachAll(map[], Instantiated(Registry(), 0))
  }

  /**
   * Importing the module and starting the client: the registrations of
   * lines 382-393, then `ClientTransport()`, whose initializer hands itself
   * to `router.init`.
   */
  method Launch(setup: Setup, store: PhoneStore.Store, account: Option<Account>) returns (thread: ClientTransport, router: Router)
    ensures fresh(thread) && fresh(router)
    ensures thread.setup == setup && thread.store == store && thread.account == account
    ensures thread.calls == []
    ensures router.commands == Registry() && router.source == thread && router.made == |Registry()|
    ensures thread.observers == LaunchTable()
  {
    router := new Router();
    var ps := Registry();
    var i := 0;
    while i < |ps|
      invariant 0 <= i <= |ps| && router.commands == ps[..i] && router.source == null && router.made == 0
    {
      assert ps[..i + 1] == ps[..i] + [ps[i]];
      router.RegCommand(ps[i].1, ps[i].0);
      i := i + 1;
    }
    assert ps[..i] == ps;
    thread := new ClientTransport(setup, store, account);
    router.Init(thread);
  }

  /** Every observer `init` attaches for class registrations is an instance. */
  lemma {:induction false} OnlyInstancesNamed(ps: seq<(Value, Ref)>, e: Value)
    requires forall k :: 0 <= k < |ps| ==> ps[k].1.Instance?
    ensures forall j :: 0 <= j < |CommandsNamed(ps, e)| ==> CommandsNamed(ps, e)[j].Command? && CommandsNamed(ps, e)[j].h.Instance?
  {
    if ps != [] {
      OnlyInstancesNamed(ps[..|ps| - 1], e);
    }
  }

  /**
   * On a freshly launched client `unreg_command` as written raises
   * ValueError for every class under every name: the event table holds
   * only instances, and the class itself is detached.
   */
  lemma UnregAfterLaunchRaises(k: Kind, e: Value)
    ensures Detached(LaunchTable(), Command(Class(k)), e).None?
  {
    var ps := Instantiated(Registry(), 0);
    AttachAllMeaning(map[], ps, e);
    OnlyInstancesNamed(ps, e);
    assert Command(Class(k)) !in ObserversOf(LaunchTable(), e);
  }

  /** The pairs `init` attaches on a freshly launched client, written out. */
  function LaunchPairs(): seq<(Value, Ref)> {
    [ (Str(AUTH), Instance(AuthCmd, 0)), (Int(400), Instance(ErrorCmd, 1)), (Str(USERS_REQUEST), Instance(AllUsers, 2)),
      (Str(GET_CHATS), Instance(Chats, 3)), (Str(DONE_AUTH), Instance(AllUsers, 4)), (Str(DONE_AUTH), Instance(Chats, 5)),
      (Str(DONE_GET_CHATS), Instance(Messages, 6)), (Int(205), Instance(AllUsers, 7)), (Int(206), Instance(Chats, 8)),
      (Str(MESSAGE), Instance(Incoming, 9)), (Str(PUBLIC_KEY_REQUEST), Instance(KeyCmd, 10)), (Str(SEND_MESSAGE), Instance(Outgoing, 11)) ]
  }

  /** A freshly launched client's observers of an event are the instances filed under its name. */
  lemma LaunchTableNamed(e: Value)
    ensures ObserversOf(LaunchTable(), e) == CommandsNamed(LaunchPairs(), e)
  {
    assert Instantiated(Registry(), 0) == LaunchPairs();
    AttachAllMeaning(map[], Instantiated(Registry(), 0), e);
  }

  /** The commands named `e` when exactly the registrations `ps[i..j]` carry that name. */
  lemma CommandsNamedRun<H>(ps: seq<(Value, H)>, e: Value, i: nat, j: nat)
    requires i <= j <= |ps|
    requires forall k :: 0 <= k < |ps| ==> (ps[k].0 == e <==> i <= k < j)
    ensures CommandsNamed(ps, e) == CommandsNamed(ps[i..j], e)
  {
    assert ps == ps[..i] + (ps[i..j] + ps[j..]);
    CommandsNamedAppend(ps[..i], ps[i..j] + ps[j..], e);
    CommandsNamedAppend(ps[i..j], ps[j..], e);
    CommandsNamedNone(ps[..i], e);
    CommandsNamedNone(ps[j..], e);
  }

  /** The observers of one event on a freshly launched client, when its registrations are the run `ps[i..j]`. */
  lemma LaunchRun(e: Value, i: nat, j: nat)
    requires i <= j <= |LaunchPairs()|
    requires forall k :: 0 <= k < |LaunchPairs()| ==> (LaunchPairs()[k].0 == e <==> i <= k < j)
    ensures ObserversOf(LaunchTable(), e) == CommandsNamed(LaunchPairs()[i..j], e)
  {
    LaunchTableNamed(e);
    CommandsNamedRun(LaunchPairs(), e, i, j);
  }

  /** A login reply reaches `ClientAuth` alone. */
  lemma LaunchAuthWiring()
    ensures ObserversOf(LaunchTable(), Str(AUTH)) == [Command(Instance(AuthCmd, 0))]
  {
    LaunchRun(Str(AUTH), 0, 1);
    assert LaunchPairs()[0..1] == [LaunchPairs()[0]];
  }

  /** A successful login sets off the users request and then the chats request. */
  lemma LaunchLoginWiring()
    ensures ObserversOf(LaunchTable(), Str(DONE_AUTH)) == [Command(Instance(AllUsers, 4)), Command(Instance(Chats, 5))]
  {
    LaunchRun(Str(DONE_AUTH), 4, 6);
    var run := LaunchPairs()[4..6];
    assert run == [run[0]] + [run[1]];
    CommandsNamedAppend([run[0]], [run[1]], Str(DONE_AUTH));
  }

  /** A merged chat list sets off the messages request. */
  lemma LaunchChatsWiring()
    ensures ObserversOf(LaunchTable(), Str(DONE_GET_CHATS)) == [Command(Instance(Messages, 6))]
  {
    LaunchRun(Str(DONE_GET_CHATS), 6, 7);
    assert LaunchPairs()[6..7] == [LaunchPairs()[6]];
  }

  /** The server's 205 and 206 notices set off a new users request and a new chats request. */
  lemma LaunchNoticeWiring()
    ensures ObserversOf(LaunchTable(), Int(205)) == [Command(Instance(AllUsers, 7))]
    ensures ObserversOf(LaunchTable(), Int(206)) == [Command(Instance(Chats, 8))]
  {
    LaunchRun(Int(205), 7, 8);
    assert LaunchPairs()[7..8] == [LaunchPairs()[7]];
    LaunchRun(Int(206), 8, 9);
    assert LaunchPairs()[8..9] == [LaunchPairs()[8]];
  }

  /** `GetContacts` is never registered: nothing handles a `get_contacts` reply. */
  lemma LaunchContactsUnhandled()
    ensures ObserversOf(LaunchTable(), Str(GET_CONTACTS)) == []
  {
    LaunchTableNamed(Str(GET_CONTACTS));
    CommandsNamedNone(LaunchPairs(), Str(GET_CONTACTS));
  }

  /** `reg_command` of a class on a running client followed by `unreg_command` as written raises ValueError. */
  lemma RegThenUnregRaises(table: map<Value, seq<Observer>>, k: Kind, serial: nat, name: Value)
    requires Command(Class(k)) !in ObserversOf(table, name)
    ensures Detached(Attached(table, Command(Made(Class(k), serial)), name), Command(Class(k)), name).None?
  {
  }

  /**
   * With the corrected `unreg_command`, registering a class on a running
   * client and unregistering it restores every event's observers, when no
   * instance of that class was attached under the name before.
   */
  lemma RegThenUnregFixedRestores(table: map<Value, seq<Observer>>, c: Ref, serial: nat, name: Value, e: Value)
    requires forall j :: 0 <= j < |ObserversOf(table, name)| ==> !(ObserversOf(table, name)[j].Command? && ObserversOf(table, name)[j].h.k == c.k)
    ensures ObserversOf(DetachedKind(Attached(table, Command(Made(c, serial)), name), c.k, name), e) == ObserversOf(table, e)
  {
    var obs := ObserversOf(table, name);
    var p := (o: Observer) => !(o.Command? && o.h.k == c.k);
    FilterAppend(obs, [Command(Made(c, serial))], p);
    FilterAll(obs, p);
    assert Filter([Command(Made(c, serial))], p) == [];
  }

  /** `AsyncClientProtocol`: the reassembly state, whose read size follows the announced length, and the thread it reports to. */
  /** Payloads this long or longer are logged by their length only. */
  const LOG_DECODE_LIMIT: nat := 1024

  /** Whether `data_received`'s debug line raises UnicodeDecodeError on a completed payload. */
  predicate LogRaises(payload: seq<byte>) {
    |payload| < LOG_DECODE_LIMIT && !Utf8.Valid(payload)
  }

  class Protocol {
    const thread: ClientTransport
    const receiver: Receiver
    /** `long_data` is not set: `connection_made` has not run to its end, having raised or not run yet. */
    var dataUnset: bool

    /** The protocol the connection factory makes, with `connection_made`'s read sizes: the header first. */
    constructor (thread: ClientTransport, transport: Transport)
      modifies transport
      ensures this.thread == thread && fresh(receiver)
      ensures receiver.transport == transport && receiver.variant == Capped
      ensures receiver.State() == Initial(old(transport.maxSize))
      ensures WireOf(transport) == old(WireOf(transport)) && dataUnset
    {
      this.thread := thread;
      dataUnset := true;
      receiver := new Receiver(Capped, transport);
    }

    /**
     * The rest of `connection_made`: refresh the local record of the
     * configured user (password, derived key, inactive) or create it, send
     * a presence, notify `new_connect`, and only then set `long_data`. What
     * follows is stated for the case where no command observes
     * `new_connect` first: nobody observes it, or the first observer is a
     * Qt object, whose signal raises TypeError.
     */
    method ConnectionMade(fuel: nat) returns (raised: bool)
      requires thread.Valid()
      modifies this`dataUnset, thread`account, thread`calls, thread.store`users, thread.store`contacts,
        thread.store`history, thread.store`chats, thread.store`messages, receiver.transport
      ensures thread.Valid() && dataUnset == raised
      ensures receiver.transport.maxSize == old(receiver.transport.maxSize)
      ensures var p := Encode(Presence("status", Null, map[], Some(thread.setup.base.userName), thread.setup.base.stamp),
                              thread.setup.base.codec);
        var obs := ObserversOf(thread.observers, Str("new_connect"));
        (obs == [] || obs[0].Widget?) ==>
          thread.account == Some(Refreshed(old(thread.account), thread.setup.base)) &&
          thread.store.Me().Some? && WroteTo(receiver.transport, old(WireOf(receiver.transport)), p)
      ensures var p := Encode(Presence("status", Null, map[], Some(thread.setup.base.userName), thread.setup.base.stamp),
                              thread.setup.base.codec);
        var obs := ObserversOf(thread.observers, Str("new_connect"));
        (obs == [] || obs[0].Widget?) ==>
          (Framable(p) ==> (raised <==> obs != [])) && (!Framable(p) ==> raised) && thread.calls == old(thread.calls)
    {
      raised := Present(fuel);
      dataUnset := raised;
    }

    /** `connection_made` up to the `new_connect` notification: the record, the presence and the notice. */
    method Present(fuel: nat) returns (raised: bool)
      requires thread.Valid()
      modifies thread`account, thread`calls, thread.store`users, thread.store`contacts,
        thread.store`history, thread.store`chats, thread.store`messages, receiver.transport
      ensures thread.Valid()
      ensures receiver.transport.maxSize == old(receiver.transport.maxSize)
      ensures var p := Encode(Presence("status", Null, map[], Some(thread.setup.base.userName), thread.setup.base.stamp),
                              thread.setup.base.codec);
        var obs := ObserversOf(thread.observers, Str("new_connect"));
        (obs == [] || obs[0].Widget?) ==>
          thread.account == Some(Refreshed(old(thread.account), thread.setup.base)) &&
          thread.store.Me().Some? && WroteTo(receiver.transport, old(WireOf(receiver.transport)), p)
      ensures var p := Encode(Presence("status", Null, map[], Some(thread.setup.base.userName), thread.setup.base.stamp),
                              thread.setup.base.codec);
        var obs := ObserversOf(thread.observers, Str("new_connect"));
        (obs == [] || obs[0].Widget?) ==>
          (Framable(p) ==> (raised <==> obs != [])) && (!Framable(p) ==> raised) && thread.calls == old(thread.calls)
    {
      thread.Refresh();
      raised := thread.WriteTo(receiver.transport,
                               Presence("status", Null, map[], Some(thread.setup.base.userName), thread.setup.base.stamp));
      if raised {
        return;
      }
      ghost var top;
      raised, top := thread.Notify(Str("new_connect"), receiver.transport, None, Null, fuel);
    }

    /**
     * `data_received(data)`: reassembly, then for a completed payload the
     * debug line's UTF-8 decode (only of a payload shorter than 1024 bytes;
     * a longer one is logged by its length), the parsing and `run_command`;
     * the buffer is emptied only once the payload has been parsed. An
     * exception escaping here makes the event loop close the transport.
     * While `long_data` is unset, the first chunk that is not a header
     * raises AttributeError at `self.long_data += data`.
     */
    method DataReceived(data: seq<byte>, fuel: nat) returns (raised: bool, ghost top: seq<nat>)
      requires thread.Valid()
      modifies receiver, receiver.transport, thread`calls, thread`account, thread.store`users,
        thread.store`contacts, thread.store`history, thread.store`chats, thread.store`messages
      ensures thread.Valid()
      ensures dataUnset && |data| != CHUNK_SIZE ==>
        raised && top == [] && receiver.State() == old(receiver.State()) && thread.calls == old(thread.calls)
      ensures !(dataUnset && |data| != CHUNK_SIZE) ==>
        var (st, payload) := Step(receiver.variant, old(receiver.State()), data);
        (payload.None? ==> !raised && receiver.State() == st && thread.calls == old(thread.calls)) &&
        (payload.Some? && LogRaises(payload.value) ==>
           raised && receiver.State() == Holding((st, payload)) && thread.calls == old(thread.calls)) &&
        (payload.Some? && !LogRaises(payload.value) ==>
          var mes := Load(payload.value, thread.setup.base.codec, thread.setup.base.stamp);
          (mes.None? ==> raised && receiver.State() == Holding((st, payload)) && thread.calls == old(thread.calls)) &&
          (mes.Some? ==> receiver.State() == st))
      ensures var (st, payload) := Step(receiver.variant, old(receiver.State()), data);
        payload.Some? && !LogRaises(payload.value) && Load(payload.value, thread.setup.base.codec, thread.setup.base.stamp).Some? ==>
          var called := CalledFor(thread.observers, Load(payload.value, thread.setup.base.codec, thread.setup.base.stamp).value);
          (!raised ==> |top| == |called|) &&
          (forall k :: 0 <= k < |top| && k < |called| ==> old(|thread.calls|) <= top[k] < |thread.calls| && thread.calls[top[k]] == called[k])
      ensures raised ==> receiver.transport.closed
    {
      top := [];
      if dataUnset && |data| != CHUNK_SIZE {
        receiver.transport.Close();
        return true, [];
      }
      var payload := receiver.DataReceived(data);
      if payload.None? {
        return false, [];
      }
      if LogRaises(payload.value) {
        receiver.transport.Close();
        return true, [];
      }
      var mes := Load(payload.value, thread.setup.base.codec, thread.setup.base.stamp);
      if mes.None? {
        raised := true;
      } else {
        receiver.Release();
        raised, top := thread.RunCommand(receiver.transport, mes.value, fuel);
      }
      if raised {
        receiver.transport.Close();
      }
    }
  }
}
