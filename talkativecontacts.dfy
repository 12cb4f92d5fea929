/**
 * The contact commands of the threaded talkative server
 * (talkative_server/talkative_server/contacts/commands.py): add and remove
 * a contact, list the contacts, hand out a user's public key and change a
 * user's avatar. Each runs behind `login_required`, works on the server's
 * SQLite store and answers on the connection registered under a name the
 * message carries.
 */
module TalkativeContacts {
  import opened Wrappers
  import opened Bytes
  import opened Envelope
  import opened Net
  import opened Lists
  import opened Text
  import opened SqlRows
  import opened ServerParts
  import opened Guards
  import opened ThreadServer
  import SqliteStore

  /** The names the commands are registered under (talkative_server/config/settings.py). */
  const ADD_CONTACT := "add"
  const DEL_CONTACT := "remove"
  const GET_CONTACTS := "get_contacts"
  const PUBLIC_KEY_REQUEST := "pubkey_need"
  const AVA_INFO := "edit_ava"
  /** The error texts the commands answer with. */
  const NO_CONTACT := "Не найден контакт"
  const NO_KEY := "Ошибка определения ключа"

  /** What a guarded command call comes to: the guard's TypeError, an exception from the body, or the body's return value. */
  datatype Outcome = Unauthorized | Raised | Returned(truthy: bool)

  /** The connection that receives a command's answer, as a frame set. */
  function Target(names: seq<(string, Socket)>, key: Value): (r: set<Socket>)
    ensures r <= Sockets(names)
    ensures NameLookup(names, key).Found? ==> r == {NameLookup(names, key).conn}
    ensures !NameLookup(names, key).Found? ==> r == {}
  {
    match NameLookup(names, key)
    case Unhashable => {}
    case Missing => {}
    case Found(s) =>
      var i :| 0 <= i < |names| && names[i] == (key.s, s);
      assert names[i].1 in Sockets(names);
      {s}
  }

  /**
   * `[c.contact.username for c in user.contacts]`: the names of the users
   * the owner's contact rows point at, in row order; None when a row points
   * at no user (the attribute access on None raises).
   */
  function ContactNames(users: seq<SqliteStore.User>, rows: seq<ContactRow>, owner: nat): (r: Option<seq<Value>>)
    ensures r.Some? ==> |r.value| == Count(rows, (x: ContactRow) => x.owner == Some(owner))
    ensures r.Some? ==> forall k :: 0 <= k < |r.value| ==> r.value[k].Str?
    ensures r.None? ==> exists j :: 0 <= j < |rows| && rows[j].owner == Some(owner) && rows[j].contact >= |users|
  {
    if rows == [] then Some([])
    else
      var last := rows[|rows| - 1];
      var front := ContactNames(users, rows[..|rows| - 1], owner);
      CountSnoc(rows[..|rows| - 1], last, (x: ContactRow) => x.owner == Some(owner));
      assert rows == rows[..|rows| - 1] + [last];
      if last.owner != Some(owner) then front
      else if last.contact >= |users| || front.None? then
        (if front.None? then
           var j :| 0 <= j < |rows| - 1 && rows[..|rows| - 1][j].owner == Some(owner) && rows[..|rows| - 1][j].contact >= |users|;
           assert rows[j] == rows[..|rows| - 1][j];
           None
         else None)
      else Some(front.value + [Str(users[last.contact].username)])
  }

  /** A contact row added for the owner puts the contact's name at the end of the owner's list; other owners' lists stay. */
  lemma {:induction false} ContactNamesSnoc(users: seq<SqliteStore.User>, rows: seq<ContactRow>, owner: nat, c: nat, o2: nat)
    requires c < |users|
    ensures var r := rows + [ContactRow(Some(owner), c)];
      (o2 == owner && ContactNames(users, rows, owner).Some? ==>
         ContactNames(users, r, owner) == Some(ContactNames(users, rows, owner).value + [Str(users[c].username)])) &&
      (o2 != owner ==> ContactNames(users, r, o2) == ContactNames(users, rows, o2))
  {
    var r := rows + [ContactRow(Some(owner), c)];
    assert r[..|r| - 1] == rows;
  }

  /**
   * Every name on an owner's list is the name of a user the owner has a
   * contact row for, and every such row's user is on the list.
   */
  lemma {:induction false} ContactNamesListed(users: seq<SqliteStore.User>, rows: seq<ContactRow>, owner: nat, c: nat)
    requires ContactNames(users, rows, owner).Some? && c < |users|
    ensures Links(rows, owner, c) > 0 ==> Str(users[c].username) in ContactNames(users, rows, owner).value
    ensures (forall j :: 0 <= j < |users| && users[j].username == users[c].username ==> j == c) ==>
      (Str(users[c].username) in ContactNames(users, rows, owner).value ==> Links(rows, owner, c) > 0)
    decreases |rows|
  {
    if rows != [] {
      var front := rows[..|rows| - 1];
      var last := rows[|rows| - 1];
      assert rows == front + [last];
      CountSnoc(front, last, Pair(owner, c));
      ContactNamesListed(users, front, owner, c);
    }
  }

  /**
   * The key request's answer: 511 with the user's public key and the name
   * as asked when the user is known and has a truthy key, else the error
   * response.
   */
  function KeyReply(users: seq<SqliteStore.User>, dest: string, stamp: string -> string): (m: Message)
    ensures var u := NameIndex(users, SqliteStore.UserName, dest);
      if u.Some? && Truthy(users[u.value].pubKey) then
        Get(m, RESPONSE) == Int(511) && Get(m, DATA) == users[u.value].pubKey && Get(m, ACCOUNT_NAME) == Str(dest)
      else
        Get(m, RESPONSE) == Int(400) && Get(m, ERROR_FIELD) == Str(NO_KEY) && Get(m, DATA) == Null
  {
    var u := NameIndex(users, SqliteStore.UserName, dest);
    if u.Some? && Truthy(users[u.value].pubKey) then
      New(map[RESPONSE := Int(511), DATA := users[u.value].pubKey, ACCOUNT_NAME := Str(dest)], stamp)
    else
      ErrorResp(NO_KEY, map[], stamp)
  }

  /** Two spellings of one name get the same key and the same response; only the echoed name differs. */
  lemma KeyReplyIgnoresCase(users: seq<SqliteStore.User>, s: string, t: string, stamp: string -> string)
    requires Lower(s) == Lower(t)
    ensures Get(KeyReply(users, s, stamp), RESPONSE) == Get(KeyReply(users, t, stamp), RESPONSE)
    ensures Get(KeyReply(users, s, stamp), DATA) == Get(KeyReply(users, t, stamp), DATA)
  {
    NameIndexIgnoresCase(users, SqliteStore.UserName, s, t);
  }

  /** The commands' answers. */
  function SuccessReply(stamp: string -> string): Message {
    Envelope.Success(Int(200), map[], stamp)
  }

  function NoContact(stamp: string -> string): Message {
    ErrorResp(NO_CONTACT, map[], stamp)
  }

  function ListReply(names: seq<Value>, stamp: string -> string): (m: Message)
    ensures Get(m, RESPONSE) == Int(202) && Get(m, LIST_INFO) == List(names)
  {
    Envelope.Success(Int(202), map[LIST_INFO := List(names)], stamp)
  }

  /**
   * `serv.write_client_data(serv.names.get(key), mes)`: no connection under
   * the key makes the write raise on None; otherwise the write's own
   * outcome, a dropped client counting as written.
   */
  method SendReply(serv: Server, key: Value, mes: Message) returns (raised: bool)
    modifies serv`clients, Target(serv.names, key)
    ensures var c := NameLookup(serv.names, key);
      !c.Found? ==> raised && serv.clients == old(serv.clients)
    ensures var c := NameLookup(serv.names, key);
      c.Found? ==> (raised <==> !Survives(old(Verdict(Encode(mes, serv.codec), View(c.conn, serv.clients)))))
    ensures var c := NameLookup(serv.names, key);
      c.Found? && old(Verdict(Encode(mes, serv.codec), View(c.conn, serv.clients))) == Written ==>
        c.conn.sent == old(c.conn.sent) + Frame(Encode(mes, serv.codec))
    ensures var c := NameLookup(serv.names, key);
      c.Found? && old(Verdict(Encode(mes, serv.codec), View(c.conn, serv.clients))) != Written ==> c.conn.sent == old(c.conn.sent)
  {
    var c := NameLookup(serv.names, key);
    if !c.Found? {
      return true;
    }
    assert c.conn in Target(serv.names, key);
    var w := serv.WriteClientData(c.conn, mes);
    raised := !Survives(w);
  }

  /**
   * The answer and, when it went through and an event is given, the
   * server's `notify` under that event.
   */
  method Announce(serv: Server, key: Value, mes: Message, event: Option<string>) returns (o: Outcome)
    modifies serv`clients, serv`updates, Target(serv.names, key)
    ensures o == Raised || o == Returned(true)
    ensures var c := NameLookup(serv.names, key);
      o == Returned(true) <==> c.Found? && Survives(old(Verdict(Encode(mes, serv.codec), View(c.conn, serv.clients))))
    ensures var c := NameLookup(serv.names, key);
      c.Found? && old(Verdict(Encode(mes, serv.codec), View(c.conn, serv.clients))) == Written ==>
        c.conn.sent == old(c.conn.sent) + Frame(Encode(mes, serv.codec))
    ensures o == Returned(true) && event.Some? ==>
      serv.updates == old(serv.updates) + Calls(ObserversOf(serv.observers, Str(event.value)), Str(event.value))
    ensures o == Raised || event.None? ==> serv.updates == old(serv.updates)
  {
    var raised := SendReply(serv, key, mes);
    if raised {
      return Raised;
    }
    if event.Some? {
      serv.Notify(Str(event.value));
    }
    o := Returned(true);
  }

  /** The part of `AddContactCommand.execute` for a known sender `u` and a truthy contact name. */
  method AddFor(serv: Server, store: SqliteStore.Store, u: nat, src: Value, contact: Value) returns (o: Outcome)
    modifies serv`clients, serv`updates, Sockets(serv.names), store`contacts, store`history
    ensures o == Raised || o == Returned(true)
    ensures var c := if contact.Str? then old(store.ByName(contact.s)) else None;
      store.contacts == if c.Some? && old(store.HasContact(u, contact)) == Some(false)
                        then old(store.contacts) + [ContactRow(Some(u), c.value)] else old(store.contacts)
    ensures contact.Str? && Truthy(contact) && store.ByName(contact.s).Some? ==> store.HasContact(u, contact) == Some(true)
    ensures !contact.Str? ==> o == Raised
    ensures o == Returned(true) ==>
      serv.updates == old(serv.updates) + Calls(ObserversOf(serv.observers, Str(ADD_CONTACT)), Str(ADD_CONTACT))
    ensures o == Raised ==> serv.updates == old(serv.updates)
    ensures serv.names == old(serv.names)
  {
    var raised := store.AddContact(u, contact);
    if raised {
      return Raised;
    }
    o := Announce(serv, src, SuccessReply(serv.stamp), Some(ADD_CONTACT));
  }

  /**
   * `AddContactCommand.execute` behind `login_required`: with a truthy
   * `account_name` the sender's user adds that contact (an unknown sender
   * raises on None), is answered with success and the server notifies
   * `add`; with a falsy one the sender is answered with the error and no
   * notification follows. It returns True.
   */
  method Add(serv: Server, store: SqliteStore.Store, msg: Message) returns (o: Outcome)
    modifies serv`clients, serv`updates, Sockets(serv.names), store`contacts, store`history
    ensures o == Unauthorized <==> !Admits(old(serv.names), msg)
    ensures o.Returned? ==> o.truthy
    ensures serv.names == old(serv.names)
    ensures var src := Get(msg, USER);
      o == Unauthorized || !src.Str? || (Truthy(Get(msg, ACCOUNT_NAME)) && old(store.ByName(src.s)).None?) ==>
        o != Returned(true) && store.contacts == old(store.contacts) && store.history == old(store.history) &&
        serv.updates == old(serv.updates) && serv.clients == old(serv.clients)
    ensures var src := Get(msg, USER);
      var contact := Get(msg, ACCOUNT_NAME);
      o != Unauthorized && src.Str? && Truthy(contact) && old(store.ByName(src.s)).Some? ==>
        var u := old(store.ByName(src.s)).value;
        var c := if contact.Str? then old(store.ByName(contact.s)) else None;
        store.contacts == if c.Some? && old(store.HasContact(u, contact)) == Some(false)
                          then old(store.contacts) + [ContactRow(Some(u), c.value)] else old(store.contacts)
    ensures var src := Get(msg, USER);
      var contact := Get(msg, ACCOUNT_NAME);
      o != Unauthorized && src.Str? && Truthy(contact) && old(store.ByName(src.s)).Some? ==>
        (contact.Str? && store.ByName(contact.s).Some? ==> store.HasContact(old(store.ByName(src.s)).value, contact) == Some(true)) &&
        (!contact.Str? ==> o == Raised) &&
        (o == Returned(true) ==>
           serv.updates == old(serv.updates) + Calls(ObserversOf(serv.observers, Str(ADD_CONTACT)), Str(ADD_CONTACT)))
    ensures var src := Get(msg, USER);
      o != Unauthorized && src.Str? && !Truthy(Get(msg, ACCOUNT_NAME)) ==>
        store.contacts == old(store.contacts) && store.history == old(store.history) && serv.updates == old(serv.updates)
    ensures var src := Get(msg, USER);
      var c := NameLookup(serv.names, src);
      o != Unauthorized && src.Str? && !Truthy(Get(msg, ACCOUNT_NAME)) ==>
        (o == Returned(true) <==> c.Found? && Survives(old(Verdict(Encode(NoContact(serv.stamp), serv.codec), View(c.conn, serv.clients)))))
  {
    if LoginRequired(serv.names, msg, ()).Refused? {
      return Unauthorized;
    }
    var src := Get(msg, USER);
    var contact := Get(msg, ACCOUNT_NAME);
    if !src.Str? {
      return Raised;
    }
    var user := store.ByName(src.s);
    if Truthy(contact) {
      if user.None? {
        return Raised;
      }
      o := AddFor(serv, store, user.value, src, contact);
    } else {
      o := Announce(serv, src, NoContact(serv.stamp), None);
    }
  }

  /** The part of `DelContactCommand.execute` for a known sender `u` and a truthy contact name. */
  method DelFor(serv: Server, store: SqliteStore.Store, u: nat, src: Value, contact: Value) returns (o: Outcome)
    modifies serv`clients, serv`updates, Sockets(serv.names), store`contacts, store`history
    ensures o == Raised || o == Returned(true)
    ensures old(NoDuplicates(store.contacts)) ==> store.HasContact(u, contact) != Some(true) && NoDuplicates(store.contacts)
    ensures !contact.Str? ==> o == Raised
    ensures o == Returned(true) ==>
      serv.updates == old(serv.updates) + Calls(ObserversOf(serv.observers, Str(DEL_CONTACT)), Str(DEL_CONTACT))
    ensures o == Raised ==> serv.updates == old(serv.updates)
    ensures serv.names == old(serv.names)
  {
    var raised := store.DelContact(u, contact);
    if raised {
      return Raised;
    }
    o := Announce(serv, src, SuccessReply(serv.stamp), Some(DEL_CONTACT));
  }

  /**
   * `DelContactCommand.execute` behind `login_required`: with a truthy
   * `account_name` the sender's user removes that contact, is answered with
   * success and the server notifies `remove`; with a falsy one nothing is
   * written. It returns True.
   */
  method Del(serv: Server, store: SqliteStore.Store, msg: Message) returns (o: Outcome)
    modifies serv`clients, serv`updates, Sockets(serv.names), store`contacts, store`history
    ensures o == Unauthorized <==> !Admits(old(serv.names), msg)
    ensures o.Returned? ==> o.truthy
    ensures serv.names == old(serv.names)
    ensures var src := Get(msg, USER);
      o == Unauthorized || !src.Str? || (Truthy(Get(msg, ACCOUNT_NAME)) && old(store.ByName(src.s)).None?) ==>
        o != Returned(true) && store.contacts == old(store.contacts) && store.history == old(store.history) &&
        serv.updates == old(serv.updates) && serv.clients == old(serv.clients)
    ensures var src := Get(msg, USER);
      var contact := Get(msg, ACCOUNT_NAME);
      o != Unauthorized && src.Str? && Truthy(contact) && old(store.ByName(src.s)).Some? ==>
        var u := old(store.ByName(src.s)).value;
        (old(NoDuplicates(store.contacts)) ==> store.HasContact(u, contact) != Some(true) && NoDuplicates(store.contacts)) &&
        (!contact.Str? ==> o == Raised) &&
        (o == Returned(true) ==>
           serv.updates == old(serv.updates) + Calls(ObserversOf(serv.observers, Str(DEL_CONTACT)), Str(DEL_CONTACT)))
    ensures var src := Get(msg, USER);
      o != Unauthorized && src.Str? && !Truthy(Get(msg, ACCOUNT_NAME)) ==>
        o == Returned(true) && store.contacts == old(store.contacts) && store.history == old(store.history) &&
        serv.updates == old(serv.updates) && serv.clients == old(serv.clients)
    ensures var src := Get(msg, USER);
      o != Unauthorized && src.Str? && !Truthy(Get(msg, ACCOUNT_NAME)) ==>
        forall s :: s in old(Sockets(serv.names)) ==> s.sent == old(s.sent)
  {
    if LoginRequired(serv.names, msg, ()).Refused? {
      return Unauthorized;
    }
    var src := Get(msg, USER);
    var contact := Get(msg, ACCOUNT_NAME);
    if !src.Str? {
      return Raised;
    }
    var user := store.ByName(src.s);
    if Truthy(contact) {
      if user.None? {
        return Raised;
      }
      o := DelFor(serv, store, user.value, src, contact);
    } else {
      o := Returned(true);
    }
  }

  /**
   * `ListContactsCommand.execute` behind `login_required`: the sender is
   * answered 202 with the names of their contacts in stored order; an
   * unknown sender raises. It returns True.
   */
  method ListContacts(serv: Server, store: SqliteStore.Store, msg: Message) returns (o: Outcome)
    modifies serv`clients, Sockets(serv.names)
    ensures o == Unauthorized <==> !Admits(old(serv.names), msg)
    ensures o.Returned? ==> o.truthy
    ensures serv.names == old(serv.names)
    ensures var src := Get(msg, USER);
      o == Unauthorized || !src.Str? || store.ByName(src.s).None? ==>
        o != Returned(true) && serv.clients == old(serv.clients) && forall s :: s in old(Sockets(serv.names)) ==> s.sent == old(s.sent)
    ensures var src := Get(msg, USER);
      o != Unauthorized && src.Str? && store.ByName(src.s).Some? ==>
        var names := ContactNames(store.users, store.contacts, store.ByName(src.s).value);
        (names.None? ==> o == Raised) &&
        (names.Some? ==>
           var c := NameLookup(serv.names, src);
           var reply := ListReply(names.value, serv.stamp);
           (o == Returned(true) <==> c.Found? && Survives(old(Verdict(Encode(reply, serv.codec), View(c.conn, serv.clients))))) &&
           (c.Found? && old(Verdict(Encode(reply, serv.codec), View(c.conn, serv.clients))) == Written ==>
              c.conn.sent == old(c.conn.sent) + Frame(Encode(reply, serv.codec))))
  {
    if LoginRequired(serv.names, msg, ()).Refused? {
      return Unauthorized;
    }
    var src := Get(msg, USER);
    if !src.Str? {
      return Raised;
    }
    var user := store.ByName(src.s);
    if user.None? {
      return Raised;
    }
    var names := ContactNames(store.users, store.contacts, user.value);
    if names.None? {
      return Raised;
    }
    var raised := SendReply(serv, src, ListReply(names.value, serv.stamp));
    if raised {
      return Raised;
    }
    o := Returned(true);
  }

  /**
   * `RequestKeyCommand.execute` behind `login_required`: the connection of
   * `from` is answered with the key of the user named by `to`, or with the
   * error when that user is unknown or has no key. It returns True.
   */
  method RequestKey(serv: Server, store: SqliteStore.Store, msg: Message) returns (o: Outcome)
    modifies serv`clients, Sockets(serv.names)
    ensures o == Unauthorized <==> !Admits(old(serv.names), msg)
    ensures o.Returned? ==> o.truthy
    ensures serv.names == old(serv.names)
    ensures o == Unauthorized || !Get(msg, DESTINATION).Str? ==>
      o != Returned(true) && serv.clients == old(serv.clients) && forall s :: s in old(Sockets(serv.names)) ==> s.sent == old(s.sent)
    ensures var dest := Get(msg, DESTINATION);
      o != Unauthorized && dest.Str? ==>
        var c := NameLookup(serv.names, Get(msg, SENDER));
        var reply := KeyReply(store.users, dest.s, serv.stamp);
        (o == Returned(true) <==> c.Found? && Survives(old(Verdict(Encode(reply, serv.codec), View(c.conn, serv.clients))))) &&
        (c.Found? && old(Verdict(Encode(reply, serv.codec), View(c.conn, serv.clients))) == Written ==>
           c.conn.sent == old(c.conn.sent) + Frame(Encode(reply, serv.codec)))
  {
    if LoginRequired(serv.names, msg, ()).Refused? {
      return Unauthorized;
    }
    var dest := Get(msg, DESTINATION);
    if !dest.Str? {
      return Raised;
    }
    var raised := SendReply(serv, Get(msg, SENDER), KeyReply(store.users, dest.s, serv.stamp));
    if raised {
      return Raised;
    }
    o := Returned(true);
  }

  /**
   * `EditAvatar.execute` behind `login_required`: for a known sender and
   * truthy data, the avatar becomes the base64-decoded data (`b64decode`,
   * None when it raises) and `service_update_lists` tells the connected
   * users to refresh their lists, as written: it stops at the first write
   * that does not carry on, and an OSError there escapes as RuntimeError.
   * The body returns None.
   */
  method EditAvatar(serv: Server, store: SqliteStore.Store, msg: Message, b64decode: Value -> Option<seq<byte>>) returns (o: Outcome)
    requires NamesDistinct(serv.names)
    modifies serv`clients, serv`names, Sockets(serv.names), store`users
    ensures o == Unauthorized <==> !Admits(old(serv.names), msg)
    ensures o != Returned(true)
    ensures var src := Get(msg, SENDER);
      o == Unauthorized || !src.Str? ==> store.users == old(store.users) && serv.names == old(serv.names)
    ensures var src := Get(msg, SENDER);
      var ava := Get(msg, DATA);
      o != Unauthorized && src.Str? ==>
        var u := old(store.ByName(src.s));
        (u.None? || !Truthy(ava) ==> o == Returned(false) && store.users == old(store.users) && serv.names == old(serv.names)) &&
        (u.Some? && Truthy(ava) && b64decode(ava).None? ==> o == Raised && store.users == old(store.users)) &&
        (u.Some? && Truthy(ava) && b64decode(ava).Some? ==>
           store.users == old(store.users)[u.value := old(store.users)[u.value].(avatar := Bin(b64decode(ava).value))])
    ensures var src := Get(msg, SENDER);
      var ava := Get(msg, DATA);
      var p := Encode(serv.notice, serv.codec);
      var ev := old(Effective(serv.names, Views(serv.names, serv.clients)));
      var k := FirstFailure(p, ev);
      var c := Pruned(old(serv.clients), old(serv.names), p, ev, k, false);
      o != Unauthorized && src.Str? && old(store.ByName(src.s)).Some? && Truthy(ava) && b64decode(ava).Some? ==>
        (o == Returned(false) || o == Raised) && (o == Returned(false) <==> k == |ev|) &&
        NotifiedUpTo(old(serv.names), p, ev, old(SentOf(serv.names)), k) &&
        serv.names == if k < |ev| && Verdict(p, ev[k]) == OsFailure && old(serv.names[k].1) in c then old(serv.names[..k] + serv.names[k + 1..]) else old(serv.names)
  {
    if LoginRequired(serv.names, msg, ()).Refused? {
      return Unauthorized;
    }
    var src := Get(msg, SENDER);
    if !src.Str? {
      return Raised;
    }
    var user := store.ByName(src.s);
    var ava := Get(msg, DATA);
    if user.None? || !Truthy(ava) {
      return Returned(false);
    }
    var data := b64decode(ava);
    if data.None? {
      return Raised;
    }
    o := SaveAvatar(serv, store, user.value, data.value);
  }

  /** The last steps of `EditAvatar.execute`: the new avatar stored, then `service_update_lists` as written. */
  method SaveAvatar(serv: Server, store: SqliteStore.Store, u: nat, data: seq<byte>) returns (o: Outcome)
    requires NamesDistinct(serv.names) && u < |store.users|
    modifies serv`clients, serv`names, Sockets(serv.names), store`users
    ensures store.users == old(store.users)[u := old(store.users)[u].(avatar := Bin(data))]
    ensures var p := Encode(serv.notice, serv.codec);
      var ev := old(Effective(serv.names, Views(serv.names, serv.clients)));
      var k := FirstFailure(p, ev);
      var c := Pruned(old(serv.clients), old(serv.names), p, ev, k, false);
      (o == Returned(false) || o == Raised) && (o == Returned(false) <==> k == |ev|) &&
      NotifiedUpTo(old(serv.names), p, ev, old(SentOf(serv.names)), k) &&
      serv.names == if k < |ev| && Verdict(p, ev[k]) == OsFailure && old(serv.names[k].1) in c then old(serv.names[..k] + serv.names[k + 1..]) else old(serv.names)
  {
    ghost var names0, clients0, ev, sent0 := serv.names, serv.clients, Effective(serv.names, Views(serv.names, serv.clients)), SentOf(serv.names);
    store.users := store.users[u := store.users[u].(avatar := Bin(data))];
    assert Effective(serv.names, Views(serv.names, serv.clients)) == ev && SentOf(serv.names) == sent0;
    var update := serv.ServiceUpdateLists();
    ghost var p := Encode(serv.notice, serv.codec);
    ghost var k := FirstFailure(p, ev);
    ghost var c := Pruned(clients0, names0, p, ev, k, false);
    assert serv.names == if k < |ev| && Verdict(p, ev[k]) == OsFailure && names0[k].1 in c then names0[..k] + names0[k + 1..] else names0;
    o := if update == Finished then Returned(false) else Raised;
  }
}
