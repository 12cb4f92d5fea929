/**
 * The SQLite store of the talkative server
 * (talkative_server/talkative_server/db_sqlite.py), as in-memory tables:
 * users, contact rows, history rows and the `ActiveUsers` session rows. A
 * reference to a user is its index in `users`; history and session rows have
 * the shape of the MongoDB backend's.
 */
module SqliteStore {
  import opened Wrappers
  import opened Envelope
  import opened Lists
  import opened Text
  import opened SqlRows
  import opened MongoStore

  /** A `User` row: the columns the store logic reads or writes (`password` as stored, hashing left out). */
  datatype User = User(username: string, password: string, authKey: Value, pubKey: Value, lastLogin: Option<string>, avatar: Value)

  function UserName(u: User): string {
    u.username
  }

  /** The password `login_user` gives a user it has to create. */
  const PLACEHOLDER := "placeholder"

  /** What the SQLite driver can bind as a parameter: None, a number, a string or bytes. */
  predicate Bindable(v: Value) {
    !v.List? && !v.Obj? && !v.Ref?
  }

  class Store {
    var users: seq<User>
    var contacts: seq<ContactRow>
    var history: seq<HistoryRow>
    var active: seq<ActiveRow>

    /** `init_sqlite`: the stored tables, with every `ActiveUsers` row deleted. */
    constructor (users: seq<User>, contacts: seq<ContactRow>, history: seq<HistoryRow>)
      ensures this.users == users && this.contacts == contacts && this.history == history && active == []
    {
      this.users := users;
      this.contacts := contacts;
      this.history := history;
      active := [];
    }

    /** `User.by_name`: the first user whose name equals `s` when both are lower-cased. */
    function ByName(s: string): Option<nat>
      reads this
    {
      NameIndex(users, UserName, s)
    }

    /** `user.user_activity`. */
    function Activity(u: nat): seq<ActiveRow>
      reads this
    {
      SessionsOf(active, Some(u))
    }

    /**
     * `has_contact`: False for a falsy name; a truthy name that is not a
     * string makes `by_name` raise (None here); otherwise whether a contact
     * row links the owner to the named user.
     */
    function HasContact(owner: nat, name: Value): (r: Option<bool>)
      reads this
      ensures r.None? <==> Truthy(name) && !name.Str?
      ensures r == Some(true) ==> name.Str? && ByName(name.s).Some? && Links(contacts, owner, ByName(name.s).value) > 0
    {
      if !Truthy(name) then Some(false)
      else if !name.Str? then None
      else
        match ByName(name.s)
        case None => Some(false)
        case Some(c) => Some(Links(contacts, owner, c) != 0)
    }

    /** `sent` and `accepted`. */
    function Sent(u: nat): nat
      reads this
    {
      Tally(history, u, MessageSent)
    }

    function Accepted(u: nat): nat
      reads this
    {
      Tally(history, u, MessageAccepted)
    }

    /**
     * `ActiveUsers.by_name`: the first session row of the named user; for an
     * unknown name, the first row without a user.
     */
    function ActiveByName(s: string): (r: Option<ActiveRow>)
      reads this
      ensures r.Some? ==> r.value in active && r.value.oper == ByName(s)
      ensures r.None? ==> forall j :: 0 <= j < |active| ==> active[j].oper != ByName(s)
    {
      var u := ByName(s);
      match FirstWhere(active, (a: ActiveRow) => a.oper == u)
      case None => None
      case Some(i) => Some(active[i])
    }

    /**
     * `login_user(username, ip_addr=…, port=…, pub_key=…)`: an unknown name
     * first gets a user row with the placeholder password; then the user's
     * last login and public key are set and one session row and one login
     * row are added. Afterwards the name finds that user. A public key the
     * SQLite driver cannot bind (a list, a dictionary, an object) makes the
     * INSERT or UPDATE raise, and nothing is written.
     */
    method LoginUser(username: string, ip: string, port: Option<int>, pubKey: Value, now: string) returns (raised: bool, id: nat)
      modifies this`users, this`active, this`history
      ensures raised <==> !Bindable(pubKey)
      ensures raised ==> users == old(users) && active == old(active) && history == old(history)
      ensures !raised ==> var u := old(ByName(username));
        (u.Some? ==> id == u.value && users == old(users)[id := old(users)[id].(lastLogin := Some(now), pubKey := pubKey)]) &&
        (u.None? ==> id == |old(users)| && users == old(users) + [User.User(username, PLACEHOLDER, Null, pubKey, Some(now), Null)])
      ensures !raised ==> active == old(active) + [ActiveRow(Some(id), ip, port)]
      ensures !raised ==> history == old(history) + [HistoryRow(Some(id), Login, Some(ip), port, None)]
      ensures !raised ==> ByName(username) == Some(id) && Activity(id) == old(Activity(id)) + [ActiveRow(Some(id), ip, port)]
    {
      if !Bindable(pubKey) {
        return true, 0;
      }
      raised := false;
      var u := ByName(username);
      if u.Some? {
        id := u.value;
        users := users[id := users[id].(lastLogin := Some(now), pubKey := pubKey)];
        assert forall j :: 0 <= j < |users| ==> users[j].username == old(users)[j].username;
        NameIndexFirst(users, UserName, username, id);
      } else {
        id := |users|;
        users := users + [User.User(username, PLACEHOLDER, Null, pubKey, Some(now), Null)];
        assert forall j :: 0 <= j < id ==> users[j] == old(users)[j];
        NameIndexFirst(users, UserName, username, id);
      }
      ghost var active0 := active;
      active := active + [ActiveRow(Some(id), ip, port)];
      SessionsOfSnoc(active0, ActiveRow(Some(id), ip, port));
      history := history + [HistoryRow(Some(id), Login, Some(ip), port, None)];
    }

    /**
     * `logout_user`: deletes every session row of the named user (of rows
     * without a user when the name is unknown) and adds a logout row for
     * that user.
     */
    method LogoutUser(username: string, ip: string, port: Option<int>)
      modifies this`active, this`history
      ensures active == EndSessions(old(active), old(ByName(username)))
      ensures history == old(history) + [HistoryRow(old(ByName(username)), Logout, Some(ip), port, None)]
      ensures old(ByName(username)).Some? ==> Activity(old(ByName(username)).value) == []
    {
      var u := ByName(username);
      EndSessionsMeaning(active, u, u);
      active := EndSessions(active, u);
      history := history + [HistoryRow(u, Logout, Some(ip), port, None)];
    }

    /**
     * `add_contact`: a name that is not a string raises; a known user that
     * is not yet a contact gets a contact row and an `add_contact` history
     * row; anything else changes nothing. Adding under a truthy name keeps
     * the pairs unique.
     */
    method AddContact(owner: nat, name: Value) returns (raised: bool)
      modifies this`contacts, this`history
      ensures raised <==> !name.Str?
      ensures var c := if name.Str? then old(ByName(name.s)) else None;
        if c.Some? && old(HasContact(owner, name)) == Some(false) then
          contacts == old(contacts) + [ContactRow(Some(owner), c.value)] &&
          history == old(history) + [HistoryRow(Some(owner), ContactAdded, None, None, Some(name.s))]
        else contacts == old(contacts) && history == old(history)
      ensures name.Str? && ByName(name.s).Some? && Truthy(name) ==> HasContact(owner, name) == Some(true)
      ensures old(NoDuplicates(contacts)) && Truthy(name) ==> NoDuplicates(contacts)
    {
      if !name.Str? {
        return true;
      }
      raised := false;
      var c := ByName(name.s);
      if c.Some? && HasContact(owner, name) == Some(false) {
        AddedLinks(contacts, owner, c.value);
        contacts := contacts + [ContactRow(Some(owner), c.value)];
        history := history + [HistoryRow(Some(owner), ContactAdded, None, None, Some(name.s))];
      }
    }

    /**
     * `del_contact`: a name that is not a string raises; for a known user
     * that is a contact, `.one()` picks its contact row (raising when the
     * pair is duplicated), the row loses its owner and a `del_contact`
     * history row is added; anything else changes nothing.
     */
    method DelContact(owner: nat, name: Value) returns (raised: bool)
      modifies this`contacts, this`history
      ensures var c := if name.Str? then old(ByName(name.s)) else None;
        var del := c.Some? && old(HasContact(owner, name)) == Some(true);
        (raised <==> !name.Str? || (del && old(One(contacts, owner, c.value)).None?)) &&
        (del && !raised ==>
          contacts == Disowned(old(contacts), old(One(contacts, owner, c.value)).value) &&
          history == old(history) + [HistoryRow(Some(owner), ContactDeleted, None, None, Some(name.s))]) &&
        (!del || raised ==> contacts == old(contacts) && history == old(history))
      ensures old(NoDuplicates(contacts)) ==> !raised || !name.Str?
      ensures old(NoDuplicates(contacts)) ==> NoDuplicates(contacts) && HasContact(owner, name) != Some(true)
    {
      if !name.Str? {
        return true;
      }
      raised := false;
      var c := ByName(name.s);
      if c.Some? && HasContact(owner, name) == Some(true) {
        var i := One(contacts, owner, c.value);
        if i.None? {
          return true;
        }
        ghost var rows := contacts;
        contacts := Disowned(contacts, i.value);
        history := history + [HistoryRow(Some(owner), ContactDeleted, None, None, Some(name.s))];
        forall o2: nat, c2: nat
          ensures Links(contacts, o2, c2) <= Links(rows, o2, c2)
        {
          DisownedLinks(rows, i.value, owner, c.value, o2, c2);
        }
        DisownedLinks(rows, i.value, owner, c.value, owner, c.value);
      }
    }

    /**
     * `proc_message(src, dest)`: a sent row for the sender and an accepted
     * row for the receiver, each without a user when the name is unknown; a
     * name that is not a string raises at its lookup.
     */
    method ProcMessage(src: Value, dest: Value) returns (raised: bool)
      modifies this`history
      ensures raised <==> !src.Str? || !dest.Str?
      ensures !src.Str? ==> history == old(history)
      ensures src.Str? && !dest.Str? ==> history == old(history) + [HistoryRow(old(ByName(src.s)), MessageSent, None, None, None)]
      ensures !raised ==> history == old(history) + [HistoryRow(old(ByName(src.s)), MessageSent, None, None, None),
                                                     HistoryRow(old(ByName(dest.s)), MessageAccepted, None, None, None)]
      ensures !raised && old(ByName(src.s)).Some? && old(ByName(dest.s)).Some? ==>
        Sent(old(ByName(src.s)).value) == old(Sent(ByName(src.s).value)) + 1 &&
        Accepted(old(ByName(dest.s)).value) == old(Accepted(ByName(dest.s).value)) + 1
    {
      if !src.Str? {
        return true;
      }
      history := history + [HistoryRow(ByName(src.s), MessageSent, None, None, None)];
      if !dest.Str? {
        return true;
      }
      history := history + [HistoryRow(ByName(dest.s), MessageAccepted, None, None, None)];
      raised := false;
      var s, d := ByName(src.s), ByName(dest.s);
      if s.Some? && d.Some? {
        ProcMessageCounts(old(history), s.value, d.value);
        assert history == old(history) + [HistoryRow(s, MessageSent, None, None, None)] + [HistoryRow(d, MessageAccepted, None, None, None)];
      }
    }
  }
}
