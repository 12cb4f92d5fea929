/**
 * The MongoDB store of the talkative server
 * (talkative_server/talkative_server/db_mongo.py), as in-memory
 * collections: users with their contact lists, the history rows and the
 * active-session rows. A reference to a user is its index in `users`.
 */
module MongoStore {
  import opened Wrappers
  import opened Bytes
  import opened Envelope
  import opened Lists
  import opened Text

  /** `TypeHistory`. */
  datatype HistoryType = Login | Logout | ChangePassword | ContactAdded | ContactDeleted | MessageSent | MessageAccepted

  /** A `User` document: the fields the store logic reads or writes. */
  datatype User = User(username: string, password: string, authKey: seq<byte>, pubKey: Value, lastLogin: Option<string>, contacts: seq<nat>)

  /** A `UserHistory` document; absent fields are None. */
  datatype HistoryRow = HistoryRow(oper: Option<nat>, kind: HistoryType, ip: Option<string>, port: Option<int>, note: Option<string>)

  /** An `ActiveUsers` document: one open session. */
  datatype ActiveRow = ActiveRow(oper: Option<nat>, ip: string, port: Option<int>)

  /** The number of history rows of one kind that belong to a user. */
  function Tally(rows: seq<HistoryRow>, oper: nat, kind: HistoryType): (n: nat)
    ensures n <= |rows|
  {
    if rows == [] then 0
    else
      var last := rows[|rows| - 1];
      Tally(rows[..|rows| - 1], oper, kind) + if last.oper == Some(oper) && last.kind == kind then 1 else 0
  }

  /** Appending a row adds one to exactly the tally it belongs to. */
  lemma TallySnoc(rows: seq<HistoryRow>, r: HistoryRow, oper: nat, kind: HistoryType)
    ensures Tally(rows + [r], oper, kind) == Tally(rows, oper, kind) + if r.oper == Some(oper) && r.kind == kind then 1 else 0
  {
    assert (rows + [r])[..|rows|] == rows;
  }

  /** The session rows of a user (`ActiveUsers.objects(oper=user)`), in order. */
  function SessionsOf(rows: seq<ActiveRow>, oper: Option<nat>): (r: seq<ActiveRow>)
    ensures |r| <= |rows|
    ensures forall i :: 0 <= i < |r| ==> r[i].oper == oper
  {
    if rows == [] then []
    else (if rows[0].oper == oper then [rows[0]] else []) + SessionsOf(rows[1..], oper)
  }

  /** The session rows left after deleting those of a user. */
  function EndSessions(rows: seq<ActiveRow>, oper: Option<nat>): (r: seq<ActiveRow>)
    ensures |r| <= |rows|
    ensures forall i :: 0 <= i < |r| ==> r[i].oper != oper
  {
    if rows == [] then []
    else (if rows[0].oper != oper then [rows[0]] else []) + EndSessions(rows[1..], oper)
  }

  /** Ending a user's sessions leaves that user none and every other user all of theirs. */
  lemma {:induction false} EndSessionsMeaning(rows: seq<ActiveRow>, oper: Option<nat>, other: Option<nat>)
    ensures SessionsOf(EndSessions(rows, oper), oper) == []
    ensures other != oper ==> SessionsOf(EndSessions(rows, oper), other) == SessionsOf(rows, other)
  {
    if rows != [] {
      EndSessionsMeaning(rows[1..], oper, other);
      var head := if rows[0].oper != oper then [rows[0]] else [];
      SessionsOfAppend(head, EndSessions(rows[1..], oper), oper);
      SessionsOfAppend(head, EndSessions(rows[1..], oper), other);
    }
  }

  lemma {:induction false} SessionsOfAppend(xs: seq<ActiveRow>, ys: seq<ActiveRow>, oper: Option<nat>)
    ensures SessionsOf(xs + ys, oper) == SessionsOf(xs, oper) + SessionsOf(ys, oper)
  {
    if xs == [] {
      assert xs + ys == ys;
    } else {
      assert (xs + ys)[1..] == xs[1..] + ys;
      SessionsOfAppend(xs[1..], ys, oper);
    }
  }

  /** A new session row is one more session of its user. */
  lemma SessionsOfSnoc(rows: seq<ActiveRow>, r: ActiveRow)
    ensures SessionsOf(rows + [r], r.oper) == SessionsOf(rows, r.oper) + [r]
  {
    SessionsOfAppend(rows, [r], r.oper);
    assert [r][1..] == [];
  }

  /** `pull__contacts=c`: every occurrence of `c` removed, the others kept in order. */
  function DropContact(cs: seq<nat>, c: nat): (r: seq<nat>)
    ensures c !in r && |r| <= |cs|
    ensures forall x :: x != c ==> (x in r <==> x in cs)
  {
    if cs == [] then []
    else (if cs[0] != c then [cs[0]] else []) + DropContact(cs[1..], c)
  }

  /** Pulling a contact that was just pushed gives the contact list back. */
  lemma {:induction false} DropContactPushed(cs: seq<nat>, c: nat)
    requires c !in cs
    ensures DropContact(cs + [c], c) == cs
  {
    if cs == [] {
      assert [c][1..] == [];
    } else {
      assert (cs + [c])[1..] == cs[1..] + [c];
      DropContactPushed(cs[1..], c);
      assert [cs[0]] + cs[1..] == cs;
    }
  }

  /** The history left after deleting a user's `del_contact` rows with the given note. */
  function Unlogged(rows: seq<HistoryRow>, oper: nat, note: string): (r: seq<HistoryRow>)
    ensures |r| <= |rows|
    ensures forall i :: 0 <= i < |r| ==> r[i] in rows && !(r[i].oper == Some(oper) && r[i].kind == ContactDeleted && r[i].note == Some(note))
  {
    if rows == [] then []
    else
      var keep := !(rows[0].oper == Some(oper) && rows[0].kind == ContactDeleted && rows[0].note == Some(note));
      (if keep then [rows[0]] else []) + Unlogged(rows[1..], oper, note)
  }

  /** What a `StringField` accepts on validation: a string, or None for a field that is not required. */
  predicate StringValid(v: Value) {
    v.Str? || v.Null?
  }

  class Store {
    var users: seq<User>
    var history: seq<HistoryRow>
    var active: seq<ActiveRow>

    /** `init_mongo`: the stored users and history, with every session row deleted. */
    constructor (users: seq<User>, history: seq<HistoryRow>)
      ensures this.users == users && this.history == history && active == []
    {
      this.users := users;
      this.history := history;
      active := [];
    }

    /** The `unique=True` index on user names. */
    predicate Distinct()
      reads this
    {
      forall i, j :: 0 <= i < j < |users| ==> users[i].username != users[j].username
    }

    /**
     * `User.by_name`: the user stored under exactly the lower-cased name.
     * A name that is not a string makes `.lower()` raise, and that is
     * swallowed like the lookup failure: None.
     */
    function ByName(name: Value): (r: Option<nat>)
      reads this
      ensures r.Some? ==> name.Str? && r.value < |users| && users[r.value].username == Lower(name.s)
      ensures r.None? ==> !name.Str? || forall j :: 0 <= j < |users| ==> users[j].username != Lower(name.s)
    {
      if name.Str? then FirstWhere(users, (u: User) => u.username == Lower(name.s)) else None
    }

    /** `user.user_activity`: the user's open sessions. */
    function Activity(u: nat): seq<ActiveRow>
      reads this
    {
      SessionsOf(active, Some(u))
    }

    /**
     * `ActiveUsers.by_name`: the first session of the named user. For an
     * unknown name the query asks for sessions without a user.
     */
    function ActiveByName(name: Value): (r: Option<ActiveRow>)
      reads this
      ensures r.Some? ==> r.value in active && r.value.oper == ByName(name)
      ensures r.None? ==> forall j :: 0 <= j < |active| ==> active[j].oper != ByName(name)
    {
      var u := ByName(name);
      match FirstWhere(active, (a: ActiveRow) => a.oper == u)
      case None => None
      case Some(i) => Some(active[i])
    }

    /** `has_contact`: False for a falsy or unknown name, else membership in the contact list. */
    function HasContact(owner: nat, name: Value): (b: bool)
      reads this
      requires owner < |users|
      ensures !Truthy(name) || ByName(name).None? ==> !b
      ensures Truthy(name) && ByName(name).Some? ==> (b <==> ByName(name).value in users[owner].contacts)
    {
      Truthy(name) && ByName(name).Some? && ByName(name).value in users[owner].contacts
    }

    /** `sent` and `accepted`: the user's history rows of those kinds. */
    function Sent(u: nat): nat
      reads this
    {
      Tally(history, u, MessageSent)
    }

    function Accepted(u: nat): nat
      reads this
    {
      Tally(history, u, MessageAccepted)
    }

    /**
     * `login_user(username, ip_addr=…, port=…, pub_key=…)`: stamps the last
     * login, stores the public key, and adds one session row and one login
     * row. For an unknown user the document created from those keywords has
     * fields `User` does not define, and creating it raises. `pub_key` is a
     * string field, so saving a user whose key is anything but a string or
     * None fails validation and raises before any row is written.
     */
    method LoginUser(username: string, ip: string, port: Option<int>, pubKey: Value, now: string) returns (raised: bool)
      modifies this
      ensures var u := old(ByName(Str(username)));
        (u.None? || !StringValid(pubKey) ==> raised && users == old(users) && active == old(active) && history == old(history)) &&
        (u.Some? && StringValid(pubKey) ==> (!raised &&
          users == old(users)[u.value := old(users)[u.value].(lastLogin := Some(now), pubKey := pubKey)] &&
          active == old(active) + [ActiveRow(u, ip, port)] &&
          history == old(history) + [HistoryRow(u, Login, Some(ip), port, None)]))
    {
      var u := ByName(Str(username));
      if u.None? || !StringValid(pubKey) {
        return true;
      }
      raised := false;
      users := users[u.value := users[u.value].(lastLogin := Some(now), pubKey := pubKey)];
      active := active + [ActiveRow(u, ip, port)];
      history := history + [HistoryRow(u, Login, Some(ip), port, None)];
    }

    /**
     * `logout_user`: deletes every session of the named user (of sessions
     * without a user when the name is unknown) and adds a logout row, which
     * this backend writes without the user.
     */
    method LogoutUser(username: string, ip: string, port: Option<int>)
      modifies this`active, this`history
      ensures active == EndSessions(old(active), old(ByName(Str(username))))
      ensures history == old(history) + [HistoryRow(None, Logout, Some(ip), port, None)]
    {
      var u := ByName(Str(username));
      active := EndSessions(active, u);
      history := history + [HistoryRow(None, Logout, Some(ip), port, None)];
    }

    /** `add_contact`: push a known user that is not yet a contact, and log it; otherwise nothing. */
    method AddContact(owner: nat, name: Value)
      requires owner < |users|
      modifies this`users, this`history
      ensures var c := old(ByName(name));
        if c.Some? && !old(HasContact(owner, name)) then
          users == old(users)[owner := old(users)[owner].(contacts := old(users)[owner].contacts + [c.value])] &&
          history == old(history) + [HistoryRow(Some(owner), ContactAdded, None, None, Some(name.s))]
        else users == old(users) && history == old(history)
    {
      var c := ByName(name);
      if c.Some? && !HasContact(owner, name) {
        users := users[owner := users[owner].(contacts := users[owner].contacts + [c.value])];
        history := history + [HistoryRow(Some(owner), ContactAdded, None, None, Some(name.s))];
      }
    }

    /**
     * `del_contact`: pull a present contact and delete the user's
     * `del_contact` rows noting that name; otherwise nothing.
     */
    method DelContact(owner: nat, name: Value)
      requires owner < |users|
      modifies this`users, this`history
      ensures var c := old(ByName(name));
        if c.Some? && old(HasContact(owner, name)) then
          users == old(users)[owner := old(users)[owner].(contacts := DropContact(old(users)[owner].contacts, c.value))] &&
          history == Unlogged(old(history), owner, name.s)
        else users == old(users) && history == old(history)
    {
      var c := ByName(name);
      if c.Some? && HasContact(owner, name) {
        users := users[owner := users[owner].(contacts := DropContact(users[owner].contacts, c.value))];
        history := Unlogged(history, owner, name.s);
      }
    }

    /** `proc_message(src, dest)`: a sent row for the sender and an accepted row for the receiver, each only when known. */
    method ProcMessage(src: Value, dest: Value)
      modifies this`history
      ensures var s := old(ByName(src));
        var d := old(ByName(dest));
        history == old(history) + (if s.Some? then [HistoryRow(s, MessageSent, None, None, None)] else []) +
          (if d.Some? then [HistoryRow(d, MessageAccepted, None, None, None)] else [])
    {
      var s := ByName(src);
      if s.Some? {
        history := history + [HistoryRow(s, MessageSent, None, None, None)];
      }
      var d := ByName(dest);
      if d.Some? {
        history := history + [HistoryRow(d, MessageAccepted, None, None, None)];
      }
    }
  }

  /**
   * The lookup ignores the case of the asked name for users stored in lower
   * case: any spelling of such a name finds that user.
   */
  lemma ByNameIgnoresCase(store: Store, i: nat, s: string)
    requires store.Distinct() && i < |store.users|
    requires store.users[i].username == Lower(s)
    ensures store.ByName(Str(s)) == Some(i)
  {
  }

  /** A user stored with a capital letter is found by no name at all. */
  lemma CapitalizedNeverFound(store: Store, i: nat, name: Value)
    requires i < |store.users| && store.users[i].username != Lower(store.users[i].username)
    ensures store.ByName(name) != Some(i)
  {
    if store.ByName(name) == Some(i) {
      LowerIdempotent(name.s);
    }
  }

  /** After `proc_message` between two known users, the sender's `sent` and the receiver's `accepted` are one higher. */
  lemma ProcMessageCounts(rows: seq<HistoryRow>, s: nat, d: nat)
    ensures var after := rows + [HistoryRow(Some(s), MessageSent, None, None, None)] + [HistoryRow(Some(d), MessageAccepted, None, None, None)];
      Tally(after, s, MessageSent) == Tally(rows, s, MessageSent) + 1 &&
      Tally(after, d, MessageAccepted) == Tally(rows, d, MessageAccepted) + 1
  {
    var mid := rows + [HistoryRow(Some(s), MessageSent, None, None, None)];
    TallySnoc(rows, HistoryRow(Some(s), MessageSent, None, None, None), s, MessageSent);
    TallySnoc(mid, HistoryRow(Some(d), MessageAccepted, None, None, None), s, MessageSent);
    TallySnoc(rows, HistoryRow(Some(s), MessageSent, None, None, None), d, MessageAccepted);
    TallySnoc(mid, HistoryRow(Some(d), MessageAccepted, None, None, None), d, MessageAccepted);
  }
}
