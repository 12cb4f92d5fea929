/**
 * The client's local store (client/db.py), as in-memory tables: users,
 * contact rows, history rows and the messages exchanged. A reference to a
 * user is its index in `users`; messages are kept in the order they were
 * created, which is the order of their `created` stamps.
 */
module ClientStore {
  import opened Wrappers
  import opened Envelope
  import opened Lists
  import opened Text
  import opened SqlRows
  import opened MongoStore

  /** A `User` row. */
  datatype User = User(username: string, descr: Option<string>, lastLogin: Option<string>)

  function UserName(u: User): string {
    u.username
  }

  /** A `UserMessages` row. */
  datatype UserMessage = UserMessage(sender: Option<nat>, receiver: Option<nat>, message: string)

  /** How a contact operation ends: normally, or with the exception it raises. */
  datatype Outcome = Done | NotFoundUser | ContactExists | NotFoundContact | ContactNotExists | NameNotAString | MultipleRows

  /** Whether a message is one `chat_hiltory` selects for a user (SQL `IS NULL` when the user is None). */
  predicate Involves(m: UserMessage, u: Option<nat>) {
    m.sender == u || m.receiver == u
  }

  /** The messages involving a user, newest first. */
  function NewestFirst(ms: seq<UserMessage>, u: Option<nat>): (r: seq<UserMessage>)
    ensures |r| == Count(ms, (m: UserMessage) => Involves(m, u))
    ensures forall k :: 0 <= k < |r| ==> r[k] in ms && Involves(r[k], u)
  {
    if ms == [] then []
    else
      var last := ms[|ms| - 1];
      assert ms == ms[..|ms| - 1] + [last];
      CountSnoc(ms[..|ms| - 1], last, (m: UserMessage) => Involves(m, u));
      (if Involves(last, u) then [last] else []) + NewestFirst(ms[..|ms| - 1], u)
  }

  /** The newest message a user took part in heads that user's history, before the older ones in their order. */
  lemma NewestHeadsHistory(ms: seq<UserMessage>, m: UserMessage, u: Option<nat>)
    requires Involves(m, u)
    ensures NewestFirst(ms + [m], u) == [m] + NewestFirst(ms, u)
  {
    assert (ms + [m])[..|ms|] == ms;
  }

  /** A user's history is the messages involving the user, in creation order, reversed. */
  lemma {:induction false} NewestFirstReversesFilter(ms: seq<UserMessage>, u: Option<nat>)
    ensures NewestFirst(ms, u) == Reversed(Filter(ms, (m: UserMessage) => Involves(m, u)))
  {
    var p := (m: UserMessage) => Involves(m, u);
    if ms != [] {
      var front, last := ms[..|ms| - 1], ms[|ms| - 1];
      assert ms == front + [last];
      NewestFirstReversesFilter(front, u);
      FilterAppend(front, [last], p);
      assert [last][1..] == [];
      if Involves(last, u) {
        NewestHeadsHistory(front, last, u);
        var f := Filter(front, p);
        assert (f + [last])[..|f|] == f;
      } else {
        OthersLeaveHistory(front, last, u);
        assert Filter(front, p) + [] == Filter(front, p);
      }
    }
  }

  /** A message a user took no part in leaves that user's history as it was. */
  lemma OthersLeaveHistory(ms: seq<UserMessage>, m: UserMessage, u: Option<nat>)
    requires !Involves(m, u)
    ensures NewestFirst(ms + [m], u) == NewestFirst(ms, u)
  {
    assert (ms + [m])[..|ms|] == ms;
  }

  /** The user ids from `from` up to the table's size that are neither `owner` nor among its contacts, in id order. */
  function Strangers(rows: seq<ContactRow>, owner: nat, from: nat, size: nat): (r: seq<nat>)
    requires from <= size
    ensures forall i :: i in r <==> from <= i < size && i != owner && Links(rows, owner, i) == 0
    ensures forall k :: 0 <= k < |r| ==> from <= r[k] < size
    ensures forall k, l :: 0 <= k < l < |r| ==> r[k] < r[l]
    decreases size - from
  {
    if from == size then []
    else
      var rest := Strangers(rows, owner, from + 1, size);
      if from != owner && Links(rows, owner, from) == 0 then [from] + rest else rest
  }

  class Store {
    var users: seq<User>
    var contacts: seq<ContactRow>
    var history: seq<HistoryRow>
    var messages: seq<UserMessage>

    constructor (users: seq<User>, contacts: seq<ContactRow>, history: seq<HistoryRow>, messages: seq<UserMessage>)
      ensures this.users == users && this.contacts == contacts && this.history == history && this.messages == messages
    {
      this.users := users;
      this.contacts := contacts;
      this.history := history;
      this.messages := messages;
    }

    /** `User.by_name`: the first user whose name equals `s` when both are lower-cased. */
    function ByName(s: string): Option<nat>
      reads this`users
    {
      NameIndex(users, UserName, s)
    }

    /** `has_contact`, as in the server's SQLite store; None when a truthy name is not a string. */
    function HasContact(owner: nat, name: Value): (r: Option<bool>)
      reads this`users, this`contacts
      ensures r.None? <==> Truthy(name) && !name.Str?
      ensures r == Some(true) ==> name.Str? && ByName(name.s).Some? && Links(contacts, owner, ByName(name.s).value) > 0
    {
      if !Truthy(name) then Some(false)
      else if !name.Str? then None
      else
        match ByName(name.s)
        case None => Some(false)
        case Some(c) => Some(Links(contacts, owner, c) != 0)
    }

    function Sent(u: nat): nat
      reads this
    {
      Tally(history, u, MessageSent)
    }

    function Accepted(u: nat): nat
      reads this
    {
      Tally(history, u, MessageAccepted)
    }

    /** `not_contacts`: every other user that is not among the owner's contacts, in id order. */
    function NotContacts(owner: nat): (r: seq<nat>)
      reads this
      ensures forall i: nat :: i in r <==>
        (i < |users| && i != owner && forall j :: 0 <= j < |contacts| ==> contacts[j] != ContactRow(Some(owner), i))
      ensures forall k, l :: 0 <= k < l < |r| ==> r[k] < r[l]
    {
      var r := Strangers(contacts, owner, 0, |users|);
      forall i: nat ensures Links(contacts, owner, i) == 0 <==> forall j :: 0 <= j < |contacts| ==> contacts[j] != ContactRow(Some(owner), i) {
        LinksZero(contacts, owner, i);
      }
      r
    }

    /**
     * `UserMessages.chat_hiltory(user, limit)`: the newest `limit` messages
     * the user sent or received, newest first.
     */
    function ChatHistory(u: Option<nat>, limit: nat): (r: seq<UserMessage>)
      reads this
      ensures |r| <= limit && forall k :: 0 <= k < |r| ==> r[k] in messages && Involves(r[k], u)
      ensures |r| == limit || |r| == Count(messages, (m: UserMessage) => Involves(m, u))
      ensures r == Limit(Reversed(Filter(messages, (m: UserMessage) => Involves(m, u))), limit)
    {
      NewestFirstReversesFilter(messages, u);
      Limit(NewestFirst(messages, u), limit)
    }

    /** Position `k` of the history holds the `k`-th newest message involving the user. */
    lemma ChatHistoryOrder(u: Option<nat>, limit: nat)
      ensures var r := ChatHistory(u, limit);
        var mine := Filter(messages, (m: UserMessage) => Involves(m, u));
        |r| <= |mine| && forall k :: 0 <= k < |r| ==> r[k] == mine[|mine| - 1 - k]
    {
      var r := ChatHistory(u, limit);
      var mine := Filter(messages, (m: UserMessage) => Involves(m, u));
      assert r == Limit(Reversed(mine), limit);
      LimitReversed(mine, limit);
    }

    /** `chat_hiltory` called with a name: the user is looked up first, and an unknown name selects the messages without that side. */
    function ChatHistoryByName(username: string, limit: nat): (r: seq<UserMessage>)
      reads this
      ensures |r| <= limit && forall k :: 0 <= k < |r| ==> r[k] in messages && Involves(r[k], ByName(username))
      ensures ByName(username).None? ==> forall k :: 0 <= k < |r| ==> r[k].sender.None? || r[k].receiver.None?
    {
      ChatHistory(ByName(username), limit)
    }

    /**
     * `add_contact`: NotFoundUser for an unknown name, ContactExists for a
     * contact already there; otherwise a contact row and an `add_contact`
     * history row. A name that is not a string makes the lookup raise.
     */
    method AddContact(owner: nat, name: Value) returns (outcome: Outcome)
      modifies this`contacts, this`history
      ensures !name.Str? ==> outcome == NameNotAString
      ensures name.Str? && old(ByName(name.s)).None? ==> outcome == NotFoundUser
      ensures name.Str? && old(ByName(name.s)).Some? ==>
        (outcome == ContactExists <==> old(HasContact(owner, name)) == Some(true)) &&
        (outcome == Done <==> old(HasContact(owner, name)) == Some(false))
      ensures outcome == Done ==>
        contacts == old(contacts) + [ContactRow(Some(owner), old(ByName(name.s)).value)] &&
        history == old(history) + [HistoryRow(Some(owner), ContactAdded, None, None, Some(name.s))]
      ensures outcome != Done ==> contacts == old(contacts) && history == old(history)
      ensures outcome == Done && Truthy(name) ==> HasContact(owner, name) == Some(true)
      ensures old(NoDuplicates(contacts)) && Truthy(name) ==> NoDuplicates(contacts)
    {
      if !name.Str? {
        return NameNotAString;
      }
      var c := ByName(name.s);
      if c.None? {
        return NotFoundUser;
      }
      if HasContact(owner, name) == Some(true) {
        return ContactExists;
      }
      AddedLinks(contacts, owner, c.value);
      contacts := contacts + [ContactRow(Some(owner), c.value)];
      history := history + [HistoryRow(Some(owner), ContactAdded, None, None, Some(name.s))];
      outcome := Done;
    }

    /**
     * `del_contact`: NotFoundContact for an unknown name, ContactNotExists
     * for a user that is not a contact; otherwise the pair's only row loses
     * its owner (`.one()` raises when the pair is duplicated) and a
     * `del_contact` history row is added.
     */
    method DelContact(owner: nat, name: Value) returns (outcome: Outcome)
      modifies this`contacts, this`history
      ensures !name.Str? ==> outcome == NameNotAString
      ensures name.Str? && old(ByName(name.s)).None? ==> outcome == NotFoundContact
      ensures name.Str? && old(ByName(name.s)).Some? ==>
        (outcome == ContactNotExists <==> old(HasContact(owner, name)) != Some(true)) &&
        (outcome == MultipleRows <==> old(HasContact(owner, name)) == Some(true) && old(One(contacts, owner, ByName(name.s).value)).None?)
      ensures outcome == Done ==>
        contacts == Disowned(old(contacts), old(One(contacts, owner, ByName(name.s).value)).value) &&
        history == old(history) + [HistoryRow(Some(owner), ContactDeleted, None, None, Some(name.s))]
      ensures outcome != Done ==> contacts == old(contacts) && history == old(history)
      ensures old(NoDuplicates(contacts)) ==> outcome != MultipleRows && NoDuplicates(contacts)
      ensures old(NoDuplicates(contacts)) && outcome == Done ==> HasContact(owner, name) == Some(false)
    {
      if !name.Str? {
        return NameNotAString;
      }
      var c := ByName(name.s);
      if c.None? {
        return NotFoundContact;
      }
      if HasContact(owner, name) != Some(true) {
        return ContactNotExists;
      }
      var i := One(contacts, owner, c.value);
      if i.None? {
        return MultipleRows;
      }
      ghost var rows := contacts;
      contacts := Disowned(contacts, i.value);
      history := history + [HistoryRow(Some(owner), ContactDeleted, None, None, Some(name.s))];
      forall o2: nat, c2: nat
        ensures Links(contacts, o2, c2) <= Links(rows, o2, c2)
      {
        DisownedLinks(rows, i.value, owner, c.value, o2, c2);
      }
      DisownedLinks(rows, i.value, owner, c.value, owner, c.value);
      outcome := Done;
    }

    /** `proc_message(src, dest)`, as in the server's SQLite store. */
    method ProcMessage(src: Value, dest: Value) returns (raised: bool)
      modifies this`history
      ensures raised <==> !src.Str? || !dest.Str?
      ensures !src.Str? ==> history == old(history)
      ensures src.Str? && !dest.Str? ==> history == old(history) + [HistoryRow(old(ByName(src.s)), MessageSent, None, None, None)]
      ensures !raised ==> history == old(history) + [HistoryRow(old(ByName(src.s)), MessageSent, None, None, None),
                                                     HistoryRow(old(ByName(dest.s)), MessageAccepted, None, None, None)]
      ensures !raised && old(ByName(src.s)).Some? && old(ByName(dest.s)).Some? ==>
        Sent(old(ByName(src.s)).value) == old(Sent(ByName(src.s).value)) + 1 &&
        Accepted(old(ByName(dest.s)).value) == old(Accepted(ByName(dest.s).value)) + 1
    {
      if !src.Str? {
        return true;
      }
      history := history + [HistoryRow(ByName(src.s), MessageSent, None, None, None)];
      if !dest.Str? {
        return true;
      }
      history := history + [HistoryRow(ByName(dest.s), MessageAccepted, None, None, None)];
      raised := false;
      var s, d := ByName(src.s), ByName(dest.s);
      if s.Some? && d.Some? {
        ProcMessageCounts(old(history), s.value, d.value);
        assert history == old(history) + [HistoryRow(s, MessageSent, None, None, None)] + [HistoryRow(d, MessageAccepted, None, None, None)];
      }
    }
  }
}
