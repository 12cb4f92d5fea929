/**
 * The contact commands of the first server snapshot
 * (server/contacts/commands.py): add a contact, remove one, list them. The
 * commands work on the `User` and `Contact` tables and answer with a fresh
 * message whose `response` is a status string.
 */
module ServerContacts {
  import opened Wrappers
  import opened Envelope
  import opened Lists
  import ServerJim

  const ADD_CONTACT := "add_contact"
  const DEL_CONTACT := "del_contact"
  const GET_CONTACTS := "get_contacts"
  const ADD_PROMPT := "Enter user name for add"
  const DEL_PROMPT := "Enter user name for del"
  const ADD_MISSING := "Contact not found"
  const DEL_MISSING := "Contact or user not found"

  /** How the server snapshot's messages are stamped and delimited (its settings). */
  datatype Env = Env(now: string, delimiter: string)

  /** `Message(**kwargs)` of the server snapshot. */
  function Reply(kwargs: Fields, env: Env): Message {
    ServerJim.New(kwargs, env.now, env.delimiter)
  }

  /** The prompt a command without a parameter answers with: a request for the name, addressed back to the command. */
  function Prompt(text: string, command: string, env: Env): (m: Message)
    ensures Get(m, ACTION) == Str("request") && Get(m, "text") == Str(text) && Get(m, "destination") == Str(command)
    ensures Get(m, RESPONSE) == Null
  {
    Reply(map[ACTION := Str("request"), "text" := Str(text), "destination" := Str(command)], env)
  }

  /** A bare status reply, `Message(response=code)`, optionally with a text. */
  function Status(code: string, text: Option<string>, env: Env): (m: Message)
    ensures Get(m, RESPONSE) == Str(code)
    ensures text.Some? ==> Get(m, "text") == Str(text.value)
    ensures text.None? ==> Get(m, "text") == Null
  {
    match text
    case None => Reply(map[RESPONSE := Str(code)], env)
    case Some(t) => Reply(map[RESPONSE := Str(code), "text" := Str(t)], env)
  }

  /** Removing one occurrence takes exactly that element out of the multiset. */
  lemma {:induction false} RemoveFirstMultiset<T>(xs: seq<T>, x: T)
    requires x in xs
    ensures multiset(RemoveFirst(xs, x).value) == multiset(xs) - multiset{x}
  {
    assert xs == [xs[0]] + xs[1..];
    if xs[0] != x {
      RemoveFirstMultiset(xs[1..], x);
    }
  }

  /** Adding a row and then deleting that pair leaves the same rows up to order, and the very same rows when the pair was new. */
  lemma AddThenDelete(rows: seq<(nat, nat)>, o: nat, c: nat)
    ensures RemoveFirst(rows + [(o, c)], (o, c)).Some?
    ensures multiset(RemoveFirst(rows + [(o, c)], (o, c)).value) == multiset(rows)
    ensures (o, c) !in rows ==> RemoveFirst(rows + [(o, c)], (o, c)) == Some(rows)
  {
    assert (o, c) in rows + [(o, c)];
    RemoveFirstMultiset(rows + [(o, c)], (o, c));
    if (o, c) !in rows {
      RemoveAfterAppend(rows, (o, c));
    }
  }

  /**
   * `[i.contact.username for i in owner.contacts]`: the names of the users
   * the owner's rows point at, in row order; None when a row points at no
   * user.
   */
  function Names(users: seq<string>, rows: seq<(nat, nat)>, owner: nat): (r: Option<seq<Value>>)
    ensures r.Some? ==> |r.value| == Count(rows, (x: (nat, nat)) => x.0 == owner)
    ensures r.None? <==> exists j :: 0 <= j < |rows| && rows[j].0 == owner && rows[j].1 >= |users|
  {
    if rows == [] then Some([])
    else
      var front := rows[..|rows| - 1];
      var last := rows[|rows| - 1];
      var r := Names(users, front, owner);
      assert rows == front + [last];
      CountSnoc<(nat, nat)>(front, last, (x: (nat, nat)) => x.0 == owner);
      assert forall j :: 0 <= j < |front| ==> front[j] == rows[j];
      if last.0 != owner then r
      else if last.1 >= |users| || r.None? then None
      else Some(r.value + [Str(users[last.1])])
  }

  /** The tables the commands read and change: user names in id order, and `Contact` rows as (owner, contact) pairs. */
  class Tables {
    var users: seq<string>
    var contacts: seq<(nat, nat)>

    constructor (users: seq<string>, contacts: seq<(nat, nat)>)
      ensures this.users == users && this.contacts == contacts
    {
      this.users := users;
      this.contacts := contacts;
    }

    /** `User.by_name(v)`: the user whose (unique) name is the string `v`; nobody for anything else. */
    function ByName(v: Value): (r: Option<nat>)
      reads this`users
      ensures r.Some? ==> v.Str? && r.value < |users| && users[r.value] == v.s
      ensures r.None? ==> !v.Str? || v.s !in users
    {
      if !v.Str? then None
      else FirstWhere(users, (u: string) => u == v.s)
    }

    /**
     * `AddContactCommand.execute(request)`: without a parameter, the prompt;
     * with both the named contact and the requesting user known, one new
     * row and `201` (`500` and no row when the database refuses it,
     * `refused`); otherwise `400` and no row.
     */
    method Add(request: Message, env: Env, refused: bool) returns (reply: Message)
      modifies this`contacts
      ensures !Truthy(Get(request, "param")) ==> reply == Prompt(ADD_PROMPT, ADD_CONTACT, env) && contacts == old(contacts)
      ensures var c := ByName(Get(request, "param"));
        var o := ByName(Get(request, USER));
        Truthy(Get(request, "param")) ==>
          (c.Some? && o.Some? && !refused ==> contacts == old(contacts) + [(o.value, c.value)] && reply == Status("201", None, env)) &&
          (c.Some? && o.Some? && refused ==> contacts == old(contacts) && reply == Status("500", None, env)) &&
          (c.None? || o.None? ==> contacts == old(contacts) && reply == Status("400", Some(ADD_MISSING), env))
    {
      var param := Get(request, "param");
      if !Truthy(param) {
        return Prompt(ADD_PROMPT, ADD_CONTACT, env);
      }
      var contact := ByName(param);
      var owner := ByName(Get(request, USER));
      if contact.Some? && owner.Some? {
        if refused {
          return Status("500", None, env);
        }
        contacts := contacts + [(owner.value, contact.value)];
      } else {
        return Status("400", Some(ADD_MISSING), env);
      }
      reply := Status("201", None, env);
    }

    /**
     * `DelContactCommand.execute(request)`: without a parameter, the prompt;
     * with both users known, the first row linking the user to the contact
     * is deleted if there is one and the answer is `202` (`500` and no
     * change when the database refuses, `refused`); otherwise `400`.
     */
    method Del(request: Message, env: Env, refused: bool) returns (reply: Message)
      modifies this`contacts
      ensures !Truthy(Get(request, "param")) ==> reply == Prompt(DEL_PROMPT, DEL_CONTACT, env) && contacts == old(contacts)
      ensures var o := ByName(Get(request, USER));
        var c := ByName(Get(request, "param"));
        Truthy(Get(request, "param")) ==>
          (c.Some? && o.Some? && !refused ==>
             reply == Status("202", None, env) &&
             contacts == match RemoveFirst(old(contacts), (o.value, c.value))
                         case None => old(contacts)
                         case Some(rest) => rest) &&
          (c.Some? && o.Some? && refused ==> contacts == old(contacts) && reply == Status("500", None, env)) &&
          (c.None? || o.None? ==> contacts == old(contacts) && reply == Status("400", Some(DEL_MISSING), env))
      ensures Truthy(Get(request, "param")) && !refused && ByName(Get(request, USER)).Some? && ByName(Get(request, "param")).Some? ==>
        multiset(contacts) <= multiset(old(contacts))
    {
      var param := Get(request, "param");
      if !Truthy(param) {
        return Prompt(DEL_PROMPT, DEL_CONTACT, env);
      }
      var user := ByName(Get(request, USER));
      var contact := ByName(param);
      if contact.Some? && user.Some? {
        if refused {
          return Status("500", None, env);
        }
        var rest := RemoveFirst(contacts, (user.value, contact.value));
        if rest.Some? {
          RemoveFirstMultiset(contacts, (user.value, contact.value));
          contacts := rest.value;
        }
      } else {
        return Status("400", Some(DEL_MISSING), env);
      }
      reply := Status("202", None, env);
    }

    /**
     * `GetContactCommand.execute(request)`: `202` with `alert` holding the
     * requesting user's contact names; an unknown user raises (None here).
     */
    function ContactList(request: Message, env: Env): (reply: Option<Message>)
      reads this
      ensures var o := ByName(Get(request, USER));
        (reply.Some? <==> o.Some? && Names(users, contacts, o.value).Some?) &&
        (reply.Some? ==> Get(reply.value, RESPONSE) == Str("202") &&
                         Get(reply.value, "alert") == List(Names(users, contacts, o.value).value))
    {
      var o := ByName(Get(request, USER));
      if o.None? then None
      else
        match Names(users, contacts, o.value)
        case None => None
        case Some(names) => Some(Reply(map[RESPONSE := Str("202"), "alert" := List(names)], env))
    }
  }

  /** A row added for an owner puts its contact's name at the end of that owner's list. */
  lemma {:induction false} AddedListed(users: seq<string>, rows: seq<(nat, nat)>, o: nat, c: nat)
    requires c < |users| && Names(users, rows, o).Some?
    ensures Names(users, rows + [(o, c)], o) == Some(Names(users, rows, o).value + [Str(users[c])])
  {
    assert (rows + [(o, c)])[..|rows|] == rows;
  }

  /** A row added for one owner leaves every other owner's list as it was. */
  lemma {:induction false} OtherOwnersUntouched(users: seq<string>, rows: seq<(nat, nat)>, o: nat, c: nat, o2: nat)
    requires o2 != o
    ensures Names(users, rows + [(o, c)], o2) == Names(users, rows, o2)
  {
    assert (rows + [(o, c)])[..|rows|] == rows;
  }
}
