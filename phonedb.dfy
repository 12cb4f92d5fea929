/**
 * The phone client's local store (talkative_phone/db.py), as in-memory
 * tables: users, contact rows, history rows, chats and chat messages. A
 * reference to a user is its index in `users`; a chat is referred to by its
 * index in `chats`, and a deleted chat leaves None behind so that the other
 * ids stay put. `me` is the configured `USER_NAME`.
 */
module PhoneStore {
  import opened Wrappers
  import opened Envelope
  import opened Lists
  import opened Text
  import opened SqlRows
  import opened MongoStore

  /** A `User` row: the columns the store logic reads. */
  datatype User = User(username: string, avatar: Value, pubKey: Value)

  function UserName(u: User): string {
    u.username
  }

  /** A `Chat` row with its `members` (the `link` rows, in order); `is_personal` holds whatever value the column was given. */
  datatype Chat = Chat(name: string, avatar: Value, owner: Option<nat>, isPersonal: Value, members: seq<nat>)

  /** A `Messages` row; `chat` becomes None when its chat is deleted. */
  datatype ChatMessage = ChatMessage(chat: Option<nat>, text: Value, sender: Option<nat>, receiver: Option<nat>)

  /** Python's order on strings: code point by code point, a prefix first. */
  predicate LexLe(a: string, b: string) {
    a == [] || (b != [] && (a[0] < b[0] || (a[0] == b[0] && LexLe(a[1..], b[1..]))))
  }

  lemma {:induction false} LexLeTotal(a: string, b: string)
    ensures LexLe(a, b) || LexLe(b, a)
  {
    if a != [] && b != [] && a[0] == b[0] {
      LexLeTotal(a[1..], b[1..]);
    }
  }

  lemma {:induction false} LexLeAntisymmetric(a: string, b: string)
    requires LexLe(a, b) && LexLe(b, a)
    ensures a == b
  {
    if a != [] && b != [] {
      LexLeAntisymmetric(a[1..], b[1..]);
      assert a == [a[0]] + a[1..] && b == [b[0]] + b[1..];
    }
  }

  /** `'__'.join(sorted((a, b)))`: the name of the personal chat of two users. */
  function PairName(a: string, b: string): (r: string)
    ensures r == a + "__" + b || r == b + "__" + a
  {
    if LexLe(a, b) then a + "__" + b else b + "__" + a
  }

  /** Both users of a personal chat arrive at its name. */
  lemma PairNameSymmetric(a: string, b: string)
    ensures PairName(a, b) == PairName(b, a)
  {
    LexLeTotal(a, b);
    if LexLe(a, b) && LexLe(b, a) {
      LexLeAntisymmetric(a, b);
    }
  }

  /** Every member and owner of a chat in a table is one of `n` users. */
  predicate Sound(table: seq<Option<Chat>>, n: nat) {
    forall i :: 0 <= i < |table| && table[i].Some? ==>
      (forall k :: 0 <= k < |table[i].value.members| ==> table[i].value.members[k] < n) &&
      (table[i].value.owner.Some? ==> table[i].value.owner.value < n)
  }

  /** Adding or replacing a chat whose members and owner are users keeps a table sound. */
  lemma SoundPut(table: seq<Option<Chat>>, n: nat, i: nat, c: Chat)
    requires Sound(table, n) && i <= |table|
    requires (forall k :: 0 <= k < |c.members| ==> c.members[k] < n) && (c.owner.Some? ==> c.owner.value < n)
    ensures Sound(if i == |table| then table + [Some(c)] else table[i := Some(c)], n)
  {
  }

  /** After putting a chat at `i`, the other chats keep their names, and the chat at `i` is found by its name unless an earlier chat has it. */
  lemma NamedAfterPut(table: seq<Option<Chat>>, i: nat, c: Chat)
    requires i <= |table|
    requires i < |table| ==> table[i].Some? && table[i].value.name == c.name && NamedIn(table, c.name) == Some(i)
    requires i == |table| ==> NamedIn(table, c.name).None?
    ensures var t := if i == |table| then table + [Some(c)] else table[i := Some(c)];
      NamedIn(t, c.name) == Some(i)
  {
    var t := if i == |table| then table + [Some(c)] else table[i := Some(c)];
    assert forall j :: 0 <= j < i ==> t[j] == table[j];
    NamedFirst(t, c.name, i);
  }

  /**
   * The table after a chat is saved at `i`: over the chat of that name when
   * `i` is its place, at the end for a new name. Every chat keeps its name,
   * the saved one is found by its own, and nothing else changes.
   */
  function PutChat(table: seq<Option<Chat>>, n: nat, i: nat, c: Chat): (t: seq<Option<Chat>>)
    requires Sound(table, n) && i <= |table|
    requires (forall k :: 0 <= k < |c.members| ==> c.members[k] < n) && (c.owner.Some? ==> c.owner.value < n)
    requires i < |table| ==> table[i].Some? && table[i].value.name == c.name && NamedIn(table, c.name) == Some(i)
    requires i == |table| ==> NamedIn(table, c.name).None?
    ensures Sound(t, n) && |table| <= |t| <= |table| + 1
    ensures NamedIn(t, c.name) == Some(i) && t[i] == Some(c)
    ensures forall j :: 0 <= j < |table| && table[j].Some? ==> t[j].Some? && t[j].value.name == table[j].value.name
    ensures forall j :: |table| <= j < |t| ==> t[j].Some? && t[j].value.name == c.name
    ensures forall j :: 0 <= j < |table| && (table[j].None? || table[j].value.name != c.name) ==> t[j] == table[j]
  {
    SoundPut(table, n, i, c);
    NamedAfterPut(table, i, c);
    if i == |table| then table + [Some(c)] else table[i := Some(c)]
  }

  lemma NamedFirst(table: seq<Option<Chat>>, name: string, i: nat)
    requires i < |table| && table[i].Some? && table[i].value.name == name
    requires forall j :: 0 <= j < i ==> !(table[j].Some? && table[j].value.name == name)
    ensures NamedIn(table, name) == Some(i)
  {
  }

  /** Pruning keeps the first chat of a name that is among the names. */
  lemma PrunedKeeps(table: seq<Option<Chat>>, names: seq<Value>, n: string)
    requires NamedIn(table, n).Some? && Str(n) in names
    ensures NamedIn(Pruned(table, names), n) == NamedIn(table, n)
    ensures Pruned(table, names)[NamedIn(table, n).value] == table[NamedIn(table, n).value]
  {
    var a := NamedIn(table, n).value;
    var p := Pruned(table, names);
    assert !Gone(table, names, a);
    forall j | 0 <= j < a
      ensures !(p[j].Some? && p[j].value.name == n)
    {
      assert !(table[j].Some? && table[j].value.name == n);
    }
    NamedFirst(p, n, a);
  }

  /** How the chat lookup of `add_contact` and `del_contact` ends: AttributeError, or a chat or none. */
  datatype Lookup = Crashed | Looked(chat: Option<nat>)

  /** How `add_contact` and `del_contact` end. */
  datatype Outcome = Done | NotFoundUser | NotFoundContact | ContactExists | MultipleRows | NameTaken | NotAMember

  /** One entry of the list `chats_merge` receives; a field the entry lacks is None. */
  datatype ChatItem = ChatItem(name: Value, avatar: Option<Value>, owner: Option<Value>, isPersonal: Option<Value>, members: seq<Value>)

  /** The value `item.get(key)` gives. */
  function Given(v: Option<Value>): Value {
    if v.Some? then v.value else Null
  }

  /** `x or default` on a message field. */
  function Or(v: Value, default: Value): (r: Value)
    ensures Truthy(v) ==> r == v
    ensures !Truthy(v) ==> r == default
  {
    if Truthy(v) then v else default
  }

  /** The names of the items, as `chats_merge` keeps them. */
  function ItemNames(lst: seq<ChatItem>): (r: seq<Value>)
    ensures |r| == |lst| && forall k :: 0 <= k < |lst| ==> r[k] == lst[k].name
  {
    seq(|lst|, k requires 0 <= k < |lst| => lst[k].name)
  }

  /** `Chat.filter_by(name=name).first()` on a chat table. */
  function NamedIn(table: seq<Option<Chat>>, name: string): (r: Option<nat>)
    ensures r.Some? ==> r.value < |table| && table[r.value].Some? && table[r.value].value.name == name
    ensures r.None? ==> forall i :: 0 <= i < |table| && table[i].Some? ==> table[i].value.name != name
  {
    FirstWhere(table, (c: Option<Chat>) => c.Some? && c.value.name == name)
  }

  /**
   * The chat an item makes before the avatar of a personal chat is looked
   * up: the stored chat with the fields the item gives, or a new chat,
   * whose `is_personal` defaults to True.
   */
  function Filled(stored: Option<Chat>, item: ChatItem, name: string, owner: Option<nat>, ms: seq<nat>): (c: Chat)
    requires stored.Some? ==> stored.value.name == name
    ensures c.name == name && c.members == ms && c.owner == owner
    ensures stored.Some? ==>
      c.isPersonal == (if item.isPersonal.Some? then item.isPersonal.value else stored.value.isPersonal) &&
      c.avatar == if item.avatar.Some? then item.avatar.value else stored.value.avatar
    ensures stored.None? ==> c.isPersonal == Given(item.isPersonal) && c.avatar == Given(item.avatar)
  {
    if stored.Some? then
      var c := stored.value;
      c.(avatar := if item.avatar.Some? then item.avatar.value else c.avatar, owner := owner,
         isPersonal := if item.isPersonal.Some? then item.isPersonal.value else c.isPersonal, members := ms)
    else Chat(name, Given(item.avatar), owner, Given(item.isPersonal), ms)
  }

  /**
   * The INSERT of a new chat: an `is_personal` left None is skipped, so the
   * column default True is stored. `Chat.save` has already run on the None.
   */
  function Inserted(c: Chat): (r: Chat)
    ensures r == c.(isPersonal := r.isPersonal)
    ensures c.isPersonal == Null ==> r.isPersonal == Bool(true)
    ensures c.isPersonal != Null ==> r == c
  {
    if c.isPersonal == Null then c.(isPersonal := Bool(true)) else c
  }

  /** Whether `chats_merge` deletes a chat: it is there and its name is not among the items' names. */
  predicate Gone(table: seq<Option<Chat>>, names: seq<Value>, id: nat) {
    id < |table| && table[id].Some? && Str(table[id].value.name) !in names
  }

  /** The chat table after the deletions of `chats_merge`. */
  function Pruned(table: seq<Option<Chat>>, names: seq<Value>): (r: seq<Option<Chat>>)
    ensures |r| == |table|
    ensures forall i :: 0 <= i < |table| ==> r[i] == if Gone(table, names, i) then None else table[i]
  {
    seq(|table|, i requires 0 <= i < |table| => if Gone(table, names, i) then None else table[i])
  }

  /** The messages after the chats below `upTo` that `chats_merge` deletes are gone: those messages lose their chat. */
  function Orphaned(ms: seq<ChatMessage>, table: seq<Option<Chat>>, names: seq<Value>, upTo: nat): (r: seq<ChatMessage>)
    ensures |r| == |ms|
    ensures forall k :: 0 <= k < |ms| ==>
      r[k] == (if ms[k].chat.Some? && ms[k].chat.value < upTo && Gone(table, names, ms[k].chat.value) then ms[k].(chat := None) else ms[k])
  {
    seq(|ms|, k requires 0 <= k < |ms| =>
      if ms[k].chat.Some? && ms[k].chat.value < upTo && Gone(table, names, ms[k].chat.value) then ms[k].(chat := None) else ms[k])
  }

  class Store {
    var users: seq<User>
    var contacts: seq<ContactRow>
    var history: seq<HistoryRow>
    var chats: seq<Option<Chat>>
    var messages: seq<ChatMessage>
    const me: string

    constructor (me: string, users: seq<User>)
      ensures this.me == me && this.users == users
      ensures contacts == [] && history == [] && chats == [] && messages == []
    {
      this.me := me;
      this.users := users;
      contacts := [];
      history := [];
      chats := [];
      messages := [];
    }

    /** Every chat member and chat owner is a stored user. */
    predicate Valid()
      reads this`users, this`chats
    {
      Sound(chats, |users|)
    }

    /** `User.by_name`. */
    function ByName(s: string): Option<nat>
      reads this`users
    {
      NameIndex(users, UserName, s)
    }

    /** `User.by_name(settings.USER_NAME)`. */
    function Me(): Option<nat>
      reads this`users
    {
      ByName(me)
    }

    /** `Chat.filter_by(name=name).first()`. */
    function ChatNamed(name: string): (r: Option<nat>)
      reads this`chats
      ensures r.Some? ==> r.value < |chats| && chats[r.value].Some? && chats[r.value].value.name == name
      ensures r.None? ==> forall i :: 0 <= i < |chats| && chats[i].Some? ==> chats[i].value.name != name
    {
      NamedIn(chats, name)
    }

    /**
     * `next(c for c in cont.get_chats() if c.is_personal and user in c.members)`:
     * the first personal chat both the contact and the configured user are
     * members of.
     */
    function PersonalChat(cont: nat): (r: Option<nat>)
      reads this`users, this`chats
      ensures r.Some? ==> r.value < |chats| && chats[r.value].Some? && Truthy(chats[r.value].value.isPersonal)
      ensures r.Some? ==> cont in chats[r.value].value.members && Me().Some? && Me().value in chats[r.value].value.members
    {
      var u := Me();
      FirstWhere(chats, (c: Option<Chat>) => c.Some? && cont in c.value.members && Truthy(c.value.isPersonal) && u.Some? && u.value in c.value.members)
    }

    /**
     * The chat lookup as written in `add_contact` and `del_contact`: the chat
     * named like the contact, else the personal chat shared with the
     * contact, whose lookup calls `cont.get_chats()` even when `cont` is None.
     */
    function ContactChat(name: string): Lookup
      reads this`users, this`chats
    {
      var named := ChatNamed(name);
      if named.Some? then Looked(named)
      else if ByName(name).None? then Crashed
      else Looked(PersonalChat(ByName(name).value))
    }

    /** The same lookup with the missing-contact case checked first: no chat for an unknown name without a chat of that name. */
    function ContactChatChecked(name: string): (r: Option<nat>)
      reads this`users, this`chats
      ensures ChatNamed(name).Some? ==> r == ChatNamed(name)
      ensures ChatNamed(name).None? && ByName(name).None? ==> r.None?
      ensures ChatNamed(name).None? && ByName(name).Some? ==> r == PersonalChat(ByName(name).value)
    {
      var named := ChatNamed(name);
      if named.Some? then named
      else if ByName(name).None? then None
      else PersonalChat(ByName(name).value)
    }

    /** `has_contact`: False for an empty or unknown name, else whether a contact row links the two users. */
    function HasContact(owner: nat, name: string): (b: bool)
      reads this`users, this`contacts
      ensures b <==> name != [] && ByName(name).Some? && Links(contacts, owner, ByName(name).value) > 0
    {
      name != [] && ByName(name).Some? && Links(contacts, owner, ByName(name).value) != 0
    }

    /** The first member of a chat other than the configured user (`i != user`). */
    function Other(c: Chat): (r: Option<nat>)
      reads this`users
      ensures r.Some? ==> r.value in c.members && Some(r.value) != Me()
      ensures r.None? ==> forall k :: 0 <= k < |c.members| ==> Some(c.members[k]) == Me()
    {
      var u := Me();
      match FirstWhere(c.members, (m: nat) => Some(m) != u)
      case None => None
      case Some(k) => Some(c.members[k])
    }

    /** `Chat.save`: a personal chat takes the avatar of its first member other than the configured user. */
    function Saved(c: Chat): (r: Chat)
      reads this`users
      requires forall k :: 0 <= k < |c.members| ==> c.members[k] < |users|
      ensures r == c.(avatar := r.avatar)
      ensures Truthy(c.isPersonal) && Other(c).Some? ==> r.avatar == users[Other(c).value].avatar
      ensures !Truthy(c.isPersonal) || Other(c).None? ==> r == c
    {
      var o := Other(c);
      if Truthy(c.isPersonal) && o.Some? then c.(avatar := users[o.value].avatar) else c
    }

    /** `Chat.username`: a group chat's name, else the name of its first member other than the configured user. */
    function ChatUserName(c: Chat): (r: Option<string>)
      reads this`users
      requires forall k :: 0 <= k < |c.members| ==> c.members[k] < |users|
      ensures !Truthy(c.isPersonal) ==> r == Some(c.name)
      ensures Truthy(c.isPersonal) ==> (r.Some? <==> Other(c).Some?)
      ensures Truthy(c.isPersonal) && r.Some? ==> r.value == users[Other(c).value].username
    {
      if !Truthy(c.isPersonal) then Some(c.name)
      else
        match Other(c)
        case None => None
        case Some(m) => Some(users[m].username)
    }

    /** The messages of a chat (`chat.messages`), in the order they were created. */
    function MessagesOf(id: nat): (r: seq<ChatMessage>)
      reads this`messages
      ensures forall k :: 0 <= k < |r| ==> r[k] in messages && r[k].chat == Some(id)
      ensures Count(messages, (m: ChatMessage) => m.chat == Some(id)) == |r|
    {
      Filter(messages, (m: ChatMessage) => m.chat == Some(id))
    }

    /**
     * `Chat.chat_hiltory(chatname, limit)`: the first `limit` messages of the
     * chat named `chatname`, else of the personal chat of the configured
     * user and `chatname`; nothing when neither exists.
     */
    function ChatHistory(chatname: string, limit: nat): (r: seq<ChatMessage>)
      reads this`chats, this`messages
      ensures |r| <= limit
      ensures ChatNamed(chatname).Some? ==> r == Limit(MessagesOf(ChatNamed(chatname).value), limit)
      ensures ChatNamed(chatname).None? && ChatNamed(PairName(me, chatname)).Some? ==>
        r == Limit(MessagesOf(ChatNamed(PairName(me, chatname)).value), limit)
      ensures ChatNamed(chatname).None? && ChatNamed(PairName(me, chatname)).None? ==> r == []
    {
      var chat := if ChatNamed(chatname).Some? then ChatNamed(chatname) else ChatNamed(PairName(me, chatname));
      if chat.None? then [] else Limit(MessagesOf(chat.value), limit)
    }

    /** `Chat.create(name=pair, owner=cont)`, `chat.members.extend((self, cont))` and `chat.save()`. */
    method OpenChat(pair: string, owner: nat, cont: nat) returns (id: nat)
      requires Valid() && owner < |users| && cont < |users|
      modifies this`chats
      ensures Valid() && id == |old(chats)|
      ensures chats == old(chats) + [Some(Saved(Chat(pair, Null, Some(cont), Bool(true), [owner, cont])))]
    {
      var c := Saved(Chat(pair, Null, Some(cont), Bool(true), [owner, cont]));
      SoundPut(chats, |users|, |chats|, c);
      id := |chats|;
      chats := chats + [Some(c)];
    }

    /**
     * `add_contact` with the chat lookup checked first. An unknown name with
     * no chat of that name is NotFoundUser, and a contact already there is
     * ContactExists, both changing nothing. Otherwise a known user gets a
     * contact row; when no chat was found, the personal chat named after
     * the two users is opened (IntegrityError, which rolls everything back,
     * when that name is taken); and an `add_contact` history row is added.
     * The chat is returned.
     */
    method AddContact(owner: nat, name: string) returns (outcome: Outcome, chat: Option<nat>)
      requires Valid() && owner < |users|
      modifies this`contacts, this`history, this`chats
      ensures Valid()
      ensures outcome == NotFoundUser <==> old(ByName(name)).None? && old(ContactChatChecked(name)).None?
      ensures outcome == ContactExists <==> outcome != NotFoundUser && old(HasContact(owner, name))
      ensures outcome == NameTaken <==>
        (outcome != NotFoundUser && !old(HasContact(owner, name)) && old(ContactChatChecked(name)).None? &&
         old(ChatNamed(PairName(users[owner].username, name))).Some?)
      ensures outcome != Done ==> contacts == old(contacts) && history == old(history) && chats == old(chats)
      ensures outcome == Done ==>
        contacts == old(contacts) + (if old(ByName(name)).Some? then [ContactRow(Some(owner), old(ByName(name)).value)] else [])
      ensures outcome == Done ==> history == old(history) + [HistoryRow(Some(owner), ContactAdded, None, None, Some(name))]
      ensures outcome == Done && old(ContactChatChecked(name)).Some? ==> chat == old(ContactChatChecked(name)) && chats == old(chats)
      ensures outcome == Done && old(ContactChatChecked(name)).None? ==> chat == Some(|old(chats)|)
      ensures outcome == Done && old(ContactChatChecked(name)).None? ==>
        chats == old(chats) + [Some(Saved(Chat(PairName(users[owner].username, name), Null, old(ByName(name)), Bool(true),
                                                [owner, old(ByName(name)).value])))]
      ensures outcome == Done && name != [] && old(ByName(name)).Some? ==> HasContact(owner, name)
      ensures outcome == Done ==> chat.Some? && chat.value < |chats| && chats[chat.value].Some?
      ensures old(NoDuplicates(contacts)) && name != [] ==> NoDuplicates(contacts)
    {
      var cont := ByName(name);
      var found := ContactChatChecked(name);
      if cont.None? && found.None? {
        return NotFoundUser, None;
      }
      if HasContact(owner, name) {
        return ContactExists, None;
      }
      outcome, chat := Befriend(owner, name, cont, found);
    }

    /**
     * The part of `add_contact` after the checks, for the user `cont` and
     * the chat `found` looked up for `name`: the personal chat is opened
     * when none was found (NameTaken, changing nothing, when its name is
     * taken), then the contact row and the history row are added.
     */
    method Befriend(owner: nat, name: string, cont: Option<nat>, found: Option<nat>) returns (outcome: Outcome, chat: Option<nat>)
      requires Valid() && owner < |users| && (cont.Some? ==> cont.value < |users|)
      requires cont.Some? || found.Some?
      requires found.Some? ==> found.value < |chats| && chats[found.value].Some?
      modifies this`contacts, this`history, this`chats
      ensures Valid() && (outcome == Done || outcome == NameTaken)
      ensures outcome == NameTaken <==> found.None? && old(ChatNamed(PairName(users[owner].username, name))).Some?
      ensures outcome == NameTaken ==> contacts == old(contacts) && history == old(history) && chats == old(chats)
      ensures outcome == Done ==> contacts == old(contacts) + (if cont.Some? then [ContactRow(Some(owner), cont.value)] else [])
      ensures outcome == Done ==> history == old(history) + [HistoryRow(Some(owner), ContactAdded, None, None, Some(name))]
      ensures outcome == Done && found.Some? ==> chat == found && chats == old(chats)
      ensures outcome == Done && found.None? ==> chat == Some(|old(chats)|)
      ensures outcome == Done && found.None? ==>
        chats == old(chats) + [Some(Saved(Chat(PairName(users[owner].username, name), Null, cont, Bool(true), [owner, cont.value])))]
      ensures outcome == Done ==> chat.Some? && chat.value < |chats| && chats[chat.value].Some?
      ensures outcome == Done && cont.Some? ==> Links(contacts, owner, cont.value) > 0
      ensures old(NoDuplicates(contacts)) && (cont.Some? ==> Links(old(contacts), owner, cont.value) == 0) ==> NoDuplicates(contacts)
    {
      chat := found;
      if found.None? {
        var pair := PairName(users[owner].username, name);
        if ChatNamed(pair).Some? {
          return NameTaken, None;
        }
        var id := OpenChat(pair, owner, cont.value);
        chat := Some(id);
      }
      if cont.Some? {
        AddedLinks(contacts, owner, cont.value);
        contacts := contacts + [ContactRow(Some(owner), cont.value)];
      }
      history := history + [HistoryRow(Some(owner), ContactAdded, None, None, Some(name))];
      outcome := Done;
    }

    /** `self.contacts.remove(Contact.filter_by(owner=self, contact=cont).one())`; false when `.one()` raises. */
    method Unlink(owner: nat, c: nat) returns (ok: bool)
      modifies this`contacts
      ensures ok <==> old(One(contacts, owner, c)).Some?
      ensures ok ==> contacts == Disowned(old(contacts), old(One(contacts, owner, c)).value)
      ensures !ok ==> contacts == old(contacts)
      ensures old(NoDuplicates(contacts)) && old(Links(contacts, owner, c)) > 0 ==> ok
      ensures old(NoDuplicates(contacts)) ==> NoDuplicates(contacts)
      ensures old(NoDuplicates(contacts)) && ok ==> Links(contacts, owner, c) == 0
    {
      var i := One(contacts, owner, c);
      if i.None? {
        return false;
      }
      ghost var rows := contacts;
      contacts := Disowned(contacts, i.value);
      forall o2: nat, c2: nat
        ensures Links(contacts, o2, c2) <= Links(rows, o2, c2)
      {
        DisownedLinks(rows, i.value, owner, c, o2, c2);
      }
      DisownedLinks(rows, i.value, owner, c, owner, c);
      ok := true;
    }

    /**
     * The part of `del_contact` before the chat is left: a contact's only
     * row loses its owner and a `del_contact` history row is added; false,
     * changing nothing, when `.one()` raises on a duplicated pair.
     */
    method Forget(owner: nat, name: string, cont: Option<nat>) returns (ok: bool)
      requires cont == ByName(name)
      modifies this`contacts, this`history
      ensures !ok <==> old(HasContact(owner, name)) && old(One(contacts, owner, cont.value)).None?
      ensures !ok ==> contacts == old(contacts) && history == old(history)
      ensures ok && old(HasContact(owner, name)) ==> contacts == Disowned(old(contacts), old(One(contacts, owner, cont.value)).value)
      ensures ok && !old(HasContact(owner, name)) ==> contacts == old(contacts)
      ensures ok ==> history == old(history) + [HistoryRow(Some(owner), ContactDeleted, None, None, Some(name))]
      ensures old(NoDuplicates(contacts)) ==> ok && NoDuplicates(contacts) && !HasContact(owner, name)
    {
      if HasContact(owner, name) {
        ok := Unlink(owner, cont.value);
        if !ok {
          return;
        }
      } else {
        ok := true;
      }
      history := history + [HistoryRow(Some(owner), ContactDeleted, None, None, Some(name))];
    }

    /**
     * `chat.members.remove(User.by_name(settings.USER_NAME))` and `chat.save()`;
     * false (ValueError) when the configured user is not a member.
     */
    method LeaveChat(id: nat) returns (ok: bool)
      requires Valid() && id < |chats| && chats[id].Some?
      modifies this`chats
      ensures Valid()
      ensures ok <==> old(Me()).Some? && old(Me()).value in old(chats)[id].value.members
      ensures !ok ==> chats == old(chats)
      ensures ok ==> var c := old(chats)[id].value;
        chats == old(chats)[id := Some(Saved(c.(members := RemoveFirst(c.members, old(Me()).value).value)))]
    {
      var c := chats[id].value;
      var u := Me();
      if u.None? || u.value !in c.members {
        return false;
      }
      var left := RemoveFirst(c.members, u.value).value;
      chats := chats[id := Some(Saved(c.(members := left)))];
      ok := true;
    }

    /**
     * `del_contact` with the chat lookup checked first. An unknown name with
     * no chat of that name is NotFoundContact, changing nothing. Otherwise a
     * contact's only row loses its owner (`.one()` raises, changing nothing,
     * when the pair is duplicated), a `del_contact` history row is added,
     * and the configured user leaves the chat found (LeaveChat); ValueError
     * there comes after the rest is committed.
     */
    method DelContact(owner: nat, name: string) returns (outcome: Outcome, chat: Option<nat>)
      requires Valid()
      modifies this`contacts, this`history, this`chats
      ensures Valid()
      ensures outcome == NotFoundContact <==> old(ByName(name)).None? && old(ContactChatChecked(name)).None?
      ensures outcome == MultipleRows <==>
        (old(ByName(name)).Some? && old(HasContact(owner, name)) && old(One(contacts, owner, ByName(name).value)).None?)
      ensures outcome == NotFoundContact || outcome == MultipleRows ==>
        contacts == old(contacts) && history == old(history) && chats == old(chats)
      ensures outcome == Done || outcome == NotAMember ==> chat == old(ContactChatChecked(name))
      ensures (outcome == Done || outcome == NotAMember) && old(HasContact(owner, name)) ==>
        contacts == Disowned(old(contacts), old(One(contacts, owner, ByName(name).value)).value)
      ensures (outcome == Done || outcome == NotAMember) && !old(HasContact(owner, name)) ==> contacts == old(contacts)
      ensures outcome == Done || outcome == NotAMember ==>
        history == old(history) + [HistoryRow(Some(owner), ContactDeleted, None, None, Some(name))]
      ensures chat.Some? ==> chat.value < |old(chats)| && old(chats)[chat.value].Some?
      ensures outcome == NotAMember <==>
        (outcome != NotFoundContact && outcome != MultipleRows && chat.Some? &&
         !(old(Me()).Some? && old(Me()).value in old(chats)[chat.value].value.members))
      ensures outcome == NotAMember || (outcome == Done && chat.None?) ==> chats == old(chats)
      ensures outcome == Done && chat.Some? ==> var c := old(chats)[chat.value].value;
        chats == old(chats)[chat.value := Some(Saved(c.(members := RemoveFirst(c.members, old(Me()).value).value)))]
      ensures old(NoDuplicates(contacts)) ==> outcome != MultipleRows && NoDuplicates(contacts)
      ensures old(NoDuplicates(contacts)) && (outcome == Done || outcome == NotAMember) ==> !HasContact(owner, name)
    {
      var cont := ByName(name);
      var found := ContactChatChecked(name);
      if cont.None? && found.None? {
        return NotFoundContact, None;
      }
      var ok := Forget(owner, name, cont);
      if !ok {
        return MultipleRows, None;
      }
      chat := found;
      outcome := Done;
      if found.Some? {
        var ok := LeaveChat(found.value);
        if !ok {
          outcome := NotAMember;
        }
      }
    }

    /** `[User.by_name(i) for i in members]`, None when a name is not a string or finds nobody (the relationship refuses None). */
    function Resolved(names: seq<Value>): (r: Option<seq<nat>>)
      reads this`users
      ensures r.Some? ==> |r.value| == |names|
      ensures r.Some? ==> forall k :: 0 <= k < |names| ==> names[k].Str? && ByName(names[k].s) == Some(r.value[k])
      ensures r.None? ==> exists k :: 0 <= k < |names| && (!names[k].Str? || ByName(names[k].s).None?)
      ensures r.Some? ==> forall k :: 0 <= k < |r.value| ==> r.value[k] < |users|
    {
      if names == [] then Some([])
      else if !names[0].Str? || ByName(names[0].s).None? then None
      else
        match Resolved(names[1..])
        case None => None
        case Some(rest) => Some([ByName(names[0].s).value] + rest)
    }

    /** `User.by_name(val) if val else None` on an owner; None when a truthy owner is not a string. */
    function OwnerOf(v: Value): (r: Option<Option<nat>>)
      reads this`users
      ensures r.None? <==> Truthy(v) && !v.Str?
      ensures r.Some? && r.value.Some? ==> r.value.value < |users|
    {
      if !Truthy(v) then Some(None) else if !v.Str? then None else Some(ByName(v.s))
    }

    /**
     * The chat one turn of the loop of `chats_merge` saves for an item: the
     * chat named like the item with the item's fields (`setattr` for each
     * key given, the owner looked up), or a new chat made from them; either
     * way its members are the users the item names. A new chat whose item
     * gives no `is_personal`, or None, leaves the column out of the INSERT
     * and gets its default, True; `Chat.save` runs before that, on the None,
     * so such a chat keeps the item's avatar. None when a lookup raises or a new chat
     * would have no string name.
     */
    function MergedChat(table: seq<Option<Chat>>, item: ChatItem): (r: Option<Chat>)
      reads this`users
      requires Sound(table, |users|)
      ensures Resolved(item.members).None? || !item.name.Str? ==> r.None?
      ensures r.Some? ==> item.name.Str? && r.value.name == item.name.s && r.value.members == Resolved(item.members).value
      ensures r.Some? ==> forall k :: 0 <= k < |r.value.members| ==> r.value.members[k] < |users|
      ensures r.Some? && r.value.owner.Some? ==> r.value.owner.value < |users|
      ensures r.Some? ==> var found := NamedIn(table, item.name.s);
        var c := r.value;
        (item.owner.Some? ==> OwnerOf(item.owner.value) == Some(c.owner)) &&
        (item.owner.None? && found.Some? ==> c.owner == table[found.value].value.owner) &&
        (item.owner.None? && found.None? ==> c.owner.None?)
      ensures r.Some? ==> var found := NamedIn(table, item.name.s);
        var c := r.value;
        (found.Some? && item.isPersonal.Some? ==> c.isPersonal == item.isPersonal.value) &&
        (found.Some? && item.isPersonal.None? ==> c.isPersonal == table[found.value].value.isPersonal) &&
        (found.None? && Given(item.isPersonal) != Null ==> c.isPersonal == item.isPersonal.value) &&
        (found.None? && Given(item.isPersonal) == Null ==> c.isPersonal == Bool(true))
      ensures r.Some? ==> var found := NamedIn(table, item.name.s);
        var c := r.value;
        var flag := if found.Some? then c.isPersonal else Given(item.isPersonal);
        (Truthy(flag) && Other(c).Some? ==> c.avatar == users[Other(c).value].avatar) &&
        (!Truthy(flag) || Other(c).None? ==>
           c.avatar == if item.avatar.Some? then item.avatar.value else if found.Some? then table[found.value].value.avatar else Null)
    {
      var found := if item.name.Str? then NamedIn(table, item.name.s) else None;
      var owner := if found.Some? && item.owner.None? then Some(table[found.value].value.owner) else OwnerOf(Given(item.owner));
      var ms := Resolved(item.members);
      if owner.None? || ms.None? || !item.name.Str? then None
      else if found.Some? then Some(Saved(Filled(table[found.value], item, item.name.s, owner.value, ms.value)))
      else Some(Inserted(Saved(Filled(None, item, item.name.s, owner.value, ms.value))))
    }

    /**
     * One turn of the loop of `chats_merge`: the chat `MergedChat` gives
     * replaces the one named like the item, or is added at the end of the
     * table, and is saved.
     */
    function ItemMerged(table: seq<Option<Chat>>, item: ChatItem): (r: Option<seq<Option<Chat>>>)
      reads this`users
      requires Sound(table, |users|)
      ensures r.None? <==> MergedChat(table, item).None?
      ensures Resolved(item.members).None? || !item.name.Str? ==> r.None?
      ensures r.Some? ==> item.name.Str? && Sound(r.value, |users|) && |table| <= |r.value| <= |table| + 1
      ensures r.Some? ==> var at := NamedIn(r.value, item.name.s);
        at.Some? && r.value[at.value] == MergedChat(table, item) && r.value[at.value].value.members == Resolved(item.members).value
      ensures r.Some? ==> var found := NamedIn(table, item.name.s);
        NamedIn(r.value, item.name.s) == Some(if found.Some? then found.value else |table|)
      ensures r.Some? ==> forall i :: 0 <= i < |table| && table[i].Some? ==> r.value[i].Some? && r.value[i].value.name == table[i].value.name
      ensures r.Some? ==> forall i :: |table| <= i < |r.value| ==> r.value[i].Some? && Str(r.value[i].value.name) == item.name
      ensures r.Some? ==> forall i :: 0 <= i < |table| && (table[i].None? || Str(table[i].value.name) != item.name) ==> r.value[i] == table[i]
    {
      match MergedChat(table, item)
      case None => None
      case Some(c) =>
        var found := NamedIn(table, item.name.s);
        Some(PutChat(table, |users|, if found.Some? then found.value else |table|, c))
    }

    /** The loop of `chats_merge` over some items; None once an item raises. */
    function MergeAll(table: seq<Option<Chat>>, lst: seq<ChatItem>): (r: Option<seq<Option<Chat>>>)
      reads this`users
      requires Sound(table, |users|)
      ensures r.Some? ==> Sound(r.value, |users|) && |table| <= |r.value|
    {
      if lst == [] then Some(table)
      else
        match MergeAll(table, lst[..|lst| - 1])
        case None => None
        case Some(t) => ItemMerged(t, lst[|lst| - 1])
    }

    /**
     * `Chat.chats_merge(lst)`: every item is merged in turn, then every chat
     * whose name is not among the items' names is deleted, its messages
     * losing their chat. An item that raises ends the call, after the items
     * before it were saved and before anything is deleted.
     */
    method ChatsMerge(lst: seq<ChatItem>) returns (raised: bool)
      requires Valid()
      modifies this`chats, this`messages
      ensures Valid()
      ensures raised <==> MergeAll(old(chats), lst).None?
      ensures raised ==> messages == old(messages)
      ensures raised ==> exists n :: 0 <= n < |lst| && MergeAll(old(chats), lst[..n]) == Some(chats) && MergeAll(old(chats), lst[..n + 1]).None?
      ensures !raised ==> chats == Pruned(MergeAll(old(chats), lst).value, ItemNames(lst))
      ensures !raised ==> messages == Orphaned(old(messages), MergeAll(old(chats), lst).value, ItemNames(lst), |chats|)
    {
      raised := MergeItems(lst);
      if !raised {
        Prune(ItemNames(lst));
      }
    }

    /** The loop of `chats_merge` over the items. */
    method MergeItems(lst: seq<ChatItem>) returns (raised: bool)
      requires Valid()
      modifies this`chats
      ensures Valid()
      ensures raised <==> MergeAll(old(chats), lst).None?
      ensures raised ==> exists n :: 0 <= n < |lst| && MergeAll(old(chats), lst[..n]) == Some(chats) && MergeAll(old(chats), lst[..n + 1]).None?
      ensures !raised ==> chats == MergeAll(old(chats), lst).value
    {
      var i := 0;
      while i < |lst|
        invariant 0 <= i <= |lst| && Valid()
        invariant MergeAll(old(chats), lst[..i]) == Some(chats)
      {
        assert lst[..i + 1][..i] == lst[..i];
        var next := ItemMerged(chats, lst[i]);
        if next.None? {
          assert MergeAll(old(chats), lst[..i + 1]).None?;
          MergeStopped(old(chats), lst, i + 1);
          return true;
        }
        chats := next.value;
        i := i + 1;
      }
      assert lst[..|lst|] == lst;
      raised := false;
    }

    /** `for x in cls.all(): if x.name not in lst_cht: x.delete()`. */
    method Prune(names: seq<Value>)
      requires Valid()
      modifies this`chats, this`messages
      ensures Valid()
      ensures chats == Pruned(old(chats), names)
      ensures messages == Orphaned(old(messages), old(chats), names, |chats|)
    {
      ghost var merged := chats;
      var j := 0;
      while j < |chats|
        invariant 0 <= j <= |chats| == |merged|
        invariant forall k :: 0 <= k < |chats| ==> chats[k] == if k < j && Gone(merged, names, k) then None else merged[k]
        invariant messages == Orphaned(old(messages), merged, names, j)
      {
        if chats[j].Some? && Str(chats[j].value.name) !in names {
          chats := chats[j := None];
          var ms := messages;
          messages := seq(|ms|, k requires 0 <= k < |ms| => if ms[k].chat == Some(j) then ms[k].(chat := None) else ms[k]);
        }
        j := j + 1;
      }
      assert Sound(merged, |users|);
    }

    /** Once an item raises, the merge of any longer list raises too. */
    lemma {:induction false} MergeStopped(table: seq<Option<Chat>>, lst: seq<ChatItem>, n: nat)
      requires Sound(table, |users|) && n <= |lst| && MergeAll(table, lst[..n]).None?
      ensures MergeAll(table, lst).None?
      decreases |lst| - n
    {
      if n < |lst| {
        assert lst[..n + 1][..n] == lst[..n];
        MergeStopped(table, lst, n + 1);
      } else {
        assert lst[..n] == lst;
      }
    }


    /**
     * With distinct item names, every item's chat is there after the loop
     * of `chats_merge`, with the members the item names.
     */
    lemma {:induction false} MergeKeepsItems(table: seq<Option<Chat>>, lst: seq<ChatItem>, k: nat)
      requires Sound(table, |users|) && MergeAll(table, lst).Some? && k < |lst|
      requires forall a, b :: 0 <= a < b < |lst| ==> lst[a].name != lst[b].name
      ensures lst[k].name.Str? && Resolved(lst[k].members).Some?
      ensures var r := MergeAll(table, lst).value;
        var at := NamedIn(r, lst[k].name.s);
        at.Some? && r[at.value].value.members == Resolved(lst[k].members).value
    {
      var last := |lst| - 1;
      var prev := MergeAll(table, lst[..last]).value;
      var r := MergeAll(table, lst).value;
      assert ItemMerged(prev, lst[last]) == Some(r);
      if k < last {
        MergeKeepsItems(table, lst[..last], k);
        assert lst[k].name != lst[last].name;
        MergedKeepsOther(prev, lst[last], r, lst[k].name.s);
      }
    }

    /** Merging an item leaves the chat of another name where it was. */
    lemma MergedKeepsOther(prev: seq<Option<Chat>>, item: ChatItem, r: seq<Option<Chat>>, n: string)
      requires Sound(prev, |users|) && ItemMerged(prev, item) == Some(r)
      requires Str(n) != item.name && NamedIn(prev, n).Some?
      ensures NamedIn(r, n) == NamedIn(prev, n) && r[NamedIn(prev, n).value] == prev[NamedIn(prev, n).value]
    {
      var a := NamedIn(prev, n).value;
      assert r[a] == prev[a];
      forall j | 0 <= j < a
        ensures !(r[j].Some? && r[j].value.name == n)
      {
        assert !(prev[j].Some? && prev[j].value.name == n);
      }
      NamedFirst(r, n, a);
    }

    /** An item's chat after a successful `chats_merge`: found by the item's name, with the members the item names. */
    predicate ItemChat(p: seq<Option<Chat>>, item: ChatItem)
      reads this`users
    {
      item.name.Str? && Resolved(item.members).Some? && NamedIn(p, item.name.s).Some? &&
      p[NamedIn(p, item.name.s).value].value.members == Resolved(item.members).value
    }

    /**
     * After a `chats_merge` that raised nothing, on items with distinct
     * names: every chat left is named by an item, and every item's chat is
     * there with the members the item names.
     */
    lemma MergeSynchronises(table: seq<Option<Chat>>, lst: seq<ChatItem>)
      requires Sound(table, |users|) && MergeAll(table, lst).Some?
      requires forall a, b :: 0 <= a < b < |lst| ==> lst[a].name != lst[b].name
      ensures var p := Pruned(MergeAll(table, lst).value, ItemNames(lst));
        forall i :: 0 <= i < |p| && p[i].Some? ==> Str(p[i].value.name) in ItemNames(lst)
      ensures var p := Pruned(MergeAll(table, lst).value, ItemNames(lst));
        forall k :: 0 <= k < |lst| ==> ItemChat(p, lst[k])
    {
      var r := MergeAll(table, lst).value;
      var names := ItemNames(lst);
      forall k | 0 <= k < |lst|
        ensures ItemChat(Pruned(r, names), lst[k])
      {
        MergeKeepsItems(table, lst, k);
        assert names[k] == Str(lst[k].name.s);
        PrunedKeeps(r, names, lst[k].name.s);
      }
    }

    /**
     * As written, the lookup raises AttributeError for an unknown name
     * without a chat of that name, before the NotFoundUser and
     * NotFoundContact checks are reached.
     */
    lemma UnknownNameCrashes(name: string)
      requires ByName(name).None? && ChatNamed(name).None?
      ensures ContactChat(name) == Crashed
    {
    }

    /** Whenever the lookup as written returns, the user or the chat exists: the `not cont and not chat` checks never fire. */
    lemma NotFoundUnreachable(name: string)
      ensures ContactChat(name).Looked? ==> ByName(name).Some? || ContactChat(name).chat.Some?
    {
    }

    /** The checked lookup differs from the lookup as written only where that one raises. */
    lemma CheckedLookupAgrees(name: string)
      ensures ContactChat(name).Looked? ==> ContactChatChecked(name) == ContactChat(name).chat
      ensures ContactChat(name) == Crashed <==> ByName(name).None? && ChatNamed(name).None?
    {
    }

    /** The sender `create_msg` looks up: the `from` field, else the configured user. */
    function SenderId(msg: Message): (r: Option<nat>)
      reads this`users
      ensures r.Some? ==> r.value < |users|
      ensures Or(Get(msg, SENDER), Str(me)).Str? ==> r == ByName(Or(Get(msg, SENDER), Str(me)).s)
    {
      var v := Or(Get(msg, SENDER), Str(me));
      if v.Str? then ByName(v.s) else None
    }

    /** The receiver `create_msg` looks up: the `to` field, else the configured user. */
    function ReceiverId(msg: Message): (r: Option<nat>)
      reads this`users
      ensures r.Some? ==> r.value < |users|
      ensures Or(Get(msg, DESTINATION), Str(me)).Str? ==> r == ByName(Or(Get(msg, DESTINATION), Str(me)).s)
    {
      var v := Or(Get(msg, DESTINATION), Str(me));
      if v.Str? then ByName(v.s) else None
    }

    /** Both names `create_msg` looks up are strings (`by_name` lowercases them). */
    predicate NamesAreStrings(msg: Message) {
      Or(Get(msg, SENDER), Str(me)).Str? && Or(Get(msg, DESTINATION), Str(me)).Str?
    }

    /** The name `create_msg` would store a message under; None when a lookup raises. */
    function ChatNameFor(msg: Message): (r: Option<string>)
      reads this`users
      ensures !NamesAreStrings(msg) ==> r.None?
      ensures NamesAreStrings(msg) && Truthy(Get(msg, "chat")) ==> (r.Some? <==> Get(msg, "chat").Str?)
      ensures NamesAreStrings(msg) && Truthy(Get(msg, "chat")) && r.Some? ==> r.value == Get(msg, "chat").s
      ensures NamesAreStrings(msg) && !Truthy(Get(msg, "chat")) ==>
        (r.Some? <==> SenderId(msg).Some? && ReceiverId(msg).Some?)
      ensures NamesAreStrings(msg) && !Truthy(Get(msg, "chat")) && r.Some? ==>
        r.value == PairName(users[SenderId(msg).value].username, users[ReceiverId(msg).value].username)
    {
      var given := Get(msg, "chat");
      if !NamesAreStrings(msg) then None
      else if Truthy(given) then (if given.Str? then Some(given.s) else None)
      else
        var s, d := SenderId(msg), ReceiverId(msg);
        if s.None? || d.None? then None else Some(PairName(users[s.value].username, users[d.value].username))
    }

    /** A reply with sender and receiver swapped goes to the chat the message went to. */
    lemma RepliesShareChat(m1: Message, m2: Message)
      requires Get(m1, SENDER) == Get(m2, DESTINATION) && Get(m1, DESTINATION) == Get(m2, SENDER)
      requires !Truthy(Get(m1, "chat")) && !Truthy(Get(m2, "chat"))
      ensures ChatNameFor(m1) == ChatNameFor(m2)
    {
      if NamesAreStrings(m1) && SenderId(m1).Some? && ReceiverId(m1).Some? {
        PairNameSymmetric(users[SenderId(m1).value].username, users[ReceiverId(m1).value].username);
      }
    }

    /** The message row `create_msg` adds, before its chat is known. */
    function NewMessage(msg: Message, text: Value): ChatMessage
      reads this`users
    {
      ChatMessage(None, Or(text, Get(msg, MESSAGE_TEXT)), SenderId(msg), ReceiverId(msg))
    }

    /**
     * `Chat.create_msg(msg, text)`: the message is stored in the chat named
     * by the message's `chat` field, else in the personal chat of its sender
     * and receiver (each defaulting to the configured user); a missing chat
     * is created with the two as members first. When a member to be added
     * is unknown, the new chat stays without members and the call raises.
     */
    method CreateMsg(msg: Message, text: Value) returns (raised: bool)
      requires Valid()
      modifies this`chats, this`messages
      ensures Valid()
      ensures ChatNameFor(msg).None? ==> raised && chats == old(chats) && messages == old(messages)
      ensures ChatNameFor(msg).Some? && old(ChatNamed(ChatNameFor(msg).value)).Some? ==>
        !raised && chats == old(chats) &&
        messages == old(messages) + [NewMessage(msg, text).(chat := old(ChatNamed(ChatNameFor(msg).value)))]
      ensures (ChatNameFor(msg).Some? && old(ChatNamed(ChatNameFor(msg).value)).None? &&
               (SenderId(msg).None? || ReceiverId(msg).None?)) ==>
        raised && messages == old(messages) &&
        chats == old(chats) + [Some(Chat(ChatNameFor(msg).value, Null, SenderId(msg), Bool(true), []))]
      ensures (ChatNameFor(msg).Some? && old(ChatNamed(ChatNameFor(msg).value)).None? &&
               SenderId(msg).Some? && ReceiverId(msg).Some?) ==>
        !raised && messages == old(messages) + [NewMessage(msg, text).(chat := Some(|old(chats)|))] &&
        chats == old(chats) + [Some(Saved(Chat(ChatNameFor(msg).value, Null, SenderId(msg), Bool(true),
                                               [SenderId(msg).value, ReceiverId(msg).value])))]
      ensures !raised ==>
        (ChatNameFor(msg).Some? && |messages| > 0 && messages[|messages| - 1].chat == ChatNamed(ChatNameFor(msg).value))
    {
      var n := ChatNameFor(msg);
      if n.None? {
        return true;
      }
      raised := Record(n.value, SenderId(msg), ReceiverId(msg), NewMessage(msg, text));
    }

    /**
     * The rows `create_msg` adds for a chat name, with the sender and
     * receiver ids as looked up: the message joins the named chat, or a new
     * chat of the two, which is left without members (and the call raises)
     * when either id is missing.
     */
    method Record(name: string, s: Option<nat>, d: Option<nat>, m: ChatMessage) returns (raised: bool)
      requires Valid() && (s.Some? ==> s.value < |users|) && (d.Some? ==> d.value < |users|)
      modifies this`chats, this`messages
      ensures Valid()
      ensures old(ChatNamed(name)).Some? ==> !raised && chats == old(chats) && messages == old(messages) + [m.(chat := old(ChatNamed(name)))]
      ensures old(ChatNamed(name)).None? && (s.None? || d.None?) ==>
        raised && messages == old(messages) && chats == old(chats) + [Some(Chat(name, Null, s, Bool(true), []))]
      ensures old(ChatNamed(name)).None? && s.Some? && d.Some? ==>
        !raised && messages == old(messages) + [m.(chat := Some(|old(chats)|))] &&
        chats == old(chats) + [Some(Saved(Chat(name, Null, s, Bool(true), [s.value, d.value])))]
      ensures !raised ==> |messages| > 0 && messages[|messages| - 1].chat == ChatNamed(name)
    {
      var id := ChatNamed(name);
      if id.None? {
        var bare := Chat(name, Null, s, Bool(true), []);
        if s.None? || d.None? {
          SoundPut(chats, |users|, |chats|, bare);
          chats := chats + [Some(bare)];
          return true;
        }
        var c := Saved(bare.(members := [s.value, d.value]));
        SoundPut(chats, |users|, |chats|, c);
        NamedAfterPut(chats, |chats|, c);
        id := Some(|chats|);
        chats := chats + [Some(c)];
      }
      messages := messages + [m.(chat := id)];
      raised := false;
    }
  }
}
