/**
 * The login guards of the talkative server
 * (talkative_server/talkative_server/decorators.py). `login_required` wraps
 * a threaded server's command: it lets the call through only when one of
 * three names in the message has a registered connection. `login_required_db`
 * wraps an async command: it takes the message out of the call's arguments
 * and asks the store whether that user has an open session.
 */
module Guards {
  import opened Wrappers
  import opened Envelope
  import opened Net
  import opened Lists
  import MongoStore

  /** What a guarded call comes to: the guard raised TypeError, or the wrapped call ran and gave its result. */
  datatype Guarded<R> = Refused | Ran(result: R)

  /** What `serv.names.get(key)` comes to: TypeError for a list or dict key, nothing under the key, or its connection. */
  datatype Lookup = Unhashable | Missing | Found(conn: Socket)

  /** `serv.names.get(key)`: the connection registered under the string `key`. */
  function NameLookup(names: seq<(string, Socket)>, key: Value): (r: Lookup)
    ensures r.Unhashable? <==> !Hashable(key)
    ensures r.Found? ==> key.Str? && exists i :: 0 <= i < |names| && names[i] == (key.s, r.conn)
    ensures r.Missing? ==> !key.Str? || forall i :: 0 <= i < |names| ==> names[i].0 != key.s
  {
    if !Hashable(key) then Unhashable
    else if !key.Str? then Missing
    else
      match FirstWhere(names, (e: (string, Socket)) => e.0 == key.s)
      case None => Missing
      case Some(i) => Found(names[i].1)
  }

  /**
   * The connection `login_required` looks for: under `user_account_name`,
   * then `account_name`, then `from`. Python's `or` stops at the first
   * lookup that finds a connection or raises.
   */
  function LoginConnection(names: seq<(string, Socket)>, m: Message): Lookup {
    var a := NameLookup(names, UserAccountName(m));
    if !a.Missing? then a
    else
      var b := NameLookup(names, Get(m, ACCOUNT_NAME));
      if !b.Missing? then b else NameLookup(names, Get(m, SENDER))
  }

  /** A value that is the name of a user with a connection. */
  predicate Listed(names: seq<(string, Socket)>, v: Value) {
    exists i :: 0 <= i < |names| && v == Str(names[i].0)
  }

  /** Whether a message names, in one of the three fields the guard reads, a user with a connection. */
  predicate Named(names: seq<(string, Socket)>, m: Message) {
    Listed(names, UserAccountName(m)) || Listed(names, Get(m, ACCOUNT_NAME)) || Listed(names, Get(m, SENDER))
  }

  /**
   * Whether the guard lets a message through: a field names a connection,
   * and no field read before it is a list or dict.
   */
  predicate Admits(names: seq<(string, Socket)>, m: Message) {
    var u, a, f := UserAccountName(m), Get(m, ACCOUNT_NAME), Get(m, SENDER);
    Listed(names, u) || (Hashable(u) && (Listed(names, a) || (Hashable(a) && Listed(names, f))))
  }

  /**
   * `login_required(func)(*args)` with `args[1].names` and the message
   * `args[2]`: TypeError when no connection is found or a lookup raises,
   * otherwise the wrapped call's result `run`.
   */
  function LoginRequired<R>(names: seq<(string, Socket)>, m: Message, run: R): (g: Guarded<R>)
    ensures g.Refused? <==> !Admits(names, m)
    ensures g.Ran? ==> g.result == run
  {
    var c := LoginConnection(names, m);
    if !c.Found? then
      Refused
    else
      Ran(run)
  }

  /**
   * The guard admits only a message that names a connection, and admits
   * every such message whose three fields are strings, numbers or None.
   */
  lemma AdmitsNamed(names: seq<(string, Socket)>, m: Message)
    ensures Admits(names, m) ==> Named(names, m)
    ensures Hashable(UserAccountName(m)) && Hashable(Get(m, ACCOUNT_NAME)) && Named(names, m) ==> Admits(names, m)
  {
  }

  /** A list `user_account_name` is refused even when `from` names a connection. */
  lemma ListAccountRefused(names: seq<(string, Socket)>, m: Message)
    requires UserAccountName(m).List? && Listed(names, Get(m, SENDER))
    ensures LoginRequired(names, m, ()).Refused? && Named(names, m)
  {
  }

  /** A positional or keyword argument of a guarded call: a message, or anything else. */
  datatype Arg = MessageArg(m: Message) | OtherArg(v: Value)

  /** The first message among some arguments, None when there is none. */
  function FirstMessage(args: seq<Arg>): (r: Option<Message>)
    ensures r.Some? ==> exists i :: 0 <= i < |args| && args[i] == MessageArg(r.value) && forall j :: 0 <= j < i ==> !args[j].MessageArg?
    ensures r.None? ==> forall j :: 0 <= j < |args| ==> !args[j].MessageArg?
  {
    match FirstWhere(args, (a: Arg) => a.MessageArg?)
    case None => None
    case Some(i) => Some(args[i].m)
  }

  /** The values of the keyword arguments, in order. */
  function Values(kwargs: seq<(string, Arg)>): (r: seq<Arg>)
    ensures |r| == |kwargs| && forall i :: 0 <= i < |kwargs| ==> r[i] == kwargs[i].1
  {
    seq(|kwargs|, i requires 0 <= i < |kwargs| => kwargs[i].1)
  }

  /** The message `login_required_db` checks: the first keyword message, else the first positional one. */
  function CheckedMessage(args: seq<Arg>, kwargs: seq<(string, Arg)>): Option<Message> {
    var k := FirstMessage(Values(kwargs));
    if k.Some? then k else FirstMessage(args)
  }

  /** The user the guard looks up for the checked message; None without a message or for an unknown name. */
  function CheckedUser(store: MongoStore.Store, args: seq<Arg>, kwargs: seq<(string, Arg)>): Option<nat>
    reads store
  {
    match CheckedMessage(args, kwargs)
    case None => None
    case Some(m) => store.ByName(UserAccountName(m))
  }

  /** The guard lets the call through: the user is known and has an open session. */
  predicate Admitted(store: MongoStore.Store, args: seq<Arg>, kwargs: seq<(string, Arg)>)
    reads store
  {
    var u := CheckedUser(store, args, kwargs);
    u.Some? && store.Activity(u.value) != []
  }

  /**
   * `login_required_db(func)(*args, **kwargs)` up to the wrapped call: the
   * two scans for a message (the keyword scan runs last, so its message
   * wins), the lookup, and the verdict (`admitted` false is the TypeError).
   */
  method LoginRequiredDb(store: MongoStore.Store, args: seq<Arg>, kwargs: seq<(string, Arg)>) returns (user: Option<nat>, admitted: bool)
    ensures user == CheckedUser(store, args, kwargs)
    ensures admitted <==> Admitted(store, args, kwargs)
  {
    user := None;
    var i := 0;
    while i < |args|
      invariant 0 <= i <= |args|
      invariant forall j :: 0 <= j < i ==> !args[j].MessageArg?
      invariant user == None
    {
      if args[i].MessageArg? {
        user := store.ByName(UserAccountName(args[i].m));
        break;
      }
      i := i + 1;
    }
    assert i < |args| ==> FirstMessage(args) == Some(args[i].m);
    assert i == |args| ==> FirstMessage(args) == None;
    ghost var positional := user;
    var k := 0;
    while k < |kwargs|
      invariant 0 <= k <= |kwargs|
      invariant forall j :: 0 <= j < k ==> !kwargs[j].1.MessageArg?
      invariant user == positional
    {
      if kwargs[k].1.MessageArg? {
        user := store.ByName(UserAccountName(kwargs[k].1.m));
        break;
      }
      k := k + 1;
    }
    assert k < |kwargs| ==> FirstMessage(Values(kwargs)) == Some(kwargs[k].1.m);
    assert k == |kwargs| ==> FirstMessage(Values(kwargs)) == None;
    admitted := user.Some? && store.Activity(user.value) != [];
  }

  /** A keyword message overrides a positional one: only the keyword message's user decides. */
  lemma KeywordMessageWins(store: MongoStore.Store, args: seq<Arg>, kwargs: seq<(string, Arg)>, i: nat, m: Message)
    requires i < |kwargs| && kwargs[i].1 == MessageArg(m) && forall j :: 0 <= j < i ==> !kwargs[j].1.MessageArg?
    ensures CheckedUser(store, args, kwargs) == store.ByName(UserAccountName(m))
  {
    assert Values(kwargs)[i] == MessageArg(m);
    assert FirstMessage(Values(kwargs)) == Some(m);
  }
}
