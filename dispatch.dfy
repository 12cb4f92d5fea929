/**
 * The observer dispatch the three asyncio cores share
 * (talkative_server/talkative_server/async_core.py,
 * talkative_client/talkative_client/async_core.py,
 * talkative_phone/async_core.py): an event table from event names to
 * observers, `run_command`'s choice of the event a message stands for, and
 * the module-level `Router` that records `(name, command)` pairs and attaches
 * them to its source. The command type `H` is each core's own.
 */
module Dispatch {
  import opened Wrappers
  import opened Envelope
  import opened Lists

  /** An observer: a command, or a GUI object that receives a signal instead of a call. */
  datatype Observer<H> = Command(h: H) | Widget(id: nat)

  /**
   * How far `notify(event)` without a protocol and a message gets: every
   * widget before the first command receives the event, and that command
   * raises TypeError (its `update` lacks the protocol and the message).
   */
  function Reached<H>(obs: seq<Observer<H>>): (n: nat)
    ensures n <= |obs| && (forall j :: 0 <= j < n ==> obs[j].Widget?) && (n < |obs| ==> obs[n].Command?)
  {
    match FirstWhere(obs, (o: Observer<H>) => o.Command?)
    case None => |obs|
    case Some(i) => i
  }

  /** `n` copies of an event: what `n` widgets receive. */
  function Repeat(e: Value, n: nat): (r: seq<Value>)
    ensures |r| == n && forall i :: 0 <= i < n ==> r[i] == e
  {
    seq(n, _ => e)
  }

  /** The command calls `notify` makes on some observers, in order, each with its event. */
  function CommandsIn<H>(obs: seq<Observer<H>>, event: Value): (r: seq<(H, Value)>)
    ensures |r| <= |obs|
  {
    if obs == [] then []
    else
      CommandsIn(obs[..|obs| - 1], event) +
      (if obs[|obs| - 1].Command? then [(obs[|obs| - 1].h, event)] else [])
  }

  /** The event `run_command` notifies: the action when truthy, else the response when truthy. */
  function CommandKey(m: Message): (k: Option<Value>)
    ensures k.Some? ==> Truthy(k.value)
    ensures Truthy(Get(m, ACTION)) ==> k == Some(Get(m, ACTION))
    ensures !Truthy(Get(m, ACTION)) ==> k == if Truthy(Get(m, RESPONSE)) then Some(Get(m, RESPONSE)) else None
  {
    if Truthy(Get(m, ACTION)) then Some(Get(m, ACTION))
    else if Truthy(Get(m, RESPONSE)) then Some(Get(m, RESPONSE))
    else None
  }

  /** The command calls a message leads to when every one of them returns normally. */
  function CalledFor<H>(observers: map<Value, seq<Observer<H>>>, m: Message): seq<(H, Value)> {
    match CommandKey(m)
    case None => []
    case Some(k) => CommandsIn(ObserversOf(observers, k), k)
  }

  /**
   * The name `reg_command` and `unreg_command` use: the one passed when it
   * is truthy, else the command's own `name` attribute (`None` without one).
   */
  function NameArg(name: Value, own: Value): (r: Value)
    ensures Truthy(name) ==> r == name
    ensures !Truthy(name) ==> r == own
  {
    if Truthy(name) then name else own
  }

  /** The event table after `init_cmd` on some registrations, in order. */
  function AttachAll<H>(table: map<Value, seq<Observer<H>>>, ps: seq<(Value, H)>): map<Value, seq<Observer<H>>> {
    if ps == [] then table
    else Attached(AttachAll(table, ps[..|ps| - 1]), Command(ps[|ps| - 1].1), ps[|ps| - 1].0)
  }

  /** The commands registered under an event's name, in order. */
  function CommandsNamed<H>(ps: seq<(Value, H)>, e: Value): seq<Observer<H>> {
    if ps == [] then []
    else CommandsNamed(ps[..|ps| - 1], e) + (if ps[|ps| - 1].0 == e then [Command(ps[|ps| - 1].1)] else [])
  }

  /** After `init`, each event's observers are the earlier ones followed by the commands registered under its name. */
  lemma {:induction false} AttachAllMeaning<H>(table: map<Value, seq<Observer<H>>>, ps: seq<(Value, H)>, e: Value)
    ensures ObserversOf(AttachAll(table, ps), e) == ObserversOf(table, e) + CommandsNamed(ps, e)
  {
    if ps != [] {
      AttachAllMeaning(table, ps[..|ps| - 1], e);
    }
  }

  /** With distinct names, the commands registered under one registration's name are that command alone. */
  lemma {:induction false} CommandsNamedUnique<H>(ps: seq<(Value, H)>, k: nat)
    requires k < |ps| && forall i, j :: 0 <= i < j < |ps| ==> ps[i].0 != ps[j].0
    ensures CommandsNamed(ps, ps[k].0) == [Command(ps[k].1)]
  {
    var last := |ps| - 1;
    if k == last {
      CommandsNamedNone(ps[..last], ps[k].0);
    } else {
      CommandsNamedUnique(ps[..last], k);
    }
  }

  /** No registration under a name: no command for it. */
  lemma {:induction false} CommandsNamedNone<H>(ps: seq<(Value, H)>, e: Value)
    requires forall i :: 0 <= i < |ps| ==> ps[i].0 != e
    ensures CommandsNamed(ps, e) == []
  {
    if ps != [] {
      CommandsNamedNone(ps[..|ps| - 1], e);
    }
  }

  /** The commands named in two runs of registrations, one after the other. */
  lemma {:induction false} CommandsNamedAppend<H>(ps: seq<(Value, H)>, qs: seq<(Value, H)>, e: Value)
    ensures CommandsNamed(ps + qs, e) == CommandsNamed(ps, e) + CommandsNamed(qs, e)
  {
    if qs != [] {
      assert (ps + qs)[..|ps + qs| - 1] == ps + qs[..|qs| - 1];
      CommandsNamedAppend(ps, qs[..|qs| - 1], e);
    } else {
      assert ps + qs == ps;
    }
  }

  /** `[(n, c) for n, c in commands if n != name]`: the registrations under other names, in order. */
  function Unnamed<H>(cs: seq<(Value, H)>, name: Value): seq<(Value, H)> {
    Filter(cs, (p: (Value, H)) => p.0 != name)
  }

  /** After `unreg_command`, nothing is left under the name, and a second removal changes nothing. */
  lemma UnnamedTwice<H>(cs: seq<(Value, H)>, name: Value)
    ensures CommandsNamed(Unnamed(cs, name), name) == []
    ensures Unnamed(Unnamed(cs, name), name) == Unnamed(cs, name)
  {
    CommandsNamedNone(Unnamed(cs, name), name);
    FilterAll(Unnamed(cs, name), (p: (Value, H)) => p.0 != name);
  }
}
