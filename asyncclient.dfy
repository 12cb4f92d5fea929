/**
 * The asyncio client of the talkative snapshot
 * (talkative_client/talkative_client/async_core.py): one connection whose
 * protocol reassembles length-prefixed messages from the server and hands
 * each to the client thread, which notifies the observers registered for the
 * message's action (or response code). The module-level router registers two
 * commands: `ClientAuth`, the client half of the challenge-response login,
 * and `ClientError`, which ends the connection on a 400 reply.
 */
module AsyncClient {
  import opened Wrappers
  import opened Bytes
  import opened Envelope
  import opened Lists
  import opened Framing
  import opened Dispatch
  import opened SocketClient
  import Utf8

  /** The command classes of the module, and a command object that has no `name` attribute. */
  datatype Handler = AuthCmd | ErrorCmd | Nameless(id: nat)

  /** A command's class attribute `name`: `ClientError` is named by the response code 400. */
  function NameOf(h: Handler): Value {
    match h
    case AuthCmd => Str(AUTH)
    case ErrorCmd => Int(400)
    case Nameless(_) => Null
  }

  type Observer = Dispatch.Observer<Handler>

  /** The registrations the module makes at import, in order. */
  function Registry(): (ps: seq<(Value, Handler)>)
    ensures forall k :: 0 <= k < |ps| ==> ps[k].0 == NameOf(ps[k].1) && Truthy(ps[k].0)
  {
    [(Str(AUTH), AuthCmd), (Int(400), ErrorCmd)]
  }

  /** `ClientTransport`: the client thread, its event table and the local account record. */
  class ClientTransport {
    var observers: map<Value, seq<Observer>>
    /** The events the GUI observers received, in order. */
    var signals: seq<Value>
    /** The `update(thread, event, proto, msg)` calls made on commands, in order. */
    var calls: seq<(Handler, Value)>
    /** `User.by_name(settings.USER_NAME)`: the local record of the configured user. */
    var account: Option<Account>
    /** Whether the `on_con_lost` future has its result. */
    var conLost: bool
    const cfg: Config

    /** `ClientTransport()` before the router attaches its commands. */
    constructor (cfg: Config, account: Option<Account>)
      ensures this.cfg == cfg && this.account == account
      ensures observers == map[] && signals == [] && calls == [] && !conLost
    {
      this.cfg := cfg;
      this.account := account;
      observers := map[];
      signals := [];
      calls := [];
      conLost := false;
    }

    /** `attach`: always succeeds. */
    method Attach(observer: Observer, event: Value) returns (ok: bool)
      modifies this`observers
      ensures ok && observers == Attached(old(observers), observer, event)
    {
      observers := Attached(observers, observer, event);
      ok := true;
    }

    /** `detach`: ValueError (raised) and no change when the observer is not subscribed. */
    method Detach(observer: Observer, event: Value) returns (raised: bool)
      modifies this`observers
      ensures raised <==> Detached(old(observers), observer, event).None?
      ensures !raised ==> observers == Detached(old(observers), observer, event).value
      ensures raised ==> observers == old(observers)
    {
      var t := Detached(observers, observer, event);
      if t.None? {
        return true;
      }
      observers := t.value;
      raised := false;
    }

    /** `notify(event)` reached the widgets up to the first command, which raised exactly when there was one. */
    ghost predicate Announced(s0: seq<Value>, event: Value, raised: bool)
      reads this
    {
      var obs := ObserversOf(observers, event);
      signals == s0 + Repeat(event, Reached(obs)) && (raised <==> Reached(obs) < |obs|)
    }

    /** `notify(event)` without the protocol and the message, as the commands call it when done. */
    method Announce(event: Value) returns (raised: bool)
      modifies this`signals
      ensures Announced(old(signals), event, raised)
    {
      var obs := ObserversOf(observers, event);
      var i := 0;
      while i < |obs| && obs[i].Widget?
        invariant 0 <= i <= |obs| && forall j :: 0 <= j < i ==> obs[j].Widget?
        invariant signals == old(signals) + Repeat(event, i)
      {
        signals := signals + [event];
        i := i + 1;
      }
      assert i == Reached(obs);
      raised := i < |obs|;
    }

    /** `proto.write(m)`. */
    method WriteTo(t: Transport, m: Message) returns (raised: bool)
      modifies t
      ensures raised <==> !Framable(Encode(m, cfg.codec))
      ensures WroteTo(t, old(WireOf(t)), Encode(m, cfg.codec)) && t.maxSize == old(t.maxSize)
    {
      raised := t.Write(Encode(m, cfg.codec));
    }

    /**
     * `ClientAuth.update`: a 511 challenge is answered with the digest of its
     * nonce under the local key, a 212 marks the record active, a 412 is
     * reported; each then notifies. No local record, or a challenge without
     * a string nonce, raises AttributeError before anything is written.
     */
    method AuthUpdate(proto: Transport, msg: Message) returns (raised: bool)
      modifies this`account, this`signals, proto
      ensures proto.maxSize == old(proto.maxSize)
      ensures Get(msg, RESPONSE) != Int(212) ==> account == old(account)
      ensures Get(msg, RESPONSE) == Int(511) ==>
        var data := Get(msg, DATA);
        if old(account).None? || !data.Str? then raised && WireOf(proto) == old(WireOf(proto)) && signals == old(signals)
        else
          var p := Encode(AuthReply(data.s, old(account).value, cfg), cfg.codec);
          WroteTo(proto, old(WireOf(proto)), p) &&
          (Framable(p) ==> Announced(old(signals), Str("done_511"), raised)) &&
          (!Framable(p) ==> raised && signals == old(signals))
      ensures Get(msg, RESPONSE) == Int(212) ==>
        WireOf(proto) == old(WireOf(proto)) &&
        (old(account).None? ==> raised && account == old(account) && signals == old(signals)) &&
        (old(account).Some? ==> account == Some(old(account).value.(active := true)) && Announced(old(signals), Str("done_auth"), raised))
      ensures Get(msg, RESPONSE) == Int(412) ==>
        WireOf(proto) == old(WireOf(proto)) && Announced(old(signals), Str("fail_auth"), raised)
      ensures Get(msg, RESPONSE) !in {Int(511), Int(212), Int(412)} ==>
        !raised && WireOf(proto) == old(WireOf(proto)) && signals == old(signals)
    {
      var code := Get(msg, RESPONSE);
      var data := Get(msg, DATA);
      if code == Int(511) {
        if account.None? || !data.Str? {
          return true;
        }
        raised := WriteTo(proto, AuthReply(data.s, account.value, cfg));
        if raised {
          return;
        }
        raised := Announce(Str("done_511"));
      } else if code == Int(212) {
        if account.None? {
          return true;
        }
        account := Some(account.value.(active := true));
        raised := Announce(Str("done_auth"));
      } else if code == Int(412) {
        raised := Announce(Str("fail_auth"));
      } else {
        raised := false;
      }
    }

    /** `ClientError.update`, `proto.close()`: resolve `on_con_lost`; a second result raises InvalidStateError. */
    method ErrorUpdate() returns (raised: bool)
      modifies this`conLost
      ensures conLost && (raised <==> old(conLost))
    {
      raised := conLost;
      conLost := true;
    }

    /** One command's `update(thread, event, proto, msg)`; a command of unknown behaviour returns normally. */
    method Invoke(h: Handler, proto: Transport, msg: Message) returns (raised: bool)
      modifies this`account, this`signals, this`conLost, proto
      ensures proto.maxSize == old(proto.maxSize)
    {
      match h
      case AuthCmd =>
        raised := AuthUpdate(proto, msg);
      case ErrorCmd =>
        raised := ErrorUpdate();
      case Nameless(_) =>
        raised := false;
    }

    /** One observer of `notify(event, proto, msg)`: a widget receives the event, a command is called. */
    method Visit(o: Observer, event: Value, proto: Transport, msg: Message) returns (raised: bool)
      modifies this`account, this`signals, this`calls, this`conLost, proto
      ensures calls == old(calls) + (if o.Command? then [(o.h, event)] else [])
      ensures raised ==> o.Command?
      ensures proto.maxSize == old(proto.maxSize)
    {
      if o.Widget? {
        signals := signals + [event];
        return false;
      }
      calls := calls + [(o.h, event)];
      raised := Invoke(o.h, proto, msg);
    }

    /**
     * `notify(event, proto, msg)`: the observers in attachment order, until
     * one raises; `reached` counts the observers handled. A list or dict
     * event makes the lookup raise TypeError before anyone is reached.
     */
    method Notify(event: Value, proto: Transport, msg: Message) returns (raised: bool, reached: nat)
      modifies this`account, this`signals, this`calls, this`conLost, proto
      ensures !Hashable(event) ==>
        raised && reached == 0 && calls == old(calls) && signals == old(signals) && account == old(account) && WireOf(proto) == old(WireOf(proto))
      ensures var obs := ObserversOf(observers, event);
        Hashable(event) ==>
          reached <= |obs| && (!raised ==> reached == |obs|) && (raised ==> 0 < reached && obs[reached - 1].Command?) &&
          calls == old(calls) + CommandsIn(obs[..reached], event)
      ensures proto.maxSize == old(proto.maxSize)
    {
      if !Hashable(event) {
        return true, 0;
      }
      var obs := ObserversOf(observers, event);
      var i := 0;
      raised := false;
      while i < |obs|
        invariant 0 <= i <= |obs| && !raised
        invariant calls == old(calls) + CommandsIn(obs[..i], event)
        invariant proto.maxSize == old(proto.maxSize)
      {
        assert obs[..i + 1][..i] == obs[..i];
        raised := Visit(obs[i], event, proto, msg);
        i := i + 1;
        if raised {
          break;
        }
      }
      reached := i;
    }

    /**
     * `run_command(proto, mes)`: notify under the action, else the response;
     * nothing for a message with neither, TypeError for a list or dict.
     */
    method RunCommand(proto: Transport, mes: Message) returns (raised: bool)
      modifies this`account, this`signals, this`calls, this`conLost, proto
      ensures CommandKey(mes).None? ==> !raised && calls == old(calls) && signals == old(signals) && account == old(account) && WireOf(proto) == old(WireOf(proto))
      ensures CommandKey(mes).Some? && !Hashable(CommandKey(mes).value) ==>
        raised && calls == old(calls) && signals == old(signals) && account == old(account) && WireOf(proto) == old(WireOf(proto))
      ensures !raised ==> calls == old(calls) + CalledFor(observers, mes)
      ensures proto.maxSize == old(proto.maxSize)
    {
      var key := CommandKey(mes);
      if key.None? {
        return false;
      }
      var reached;
      raised, reached := Notify(key.value, proto, mes);
      assert !raised ==> ObserversOf(observers, key.value)[..reached] == ObserversOf(observers, key.value);
    }
  }

  /** The module-level `router`: its registrations, and the client thread it attached them to. */
  class Router {
    var commands: seq<(Value, Handler)>
    var source: ClientTransport?

    constructor ()
      ensures commands == [] && source == null
    {
      commands := [];
      source := null;
    }

    function Source(): set<ClientTransport>
      reads this
    {
      if source == null then {} else {source}
    }

    /** `reg_command(command, name)`: needs a truthy name; attaches at once when a thread is already there. */
    method RegCommand(command: Handler, name: Value)
      modifies this`commands, Source()`observers
      ensures var n := NameArg(name, NameOf(command));
        commands == old(commands) + (if Truthy(n) then [(n, command)] else []) &&
        (source != null ==> source.observers == if Truthy(n) then Attached(old(source.observers), Command(command), n) else old(source.observers))
    {
      var n := NameArg(name, NameOf(command));
      if Truthy(n) {
        commands := commands + [(n, command)];
        if source != null {
          var ok := source.Attach(Command(command), n);
        }
      }
    }

    /** `unreg_command(command, name)`: drops every registration under the name, then detaches the command. */
    method UnregCommand(command: Handler, name: Value) returns (raised: bool)
      modifies this`commands, Source()`observers
      ensures commands == Unnamed(old(commands), NameArg(name, NameOf(command)))
      ensures source == null ==> !raised
      ensures source != null ==>
        var t := Detached(old(source.observers), Command(command), NameArg(name, NameOf(command)));
        (raised <==> t.None?) && source.observers == if t.Some? then t.value else old(source.observers)
    {
      var n := NameArg(name, NameOf(command));
      commands := Unnamed(commands, n);
      raised := false;
      if source != null {
        raised := source.Detach(Command(command), n);
      }
    }

    /** `init(source)`: attach every registration to the thread, in order. */
    method Init(s: ClientTransport)
      modifies this`source, s`observers
      ensures source == s && commands == old(commands)
      ensures s.observers == AttachAll(old(s.observers), commands)
    {
      source := s;
      var i := 0;
      while i < |commands|
        invariant 0 <= i <= |commands| && source == s
        invariant s.observers == AttachAll(old(s.observers), commands[..i])
      {
        assert commands[..i + 1][..i] == commands[..i];
        var ok := s.Attach(Command(commands[i].1), commands[i].0);
        i := i + 1;
      }
      assert commands[..i] == commands;
    }
  }

  /**
   * Importing the module and creating the client: `reg_command(ClientAuth)`,
   * `reg_command(ClientError)`, then `ClientTransport()`, whose initializer
   * hands itself to `router.init`.
   */
  method Launch(cfg: Config, account: Option<Account>) returns (thread: ClientTransport, router: Router)
    ensures fresh(thread) && fresh(router)
    ensures thread.cfg == cfg && thread.account == account && thread.signals == [] && thread.calls == [] && !thread.conLost
    ensures router.commands == Registry() && router.source == thread
    ensures thread.observers == AttachAll(map[], Registry())
  {
    router := new Router();
    router.RegCommand(AuthCmd, Null);
    router.RegCommand(ErrorCmd, Null);
    thread := new ClientTransport(cfg, account);
    router.Init(thread);
  }

  /**
   * On a freshly launched client, a reply with action `auth` goes to
   * `ClientAuth` alone, and a reply without an action and with response 400
   * goes to `ClientError` alone.
   */
  lemma RegistryDispatch(m: Message)
    ensures Get(m, ACTION) == Str(AUTH) ==> CalledFor(AttachAll(map[], Registry()), m) == [(AuthCmd, Str(AUTH))]
    ensures !Truthy(Get(m, ACTION)) && Get(m, RESPONSE) == Int(400) ==>
      CalledFor(AttachAll(map[], Registry()), m) == [(ErrorCmd, Int(400))]
  {
    if Get(m, ACTION) == Str(AUTH) {
      RegistryCalls(m, 0);
    }
    if !Truthy(Get(m, ACTION)) && Get(m, RESPONSE) == Int(400) {
      RegistryCalls(m, 1);
    }
  }

  /** A message whose event is the name of the `k`-th registration calls that command alone. */
  lemma RegistryCalls(m: Message, k: nat)
    requires k < |Registry()| && CommandKey(m) == Some(Registry()[k].0)
    ensures CalledFor(AttachAll(map[], Registry()), m) == [(Registry()[k].1, Registry()[k].0)]
  {
    var ps := Registry();
    CommandsNamedUnique(ps, k);
    AttachAllMeaning(map[], ps, ps[k].0);
    assert [Command(ps[k].1)][..0] == [];
  }

  /** `AsyncClientProtocol`: the connection's reassembly state and the thread it reports to. */
  class Protocol {
    const thread: ClientTransport
    const receiver: Receiver
    /** `long_data` is not set: `connection_made` has not run to its end, having raised or not run yet. */
    var dataUnset: bool

    /** The protocol the connection factory makes, with `connection_made`'s read sizes: the header first. */
    constructor (thread: ClientTransport, transport: Transport)
      modifies transport
      ensures this.thread == thread && fresh(receiver)
      ensures receiver.transport == transport && receiver.variant == Uncapped
      ensures receiver.State() == Initial(old(transport.maxSize))
      ensures WireOf(transport) == old(WireOf(transport)) && dataUnset
    {
      this.thread := thread;
      dataUnset := true;
      receiver := new Receiver(Uncapped, transport);
    }

    /**
     * The rest of `connection_made`: refresh the local record (password,
     * derived key, inactive), send a presence, notify `new_connect`.
     */
    method ConnectionMade() returns (raised: bool)
      modifies this`dataUnset, thread`account, thread`signals, receiver.transport
      ensures dataUnset == raised
      ensures thread.account == Some(Refreshed(old(thread.account), thread.cfg))
      ensures receiver.transport.maxSize == old(receiver.transport.maxSize)
      ensures var p := Encode(Presence("status", Null, map[], Some(thread.cfg.userName), thread.cfg.stamp), thread.cfg.codec);
        WroteTo(receiver.transport, old(WireOf(receiver.transport)), p) &&
        (Framable(p) ==> thread.Announced(old(thread.signals), Str("new_connect"), raised)) &&
        (!Framable(p) ==> raised && thread.signals == old(thread.signals))
    {
      thread.account := Some(Refreshed(thread.account, thread.cfg));
      raised := thread.WriteTo(receiver.transport, Presence("status", Null, map[], Some(thread.cfg.userName), thread.cfg.stamp));
      if !raised {
        raised := thread.Announce(Str("new_connect"));
      }
      dataUnset := raised;
    }

    /**
     * `data_received(data)`: reassembly, then for a completed payload the
     * debug line's UTF-8 decode, the parsing and `run_command`; the buffer
     * is emptied only once the payload has been parsed. An exception
     * escaping here makes the event loop close the transport. While
     * `long_data` is unset, the first chunk that is not a header raises
     * AttributeError at `self.long_data += data`.
     */
    method DataReceived(data: seq<byte>) returns (raised: bool)
      modifies receiver, receiver.transport, thread`account, thread`signals, thread`calls, thread`conLost
      ensures dataUnset && |data| != CHUNK_SIZE ==>
        raised && receiver.State() == old(receiver.State()) &&
        thread.calls == old(thread.calls) && thread.account == old(thread.account) && thread.signals == old(thread.signals)
      ensures !(dataUnset && |data| != CHUNK_SIZE) ==>
        var (st, payload) := Step(receiver.variant, old(receiver.State()), data);
        (payload.None? ==> !raised && receiver.State() == st &&
                           thread.calls == old(thread.calls) && thread.account == old(thread.account) && thread.signals == old(thread.signals)) &&
        (payload.Some? && !Utf8.Valid(payload.value) ==>
           raised && receiver.State() == Holding((st, payload)) &&
           thread.calls == old(thread.calls) && thread.account == old(thread.account) && thread.signals == old(thread.signals)) &&
        (payload.Some? && Utf8.Valid(payload.value) ==>
          var mes := Load(payload.value, thread.cfg.codec, thread.cfg.stamp);
          (mes.None? ==> raised && receiver.State() == Holding((st, payload)) &&
                         thread.calls == old(thread.calls) && thread.account == old(thread.account) && thread.signals == old(thread.signals)) &&
          (mes.Some? ==> receiver.State() == st) &&
          (mes.Some? && !raised ==> thread.calls == old(thread.calls) + CalledFor(thread.observers, mes.value)))
      ensures raised ==> receiver.transport.closed
    {
      if dataUnset && |data| != CHUNK_SIZE {
        receiver.transport.Close();
        return true;
      }
      var payload := receiver.DataReceived(data);
      if payload.None? {
        return false;
      }
      if !Utf8.Valid(payload.value) {
        receiver.transport.Close();
        return true;
      }
      var mes := Load(payload.value, thread.cfg.codec, thread.cfg.stamp);
      if mes.None? {
        raised := true;
      } else {
        receiver.Release();
        raised := thread.RunCommand(receiver.transport, mes.value);
      }
      if raised {
        receiver.transport.Close();
      }
    }
  }
}
