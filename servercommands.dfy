/**
 * The command table of the first server snapshot (server/commands.py): a
 * dictionary from name to command class. `run` picks the command for a
 * request and executes a fresh instance; `reg_cmd` refuses a name that is
 * already taken.
 */
module ServerCommands {
  import opened Wrappers
  import opened Envelope
  import EchoCommand
  import MsgCommand

  /**
   * The registered command classes: the three that ship with the server and
   * any other class, whose `name` attribute and `execute` are given from
   * outside (`Foreign`).
   */
  datatype Command = PresenceCmd | EchoCmd | MsgCmd | Foreign(id: nat, name: Value)

  /** The class attribute `name`, or None for a class without one. */
  function ClassName(c: Command): Value {
    match c
    case PresenceCmd => Null
    case EchoCmd => Str(EchoCommand.NAME)
    case MsgCmd => Str(MsgCommand.NAME)
    case Foreign(_, n) => n
  }

  /**
   * What `execute` hands back: None for any falsy return value, Some for a
   * message; `Raised` when it raises.
   */
  datatype Executed = Raised | Returned(reply: Option<Message>)

  /** `cmd().execute(request)` for each command. */
  function Execute(c: Command, request: Message, stamp: string -> string, foreign: (nat, Message) -> Executed): (e: Executed)
    ensures c.PresenceCmd? ==> e.Returned? && e.reply.Some? && Get(e.reply.value, RESPONSE) == Int(200)
    ensures c.EchoCmd? ==> e == Returned(Some(EchoCommand.Execute(request, stamp)))
    ensures c.MsgCmd? ==> (e.Raised? <==> MsgCommand.Execute(request, stamp).None?)
  {
    match c
    case PresenceCmd => Returned(Some(Success(Int(200), map[], stamp)))
    case EchoCmd => Returned(Some(EchoCommand.Execute(request, stamp)))
    case MsgCmd =>
      (match MsgCommand.Execute(request, stamp)
       case None => Raised
       case Some(m) => Returned(Some(m)))
    case Foreign(id, _) => foreign(id, request)
  }

  /** The answer of `run`: False (no command), True (the command returned something falsy), the command's message, or an exception. */
  datatype RunResult = NoCommand | Done | Answer(reply: Message) | Failed

  /**
   * The key `run` looks up: for a `msg` whose text starts with `!`, the
   * text after it; otherwise the action. None when the text is truthy but
   * not a string (`startswith` raises).
   */
  function RunKey(request: Message): (k: Option<Value>)
    ensures Get(request, ACTION) != Str("msg") ==> k == Some(Get(request, ACTION))
    ensures Get(request, ACTION) == Str("msg") && Get(request, "text").Str? && |Get(request, "text").s| > 0 && Get(request, "text").s[0] == '!' ==>
      k == Some(Str(Get(request, "text").s[1..]))
    ensures Get(request, ACTION) == Str("msg") && !Truthy(Get(request, "text")) ==> k == Some(Str("msg"))
  {
    var action := Get(request, ACTION);
    if action != Str("msg") then Some(action)
    else
      var text := Get(request, "text");
      if !Truthy(text) then Some(action)
      else if !text.Str? then None
      else if text.s[0] == '!' then Some(Str(text.s[1..]))
      else Some(action)
  }

  /** What `run` answers for a table and a request: a list or dict key makes `commands.get` raise TypeError. */
  function Dispatch(commands: map<Value, Command>, request: Message, stamp: string -> string, foreign: (nat, Message) -> Executed): (r: RunResult)
    ensures RunKey(request).None? ==> r == Failed
    ensures RunKey(request).Some? && !Hashable(RunKey(request).value) ==> r == Failed
    ensures RunKey(request).Some? && Hashable(RunKey(request).value) && RunKey(request).value !in commands ==> r == NoCommand
    ensures RunKey(request).Some? && Hashable(RunKey(request).value) && RunKey(request).value in commands ==>
      var e := Execute(commands[RunKey(request).value], request, stamp, foreign);
      (e.Raised? ==> r == Failed) && (e == Returned(None) ==> r == Done) &&
      (e.Returned? && e.reply.Some? ==> r == Answer(e.reply.value))
  {
    match RunKey(request)
    case None => Failed
    case Some(key) =>
      if !Hashable(key) then Failed
      else if key !in commands then NoCommand
      else
        match Execute(commands[key], request, stamp, foreign)
        case Raised => Failed
        case Returned(None) => Done
        case Returned(Some(m)) => Answer(m)
  }

  /** The key `reg_cmd` stores under: the name given, or the class's own `name` when the given one is falsy. */
  function RegKey(c: Command, name: Value): (k: Value)
    ensures Truthy(name) ==> k == name
    ensures !Truthy(name) ==> k == ClassName(c)
  {
    if Truthy(name) then name else ClassName(c)
  }

  class Comander {
    var commands: map<Value, Command>

    constructor ()
      ensures commands == map[]
    {
      commands := map[];
    }

    /**
     * `reg_cmd`: ValueError (raised) and no change when the key is taken,
     * TypeError when it is a list or dict; else the command is stored.
     */
    method RegCmd(c: Command, name: Value) returns (raised: bool)
      modifies this
      ensures raised <==> !Hashable(RegKey(c, name)) || RegKey(c, name) in old(commands)
      ensures raised ==> commands == old(commands)
      ensures !raised ==> commands == old(commands)[RegKey(c, name) := c]
    {
      var key := RegKey(c, name);
      if !Hashable(key) || key in commands {
        raised := true;
      } else {
        commands := commands[key := c];
        raised := false;
      }
    }

    /** `unreg_cmd`: removes the name; an unknown name is ignored, and a list or dict raises TypeError. */
    method UnregCmd(name: Value) returns (raised: bool)
      modifies this
      ensures raised <==> !Hashable(name)
      ensures raised ==> commands == old(commands)
      ensures !raised ==> commands == old(commands) - {name}
    {
      if !Hashable(name) {
        return true;
      }
      if name in commands {
        commands := commands - {name};
      }
      raised := false;
    }

    /** `run`: looks the request's key up and executes the command; the table is not changed. */
    method Run(request: Message, stamp: string -> string, foreign: (nat, Message) -> Executed) returns (r: RunResult)
      ensures r == Dispatch(commands, request, stamp, foreign)
    {
      var key := RunKey(request);
      if key.None? {
        return Failed;
      }
      if !Hashable(key.value) {
        return Failed;
      }
      r := NoCommand;
      if key.value in commands {
        var e := Execute(commands[key.value], request, stamp, foreign);
        match e {
          case Raised => r := Failed;
          case Returned(reply) =>
            r := if reply.None? then Done else Answer(reply.value);
        }
      }
    }
  }

  /** The table after the modules are imported: `presence`, `echo` and `msg`. */
  function MainCommands(): (t: map<Value, Command>)
    ensures t.Keys == {Str("presence"), Str(EchoCommand.NAME), Str(MsgCommand.NAME)}
  {
    map[Str("presence") := PresenceCmd, Str(EchoCommand.NAME) := EchoCmd, Str(MsgCommand.NAME) := MsgCmd]
  }

  /** Registering a fresh name and unregistering it gives the table back. */
  lemma RegThenUnreg(t: map<Value, Command>, c: Command, name: Value)
    requires Truthy(name) && name !in t
    ensures (t[name := c]) - {name} == t
  {
    assert ((t[name := c]) - {name}).Keys == t.Keys;
  }

  /** A presence request gets the 200 answer. */
  lemma PresenceAnswers200(typ: string, user: Value, userName: Option<string>, stamp: string -> string, foreign: (nat, Message) -> Executed)
    requires typ == "status"
    ensures var r := Dispatch(MainCommands(), Presence(typ, user, map[], userName, stamp), stamp, foreign);
      r.Answer? && Get(r.reply, RESPONSE) == Int(200)
  {
    var p := Presence(typ, user, map[], userName, stamp);
    assert Get(p, ACTION) == Str(PRESENCE);
  }

  /** `!echo` in a chat message reaches the echo command, which asks for the text. */
  lemma BangEchoPrompts(stamp: string -> string, foreign: (nat, Message) -> Executed)
    ensures var r := Dispatch(MainCommands(), New(map[ACTION := Str("msg"), "text" := Str("!echo")], stamp), stamp, foreign);
      r.Answer? && Get(r.reply, ACTION) == Str("request") && Get(r.reply, "text") == Str(EchoCommand.PROMPT) &&
      Get(r.reply, "destination") == Str(EchoCommand.NAME)
  {
    var req := New(map[ACTION := Str("msg"), "text" := Str("!echo")], stamp);
    assert Get(req, "text").s[1..] == "echo";
    assert Get(req, "param") == Null;
  }

  /** An `echo` action with a parameter is echoed back as a chat message. */
  lemma EchoRepeats(text: string, stamp: string -> string, foreign: (nat, Message) -> Executed)
    requires text != ""
    ensures var r := Dispatch(MainCommands(), New(map[ACTION := Str("echo"), "param" := Str(text)], stamp), stamp, foreign);
      r.Answer? && Get(r.reply, ACTION) == Str("msg") && Get(r.reply, "text") == Str(text)
  {
    var req := New(map[ACTION := Str("echo"), "param" := Str(text)], stamp);
    assert Get(req, ACTION) == Str("echo");
  }
}
