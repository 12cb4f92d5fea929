/**
 * The command list of the first client snapshot (client/commands.py): an
 * ordered list of commands; `run` executes the first one with the given
 * name, `unreg_cmd` drops every command of a name.
 */
module ClientCommands {
  import opened Wrappers
  import opened Lists

  /** A registered command: an identity and its `name` attribute. */
  datatype Cmd = Cmd(id: nat, name: string)

  /** The index of the first command with that name, if any. */
  function FirstMatch(cmds: seq<Cmd>, name: string): (r: Option<nat>)
    ensures r.Some? ==> r.value < |cmds| && cmds[r.value].name == name
    ensures r.Some? ==> forall j :: 0 <= j < r.value ==> cmds[j].name != name
    ensures r.None? ==> forall j :: 0 <= j < |cmds| ==> cmds[j].name != name
  {
    if cmds == [] then None
    else if cmds[0].name == name then Some(0)
    else
      match FirstMatch(cmds[1..], name)
      case None => None
      case Some(i) => Some(i + 1)
  }

  /** The list with every command of that name dropped, the others kept in order with their repeats. */
  function Dropped(cmds: seq<Cmd>, name: string): (r: seq<Cmd>)
    ensures r == Filter(cmds, (c: Cmd) => c.name != name)
    ensures forall j :: 0 <= j < |r| ==> r[j].name != name
  {
    if cmds == [] then []
    else if cmds[0].name == name then Dropped(cmds[1..], name)
    else [cmds[0]] + Dropped(cmds[1..], name)
  }

  class Comander {
    var commands: seq<Cmd>
    /** The commands executed so far, most recent last. */
    var executed: seq<Cmd>

    constructor ()
      ensures commands == [] && executed == []
    {
      commands := [];
      executed := [];
    }

    /** `run`: the first command of that name is executed and True returned; False when none matches. */
    method Run(name: string) returns (response: bool)
      modifies this
      ensures commands == old(commands)
      ensures response <==> FirstMatch(commands, name).Some?
      ensures response ==> executed == old(executed) + [commands[FirstMatch(commands, name).value]]
      ensures !response ==> executed == old(executed)
    {
      response := false;
      var i := 0;
      while i < |commands|
        invariant 0 <= i <= |commands|
        invariant forall j :: 0 <= j < i ==> commands[j].name != name
        invariant executed == old(executed) && !response
      {
        if commands[i].name == name {
          executed := executed + [commands[i]];
          response := true;
          break;
        }
        i := i + 1;
      }
    }

    /** `reg_cmd`: appended after the earlier ones. */
    method RegCmd(c: Cmd)
      modifies this
      ensures commands == old(commands) + [c] && executed == old(executed)
    {
      commands := commands + [c];
    }

    /** `unreg_cmd`: the list rebuilt from the commands of other names. */
    method UnregCmd(name: string)
      modifies this
      ensures commands == Dropped(old(commands), name) && executed == old(executed)
    {
      commands := Dropped(commands, name);
    }
  }

  /** Registering never shadows: an earlier command of the same name still wins. */
  lemma {:induction false} RegKeepsFirst(cmds: seq<Cmd>, c: Cmd)
    requires FirstMatch(cmds, c.name).Some?
    ensures FirstMatch(cmds + [c], c.name) == FirstMatch(cmds, c.name)
  {
    if cmds[0].name != c.name {
      assert (cmds + [c])[1..] == cmds[1..] + [c];
      RegKeepsFirst(cmds[1..], c);
    }
  }

  /** After `unreg_cmd(n)`, `run(n)` finds nothing. */
  lemma UnregThenRunFindsNothing(cmds: seq<Cmd>, name: string)
    ensures FirstMatch(Dropped(cmds, name), name).None?
  {
  }

  /** Removing a name that is not registered leaves the list as it was. */
  lemma {:induction false} UnregAbsent(cmds: seq<Cmd>, name: string)
    requires forall j :: 0 <= j < |cmds| ==> cmds[j].name != name
    ensures Dropped(cmds, name) == cmds
  {
    if cmds != [] {
      UnregAbsent(cmds[1..], name);
    }
  }

  /** Dropping a name from a concatenation drops it from each part, so the survivors keep their order. */
  lemma {:induction false} DroppedAppend(a: seq<Cmd>, b: seq<Cmd>, name: string)
    ensures Dropped(a + b, name) == Dropped(a, name) + Dropped(b, name)
  {
    FilterAppend(a, b, (c: Cmd) => c.name != name);
  }
}
