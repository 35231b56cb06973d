/**
  The things a program is built from (cmd.go:18-64): commands, the environment handed to
  the callback, and the program holding a root command and a list of named commands.
 */
module Registry {
  import opened Wrappers
  import opened Flags

  /**
    What the callback receives as `*Environment`: the working directory and process
    environment captured when the program was created, and the arguments of the last `Run`.
    The standard streams are not modelled.
   */
  datatype Environment = Environment(workingDir: string, args: seq<string>, vars: seq<string>)

  /**
    A command as the `Command` interface exposes it. `flags` stands for what `Register`
    declares on the command's flag set; `Run` belongs to the callback and is not part of it.
   */
  datatype Command = Command(name: string, args: string, desc: string, help: string, flags: seq<Flag>)

  /**
    A program. `printCmdHelp` is the field of the same name (cmd.go:63): `Run` sets it when
    asked for a command's help and nothing ever clears it.
   */
  datatype Program = Program(
    name: string,
    desc: string,
    root: Option<Command>,
    commands: seq<Command>,
    env: Environment,
    printCmdHelp: bool)

  /** Whether some registered command is named `arg` (cmd.go isCommand). */
  function IsCommand(arg: string, cmds: seq<Command>): (r: bool)
    ensures r <==> exists i :: 0 <= i < |cmds| && cmds[i].name == arg
  {
    if |cmds| == 0 then false
    else if cmds[0].name == arg then true
    else
      var r := IsCommand(arg, cmds[1..]);
      assert forall i :: 1 <= i < |cmds| ==> cmds[i] == cmds[1..][i - 1];
      r
  }

  /** The position of the first registered command named `name`, as the loop of cmd.go:134-135 finds it. */
  function FindCommand(cmds: seq<Command>, name: string): (r: Option<nat>)
    ensures r.Some? ==> r.value < |cmds| && cmds[r.value].name == name
    ensures r.Some? ==> forall j :: 0 <= j < r.value ==> cmds[j].name != name
    ensures r.None? ==> forall j :: 0 <= j < |cmds| ==> cmds[j].name != name
  {
    if |cmds| == 0 then None
    else if cmds[0].name == name then Some(0)
    else match FindCommand(cmds[1..], name)
      case None => None
      case Some(k) => Some(k + 1)
  }

  /** The dispatcher's loop finds a command exactly when the classifier's test says one is registered. */
  lemma FindCommandAgreesWithIsCommand(cmds: seq<Command>, name: string)
    ensures FindCommand(cmds, name).Some? <==> IsCommand(name, cmds)
  {
  }

  /** The names of the registered commands. */
  function CommandNames(cmds: seq<Command>): (names: set<string>)
    ensures forall n :: n in names <==> IsCommand(n, cmds)
  {
    set i | 0 <= i < |cmds| :: cmds[i].name
  }
}
