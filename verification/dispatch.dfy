/**
  The dispatcher, `Program.Run` (cmd.go:128-183), and the errors it returns.

  Flag parsing (`flag.FlagSet.Parse`) and the callback `fn` are parameters: the parser maps a
  command and the arguments after its name to the positional arguments left over, or fails;
  the callback maps the environment, the command and those positionals to its error, if any.
  Printing is not performed: a printed command usage is the `ShowedUsage` outcome.
 */
module Dispatch {
  import opened Wrappers
  import opened Text
  import opened Registry
  import opened Usage
  import opened Classifier

  /** The errors `Run` can return. */
  datatype Error =
    | UsageError(page: ProgramPage)          // fmt.Errorf(p.usage()), cmd.go:270
    | NoSuchCommand(program: string, command: string)
    | ParseArgs                              // ErrParseArgs, cmd.go:126
    | NoDefaultCommand(usage: ProgramPage)   // cmd.go:187-194

  /** The text of ErrParseArgs. */
  const ParseArgsMessage: string := "could not parse arguments"
  const NoSuchCommandSuffix: string := ": no such command"

  /** cmd.go ErrNoSuchCommand.Error: "<program>: <command>: no such command". */
  function NoSuchCommandMessage(program: string, command: string): string {
    program + ": " + command + NoSuchCommandSuffix
  }

  /**
    What an error's `Error()` method returns: plain text, or the rendered program usage
    (whose layout is the structured page, see the Usage module).
   */
  datatype ErrorText = Plain(text: string) | UsageText(page: ProgramPage)

  /** The `Error()` text of each error Run returns (cmd.go:192-194, 307-309, 126, 270). */
  function ErrorMessage(e: Error): (m: ErrorText)
    ensures m.UsageText? <==> e.UsageError? || e.NoDefaultCommand?
    ensures m.UsageText? ==> m.page == if e.UsageError? then e.page else e.usage
  {
    match e
    case UsageError(page) => UsageText(page)
    case NoSuchCommand(program, command) => Plain(NoSuchCommandMessage(program, command))
    case ParseArgs => Plain(ParseArgsMessage)
    case NoDefaultCommand(usage) => UsageText(usage)
  }

  /** The first position at or after `from` where ": " starts in `s`, if any. */
  function FindSeparator(s: string, from: nat): (r: Option<nat>)
    requires from <= |s|
    ensures r.Some? ==> from <= r.value && OccursAt(s, ": ", r.value)
    ensures r.Some? ==> forall j :: from <= j < r.value ==> !OccursAt(s, ": ", j)
    ensures r.None? ==> forall j :: from <= j <= |s| ==> !OccursAt(s, ": ", j)
    decreases |s| - from
  {
    if from + 2 > |s| then None
    else if s[from..from + 2] == ": " then Some(from)
    else FindSeparator(s, from + 1)
  }

  /** Reads a no-such-command message back: the program is everything before the first ": ". */
  function ParseNoSuchCommand(s: string): (r: Option<(string, string)>)
    ensures r.Some? ==> NoSuchCommandMessage(r.value.0, r.value.1) == s
  {
    match FindSeparator(s, 0)
    case None => None
    case Some(i) =>
      var k := |s| - |NoSuchCommandSuffix|;
      if i + 2 <= k && s[k..] == NoSuchCommandSuffix then
        JoinsBack(s, i, k);
        Some((s[..i], s[i + 2..k]))
      else None
  }

  /** Cutting a message at the separator and before the suffix, and joining the parts, gives it back. */
  lemma JoinsBack(s: string, i: nat, k: nat)
    requires i + 2 <= k <= |s| && OccursAt(s, ": ", i) && s[k..] == NoSuchCommandSuffix
    ensures NoSuchCommandMessage(s[..i], s[i + 2..k]) == s
  {
    assert s == s[..i] + s[i..i + 2] + s[i + 2..k] + s[k..];
  }

  /** A program name without ": " is recovered, with the command name, from the message. */
  lemma NoSuchCommandMessageRoundTrip(program: string, command: string)
    requires !Contains(program, ": ")
    ensures ParseNoSuchCommand(NoSuchCommandMessage(program, command)) == Some((program, command))
  {
    var s := NoSuchCommandMessage(program, command);
    var n := |program|;
    assert s == program + (": " + (command + NoSuchCommandSuffix));
    assert s[..n] == program;
    assert s[n..n + 2] == ": ";
    assert OccursAt(s, ": ", n);
    forall j | 0 <= j < n ensures !OccursAt(s, ": ", j) {
      NoSeparatorBefore(program, ": " + (command + NoSuchCommandSuffix), j);
    }
    assert FindSeparator(s, 0) == Some(n);
    assert s[|s| - |NoSuchCommandSuffix|..] == NoSuchCommandSuffix;
    assert s[n + 2..|s| - |NoSuchCommandSuffix|] == command;
  }

  /** No ": " starts inside a program name without one when ':' follows the name. */
  lemma NoSeparatorBefore(program: string, tail: string, j: nat)
    requires !Contains(program, ": ") && |tail| > 0 && tail[0] == ':' && j < |program|
    ensures !OccursAt(program + tail, ": ", j)
  {
    var s := program + tail;
    if j + 1 < |program| {
      assert s[j..j + 2] == program[j..j + 2];
      assert !OccursAt(program, ": ", j);
    } else {
      assert s[j + 1] == tail[0];
    }
  }

  /**
    The text of an error tells which error it is: the two errors that render the program
    usage share their text when they carry the same page, and every other error is
    determined by its text, as long as a program name has no ": " in it. That a usage text
    never equals a plain one holds here because `ErrorText` keeps the two apart by
    constructor; nothing about the rendered strings is proved for that part (in cmd.go
    every usage text ends in a newline, which no plain message does).
   */
  lemma ErrorMessageDeterminesError(e1: Error, e2: Error)
    requires ErrorMessage(e1) == ErrorMessage(e2)
    requires e1.NoSuchCommand? ==> !Contains(e1.program, ": ")
    requires e2.NoSuchCommand? ==> !Contains(e2.program, ": ")
    ensures e1.UsageError? || e1.NoDefaultCommand? <==> e2.UsageError? || e2.NoDefaultCommand?
    ensures !(e1.UsageError? || e1.NoDefaultCommand?) ==> e1 == e2
  {
    if e1.NoSuchCommand? && e2.NoSuchCommand? {
      NoSuchCommandMessageRoundTrip(e1.program, e1.command);
      NoSuchCommandMessageRoundTrip(e2.program, e2.command);
    } else if e1.NoSuchCommand? && e2.ParseArgs? {
      NotParseArgsMessage(e1.program, e1.command);
    } else if e1.ParseArgs? && e2.NoSuchCommand? {
      NotParseArgsMessage(e2.program, e2.command);
    }
  }

  /** A no-such-command message ends in 'd', so it is never the text of ErrParseArgs. */
  lemma NotParseArgsMessage(program: string, command: string)
    ensures NoSuchCommandMessage(program, command) != ParseArgsMessage
  {
    var s := NoSuchCommandMessage(program, command);
    assert s[|s| - 1] == 'd';
    assert ParseArgsMessage[|ParseArgsMessage| - 1] == 's';
  }

  /** What the flag parser made of a command's arguments. */
  datatype ParseResult = Parsed(positionals: seq<string>) | ParseFailed

  /** Why the source would panic. */
  datatype Panic =
    | SliceOutOfRange  // args[2:] or args[1:] beyond the arguments given
    | NilRoot          // the usage page built for a program with no commands and no root

  /** What one call of `Run` does. */
  datatype Outcome =
    | Dispatched(env: Environment, cmd: Command, positionals: seq<string>, result: Option<string>)
    | ShowedUsage(page: CommandPage)  // printed to standard error; returns nil
    | Refused(err: Error)
    | Ignored                         // returns nil, does nothing (cmd.go:182)
    | Panicked(reason: Panic)

  /** The program usage can be built: building it for a program with neither root nor commands panics (cmd.go:113). */
  predicate HasUsage(p: Program) {
    p.root.Some? || |p.commands| > 0
  }

  /** cmd.go:136-153 and 158-175: run command `c` on the arguments after `skip` of them. */
  function RunCommand(
    p: Program, args: seq<string>, env: Environment, c: Command, skip: nat, help: bool,
    parse: (Command, seq<string>) -> ParseResult,
    fn: (Environment, Command, seq<string>) -> Option<string>): (o: Outcome)
    ensures o.ShowedUsage? <==> help
    ensures o.ShowedUsage? ==> o.page == CommandUsage(p, c)
    ensures o.Panicked? <==> !help && |args| < skip
    ensures o.Panicked? ==> o.reason == SliceOutOfRange
    ensures o.Dispatched? ==> skip <= |args| && o.cmd == c && o.env == env
                              && parse(c, args[skip..]) == Parsed(o.positionals)
                              && o.result == fn(env, c, o.positionals)
    ensures o.Refused? ==> skip <= |args| && o.err == ParseArgs && parse(c, args[skip..]).ParseFailed?
    ensures !o.Ignored?
  {
    if help then ShowedUsage(CommandUsage(p, c))
    else if |args| < skip then Panicked(SliceOutOfRange)
    else match parse(c, args[skip..])
      case ParseFailed => Refused(ParseArgs)
      case Parsed(pos) => Dispatched(env, c, pos, fn(env, c, pos))
  }

  /** cmd.go Program.Run. */
  function Run(
    p: Program, args: seq<string>,
    parse: (Command, seq<string>) -> ParseResult,
    fn: (Environment, Command, seq<string>) -> Option<string>): (o: Outcome)
    ensures o.Dispatched? ==> o.env == p.env.(args := args)
    ensures o.Panicked? && o.reason == NilRoot ==> !HasUsage(p)
  {
    var env := p.env.(args := args);
    match Classify(args, p.commands, p.root.Some?)
    case ProgramHelp =>
      if HasUsage(p) then Refused(UsageError(ProgramUsage(p))) else Panicked(NilRoot)
    case UnknownCommand(token) =>
      Refused(NoSuchCommand(p.name, token))
    case Selected(sel) =>
      var called := CalledName(sel);
      var help := sel.HelpFor? || p.printCmdHelp;
      match FindCommand(p.commands, called)
      case Some(i) => RunCommand(p, args, env, p.commands[i], 2, help, parse, fn)
      case None =>
        if called == DefaultName && p.root.Some? then
          RunCommand(p, args, env, p.root.value, 1, help, parse, fn)
        else if called == DefaultName then
          if HasUsage(p) then Refused(NoDefaultCommand(ProgramUsage(p))) else Panicked(NilRoot)
        else Ignored
  }

  /** The program as `Run` leaves it: the arguments recorded, and the help mode switched on if asked for. */
  function AfterRun(p: Program, args: seq<string>): (p': Program)
    ensures p'.env.args == args && p'.env.workingDir == p.env.workingDir && p'.env.vars == p.env.vars
    ensures p'.printCmdHelp <==> p.printCmdHelp || (|args| >= 3 && IsHelp(args[1]))
    ensures p'.name == p.name && p'.root == p.root && p'.commands == p.commands && p'.desc == p.desc
  {
    var c := Classify(args, p.commands, p.root.Some?);
    p.(env := p.env.(args := args), printCmdHelp := p.printCmdHelp || (c.Selected? && c.sel.HelpFor?))
  }

  // ---------------------------------------------------------------------------
  // Properties of Run
  // ---------------------------------------------------------------------------

  /**
    With no command-line argument the root is asked for; without one, the error is
    ErrNoDefaultCommand carrying the program usage (its Error() text is that usage).
   */
  lemma NoArgumentsWithoutRoot(p: Program, args: seq<string>,
      parse: (Command, seq<string>) -> ParseResult, fn: (Environment, Command, seq<string>) -> Option<string>)
    requires |args| <= 1 && p.root.None? && |p.commands| > 0
    requires !IsCommand(DefaultName, p.commands)
    ensures Run(p, args, parse, fn) == Refused(NoDefaultCommand(ProgramUsage(p)))
    ensures ErrorMessage(Run(p, args, parse, fn).err) == UsageText(ProgramUsage(p))
  {
    FindCommandAgreesWithIsCommand(p.commands, DefaultName);
  }

  /**
    A first argument that is neither help-like nor registered, with no root to fall back on,
    is refused as "<program>: <argument>: no such command", whatever follows it.
   */
  lemma UnknownCommandRefused(p: Program, args: seq<string>,
      parse: (Command, seq<string>) -> ParseResult, fn: (Environment, Command, seq<string>) -> Option<string>)
    requires |args| >= 2 && !IsHelp(args[1]) && !IsCommand(args[1], p.commands) && p.root.None?
    ensures Run(p, args, parse, fn) == Refused(NoSuchCommand(p.name, args[1]))
    ensures ErrorMessage(Run(p, args, parse, fn).err) == Plain(p.name + ": " + args[1] + ": no such command")
  {
  }

  /** Two arguments, the second help-like: the program usage comes back as an error value. */
  lemma HelpAloneReturnsUsage(p: Program, args: seq<string>,
      parse: (Command, seq<string>) -> ParseResult, fn: (Environment, Command, seq<string>) -> Option<string>)
    requires |args| == 2 && IsHelp(args[1])
    ensures Run(p, args, parse, fn) == if HasUsage(p) then Refused(UsageError(ProgramUsage(p))) else Panicked(NilRoot)
  {
  }

  /**
    "prog help <name>" for a registered command prints that command's usage and returns nil,
    without parsing or calling back: the outcome is the same whatever `parse` and `fn` are,
    and whatever follows the name.
   */
  lemma HelpForCommandShowsUsage(p: Program, args: seq<string>, i: nat,
      parse: (Command, seq<string>) -> ParseResult, fn: (Environment, Command, seq<string>) -> Option<string>,
      parse': (Command, seq<string>) -> ParseResult, fn': (Environment, Command, seq<string>) -> Option<string>)
    requires |args| >= 3 && IsHelp(args[1])
    requires FindCommand(p.commands, args[2]) == Some(i)
    ensures Run(p, args, parse, fn) == ShowedUsage(CommandUsage(p, p.commands[i]))
    ensures Run(p, args, parse, fn) == Run(p, args[..3], parse', fn')
  {
    ClassifyIgnoresRest(args[..3], args[3..], p.commands, p.root.Some?);
    assert args[..3] + args[3..] == args;
  }

  /** "prog help default" prints the root's usage when there is a root and no command is named "default". */
  lemma HelpForDefaultShowsRoot(p: Program, args: seq<string>,
      parse: (Command, seq<string>) -> ParseResult, fn: (Environment, Command, seq<string>) -> Option<string>)
    requires |args| >= 3 && IsHelp(args[1]) && args[2] == DefaultName
    requires !IsCommand(DefaultName, p.commands)
    ensures Run(p, args, parse, fn) ==
      if p.root.Some? then ShowedUsage(CommandUsage(p, p.root.value))
      else if HasUsage(p) then Refused(NoDefaultCommand(ProgramUsage(p)))
      else Panicked(NilRoot)
  {
    FindCommandAgreesWithIsCommand(p.commands, DefaultName);
  }

  /** Help for a name that is neither registered nor "default" does nothing and returns nil. */
  lemma HelpForUnknownIgnored(p: Program, args: seq<string>,
      parse: (Command, seq<string>) -> ParseResult, fn: (Environment, Command, seq<string>) -> Option<string>)
    requires |args| >= 3 && IsHelp(args[1]) && args[2] != DefaultName
    requires !IsCommand(args[2], p.commands)
    ensures Run(p, args, parse, fn) == Ignored
  {
    FindCommandAgreesWithIsCommand(p.commands, args[2]);
  }

  /**
    A named command has its flags parsed from the arguments after its name; a parse failure
    is ErrParseArgs and the callback is not reached; otherwise the callback gets the
    positionals left over and its error is returned unchanged.
   */
  lemma NamedCommandParsesAfterName(p: Program, args: seq<string>, i: nat,
      parse: (Command, seq<string>) -> ParseResult, fn: (Environment, Command, seq<string>) -> Option<string>)
    requires |args| >= 2 && !IsHelp(args[1]) && !p.printCmdHelp
    requires FindCommand(p.commands, args[1]) == Some(i)
    ensures parse(p.commands[i], args[2..]).ParseFailed? ==> Run(p, args, parse, fn) == Refused(ParseArgs)
    ensures parse(p.commands[i], args[2..]).Parsed? ==>
      var pos := parse(p.commands[i], args[2..]).positionals;
      Run(p, args, parse, fn) == Dispatched(p.env.(args := args), p.commands[i], pos, fn(p.env.(args := args), p.commands[i], pos))
  {
    FindCommandAgreesWithIsCommand(p.commands, args[1]);
  }

  /**
    The root has its flags parsed from everything after the program name, so an unmatched
    first argument reaches it as input.
   */
  lemma RootParsesAfterProgramName(p: Program, args: seq<string>,
      parse: (Command, seq<string>) -> ParseResult, fn: (Environment, Command, seq<string>) -> Option<string>)
    requires p.root.Some? && !p.printCmdHelp && !IsCommand(DefaultName, p.commands)
    requires |args| == 1 || (|args| >= 2 && !IsHelp(args[1]) && !IsCommand(args[1], p.commands))
    ensures parse(p.root.value, args[1..]).ParseFailed? ==> Run(p, args, parse, fn) == Refused(ParseArgs)
    ensures parse(p.root.value, args[1..]).Parsed? ==>
      var pos := parse(p.root.value, args[1..]).positionals;
      Run(p, args, parse, fn) == Dispatched(p.env.(args := args), p.root.value, pos, fn(p.env.(args := args), p.root.value, pos))
  {
    FindCommandAgreesWithIsCommand(p.commands, DefaultName);
  }

  /**
    The callback is only ever reached after a successful parse: a registered command on the
    arguments after its name, or the root on the arguments after the program name.
   */
  lemma DispatchOnlyAfterParse(p: Program, args: seq<string>,
      parse: (Command, seq<string>) -> ParseResult, fn: (Environment, Command, seq<string>) -> Option<string>)
    requires Run(p, args, parse, fn).Dispatched?
    ensures var o := Run(p, args, parse, fn);
      && o.result == fn(o.env, o.cmd, o.positionals)
      && ((|args| >= 2 && o.cmd in p.commands && parse(o.cmd, args[2..]) == Parsed(o.positionals))
          || (|args| >= 1 && p.root == Some(o.cmd) && parse(o.cmd, args[1..]) == Parsed(o.positionals)))
  {
    var c := Classify(args, p.commands, p.root.Some?);
    var sel := c.sel;
    match FindCommand(p.commands, CalledName(sel))
    case Some(i) =>
      assert p.commands[i] in p.commands;
    case None =>
  }

  /**
    When the source builds the program usage for a program with neither root nor commands:
    for "prog help", and when the default command is asked for, by giving no argument or by
    "prog help default".
   */
  predicate NilRootCondition(p: Program, args: seq<string>) {
    !HasUsage(p)
    && (|args| <= 1 || (|args| == 2 && IsHelp(args[1])) || (|args| >= 3 && IsHelp(args[1]) && args[2] == DefaultName))
  }

  /**
    When the source slices past the arguments outside help mode: a command named "default"
    selected with at most the program name (`args[2:]`), or the root with no arguments at all
    (`args[1:]`).
   */
  predicate SliceCondition(p: Program, args: seq<string>) {
    && !p.printCmdHelp
    && ((|args| <= 1 && IsCommand(DefaultName, p.commands))
        || (|args| == 0 && p.root.Some? && !IsCommand(DefaultName, p.commands)))
  }

  /** Exactly when the source panics, and for which reason; the two reasons never meet. */
  lemma RunPanicsExactly(p: Program, args: seq<string>,
      parse: (Command, seq<string>) -> ParseResult, fn: (Environment, Command, seq<string>) -> Option<string>)
    ensures Run(p, args, parse, fn) == Panicked(NilRoot) <==> NilRootCondition(p, args)
    ensures Run(p, args, parse, fn) == Panicked(SliceOutOfRange) <==> SliceCondition(p, args)
    ensures !(NilRootCondition(p, args) && SliceCondition(p, args))
  {
    FindCommandAgreesWithIsCommand(p.commands, DefaultName);
    if |args| >= 3 {
      FindCommandAgreesWithIsCommand(p.commands, args[2]);
    }
  }

  /**
    The "default" quirk: the root is looked up by the name "default", so a registered command
    of that name is run in the root's place, on the arguments after the second one, and the
    root never runs.
   */
  lemma CommandNamedDefaultShadowsRoot(p: Program, args: seq<string>, i: nat,
      parse: (Command, seq<string>) -> ParseResult, fn: (Environment, Command, seq<string>) -> Option<string>)
    requires p.root.Some? && !p.printCmdHelp
    requires FindCommand(p.commands, DefaultName) == Some(i)
    requires |args| >= 2 && !IsHelp(args[1]) && !IsCommand(args[1], p.commands)
    ensures Run(p, args, parse, fn).Dispatched? ==> Run(p, args, parse, fn).cmd == p.commands[i]
    ensures Run(p, args, parse, fn).Dispatched? <==> parse(p.commands[i], args[2..]).Parsed?
  {
  }

  /**
    The help mode outlives the call that asked for it: after "prog help <x> ...", a later
    `Run` naming a registered command prints that command's usage instead of running it.
   */
  lemma HelpModeSticks(p: Program, first: seq<string>, args: seq<string>, i: nat,
      parse: (Command, seq<string>) -> ParseResult, fn: (Environment, Command, seq<string>) -> Option<string>)
    requires |first| >= 3 && IsHelp(first[1])
    requires |args| >= 2 && !IsHelp(args[1]) && FindCommand(p.commands, args[1]) == Some(i)
    ensures Run(AfterRun(p, first), args, parse, fn) == ShowedUsage(CommandUsage(p, p.commands[i]))
  {
    var p' := AfterRun(p, first);
    FindCommandAgreesWithIsCommand(p.commands, args[1]);
    assert CommandUsage(p', p.commands[i]) == CommandUsage(p, p.commands[i]);
  }
}
