/**
  Concrete programs: the greet example (example/greet/main.go) and a program with two named
  commands and no root, with what `Run` does on a few command lines.
 */
module Scenarios {
  import opened Wrappers
  import opened Text
  import opened Flags
  import opened Registry
  import opened Usage
  import opened Classifier
  import opened Dispatch

  const PirateUsage: string := "Say hello like a pirate"

  /** The two boolean flags the greet command registers, sharing one usage text. */
  const Pirate: Flag := Flag("pirate", PirateUsage, "false")
  const P: Flag := Flag("p", PirateUsage, "false")

  const Greet: Command := Command("greet", "[name]", "says hello", "a friendly greeting in the terminal.", [Pirate, P])

  /** greet: a root command and no named commands. */
  function GreetProgram(env: Environment): Program {
    Program("greet", "", Some(Greet), [], env, false)
  }

  /** The greet flags have distinct names and are the only two with their usage text, "p" sorting first. */
  lemma GreetFlagsAreAnAliasPair()
    ensures DistinctNames(Greet.flags)
    ensures P in Greet.flags && Pirate in Greet.flags
    ensures P.name != Pirate.name && NameLe(P.name, Pirate.name) && P.usage == Pirate.usage
    ensures forall c :: c in Greet.flags && c.usage == P.usage ==> c == P || c == Pirate
  {
    assert Greet.flags == [Pirate, P];
    assert NameLe("", "irate");
    assert NameLe("p", "pirate");
  }

  /** The greet flags: visited as "p" then "pirate", they share one row "-p -pirate" and nothing is left over. */
  lemma GreetFlagsShareOneRow()
    ensures VisitFlags(Greet.flags).table == FlagTable([Row(["p", "pirate"], PirateUsage, "false")], multiset{})
  {
    GreetFlagsAreAnAliasPair();
    AliasPairMerged(Greet.flags, P, Pirate);
    OnlyRowOfTwo(VisitFlags(Greet.flags), MergedRow(P, Pirate), |Greet.flags|);
    assert MergedRow(P, Pirate) == Row(["p", "pirate"], PirateUsage, "false");
  }

  /** Two flags and one merged row leave room for nothing else. */
  lemma OnlyRowOfTwo(v: Visited, row: Row, n: nat)
    requires row in v.table.merged && n == 2
    requires 2 * |v.table.merged| + |v.table.leftover| == n
    ensures v.table == FlagTable([row], multiset{})
  {
    assert v.table.merged == [v.table.merged[0]];
  }

  /** The first cell of that row. */
  lemma GreetFlagCell()
    ensures Row(["p", "pirate"], PirateUsage, "false").FlagCell() == "-p -pirate"
  {
    var names := ["p", "pirate"];
    assert names[1..] == ["pirate"];
    assert Dashed(["pirate"]) == "-pirate";
    assert Dashed(names) == "-" + "p" + " " + "-pirate";
  }

  /** "greet" alone runs the root with no arguments to parse. */
  lemma GreetWithoutArguments(env: Environment,
      parse: (Command, seq<string>) -> ParseResult, fn: (Environment, Command, seq<string>) -> Option<string>)
    requires parse(Greet, []).Parsed?
    ensures var pos := parse(Greet, []).positionals;
      Run(GreetProgram(env), ["greet"], parse, fn) == Dispatched(env.(args := ["greet"]), Greet, pos, fn(env.(args := ["greet"]), Greet, pos))
  {
    var args := ["greet"];
    RootParsesAfterProgramName(GreetProgram(env), args, parse, fn);
    assert args[1..] == [];
  }

  /** "greet -pirate Sam": "-pirate" is no command, so the root gets both arguments to parse. */
  lemma GreetPirateSam(env: Environment,
      parse: (Command, seq<string>) -> ParseResult, fn: (Environment, Command, seq<string>) -> Option<string>)
    ensures var args := ["greet", "-pirate", "Sam"];
      && (parse(Greet, ["-pirate", "Sam"]).ParseFailed? ==> Run(GreetProgram(env), args, parse, fn) == Refused(ParseArgs))
      && (parse(Greet, ["-pirate", "Sam"]).Parsed? ==>
            Run(GreetProgram(env), args, parse, fn).Dispatched?
            && Run(GreetProgram(env), args, parse, fn).cmd == Greet
            && Run(GreetProgram(env), args, parse, fn).positionals == parse(Greet, ["-pirate", "Sam"]).positionals)
  {
    var args := ["greet", "-pirate", "Sam"];
    NoLetterHNoHelp(args[1]);
    RootParsesAfterProgramName(GreetProgram(env), args, parse, fn);
    assert args[1..] == ["-pirate", "Sam"];
  }

  /** "greet help": the program usage, which for a root-only program is the root's page, comes back as an error. */
  lemma GreetHelp(env: Environment,
      parse: (Command, seq<string>) -> ParseResult, fn: (Environment, Command, seq<string>) -> Option<string>)
    ensures Run(GreetProgram(env), ["greet", "help"], parse, fn)
         == Refused(UsageError(RootOnly(CommandPage(
              ["greet", "[name]"],
              "a friendly greeting in the terminal.",
              Some(FlagTable([Row(["p", "pirate"], PirateUsage, "false")], multiset{}))))))
  {
    var args := ["greet", "help"];
    HelpIsHelp();
    GreetPage(env);
    HelpAloneReturnsUsage(GreetProgram(env), args, parse, fn);
  }

  lemma HelpIsHelp()
    ensures IsHelp("help")
  {
    assert Lower("help") == "help";
    assert OccursAt("help", "help", 0);
  }

  /** The root's page of greet: invocation without the command name, the help text, one flag row. */
  lemma GreetPage(env: Environment)
    ensures CommandUsage(GreetProgram(env), Greet)
         == CommandPage(["greet", "[name]"], "a friendly greeting in the terminal.",
              Some(FlagTable([Row(["p", "pirate"], PirateUsage, "false")], multiset{})))
  {
    GreetFlagsShareOneRow();
    GreetHelpTrimmed();
  }

  /** The greet help text has no surrounding white space to trim. */
  lemma GreetHelpTrimmed()
    ensures TrimSpace(Greet.help) == Greet.help
  {
    var h := Greet.help;
    assert !IsSpace(h[0]) && !IsSpace(h[|h| - 1]);
    TrimSpaceOfTrimmed(h);
  }

  const Build: Command := Command("build", "", "compile", "", [])
  const Test: Command := Command("test", "", "run the tests", "", [])

  /** prog: the named commands build and test, no root. */
  function BuildTestProgram(env: Environment): Program {
    Program("prog", "", None, [Build, Test], env, false)
  }

  /** "prog deploy": no such command, reported as "prog: deploy: no such command". */
  lemma UnknownCommandReported(env: Environment,
      parse: (Command, seq<string>) -> ParseResult, fn: (Environment, Command, seq<string>) -> Option<string>)
    ensures Run(BuildTestProgram(env), ["prog", "deploy"], parse, fn) == Refused(NoSuchCommand("prog", "deploy"))
  {
    var args := ["prog", "deploy"];
    NoLetterHNoHelp(args[1]);
    assert !IsCommand("deploy", [Build, Test]);
  }

  /** The text of that error. */
  lemma UnknownCommandMessage()
    ensures NoSuchCommandMessage("prog", "deploy") == "prog: deploy: no such command"
  {
  }

  /** "prog" alone: there is no root, so the error is ErrNoDefaultCommand with the command listing. */
  lemma NoRootListsCommands(env: Environment,
      parse: (Command, seq<string>) -> ParseResult, fn: (Environment, Command, seq<string>) -> Option<string>)
    ensures Run(BuildTestProgram(env), ["prog"], parse, fn)
         == Refused(NoDefaultCommand(Listing("prog", None, [Entry("build", "compile"), Entry("test", "run the tests")])))
  {
    NoArgumentsWithoutRoot(BuildTestProgram(env), ["prog"], parse, fn);
    assert Entries(BuildTestProgram(env)) == [Entry("build", "compile"), Entry("test", "run the tests")];
  }
}
