/**
  The argument classifier (cmd.go:247-298). The source writes its decision into the
  program's `calledCmd` and `printCmdHelp` fields; here it is the value `Classify` returns.
  `args[0]` is the program's own name and is never looked at.
 */
module Classifier {
  import opened Text
  import opened Registry

  /** The name the source selects the root command by (cmd.go:247). */
  const DefaultName: string := "default"

  /** cmd.go isHelp: the lower-cased argument contains "help" or is "-h". */
  predicate IsHelp(arg: string) {
    Contains(Lower(arg), "help") || Lower(arg) == "-h"
  }

  /** `c` is the lower-case ASCII letter `l` or its upper-case form. */
  predicate SameLetter(c: char, l: char) {
    c == l || c as int == l as int - 32
  }

  /** "help" in any mixture of letter case starts at position `i` of `arg`. */
  predicate HelpAt(arg: string, i: int) {
    0 <= i && i + 4 <= |arg|
    && SameLetter(arg[i], 'h') && SameLetter(arg[i + 1], 'e')
    && SameLetter(arg[i + 2], 'l') && SameLetter(arg[i + 3], 'p')
  }

  /** Help-like arguments described without lower-casing: "help" in any case anywhere, or "-h"/"-H". */
  predicate HelpLike(arg: string) {
    (exists i | 0 <= i <= |arg| :: HelpAt(arg, i)) || arg == "-h" || arg == "-H"
  }

  lemma OccursHelpAt(arg: string, i: int)
    ensures OccursAt(Lower(arg), "help", i) <==> HelpAt(arg, i)
  {
    if 0 <= i && i + 4 <= |arg| {
      var w := Lower(arg)[i..i + 4];
      LowerCharInverse(arg[i], 'h');
      LowerCharInverse(arg[i + 1], 'e');
      LowerCharInverse(arg[i + 2], 'l');
      LowerCharInverse(arg[i + 3], 'p');
      assert w == "help" <==> w[0] == 'h' && w[1] == 'e' && w[2] == 'l' && w[3] == 'p';
    }
  }

  lemma LowerIsDashH(arg: string)
    ensures Lower(arg) == "-h" <==> arg == "-h" || arg == "-H"
  {
    if |arg| == 2 {
      LowerCharInverse(arg[1], 'h');
      assert Lower(arg) == [LowerChar(arg[0]), LowerChar(arg[1])];
    }
  }

  /** The lower-casing test agrees with the case-free description of help-like arguments. */
  lemma IsHelpMeansHelpLike(arg: string)
    ensures IsHelp(arg) <==> HelpLike(arg)
  {
    LowerIsDashH(arg);
    if Contains(Lower(arg), "help") {
      var i :| 0 <= i <= |Lower(arg)| && OccursAt(Lower(arg), "help", i);
      OccursHelpAt(arg, i);
    }
    if exists i | 0 <= i <= |arg| :: HelpAt(arg, i) {
      var i :| 0 <= i <= |arg| && HelpAt(arg, i);
      OccursHelpAt(arg, i);
    }
  }

  /** An argument without the letter h in either case is never help-like. */
  lemma NoLetterHNoHelp(arg: string)
    requires forall i :: 0 <= i < |arg| ==> arg[i] != 'h' && arg[i] != 'H'
    ensures !IsHelp(arg)
  {
    IsHelpMeansHelpLike(arg);
    forall i | 0 <= i <= |arg| ensures !HelpAt(arg, i) {
      if i + 4 <= |arg| {
        assert arg[i] != 'h' && arg[i] != 'H';
      }
    }
    assert arg != "-h" && arg != "-H" by {
      if |arg| == 2 {
        assert arg[1] != 'h' && arg[1] != 'H';
      }
    }
  }

  /** What `Run` is asked to do once the arguments are classified. */
  datatype Selection =
    | Default              // calledCmd = "default"
    | Named(name: string)  // calledCmd = args[1]
    | HelpFor(target: string)  // calledCmd = args[2], printCmdHelp = true

  /** The outcome of cmd.go parseArgs: a selection, or one of its two errors. */
  datatype Classification =
    | Selected(sel: Selection)
    | ProgramHelp                    // the program usage returned as an error (cmd.go:270)
    | UnknownCommand(token: string)  // ErrNoSuchCommand (cmd.go:276-279, 290-293)

  /** The value the source stores in `calledCmd` for a selection. */
  function CalledName(sel: Selection): string {
    match sel
    case Default => DefaultName
    case Named(name) => name
    case HelpFor(target) => target
  }

  /** cmd.go parseArgs over the arguments, the registered commands and whether a root exists. */
  function Classify(args: seq<string>, cmds: seq<Command>, hasRoot: bool): (c: Classification)
    ensures c == ProgramHelp <==> |args| == 2 && IsHelp(args[1])
    ensures c.Selected? && c.sel.HelpFor? <==> |args| >= 3 && IsHelp(args[1])
    ensures c.Selected? && c.sel.HelpFor? ==> c.sel.target == args[2]
    ensures c.Selected? && c.sel.Named? ==> |args| >= 2 && c.sel.name == args[1] && IsCommand(args[1], cmds)
    ensures c.UnknownCommand? <==> |args| >= 2 && !IsHelp(args[1]) && !IsCommand(args[1], cmds) && !hasRoot
    ensures c.UnknownCommand? ==> c.token == args[1]
    ensures c == Selected(Default) <==> |args| <= 1 || (!IsHelp(args[1]) && !IsCommand(args[1], cmds) && hasRoot)
  {
    if |args| <= 1 then Selected(Default)
    else if IsHelp(args[1]) then
      if |args| == 2 then ProgramHelp else Selected(HelpFor(args[2]))
    else if IsCommand(args[1], cmds) then Selected(Named(args[1]))
    else if hasRoot then Selected(Default)
    else UnknownCommand(args[1])
  }

  /** With at most the program name, the default command is selected, whatever is registered. */
  lemma ShortArgsSelectDefault(args: seq<string>, cmds: seq<Command>, hasRoot: bool)
    requires |args| <= 1
    ensures Classify(args, cmds, hasRoot) == Selected(Default)
  {
  }

  /**
    Help beats everything: a help-like first argument never selects a command by name, even
    when a command literally named "help" is registered.
   */
  lemma HelpBeatsCommand(args: seq<string>, cmds: seq<Command>, hasRoot: bool)
    requires |args| >= 2 && IsHelp(args[1])
    ensures !Classify(args, cmds, hasRoot).Selected? || Classify(args, cmds, hasRoot).sel.HelpFor?
    ensures !Classify(args, cmds, hasRoot).UnknownCommand?
  {
  }

  /** A command named "help" (or "HELP", "-h", "helper", ...) can never be selected by name. */
  lemma HelpNamedCommandUnreachable(args: seq<string>, cmds: seq<Command>, hasRoot: bool)
    requires Classify(args, cmds, hasRoot).Selected? && Classify(args, cmds, hasRoot).sel.Named?
    ensures !HelpLike(Classify(args, cmds, hasRoot).sel.name)
  {
    IsHelpMeansHelpLike(args[1]);
  }

  /** A registered, non-help first argument selects its command, root or not. */
  lemma NamedBeatsDefault(args: seq<string>, cmds: seq<Command>, hasRoot: bool)
    requires |args| >= 2 && !IsHelp(args[1]) && IsCommand(args[1], cmds)
    ensures Classify(args, cmds, hasRoot) == Selected(Named(args[1]))
  {
  }

  /** An unregistered, non-help first argument is an error without a root and the root's input with one. */
  lemma UnknownFallsBackToRoot(args: seq<string>, cmds: seq<Command>, hasRoot: bool)
    requires |args| >= 2 && !IsHelp(args[1]) && !IsCommand(args[1], cmds)
    ensures Classify(args, cmds, hasRoot) == if hasRoot then Selected(Default) else UnknownCommand(args[1])
  {
  }

  /** Only the first three arguments matter. */
  lemma ClassifyIgnoresRest(args: seq<string>, rest: seq<string>, cmds: seq<Command>, hasRoot: bool)
    requires |args| >= 3
    ensures Classify(args + rest, cmds, hasRoot) == Classify(args, cmds, hasRoot)
  {
    assert (args + rest)[1] == args[1] && (args + rest)[2] == args[2];
  }

  /** Only the set of registered names matters, not their order, repetition or other fields. */
  lemma ClassifyDependsOnNames(args: seq<string>, cmds: seq<Command>, cmds': seq<Command>, hasRoot: bool)
    requires CommandNames(cmds) == CommandNames(cmds')
    ensures Classify(args, cmds, hasRoot) == Classify(args, cmds', hasRoot)
  {
    if |args| >= 2 {
      assert IsCommand(args[1], cmds) <==> args[1] in CommandNames(cmds);
      assert IsCommand(args[1], cmds') <==> args[1] in CommandNames(cmds');
    }
  }
}
