/**
  The usage pages (cmd.go:90-124 and 205-245), as structured values: lines are kept as
  their words or cells, and the column alignment done by `text/tabwriter` is not modelled.
 */
module Usage {
  import opened Wrappers
  import opened Text
  import opened Flags
  import opened Registry

  /**
    The usage of one command: the words of the invocation line after "Usage:", the trimmed
    help paragraph, and the flags table when the "Flags:" section is printed.
   */
  datatype CommandPage = CommandPage(invocation: seq<string>, help: string, flags: Option<FlagTable>)

  /** The root test of cmd.go:229: the root's name, not the command value, is compared. */
  predicate IsRoot(p: Program, c: Command) {
    p.root.Some? && p.root.value.name == c.name
  }

  /** The words of "Usage: %s %s" for the root and "Usage: %s %s %s" for any other command. */
  function Invocation(p: Program, c: Command): (words: seq<string>)
    ensures 2 <= |words| <= 3
    ensures words[0] == p.name && words[|words| - 1] == c.args
    ensures |words| == 2 <==> IsRoot(p, c)
    ensures |words| == 3 ==> words[1] == c.name
  {
    if IsRoot(p, c) then [p.name, c.args] else [p.name, c.name, c.args]
  }

  /** The rendered invocation line, words separated by single spaces. */
  function InvocationLine(words: seq<string>): string {
    "Usage: " + JoinSpaced(words)
  }

  function JoinSpaced(words: seq<string>): string {
    if |words| == 0 then ""
    else if |words| == 1 then words[0]
    else words[0] + " " + JoinSpaced(words[1..])
  }

  /** cmd.go createCommandUsage for command `c` of program `p`. */
  function CommandUsage(p: Program, c: Command): (page: CommandPage)
    ensures page.invocation == Invocation(p, c)
    ensures page.help == TrimSpace(c.help)
    ensures page.flags.Some? <==> |c.flags| > 0
    ensures page.flags.Some? ==> 2 * |page.flags.value.merged| + |page.flags.value.leftover| == |c.flags|
  {
    var v := VisitFlags(c.flags);
    CommandPage(Invocation(p, c), TrimSpace(c.help), if v.sawFlag then Some(v.table) else None)
  }

  /** The root's page names the program but not the command; every other page names both. */
  lemma InvocationOmitsNameOnlyForRoot(p: Program, c: Command)
    ensures c.name in CommandUsage(p, c).invocation[1..|CommandUsage(p, c).invocation| - 1] <==> !IsRoot(p, c)
  {
    var w := CommandUsage(p, c).invocation;
    if !IsRoot(p, c) {
      assert w[1..|w| - 1] == [c.name];
    } else {
      assert w[1..|w| - 1] == [];
    }
  }

  /** The rendered line: program and arguments for the root; program, command and arguments otherwise. */
  lemma InvocationLineSpelled(p: Program, c: Command)
    ensures InvocationLine(Invocation(p, c))
         == if IsRoot(p, c) then "Usage: " + p.name + " " + c.args
            else "Usage: " + p.name + " " + c.name + " " + c.args
  {
    var w := Invocation(p, c);
    if |w| == 3 {
      assert JoinSpaced(w[1..][1..]) == c.args;
      assert JoinSpaced(w[1..]) == c.name + " " + c.args;
    } else {
      assert JoinSpaced(w[1..]) == c.args;
    }
  }

  /** One line of the program's command listing: the two tab-separated cells. */
  datatype Entry = Entry(first: string, second: string)

  /**
    The program usage. With registered commands it is a listing: the banner
    "Usage: <name> <command>", the trimmed description when there is one, the entries and
    the hint line. With none it is the root command's page, trimmed.
   */
  datatype ProgramPage =
    | Listing(program: string, description: Option<string>, entries: seq<Entry>)
    | RootOnly(page: CommandPage)

  const DefaultLabel: string := "[default]"

  /** The first line of a listing (cmd.go:95). */
  function Banner(program: string): string {
    "Usage: " + program + " <command>"
  }

  /** The last line of a listing (cmd.go:118-120). */
  function Hint(program: string): string {
    "Use \"" + program + " help [command]\" for more information about a command."
  }

  /** The line one entry writes into the tab writer (cmd.go:105, 108), before the columns are aligned. */
  function EntryLine(e: Entry): string {
    "\t" + e.first + "\t" + e.second
  }

  /**
    The lines of a listing, each without its newline: banner, blank, the description and a
    blank when there is one, "Commands:", blank, the entries, blank, hint.
   */
  function ListingLines(program: string, description: Option<string>, entries: seq<Entry>): (lines: seq<string>)
    ensures |lines| == 6 + |entries| + (if description.Some? then 2 else 0)
    ensures lines[0] == Banner(program) && lines[|lines| - 1] == Hint(program)
    ensures description.Some? ==> lines[2] == description.value
    ensures forall i :: 0 <= i < |entries| ==> lines[|lines| - 2 - |entries| + i] == EntryLine(entries[i])
  {
    [Banner(program), ""]
      + (if description.Some? then [description.value, ""] else [])
      + ["Commands:", ""]
      + seq(|entries|, i requires 0 <= i < |entries| => EntryLine(entries[i]))
      + ["", Hint(program)]
  }

  /** The listing rows: the root as "[default]" first, if any, then each command with its description. */
  function Entries(p: Program): (entries: seq<Entry>)
    ensures |entries| == |p.commands| + (if p.root.Some? then 1 else 0)
  {
    (if p.root.Some? then [Entry(DefaultLabel, p.root.value.name)] else [])
      + seq(|p.commands|, i requires 0 <= i < |p.commands| => Entry(p.commands[i].name, p.commands[i].desc))
  }

  /**
    cmd.go createProgramUsage. The source dereferences the root when there are no commands,
    so a program with neither cannot produce a usage page.
   */
  function ProgramUsage(p: Program): (page: ProgramPage)
    requires p.root.Some? || |p.commands| > 0
    ensures page.Listing? <==> |p.commands| > 0
    ensures page.RootOnly? ==> page.page == CommandUsage(p, p.root.value)
    ensures page.Listing? ==> page.program == p.name
    ensures page.Listing? ==> (page.description.Some? <==> |p.desc| > 0)
    ensures page.Listing? && page.description.Some? ==> page.description.value == TrimSpace(p.desc)
  {
    if |p.commands| > 0 then
      Listing(p.name, if |p.desc| > 0 then Some(TrimSpace(p.desc)) else None, Entries(p))
    else
      RootOnly(CommandUsage(p, p.root.value))
  }

  /**
    The listing shows exactly the root (labelled "[default]") and the registered commands:
    every entry is one of them, and each of them has its entry, in registration order.
   */
  lemma ListingShowsEveryCommand(p: Program)
    requires |p.commands| > 0
    ensures var es := ProgramUsage(p).entries;
      && (p.root.Some? ==> es[0] == Entry(DefaultLabel, p.root.value.name))
      && (forall i :: 0 <= i < |p.commands| ==>
            es[i + |es| - |p.commands|] == Entry(p.commands[i].name, p.commands[i].desc))
      && (forall e :: e in es ==>
            (p.root.Some? && e == Entry(DefaultLabel, p.root.value.name))
            || exists c :: c in p.commands && e == Entry(c.name, c.desc))
  {
    var es := Entries(p);
    assert ProgramUsage(p).entries == es;
    var off := |es| - |p.commands|;
    forall e | e in es
      ensures (p.root.Some? && e == Entry(DefaultLabel, p.root.value.name))
              || exists c :: c in p.commands && e == Entry(c.name, c.desc)
    {
      var k :| 0 <= k < |es| && es[k] == e;
      if k >= off {
        var c := p.commands[k - off];
        assert c in p.commands && e == Entry(c.name, c.desc);
      }
    }
  }

  /** Every entry of a listing has its line. */
  lemma EntryLineListed(program: string, description: Option<string>, entries: seq<Entry>, e: Entry)
    requires e in entries
    ensures EntryLine(e) in ListingLines(program, description, entries)
  {
    var lines := ListingLines(program, description, entries);
    var k :| 0 <= k < |entries| && entries[k] == e;
    assert lines[|lines| - 2 - |entries| + k] == EntryLine(e);
  }

  /** The root's entry line, spelled out. */
  lemma RootLineSpelled(name: string)
    ensures EntryLine(Entry(DefaultLabel, name)) == "\t[default]\t" + name
  {
    assert "\t" + DefaultLabel + "\t" == "\t[default]\t";
  }

  /**
    A program with registered commands prints a listing that opens with
    "Usage: <program> <command>", closes with the help hint, and has a line for the root
    (as "[default]") and for every command with its description.
   */
  lemma ListingLinesShowEveryCommand(p: Program)
    requires |p.commands| > 0
    ensures var pg := ProgramUsage(p);
      var lines := ListingLines(pg.program, pg.description, pg.entries);
      && lines[0] == "Usage: " + p.name + " <command>"
      && lines[|lines| - 1] == "Use \"" + p.name + " help [command]\" for more information about a command."
      && (p.root.Some? ==> "\t[default]\t" + p.root.value.name in lines)
      && (forall c :: c in p.commands ==> "\t" + c.name + "\t" + c.desc in lines)
  {
    var pg := ProgramUsage(p);
    var es := pg.entries;
    ListingShowsEveryCommand(p);
    if p.root.Some? {
      EntryLineListed(pg.program, pg.description, es, es[0]);
      RootLineSpelled(p.root.value.name);
    }
    forall c | c in p.commands ensures "\t" + c.name + "\t" + c.desc in ListingLines(pg.program, pg.description, es) {
      var k :| 0 <= k < |p.commands| && p.commands[k] == c;
      EntryLineListed(pg.program, pg.description, es, es[k + |es| - |p.commands|]);
    }
  }
}
