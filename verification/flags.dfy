/**
  Flag declarations and the rows the usage page shows for them (cmd.go:196-227).

  `flag.FlagSet.VisitAll` visits declared flags sorted by name. The usage renderer walks
  them in that order holding at most one flag per usage text: a flag whose usage text is
  already held is printed together with the held one on a single row and the held entry is
  dropped; otherwise the flag is held. Flags still held at the end are printed one per row
  in Go map order, which is unspecified, so those rows form a multiset.
 */
module Flags {
  import opened Wrappers
  import opened Text
  import opened Collections

  /** One `flag.Flag` as the usage renderer sees it. */
  datatype Flag = Flag(name: string, usage: string, defValue: string)

  /** A row of the flags table as cells: the spellings ("-p -pirate"), the usage, the default. */
  datatype Row = Row(spellings: seq<string>, usage: string, defaultValue: string) {

    /** The first cell: each spelling with a leading dash, separated by one space. */
    function FlagCell(): string {
      Dashed(spellings)
    }

    /** The second cell: the usage text followed by the rendered default. */
    function TextCell(): string {
      usage + " (default: " + defaultValue + ")"
    }
  }

  /** The rows of one flags table: merged rows in emission order, then the leftover ones. */
  datatype FlagTable = FlagTable(merged: seq<Row>, leftover: multiset<Row>)

  /** `["p", "pirate"]` becomes `"-p -pirate"`. */
  function Dashed(names: seq<string>): string {
    if |names| == 0 then ""
    else if |names| == 1 then "-" + names[0]
    else "-" + names[0] + " " + Dashed(names[1..])
  }

  /** What visiting the declared flags produces: whether any flag was seen, and the rows. */
  datatype Visited = Visited(sawFlag: bool, table: FlagTable)

  const NoneToken: string := "<none>"

  /** cmd.go prettyDefaultValue: an empty default is shown as `<none>`, any other verbatim. */
  function PrettyDefaultValue(s: string): (dv: string)
    ensures dv != ""
    ensures s == "" ==> dv == NoneToken
    ensures dv == s <==> s != ""
  {
    if s == "" then NoneToken else s
  }

  /** Prettifying an already prettified default changes nothing. */
  lemma PrettyDefaultValueIdempotent(s: string)
    ensures PrettyDefaultValue(PrettyDefaultValue(s)) == PrettyDefaultValue(s)
  {
  }

  function Names(fs: seq<Flag>): (ns: seq<string>)
    ensures |ns| == |fs|
    ensures forall i :: 0 <= i < |fs| ==> ns[i] == fs[i].name
  {
    if |fs| == 0 then [] else [fs[0].name] + Names(fs[1..])
  }

  predicate DistinctNames(fs: seq<Flag>) {
    forall i, j :: 0 <= i < j < |fs| ==> fs[i].name != fs[j].name
  }

  // ---------------------------------------------------------------------------
  // Visit order
  // ---------------------------------------------------------------------------

  predicate SortedByName(fs: seq<Flag>) {
    forall i, j :: 0 <= i < j < |fs| ==> NameLe(fs[i].name, fs[j].name)
  }

  /** Inserts `f` into the name-sorted `fs`, keeping it sorted. */
  function Insert(f: Flag, fs: seq<Flag>): (r: seq<Flag>)
    requires SortedByName(fs)
    ensures SortedByName(r)
    ensures multiset(r) == multiset(fs) + multiset{f}
  {
    if |fs| == 0 then [f]
    else if NameLe(f.name, fs[0].name) then
      InsertFront(f, fs);
      [f] + fs
    else
      var rest := Insert(f, fs[1..]);
      InsertBehind(f, fs, rest);
      [fs[0]] + rest
  }

  /** A flag sorting before the first of a sorted list goes in front of it. */
  lemma InsertFront(f: Flag, fs: seq<Flag>)
    requires SortedByName(fs) && |fs| > 0 && NameLe(f.name, fs[0].name)
    ensures SortedByName([f] + fs)
  {
    forall j | 0 <= j < |fs| ensures NameLe(f.name, fs[j].name) {
      if j > 0 { NameLeTransitive(f.name, fs[0].name, fs[j].name); }
    }
  }

  /** A flag sorting after the first of a sorted list goes into the rest of it. */
  lemma InsertBehind(f: Flag, fs: seq<Flag>, rest: seq<Flag>)
    requires SortedByName(fs) && |fs| > 0 && !NameLe(f.name, fs[0].name)
    requires SortedByName(rest) && multiset(rest) == multiset(fs[1..]) + multiset{f}
    ensures SortedByName([fs[0]] + rest)
    ensures multiset([fs[0]] + rest) == multiset(fs) + multiset{f}
  {
    NameLeTotal(f.name, fs[0].name);
    assert fs == [fs[0]] + fs[1..];
    forall j | 0 <= j < |rest| ensures NameLe(fs[0].name, rest[j].name) {
      assert rest[j] in multiset(rest);
    }
  }

  /** The order `flag.FlagSet.VisitAll` visits the declared flags in: sorted by name. */
  function VisitOrder(declared: seq<Flag>): (visit: seq<Flag>)
    ensures SortedByName(visit)
    ensures multiset(visit) == multiset(declared)
  {
    if |declared| == 0 then []
    else
      assert declared == [declared[0]] + declared[1..];
      Insert(declared[0], VisitOrder(declared[1..]))
  }

  // ---------------------------------------------------------------------------
  // The coalescing walk (cmd.go:213-223), on positions of the visit order
  // ---------------------------------------------------------------------------

  /**
    The walk's state after a prefix of the visit order: the pairs of positions printed as
    merged rows so far, in emission order, the positions held (the map `hold`, keyed by
    usage text), and the `flags` boolean of cmd.go:208.
   */
  datatype Hold = Hold(pairs: seq<(nat, nat)>, held: seq<nat>, sawFlag: bool)

  /** The position in `held` of the flag holding usage text `u`, if one does. */
  function Lookup(visit: seq<Flag>, held: seq<nat>, u: string): (k: Option<nat>)
    requires forall m :: 0 <= m < |held| ==> held[m] < |visit|
    ensures k.Some? ==> k.value < |held| && visit[held[k.value]].usage == u
    ensures k.None? ==> forall m :: 0 <= m < |held| ==> visit[held[m]].usage != u
  {
    if |held| == 0 then None
    else if visit[held[0]].usage == u then Some(0)
    else match Lookup(visit, held[1..], u)
      case None => None
      case Some(k) => Some(k + 1)
  }

  /** Both positions of every pair, in order. */
  function Ends(pairs: seq<(nat, nat)>): (e: seq<nat>)
    ensures |e| == 2 * |pairs|
  {
    if |pairs| == 0 then [] else Ends(pairs[..|pairs| - 1]) + [pairs[|pairs| - 1].0, pairs[|pairs| - 1].1]
  }

  /** The positions 0 .. n-1. */
  function Upto(n: nat): (r: seq<nat>)
    ensures |r| == n
    ensures forall i :: 0 <= i < n ==> r[i] == i
  {
    if n == 0 then [] else Upto(n - 1) + [n - 1]
  }

  predicate HeldBelow(held: seq<nat>, n: nat) {
    forall m :: 0 <= m < |held| ==> held[m] < n
  }

  /** The map `hold` has one entry per usage text. */
  predicate HeldUsagesDistinct(visit: seq<Flag>, held: seq<nat>)
    requires HeldBelow(held, |visit|)
  {
    forall a, b :: 0 <= a < b < |held| ==> visit[held[a]].usage != visit[held[b]].usage
  }

  /** Every merged pair joins an earlier flag to a later one with the same usage text. */
  predicate PairsAreAliases(visit: seq<Flag>, pairs: seq<(nat, nat)>, n: nat)
    requires n <= |visit|
  {
    forall m :: 0 <= m < |pairs| ==>
      pairs[m].0 < pairs[m].1 < n && visit[pairs[m].0].usage == visit[pairs[m].1].usage
  }

  /** Merged rows are emitted in visit order of their second flag. */
  predicate PairsInVisitOrder(pairs: seq<(nat, nat)>) {
    forall a, b :: 0 <= a < b < |pairs| ==> pairs[a].1 < pairs[b].1
  }

  /** Every visited position is in exactly one pair or held. */
  predicate Partition(pairs: seq<(nat, nat)>, held: seq<nat>, n: nat) {
    multiset(Ends(pairs) + held) == multiset(Upto(n))
  }

  /** What the walk keeps true after visiting the first `n` flags of `visit`. */
  predicate WalkInvariant(visit: seq<Flag>, n: nat, h: Hold)
    requires n <= |visit|
  {
    && (h.sawFlag <==> n > 0)
    && HeldBelow(h.held, n)
    && HeldUsagesDistinct(visit, h.held)
    && PairsAreAliases(visit, h.pairs, n)
    && PairsInVisitOrder(h.pairs)
    && 2 * |h.pairs| + |h.held| == n
  }

  /** Visits flag `n` (cmd.go:214-222): merge it with the held flag of the same usage, or hold it. */
  function Step(visit: seq<Flag>, n: nat, h: Hold): (h': Hold)
    requires n < |visit|
    requires HeldBelow(h.held, n)
    ensures h.pairs <= h'.pairs
    ensures HeldBelow(h'.held, n + 1)
  {
    match Lookup(visit, h.held, visit[n].usage)
    case Some(k) =>
      HeldBelowRemove(h.held, k, n + 1);
      Hold(h.pairs + [(h.held[k], n)], h.held[..k] + h.held[k + 1..], true)
    case None => Hold(h.pairs, h.held + [n], true)
  }

  lemma HeldBelowRemove(held: seq<nat>, k: nat, n: nat)
    requires k < |held| && HeldBelow(held, n)
    ensures HeldBelow(held[..k] + held[k + 1..], n)
  {
    var held' := held[..k] + held[k + 1..];
    forall m | 0 <= m < |held'| ensures held'[m] == held[if m < k then m else m + 1] { }
  }

  lemma PartitionAfterMerge(pairs: seq<(nat, nat)>, held: seq<nat>, n: nat, k: nat)
    requires k < |held|
    requires Partition(pairs, held, n)
    ensures Partition(pairs + [(held[k], n)], held[..k] + held[k + 1..], n + 1)
  {
    var pairs' := pairs + [(held[k], n)];
    var held' := held[..k] + held[k + 1..];
    assert pairs'[..|pairs'| - 1] == pairs;
    assert Ends(pairs') == Ends(pairs) + [held[k], n];
    MultisetRemove(held, k);
    assert Upto(n + 1) == Upto(n) + [n];
    calc {
      multiset(Ends(pairs') + held');
      multiset(Ends(pairs)) + multiset{held[k], n} + multiset(held');
      multiset(Ends(pairs)) + multiset(held) + multiset{n};
      multiset(Upto(n)) + multiset{n};
      multiset(Upto(n + 1));
    }
  }

  lemma PartitionAfterHold(pairs: seq<(nat, nat)>, held: seq<nat>, n: nat)
    requires Partition(pairs, held, n)
    ensures Partition(pairs, held + [n], n + 1)
  {
    assert Ends(pairs) + (held + [n]) == (Ends(pairs) + held) + [n];
    assert Upto(n + 1) == Upto(n) + [n];
  }

  /** Dropping the held entry at `k` keeps the hold well-formed. */
  lemma RemoveHeld(visit: seq<Flag>, held: seq<nat>, k: nat, n: nat)
    requires n <= |visit| && k < |held|
    requires HeldBelow(held, n) && HeldUsagesDistinct(visit, held)
    ensures HeldBelow(held[..k] + held[k + 1..], n)
    ensures HeldUsagesDistinct(visit, held[..k] + held[k + 1..])
  {
    var held' := held[..k] + held[k + 1..];
    forall m | 0 <= m < |held'| ensures held'[m] == held[if m < k then m else m + 1] { }
  }

  /** Holding position `n`, whose usage text nothing held carries, keeps the hold well-formed. */
  lemma AddHeld(visit: seq<Flag>, held: seq<nat>, n: nat)
    requires n < |visit|
    requires HeldBelow(held, n) && HeldUsagesDistinct(visit, held)
    requires forall m :: 0 <= m < |held| ==> visit[held[m]].usage != visit[n].usage
    ensures HeldBelow(held + [n], n + 1)
    ensures HeldUsagesDistinct(visit, held + [n])
  {
  }

  /** Emitting the merged pair `(i, n)` keeps the pairs aliases and in visit order. */
  lemma AddPair(visit: seq<Flag>, pairs: seq<(nat, nat)>, i: nat, n: nat)
    requires i < n < |visit|
    requires visit[i].usage == visit[n].usage
    requires PairsAreAliases(visit, pairs, n) && PairsInVisitOrder(pairs)
    ensures PairsAreAliases(visit, pairs + [(i, n)], n + 1)
    ensures PairsInVisitOrder(pairs + [(i, n)])
  {
  }

  lemma StepMerges(visit: seq<Flag>, n: nat, h: Hold, k: nat)
    requires n < |visit|
    requires WalkInvariant(visit, n, h)
    requires Lookup(visit, h.held, visit[n].usage) == Some(k)
    ensures WalkInvariant(visit, n + 1, Step(visit, n, h))
  {
    var h' := Step(visit, n, h);
    assert h'.pairs == h.pairs + [(h.held[k], n)];
    assert h'.held == h.held[..k] + h.held[k + 1..];
    RemoveHeld(visit, h.held, k, n + 1);
    AddPair(visit, h.pairs, h.held[k], n);
  }

  lemma StepHolds(visit: seq<Flag>, n: nat, h: Hold)
    requires n < |visit|
    requires WalkInvariant(visit, n, h)
    requires Lookup(visit, h.held, visit[n].usage).None?
    ensures WalkInvariant(visit, n + 1, Step(visit, n, h))
  {
    var h' := Step(visit, n, h);
    assert h'.held == h.held + [n];
    AddHeld(visit, h.held, n);
  }

  lemma StepPreserves(visit: seq<Flag>, n: nat, h: Hold)
    requires n < |visit|
    requires WalkInvariant(visit, n, h)
    ensures WalkInvariant(visit, n + 1, Step(visit, n, h))
  {
    match Lookup(visit, h.held, visit[n].usage)
    case Some(k) => StepMerges(visit, n, h, k);
    case None => StepHolds(visit, n, h);
  }

  /**
    One visit: a flag whose usage text is held is merged with the held flag, appending one
    pair ending at it, and that usage text is no longer held; any other flag is held and
    no pair is added.
   */
  lemma StepMergesOrHolds(visit: seq<Flag>, n: nat, h: Hold)
    requires n < |visit| && WalkInvariant(visit, n, h)
    ensures HeldBelow(Step(visit, n, h).held, |visit|)
    ensures HeldHas(visit, h.held, visit[n].usage) ==>
      && |Step(visit, n, h).pairs| == |h.pairs| + 1
      && Step(visit, n, h).pairs[|h.pairs|].1 == n
      && visit[Step(visit, n, h).pairs[|h.pairs|].0].usage == visit[n].usage
      && !HeldHas(visit, Step(visit, n, h).held, visit[n].usage)
    ensures !HeldHas(visit, h.held, visit[n].usage) ==>
      Step(visit, n, h).pairs == h.pairs && HeldHas(visit, Step(visit, n, h).held, visit[n].usage)
  {
    var u := visit[n].usage;
    var h' := Step(visit, n, h);
    match Lookup(visit, h.held, u)
    case Some(k) =>
      assert h'.pairs == h.pairs + [(h.held[k], n)];
      assert h'.held == h.held[..k] + h.held[k + 1..];
      HeldHasAfterRemove(visit, h.held, k, u);
    case None =>
      assert h'.held == h.held + [n];
      HeldHasAfterAdd(visit, h.held, n, u);
  }

  /** The walk over the first `n` flags of the visit order. */
  function Walk(visit: seq<Flag>, n: nat): (h: Hold)
    requires n <= |visit|
    ensures HeldBelow(h.held, n)
    decreases n
  {
    if n == 0 then Hold([], [], false) else Step(visit, n - 1, Walk(visit, n - 1))
  }

  /** The walk keeps its invariant throughout. */
  lemma {:induction false} WalkKeepsInvariant(visit: seq<Flag>, n: nat)
    requires n <= |visit|
    ensures WalkInvariant(visit, n, Walk(visit, n))
    decreases n
  {
    if n > 0 {
      WalkKeepsInvariant(visit, n - 1);
      StepPreserves(visit, n - 1, Walk(visit, n - 1));
    }
  }

  lemma {:induction false} PartitionStep(visit: seq<Flag>, n: nat, h: Hold)
    requires n < |visit| && HeldBelow(h.held, n)
    requires Partition(h.pairs, h.held, n)
    ensures Partition(Step(visit, n, h).pairs, Step(visit, n, h).held, n + 1)
  {
    var h' := Step(visit, n, h);
    match Lookup(visit, h.held, visit[n].usage)
    case Some(k) =>
      assert h'.pairs == h.pairs + [(h.held[k], n)] && h'.held == h.held[..k] + h.held[k + 1..];
      PartitionAfterMerge(h.pairs, h.held, n, k);
    case None =>
      assert h'.pairs == h.pairs && h'.held == h.held + [n];
      PartitionAfterHold(h.pairs, h.held, n);
  }

  /** Every visited position ends up in exactly one merged pair or in the hold. */
  lemma {:induction false} WalkPartition(visit: seq<Flag>, n: nat)
    requires n <= |visit|
    ensures Partition(Walk(visit, n).pairs, Walk(visit, n).held, n)
    decreases n
  {
    if n == 0 {
      assert Ends([]) + [] == Upto(0);
    } else {
      WalkPartition(visit, n - 1);
      PartitionStep(visit, n - 1, Walk(visit, n - 1));
    }
  }

  function MergedRow(held: Flag, current: Flag): Row {
    Row([held.name, current.name], current.usage, PrettyDefaultValue(current.defValue))
  }

  /** A merged row prints as "-held -current", with the current flag's usage text and default. */
  lemma MergedRowCells(held: Flag, current: Flag)
    ensures MergedRow(held, current).FlagCell() == "-" + held.name + " -" + current.name
    ensures MergedRow(held, current).TextCell() == current.usage + " (default: " + PrettyDefaultValue(current.defValue) + ")"
  {
    var names := [held.name, current.name];
    assert names[1..] == [current.name];
    assert Dashed(names) == "-" + held.name + " " + ("-" + current.name);
    assert " " + "-" == " -";
  }

  function SingleRow(f: Flag): Row {
    Row([f.name], f.usage, PrettyDefaultValue(f.defValue))
  }

  function MergedRows(visit: seq<Flag>, pairs: seq<(nat, nat)>): (rows: seq<Row>)
    requires forall m :: 0 <= m < |pairs| ==> pairs[m].1 < |visit| && pairs[m].0 < |visit|
    ensures |rows| == |pairs|
    ensures forall m :: 0 <= m < |pairs| ==> rows[m] == MergedRow(visit[pairs[m].0], visit[pairs[m].1])
  {
    seq(|pairs|, m requires 0 <= m < |pairs| => MergedRow(visit[pairs[m].0], visit[pairs[m].1]))
  }

  function HeldRows(visit: seq<Flag>, held: seq<nat>): (rows: seq<Row>)
    requires forall m :: 0 <= m < |held| ==> held[m] < |visit|
    ensures |rows| == |held|
    ensures forall m :: 0 <= m < |held| ==> rows[m] == SingleRow(visit[held[m]])
  {
    seq(|held|, m requires 0 <= m < |held| => SingleRow(visit[held[m]]))
  }

  /** The complete walk over the declared flags, in visit order. */
  function WalkAll(declared: seq<Flag>): (h: Hold)
    ensures |VisitOrder(declared)| == |declared|
    ensures WalkInvariant(VisitOrder(declared), |declared|, h)
  {
    var visit := VisitOrder(declared);
    assert |visit| == |multiset(visit)| == |multiset(declared)| == |declared|;
    WalkKeepsInvariant(visit, |declared|);
    Walk(visit, |declared|)
  }

  /**
    The flag rows of createCommandUsage (cmd.go:213-226) for the flags a command declares,
    with the `flags` boolean telling whether the walk saw any flag.
   */
  function VisitFlags(declared: seq<Flag>): (v: Visited)
    ensures v.sawFlag <==> |declared| > 0
    ensures 2 * |v.table.merged| + |v.table.leftover| == |declared|
  {
    var visit := VisitOrder(declared);
    var h := WalkAll(declared);
    var leftover := HeldRows(visit, h.held);
    assert |multiset(leftover)| == |leftover| == |h.held|;
    Visited(h.sawFlag, FlagTable(MergedRows(visit, h.pairs), multiset(leftover)))
  }

  // ---------------------------------------------------------------------------
  // Properties of the flags table
  // ---------------------------------------------------------------------------

  /** All spellings of `rows`, row after row. */
  function Spellings(rows: seq<Row>): seq<string> {
    FlatMap(SpellingsOf, rows)
  }

  function SpellingsOf(r: Row): seq<string> {
    r.spellings
  }

  /** The name of the flag at a position of the visit order, as a one-element list. */
  function NameAt(visit: seq<Flag>): nat -> seq<string> {
    (i: nat) => if i < |visit| then [visit[i].name] else []
  }

  function NameOf(f: Flag): seq<string> {
    [f.name]
  }

  lemma {:induction false} NamesAsFlatMap(fs: seq<Flag>)
    ensures FlatMap(NameOf, fs) == Names(fs)
    decreases |fs|
  {
    if |fs| > 0 {
      NamesAsFlatMap(fs[1..]);
      assert Names(fs) == [fs[0].name] + Names(fs[1..]);
    }
  }

  lemma MergedRowsLast(visit: seq<Flag>, pairs: seq<(nat, nat)>)
    requires |pairs| > 0
    requires forall m :: 0 <= m < |pairs| ==> pairs[m].1 < |visit| && pairs[m].0 < |visit|
    ensures MergedRows(visit, pairs)
         == MergedRows(visit, pairs[..|pairs| - 1]) + [MergedRow(visit[pairs[|pairs| - 1].0], visit[pairs[|pairs| - 1].1])]
  {
  }

  lemma SpellingsSnoc(rows: seq<Row>, row: Row)
    ensures Spellings(rows + [row]) == Spellings(rows) + row.spellings
  {
    FlatMapAppend(SpellingsOf, rows, [row]);
    FlatMapPair(SpellingsOf, row, row);
  }

  lemma NamesSnocPair(visit: seq<Flag>, e: seq<nat>, i: nat, j: nat)
    requires i < |visit| && j < |visit|
    ensures FlatMap<nat, string>(NameAt(visit), e + [i, j])
         == FlatMap<nat, string>(NameAt(visit), e) + [visit[i].name, visit[j].name]
  {
    FlatMapAppend<nat, string>(NameAt(visit), e, [i, j]);
    FlatMapPair<nat, string>(NameAt(visit), i, j);
  }

  lemma {:induction false} MergedSpellings(visit: seq<Flag>, pairs: seq<(nat, nat)>)
    requires forall m :: 0 <= m < |pairs| ==> pairs[m].1 < |visit| && pairs[m].0 < |visit|
    ensures Spellings(MergedRows(visit, pairs)) == FlatMap<nat, string>(NameAt(visit), Ends(pairs))
    decreases |pairs|
  {
    if |pairs| > 0 {
      var init := pairs[..|pairs| - 1];
      var p := pairs[|pairs| - 1];
      MergedSpellings(visit, init);
      MergedRowsLast(visit, pairs);
      SpellingsSnoc(MergedRows(visit, init), MergedRow(visit[p.0], visit[p.1]));
      NamesSnocPair(visit, Ends(init), p.0, p.1);
    }
  }

  lemma {:induction false} HeldSpellings(visit: seq<Flag>, held: seq<nat>)
    requires HeldBelow(held, |visit|)
    ensures Spellings(HeldRows(visit, held)) == FlatMap<nat, string>(NameAt(visit), held)
    decreases |held|
  {
    if |held| > 0 {
      HeldSpellings(visit, held[1..]);
      assert HeldRows(visit, held) == [SingleRow(visit[held[0]])] + HeldRows(visit, held[1..]);
    }
  }

  lemma {:induction false} UptoSpellsNames(visit: seq<Flag>, n: nat)
    requires n <= |visit|
    ensures FlatMap<nat, string>(NameAt(visit), Upto(n)) == Names(visit[..n])
    decreases n
  {
    if n > 0 {
      UptoSpellsNames(visit, n - 1);
      assert Upto(n) == Upto(n - 1) + [n - 1];
      assert Names(visit[..n]) == Names(visit[..n - 1]) + [visit[n - 1].name];
      calc {
        FlatMap<nat, string>(NameAt(visit), Upto(n));
        FlatMap<nat, string>(NameAt(visit), Upto(n - 1) + [n - 1]);
        { FlatMapAppend<nat, string>(NameAt(visit), Upto(n - 1), [n - 1]);
          FlatMapPair<nat, string>(NameAt(visit), n - 1, n - 1); }
        Names(visit[..n - 1]) + NameAt(visit)(n - 1);
      }
    }
  }

  /** Permuting flags permutes their names. */
  lemma {:induction false} NamesPermutation(fs: seq<Flag>, gs: seq<Flag>)
    requires multiset(fs) == multiset(gs)
    ensures multiset(Names(fs)) == multiset(Names(gs))
  {
    FlatMapPermutation(NameOf, fs, gs);
    NamesAsFlatMap(fs);
    NamesAsFlatMap(gs);
  }

  /** After the whole walk, merged and held rows together spell every visited name once. */
  lemma WalkSpellsNames(visit: seq<Flag>, h: Hold, leftoverOrder: seq<Row>)
    requires WalkInvariant(visit, |visit|, h)
    requires Partition(h.pairs, h.held, |visit|)
    requires multiset(leftoverOrder) == multiset(HeldRows(visit, h.held))
    ensures multiset(Spellings(MergedRows(visit, h.pairs)) + Spellings(leftoverOrder)) == multiset(Names(visit))
  {
    var held := HeldRows(visit, h.held);
    FlatMapPermutation(SpellingsOf, held, leftoverOrder);
    MergedSpellings(visit, h.pairs);
    HeldSpellings(visit, h.held);
    FlatMapAppend<nat, string>(NameAt(visit), Ends(h.pairs), h.held);
    FlatMapPermutation<nat, string>(NameAt(visit), Ends(h.pairs) + h.held, Upto(|visit|));
    UptoSpellsNames(visit, |visit|);
    assert visit[..|visit|] == visit;
  }

  /**
    Every declared flag name is spelled by the table exactly as often as it is declared:
    whatever order the leftover rows are printed in, the spellings of all rows are a
    permutation of the declared names.
   */
  lemma {:induction false} RowsSpellDeclaredNames(declared: seq<Flag>, leftoverOrder: seq<Row>)
    requires multiset(leftoverOrder) == VisitFlags(declared).table.leftover
    ensures multiset(Spellings(VisitFlags(declared).table.merged) + Spellings(leftoverOrder)) == multiset(Names(declared))
  {
    var visit := VisitOrder(declared);
    var h := WalkAll(declared);
    assert VisitFlags(declared).table == FlagTable(MergedRows(visit, h.pairs), multiset(HeldRows(visit, h.held)));
    WalkPartition(visit, |visit|);
    WalkSpellsNames(visit, h, leftoverOrder);
    NamesPermutation(visit, declared);
  }

  /** With distinct names (the flag package refuses redeclaration), each name is in exactly one row. */
  lemma {:induction false} EachFlagInExactlyOneRow(declared: seq<Flag>, leftoverOrder: seq<Row>, f: Flag)
    requires DistinctNames(declared)
    requires f in declared
    requires multiset(leftoverOrder) == VisitFlags(declared).table.leftover
    ensures multiset(Spellings(VisitFlags(declared).table.merged) + Spellings(leftoverOrder))[f.name] == 1
  {
    RowsSpellDeclaredNames(declared, leftoverOrder);
    var i :| 0 <= i < |declared| && declared[i] == f;
    DistinctCountsOnce(Names(declared), f.name);
  }

  /**
    Each merged row joins two flags with the same usage text: the one held (visited first,
    so its name sorts first) and the current one, whose default the row shows.
   */
  lemma MergedRowsAreAliasPairs(declared: seq<Flag>, m: nat)
    requires m < |VisitFlags(declared).table.merged|
    ensures exists a, b :: a in declared && b in declared && a.usage == b.usage && NameLe(a.name, b.name)
                           && VisitFlags(declared).table.merged[m] == MergedRow(a, b)
  {
    var visit := VisitOrder(declared);
    var h := WalkAll(declared);
    var (i, j) := h.pairs[m];
    assert visit[i] in multiset(declared) && visit[j] in multiset(declared);
    assert VisitFlags(declared).table.merged[m] == MergedRow(visit[i], visit[j]);
  }

  /** Merged rows come out in visit order: sorted by the name of their second flag. */
  lemma MergedRowsInVisitOrder(declared: seq<Flag>, m1: nat, m2: nat)
    requires m1 < m2 < |VisitFlags(declared).table.merged|
    ensures NameLe(VisitFlags(declared).table.merged[m1].spellings[1], VisitFlags(declared).table.merged[m2].spellings[1])
  {
    var visit := VisitOrder(declared);
    var h := WalkAll(declared);
    assert h.pairs[m1].1 < h.pairs[m2].1;
  }

  /** The leftover rows come from the map keyed by usage text: one row per usage, none repeated. */
  lemma LeftoverOnePerUsage(declared: seq<Flag>, r1: Row, r2: Row)
    requires r1 in VisitFlags(declared).table.leftover && r2 in VisitFlags(declared).table.leftover
    ensures r1.usage == r2.usage ==> r1 == r2
    ensures VisitFlags(declared).table.leftover[r1] == 1
  {
    var visit := VisitOrder(declared);
    var h := WalkAll(declared);
    var rows := HeldRows(visit, h.held);
    assert r1 in rows && r2 in rows;
    forall a, b | 0 <= a < b < |rows| ensures rows[a] != rows[b] {
      assert rows[a].usage == visit[h.held[a]].usage;
    }
    DistinctCountsOnce(rows, r1);
  }

  // ---------------------------------------------------------------------------
  // Two flags sharing a usage text are merged
  // ---------------------------------------------------------------------------

  /** The positions of the visit order whose flag has usage text `u`. */
  function Carriers(visit: seq<Flag>, u: string): set<nat> {
    set x: nat | x < |visit| && visit[x].usage == u
  }

  /** Whether an odd number of the first `n` visited flags have usage text `u`. */
  function OddUsage(visit: seq<Flag>, n: nat, u: string): bool
    requires n <= |visit|
  {
    if n == 0 then false else OddUsage(visit, n - 1, u) != (visit[n - 1].usage == u)
  }

  /** Some held flag carries usage text `u`. */
  predicate HeldHas(visit: seq<Flag>, held: seq<nat>, u: string)
    requires HeldBelow(held, |visit|)
  {
    Lookup(visit, held, u).Some?
  }

  lemma HeldHasAfterRemove(visit: seq<Flag>, held: seq<nat>, k: nat, u: string)
    requires k < |held| && HeldBelow(held, |visit|) && HeldUsagesDistinct(visit, held)
    ensures HeldBelow(held[..k] + held[k + 1..], |visit|)
    ensures HeldHas(visit, held[..k] + held[k + 1..], u) <==> HeldHas(visit, held, u) && visit[held[k]].usage != u
  {
    var held' := held[..k] + held[k + 1..];
    RemoveHeld(visit, held, k, |visit|);
    if Lookup(visit, held', u).Some? {
      var m := Lookup(visit, held', u).value;
      var m0 := if m < k then m else m + 1;
      assert held'[m] == held[m0];
    }
    if Lookup(visit, held, u).Some? && visit[held[k]].usage != u {
      var m := Lookup(visit, held, u).value;
      var m' := if m < k then m else m - 1;
      assert held'[m'] == held[m];
    }
  }

  lemma HeldHasAfterAdd(visit: seq<Flag>, held: seq<nat>, n: nat, u: string)
    requires n < |visit| && HeldBelow(held, |visit|)
    ensures HeldBelow(held + [n], |visit|)
    ensures HeldHas(visit, held + [n], u) <==> HeldHas(visit, held, u) || visit[n].usage == u
  {
    var held' := held + [n];
    if Lookup(visit, held', u).Some? {
      var m := Lookup(visit, held', u).value;
      if m < |held| { assert held'[m] == held[m]; }
    }
    if Lookup(visit, held, u).Some? {
      var m := Lookup(visit, held, u).value;
      assert held'[m] == held[m];
    }
    if visit[n].usage == u {
      assert held'[|held|] == n;
    }
  }

  lemma ParityStep(visit: seq<Flag>, n: nat, h: Hold, u: string)
    requires n < |visit| && WalkInvariant(visit, n, h)
    requires HeldHas(visit, h.held, u) <==> OddUsage(visit, n, u)
    ensures HeldBelow(Step(visit, n, h).held, |visit|)
    ensures HeldHas(visit, Step(visit, n, h).held, u) <==> OddUsage(visit, n + 1, u)
  {
    var h' := Step(visit, n, h);
    match Lookup(visit, h.held, visit[n].usage)
    case Some(k) =>
      assert h'.held == h.held[..k] + h.held[k + 1..];
      HeldHasAfterRemove(visit, h.held, k, u);
      if visit[n].usage == u {
        assert HeldHas(visit, h.held, u) by { assert Lookup(visit, h.held, u).Some?; }
      }
    case None =>
      assert h'.held == h.held + [n];
      HeldHasAfterAdd(visit, h.held, n, u);
  }

  /** A usage text is held exactly when an odd number of visited flags carry it. */
  lemma {:induction false} WalkParity(visit: seq<Flag>, n: nat, u: string)
    requires n <= |visit|
    ensures HeldBelow(Walk(visit, n).held, |visit|)
    ensures HeldHas(visit, Walk(visit, n).held, u) <==> OddUsage(visit, n, u)
    decreases n
  {
    if n > 0 {
      WalkParity(visit, n - 1, u);
      WalkKeepsInvariant(visit, n - 1);
      ParityStep(visit, n - 1, Walk(visit, n - 1), u);
    }
  }

  /** Merged pairs are only ever appended. */
  lemma {:induction false} WalkPairsGrow(visit: seq<Flag>, n: nat, n': nat)
    requires n <= n' <= |visit|
    ensures Walk(visit, n).pairs <= Walk(visit, n').pairs
    decreases n'
  {
    if n < n' {
      WalkPairsGrow(visit, n, n' - 1);
      PrefixTransitive(Walk(visit, n).pairs, Walk(visit, n' - 1).pairs, Walk(visit, n').pairs);
    }
  }

  /** When exactly positions `i` and `j` carry `u`, the parity counts those already visited. */
  lemma {:induction false} ParityTwo(visit: seq<Flag>, n: nat, u: string, i: nat, j: nat)
    requires n <= |visit| && i != j
    requires Carriers(visit, u) == {i, j}
    ensures OddUsage(visit, n, u) <==> (i < n) != (j < n)
    decreases n
  {
    if n > 0 {
      ParityTwo(visit, n - 1, u, i, j);
      assert n - 1 in Carriers(visit, u) <==> visit[n - 1].usage == u;
    }
  }

  lemma TwoPositions<T>(s: seq<T>, x: nat, y: nat)
    requires x < y < |s| && s[x] == s[y]
    ensures multiset(s)[s[x]] >= 2
  {
    assert s == s[..x] + [s[x]] + s[x + 1..];
    assert s[y] in s[x + 1..];
    assert multiset(s)[s[x]] == multiset(s[..x])[s[x]] + 1 + multiset(s[x + 1..])[s[x]];
  }

  /** A value occurring once in a sequence sits at only one position. */
  lemma OncePosition<T>(s: seq<T>, x: nat, y: nat)
    requires x < |s| && y < |s| && s[x] == s[y]
    requires multiset(s)[s[x]] == 1
    ensures x == y
  {
    if x < y {
      TwoPositions(s, x, y);
    } else if y < x {
      TwoPositions(s, y, x);
    }
  }

  /** A position of a value known to occur in a sequence. */
  lemma PositionOf<T>(s: seq<T>, x: T) returns (i: nat)
    requires x in multiset(s)
    ensures i < |s| && s[i] == x
  {
    assert x in s;
    i :| 0 <= i < |s| && s[i] == x;
  }

  /** When only `a` and `b`, each occurring once, carry `u`, their positions are the only carriers. */
  lemma OnlyCarriers(visit: seq<Flag>, a: Flag, b: Flag, i: nat, j: nat)
    requires i < |visit| && j < |visit| && visit[i] == a && visit[j] == b
    requires a.usage == b.usage
    requires multiset(visit)[a] == 1 && multiset(visit)[b] == 1
    requires forall c :: c in multiset(visit) && c.usage == a.usage ==> c == a || c == b
    ensures Carriers(visit, a.usage) == {i, j}
  {
    forall x | x in Carriers(visit, a.usage) ensures x == i || x == j {
      assert visit[x] in multiset(visit);
      if visit[x] == a { OncePosition(visit, x, i); } else { OncePosition(visit, x, j); }
    }
  }

  /** Distinct names make every declared flag occur once. */
  lemma DistinctFlagsOnce(declared: seq<Flag>, a: Flag)
    requires DistinctNames(declared) && a in declared
    ensures multiset(declared)[a] == 1
  {
    forall x, y | 0 <= x < y < |declared| ensures declared[x] != declared[y] { }
    DistinctCountsOnce(declared, a);
  }

  /** The positions in the visit order of two flags that alone carry their usage text. */
  lemma AliasPositions(declared: seq<Flag>, a: Flag, b: Flag) returns (i: nat, j: nat)
    requires DistinctNames(declared)
    requires a in declared && b in declared
    requires a.name != b.name && NameLe(a.name, b.name)
    requires a.usage == b.usage
    requires forall c :: c in declared && c.usage == a.usage ==> c == a || c == b
    ensures i < j < |VisitOrder(declared)|
    ensures VisitOrder(declared)[i] == a && VisitOrder(declared)[j] == b
    ensures Carriers(VisitOrder(declared), a.usage) == {i, j}
  {
    var visit := VisitOrder(declared);
    DistinctFlagsOnce(declared, a);
    DistinctFlagsOnce(declared, b);
    assert multiset(visit) == multiset(declared);
    i := PositionOf(visit, a);
    j := PositionOf(visit, b);
    if j < i {
      assert NameLe(b.name, a.name);
      NameLeAntisymmetric(a.name, b.name);
    }
    assert i != j;
    forall c: Flag | c in multiset(visit) && c.usage == a.usage ensures c == a || c == b {
      assert c in declared;
    }
    OnlyCarriers(visit, a, b, i, j);
  }

  /** When exactly positions `i < j` carry `u`, flag `j` merges with the held flag `i`. */
  lemma WalkMergesAt(visit: seq<Flag>, u: string, i: nat, j: nat)
    requires i < j < |visit|
    requires Carriers(visit, u) == {i, j}
    ensures Walk(visit, j + 1).pairs == Walk(visit, j).pairs + [(i, j)]
  {
    ParityTwo(visit, j, u, i, j);
    WalkParity(visit, j, u);
    var hj := Walk(visit, j);
    var k := Lookup(visit, hj.held, u).value;
    assert hj.held[k] < j;
    assert hj.held[k] in Carriers(visit, u);
    assert j in Carriers(visit, u);
    assert Walk(visit, j + 1) == Step(visit, j, hj);
    assert Step(visit, j, hj).pairs == hj.pairs + [(i, j)];
  }

  /** When exactly two positions carry `u`, nothing with `u` is held after the whole walk. */
  lemma WalkHoldsNone(visit: seq<Flag>, u: string, i: nat, j: nat)
    requires i < j < |visit|
    requires Carriers(visit, u) == {i, j}
    ensures forall m :: 0 <= m < |Walk(visit, |visit|).held| ==> visit[Walk(visit, |visit|).held[m]].usage != u
  {
    ParityTwo(visit, |visit|, u, i, j);
    WalkParity(visit, |visit|, u);
  }

  /** When exactly positions `i < j` carry `u`, the pair merged at `j` stays merged for the rest of the walk. */
  lemma {:induction false} WalkMergesPair(visit: seq<Flag>, u: string, i: nat, j: nat, n: nat)
    requires i < j < n <= |visit|
    requires Carriers(visit, u) == {i, j}
    ensures (i, j) in Walk(visit, n).pairs
    decreases n
  {
    if n == j + 1 {
      WalkMergesAt(visit, u, i, j);
      assert Walk(visit, n).pairs[|Walk(visit, j).pairs|] == (i, j);
    } else {
      WalkMergesPair(visit, u, i, j, n - 1);
      PrefixMember((i, j), Walk(visit, n - 1).pairs, Walk(visit, n).pairs);
    }
  }

  /**
    Two declared flags that are the only ones with their usage text are printed together on
    one merged row, the one whose name sorts first leading (the pirate/p pair of the greet
    example is such a pair), and no leftover row carries that usage text.
   */
  lemma {:induction false} AliasPairMerged(declared: seq<Flag>, a: Flag, b: Flag)
    requires DistinctNames(declared)
    requires a in declared && b in declared
    requires a.name != b.name && NameLe(a.name, b.name)
    requires a.usage == b.usage
    requires forall c :: c in declared && c.usage == a.usage ==> c == a || c == b
    ensures MergedRow(a, b) in VisitFlags(declared).table.merged
    ensures forall r :: r in VisitFlags(declared).table.leftover ==> r.usage != a.usage
  {
    var visit := VisitOrder(declared);
    var h := WalkAll(declared);
    var i, j := AliasPositions(declared, a, b);
    WalkMergesPair(visit, a.usage, i, j, |visit|);
    WalkHoldsNone(visit, a.usage, i, j);
    var m :| 0 <= m < |h.pairs| && h.pairs[m] == (i, j);
    assert VisitFlags(declared).table.merged[m] == MergedRow(a, b);
    forall r | r in VisitFlags(declared).table.leftover ensures r.usage != a.usage {
      var rows := HeldRows(visit, h.held);
      assert r in rows;
    }
  }
}
