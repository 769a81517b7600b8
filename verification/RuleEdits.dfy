/** The four edits of the configuration file, as functions on its lines. */
module RuleEdits {
  import opened Base
  import opened Text
  import opened Lines
  import opened Syntax
  import opened Printing
  import opened Swapping
  import opened Taking
  import opened Loader
  import opened Purging
  import opened Renaming
  import opened Stripping
  import opened Normalizing
  import S = Scanner

  datatype RuleEdit = Ok | NotFound | Conflict | Malformed

  /** What an edit answers, and the file it leaves. */
  datatype Edited = Edited(answer: RuleEdit, lines: seq<string>)

  function Swapped(lines: seq<string>, i: nat, cpus: string): seq<string>
  {
    if i < |lines| then lines[i := SpecSwap(lines[i], cpus)] else lines
  }

  // ----- rule_upsert

  function UpsertedRule(lines: seq<string>, pkg: string, cpus: string): Option<seq<string>>
  {
    var t := S.Scan(ClassifyAll(lines), pkg);
    match t.pkgLine
    case Some(Standalone(i)) => Some(Swapped(lines, i, cpus))
    case Some(OpenInline(i)) => Some(Swapped(lines, i, cpus))
    case Some(OpenBare(i)) => Some(lines[i := WithComment(HeaderText(pkg, cpus, true), lines[i])])
    case Some(BarePending(i)) =>
      var given := lines[i := WithComment(HeaderText(pkg, cpus, true), lines[i])];
      if t.blockOpen.Some? && ParseOuter(Trim(given[t.blockOpen.value])) == BareOpen("")
      then Some(given[..t.blockOpen.value] + given[t.blockOpen.value + 1..])
      else Some(given)
    case None =>
      if t.unterminated then None else Some(lines + [HeaderText(pkg, cpus, false)])
  }

  function UpsertedThread(lines: seq<string>, pkg: string, thread: string, cpus: string): Option<seq<string>>
  {
    var t := S.Scan(ClassifyAll(lines), pkg);
    var locs := ThreadLocs(t.hits, thread);
    if locs != [] then
      var n := |locs| - 1;
      Some(Stripped(Swapped(lines, locs[n].idx, cpus), pkg, locs[..n], 0))
    else if t.blockClose.None? && !(t.pkgLine.Some? && t.pkgLine.value.Standalone?) && t.unterminated then None
    else Some(PutBack(lines, pkg, |lines|, [EntryText(thread, cpus)]))
  }

  function Upserted(lines: seq<string>, pkg: string, thread: string, cpus: string): Edited
  {
    var moved := Normalized(lines, pkg);
    match if thread == "" then UpsertedRule(moved, pkg, cpus) else UpsertedThread(moved, pkg, thread, cpus)
    case Some(out) => Edited(Ok, out)
    case None => Edited(Malformed, lines)
  }

  // ----- rule_delete

  function DeletedRule(lines: seq<string>, pkg: string): Option<seq<string>>
  {
    match S.Scan(ClassifyAll(lines), pkg).pkgLine
    case Some(Standalone(i)) => Some(lines[..i] + lines[i + 1..])
    case Some(OpenInline(i)) => Some(lines[i := BareOpenLine(pkg)])
    case _ => None
  }

  function DeletedThread(lines: seq<string>, pkg: string, thread: string): Option<seq<string>>
  {
    var locs := ThreadLocs(S.Scan(ClassifyAll(lines), pkg).hits, thread);
    if locs == [] then None else Some(Stripped(lines, pkg, locs, 0))
  }

  function Deleted(lines: seq<string>, pkg: string, thread: string): Edited
  {
    var moved := Normalized(lines, pkg);
    match if thread == "" then DeletedRule(moved, pkg) else DeletedThread(moved, pkg, thread)
    case Some(out) => Edited(Ok, out)
    case None => Edited(NotFound, lines)
  }

  // ----- rule_delete_pkg

  predicate AnyLine(t: S.Target)
  {
    t.pkgLine.Some? || SinglesOf(t.hits) != []
  }

  /** The last line recorded in a block. */
  function LastInBlock(hits: seq<S.Hit>): Option<nat>
  {
    if hits == [] then None
    else if !hits[|hits| - 1].loc.single then Some(hits[|hits| - 1].loc.idx)
    else LastInBlock(hits[..|hits| - 1])
  }

  function BlockEnd(t: S.Target, open: nat): nat
  {
    if t.blockClose.Some? then t.blockClose.value
    else
      match LastInBlock(t.hits)
      case Some(i) => i
      case None => open
  }

  /** One round of `rule_delete_pkg` removes line i. */
  predicate Doomed(t: S.Target, i: nat)
  {
    || (t.pkgLine.Some? && i == t.pkgLine.value.idx)
    || (t.blockOpen.Some? && t.blockOpen.value <= i <= BlockEnd(t, t.blockOpen.value))
    || exists l :: l in SinglesOf(t.hits) && l.idx == i
  }

  /** The first n lines without the doomed ones. */
  function Dropped<T>(lines: seq<T>, t: S.Target, n: nat): seq<T>
    requires n <= |lines|
  {
    if n == 0 then []
    else Dropped(lines, t, n - 1) + (if Doomed(t, n - 1) then [] else [lines[n - 1]])
  }

  function RoundOf(lines: seq<string>, pkg: string): seq<string>
  {
    Dropped(lines, S.Scan(ClassifyAll(lines), pkg), |lines|)
  }

  function Purged(lines: seq<string>, pkg: string): seq<string>
    decreases |lines|
  {
    if !AnyLine(S.Scan(ClassifyAll(lines), pkg)) then lines
    else
      var rest := RoundOf(lines, pkg);
      if |rest| < |lines| then Purged(rest, pkg) else rest
  }

  function DeletedPkg(lines: seq<string>, pkg: string): Edited
  {
    var moved := Normalized(lines, pkg);
    if AnyLine(S.Scan(ClassifyAll(moved), pkg)) then Edited(Ok, Purged(moved, pkg)) else Edited(NotFound, lines)
  }

  // ----- rule_rename

  /** One round of `rule_rename` rewrites line i. */
  predicate Marked(t: S.Target, i: nat)
  {
    || (t.pkgLine.Some? && i == t.pkgLine.value.idx)
    || exists l :: l in SinglesOf(t.hits) && l.idx == i
  }

  function RenameRound(lines: seq<string>, was: string, name: string): (out: seq<string>)
    ensures |out| == |lines|
  {
    var t := S.Scan(ClassifyAll(lines), was);
    seq(|lines|, i requires 0 <= i < |lines| => if Marked(t, i) then RenamedLine(lines[i], was, name) else lines[i])
  }

  /** The file after k rounds. */
  function Rounds(lines: seq<string>, was: string, name: string, k: nat): seq<string>
    decreases k
  {
    if k == 0 then lines else Rounds(RenameRound(lines, was, name), was, name, k - 1)
  }

  /** The rounds a line can take part in before it no longer names the old package, unless
      it names it for ever. */
  function LineWeight(raw: string, was: string, name: string): nat
  {
    var c := Classify(raw);
    if !c.Text? || OuterPkg(c.outer) != was then 0 else if NameTrap(raw, was, name) then 2 else 1
  }

  function Weight(lines: seq<string>, was: string, name: string, n: nat): nat
    requires n <= |lines|
  {
    if n == 0 then 0 else Weight(lines, was, name, n - 1) + LineWeight(lines[n - 1], was, name)
  }

  function WeightOf(lines: seq<string>, was: string, name: string): nat
  {
    Weight(lines, was, name, |lines|)
  }

  /** How many lines still name the package, as the loader reads them. */
  function Naming(lines: seq<string>, pkg: string): nat
  {
    |Events(START, ClassifyAll(lines), pkg)|
  }

  /** All rounds: if they end at all, they end within the weight of the file. */
  function RenamedAll(lines: seq<string>, was: string, name: string): seq<string>
  {
    Rounds(lines, was, name, WeightOf(lines, was, name))
  }

  /** The rounds end. */
  predicate RoundsStop(lines: seq<string>, was: string, name: string)
  {
    !AnyLine(S.Scan(ClassifyAll(RenamedAll(lines, was, name)), was))
  }

  /** The old name is in use and the new one is not. */
  predicate ToRename(lines: seq<string>, was: string, name: string)
  {
    var moved := Normalized(lines, was);
    AnyLine(S.Scan(ClassifyAll(moved), was)) && !AnyLine(S.Scan(ClassifyAll(moved), name))
  }

  /** The edit returns: nothing is to be renamed, or the rounds end. */
  predicate RenameEnds(lines: seq<string>, was: string, name: string)
  {
    ToRename(lines, was, name) ==> RoundsStop(Normalized(lines, was), was, name)
  }

  function Renamed(lines: seq<string>, was: string, name: string): Edited
    requires RenameEnds(lines, was, name)
  {
    var moved := Normalized(lines, was);
    if !AnyLine(S.Scan(ClassifyAll(moved), was)) then Edited(NotFound, lines)
    else if AnyLine(S.Scan(ClassifyAll(moved), name)) then Edited(Conflict, lines)
    else Edited(Ok, RenamedAll(moved, was, name))
  }
}
