/** The edits and the loader as they run: the verdict is the one of `add_rule` itself. */
module EditAndLoad {
  import opened Base
  import opened Text
  import opened Lines
  import opened Syntax
  import opened Printing
  import opened Loader
  import opened Edits
  import opened Taking
  import opened CpuSpecs
  import opened ConfigFiles
  import opened Guards
  import opened Normalizing
  import opened SinglesMoved
  import opened RuleEdits
  import opened Upserting
  import opened SafeEdits
  import opened DeletingPkg
  import opened Purging
  import opened RenameSteps
  import opened RuleMatch
  import opened Relabelling
  import opened RenamingPkg

  /** What `load_config` reads from a file on a machine with these cores. */
  function RulesOn(topo: CpuTopology, lines: seq<string>): seq<AffinityRule>
  {
    Loaded(TakesVerdict(topo), ClassifyAll(lines))
  }

  function FailsOn(topo: CpuTopology, lines: seq<string>): nat
  {
    FailCount(TakesVerdict(topo), ClassifyAll(lines))
  }

  /** A file the loader reads without failure, and a package the editor can print. */
  predicate Loads(topo: CpuTopology, lines: seq<string>, pkg: string)
  {
    FailsOn(topo, lines) == 0 && PkgSafe(pkg)
  }

  /** Such a file, with thread names that survive normalizing. */
  predicate Good(topo: CpuTopology, lines: seq<string>, pkg: string)
  {
    Loads(topo, lines, pkg) && SinglesSafe(ClassifyAll(lines), pkg)
  }

  lemma LoadsIsLoadable(topo: CpuTopology, lines: seq<string>, pkg: string)
    requires Loads(topo, lines, pkg)
    ensures Loadable(Accepts(topo), lines, pkg)
    ensures Good(topo, lines, pkg) ==> Editable(Accepts(topo), lines, pkg)
  {
    hide PkgSafe, SinglesSafe, Loaded, FailCount, Accepts, TakesVerdict, SpecVerdict;
    LoaderVerdict(topo, lines);
  }

  /** The file loads without failure, with the new rule in place of every rule for the same
      package and thread, and the other packages' rules in their order. */
  predicate ReadsBack(topo: CpuTopology, lines: seq<string>, out: seq<string>, r: AffinityRule)
  {
    && FailsOn(topo, out) == 0
    && multiset(RulesOn(topo, out)) == multiset(Without(RulesOn(topo, lines), r.pkg, r.thread)) + multiset{r}
    && Others(RulesOn(topo, out), r.pkg) == Others(RulesOn(topo, lines), r.pkg)
  }

  /** A thread rule that `add_rule` takes, put into a file and loaded again: it is the one
      rule of its thread, every other rule is as before, and none of the package stands on a
      line of its own, exactly when the names of its single-line rules can be printed, no
      opening brace falls into a comment, and the thread's last line takes the CPUs. The
      loader reports only the brace. */
  lemma UpsertLoads(topo: CpuTopology, lines: seq<string>, pkg: string, thread: string, cpus: string)
    requires Loads(topo, lines, pkg) && EntrySafe(thread)
    requires thread != "" && Trimmed(cpus) && Takes(topo, pkg, thread, cpus)
    ensures var e, r := Upserted(lines, pkg, thread, cpus), AffinityRule(pkg, thread, cpus);
            && (Good(topo, lines, pkg) ==> e.answer == Ok && (FailsOn(topo, e.lines) == 0 <==> !BraceInComment(lines, pkg)))
            && (ReadsBack(topo, lines, e.lines, r) && !HasSingles(e.lines, pkg) <==>
                  Good(topo, lines, pkg) && !BraceInComment(lines, pkg) && !CpusStay(lines, pkg, thread, cpus))
  {
    LoadsIsLoadable(topo, lines, pkg);
    assert Accepts(topo)(pkg, thread, cpus);
    hide EntrySafe, Takes, Trimmed, Upserted, BraceInComment, CpusStay, WrittenCpus, Normalized, Accepts, TakesVerdict, Loaded,
         FailCount, Without, Others, Editable, Loadable, SinglesSafe, HasSingles, PkgSafe;
    UpsertIff(Accepts(topo), lines, pkg, thread, cpus);
    if Good(topo, lines, pkg) {
      UpsertReadsBack(Accepts(topo), lines, pkg, thread, cpus);
    }
    LoaderVerdict(topo, lines);
    LoaderVerdict(topo, Upserted(lines, pkg, thread, cpus).lines);
  }

  /** A package taken out of a file: what is loaded again are the rules of the others, in
      their order, and each package line left behind is one failure. Without a failure the
      file loads exactly when normalizing does not break it and no line is left behind. */
  lemma DeletePkgLoads(topo: CpuTopology, lines: seq<string>, pkg: string)
    requires Good(topo, lines, pkg)
    ensures var e, breaks := DeletedPkg(lines, pkg), NormalizingBreaks(lines, pkg);
            var left := Unpaired(Events(START, ClassifyAll(Normalized(lines, pkg)), pkg), 0);
            && (FailsOn(topo, e.lines) == 0 <==> !breaks && left == 0)
            && (!breaks ==> RulesOn(topo, e.lines) == Others(RulesOn(topo, lines), pkg) && FailsOn(topo, e.lines) == left)
  {
    LoadsIsLoadable(topo, lines, pkg);
    hide Good, DeletedPkg, NormalizingBreaks, Accepts, TakesVerdict, Loaded, FailCount, Others, Events, Unpaired, Normalized, Editable;
    DeletePkg(Accepts(topo), lines, pkg);
    LoaderVerdict(topo, lines);
    LoaderVerdict(topo, DeletedPkg(lines, pkg).lines);
  }

  /** The same rules load, under the new name, every line that named the old package names
      the new one, and none of its rules stands on a line of its own. */
  predicate RenamedOn(topo: CpuTopology, lines: seq<string>, out: seq<string>, was: string, name: string)
  {
    && FailsOn(topo, out) == 0 && !HasSingles(out, name)
    && multiset(RulesOn(topo, out)) == multiset(Relabel(RulesOn(topo, lines), was, name))
    && Naming(out, was) == 0 && Naming(out, name) == Naming(Normalized(lines, was), was)
  }

  /** A package renamed to a name `add_rule` takes, where there is something to rename and the
      edit returns: the rules load under the new name exactly when the names of the
      package's single-line rules can be printed, normalizing does not break the file, and
      the new name fits every header of the package. */
  lemma RenameLoads(topo: CpuTopology, lines: seq<string>, was: string, name: string)
    requires Loads(topo, lines, was)
    requires PkgSafe(name) && NamesOk(name, "") && was != name && ToRename(lines, was, name) && RenameEnds(lines, was, name)
    ensures RenamedOn(topo, lines, Renamed(lines, was, name).lines, was, name) <==>
              && SinglesSafe(ClassifyAll(lines), was) && !NormalizingBreaks(lines, was)
              && AllFit(Normalized(lines, was), was, name)
  {
    LoadsIsLoadable(topo, lines, was);
    assert was != "";
    hide NormalizingBreaks, Accepts, TakesVerdict, Loaded, FailCount, Normalized, Loadable, SinglesSafe, HasSingles;
    hide PkgSafe, NamesOk, AllFit, Compatible, Renamed, RenameEnds, ToRename, Naming, Relabel, Rounds;
    CompatibleNames(topo, was, name);
    RenameIff(Accepts(topo), lines, was, name);
    LoaderVerdict(topo, lines);
    LoaderVerdict(topo, Renamed(lines, was, name).lines);
  }

  // ----- what threads get after an upsert

  /** The configuration a file gives on a machine. */
  function ConfigOn(m: Machine, fits: (string, string) -> bool, lines: seq<string>): AppConfig
  {
    ConfigOf(m, fits, TakesVerdict(m.topo), ClassifyAll(lines))
  }

  /** An upsert that reads back gives the threads of its package what the old rules with the
      new one in place give them, and changes nothing for any other package. */
  lemma UpsertGives(m: Machine, fits: (string, string) -> bool, lines: seq<string>, pkg: string, thread: string,
                    cpus: string, other: string, name: string)
    requires Good(m.topo, lines, pkg) && EntrySafe(thread)
    requires thread != "" && Trimmed(cpus) && Takes(m.topo, pkg, thread, cpus)
    requires !BraceInComment(lines, pkg) && !CpusStay(lines, pkg, thread, cpus)
    ensures var now, r := ConfigOn(m, fits, Upserted(lines, pkg, thread, cpus).lines), AffinityRule(pkg, thread, cpus);
            && Affinity(now, pkg, name) ==
                 Affinity(AppConfig(KeptAll(m, Without(RulesOn(m.topo, lines), pkg, thread) + [r]), m, fits), pkg, name)
            && (other != pkg ==> Affinity(now, other, name) == Affinity(ConfigOn(m, fits, lines), other, name))
  {
    hide PkgSafe, SinglesSafe, HasSingles, EntrySafe, Takes, Trimmed, Upserted, BraceInComment, CpusStay, Affinity, Loaded, FailCount, Without, Others,
         KeptAll, Classify, ClassifyAll;
    UpsertLoads(m.topo, lines, pkg, thread, cpus);
    var ok, out, r := TakesVerdict(m.topo), Upserted(lines, pkg, thread, cpus).lines, AffinityRule(pkg, thread, cpus);
    UpsertedAffinity(m, fits, ok, ClassifyAll(lines), ClassifyAll(out), r, name);
    if other != pkg {
      OtherPackagesUnmoved(m, fits, ok, ClassifyAll(lines), ClassifyAll(out), pkg, other, name);
    }
  }
}
