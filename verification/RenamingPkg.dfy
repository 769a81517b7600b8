/** `rule_rename`: a package and its rules under another name, and back. */
module RenamingPkg {
  import opened Base
  import opened Text
  import opened Lines
  import opened Syntax
  import opened Printing
  import opened Loader
  import opened Edits
  import opened Tracking
  import opened Taking
  import opened Stripping
  import opened Renaming
  import opened RenamedLines
  import opened Normalizing
  import opened EntryNames
  import opened SinglesMoved
  import opened RuleEdits
  import opened Upserting
  import opened Deleting
  import opened Purging
  import opened BrokenOpens
  import opened DamagedRounds
  import opened RenameRounds
  import opened RenameSteps
  import opened Misfits
  import opened DeletingPkg
  import opened Relabelling
  import S = Scanner

  // ----- what the editor and the loader see of a package

  /** The editor sees the package on some line exactly when the file has an event for it. */
  lemma AnyLineIsEvent(ok: Verdict, cs: seq<Line>, pkg: string)
    requires Clean(ok, cs) && pkg != "" && forall k | 0 <= k < |cs| :: Named(cs[k])
    ensures AnyLine(S.Scan(cs, pkg)) <==> Events(START, cs, pkg) != []
  {
    hide Clean, Named, EventAt, Events, S.HeaderAt, S.HeaderTo, S.HitsTo, S.OpenTo, S.CloseTo, SinglesOf;
    CleanEnd(ok, cs);
    var v := S.FirstHeader(cs, pkg, |cs|);
    var rs := SinglesFound(ok, cs, pkg);
    SinglesSeen(ok, cs, pkg, SinglesOf(S.Scan(cs, pkg).hits), rs);
    EventsAnywhere(cs, pkg, |cs|);
    assert cs[..|cs|] == cs;
    forall k | 0 <= k < |cs|
      ensures EventAt(cs, pkg, k) != [] <==> S.HeaderAt(cs, pkg, k).Some? || SingleAt(cs, pkg, k)
    {
      HeaderIsEvent(ok, cs, pkg, k);
      LoneIsSingle(cs, pkg, k);
    }
  }

  lemma LoneIsSingle(cs: seq<Line>, pkg: string, k: nat)
    requires k < |cs|
    ensures EventAt(cs, pkg, k) == [Lone] <==> SingleAt(cs, pkg, k)
    ensures EventAt(cs, pkg, k) == [Lone] ==> EventAt(cs, pkg, k) != []
  {
    var e := EventAt(cs, pkg, k);
    if e != [] {
      assert |e| == 1;
      assert e == [Lone] <==> e[0] == Lone;
    }
  }

  lemma {:induction false} EventsAnywhere(cs: seq<Line>, pkg: string, n: nat)
    requires n <= |cs|
    ensures Events(START, cs[..n], pkg) != [] <==> exists k :: 0 <= k < n && EventAt(cs, pkg, k) != []
  {
    hide EventAt, Events;
    StartAt(cs);
    if n > 0 {
      EventsAnywhere(cs, pkg, n - 1);
      EventsNext(cs, pkg, 0, n - 1);
      assert cs[0..n] == cs[..n] && cs[0..n - 1] == cs[..n - 1];
    } else {
      NoEvents(START, pkg);
    }
  }

  lemma AllNamed(lines: seq<string>)
    ensures forall k | 0 <= k < |lines| :: Named(ClassifyAll(lines)[k])
  {
    hide Classify;
    forall k | 0 <= k < |lines| ensures Named(ClassifyAll(lines)[k]) {
      assert ClassifyAll(lines)[k] == Classify(lines[k]);
    }
  }

  // ----- the whole edit

  lemma RelabelHead(rs: seq<AffinityRule>, was: string, name: string, r: AffinityRule)
    requires rs != []
    ensures var h := if rs[0].pkg == was then rs[0].(pkg := name) else rs[0];
            multiset(Relabel(rs, was, name))[r] == multiset(Relabel(rs[1..], was, name))[r] + (if h == r then 1 else 0)
    ensures forall q :: multiset(rs)[q] == multiset(rs[1..])[q] + (if rs[0] == q then 1 else 0)
  {
    assert rs == [rs[0]] + rs[1..];
  }

  lemma {:induction false} RelabelCounts(rs: seq<AffinityRule>, was: string, name: string, r: AffinityRule)
    requires was != name
    ensures multiset(Relabel(rs, was, name))[r] ==
              if r.pkg == was then 0
              else multiset(rs)[r] + if r.pkg == name then multiset(rs)[r.(pkg := was)] else 0
  {
    if rs != [] {
      RelabelCounts(rs[1..], was, name, r);
      RelabelHead(rs, was, name, r);
      hide Relabel;
    }
  }

  lemma SameRelabel(a: seq<AffinityRule>, b: seq<AffinityRule>, was: string, name: string)
    requires multiset(a) == multiset(b) && was != name
    ensures multiset(Relabel(a, was, name)) == multiset(Relabel(b, was, name))
  {
    hide Relabel;
    forall r ensures multiset(Relabel(a, was, name))[r] == multiset(Relabel(b, was, name))[r] {
      RelabelCounts(a, was, name, r);
      RelabelCounts(b, was, name, r);
    }
  }

  /** What a rename asks of its names: the rules of the old one are acceptable under the
      new one. */
  ghost predicate NamesTake(ok: Verdict, was: string, name: string)
  {
    PkgSafe(name) && was != name && Compatible(ok, was, name)
  }

  /** The rules have the new name, in their order, and every line that named the old
      package names the new one. */
  predicate Relabelled(ok: Verdict, lines: seq<string>, out: seq<string>, was: string, name: string)
  {
    && Clean(ok, ClassifyAll(out)) && Loaded(ok, ClassifyAll(out)) == Relabel(Loaded(ok, ClassifyAll(lines)), was, name)
    && Naming(out, was) == 0 && Naming(out, name) == Naming(lines, was)
  }

  lemma NormalizedClean(ok: Verdict, lines: seq<string>, was: string)
    requires Editable(ok, lines, was) && !NormalizingBreaks(lines, was)
    ensures var moved := Normalized(lines, was);
            Clean(ok, ClassifyAll(moved)) && NoLone(ClassifyAll(moved), was) && SameRules(ok, lines, moved, was)
  {
    hide Classify, Clean, PkgSafe, SinglesSafe, Normalized, HasSingles, BraceInComment, CpuText, SameRules, NoTraps;
    NormalizedSettled(ok, lines, was);
    SettledNoLone(ok, Normalized(lines, was), was);
  }

  /** What the two questions of the edit mean. */
  lemma NamesSeen(ok: Verdict, lines: seq<string>, was: string, name: string)
    requires Clean(ok, ClassifyAll(lines)) && was != "" && name != ""
    ensures AnyLine(S.Scan(ClassifyAll(lines), was)) <==> Naming(lines, was) > 0
    ensures AnyLine(S.Scan(ClassifyAll(lines), name)) <==> Naming(lines, name) > 0
  {
    hide Classify, Clean, AnyLine, Events;
    AllNamed(lines);
    AnyLineIsEvent(ok, ClassifyAll(lines), was);
    AnyLineIsEvent(ok, ClassifyAll(lines), name);
  }

  /** On a clean file without single-line rules: exactly the names that fit every header
      give a relabelled file. */
  lemma FitsIff(ok: Verdict, lines: seq<string>, was: string, name: string)
    requires Clean(ok, ClassifyAll(lines)) && NoLone(ClassifyAll(lines), was) && PkgSafe(was) && NamesTake(ok, was, name)
    requires RoundsStop(lines, was, name) && Naming(lines, name) == 0
    ensures Relabelled(ok, lines, RenamedAll(lines, was, name), was, name) <==> AllFit(lines, was, name)
  {
    hide Classify, Clean, NoLone, PkgSafe, AllFit, AnyLine, S.Scan, RoundsStop, RenamedAll, Loaded, Naming, Compatible, Relabel;
    var out := RenamedAll(lines, was, name);
    SafeName(was);
    SafeName(name);
    if AllFit(lines, was, name) {
      RenamedAllMeaning(ok, lines, was, name);
      NamesSeen(ok, out, was, name);
    } else if Relabelled(ok, lines, out, was, name) {
      CleanAnyway(ok, lines);
      CleanAnyway(ok, out);
      CountRounds(lines, was, name);
    }
  }

  /** `rule_rename` of a package, where it returns: it answers "not found" when no line names
      the old package and "conflict" when a line names the new one. Otherwise the file is
      exactly relabelled if and only if the new name fits every header of the package. On a
      file that normalizing breaks, the stray brace stays, however many rounds run. */
  lemma RenameRelabels(ok: Verdict, lines: seq<string>, was: string, name: string)
    requires Editable(ok, lines, was) && NamesTake(ok, was, name) && RenameEnds(lines, was, name)
    ensures var e, moved := Renamed(lines, was, name), Normalized(lines, was);
            && (e.answer != Ok ==> e.lines == lines && e.answer != Malformed)
            && (NormalizingBreaks(lines, was) ==>
                  && e.answer != NotFound && (e.answer == Ok ==> !Clean(ok, ClassifyAll(e.lines)))
                  && forall k: nat :: !Clean(ok, ClassifyAll(Rounds(moved, was, name, k))))
            && (!NormalizingBreaks(lines, was) ==>
                  && (e.answer == NotFound <==> Naming(moved, was) == 0)
                  && (e.answer == Conflict <==> Naming(moved, was) > 0 && Naming(moved, name) > 0)
                  && (e.answer == Ok ==> (Relabelled(ok, moved, e.lines, was, name) <==> AllFit(moved, was, name)))
                  && (e.answer == Ok && AllFit(moved, was, name) ==>
                        && Naming(e.lines, name) > 0
                        && multiset(Loaded(ok, ClassifyAll(e.lines))) ==
                             multiset(Relabel(Loaded(ok, ClassifyAll(lines)), was, name))))
  {
    hide Classify, Clean, PkgSafe, SinglesSafe, Normalized, HasSingles, BraceInComment, AnyLine, AllFit, Loaded, Relabel,
         RoundsStop, WeightOf, Naming, SpecVerdict, Compatible, Damaged, BrokenOpen, Rounds, S.Scan, SameRules;
    var moved := Normalized(lines, was);
    if NormalizingBreaks(lines, was) {
      var h, j := NormalizedBreaks(ok, lines, was);
      BrokenIsDamaged(moved, was, h, j);
      forall k: nat ensures !Clean(ok, ClassifyAll(Rounds(moved, was, name, k))) {
        RoundsDamaged(moved, was, name, h, j, k);
        DamagedFails(ok, ClassifyAll(Rounds(moved, was, name, k)), was, h, j);
      }
    } else {
      NormalizedClean(ok, lines, was);
      SafeName(was);
      SafeName(name);
      NamesSeen(ok, moved, was, name);
      if ToRename(lines, was, name) {
        FitsIff(ok, moved, was, name);
        SameMultiset(ok, lines, moved, was);
        SameRelabel(Loaded(ok, ClassifyAll(lines)), Loaded(ok, ClassifyAll(moved)), was, name);
      }
    }
  }

  lemma FreshName(ok: Verdict, lines: seq<string>, name: string)
    requires Clean(ok, ClassifyAll(lines)) && name != "" && Naming(lines, name) == 0
    ensures NoLone(ClassifyAll(lines), name) && forall r | r in Loaded(ok, ClassifyAll(lines)) :: r.pkg != name
  {
    hide Classify, Clean;
    LoneIs(ClassifyAll(lines), name);
    NoEventsNoRules(ok, START, ClassifyAll(lines), name);
  }

  /** The rules of `lines` have the new name, every line that named the old package names the
      new one, and none of its rules stands on a line of its own. */
  ghost predicate RelabelledClean(ok: Verdict, lines: seq<string>, out: seq<string>, was: string, name: string)
  {
    && Clean(ok, ClassifyAll(out)) && !HasSingles(out, name)
    && multiset(Loaded(ok, ClassifyAll(out))) == multiset(Relabel(Loaded(ok, ClassifyAll(lines)), was, name))
    && Naming(out, was) == 0 && Naming(out, name) == Naming(Normalized(lines, was), was)
  }

  lemma {:induction false} InRelabel(rs: seq<AffinityRule>, was: string, name: string, r: AffinityRule)
    requires r in rs && r.pkg == was
    ensures r.(pkg := name) in Relabel(rs, was, name)
  {
    if r != rs[0] {
      assert r in rs[1..];
      InRelabel(rs[1..], was, name, r);
    }
  }

  lemma RelabelledSafe(ok: Verdict, lines: seq<string>, out: seq<string>, was: string, name: string)
    requires Clean(ok, ClassifyAll(lines)) && RelabelledClean(ok, lines, out, was, name)
    ensures SinglesSafe(ClassifyAll(lines), was)
  {
    hide Classify, Clean, Loaded, EntrySafe, HasSingles, Relabel, Naming, Normalized;
    var cs := ClassifyAll(lines);
    HasSinglesIs(out, name);
    forall k | 0 <= k < |cs| && SingleAt(cs, was, k) ensures EntrySafe(cs[k].outer.thread) {
      var r := AffinityRule(was, cs[k].outer.thread, cs[k].outer.cpus);
      SingleLoaded(ok, lines, k);
      InRelabel(Loaded(ok, cs), was, name, r);
      assert r.(pkg := name) in multiset(Relabel(Loaded(ok, cs), was, name));
      assert r.(pkg := name) in multiset(Loaded(ok, ClassifyAll(out)));
      BlockNamesSafe(ok, out, name, r.(pkg := name));
    }
  }

  /** A rename of any file the loader takes, where it returns and answers "ok": the result is
      relabelled exactly when the names of the package's single-line rules can be printed,
      normalizing does not break the file, and the new name fits every header. */
  lemma RenameIff(ok: Verdict, lines: seq<string>, was: string, name: string)
    requires Loadable(ok, lines, was) && NamesTake(ok, was, name) && ToRename(lines, was, name) && RenameEnds(lines, was, name)
    ensures RelabelledClean(ok, lines, Renamed(lines, was, name).lines, was, name) <==>
              && SinglesSafe(ClassifyAll(lines), was) && !NormalizingBreaks(lines, was)
              && AllFit(Normalized(lines, was), was, name)
  {
    hide Classify, Clean, PkgSafe, SinglesSafe, Normalized, HasSingles, BraceInComment, AnyLine, AllFit, Loaded, Relabel,
         RoundsStop, Naming, SpecVerdict, Compatible, S.Scan, SameRules, RenamedAll, Asks;
    var moved := Normalized(lines, was);
    var out := Renamed(lines, was, name).lines;
    assert out == RenamedAll(moved, was, name);
    if RelabelledClean(ok, lines, out, was, name) {
      RelabelledSafe(ok, lines, out, was, name);
      RenameRelabels(ok, lines, was, name);
      SameCount(ok, lines, out, was, name);
    } else if SinglesSafe(ClassifyAll(lines), was) && !NormalizingBreaks(lines, was) && AllFit(moved, was, name) {
      RenameRelabels(ok, lines, was, name);
      NoSinglesNow(ok, lines, was, name);
    }
  }

  lemma NoSinglesNow(ok: Verdict, lines: seq<string>, was: string, name: string)
    requires Editable(ok, lines, was) && !NormalizingBreaks(lines, was) && NamesTake(ok, was, name) && ToRename(lines, was, name)
    requires AllFit(Normalized(lines, was), was, name)
    ensures !HasSingles(RenamedAll(Normalized(lines, was), was, name), name)
  {
    hide Classify, Clean, PkgSafe, SinglesSafe, Normalized, BraceInComment, AnyLine, AllFit, Loaded, Relabel, NormalizingBreaks,
         RoundsStop, Naming, SpecVerdict, Compatible, S.Scan, SameRules, RenamedAll, NoLone, EventAt;
    var moved := Normalized(lines, was);
    NormalizedClean(ok, lines, was);
    SafeName(was);
    SafeName(name);
    NamesSeen(ok, moved, was, name);
    FreshName(ok, moved, name);
    RenamedAllMeaning(ok, moved, was, name);
    LoneFree(RenamedAll(moved, was, name), name);
  }

  lemma LoneFree(lines: seq<string>, pkg: string)
    requires NoLone(ClassifyAll(lines), pkg)
    ensures !HasSingles(lines, pkg)
  {
    hide Classify;
    forall k | 0 <= k < |lines| ensures !SingleAt(ClassifyAll(lines), pkg, k) {
      LoneIsSingle(ClassifyAll(lines), pkg, k);
    }
  }

  lemma SameCount(ok: Verdict, lines: seq<string>, out: seq<string>, was: string, name: string)
    requires Editable(ok, lines, was) && !NormalizingBreaks(lines, was) && NamesTake(ok, was, name) && ToRename(lines, was, name)
    requires RoundsStop(Normalized(lines, was), was, name) && out == RenamedAll(Normalized(lines, was), was, name)
    requires RelabelledClean(ok, lines, out, was, name)
    ensures AllFit(Normalized(lines, was), was, name)
  {
    hide Classify, Clean, PkgSafe, SinglesSafe, Normalized, HasSingles, BraceInComment, AnyLine, AllFit, Loaded, Relabel,
         RoundsStop, Naming, SpecVerdict, Compatible, S.Scan, SameRules, RenamedAll, Asks, NoLone;
    var moved := Normalized(lines, was);
    NormalizedClean(ok, lines, was);
    SafeName(was);
    SafeName(name);
    NamesSeen(ok, moved, was, name);
    SameMultiset(ok, lines, moved, was);
    var a, b, c := Loaded(ok, ClassifyAll(lines)), Loaded(ok, ClassifyAll(moved)), Loaded(ok, ClassifyAll(out));
    assert |multiset(a)| == |a| && |multiset(b)| == |b| && |multiset(c)| == |c|;
    assert |multiset(Relabel(a, was, name))| == |Relabel(a, was, name)|;
    CleanAnyway(ok, moved);
    CleanAnyway(ok, out);
    CountRounds(moved, was, name);
  }

  // ----- when the edit returns

  /** Some line waits for its brace and is read as something else under the new name. */
  ghost predicate TrapsWaiting(lines: seq<string>, was: string, name: string)
  {
    !ParseOuterCore(name).Pending?
    && exists k :: 0 <= k < |lines| && NameTrap(lines[k], was, name) && Classify(lines[k]).outer.Pending?
  }

  /** On a file that normalizing does not break, `rule_rename` fails to return exactly when
      the new name is the text of a single-line rule of the old package and stands on a bare
      header with a comment; a name that fits every header always returns. Left aside are
      names that start like the old one with a brace behind it, on files where a header
      waits for its brace. */
  lemma RenameReturns(ok: Verdict, lines: seq<string>, was: string, name: string)
    requires Editable(ok, lines, was) && !NormalizingBreaks(lines, was) && PkgSafe(name) && was != name
    requires NamesItself(was, name) && !Endless(was, name) ==> !TrapsWaiting(Normalized(lines, was), was, name)
    ensures RenameEnds(lines, was, name) <==>
              !(ToRename(lines, was, name) && Endless(was, name) && !NoTraps(Normalized(lines, was), was, name))
  {
    hide Classify, Clean, PkgSafe, SinglesSafe, Normalized, HasSingles, BraceInComment, AnyLine, RoundsStop, NameTrap, NamesItself,
         Endless, NoLone, HeaderSeen, S.Scan, SingleSeen, SpecVerdict, SameRules;
    var moved := Normalized(lines, was);
    NormalizedClean(ok, lines, was);
    SafeName(was);
    NoSingleSeen(ok, moved, was);
    EndsIff(moved, was, name);
    forall k: nat | k < |moved| && NameTrap(moved[k], was, name) ensures HeaderSeen(ClassifyAll(moved), was, k) {
      TrapIsHeader(ok, moved, was, name, k);
    }
    if Endless(was, name) && !NoTraps(moved, was, name) {
      var k :| 0 <= k < |moved| && NameTrap(moved[k], was, name);
      assert EndlessAt(moved, was, name, k);
    }
  }

  lemma NoSingleSeen(ok: Verdict, lines: seq<string>, pkg: string)
    requires Clean(ok, ClassifyAll(lines)) && NoLone(ClassifyAll(lines), pkg)
    ensures forall k: nat :: !SingleSeen(ClassifyAll(lines), pkg, k)
  {
    hide Classify, Clean;
    var cs := ClassifyAll(lines);
    forall k: nat ensures !SingleSeen(cs, pkg, k) {
      if k < |cs| {
        CleanLine(ok, cs, k);
        assert EventAt(cs, pkg, k) != [Lone];
      }
    }
  }

  lemma FittingReturns(ok: Verdict, lines: seq<string>, was: string, name: string)
    requires Editable(ok, lines, was) && !NormalizingBreaks(lines, was) && NamesTake(ok, was, name)
    requires AllFit(Normalized(lines, was), was, name)
    ensures RenameEnds(lines, was, name)
  {
    hide Classify, Clean, PkgSafe, SinglesSafe, Normalized, HasSingles, BraceInComment, AnyLine, RoundsStop, AllFit, NoLone, S.Scan,
         SpecVerdict, SameRules, Compatible;
    NormalizedClean(ok, lines, was);
    RenamedAllMeaning(ok, Normalized(lines, was), was, name);
  }

  // ----- the way back

  /** A file with nothing of a package on single lines is not changed by normalizing. */
  lemma NothingToMove(ok: Verdict, lines: seq<string>, pkg: string)
    requires SpecVerdict(ok) && PkgSafe(pkg) && Clean(ok, ClassifyAll(lines)) && NoLone(ClassifyAll(lines), pkg)
    ensures Editable(ok, lines, pkg) && !HasSingles(lines, pkg) && Normalized(lines, pkg) == lines
  {
    hide Classify, PkgSafe, SpecVerdict, S.OpenTo, S.CloseTo, S.HeaderTo, S.HitsTo, EventAt, Hard;
    var cs := ClassifyAll(lines);
    CleanEnd(ok, cs);
    NoLoneNoSingles(ok, cs, pkg, |cs|);
    NothingMoved(lines, pkg);
    forall k | 0 <= k < |cs| ensures !SingleAt(cs, pkg, k) {
      LoneIsSingle(cs, pkg, k);
    }
  }

  /** A name that no line of a clean file uses is no trap on any line. */
  lemma FreshNoTraps(ok: Verdict, lines: seq<string>, was: string, name: string)
    requires Clean(ok, ClassifyAll(lines)) && Naming(lines, was) == 0 && PkgSafe(was)
    ensures NoTraps(lines, was, name)
  {
    hide Classify, PkgSafe, Clean, Naming, NameTrap, HeaderSeen, AnyLine, S.Scan;
    SafeName(was);
    NamesSeen(ok, lines, was, was);
    forall k | 0 <= k < |lines| ensures !NameTrap(lines[k], was, name) {
      if NameTrap(lines[k], was, name) {
        TrapIsHeader(ok, lines, was, name, k);
        AnySeen(ClassifyAll(lines), was, k);
      }
    }
  }

  lemma NoTrapsFit(lines: seq<string>, was: string, name: string)
    requires NoTraps(lines, was, name)
    ensures AllFit(lines, was, name)
  {
    hide NameTrap, Twice;
  }

  /** Since the editor refuses a name that is in use, renaming there and back restores
      the rules, in their order. */
  lemma RenameThereAndBack(ok: Verdict, lines: seq<string>, was: string, name: string)
    requires Editable(ok, lines, was) && !NormalizingBreaks(lines, was)
    requires NamesTake(ok, was, name) && AllFit(Normalized(lines, was), was, name) && ToRename(lines, was, name)
    requires Compatible(ok, name, was)
    ensures RenameEnds(lines, was, name) && RenameEnds(Renamed(lines, was, name).lines, name, was)
    ensures var back := Renamed(Renamed(lines, was, name).lines, name, was);
            && back.answer == Ok
            && Clean(ok, ClassifyAll(back.lines))
            && Loaded(ok, ClassifyAll(back.lines)) == Loaded(ok, ClassifyAll(Normalized(lines, was)))
            && multiset(Loaded(ok, ClassifyAll(back.lines))) == multiset(Loaded(ok, ClassifyAll(lines)))
  {
    hide Classify, Clean, PkgSafe, SinglesSafe, Normalized, HasSingles, BraceInComment, CpuText, NoTraps, AllFit, AnyLine, S.Scan,
         RoundsStop, WeightOf, Rounds, Loaded, Relabel, NoLone, SameRules, SpecVerdict, Compatible, Naming;
    var moved := Normalized(lines, was);
    NormalizedClean(ok, lines, was);
    SafeName(was);
    SafeName(name);
    NamesSeen(ok, moved, was, name);
    RenamedAllMeaning(ok, moved, was, name);
    var there := RenamedAll(moved, was, name);
    FreshName(ok, moved, name);
    FreshNoTraps(ok, moved, name, was);
    NothingToMove(ok, there, name);
    NamesSeen(ok, there, was, name);
    NoTrapsFit(there, name, was);
    RenamedAllMeaning(ok, there, name, was);
    RelabelBack(Loaded(ok, ClassifyAll(moved)), was, name);
    SameMultiset(ok, lines, moved, was);
  }
}
