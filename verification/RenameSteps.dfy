/** The rounds of `rule_rename` on a clean file, as long as the new name fits every header. */
module RenameSteps {
  import opened Base
  import opened Text
  import opened Lines
  import opened Syntax
  import opened Shapes
  import opened Printing
  import opened Loader
  import opened Edits
  import opened Tracking
  import opened Stripping
  import opened Swapping
  import opened Renaming
  import opened RenamedLines
  import opened Normalizing
  import opened SinglesMoved
  import opened RuleEdits
  import opened Deleting
  import opened Purging
  import opened RenameRounds
  import opened DeletingPkg
  import opened Relabelling
  import S = Scanner

  // ----- what a header line is

  /** The first header, as an event at v written on line i. */
  lemma HeaderFound(ok: Verdict, cs: seq<Line>, pkg: string) returns (v: nat)
    requires Sound(ok, cs) && pkg != "" && NoLone(cs, pkg) && S.Scan(cs, pkg).pkgLine.Some?
    ensures HeaderOn(cs, pkg, S.Scan(cs, pkg).pkgLine.value.idx, v)
  {
    hide Hard, S.OpenTo, S.CloseTo, S.HitsTo;
    v := S.FirstHeader(cs, pkg, |cs|);
    HeaderAtIs(ok, cs, pkg, v);
  }

  lemma HeaderAtIs(ok: Verdict, cs: seq<Line>, pkg: string, v: nat)
    requires Sound(ok, cs) && pkg != "" && v < |cs| && S.HeaderAt(cs, pkg, v).Some?
    ensures HeaderOn(cs, pkg, S.HeaderAt(cs, pkg, v).value.idx, v)
  {
    hide Hard;
    SoundLine(ok, cs, v);
    if S.HeaderAt(cs, pkg, v).value.BarePending? {
      var pi := S.HeaderAt(cs, pkg, v).value.idx;
      S.PendingRun(cs, v);
      SoundLine(ok, cs, pi);
    }
  }

  lemma RoundIs(lines: seq<string>, was: string, name: string)
    requires var t := S.Scan(ClassifyAll(lines), was); t.pkgLine.Some? && SinglesOf(t.hits) == []
    ensures var i := S.Scan(ClassifyAll(lines), was).pkgLine.value.idx;
            RenameRound(lines, was, name) == lines[i := RenamedLine(lines[i], was, name)]
  {
    hide Classify, RenamedLine;
  }

  /** In a clean file a waiting package line is followed by its brace. */
  lemma {:induction false} NextBrace(ok: Verdict, cs: seq<Line>, pkg: string, k: nat, n: nat) returns (v: nat)
    requires Clean(ok, cs) && pkg != "" && k < n <= |cs| && cs[k].Text? && cs[k].outer == Pending(pkg)
    requires !StateAt(cs, n).inBlock && StateAt(cs, n).pend == pkg && S.StateAt(cs, n).pend == Some(k)
    ensures k < v < |cs| && S.HeaderAt(cs, pkg, v).Some? && S.HeaderAt(cs, pkg, v).value.idx == k
    decreases |cs| - n
  {
    hide Clean, S.HeaderAt;
    CleanEnd(ok, cs);
    assert cs[..|cs|] == cs;
    if n < |cs| {
      CleanLine(ok, cs, n);
      if cs[n].Skip? {
        v := NextBrace(ok, cs, pkg, k, n + 1);
      } else {
        v := n;
        BraceIs(cs, pkg, k, v);
      }
    }
  }

  /** In a clean file a header outside every block is seen by the scanner. */
  lemma OuterHeader(ok: Verdict, cs: seq<Line>, pkg: string, k: nat)
    requires Clean(ok, cs) && pkg != "" && k < |cs| && !StateAt(cs, k).inBlock
    requires cs[k].Text? && IsHeader(cs[k].outer) && OuterPkg(cs[k].outer) == pkg
    ensures HeaderSeen(cs, pkg, k)
  {
    hide Clean, S.HeaderAt, HeaderSeen;
    CleanLine(ok, cs, k);
    if cs[k].outer.Pending? {
      var v := NextBrace(ok, cs, pkg, k, k + 1);
      HeaderIsSeen(cs, pkg, v);
    } else {
      OwnHeader(cs, pkg, k);
      HeaderIsSeen(cs, pkg, k);
    }
  }

  lemma SafeTrimmed(name: string)
    requires PkgSafe(name)
    ensures Trimmed(name) && !CloseLike(name)
  {
  }

  lemma InnerCases(raw: string)
    requires Classify(raw).Text? && !Classify(raw).inner.Bad?
    ensures CloseLike(Trim(raw)) || '=' in StripComment(Trim(raw))
  {
    hide Trim, StripComment, ParseOuter;
    if !CloseLike(Trim(raw)) {
      EntryHasEq(Trim(raw));
    }
  }

  /** A line of a clean file on which the new name is a trap is a header, outside every
      block. */
  lemma TrapIsHeader(ok: Verdict, lines: seq<string>, was: string, name: string, k: nat)
    requires Clean(ok, ClassifyAll(lines)) && PkgSafe(was) && k < |lines| && NameTrap(lines[k], was, name)
    ensures !StateAt(ClassifyAll(lines), k).inBlock && HeaderSeen(ClassifyAll(lines), was, k)
  {
    hide Classify, PkgSafe, Clean, StripComment, Trim, CloseLike, CommentAt, HeaderSeen;
    var cs := ClassifyAll(lines);
    SafeName(was);
    SafeTrimmed(was);
    CleanLine(ok, cs, k);
    assert cs[k] == Classify(lines[k]);
    if StateAt(cs, k).inBlock {
      InnerCases(lines[k]);
      CloseName(lines[k], was);
    } else {
      OuterHeader(ok, cs, was, k);
    }
  }

  // ----- one round

  /** The new name ends up on every header line, perhaps after a second round. */
  predicate Fits(raw: string, was: string, name: string)
  {
    NameTrap(raw, was, name) ==> Twice(was, name)
  }

  predicate AllFit(lines: seq<string>, was: string, name: string)
  {
    forall k | 0 <= k < |lines| :: Fits(lines[k], was, name)
  }

  ghost predicate Renameable(ok: Verdict, lines: seq<string>, was: string, name: string)
  {
    && Clean(ok, ClassifyAll(lines)) && NoLone(ClassifyAll(lines), was) && AllFit(lines, was, name)
    && PkgSafe(was) && PkgSafe(name) && was != name && Compatible(ok, was, name)
  }

  /** Outside a block only the outer reading of a line counts. */
  lemma SameOuter(ok: Verdict, cs: seq<Line>, i: nat, d: Line, pkg: string)
    requires i < |cs| && cs[i].Text? && d.Text? && d.outer == cs[i].outer && !StateAt(cs, i).inBlock
    ensures Loaded(ok, cs[i := d]) == Loaded(ok, cs) && FailCount(ok, cs[i := d]) == FailCount(ok, cs)
    ensures Events(START, cs[i := d], pkg) == Events(START, cs, pkg)
  {
    hide After, Rules, Hard, Soft, Events;
    var s, front, rest := StateAt(cs, i), cs[..i], cs[i + 1..];
    assert cs == front + [cs[i]] + rest && cs[i := d] == front + [d] + rest;
    Cut(ok, START, front, [cs[i]], rest);
    Cut(ok, START, front, [d], rest);
    One(ok, s, cs[i]);
    One(ok, s, d);
    Three(front, [cs[i]], rest, pkg);
    Three(front, [d], rest, pkg);
    OneEvents(s, cs[i], pkg);
    OneEvents(s, d, pkg);
  }

  lemma OneEvents(s: State, c: Line, pkg: string)
    ensures Events(s, [c], pkg) == EventOf(s, c, pkg)
  {
    assert [c][1..] == [];
    NoEvents(Step(s, c), pkg);
  }

  /** The first header under a name that fits: it has the new name, or it is the same
      header again and weighs less. */
  lemma FitHeader(raw: string, was: string, name: string)
    requires Classify(raw).Text? && IsHeader(Classify(raw).outer) && OuterPkg(Classify(raw).outer) == was
    requires PkgSafe(was) && PkgSafe(name) && was != name && Fits(raw, was, name)
    ensures var d := Classify(RenamedLine(raw, was, name));
            && d.Text?
            && (d.outer == WithPkg(Classify(raw).outer, name)
                || (d.outer == Classify(raw).outer && !NameTrap(RenamedLine(raw, was, name), was, name)))
            && (!NameTrap(raw, name, was) ==> !NameTrap(RenamedLine(raw, was, name), name, was))
  {
    hide Classify, PkgSafe, RenamedLine, TrapOuter, Twice;
    if NameTrap(raw, was, name) {
      TrapReads(raw, was, name);
      TrapName(raw, was, name);
      SameAgain(Classify(raw).outer, was, name);
    } else {
      RenamedHeader(raw, was, name);
      NoTrapBack(raw, was, name);
    }
  }

  lemma TrapName(raw: string, was: string, name: string)
    requires NameTrap(raw, was, name)
    ensures '=' in name || (Classify(raw).outer.Pending? && Opens(name))
  {
    hide Classify, CommentAt, Trim, StripComment;
  }

  /** One round: the rules differ by the name only, and a header has the new name or is
      the same again. */
  lemma RenameStep(ok: Verdict, lines: seq<string>, was: string, name: string)
    requires Renameable(ok, lines, was, name) && AnyLine(S.Scan(ClassifyAll(lines), was))
    ensures var next := RenameRound(lines, was, name);
            && Renameable(ok, next, was, name) && WeightOf(next, was, name) < WeightOf(lines, was, name)
            && Naming(next, was) + Naming(next, name) == Naming(lines, was) + Naming(lines, name)
            && (NoLone(ClassifyAll(lines), name) ==> NoLone(ClassifyAll(next), name))
            && (NoTraps(lines, name, was) ==> NoTraps(next, name, was))
            && Relabel(Loaded(ok, ClassifyAll(next)), was, name) == Relabel(Loaded(ok, ClassifyAll(lines)), was, name)
  {
    hide Classify, RenamedLine, PkgSafe, Loaded, FailCount, Compatible, Events, EventAt, NameTrap, S.OpenTo, S.CloseTo,
         S.HitsTo, S.HeaderTo, RenameRound, AllFit, NoTraps, WeightOf, Fits, Relabel;
    var cs := ClassifyAll(lines);
    SafeName(was);
    SafeName(name);
    CleanEnd(ok, cs);
    NoLoneNoSingles(ok, cs, was, |cs|);
    var v := HeaderFound(ok, cs, was);
    var i := S.Scan(cs, was).pkgLine.value.idx;
    RoundIs(lines, was, name);
    RoundLighter(lines, was, name);
    var raw := RenamedLine(lines[i], was, name);
    var d := Classify(raw);
    FitsAt(lines, was, name, i);
    assert cs[i] == Classify(lines[i]);
    FitHeader(lines[i], was, name);
    assert ClassifyAll(lines[i := raw]) == cs[i := d];
    LoneIs(cs, was);
    LoneIs(cs[i := d], was);
    LoneIs(cs, name);
    LoneIs(cs[i := d], name);
    if d.outer == cs[i].outer {
      SameOuter(ok, cs, i, d, was);
      SameOuter(ok, cs, i, d, name);
    } else {
      RenamedRules(ok, cs, i, d, was, name);
      RenamedEvents(ok, cs, i, v, d, was, name);
    }
    FitsNext(lines, i, raw, was, name);
    if NoTraps(lines, name, was) {
      TrapsAt(lines, i, raw, name, was);
    }
  }

  lemma FitsAt(lines: seq<string>, was: string, name: string, i: nat)
    requires AllFit(lines, was, name) && i < |lines|
    ensures Fits(lines[i], was, name)
  {
    hide Fits;
  }

  /** No line of the file traps the new name. */
  predicate NoTraps(lines: seq<string>, was: string, name: string)
  {
    forall k | 0 <= k < |lines| :: !NameTrap(lines[k], was, name)
  }

  lemma TrapsAt(lines: seq<string>, i: nat, raw: string, was: string, name: string)
    requires i < |lines| && NoTraps(lines, was, name) && (!NameTrap(lines[i], was, name) ==> !NameTrap(raw, was, name))
    ensures NoTraps(lines[i := raw], was, name)
  {
    hide NameTrap;
  }

  lemma FitsNext(lines: seq<string>, i: nat, raw: string, was: string, name: string)
    requires i < |lines| && AllFit(lines, was, name)
    requires !NameTrap(raw, was, name) || (Classify(raw).Text? && OuterPkg(Classify(raw).outer) != was)
    ensures AllFit(lines[i := raw], was, name)
  {
    hide Classify, Twice;
    var out := lines[i := raw];
    forall k | 0 <= k < |out| ensures Fits(out[k], was, name) {
      assert Fits(lines[k], was, name);
    }
  }

  lemma RenameableIs(ok: Verdict, lines: seq<string>, was: string, name: string)
    requires Renameable(ok, lines, was, name)
    ensures Clean(ok, ClassifyAll(lines))
  {
  }

  /** The rounds end with no line naming the old package. */
  lemma {:induction false} RenamedAllMeaning(ok: Verdict, lines: seq<string>, was: string, name: string)
    requires Renameable(ok, lines, was, name)
    ensures RoundsStop(lines, was, name)
    ensures var out := RenamedAll(lines, was, name);
            && Clean(ok, ClassifyAll(out)) && !AnyLine(S.Scan(ClassifyAll(out), was))
            && Loaded(ok, ClassifyAll(out)) == Relabel(Loaded(ok, ClassifyAll(lines)), was, name)
            && (NoLone(ClassifyAll(lines), name) ==> NoLone(ClassifyAll(out), name))
            && (NoTraps(lines, name, was) ==> NoTraps(out, name, was))
            && Naming(out, was) + Naming(out, name) == Naming(lines, was) + Naming(lines, name)
    decreases WeightOf(lines, was, name)
  {
    hide Classify, Clean, NoLone, NoTraps, PkgSafe, Compatible, Loaded, Relabel, AnyLine, Naming, RenameRound, WeightOf,
         Renameable, Rounds;
    RenameableIs(ok, lines, was, name);
    if AnyLine(S.Scan(ClassifyAll(lines), was)) {
      RenameStep(ok, lines, was, name);
      RenamedAllMeaning(ok, RenameRound(lines, was, name), was, name);
      StopsNext(lines, was, name);
    } else {
      StopStays(lines, was, name, WeightOf(lines, was, name));
      NothingToRename(ok, lines, was, name);
    }
  }

  lemma NothingToRename(ok: Verdict, lines: seq<string>, was: string, name: string)
    requires Renameable(ok, lines, was, name) && !AnyLine(S.Scan(ClassifyAll(lines), was))
    ensures Loaded(ok, ClassifyAll(lines)) == Relabel(Loaded(ok, ClassifyAll(lines)), was, name)
  {
    hide Classify, NoLone, AllFit, PkgSafe, Compatible, Loaded, Relabel, AnyLine;
    SafeName(was);
    CleanEnd(ok, ClassifyAll(lines));
    NoneLeft(ok, lines, was);
    OthersNone(Loaded(ok, ClassifyAll(lines)), was);
    RelabelNone(Loaded(ok, ClassifyAll(lines)), was, name);
  }
}
