/** What `rule_rename` does to a file with any failure but a stray opening brace. */
module RoughRenames {
  import opened Base
  import opened Text
  import opened Lines
  import opened Syntax
  import opened Printing
  import opened Loader
  import opened Edits
  import opened Tracking
  import opened Stripping
  import opened Normalizing
  import opened Renaming
  import opened RenamedLines
  import opened RuleEdits
  import opened RenameRounds
  import opened Relabelling
  import opened RenameSteps
  import opened StrayBraces
  import opened RoughRounds
  import opened RoughNormalizing
  import opened RoughEdits
  import opened Written
  import S = Scanner

  // ----- two runs that differ by the name

  /** The two names are taken and turned down with the same rules. */
  ghost predicate Alike(ok: Verdict, was: string, name: string)
  {
    was != "" && name != "" && was != name && forall t, c :: ok(was, t, c) <==> ok(name, t, c)
  }

  /** `d` is the line, or a line of the old package outside every block, as it was or under
      the new name. */
  predicate LineRough(s: State, c: Line, d: Line, was: string, name: string)
  {
    || c == d
    || (c.Text? && d.Text? && !s.inBlock && OuterPkg(c.outer) == was && (d.outer == c.outer || d.outer == WithPkg(c.outer, name)))
  }

  lemma StepRough(ok: Verdict, s: State, r: State, c: Line, d: Line, was: string, name: string)
    requires Sim(s, r, was, name) && LineRough(s, c, d, was, name) && Alike(ok, was, name)
    ensures Sim(Step(s, c), Step(r, d), was, name)
    ensures Relabel(Emit(ok, r, d), was, name) == Relabel(Emit(ok, s, c), was, name)
    ensures StrayOpen(r, d) <==> StrayOpen(s, c)
  {
    var a, b := Asked(s, c), Asked(r, d);
    assert |a| == |b| <= 1;
    if a != [] {
      assert a == [a[0]] && b == [b[0]];
      assert Admitted(ok, a[0]) <==> Admitted(ok, b[0]);
      assert a[1..] == [] && b[1..] == [];
    }
  }

  /** Line by line, the second file is the first one under the new name. */
  ghost predicate FileRough(cs: seq<Line>, ds: seq<Line>, was: string, name: string)
  {
    |ds| == |cs| && forall k | 0 <= k < |cs| :: LineRough(StateAt(cs, k), cs[k], ds[k], was, name)
  }

  lemma {:induction false} RunRough(ok: Verdict, cs: seq<Line>, ds: seq<Line>, was: string, name: string, n: nat)
    requires FileRough(cs, ds, was, name) && Alike(ok, was, name) && n <= |cs|
    ensures Sim(StateAt(cs, n), StateAt(ds, n), was, name)
    ensures Relabel(Rules(ok, START, ds[..n]), was, name) == Relabel(Rules(ok, START, cs[..n]), was, name)
    ensures NoStray(START, ds[..n]) <==> NoStray(START, cs[..n])
  {
    hide Alike, Sim, Step, Emit, StrayOpen, LineRough, NoStray, Rules, After, Relabel;
    if n == 0 {
      assert cs[..0] == ds[..0];
      SimStart(was, name);
    } else {
      var m := n - 1;
      RunRough(ok, cs, ds, was, name, m);
      var s, r := StateAt(cs, m), StateAt(ds, m);
      StepRough(ok, s, r, cs[m], ds[m], was, name);
      StateAtNext(cs, m);
      StateAtNext(ds, m);
      assert cs[..n] == cs[..m] + [cs[m]] && ds[..n] == ds[..m] + [ds[m]];
      Concat(ok, START, cs[..m], [cs[m]]);
      Concat(ok, START, ds[..m], [ds[m]]);
      One(ok, s, cs[m]);
      One(ok, r, ds[m]);
      RelabelConcat(Rules(ok, START, cs[..m]), Emit(ok, s, cs[m]), was, name);
      RelabelConcat(Rules(ok, START, ds[..m]), Emit(ok, r, ds[m]), was, name);
      NoStrayConcat(START, cs[..m], [cs[m]]);
      NoStrayConcat(START, ds[..m], [ds[m]]);
      NoStrayOne(s, cs[m]);
      NoStrayOne(r, ds[m]);
    }
  }

  lemma SimStart(was: string, name: string)
    ensures Sim(StateAt([], 0), StateAt([], 0), was, name)
    ensures forall cs: seq<Line>, ds: seq<Line> :: Sim(StateAt(cs, 0), StateAt(ds, 0), was, name)
  {
    forall cs: seq<Line>, ds: seq<Line> ensures StateAt(cs, 0) == START && StateAt(ds, 0) == START {
      assert cs[..0] == [] && ds[..0] == [];
    }
  }

  // ----- one round

  /** The lines a round rewrites name the old package, outside every block. */
  lemma MarkedNames(lines: seq<string>, was: string, k: nat)
    requires NoStray(START, ClassifyAll(lines)) && was != "" && k < |lines| && Marked(S.Scan(ClassifyAll(lines), was), k)
    ensures var c := ClassifyAll(lines)[k];
            && c.Text? && !StateAt(ClassifyAll(lines), k).inBlock && (IsHeader(c.outer) || c.outer.Single?) && OuterPkg(c.outer) == was
  {
    hide Classify, NoStray, SinglesOf, S.HitsTo, S.OpenTo, S.CloseTo, S.StateAt, After, S.NoOrphans;
    var cs := ClassifyAll(lines);
    NoneStray(cs);
    RecordedSingles(lines, was);
    if S.Scan(cs, was).pkgLine.Some? && k == S.Scan(cs, was).pkgLine.value.idx {
      HeaderPlace(cs, was);
      HeaderNames(cs, was);
    }
  }

  lemma HeaderNames(cs: seq<Line>, pkg: string)
    requires S.NoOrphans(cs, |cs|) && S.Scan(cs, pkg).pkgLine.Some?
    ensures var i := S.Scan(cs, pkg).pkgLine.value.idx; i < |cs| && cs[i].Text? && IsHeader(cs[i].outer) && OuterPkg(cs[i].outer) == pkg
  {
    var v := S.FirstHeader(cs, pkg, |cs|);
    S.PendingRun(cs, v);
  }

  ghost predicate RoughName(lines: seq<string>, was: string, name: string)
  {
    && NoStray(START, ClassifyAll(lines)) && AllFit(lines, was, name)
    && PkgSafe(was) && PkgSafe(name) && was != name && '{' !in name
  }

  lemma LineRenamed(lines: seq<string>, was: string, name: string, k: nat)
    requires RoughName(lines, was, name) && k < |lines|
    ensures var cs, next := ClassifyAll(lines), RenameRound(lines, was, name);
            LineRough(StateAt(cs, k), cs[k], Classify(next[k]), was, name) && Fits(next[k], was, name)
  {
    hide Classify, NoStray, PkgSafe, S.Scan, Marked, RenamedLine, NameTrap, Twice, After;
    SafeName(was);
    if Marked(S.Scan(ClassifyAll(lines), was), k) {
      MarkedNames(lines, was, k);
      var c := Classify(lines[k]);
      assert ClassifyAll(lines)[k] == c && Fits(lines[k], was, name);
      if c.outer.Single? {
        SingleRenamed(lines[k], was, name);
      } else {
        FitHeader(lines[k], was, name);
      }
      TrapNames(RenamedLine(lines[k], was, name), was, name);
    }
  }

  lemma TrapNames(raw: string, was: string, name: string)
    ensures NameTrap(raw, was, name) ==> Classify(raw).Text? && OuterPkg(Classify(raw).outer) == was
  {
    hide Classify, CommentAt, Trim, StripComment;
  }

  lemma RoundRenamed(ok: Verdict, lines: seq<string>, was: string, name: string)
    requires RoughName(lines, was, name) && Alike(ok, was, name)
    ensures var next := RenameRound(lines, was, name);
            && RoughName(next, was, name)
            && Relabel(Loaded(ok, ClassifyAll(next)), was, name) == Relabel(Loaded(ok, ClassifyAll(lines)), was, name)
  {
    hide Classify, NoStray, PkgSafe, RenameRound, Fits, Alike, LineRough, Rules, Relabel, After;
    var next := RenameRound(lines, was, name);
    var cs, ds := ClassifyAll(lines), ClassifyAll(next);
    forall k | 0 <= k < |lines| ensures LineRough(StateAt(cs, k), cs[k], ds[k], was, name) && Fits(next[k], was, name) {
      LineRenamed(lines, was, name, k);
    }
    RunRough(ok, cs, ds, was, name, |cs|);
    assert cs[..|cs|] == cs && ds[..|cs|] == ds;
  }

  lemma {:induction false} RoundsRenamed(ok: Verdict, lines: seq<string>, was: string, name: string, k: nat)
    requires RoughName(lines, was, name) && Alike(ok, was, name)
    ensures var out := Rounds(lines, was, name, k);
            && RoughName(out, was, name)
            && Relabel(Loaded(ok, ClassifyAll(out)), was, name) == Relabel(Loaded(ok, ClassifyAll(lines)), was, name)
    decreases k
  {
    hide Classify, RoughName, RenameRound, Alike, Loaded, Relabel;
    if k > 0 {
      RoundRenamed(ok, lines, was, name);
      RoundsRenamed(ok, RenameRound(lines, was, name), was, name, k - 1);
    }
  }

  // ----- the whole edit

  lemma AllRenamed(ok: Verdict, lines: seq<string>, was: string, name: string)
    requires RoughName(lines, was, name) && Alike(ok, was, name) && Nameless(ok)
    ensures RoundsStop(lines, was, name)
    ensures Loaded(ok, ClassifyAll(RenamedAll(lines, was, name))) == Relabel(Loaded(ok, ClassifyAll(lines)), was, name)
  {
    hide Classify, RoughName, Alike, Loaded, Relabel, Rounds, WeightOf, AnyLine, S.Scan, PkgSafe;
    NamesSafe(lines, was, name);
    OtherNamesStop(lines, was, name);
    var out := RenamedAll(lines, was, name);
    RoundsRenamed(ok, lines, was, name, WeightOf(lines, was, name));
    NamesSafe(out, was, name);
    NoStrayRough(out);
    RoughRounds.NothingLeft(ok, ClassifyAll(out), was, |out|);
    NoneOfPkg(Loaded(ok, ClassifyAll(out)), was);
    RelabelNone(Loaded(ok, ClassifyAll(out)), was, name);
  }

  lemma NamesSafe(lines: seq<string>, was: string, name: string)
    requires RoughName(lines, was, name)
    ensures PkgSafe(was) && PkgSafe(name) && was != name && was != "" && !NamesItself(was, name) && NoStray(START, ClassifyAll(lines))
  {
    hide Classify, NoStray, AllFit;
    SafeName(was);
  }

  /** Whatever else is wrong with the file, under a name without a brace that fits its lines:
      the edit returns, and where it renames, the normalized file's rules are loaded under the
      new name, as a sequence. */
  lemma RenameRough(ok: Verdict, lines: seq<string>, was: string, name: string)
    requires Workable(lines, was) && Alike(ok, was, name) && Nameless(ok)
    requires PkgSafe(name) && '{' !in name && AllFit(Normalized(lines, was), was, name)
    ensures RenameEnds(lines, was, name)
    ensures var e, cs, ms := Renamed(lines, was, name), ClassifyAll(lines), ClassifyAll(Normalized(lines, was));
            && Moves(ok, cs, ms, was, multiset{}, multiset{})
            && (e.answer == Ok ==> Loaded(ok, ClassifyAll(e.lines)) == Relabel(Loaded(ok, ms), was, name))
            && (e.answer == NotFound ==> forall r | r in Loaded(ok, cs) :: r.pkg != was)
  {
    hide Classify, Workable, Loaded, Relabel, Normalized, RenamedAll, AnyLine, S.Scan, PkgSafe, Moves, Round, NoStray, AllFit, Alike, Nameless;
    var moved := Normalized(lines, was);
    NormalizedMoves(ok, lines, was);
    WorkableName(lines, was);
    NamesApart(ok, was, name);
    AllRenamed(ok, moved, was, name);
    if !AnyLine(S.Scan(ClassifyAll(moved), was)) {
      NoStrayRough(moved);
      SafeName(was);
      NoEmpty(ok);
      RoughRounds.NothingLeft(ok, ClassifyAll(moved), was, |moved|);
      NoneOfPkg(Loaded(ok, ClassifyAll(moved)), was);
      SameRuleSet(Loaded(ok, ClassifyAll(lines)), Loaded(ok, ClassifyAll(moved)));
    }
  }

  lemma NamesApart(ok: Verdict, was: string, name: string)
    requires Alike(ok, was, name)
    ensures was != name
  {
  }

  lemma NoEmpty(ok: Verdict)
    requires Nameless(ok)
    ensures forall t, c :: !ok("", t, c)
  {
  }

  lemma SameRuleSet(a: seq<AffinityRule>, b: seq<AffinityRule>)
    requires multiset(a) == multiset(b)
    ensures forall r :: r in a <==> r in b
  {
    forall r ensures r in a <==> r in b {
      assert r in multiset(a) <==> r in multiset(b);
    }
  }
}
