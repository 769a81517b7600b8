/** What a stray opening brace can do: when the line in front of it is deleted, it takes up
    the package line before that one. */
module TakenBraces {
  import opened Base
  import opened Text
  import opened Lines
  import opened Syntax
  import opened Shapes
  import opened Printing
  import opened Loader
  import opened Edits
  import opened Stripping
  import opened Normalizing
  import opened Swapping
  import opened Taking
  import opened Renaming
  import opened RuleEdits
  import opened RuleFiles
  import opened Findings
  import opened EndlessRenames
  import S = Scanner

  /** A waiting line, a rule of p, a stray brace, a rule of t, an unclosed block of p. */
  function TakenLines(): seq<string>
  {
    ["x", "p=1", "{", "t=2", "p {"]
  }

  predicate TakenReads(cs: seq<Line>)
  {
    && |cs| == 5 && (forall k | 0 <= k < 5 :: cs[k].Text?)
    && cs[0].outer == Pending("x") && cs[1].outer == Rule("p", "1", false) && cs[2].outer == BareOpen("")
    && cs[3].outer == Rule("t", "2", false) && cs[3].inner == Entry("t", "2", false) && cs[4].outer == BareOpen("p")
  }

  lemma Reads()
    ensures TakenReads(ClassifyAll(TakenLines()))
  {
    hide Classify, PkgSafe, CpuText, ParseOuterCore, EntrySafe, SplitRuleCore, CloseLike, Core;
    PlainName("x");
    PlainName("p");
    PlainName("t");
    OneDigit("1");
    OneDigit("2");
    LoneLines();
    WaitingLine("x");
    HeaderLine("p", "1");
    HeaderLine("t", "2");
    PlainEntry("t", "2");
    OpenLine("p");
    assert BareOpenLine("p") == "p {" && HeaderText("p", "1", false) == "p=1" && HeaderText("t", "2", false) == "t=2";
    var lines := TakenLines();
    assert ClassifyAll(lines) == [Classify("x"), Classify("p=1"), Classify("{"), Classify("t=2"), Classify("p {")];
  }

  lemma OneDigit(d: string)
    requires d in {"1", "2"}
    ensures CpuText(d)
  {
  }

  lemma WaitingLine(name: string)
    requires PkgSafe(name) && '=' !in name && !Opens(name)
    ensures Classify(name).Text? && Classify(name).outer == Pending(name)
  {
    hide Classify, PkgSafe, ParseOuterCore, Core;
    BareReads(name, "", false);
    EmptyTail();
    assert "" + name + "" == name;
    ReadShape("", name, "");
  }

  lemma HeaderLine(name: string, cpus: string)
    requires PkgSafe(name) && CpuText(cpus)
    ensures var c := Classify(HeaderText(name, cpus, false)); c.Text? && c.outer == Rule(name, cpus, false)
  {
    hide Classify, PkgSafe, CpuText, ParseOuterCore, Core, HeaderText;
    HeaderCore(name, cpus, false);
    EmptyTail();
    assert "" + HeaderText(name, cpus, false) + "" == HeaderText(name, cpus, false);
    ReadShape("", HeaderText(name, cpus, false), "");
  }

  lemma PlainEntry(name: string, cpus: string)
    requires name == "t" && cpus == "2"
    ensures Classify("t=2").inner == Entry("t", "2", false)
  {
    hide Classify, SplitRuleCore, CloseLike, Core, CpuText, EntrySafe;
    OneDigit(cpus);
    OneLetter(name);
    EntryCore(name, cpus);
    EmptyTail();
    assert "" + "t=2" + "" == "t=2" && name + "=" + cpus == "t=2";
    ReadShape("", "t=2", "");
  }

  lemma OneLetter(name: string)
    requires name == "t"
    ensures EntrySafe(name)
  {
    NoMarkIn(name);
    CloserNone(name);
  }

  // ----- the scanner on these lines

  lemma TakenStates(cs: seq<Line>)
    requires TakenReads(cs)
    ensures S.StateAt(cs, 0) == S.State(false, "", None) && S.StateAt(cs, 1) == S.State(false, "", Some(0))
    ensures (forall k | 2 <= k <= 4 :: S.StateAt(cs, k) == S.State(false, "", None)) && S.StateAt(cs, 5) == S.State(true, "p", None)
  {
    assert S.StateAt(cs, 0) == S.State(false, "", None);
    assert S.StateAt(cs, 1) == S.Step(cs, 0, S.StateAt(cs, 0));
    assert S.StateAt(cs, 2) == S.Step(cs, 1, S.StateAt(cs, 1));
    assert S.StateAt(cs, 3) == S.Step(cs, 2, S.StateAt(cs, 2));
    assert S.StateAt(cs, 4) == S.Step(cs, 3, S.StateAt(cs, 3));
    assert S.StateAt(cs, 5) == S.Step(cs, 4, S.StateAt(cs, 4));
  }

  lemma {:induction false} NoHits(cs: seq<Line>, pkg: string, n: nat)
    requires n <= |cs| && forall k | 0 <= k < n :: S.HitAt(cs, pkg, k).None?
    ensures S.HitsTo(cs, pkg, n) == []
  {
    hide S.HitAt;
    if n > 0 {
      NoHits(cs, pkg, n - 1);
    }
  }

  lemma TakenRecord(cs: seq<Line>)
    requires TakenReads(cs)
    ensures S.Scan(cs, "p") == S.Target(Some(S.Standalone(1)), Some(4), None, [], true)
  {
    TakenStates(cs);
    hide S.StateAt;
    forall k: nat | k < 5 ensures S.HitAt(cs, "p", k).None? {
    }
    NoHits(cs, "p", 5);
    assert S.HeaderAt(cs, "p", 0).None? && S.HeaderAt(cs, "p", 1) == Some(S.Standalone(1));
    hide S.HitAt, S.HeaderAt, S.HitsTo;
    assert S.HeaderTo(cs, "p", 1).None? && S.HeaderTo(cs, "p", 2) == Some(S.Standalone(1)) == S.HeaderTo(cs, "p", 3);
    assert S.CloseTo(cs, "p", 1).None? && S.CloseTo(cs, "p", 2).None? && S.CloseTo(cs, "p", 3).None?;
    assert S.HeaderTo(cs, "p", 4) == Some(S.Standalone(1)) == S.HeaderTo(cs, "p", 5);
    assert S.CloseTo(cs, "p", 4).None? && S.CloseTo(cs, "p", 5).None?;
    assert S.InTarget(cs, "p", 5) && S.OpenTo(cs, "p", 5) == Some(4);
  }

  /** What is left: the waiting line, the brace, the rule. */
  predicate LeftReads(cs: seq<Line>)
  {
    && |cs| == 3 && (forall k | 0 <= k < 3 :: cs[k].Text?)
    && cs[0].outer == Pending("x") && cs[1].outer == BareOpen("") && cs[2].inner == Entry("t", "2", false)
  }

  lemma LeftRecord(cs: seq<Line>)
    requires LeftReads(cs)
    ensures var t := S.Scan(cs, "p"); t.pkgLine.None? && t.hits == []
  {
    assert S.StateAt(cs, 0) == S.State(false, "", None);
    assert S.StateAt(cs, 1) == S.Step(cs, 0, S.StateAt(cs, 0)) == S.State(false, "", Some(0));
    assert S.StateAt(cs, 2) == S.Step(cs, 1, S.StateAt(cs, 1)) == S.State(true, "x", None);
    hide S.StateAt;
    assert S.HitAt(cs, "p", 0).None? && S.HitAt(cs, "p", 1).None? && S.HitAt(cs, "p", 2).None?;
    NoHits(cs, "p", 3);
    assert S.HeaderAt(cs, "p", 0).None? && S.HeaderAt(cs, "p", 1).None? && S.HeaderAt(cs, "p", 2).None?;
    hide S.HitAt, S.HeaderAt, S.HitsTo;
    assert S.HeaderTo(cs, "p", 1).None? && S.HeaderTo(cs, "p", 2).None?;
  }

  lemma TakenRound(t: S.Target)
    requires t == S.Target(Some(S.Standalone(1)), Some(4), None, [], true)
    ensures Dropped(TakenLines(), t, 5) == ["x", "{", "t=2"] && AnyLine(t)
  {
    var lines := TakenLines();
    assert LastInBlock([]).None? && BlockEnd(t, 4) == 4;
    assert Doomed(t, 1) && Doomed(t, 4) && !Doomed(t, 0) && !Doomed(t, 2) && !Doomed(t, 3);
    hide Doomed;
    assert Dropped(lines, t, 1) == Dropped(lines, t, 0) + ["x"] == ["x"];
    assert Dropped(lines, t, 2) == ["x"] + [];
    assert Dropped(lines, t, 3) == ["x"] + ["{"];
    assert Dropped(lines, t, 4) == ["x", "{"] + ["t=2"];
    assert Dropped(lines, t, 5) == ["x", "{", "t=2"] + [];
  }

  // ----- the deletion

  lemma TakenEdit()
    ensures DeletedPkg(TakenLines(), "p") == Edited(Ok, ["x", "{", "t=2"])
    ensures LeftReads(ClassifyAll(["x", "{", "t=2"]))
  {
    hide Classify, S.HeaderTo, S.OpenTo, S.CloseTo, S.HitsTo, Dropped;
    var lines, left := TakenLines(), ["x", "{", "t=2"];
    var cs := ClassifyAll(lines);
    Reads();
    TakenRecord(cs);
    TakenRound(S.Scan(cs, "p"));
    assert Normalized(lines, "p") == lines;
    assert RoundOf(lines, "p") == left;
    assert cs[0] == Classify("x") && cs[2] == Classify("{") && cs[3] == Classify("t=2");
    LeftRecord(ClassifyAll(left));
    assert !AnyLine(S.Scan(ClassifyAll(left), "p"));
    assert Purged(left, "p") == left;
    assert Purged(lines, "p") == left;
  }

  /** The rule that stood alone for package t stands in a block of package x afterwards. The
      file has no orphan brace and ends in a block of the deleted package. */
  lemma BraceTaken(ok: Verdict)
    requires ok("t", "", "2")
    ensures var cs, e := ClassifyAll(TakenLines()), DeletedPkg(TakenLines(), "p");
            && S.NoOrphans(cs, |cs|) && After(START, cs) == State(true, "p", "") && e.answer == Ok
            && Others(Loaded(ok, cs), "p") == [AffinityRule("t", "", "2")]
            && Loaded(ok, ClassifyAll(e.lines)) == if ok("x", "t", "2") then [AffinityRule("x", "t", "2")] else []
  {
    hide Classify, After, Loaded, Others, DeletedPkg, S.NoOrphans;
    TakenEdit();
    Reads();
    var cs := ClassifyAll(TakenLines());
    NoneOrphan(cs);
    TakenRun(ok, cs);
    LeftRun(ok, ClassifyAll(["x", "{", "t=2"]));
  }

  lemma NoneOrphan(cs: seq<Line>)
    requires TakenReads(cs)
    ensures S.NoOrphans(cs, |cs|)
  {
    TakenStates(cs);
    hide S.StateAt;
  }

  lemma TakenRun(ok: Verdict, cs: seq<Line>)
    requires TakenReads(cs) && ok("t", "", "2")
    ensures After(START, cs) == State(true, "p", "") && Others(Loaded(ok, cs), "p") == [AffinityRule("t", "", "2")]
  {
    hide After, Rules;
    assert cs == [cs[0]] + ([cs[1]] + ([cs[2]] + ([cs[3]] + [cs[4]])));
    var s1 := Step(START, cs[0]);
    Next(ok, START, cs[0], [cs[1]] + ([cs[2]] + ([cs[3]] + [cs[4]])));
    Next(ok, s1, cs[1], [cs[2]] + ([cs[3]] + [cs[4]]));
    Next(ok, START, cs[2], [cs[3]] + [cs[4]]);
    Next(ok, START, cs[3], [cs[4]]);
    One(ok, START, cs[4]);
    var p, t := Emit(ok, s1, cs[1]), [AffinityRule("t", "", "2")];
    assert Loaded(ok, cs) == p + t;
    OthersConcat(p, t, "p");
    OthersOfNone(p, "p");
    OthersOfAll(t, "p");
  }

  lemma LeftRun(ok: Verdict, cs: seq<Line>)
    requires LeftReads(cs)
    ensures Loaded(ok, cs) == if ok("x", "t", "2") then [AffinityRule("x", "t", "2")] else []
  {
    hide After, Rules;
    assert cs == [cs[0]] + ([cs[1]] + [cs[2]]);
    var s1 := Step(START, cs[0]);
    Next(ok, START, cs[0], [cs[1]] + [cs[2]]);
    Next(ok, s1, cs[1], [cs[2]]);
    One(ok, Step(s1, cs[1]), cs[2]);
  }

  lemma Next(ok: Verdict, s: State, c: Line, rest: seq<Line>)
    ensures After(s, [c] + rest) == After(Step(s, c), rest)
    ensures Rules(ok, s, [c] + rest) == Emit(ok, s, c) + Rules(ok, Step(s, c), rest)
  {
    assert ([c] + rest)[1..] == rest;
  }

  // ----- the same with an upsert

  /** A waiting line, a single-line rule, a stray brace, the same rule again, an unclosed
      block. */
  function LostLines(): seq<string>
  {
    ["y", "x{t}=1", "{", "x{t}=1", "x {"]
  }

  predicate LostReads(cs: seq<Line>)
  {
    && |cs| == 5 && (forall k | 0 <= k < 5 :: cs[k].Text?)
    && cs[0].outer == Pending("y") && cs[1].outer == Single("x", "t", "1", false) && cs[2].outer == BareOpen("")
    && cs[3].outer == Single("x", "t", "1", false) && cs[4].outer == BareOpen("x") && cs[4].inner.Bad? && !cs[4].inner.closes
  }

  lemma ReadsLost()
    ensures LostReads(ClassifyAll(LostLines()))
  {
    hide Classify, PkgSafe, ParseOuterCore;
    PlainName("x");
    PlainName("y");
    LoneLines();
    WaitingLine("y");
    EntryAndSingle();
    OpenLine("x");
    BraceIsBad();
    var lines := LostLines();
    assert BareOpenLine("x") == "x {";
    assert ClassifyAll(lines) == [Classify("y"), Classify("x{t}=1"), Classify("{"), Classify("x{t}=1"), Classify("x {")];
  }

  lemma BraceIsBad()
    ensures Classify("x {").Text? && Classify("x {").inner == Bad(false)
  {
    hide ParseOuter;
    var p := "x {";
    TrimTrimmed(p);
    NoMarkIn(p);
    MarkFacts(p, 0);
    RFindFacts(p, '=');
    CloserNone(p);
  }

  lemma LostStates(cs: seq<Line>)
    requires LostReads(cs)
    ensures S.StateAt(cs, 0) == S.State(false, "", None) && S.StateAt(cs, 1) == S.State(false, "", Some(0))
    ensures (forall k | 2 <= k <= 4 :: S.StateAt(cs, k) == S.State(false, "", None)) && S.StateAt(cs, 5) == S.State(true, "x", None)
  {
    assert S.StateAt(cs, 0) == S.State(false, "", None);
    assert S.StateAt(cs, 1) == S.Step(cs, 0, S.StateAt(cs, 0));
    assert S.StateAt(cs, 2) == S.Step(cs, 1, S.StateAt(cs, 1));
    assert S.StateAt(cs, 3) == S.Step(cs, 2, S.StateAt(cs, 2));
    assert S.StateAt(cs, 4) == S.Step(cs, 3, S.StateAt(cs, 3));
    assert S.StateAt(cs, 5) == S.Step(cs, 4, S.StateAt(cs, 4));
  }

  lemma LostRecord(cs: seq<Line>)
    requires LostReads(cs)
    ensures var one, two := S.ThreadLoc(1, true, false, false), S.ThreadLoc(3, true, false, false);
            var t := S.Scan(cs, "x");
            && t.pkgLine == Some(S.OpenBare(4)) && t.blockClose.None? && t.hits == [S.Hit("t", one), S.Hit("t", two)]
            && SinglesOf(t.hits) == [one, two] && ThreadLocs(t.hits, "t") == [one, two]
  {
    LostStates(cs);
    hide S.StateAt;
    LostHits(cs);
    assert S.HeaderAt(cs, "x", 0).None? && S.HeaderAt(cs, "x", 1).None? && S.HeaderAt(cs, "x", 2).None?;
    assert S.HeaderAt(cs, "x", 3).None? && S.HeaderAt(cs, "x", 4) == Some(S.OpenBare(4));
    hide S.HeaderAt, S.HitsTo;
    assert S.HeaderTo(cs, "x", 1).None? && S.HeaderTo(cs, "x", 2).None? && S.HeaderTo(cs, "x", 3).None?;
    assert S.HeaderTo(cs, "x", 4).None? && S.HeaderTo(cs, "x", 5) == Some(S.OpenBare(4));
    assert S.CloseTo(cs, "x", 1).None? && S.CloseTo(cs, "x", 2).None? && S.CloseTo(cs, "x", 3).None?;
    assert S.CloseTo(cs, "x", 4).None? && S.CloseTo(cs, "x", 5).None?;
    TwoHits(S.ThreadLoc(1, true, false, false), S.ThreadLoc(3, true, false, false));
  }

  lemma LostHits(cs: seq<Line>)
    requires LostReads(cs) && S.StateAt(cs, 1) == S.State(false, "", Some(0))
    requires S.StateAt(cs, 0) == S.State(false, "", None) && forall k | 2 <= k <= 4 :: S.StateAt(cs, k) == S.State(false, "", None)
    ensures S.HitsTo(cs, "x", 5) == [S.Hit("t", S.ThreadLoc(1, true, false, false)), S.Hit("t", S.ThreadLoc(3, true, false, false))]
  {
    hide S.StateAt;
    var a, b := S.Hit("t", S.ThreadLoc(1, true, false, false)), S.Hit("t", S.ThreadLoc(3, true, false, false));
    assert S.HitAt(cs, "x", 0).None? && S.HitAt(cs, "x", 1) == Some(a) && S.HitAt(cs, "x", 2).None?;
    assert S.HitAt(cs, "x", 3) == Some(b) && S.HitAt(cs, "x", 4).None?;
    hide S.HitAt;
    assert S.HitsTo(cs, "x", 1) == [] && S.HitsTo(cs, "x", 2) == [a] && S.HitsTo(cs, "x", 3) == [a] + [];
    assert S.HitsTo(cs, "x", 4) == [a] + [b] && S.HitsTo(cs, "x", 5) == [a, b] + [];
  }

  lemma TwoHits(one: S.ThreadLoc, two: S.ThreadLoc)
    requires one.single && two.single
    ensures var hits := [S.Hit("t", one), S.Hit("t", two)]; SinglesOf(hits) == [one, two] && ThreadLocs(hits, "t") == [one, two]
  {
    var hits := [S.Hit("t", one), S.Hit("t", two)];
    assert hits[..1] == [S.Hit("t", one)] && hits[..1][..0] == [];
    assert SinglesOf(hits[..1]) == [one] && ThreadLocs(hits[..1], "t") == [one];
  }

  lemma LostEdit(cpus: string)
    requires CpuText(cpus)
    ensures Upserted(LostLines(), "x", "t", cpus) == Edited(Ok, ["y", "{", SpecSwap("x{t}=1", cpus), "x {"])
  {
    hide Classify, S.HeaderTo, S.OpenTo, S.CloseTo, S.HitsTo, SpecSwap, SinglesOf, ThreadLocs;
    var lines := LostLines();
    ReadsLost();
    LostRecord(ClassifyAll(lines));
    assert Normalized(lines, "x") == lines;
    var one := S.ThreadLoc(1, true, false, false);
    var given := Swapped(lines, 3, cpus);
    assert given == ["y", "x{t}=1", "{", SpecSwap("x{t}=1", cpus), "x {"];
    var locs := [one, S.ThreadLoc(3, true, false, false)];
    assert locs[..1] == [one];
    assert Stripped(given, "x", [one], 1) == given;
    assert Stripped(given, "x", [one], 0) == ["y", "{", SpecSwap("x{t}=1", cpus), "x {"];
  }

  /** The answer is "ok", and the rule that was given is not loaded, nor is any other rule of
      the package: its line stands in a block of package y. */
  lemma RuleTaken(ok: Verdict, cpus: string)
    requires CpuText(cpus)
    ensures var cs, e := ClassifyAll(LostLines()), Upserted(LostLines(), "x", "t", cpus);
            && S.NoOrphans(cs, |cs|) && Normalized(LostLines(), "x") == LostLines() && e.answer == Ok
            && forall r | r in Loaded(ok, ClassifyAll(e.lines)) :: r.pkg == "y"
  {
    hide Classify, SpecSwap, S.HeaderTo, S.OpenTo, S.CloseTo, S.HitsTo, SinglesOf, ThreadLocs, Normalized, Upserted, CpuText;
    LostEdit(cpus);
    ReadsLost();
    var lines := LostLines();
    var cs := ClassifyAll(lines);
    LostRecord(cs);
    LostStays(lines);
    LostStates(cs);
    EntryAndSingle();
    CpuNoBrace("1") by {
      OneDigit("1");
    }
    SwapEntry("x{t}=1", "x{t}", "1", cpus);
    var os := ClassifyAll(["y", "{", SpecSwap("x{t}=1", cpus), "x {"]);
    assert cs[0] == Classify("y") && cs[2] == Classify("{") && cs[4] == Classify("x {");
    LostRun(ok, os);
  }

  lemma LostStays(lines: seq<string>)
    requires var t := S.Scan(ClassifyAll(lines), "x"); t.blockClose.None? && t.pkgLine.Some? && t.pkgLine.value.OpenBare?
    ensures Normalized(lines, "x") == lines
  {
    hide Classify, SinglesOf, Stripped, PutBack, SingleTexts, S.HeaderTo, S.OpenTo, S.CloseTo, S.HitsTo;
  }

  lemma LostRun(ok: Verdict, cs: seq<Line>)
    requires |cs| == 4 && (forall k | 0 <= k < 4 :: cs[k].Text?) && cs[0].outer == Pending("y") && cs[1].outer == BareOpen("")
    requires cs[2].inner.Entry? && !cs[2].inner.closed && cs[3].inner == Bad(false)
    ensures forall r | r in Loaded(ok, cs) :: r.pkg == "y"
  {
    hide After, Rules;
    assert cs == [cs[0]] + ([cs[1]] + ([cs[2]] + [cs[3]]));
    var s1 := Step(START, cs[0]);
    var s2 := Step(s1, cs[1]);
    Next(ok, START, cs[0], [cs[1]] + ([cs[2]] + [cs[3]]));
    Next(ok, s1, cs[1], [cs[2]] + [cs[3]]);
    Next(ok, s2, cs[2], [cs[3]]);
    One(ok, s2, cs[3]);
  }

  // ----- a closing brace in a CPU text

  lemma BracedReads(v: string)
    requires v != "" && Trimmed(v) && '=' !in v && forall i | 0 <= i < |v| :: v[i] !in {'#', '/', '{'}
    ensures var c := Classify("p=" + v); c.Text? && c.outer == Rule("p", v, false)
  {
    hide Trim, RFind, SingleNames, StripComment, Find;
    var q := "p=" + v;
    assert q == "p" + ['='] + v && q[|q| - 1] == v[|v| - 1];
    RFindIs("p", '=', v);
    assert q[..1] == "p" && q[2..] == v;
    TrimTrimmed(q);
    TrimTrimmed("p");
    TrimTrimmed(v);
    NoMarkIn(q);
    MarkFacts(q, 0);
    NoNamesIn("p");
    assert StripComment(q) == q by {
      Whole(q);
    }
  }

  lemma Whole(q: string)
    requires NoMark(q)
    ensures StripComment(q) == q
  {
    MarkFacts(q, 0);
  }

  lemma NoNamesIn(p: string)
    requires p == "p"
    ensures SingleNames(p).None?
  {
    BodyFacts(p);
  }

  /** A file of one rule with a brace behind its CPUs, which the loader turns down: the brace
      stays behind the new CPUs, so the answer is "ok" and still no rule is loaded. */
  lemma BraceKept(ok: Verdict, cpus: string)
    requires SpecVerdict(ok) && CpuText(cpus)
    ensures var e := Upserted(["p=1}"], "p", "", cpus); e.answer == Ok && Loaded(ok, ClassifyAll(e.lines)) == []
  {
    hide Classify, SpecSwap, Normalized, CpuText;
    BracedReads("1}");
    assert "p=" + "1}" == "p=1}";
    BracedSwap(cpus);
    BracedReads(cpus + "}") by {
      BracedText(cpus);
    }
    assert "p=" + (cpus + "}") == "p=" + cpus + "}";
    var lines := ["p=1}"];
    var cs := ClassifyAll(lines);
    assert cs == [Classify("p=1}")];
    OneHeader(cs);
    AloneStays(lines);
    var os := ClassifyAll(["p=" + cpus + "}"]);
    assert os == [Classify("p=" + cpus + "}")];
    One(ok, START, os[0]);
    assert Swapped(lines, 0, cpus) == ["p=" + cpus + "}"];
    Braced(ok, cpus);
  }

  lemma BracedText(cpus: string)
    requires CpuText(cpus)
    ensures var v := cpus + "}"; Trimmed(v) && '=' !in v && forall i | 0 <= i < |v| :: v[i] !in {'#', '/', '{'}
  {
  }

  lemma Braced(ok: Verdict, cpus: string)
    requires SpecVerdict(ok)
    ensures !ok("p", "", cpus + "}")
  {
    var v := cpus + "}";
    assert v[|cpus|] == '}';
  }

  lemma BracedSwap(cpus: string)
    ensures SpecSwap("p=1}", cpus) == "p=" + cpus + "}"
  {
    var raw := "p=1}";
    NoMarkIn(raw);
    MarkFacts(raw, 0);
    assert raw[..|raw|] == raw && raw[|raw|..] == "";
    RFindIs("p", '=', "1}");
    assert "p" + ['='] + "1}" == raw;
    assert LeadFrom(raw, 2) == 2 && BreakFrom(raw, 2) == 3;
    assert raw[3..] == "}" && Breaks("}") == "}" + Breaks("");
    assert raw[..2] == "p=";
  }

  lemma OneHeader(cs: seq<Line>)
    requires |cs| == 1 && cs[0].Text? && cs[0].outer == Rule("p", "1}", false)
    ensures var t := S.Scan(cs, "p"); t.pkgLine == Some(S.Standalone(0)) && t.hits == []
  {
    assert S.StateAt(cs, 0) == S.State(false, "", None);
    assert S.HeaderAt(cs, "p", 0) == Some(S.Standalone(0)) && S.HitAt(cs, "p", 0).None?;
    assert S.HeaderTo(cs, "p", 0).None? && S.HitsTo(cs, "p", 0) == [];
  }

  lemma AloneStays(lines: seq<string>)
    requires S.Scan(ClassifyAll(lines), "p").hits == []
    ensures Normalized(lines, "p") == lines
  {
    hide Classify, S.HeaderTo, S.OpenTo, S.CloseTo, S.HitsTo;
  }
}
