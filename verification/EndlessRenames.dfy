/** Files and names on which the rounds of `rule_rename` do not end. */
module EndlessRenames {
  import opened Base
  import opened Text
  import opened Lines
  import opened Syntax
  import opened Shapes
  import opened Printing
  import opened Loader
  import opened Edits
  import opened Tracking
  import opened Swapping
  import opened Stripping
  import opened Normalizing
  import opened Renaming
  import opened RenamedLines
  import opened RuleEdits
  import opened RenameRounds
  import opened RenameSteps
  import opened Findings
  import S = Scanner

  // ----- a single-line rule that opens a block

  /** On one line that is a single-line rule and opens a block, a name that names itself is
      put on for ever: normalizing leaves the line as it is, and after every number of
      rounds it still names the old package. */
  lemma RenameNeverEnds(raw: string, was: string, name: string, k: nat)
    requires Classify(raw).Text? && Classify(raw).outer.Single? && Classify(raw).outer.pkg == was && Classify(raw).outer.open
    requires PkgSafe(was) && PkgSafe(name) && was != name && NamesItself(was, name)
    ensures Normalized([raw], was) == [raw] && ToRename([raw], was, name) && !RenameEnds([raw], was, name)
    ensures AnyLine(S.Scan(ClassifyAll(Rounds([raw], was, name, k)), was))
  {
    hide Classify, PkgSafe, NamesItself, AnyLine, S.Scan, Rounds, SinglesOf;
    var c := Classify(raw);
    var cs := ClassifyAll([raw]);
    assert cs == [c];
    OneSingle(c, was);
    OneSingle(c, name);
    OneSeen(c, was);
    assert Stuck([raw], was, name, 0);
    StuckForever([raw], was, name, 0, k);
    StuckForever([raw], was, name, 0, WeightOf([raw], was, name));
    LeftAsItIs(raw, was);
    NothingElse(cs, name);
    AnySeen(cs, was, 0);
  }

  lemma OneSeen(c: Line, pkg: string)
    requires Named(c) && c.Text? && c.outer.Single? && c.outer.pkg == pkg
    ensures SingleSeen([c], pkg, 0)
  {
  }

  lemma LeftAsItIs(raw: string, was: string)
    requires var t := S.Scan(ClassifyAll([raw]), was);
             t.blockClose.None? && SinglesOf(t.hits) == [S.ThreadLoc(0, true, false, true)]
    ensures Normalized([raw], was) == [raw]
  {
    hide Classify, SinglesOf, S.Scan;
    var locs := SinglesOf(S.Scan(ClassifyAll([raw]), was).hits);
    assert locs[0].open && locs[0] in locs;
  }

  lemma NothingElse(cs: seq<Line>, pkg: string)
    requires S.Scan(cs, pkg).pkgLine.None? && SinglesOf(S.Scan(cs, pkg).hits) == []
    ensures !AnyLine(S.Scan(cs, pkg))
  {
  }

  // ----- a clean file

  /** A clean file of one empty block, opened by a bare header with a comment: if the new
      name is the text of a single-line rule of the old package, the rename does not
      return. */
  lemma ClearNeverEnds(ok: Verdict, was: string, name: string, c: string)
    requires PkgSafe(was) && '=' !in was && PkgSafe(name) && was != name && Endless(was, name) && Remark(c)
    ensures var lines := [was + " {" + c, "}"];
            && Clean(ok, ClassifyAll(lines)) && !HasSingles(lines, was) && Normalized(lines, was) == lines
            && ToRename(lines, was, name) && !RenameEnds(lines, was, name)
  {
    hide Classify, PkgSafe, Endless, NamesItself, AnyLine, S.Scan, StripComment, CommentAt, Trim;
    var lines := [was + " {" + c, "}"];
    var cs := ClassifyAll(lines);
    SafeName(was);
    SafeName(name);
    BareHeader(was, c);
    CloseLine();
    assert cs == [Classify(lines[0]), Classify("}")];
    TwoLines(ok, cs, was, name);
    EndlessEq(was, name);
    NothingMovedHere(lines, was);
    assert NameTrap(lines[0], was, name);
    assert EndlessAt(lines, was, name, 0);
    EndsIff(lines, was, name);
  }

  lemma EndlessEq(was: string, name: string)
    requires PkgSafe(name) && Endless(was, name)
    ensures '=' in name && NamesItself(was, name)
  {
    TrapSingle(Pending(was), was, name);
    hide Endless, NamesItself;
  }

  lemma NothingMovedHere(lines: seq<string>, pkg: string)
    requires SinglesOf(S.Scan(ClassifyAll(lines), pkg).hits) == []
    ensures Normalized(lines, pkg) == lines
  {
  }

  lemma TwoLines(ok: Verdict, cs: seq<Line>, was: string, name: string)
    requires |cs| == 2 && cs[0].Text? && cs[0].outer == BareOpen(was) && cs[1].Text? && cs[1].inner == Close
    requires was != "" && name != "" && was != name
    ensures Clean(ok, cs) && HeaderSeen(cs, was, 0) && AnyLine(S.Scan(cs, was)) && !AnyLine(S.Scan(cs, name))
    ensures SinglesOf(S.Scan(cs, was).hits) == [] && forall k | 0 <= k < 2 :: !SingleAt(cs, was, k)
  {
    assert cs == [cs[0]] + [cs[1]];
    Concat(ok, START, [cs[0]], [cs[1]]);
    One(ok, START, cs[0]);
    One(ok, Step(START, cs[0]), cs[1]);
    OwnHeader(cs, was, 0);
    HeaderIsSeen(cs, was, 0);
    AnySeen(cs, was, 0);
    hide Clean, After, Hard, Soft;
    assert S.StateAt(cs, 0) == S.State(false, "", None) && S.StateAt(cs, 1) == S.State(true, was, None);
    TwoHits(cs, was);
    TwoHits(cs, name);
    assert S.HeaderAt(cs, name, 0).None? && S.HeaderAt(cs, name, 1).None?;
    assert S.HeaderTo(cs, name, 0).None? && S.HeaderTo(cs, name, 1).None? && S.HeaderTo(cs, name, 2).None?;
    assert StateAt(cs, 0) == START && StateAt(cs, 1).inBlock by {
      assert cs[..0] == [] && cs[..1] == [cs[0]];
      One(ok, START, cs[0]);
    }
  }

  lemma TwoHits(cs: seq<Line>, pkg: string)
    requires |cs| == 2 && S.HitAt(cs, pkg, 0).None? && S.HitAt(cs, pkg, 1).None?
    ensures S.HitsTo(cs, pkg, 2) == []
  {
    assert S.HitsTo(cs, pkg, 0) == [];
    assert S.HitsTo(cs, pkg, 1) == [];
  }

  /** Such a name: it can be printed, and only a brace, a `=` and another brace make it one. */
  lemma EndlessName()
    ensures PkgSafe("x{b}=c") && Endless("x", "x{b}=c")
  {
    hide PkgSafe, SingleNames, RFind, Trim, Core, NoMark;
    var name := "x{b}=c";
    PlainName(name);
    NamesRead("b");
    assert "x{" + "b" + "}" == "x{b}" && name == "x{b}" + ['='] + "c";
    RFindIs("x{b}", '=', "c");
    assert name[..4] == "x{b}";
    assert OpenBody(name) == name;
  }

  /** A name that starts and ends with a letter and has no comment mark can be printed. */
  lemma PlainName(name: string)
    requires name != "" && (forall i | 0 <= i < |name| :: name[i] !in {'#', '/'})
    requires 'a' <= name[0] <= 'z' && ('a' <= name[|name| - 1] <= 'z' || '0' <= name[|name| - 1] <= '9')
    ensures PkgSafe(name)
  {
    NoMarkIn(name);
  }

  lemma NamesRead(n: string)
    requires Trimmed(n)
    ensures SingleNames("x{" + n + "}") == Some(("x", n))
  {
    hide Trim, TrimEnd, Find;
    var left, t := "x{" + n, "x{" + n + "}";
    EndStays(t);
    EndStays(left);
    assert t[..|t| - 1] == left;
    FindFacts(left, '{');
    assert left[1] == '{' && left[0] == 'x';
    assert left[..1] == "x" && left[2..] == n;
    TrimTrimmed("x");
    TrimTrimmed(n);
  }

  lemma EndStays(s: string)
    requires s != "" && !IsWs(s[|s| - 1])
    ensures TrimEnd(s) == s
  {
    BodyLenIs(s, "");
    assert s + "" == s;
  }

  // ----- a block that falls apart

  /** The file on which a name that only starts like a single-line rule goes on for ever. */
  function SpillLines(c: string): seq<string>
  {
    ["x" + c, "{", "x{t}=1", "}"]
  }

  lemma EntryAndSingle()
    ensures var d := Classify("x{t}=1");
            d.Text? && d.inner == Entry("x{t}", "1", false) && d.outer == Single("x", "t", "1", false)
  {
    hide SingleNames, Core, Tail, Trim, Classify, SplitRuleCore, RFind, CloseLike, ParseOuterCore, StripComment, EntrySafe, CpuText;
    var th, e := "x{t}", "x{t}=1";
    ThreadSafe(th);
    EntryCore(th, "1");
    assert th + "=" + "1" == e && "" + e + "" == e;
    EmptyTail();
    ReadShape("", e, "");
    SingleOfOne();
  }

  lemma SingleOfOne()
    ensures ParseOuterCore("x{t}=1") == Single("x", "t", "1", false)
  {
    hide SingleNames, Trim, RFind;
    var th, e := "x{t}", "x{t}=1";
    NamesRead("t");
    assert "x{" + "t" + "}" == th && e == th + ['='] + "1";
    RFindIs(th, '=', "1");
    assert e[..4] == th && e[5..] == "1";
    TrimTrimmed("1");
    assert OpenBody(e) == e;
  }

  lemma ThreadSafe(th: string)
    requires th == "x{t}"
    ensures EntrySafe(th) && CpuText("1")
  {
    NoMarkIn(th);
    forall i | 0 <= i < |th| ensures !Closer(th, i) {
      RFindFacts(th[..i], '=');
    }
    CloserNone(th);
  }

  lemma WaitingHeader(c: string)
    requires Remark(c)
    ensures var h := "x" + c;
            Classify(h).Text? && Classify(h).outer == Pending("x") && CommentAt(h).Some? && '=' !in StripComment(Trim(h))
    ensures PkgSafe("x")
  {
    hide Core, Tail, ParseOuterCore, Classify, CommentAt, StripComment, Trim;
    PlainName("x");
    BareReads("x", "", false);
    TailOf(c);
    assert "" + "x" + c == "x" + c;
    ReadShape("", "x", c);
    CommentAtShape("", "x", c);
  }

  lemma RuleName()
    ensures var name := "x{y=5";
            && PkgSafe(name) && '=' in name && NamesItself("x", name) && !Endless("x", name)
            && ParseOuterCore(name) == Rule("x{y", "5", false)
  {
    hide Trim, RFind, SingleNames, PkgSafe, Find;
    var name := "x{y=5";
    PlainName(name);
    assert name == "x{y" + ['='] + "5";
    RFindIs("x{y", '=', "5");
    assert name[..3] == "x{y" && name[4..] == "5";
    TrimTrimmed("5");
    TrimTrimmed("x{y");
    TrimTrimmed("x");
    FirstAt(name, 1);
    assert name[..1] == "x";
    NoNames();
    assert OpenBody(name) == name;
  }

  lemma NoNames()
    ensures SingleNames("x{y").None?
  {
    EndStays("x{y");
    hide TrimEnd;
  }

  /** Renaming package `x` to `x{y=5` on a clean file of one block whose header waits for
      its brace: the header becomes a rule, the block falls apart, and a thread line of it
      is read as a single-line rule of `x`, for ever. The name itself is no such rule. */
  lemma SpillNeverEnds(ok: Verdict, c: string)
    requires Remark(c) && ok("x", "x{t}", "1")
    ensures var lines, name := SpillLines(c), "x{y=5";
            && Clean(ok, ClassifyAll(lines)) && !HasSingles(lines, "x") && Normalized(lines, "x") == lines
            && !Endless("x", name) && ToRename(lines, "x", name) && !RenameEnds(lines, "x", name)
  {
    hide Classify, PkgSafe, NamesItself, Endless, AnyLine, S.Scan, StripComment, CommentAt, Trim, ParseOuterCore, RenameRound,
         WeightOf, SinglesOf, Marked;
    var lines, was, name := SpillLines(c), "x", "x{y=5";
    var cs := ClassifyAll(lines);
    WaitingHeader(c);
    RuleName();
    EntryAndSingle();
    CloseLine();
    LoneLines();
    assert cs == [Classify(lines[0]), Classify("{"), Classify("x{t}=1"), Classify("}")];
    WholeBlockOf(ok, cs, was, name);
    NothingMovedHere(lines, was);
    assert NameTrap(lines[0], was, name);
    TrapReads(lines[0], was, name);
    SpilledRound(c, name);
    RoundLighter(lines, was, name);
    StuckForever(RenameRound(lines, was, name), was, name, 2, WeightOf(lines, was, name) - 1);
  }

  lemma WholeBlockOf(ok: Verdict, cs: seq<Line>, was: string, name: string)
    requires |cs| == 4 && (forall k | 0 <= k < 4 :: cs[k].Text?) && cs[0].outer == Pending(was) && cs[1].outer == BareOpen("")
    requires cs[2].inner.Entry? && !cs[2].inner.closed && ok(was, cs[2].inner.name, cs[2].inner.cpus) && cs[3].inner == Close
    requires was != "" && name != "" && was != name
    ensures Clean(ok, cs) && S.Scan(cs, was).pkgLine == Some(S.BarePending(0))
    ensures AnyLine(S.Scan(cs, was)) && !AnyLine(S.Scan(cs, name))
    ensures SinglesOf(S.Scan(cs, was).hits) == [] && forall k | 0 <= k < 4 :: !SingleAt(cs, was, k)
  {
    WholeBlockLoads(ok, cs, was);
    WholeBlockStates(cs, was);
    hide Clean, S.StateAt, SinglesOf, S.Scan, SingleAt, AnyLine;
    WholeBlockHeaders(cs, was, name);
    WholeBlockHits(cs, was);
    WholeBlockHits(cs, name);
    LineSeen(cs, was);
    LineSeen(cs, name);
    WholeBlockSingles(ok, cs, was);
  }

  lemma WholeBlockSingles(ok: Verdict, cs: seq<Line>, was: string)
    requires |cs| == 4 && cs[0].Text? && cs[0].outer.Pending? && cs[1].Text? && cs[1].outer.BareOpen?
    requires Clean(ok, cs) && S.StateAt(cs, 2).inBlock && S.StateAt(cs, 3).inBlock
    ensures forall k | 0 <= k < 4 :: !SingleAt(cs, was, k)
  {
    hide Clean, S.StateAt, StateAt;
    forall k | 0 <= k < 4 ensures !SingleAt(cs, was, k) {
      CleanLine(ok, cs, k);
    }
  }

  lemma LineSeen(cs: seq<Line>, name: string)
    requires SinglesOf(S.Scan(cs, name).hits) == []
    ensures AnyLine(S.Scan(cs, name)) <==> S.Scan(cs, name).pkgLine.Some?
  {
    hide S.Scan;
  }

  lemma WholeBlockStates(cs: seq<Line>, was: string)
    requires |cs| == 4 && (forall k | 0 <= k < 4 :: cs[k].Text?) && cs[0].outer == Pending(was) && cs[1].outer == BareOpen("")
    requires cs[2].inner.Entry? && !cs[2].inner.closed
    ensures S.StateAt(cs, 0) == S.State(false, "", None) && S.StateAt(cs, 1) == S.State(false, "", Some(0))
    ensures S.StateAt(cs, 2) == S.State(true, was, None) && S.StateAt(cs, 3) == S.State(true, was, None)
  {
    assert S.StateAt(cs, 0) == S.State(false, "", None);
    assert S.StateAt(cs, 1) == S.Step(cs, 0, S.StateAt(cs, 0));
    assert S.StateAt(cs, 2) == S.Step(cs, 1, S.StateAt(cs, 1));
    assert S.StateAt(cs, 3) == S.Step(cs, 2, S.StateAt(cs, 2));
  }

  lemma WholeBlockLoads(ok: Verdict, cs: seq<Line>, was: string)
    requires |cs| == 4 && (forall k | 0 <= k < 4 :: cs[k].Text?) && cs[0].outer == Pending(was) && cs[1].outer == BareOpen("")
    requires cs[2].inner.Entry? && !cs[2].inner.closed && ok(was, cs[2].inner.name, cs[2].inner.cpus) && cs[3].inner == Close
    requires was != ""
    ensures Clean(ok, cs)
  {
    hide After, Hard, Soft;
    assert cs == [cs[0]] + ([cs[1]] + ([cs[2]] + [cs[3]]));
    Concat(ok, START, [cs[0]], [cs[1]] + ([cs[2]] + [cs[3]]));
    One(ok, START, cs[0]);
    var s1 := Step(START, cs[0]);
    Concat(ok, s1, [cs[1]], [cs[2]] + [cs[3]]);
    One(ok, s1, cs[1]);
    var s2 := Step(s1, cs[1]);
    Concat(ok, s2, [cs[2]], [cs[3]]);
    One(ok, s2, cs[2]);
    One(ok, Step(s2, cs[2]), cs[3]);
  }

  lemma WholeBlockHeaders(cs: seq<Line>, was: string, name: string)
    requires |cs| == 4 && (forall k | 0 <= k < 4 :: cs[k].Text?) && cs[0].outer == Pending(was) && cs[1].outer == BareOpen("")
    requires S.StateAt(cs, 0) == S.State(false, "", None) && S.StateAt(cs, 1) == S.State(false, "", Some(0))
    requires S.StateAt(cs, 2).inBlock && S.StateAt(cs, 3).inBlock && was != name
    ensures S.Scan(cs, was).pkgLine == Some(S.BarePending(0)) && S.Scan(cs, name).pkgLine.None?
  {
    hide S.StateAt;
    assert S.HeaderAt(cs, was, 0).None? && S.HeaderAt(cs, name, 0).None?;
    assert S.HeaderAt(cs, was, 1) == Some(S.BarePending(0)) && S.HeaderAt(cs, name, 1).None?;
    assert S.HeaderAt(cs, name, 2).None? && S.HeaderAt(cs, name, 3).None?;
    hide S.HeaderAt;
    assert S.HeaderTo(cs, was, 1).None? && S.HeaderTo(cs, was, 2) == Some(S.BarePending(0));
    assert S.HeaderTo(cs, was, 3) == Some(S.BarePending(0));
    assert S.HeaderTo(cs, name, 1).None? && S.HeaderTo(cs, name, 2).None? && S.HeaderTo(cs, name, 3).None?;
  }

  lemma WholeBlockHits(cs: seq<Line>, pkg: string)
    requires |cs| == 4 && (forall k | 0 <= k < 4 :: cs[k].Text?) && cs[0].outer.Pending? && cs[1].outer == BareOpen("")
    requires S.StateAt(cs, 2).inBlock && S.StateAt(cs, 3).inBlock && !S.StateAt(cs, 0).inBlock && !S.StateAt(cs, 1).inBlock
    ensures SinglesOf(S.Scan(cs, pkg).hits) == []
  {
    hide S.StateAt, S.HitsTo;
    forall k: nat | k < 4 ensures S.HitAt(cs, pkg, k).None? || !S.HitAt(cs, pkg, k).value.loc.single {
    }
    hide S.HitAt;
    NoSinglesTo(cs, pkg, 4);
  }

  lemma {:induction false} NoSinglesTo(cs: seq<Line>, pkg: string, n: nat)
    requires n <= |cs| && forall k | 0 <= k < n :: S.HitAt(cs, pkg, k).None? || !S.HitAt(cs, pkg, k).value.loc.single
    ensures SingleLocs(cs, pkg, n) == []
  {
    hide S.HitAt;
    if n > 0 {
      NoSinglesTo(cs, pkg, n - 1);
      SingleLocsNext(cs, pkg, n - 1);
    }
  }

  /** After the first round, the third line is a single-line rule outside every block. */
  lemma SpilledRound(c: string, name: string)
    requires PkgSafe("x") && PkgSafe(name) && "x" != name
    requires var t := S.Scan(ClassifyAll(SpillLines(c)), "x");
             t.pkgLine == Some(S.BarePending(0)) && SinglesOf(t.hits) == []
    requires var raw := RenamedLine(SpillLines(c)[0], "x", name);
             && Classify(raw).Text? && Classify(raw).outer == Rule("x{y", "5", false) && !NameTrap(raw, "x", name)
    requires Classify("{").Text? && Classify("{").outer == BareOpen("")
    requires Classify("x{t}=1").Text? && Classify("x{t}=1").outer == Single("x", "t", "1", false)
    ensures Stuck(RenameRound(SpillLines(c), "x", name), "x", name, 2)
  {
    hide Classify, PkgSafe, RenamedLine, S.Scan, SinglesOf;
    var lines, was := SpillLines(c), "x";
    RoundIs(lines, was, name);
    var next := lines[0 := RenamedLine(lines[0], was, name)];
    var cs := ClassifyAll(next);
    assert next[1] == "{" && next[2] == "x{t}=1";
    assert cs[0] == Classify(next[0]) && cs[1] == Classify("{") && cs[2] == Classify("x{t}=1");
    var z := S.State(false, "", None);
    assert S.StateAt(cs, 0) == z;
    assert S.StateAt(cs, 1) == z;
    assert S.StateAt(cs, 2) == z;
    assert SingleSeen(cs, was, 2);
    assert !NameTrap(next[1], was, name);
    hide HeaderSeen, NameTrap, S.StateAt;
    assert !SingleSeen(cs, was, 0) && !SingleSeen(cs, was, 1);
    assert Calm(next, was, name, 0) && Calm(next, was, name, 1);
  }
}
