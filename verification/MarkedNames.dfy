/** Thread names that start with a comment mark: what normalizing makes of them. */
module MarkedNames {
  import opened Base
  import opened Text
  import opened Lines
  import opened Syntax
  import opened Shapes
  import opened Printing
  import opened Loader
  import opened Stripping
  import opened Normalizing
  import opened RuleEdits
  import opened Guards
  import S = Scanner

  // ----- the moved line

  /** A name that starts with a comment mark makes the printed line a comment. */
  lemma MarkSkips(th: string, rest: string)
    requires Trimmed(th) && MarkChar(th, 0)
    ensures Classify("\t" + th + rest).Skip?
  {
    var raw := "\t" + th + rest;
    assert raw == "\t" + (th + rest);
    LeadLenIs("\t", th + rest);
    var l, r := TrimSplit(raw);
    assert raw[1] == th[0] && (|th| > 1 ==> raw[2] == th[1]);
    var p := Trim(raw);
    assert |l| == 1 && raw == l + p + r;
    EnoughLeft(raw, p, l, r, th);
  }

  lemma EnoughLeft(raw: string, p: string, l: string, r: string, th: string)
    requires raw == l + p + r && |l| == 1 && Blank(r) && |raw| >= 1 + |th| && raw[1..1 + |th|] == th
    requires Trimmed(th) && MarkChar(th, 0) && (p == "" || Trimmed(p))
    ensures MarkChar(p, 0)
  {
    var k := if th[0] == '#' then 1 else 2;
    assert raw[1] == th[0] && (k == 2 ==> raw[2] == th[1]);
    BehindBlank(raw, p, l, r, k);
    assert p[0] == raw[1] && (k == 2 ==> p[1] == raw[2]);
  }

  lemma BehindBlank(raw: string, p: string, l: string, r: string, k: nat)
    requires raw == l + p + r && |l| == 1 && Blank(r) && k < |raw|
    ensures |p| >= k || IsWs(raw[k])
  {
  }

  lemma MarkedText(th: string, cp: string, raw: string)
    requires Trimmed(th) && MarkChar(th, 0)
    ensures Classify(WithComment(EntryText(th, cp), raw)).Skip?
  {
    hide Classify, Trimmed, MarkChar;
    var w := WithComment(EntryText(th, cp), raw);
    var rest := w[1 + |th|..];
    assert w == "\t" + th + rest;
    MarkSkips(th, rest);
  }

  lemma ThreadTrimmed(raw: string)
    requires Classify(raw).Text? && Classify(raw).outer.Single?
    ensures Trimmed(Classify(raw).outer.thread)
  {
    hide Trim, TrimEnd, Find, RFind, Opens, CloseLike, StripComment, Skipped, SplitRuleLine;
    var b := OpenBody(StripComment(Trim(raw)));
    NamesTrimmed(b[..RFind(b, '=')]);
  }

  lemma NamesTrimmed(l: string)
    requires SingleNames(l).Some?
    ensures Trimmed(SingleNames(l).value.1)
  {
    hide Trim, TrimEnd, Find;
    var t := TrimEnd(l);
    var left := TrimEnd(t[..|t| - 1]);
    TrimIsTrimmed(left[Find(left, '{') + 1..]);
  }

  lemma NoLines(pkg: string)
    ensures S.Scan([], pkg).pkgLine.None? && S.Scan([], pkg).blockClose.None?
  {
  }

  lemma LoneNormalized(raw: string, pkg: string)
    requires var c := Classify(raw); c.Text? && c.outer.Single? && !c.outer.open && c.outer.pkg == pkg
    ensures Normalized([raw], pkg) == [BareOpenLine(pkg), SingleText(raw), "}"]
  {
    hide Classify, SingleText, S.Scan, SinglesOf, BareOpenLine;
    assert ClassifyAll([raw]) == [Classify(raw)];
    OneSingle(Classify(raw), pkg);
    var locs := [S.ThreadLoc(0, true, false, false)];
    assert Stripped([raw], pkg, locs, 1) == [raw];
    assert LineRemoved([raw], pkg, locs[0]) == [];
    assert Stripped([raw], pkg, locs, 0) == [];
    assert ClassifyAll([]) == [];
    NoLines(pkg);
    assert SingleTexts([raw], locs) == [SingleText(raw)];
  }

  /** A block with nothing but a comment. */
  lemma EmptyBlock(ok: Verdict, a: Line, d: Line, z: Line, pkg: string)
    requires a.Text? && a.outer == BareOpen(pkg) && pkg != "" && d.Skip?
    requires z.Text? && z.inner == Close && z.outer == Junk
    ensures Clean(ok, [a, d, z]) && Loaded(ok, [a, d, z]) == []
  {
    hide After, Rules, Hard, Soft;
    var cs := [a, d, z];
    assert cs == [a] + [d] + [z];
    Cut(ok, START, [a], [d], [z]);
    One(ok, START, a);
    One(ok, Step(START, a), d);
    One(ok, Step(Step(START, a), d), z);
  }

  /** On a file of one single-line rule whose thread name starts with a comment mark, moving
      the rule into a block loses it, and no failure is counted. */
  lemma MarkedNameLost(ok: Verdict, raw: string, pkg: string)
    requires PkgSafe(pkg) && Clean(ok, ClassifyAll([raw]))
    requires Classify(raw).Text? && Classify(raw).outer.Single? && Classify(raw).outer.pkg == pkg
    requires MarkChar(Classify(raw).outer.thread, 0)
    ensures |Loaded(ok, ClassifyAll([raw]))| == 1
    ensures var out := ClassifyAll(Normalized([raw], pkg)); Clean(ok, out) && Loaded(ok, out) == []
  {
    hide Classify, PkgSafe, SingleText, BareOpenLine, Clean, Loaded, Trim, Skipped, MarkChar, Normalized, Trimmed;
    var c := Classify(raw);
    assert ClassifyAll([raw]) == [c];
    SafeName(pkg);
    LoneLine(ok, c);
    LoneNormalized(raw, pkg);
    SingleTextIs(raw);
    ThreadTrimmed(raw);
    MarkedText(c.outer.thread, c.outer.cpus, Trim(raw));
    OpenLine(pkg);
    CloseLine();
    var a, d, z := Classify(BareOpenLine(pkg)), Classify(SingleText(raw)), Classify("}");
    assert ClassifyAll(Normalized([raw], pkg)) == [a, d, z];
    EmptyBlock(ok, a, d, z, pkg);
  }

  lemma LoneLine(ok: Verdict, c: Line)
    requires Clean(ok, [c]) && Named(c) && c.Text? && c.outer.Single?
    ensures !c.outer.open && c.outer.thread != "" && ok(c.outer.pkg, c.outer.thread, c.outer.cpus)
    ensures Loaded(ok, [c]) == [AffinityRule(c.outer.pkg, c.outer.thread, c.outer.cpus)]
  {
    One(ok, START, c);
  }

  // ----- a package can be deleted all the same

  /** The block goes with the package, whatever the name was. */
  lemma MarkedNameDeleted(ok: Verdict, raw: string, pkg: string)
    requires PkgSafe(pkg) && Clean(ok, ClassifyAll([raw]))
    requires Classify(raw).Text? && Classify(raw).outer.Single? && Classify(raw).outer.pkg == pkg
    requires MarkChar(Classify(raw).outer.thread, 0)
    ensures DeletedPkg([raw], pkg) == Edited(Ok, [])
  {
    hide Classify, PkgSafe, SingleText, BareOpenLine, Clean, Loaded, Trim, Skipped, MarkChar, Normalized, Trimmed, S.Scan, Doomed,
         AnyLine;
    var c := Classify(raw);
    assert ClassifyAll([raw]) == [c];
    SafeName(pkg);
    LoneLine(ok, c);
    LoneNormalized(raw, pkg);
    SingleTextIs(raw);
    ThreadTrimmed(raw);
    MarkedText(c.outer.thread, c.outer.cpus, Trim(raw));
    OpenLine(pkg);
    CloseLine();
    var moved := Normalized([raw], pkg);
    var cs := ClassifyAll(moved);
    assert cs == [Classify(BareOpenLine(pkg)), Classify(SingleText(raw)), Classify("}")];
    ThreeScan(cs, pkg);
    var t := S.Scan(cs, pkg);
    assert Dropped(moved, t, 0) == [];
    assert Dropped(moved, t, 1) == [];
    assert Dropped(moved, t, 2) == [];
    assert RoundOf(moved, pkg) == [];
    assert ClassifyAll([]) == [];
    NothingScanned(pkg);
    assert Purged([], pkg) == [];
  }

  lemma NothingScanned(pkg: string)
    ensures !AnyLine(S.Scan([], pkg))
  {
  }

  lemma ThreeScan(cs: seq<Line>, pkg: string)
    requires |cs| == 3 && cs[0].Text? && cs[0].outer == BareOpen(pkg) && pkg != "" && cs[1].Skip?
    requires cs[2].Text? && cs[2].inner == Close
    ensures AnyLine(S.Scan(cs, pkg)) && forall k: nat | k < 3 :: Doomed(S.Scan(cs, pkg), k)
  {
    var z := S.State(false, "", None);
    assert S.StateAt(cs, 0) == z;
    assert S.StateAt(cs, 1) == S.State(true, pkg, None);
    assert S.StateAt(cs, 2) == S.State(true, pkg, None);
    assert S.StateAt(cs, 3) == z;
    ThreeHeader(cs, pkg);
    ThreeBlock(cs, pkg);
    hide S.StateAt, S.HeaderAt, S.HeaderTo, S.OpenTo, S.CloseTo, S.HitsTo;
  }

  lemma ThreeHeader(cs: seq<Line>, pkg: string)
    requires |cs| == 3 && cs[0].Text? && cs[0].outer == BareOpen(pkg) && pkg != "" && !S.StateAt(cs, 0).inBlock
    ensures S.HeaderTo(cs, pkg, 3) == Some(S.OpenBare(0))
  {
    assert S.HeaderAt(cs, pkg, 0) == Some(S.OpenBare(0));
    hide S.HeaderAt;
    assert S.HeaderTo(cs, pkg, 1) == Some(S.OpenBare(0));
    assert S.HeaderTo(cs, pkg, 2) == Some(S.OpenBare(0));
  }

  lemma ThreeBlock(cs: seq<Line>, pkg: string)
    requires |cs| == 3 && !S.StateAt(cs, 0).inBlock && S.InTarget(cs, pkg, 1) && S.InTarget(cs, pkg, 2) && !S.StateAt(cs, 3).inBlock
    ensures S.OpenTo(cs, pkg, 3) == Some(0) && S.CloseTo(cs, pkg, 3) == Some(2)
  {
    hide S.StateAt;
    assert S.CloseTo(cs, pkg, 0).None? && S.CloseTo(cs, pkg, 1).None? && S.CloseTo(cs, pkg, 2).None?;
    assert S.OpenTo(cs, pkg, 1) == Some(0);
    assert S.OpenTo(cs, pkg, 2) == Some(0);
  }
}
