/** Concrete files and names on which the edits go wrong, as the conditions of the main
    results say. */
module Findings {
  import opened Base
  import opened Text
  import opened Lines
  import opened Syntax
  import opened Shapes
  import opened Printing
  import opened Loader
  import opened Edits
  import opened Tracking
  import opened Swapping
  import opened Normalizing
  import opened SinglesMoved
  import opened Renaming
  import opened Purging
  import opened Stripping
  import opened RuleEdits
  import S = Scanner

  /** A comment, with the space in front of it. */
  predicate Remark(c: string)
  {
    |c| >= 2 && c[0] == ' ' && c[1] == '#'
  }

  lemma TailOf(t: string)
    requires Remark(t)
    ensures Tail(t) && !Blank(t)
  {
    LeadFacts(t);
    assert LeadLen(t) == 1;
  }

  // ----- a rule with a comment behind it

  /** A file that holds one package rule with a comment behind it: no thread rule can be
      added to it. */
  lemma CommentedRule(ok: Verdict, pkg: string, cpus: string, c: string)
    requires SpecVerdict(ok) && PkgSafe(pkg) && ok(pkg, "", cpus) && Remark(c)
    ensures var lines := [HeaderText(pkg, cpus, false) + c];
            Editable(ok, lines, pkg) && !HasSingles(lines, pkg) && BraceInComment(lines, pkg)
  {
    hide PkgSafe, CpuText, Core, Tail, ParseOuterCore, CommentAt, Classify;
    var q, t := HeaderText(pkg, cpus, false), c;
    var raw := q + t;
    assert CpuText(cpus);
    SafeName(pkg);
    HeaderCore(pkg, cpus, false);
    TailOf(t);
    assert "" + q + t == raw;
    ReadShape("", q, t);
    CommentAtShape("", q, t);
    var lines := [raw];
    var cs := ClassifyAll(lines);
    assert cs == [Classify(raw)];
    OneRule(ok, cs, pkg, cpus);
  }

  lemma OneRule(ok: Verdict, cs: seq<Line>, pkg: string, cpus: string)
    requires |cs| == 1 && cs[0].Text? && cs[0].outer == Rule(pkg, cpus, false) && ok(pkg, "", cpus) && pkg != ""
    ensures Clean(ok, cs) && !SingleAt(cs, pkg, 0)
    ensures S.HeaderTo(cs, pkg, 1) == Some(S.Standalone(0)) && S.CloseTo(cs, pkg, 1) == None
  {
    assert cs == [cs[0]];
    One(ok, START, cs[0]);
    assert cs[..0] == [];
    assert S.HeaderTo(cs, pkg, 0) == None && S.HeaderAt(cs, pkg, 0) == Some(S.Standalone(0));
    assert S.CloseTo(cs, pkg, 0) == None && !S.StateAt(cs, 0).inBlock;
  }

  // ----- a lone `=`

  /** The scanner takes a lone `=` for a package line and gives it the next brace; the
      loader reports a failure there. */
  lemma LoneEquals()
    ensures !S.NoOrphans(ClassifyAll(["=", "{"]), 2)
  {
    hide Classify;
    var cs := ClassifyAll(["=", "{"]);
    LoneLines();
    assert S.StateAt(cs, 1) == S.Step(cs, 0, S.StateAt(cs, 0));
    assert S.OrphanOpen(cs, 1);
  }

  lemma LoneLines()
    ensures Classify("=").Text? && Classify("=").outer == Pending("")
    ensures Classify("{").Text? && Classify("{").outer == BareOpen("")
  {
    TrimBlank("");
    CoreJoinEmpty();
    assert "" + "=" + "" == "=" && "" + "{" + "" == "{";
    ReadShape("", "=", "");
    ReadShape("", "{", "");
    RFindFacts("=", '=');
    SingleNeedsEq("");
    var body := "=";
    assert body[..0] == "" && body[1..] == "";
    assert "{"[..0] == "";
  }

  lemma CoreJoinEmpty()
    ensures Core("=") && Core("{") && Tail("")
  {
  }

  // ----- a name with a `=`

  /** Renaming the bare header of a package, with a comment behind it, to `n=v`: the line
      becomes a rule of package `n`. */
  lemma NameBecomesRule(was: string, n: string, v: string, c: string)
    requires PkgSafe(was) && '=' !in was && PkgSafe(n) && CpuText(v) && Remark(c)
    ensures var raw := was + " {" + c;
            && Classify(raw).Text? && Classify(raw).outer == BareOpen(was)
            && NameTrap(raw, was, n + "=" + v)
            && var d := Classify(RenamedLine(raw, was, n + "=" + v));
               d.Text? && d.outer == Rule(n, v, true)
  {
    hide PkgSafe, CpuText, Core, Tail, ParseOuterCore, CommentAt, Classify, Trim, RenamedLine, BareOpenLine, StripComment;
    BareHeader(was, c);
    TailOf(c);
    BecomesRule(was, n, v, was + " {", c);
    assert "" + (was + " {") + c == was + " {" + c;
  }

  lemma BareHeader(was: string, c: string)
    requires PkgSafe(was) && '=' !in was && Remark(c)
    ensures var raw := was + " {" + c;
            && Core(was + " {") && Classify(raw).Text? && Classify(raw).outer == BareOpen(was)
            && CommentAt(raw).Some? && '=' !in StripComment(Trim(raw))
  {
    hide PkgSafe, Core, Tail, ParseOuterCore, CommentAt, Classify, Trim, StripComment;
    var q := was + " {";
    BareOpenCore(was);
    TailOf(c);
    assert "" + q + c == was + " {" + c;
    ReadShape("", q, c);
    CommentAtShape("", q, c);
    assert '=' !in q;
  }

  lemma BecomesRule(was: string, n: string, v: string, q: string, t: string)
    requires Core(q) && q == was + " {" && Tail(t) && !Blank(t) && Remark(t) && PkgSafe(n) && CpuText(v)
    ensures var d := Classify(RenamedLine("" + q + t, was, n + "=" + v)); d.Text? && d.outer == Rule(n, v, true)
  {
    hide PkgSafe, CpuText, Core, Tail, ParseOuterCore, Classify, Trim;
    var name := n + "=" + v;
    RenamedShape("", q, t, was, " {", name);
    HashStays(t);
    HeaderCore(n, v, true);
    assert name + (" {" + TrimEnd(t)) == "" + HeaderText(n, v, true) + TrimEnd(t);
    TailTrimmed(t);
    ReadShape("", HeaderText(n, v, true), TrimEnd(t));
  }

  /** The comment keeps the rest of the line from being just a brace. */
  lemma HashStays(t: string)
    requires |t| >= 2 && t[0] == ' ' && t[1] == '#'
    ensures var r := " {" + TrimEnd(t); Trim(r) != "" && Trim(r) != "=" && Trim(r) != "{"
  {
    BodyFacts(t);
    var e := TrimEnd(t);
    assert |e| >= 2 && e[1] == '#';
    var r := " {" + e;
    assert " " + ("{" + e) + "" == r;
    assert ("{" + e)[|"{" + e| - 1] == e[|e| - 1];
    TrimIs(" ", "{" + e, "");
  }

  // ----- a package line that loses its block

  /** A rule on its own line, then a block whose brace stands below its package line:
      taking the package out leaves the package line behind. */
  lemma StrandedLine(ok: Verdict, pkg: string, cpus: string)
    requires SpecVerdict(ok) && PkgSafe(pkg) && '=' !in pkg && !Opens(pkg) && ok(pkg, "", cpus)
    ensures var cs := ClassifyAll([HeaderText(pkg, cpus, false), pkg, "{", "}"]);
            Clean(ok, cs) && Unpaired(Events(START, cs, pkg), 0) == 1
  {
    hide Classify, PkgSafe, CpuText, ParseOuterCore, Clean, Events, Unpaired, CloseLike, HeaderText;
    SafeName(pkg);
    assert CpuText(cpus);
    var lines := [HeaderText(pkg, cpus, false), pkg, "{", "}"];
    LoneLines();
    CloseLine();
    OwnLines(pkg, cpus);
    FourLines(ok, ClassifyAll(lines), pkg, cpus);
  }

  lemma OwnLines(pkg: string, cpus: string)
    requires PkgSafe(pkg) && '=' !in pkg && !Opens(pkg) && CpuText(cpus)
    ensures Classify(HeaderText(pkg, cpus, false)).Text? && Classify(HeaderText(pkg, cpus, false)).outer == Rule(pkg, cpus, false)
    ensures Classify(pkg).Text? && Classify(pkg).outer == Pending(pkg)
  {
    hide Classify, PkgSafe, CpuText, ParseOuterCore, HeaderText;
    HeaderCore(pkg, cpus, false);
    BareReads(pkg, "", false);
    EmptyTail();
    assert "" + HeaderText(pkg, cpus, false) + "" == HeaderText(pkg, cpus, false) && "" + pkg + "" == pkg;
    ReadShape("", HeaderText(pkg, cpus, false), "");
    ReadShape("", pkg, "");
  }

  lemma FourLines(ok: Verdict, cs: seq<Line>, pkg: string, cpus: string)
    requires |cs| == 4 && pkg != "" && ok(pkg, "", cpus) && forall k | 0 <= k < 4 :: cs[k].Text?
    requires cs[0].outer == Rule(pkg, cpus, false) && cs[1].outer == Pending(pkg) && cs[2].outer == BareOpen("")
    requires cs[3].inner == Close
    ensures Clean(ok, cs) && Unpaired(Events(START, cs, pkg), 0) == 1
  {
    hide After, Hard, Soft, Events;
    assert cs == [cs[0]] + ([cs[1]] + ([cs[2]] + [cs[3]]));
    var s3 := Step(Step(Step(START, cs[0]), cs[1]), cs[2]);
    assert s3 == State(true, pkg, "");
    Chain(ok, START, cs[0], [cs[1]] + ([cs[2]] + [cs[3]]), pkg);
    Chain(ok, Step(START, cs[0]), cs[1], [cs[2]] + [cs[3]], pkg);
    Chain(ok, Step(Step(START, cs[0]), cs[1]), cs[2], [cs[3]], pkg);
    One(ok, s3, cs[3]);
    LastQuiet(s3, cs[3], pkg);
    assert Events(START, cs, pkg) == [Alone] + ([] + ([Awaited] + []));
    TwoEvents();
  }

  lemma LastQuiet(s: State, c: Line, pkg: string)
    requires s.inBlock
    ensures Events(s, [c], pkg) == []
  {
    assert [c][1..] == [];
  }

  lemma TwoEvents()
    ensures Unpaired([Alone] + ([] + ([Awaited] + [])), 0) == 1
  {
    var es := [Alone, Awaited];
    assert [Alone] + ([] + ([Awaited] + [])) == es;
    assert es[1..] == [Awaited] && [Awaited][1..] == [];
    assert Unpaired([Awaited], 1) == 1 + Unpaired([], 0);
  }

  lemma Chain(ok: Verdict, s: State, c: Line, rest: seq<Line>, pkg: string)
    ensures After(s, [c] + rest) == After(Step(s, c), rest)
    ensures Hard(ok, s, [c] + rest) == HardFails(ok, s, c) + Hard(ok, Step(s, c), rest)
    ensures Soft(s, [c] + rest) == SoftFails(s, c) + Soft(Step(s, c), rest)
    ensures Events(s, [c] + rest, pkg) == EventOf(s, c, pkg) + Events(Step(s, c), rest, pkg)
  {
    assert ([c] + rest)[1..] == rest;
  }
}
