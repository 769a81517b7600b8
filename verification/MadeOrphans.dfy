/** Normalizing can join a lone `=` with a brace that stood apart from it: a file without an
    orphan brace gets one, and the edit no longer sees what the loader sees. */
module MadeOrphans {
  import opened Base
  import opened Text
  import opened Lines
  import opened Syntax
  import opened Shapes
  import opened Printing
  import opened Loader
  import opened Stripping
  import opened Normalizing
  import opened RuleEdits
  import opened RuleFiles
  import opened Findings
  import opened EndlessRenames
  import opened TakenBraces
  import opened Answers
  import S = Scanner

  /** A lone `=`, a single-line rule and a stray brace; a block of package `a}` that holds a
      line `x {`; an unclosed block. */
  function ApartLines(): seq<string>
  {
    ["=", "x{t}=1", "{", "a}", "{", "x {", "}", "z {"]
  }

  function RestLines(): seq<string>
  {
    ["=", "{", "a}", "{", "x {", "}", "z {"]
  }

  function JoinedLines(): seq<string>
  {
    ["=", "{", "a}", "{", "x {", "\tt=1", "}", "z {"]
  }

  // ----- how the lines read

  lemma WaitingCloser()
    ensures var c := Classify("a}"); c.Text? && c.outer == Pending("a}") && c.inner == Bad(true)
  {
    hide PkgSafe, ParseOuterCore, Core;
    var p := "a}";
    NoMarkIn(p);
    CloserName(p);
    WaitingLine(p);
    hide ParseOuter;
    TrimTrimmed(p);
    MarkFacts(p, 0);
    CloserNone(p) by {
      RFindFacts("a", '=');
      assert p[..1] == "a";
    }
    RFindFacts(p, '=');
  }

  lemma CloserName(p: string)
    requires p == "a}"
    ensures PkgSafe(p)
  {
    NoMarkIn(p);
  }

  predicate Common(c0: Line, brace: Line, a: Line, open: Line, close: Line, z: Line)
  {
    && c0.Text? && c0.outer == Pending("") && brace.Text? && brace.outer == BareOpen("")
    && a.Text? && a.outer == Pending("a}") && a.inner == Bad(true)
    && open.Text? && open.outer == BareOpen("x") && open.inner == Bad(false)
    && close.Text? && close.inner == Close && z.Text? && z.outer == BareOpen("z")
  }

  predicate ApartReads(cs: seq<Line>)
  {
    |cs| == 8 && Common(cs[0], cs[2], cs[3], cs[5], cs[6], cs[7]) && cs[4] == cs[2] && cs[1].Text? && cs[1].outer == Single("x", "t", "1", false)
  }

  predicate RestReads(cs: seq<Line>)
  {
    |cs| == 7 && Common(cs[0], cs[1], cs[2], cs[4], cs[5], cs[6]) && cs[3] == cs[1]
  }

  predicate JoinedReads(cs: seq<Line>)
  {
    |cs| == 8 && Common(cs[0], cs[1], cs[2], cs[4], cs[6], cs[7]) && cs[3] == cs[1] && ReadsAsEntry(cs[5], "t", "1")
  }

  lemma AllRead()
    ensures ApartReads(ClassifyAll(ApartLines())) && RestReads(ClassifyAll(RestLines())) && JoinedReads(ClassifyAll(JoinedLines()))
    ensures SingleText("x{t}=1") == "\tt=1"
  {
    hide Classify, PkgSafe, SingleText, CpuText, EntrySafe;
    LoneLines();
    EntryAndSingle();
    WaitingCloser();
    PlainName("x");
    PlainName("z");
    OpenLine("x");
    OpenLine("z");
    BraceIsBad();
    CloseLine();
    assert BareOpenLine("x") == "x {" && BareOpenLine("z") == "z {";
    MovedText();
    var a, r, j := ClassifyAll(ApartLines()), ClassifyAll(RestLines()), ClassifyAll(JoinedLines());
    assert a == [Classify("="), Classify("x{t}=1"), Classify("{"), Classify("a}"), Classify("{"), Classify("x {"), Classify("}"), Classify("z {")];
    assert r == [Classify("="), Classify("{"), Classify("a}"), Classify("{"), Classify("x {"), Classify("}"), Classify("z {")];
    assert j == [Classify("="), Classify("{"), Classify("a}"), Classify("{"), Classify("x {"), Classify("\tt=1"), Classify("}"), Classify("z {")];
  }

  lemma MovedText()
    ensures SingleText("x{t}=1") == "\tt=1" && ReadsAsEntry(Classify("\tt=1"), "t", "1")
  {
    hide Classify, SingleText, EntrySafe, CpuText;
    EntryAndSingle();
    OneLetter("t");
    OneDigit("1");
    SingleReads("x{t}=1");
    SingleTextIs("x{t}=1");
    PlainComment();
    assert EntryText("t", "1") == "\tt=1";
  }

  lemma PlainComment()
    ensures CommentAt(Trim("x{t}=1")).None?
  {
    TrimTrimmed("x{t}=1");
    NoMarkIn("x{t}=1");
    MarkFacts("x{t}=1", 0);
  }

  // ----- before

  lemma ApartStates(cs: seq<Line>)
    requires ApartReads(cs)
    ensures S.StateAt(cs, 0) == S.State(false, "", None) && S.StateAt(cs, 1) == S.State(false, "", Some(0))
    ensures S.StateAt(cs, 2) == S.State(false, "", None) == S.StateAt(cs, 3) && S.StateAt(cs, 4) == S.State(false, "", Some(3))
    ensures S.StateAt(cs, 5) == S.State(true, "a}", None) == S.StateAt(cs, 6) && S.StateAt(cs, 7) == S.State(false, "", None)
  {
    assert S.StateAt(cs, 0) == S.State(false, "", None);
    assert S.StateAt(cs, 1) == S.Step(cs, 0, S.StateAt(cs, 0));
    assert S.StateAt(cs, 2) == S.Step(cs, 1, S.StateAt(cs, 1));
    assert S.StateAt(cs, 3) == S.Step(cs, 2, S.StateAt(cs, 2));
    assert S.StateAt(cs, 4) == S.Step(cs, 3, S.StateAt(cs, 3));
    assert S.StateAt(cs, 5) == S.Step(cs, 4, S.StateAt(cs, 4));
    assert S.StateAt(cs, 6) == S.Step(cs, 5, S.StateAt(cs, 5));
    assert S.StateAt(cs, 7) == S.Step(cs, 6, S.StateAt(cs, 6));
  }

  lemma ApartRecord(cs: seq<Line>)
    requires ApartReads(cs)
    ensures S.NoOrphans(cs, 8)
    ensures S.HitsTo(cs, "x", 8) == [S.Hit("t", S.ThreadLoc(1, true, false, false))] && S.HeaderTo(cs, "x", 8).None?
  {
    ApartStates(cs);
    hide S.StateAt;
    var h := S.Hit("t", S.ThreadLoc(1, true, false, false));
    assert S.HitAt(cs, "x", 0).None? && S.HitAt(cs, "x", 1) == Some(h);
    forall k | 2 <= k < 8 ensures S.HitAt(cs, "x", k).None? {
    }
    forall k: nat | k < 8 ensures S.HeaderAt(cs, "x", k).None? {
    }
    hide S.HitAt, S.HeaderAt;
    NoHeader(cs, 8);
    assert S.HitsTo(cs, "x", 0) == [] && S.HitsTo(cs, "x", 1) == [] + [];
    assert S.HitsTo(cs, "x", 2) == [] + [h] == [h];
    OneHit(cs, h, 8);
  }

  lemma {:induction false} NoHeader(cs: seq<Line>, n: nat)
    requires n <= |cs| && forall k: nat | k < n :: S.HeaderAt(cs, "x", k).None?
    ensures S.HeaderTo(cs, "x", n).None?
  {
    hide S.HeaderAt;
    if n > 0 {
      NoHeader(cs, n - 1);
    }
  }

  lemma {:induction false} OneHit(cs: seq<Line>, h: S.Hit, n: nat)
    requires 2 <= n <= |cs| && S.HitsTo(cs, "x", 2) == [h] && forall k | 2 <= k < n :: S.HitAt(cs, "x", k).None?
    ensures S.HitsTo(cs, "x", n) == [h]
  {
    hide S.HitAt;
    if n > 2 {
      OneHit(cs, h, n - 1);
    }
  }

  // ----- the move

  lemma RestClose(cs: seq<Line>)
    requires RestReads(cs)
    ensures S.CloseTo(cs, "x", 7) == Some(5)
  {
    assert S.StateAt(cs, 0) == S.State(false, "", None);
    assert S.StateAt(cs, 1) == S.Step(cs, 0, S.StateAt(cs, 0)) == S.State(false, "", Some(0));
    assert S.StateAt(cs, 2) == S.Step(cs, 1, S.StateAt(cs, 1)) == S.State(true, "", None);
    assert S.StateAt(cs, 3) == S.Step(cs, 2, S.StateAt(cs, 2)) == S.State(false, "", None);
    assert S.StateAt(cs, 4) == S.Step(cs, 3, S.StateAt(cs, 3)) == S.State(false, "", None);
    assert S.StateAt(cs, 5) == S.Step(cs, 4, S.StateAt(cs, 4)) == S.State(true, "x", None);
    assert S.StateAt(cs, 6) == S.Step(cs, 5, S.StateAt(cs, 5)) == S.State(false, "", None);
    hide S.StateAt;
    assert S.CloseTo(cs, "x", 0).None? && S.CloseTo(cs, "x", 1).None? && S.CloseTo(cs, "x", 2).None?;
    assert S.CloseTo(cs, "x", 3).None? && S.CloseTo(cs, "x", 4).None? && S.CloseTo(cs, "x", 5).None?;
    assert S.CloseTo(cs, "x", 6) == Some(5) == S.CloseTo(cs, "x", 7);
  }

  lemma Moved()
    ensures Normalized(ApartLines(), "x") == JoinedLines()
  {
    hide Classify, SingleText, S.HitsTo, S.HeaderTo, S.CloseTo, S.OpenTo, Stripped, PutBack, ApartLines, RestLines, JoinedLines, SingleTexts;
    AllRead();
    var lines := ApartLines();
    ApartRecord(ClassifyAll(lines));
    var loc := S.ThreadLoc(1, true, false, false);
    assert SinglesOf([S.Hit("t", loc)]) == [loc];
    TakenOut(loc);
    PutIn();
  }

  lemma TakenOut(loc: S.ThreadLoc)
    requires loc == S.ThreadLoc(1, true, false, false) && SingleText("x{t}=1") == "\tt=1"
    ensures Stripped(ApartLines(), "x", [loc], 0) == RestLines() && SingleTexts(ApartLines(), [loc]) == ["\tt=1"]
  {
    hide SingleText;
    var lines := ApartLines();
    assert Stripped(lines, "x", [loc], 1) == lines;
    assert Stripped(lines, "x", [loc], 0) == lines[..1] + [] + lines[2..] == RestLines();
  }

  lemma PutIn()
    requires RestReads(ClassifyAll(RestLines()))
    ensures PutBack(RestLines(), "x", 1, ["\tt=1"]) == JoinedLines()
  {
    hide Classify, S.HitsTo, S.HeaderTo, S.CloseTo, S.OpenTo;
    var rest := RestLines();
    RestClose(ClassifyAll(rest));
    assert rest[..5] + ["\tt=1"] + rest[5..] == JoinedLines();
  }

  // ----- after

  lemma JoinedRecord(cs: seq<Line>)
    requires JoinedReads(cs)
    ensures S.OrphanOpen(cs, 1) && S.HeaderTo(cs, "x", 8) == Some(S.OpenBare(4))
  {
    assert S.StateAt(cs, 0) == S.State(false, "", None);
    assert S.StateAt(cs, 1) == S.Step(cs, 0, S.StateAt(cs, 0)) == S.State(false, "", Some(0));
    assert S.StateAt(cs, 2) == S.Step(cs, 1, S.StateAt(cs, 1)) == S.State(true, "", None);
    assert S.StateAt(cs, 3) == S.Step(cs, 2, S.StateAt(cs, 2)) == S.State(false, "", None);
    assert S.StateAt(cs, 4) == S.Step(cs, 3, S.StateAt(cs, 3)) == S.State(false, "", None);
    hide S.StateAt;
    assert S.HeaderAt(cs, "x", 0).None? && S.HeaderAt(cs, "x", 1).None? && S.HeaderAt(cs, "x", 2).None?;
    assert S.HeaderAt(cs, "x", 3).None? && S.HeaderAt(cs, "x", 4) == Some(S.OpenBare(4));
    hide S.HeaderAt;
    assert S.HeaderTo(cs, "x", 0).None? && S.HeaderTo(cs, "x", 1).None? && S.HeaderTo(cs, "x", 2).None?;
    assert S.HeaderTo(cs, "x", 3).None? && S.HeaderTo(cs, "x", 4).None? && S.HeaderTo(cs, "x", 5) == Some(S.OpenBare(4));
    assert S.HeaderTo(cs, "x", 6) == Some(S.OpenBare(4)) == S.HeaderTo(cs, "x", 7);
  }

  lemma JoinedRun(cs: seq<Line>)
    requires JoinedReads(cs)
    ensures After(START, cs).inBlock && forall i | 0 <= i < 8 :: !Headed(cs, "x", i)
  {
    hide After;
    assert cs[..0] == [] && cs[..8] == cs;
    AfterNone();
    var s3, s4 := State(false, "", "a}"), State(true, "a}", "");
    StepIs(cs, 0, START);
    StepIs(cs, 1, START);
    StepIs(cs, 2, s3);
    StepIs(cs, 3, s4);
    StepIs(cs, 4, s4);
    StepIs(cs, 5, s4);
    StepIs(cs, 6, START);
    StepIs(cs, 7, State(true, "z", ""));
    hide StateAt;
  }

  lemma AfterNone()
    ensures After(START, []) == START
  {
  }

  lemma StepIs(cs: seq<Line>, i: nat, t: State)
    requires i < |cs| && Step(StateAt(cs, i), cs[i]) == t
    ensures StateAt(cs, i + 1) == t
  {
    hide After, Step;
    StateAtNext(cs, i);
  }

  /** The answer is "ok" although the loader ends inside a block and no line names the
      package to it: that no orphan brace is there before normalizing is not enough for
      `UpsertMalformed`. */
  lemma OrphanMade(cpus: string)
    ensures var cs := ClassifyAll(Normalized(ApartLines(), "x"));
            && S.NoOrphans(ClassifyAll(ApartLines()), |ApartLines()|) && !S.NoOrphans(cs, |cs|)
            && Upserted(ApartLines(), "x", "", cpus).answer == Ok
            && After(START, cs).inBlock && forall i | 0 <= i < |cs| :: !Headed(cs, "x", i)
  {
    hide Classify, SingleText, S.HitsTo, S.HeaderTo, S.CloseTo, S.OpenTo, S.OrphanOpen, Headed, After, Normalized;
    AllRead();
    Moved();
    ApartRecord(ClassifyAll(ApartLines()));
    var cs := ClassifyAll(JoinedLines());
    JoinedRecord(cs);
    JoinedRun(cs);
  }
}
