/** `normalize_singles` as a function on the lines of the file: the single-line rules
    of a package move into its block. */
module Normalizing {
  import opened Base
  import opened Text
  import opened Lines
  import opened Syntax
  import opened Shapes
  import opened Printing
  import opened Loader
  import opened Edits
  import opened Tracking
  import opened Taking
  import opened Stripping
  import opened Inserting
  import S = Scanner

  // ----- raw lines

  lemma LineReplaced(lines: seq<string>, i: nat, raw: string)
    requires i < |lines|
    ensures ClassifyAll(lines[i := raw]) == Spliced(ClassifyAll(lines), i, i + 1, [Classify(raw)])
  {
    hide Classify;
    assert lines[i := raw] == lines[..i] + [raw] + lines[i + 1..];
    ClassifySplice(lines, i, i + 1, [raw]);
    assert ClassifyAll([raw]) == [Classify(raw)];
  }

  lemma LineDropped(lines: seq<string>, i: nat)
    requires i < |lines|
    ensures ClassifyAll(lines[..i] + lines[i + 1..]) == Spliced(ClassifyAll(lines), i, i + 1, [])
  {
    hide Classify;
    assert lines[..i] + [] + lines[i + 1..] == lines[..i] + lines[i + 1..];
    ClassifySplice(lines, i, i + 1, []);
    assert ClassifyAll([]) == [];
  }

  lemma ClassifySplice(lines: seq<string>, i: nat, j: nat, mid: seq<string>)
    requires i <= j <= |lines|
    ensures ClassifyAll(lines[..i] + mid + lines[j..]) == Spliced(ClassifyAll(lines), i, j, ClassifyAll(mid))
  {
    hide Classify;
    ClassifyConcat(lines[..i] + mid, lines[j..]);
    ClassifyConcat(lines[..i], mid);
    ClassifySlice(lines, 0, i);
    ClassifySlice(lines, j, |lines|);
    assert lines[0..i] == lines[..i] && lines[j..|lines|] == lines[j..];
  }

  lemma ClassifyConcat(a: seq<string>, b: seq<string>)
    ensures ClassifyAll(a + b) == ClassifyAll(a) + ClassifyAll(b)
  {
    hide Classify;
  }

  lemma ClassifySlice(a: seq<string>, i: nat, j: nat)
    requires i <= j <= |a|
    ensures ClassifyAll(a[i..j]) == ClassifyAll(a)[i..j]
  {
    hide Classify;
  }

  /** The verdict of `add_rule`: it takes named packages and well-formed CPU text. */
  ghost predicate SpecVerdict(ok: Verdict)
  {
    forall p, t, c :: ok(p, t, c) ==> p != "" && CpuText(c)
  }

  /** The names of pkg's single-line rules can be printed on lines of their own. */
  predicate SinglesSafe(cs: seq<Line>, pkg: string)
  {
    forall k | 0 <= k < |cs| && SingleAt(cs, pkg, k) :: EntrySafe(cs[k].outer.thread)
  }

  /** A file the loader takes without failure, and a package name that can be printed. */
  ghost predicate Loadable(ok: Verdict, lines: seq<string>, pkg: string)
  {
    SpecVerdict(ok) && PkgSafe(pkg) && Clean(ok, ClassifyAll(lines))
  }

  /** Such a file, with names that survive normalizing. */
  ghost predicate Editable(ok: Verdict, lines: seq<string>, pkg: string)
  {
    Loadable(ok, lines, pkg) && SinglesSafe(ClassifyAll(lines), pkg)
  }

  function HasComment(raw: string): bool
  {
    CommentAt(raw).Some?
  }

  /** The first line of pkg, when it stands alone; `cs` classifies `lines`. */
  function HeaderLine(cs: seq<Line>, lines: seq<string>, pkg: string): Option<string>
    requires |cs| == |lines|
  {
    match S.HeaderTo(cs, pkg, |cs|)
    case Some(Standalone(h)) => Some(lines[h])
    case _ => None
  }

  function StandaloneLine(lines: seq<string>, pkg: string): Option<string>
  {
    HeaderLine(ClassifyAll(lines), lines, pkg)
  }

  /** pkg has no block, and its own line carries a comment: a brace added at the end
      of that line is read as part of the comment. */
  predicate BraceInComment(lines: seq<string>, pkg: string)
  {
    && S.Scan(ClassifyAll(lines), pkg).blockClose.None?
    && StandaloneLine(lines, pkg).Some? && HasComment(StandaloneLine(lines, pkg).value)
  }

  /** pkg has single-line rules. */
  predicate HasSingles(lines: seq<string>, pkg: string)
  {
    exists k :: 0 <= k < |lines| && SingleAt(ClassifyAll(lines), pkg, k)
  }

  // ----- the lines taken out

  /** Normalizing has to open a block, and its brace falls into a comment. */
  predicate NormalizingBreaks(lines: seq<string>, pkg: string)
  {
    HasSingles(lines, pkg) && BraceInComment(lines, pkg)
  }

  function RemovalLines(raw: string, pkg: string, loc: S.ThreadLoc): seq<string>
  {
    if loc.open then [WithComment(BareOpenLine(pkg), raw)]
    else if loc.closed then [WithComment("}", raw)]
    else []
  }

  /** A line with the old line's comment reads by its new text. */
  lemma PrintedWithComment(lead: string, q: string, raw: string)
    requires Blank(lead) && Core(q) && !Skipped(Trim(raw))
    ensures exists t :: Tail(t) && WithComment(lead + q, raw) == lead + q + t
  {
    var l, x, t := ShapeOf(raw);
    WithCommentShape(lead + q, l, x, t);
    var t' := if Blank(t) then "" else t;
    assert Tail(t');
  }

  lemma RemovalClasses(raw: string, pkg: string, loc: S.ThreadLoc)
    requires !Skipped(Trim(raw)) && PkgSafe(pkg)
    ensures Removal(loc, pkg, ClassifyAll(RemovalLines(raw, pkg, loc)))
  {
    if loc.open {
      OpenWithComment(pkg, raw);
    } else if loc.closed {
      CloseWithComment(raw);
    }
  }

  lemma OpenWithComment(pkg: string, raw: string)
    requires !Skipped(Trim(raw)) && PkgSafe(pkg)
    ensures var c := Classify(WithComment(BareOpenLine(pkg), raw)); c.Text? && c.outer == BareOpen(pkg)
  {
    BareOpenCore(pkg);
    var q := BareOpenLine(pkg);
    assert "" + q == q;
    PrintedWithComment("", q, raw);
    var t :| Tail(t) && WithComment("" + q, raw) == "" + q + t;
    ReadShape("", q, t);
  }

  lemma CloseWithComment(raw: string)
    requires !Skipped(Trim(raw))
    ensures var c := Classify(WithComment("}", raw)); c.Text? && c.inner == Close && c.outer == Junk
  {
    CloseCore();
    assert "" + "}" == "}";
    PrintedWithComment("", "}", raw);
    var t :| Tail(t) && WithComment("" + "}", raw) == "" + "}" + t;
    ReadShape("", "}", t);
  }

  /** The printed closing line. */
  lemma CloseLine()
    ensures Classify("}").Text? && Classify("}").inner == Close && Classify("}").outer == Junk
  {
    CloseCore();
    assert "" + "}" + "" == "}";
    ReadShape("", "}", "");
  }

  lemma OpenLine(pkg: string)
    requires PkgSafe(pkg)
    ensures var c := Classify(BareOpenLine(pkg)); c.Text? && c.outer == BareOpen(pkg)
  {
    BareOpenCore(pkg);
    var q := BareOpenLine(pkg);
    assert "" + q + "" == q;
    ReadShape("", q, "");
  }

  /** A printed thread line, with or without a comment taken over. */
  predicate ReadsAsEntry(c: Line, th: string, cp: string)
  {
    && c.Text? && c.inner == Entry(th, cp, false)
    && (c.outer.Single? ==> !c.outer.open) && (c.outer.Rule? ==> !c.outer.open) && !c.outer.BareOpen?
  }

  lemma EntryLine(th: string, cp: string, t: string)
    requires EntrySafe(th) && CpuText(cp) && Tail(t)
    ensures ReadsAsEntry(Classify(EntryText(th, cp) + t), th, cp)
  {
    hide EntrySafe, CpuText, Core, Tail, CloseLike, SplitRuleCore, Classify, EntryText, Opens, ParseOuterCore, Trim, StripComment;
    EntryCore(th, cp);
    var q := th + "=" + cp;
    TabLine(th, cp, t);
    ReadShape("\t", q, t);
    ClosedOuter(q);
  }

  lemma TabLine(th: string, cp: string, t: string)
    ensures EntryText(th, cp) + t == "\t" + (th + "=" + cp) + t
  {
  }

  /** A line that does not end in a brace opens no block. */
  lemma ClosedOuter(q: string)
    requires !Opens(q)
    ensures var o := ParseOuterCore(q);
            (o.Single? ==> !o.open) && (o.Rule? ==> !o.open) && !o.BareOpen?
  {
  }

  lemma EntryWithComment(th: string, cp: string, raw: string)
    requires EntrySafe(th) && CpuText(cp) && !Skipped(Trim(raw))
    ensures ReadsAsEntry(Classify(WithComment(EntryText(th, cp), Trim(raw))), th, cp)
  {
    hide EntrySafe, CpuText, Core, Tail, CloseLike, SplitRuleCore, Classify, Opens, WithComment, Trim, Trimmed, ReadsAsEntry;
    var q := th + "=" + cp;
    EntryCore(th, cp);
    assert EntryText(th, cp) == "\t" + q;
    var l, r := TrimSplit(raw);
    TrimTrimmed(Trim(raw));
    PrintedWithComment("\t", q, Trim(raw));
    var t :| Tail(t) && WithComment("\t" + q, Trim(raw)) == "\t" + q + t;
    EntryLine(th, cp, t);
  }

  // ----- the whole move

  function LineRemoved(lines: seq<string>, pkg: string, loc: S.ThreadLoc): seq<string>
    requires loc.idx < |lines|
  {
    lines[..loc.idx] + RemovalLines(lines[loc.idx], pkg, loc) + lines[loc.idx + 1..]
  }

  /** The file after the rules at locs[k..] have been taken out, last one first. */
  function Stripped(lines: seq<string>, pkg: string, locs: seq<S.ThreadLoc>, k: nat): seq<string>
    decreases |locs| - k
  {
    if k >= |locs| then lines
    else
      var rest := Stripped(lines, pkg, locs, k + 1);
      if locs[k].idx < |rest| then LineRemoved(rest, pkg, locs[k]) else rest
  }

  /** The thread line printed for a single-line rule; it keeps the comment. */
  function SingleText(raw: string): string
  {
    match SplitSingleLine(OpenBody(StripComment(Trim(raw))))
    case Some(s) => WithComment(EntryText(s.thread, s.cpus), Trim(raw))
    case None => raw
  }

  function SingleTexts(lines: seq<string>, locs: seq<S.ThreadLoc>): (ts: seq<string>)
    ensures |ts| == |locs|
  {
    seq(|locs|, k requires 0 <= k < |locs| => if locs[k].idx < |lines| then SingleText(lines[locs[k].idx]) else "")
  }

  function BlockLines(opener: string, texts: seq<string>): seq<string>
  {
    [opener] + texts + ["}"]
  }

  function OpenedText(raw: string): string
  {
    TrimEnd(raw) + " {"
  }

  /** Where the moved rules go. */
  function PutBack(rest: seq<string>, pkg: string, at: nat, texts: seq<string>): seq<string>
  {
    var t := S.Scan(ClassifyAll(rest), pkg);
    if t.blockClose.Some? then
      rest[..t.blockClose.value] + texts + rest[t.blockClose.value..]
    else if t.pkgLine.Some? && t.pkgLine.value.Standalone? then
      var i := t.pkgLine.value.idx;
      rest[..i] + BlockLines(OpenedText(rest[i]), texts) + rest[i + 1..]
    else
      var i := if at < |rest| then at else |rest|;
      rest[..i] + BlockLines(BareOpenLine(pkg), texts) + rest[i..]
  }

  function Normalized(lines: seq<string>, pkg: string): seq<string>
  {
    var t := S.Scan(ClassifyAll(lines), pkg);
    var locs := SinglesOf(t.hits);
    if locs == [] then lines
    else if t.blockClose.None? && ((exists l :: l in locs && l.open) || (t.pkgLine.Some? && !t.pkgLine.value.Standalone?)) then lines
    else PutBack(Stripped(lines, pkg, locs, 0), pkg, locs[0].idx, SingleTexts(lines, locs))
  }

  // ----- how the moved lines read

  lemma SingleReads(raw: string)
    requires Classify(raw).Text? && Classify(raw).outer.Single?
    requires EntrySafe(Classify(raw).outer.thread) && CpuText(Classify(raw).outer.cpus)
    ensures ReadsAsEntry(Classify(SingleText(raw)), Classify(raw).outer.thread, Classify(raw).outer.cpus)
  {
    hide EntrySafe, CpuText, EntryText, WithComment, Trim, Classify, SingleText, ReadsAsEntry, Skipped;
    var o := Classify(raw).outer;
    NotSkippedText(raw);
    SingleTextIs(raw);
    EntryWithComment(o.thread, o.cpus, raw);
  }

  lemma SingleTextIs(raw: string)
    requires Classify(raw).Text? && Classify(raw).outer.Single?
    ensures SingleText(raw) == WithComment(EntryText(Classify(raw).outer.thread, Classify(raw).outer.cpus), Trim(raw))
  {
    hide EntryText, WithComment, Trim, Skipped;
    assert ParseOuter(Trim(raw)) == Classify(raw).outer;
  }

  lemma BlockReads(opener: string, texts: seq<string>)
    ensures Block(ClassifyAll(BlockLines(opener, texts)), ClassifyAll(texts)) <==> Classify(opener).Text?
    ensures ClassifyAll(BlockLines(opener, texts))[0] == Classify(opener)
  {
    hide Classify;
    CloseLine();
    var b := ClassifyAll(BlockLines(opener, texts));
    ClassifyConcat([opener] + texts, ["}"]);
    ClassifyConcat([opener], texts);
    assert ClassifyAll([opener]) == [Classify(opener)] && ClassifyAll(["}"]) == [Classify("}")];
    assert b[1..|b| - 1] == ClassifyAll(texts);
  }

  lemma OpenedShape(lead: string, q: string, t: string)
    requires Trimmed(q)
    ensures OpenedText(lead + q + t) == lead + q + (TrimEnd(t) + " {")
  {
    var t' := TrimEnd(t);
    BodyFacts(t);
    assert lead + q + t == (lead + q + t') + t[BodyLen(t)..];
    assert t' == "" ==> (lead + q + t')[|lead + q + t'| - 1] == q[|q| - 1];
    assert t' != "" ==> (lead + q + t')[|lead + q + t'| - 1] == t'[|t'| - 1];
    BodyLenIs(lead + q + t', t[BodyLen(t)..]);
  }

  /** A brace added at the end of a line without a comment opens the block. */
  lemma OpenedPlain(raw: string, pkg: string, cpus: string)
    requires Classify(raw).Text? && Classify(raw).outer == Rule(pkg, cpus, false) && !HasComment(raw)
    ensures Classify(OpenedText(raw)).Text? && Classify(OpenedText(raw)).outer == Rule(pkg, cpus, true)
  {
    var lead, q, t := ShapeOf(raw);
    CommentAtShape(lead, q, t);
    ReadShape(lead, q, t);
    OpenedHeader(q, pkg, cpus);
    OpenedShape(lead, q, t);
    TailTrimmed(t);
    RegroupOpened(lead, q);
    ReadShape(lead, q + " {", "");
  }

  lemma RegroupOpened(lead: string, q: string)
    ensures lead + q + ("" + " {") == lead + (q + " {") + ""
  {
  }

  /** Added at the end of a comment, it is part of the comment. */
  lemma OpenedCommented(raw: string)
    requires Classify(raw).Text? && HasComment(raw)
    ensures Classify(OpenedText(raw)).Text? && Classify(OpenedText(raw)).outer == Classify(raw).outer
    ensures HasComment(OpenedText(raw))
  {
    var lead, q, t := ShapeOf(raw);
    CommentAtShape(lead, q, t);
    OpenedShape(lead, q, t);
    LongerTail(t);
    ReadShape(lead, q, t);
    ReadShape(lead, q, TrimEnd(t) + " {");
    CommentAtShape(lead, q, TrimEnd(t) + " {");
  }

  lemma LongerTail(t: string)
    requires Tail(t) && !Blank(t)
    ensures Tail(TrimEnd(t) + " {") && !Blank(TrimEnd(t) + " {")
  {
    var n := LeadLen(t);
    var t' := TrimEnd(t);
    LeadFacts(t);
    BodyFacts(t);
    assert n < BodyLen(t);
    assert MarkChar(t', n);
    assert t' + " {" == t[..n] + (t'[n..] + " {");
    LeadLenIs(t[..n], t'[n..] + " {");
  }
}
