/** What `normalize_singles` does to the rules of a file. */
module SinglesMoved {
  import opened Base
  import opened Text
  import opened Lines
  import opened Syntax
  import opened Printing
  import opened Loader
  import opened Edits
  import opened Tracking
  import opened Swapping
  import opened Taking
  import opened Stripping
  import opened Inserting
  import opened Normalizing
  import opened EntryNames
  import S = Scanner

  // ----- a closing brace left outside every block

  /** Read outside a block, the line opens none. */
  predicate Quiet(c: Line)
  {
    c.Text? ==>
      (c.outer.Single? ==> !c.outer.open) && (c.outer.Rule? ==> !c.outer.open) && !c.outer.BareOpen?
  }

  /** From h, outside every block, no line up to j opens one, and line j is a closing brace:
      it closes nothing. */
  predicate StrayClose(cs: seq<Line>, h: nat, j: nat)
  {
    && h <= j < |cs| && !StateAt(cs, h).inBlock
    && (forall k | h <= k < j :: Quiet(cs[k]))
    && cs[j].Text? && cs[j].outer == Junk
  }

  lemma {:induction false} QuietRun(cs: seq<Line>, h: nat, j: nat)
    requires h <= j <= |cs| && !StateAt(cs, h).inBlock && forall k | h <= k < j :: Quiet(cs[k])
    ensures !StateAt(cs, j).inBlock
  {
    if h < j {
      QuietRun(cs, h, j - 1);
      StateAtNext(cs, j - 1);
    }
  }

  lemma StrayFails(ok: Verdict, cs: seq<Line>, h: nat, j: nat)
    requires StrayClose(cs, h, j)
    ensures Hard(ok, START, cs) > 0
  {
    QuietRun(cs, h, j);
    LineOf(ok, cs, j);
  }

  ghost predicate HasStrayClose(cs: seq<Line>)
  {
    exists h: nat, j: nat :: StrayClose(cs, h, j)
  }

  lemma HasStrayFails(ok: Verdict, cs: seq<Line>)
    requires HasStrayClose(cs)
    ensures !Clean(ok, cs) && Hard(ok, START, cs) > 0
  {
    hide Hard;
    var h: nat, j: nat :| StrayClose(cs, h, j);
    StrayFails(ok, cs, h, j);
  }

  /** The brace that fell into a comment. */
  lemma StrayMade(cs: seq<Line>, i: nat, j: nat, b: seq<Line>, es: seq<Line>, rs: seq<AffinityRule>)
    requires i <= j <= |cs| && !StateAt(cs, i).inBlock
    requires Block(b, es) && Entries(es, rs) && b[0].outer.Rule? && !b[0].outer.open
    ensures StrayClose(Spliced(cs, i, j, b), i, i + |es| + 1)
  {
    var out := Spliced(cs, i, j, b);
    SplicePrefix(cs, i, j, b, i);
    forall k | i <= k < i + |es| + 1 ensures Quiet(out[k]) {
      assert out[k] == b[k - i];
      if k > i {
        assert b[1..|b| - 1][k - i - 1] == b[k - i];
      }
    }
    assert out[i + |es| + 1] == b[|es| + 1];
  }

  // ----- taking the singles out

  ghost predicate Strips(ok: Verdict, lines: seq<string>, cur: seq<string>, pkg: string,
                         locs: seq<S.ThreadLoc>, rs: seq<AffinityRule>, k: nat)
  {
    && Removing(ok, ClassifyAll(lines), ClassifyAll(cur), pkg, locs, rs, k)
    && (BlockFree(ClassifyAll(lines), pkg) ==> StandaloneLine(cur, pkg) == StandaloneLine(lines, pkg))
  }

  lemma StripStep(ok: Verdict, lines: seq<string>, cur: seq<string>, pkg: string,
                  locs: seq<S.ThreadLoc>, rs: seq<AffinityRule>, k: nat)
    requires |rs| == |locs| && SinglesAre(ClassifyAll(lines), pkg, locs, rs) && PkgSafe(pkg)
    requires k < |rs| && Strips(ok, lines, cur, pkg, locs, rs, k + 1)
    ensures locs[k].idx < |cur| && Strips(ok, lines, LineRemoved(cur, pkg, locs[k]), pkg, locs, rs, k)
  {
    hide Classify, Moves, HeaderLine, Complete, PkgSafe;
    var os, cs := ClassifyAll(lines), ClassifyAll(cur);
    Spot(os, cs, pkg, locs, rs, k);
    var i := locs[k].idx;
    var mid := RemovalLines(cur[i], pkg, locs[k]);
    HitIsText(cs, pkg, i);
    NotSkippedText(cur[i]);
    RemovalClasses(cur[i], pkg, locs[k]);
    SafeName(pkg);
    RemovingStep(ok, os, cs, pkg, locs, rs, k, ClassifyAll(mid));
    ClassifySplice(cur, i, i + 1, mid);
    if BlockFree(os, pkg) {
      LineKept(ok, cs, cur, pkg, i, locs[k]);
      assert ClassifyAll([]) == [];
    }
  }

  lemma HitIsText(cs: seq<Line>, pkg: string, i: nat)
    requires i < |cs| && S.HitAt(cs, pkg, i).Some?
    ensures cs[i].Text? && S.HitAt(cs, pkg, i).value.loc.idx == i
  {
  }

  /** Taking a line out of a package without blocks keeps its first line. */
  lemma LineKept(ok: Verdict, cs: seq<Line>, lines: seq<string>, pkg: string, i: nat, loc: S.ThreadLoc)
    requires |cs| == |lines| && Clean(ok, cs) && pkg != "" && i < |cs| && BlockFree(cs, pkg)
    requires S.HitAt(cs, pkg, i).Some? && S.HitAt(cs, pkg, i).value.loc == loc && loc.single
    ensures loc.idx == i && !loc.open && !loc.closed
    ensures HeaderLine(Spliced(cs, i, i + 1, []), lines[..i] + [] + lines[i + 1..], pkg) == HeaderLine(cs, lines, pkg)
  {
    NoOpener(ok, cs, pkg, i);
    HeaderKept(ok, cs, pkg, i);
    var out := lines[..i] + [] + lines[i + 1..];
    match S.HeaderTo(cs, pkg, |cs|) {
      case None =>
      case Some(h) =>
        assert out[if h.idx > i then h.idx - 1 else h.idx] == lines[h.idx];
    }
  }

  lemma NoOpener(ok: Verdict, cs: seq<Line>, pkg: string, i: nat)
    requires Clean(ok, cs) && pkg != "" && i < |cs| && BlockFree(cs, pkg)
    requires S.HitAt(cs, pkg, i).Some? && S.HitAt(cs, pkg, i).value.loc.single
    ensures var loc := S.HitAt(cs, pkg, i).value.loc; loc.idx == i && !loc.open && !loc.closed
  {
    CleanLine(ok, cs, i);
    var s := StateAt(cs, i + 1);
    assert !(s.inBlock && s.cur == pkg);
  }

  lemma {:induction false} StripRun(ok: Verdict, lines: seq<string>, pkg: string,
                                    locs: seq<S.ThreadLoc>, rs: seq<AffinityRule>, k: nat)
    requires |rs| == |locs| && SinglesAre(ClassifyAll(lines), pkg, locs, rs) && PkgSafe(pkg) && Clean(ok, ClassifyAll(lines)) && k <= |rs|
    ensures Strips(ok, lines, Stripped(lines, pkg, locs, k), pkg, locs, rs, k)
    decreases |rs| - k
  {
    hide Removing, Recorded, Complete, HeaderLine, LineRemoved;
    if k == |rs| {
      RemovingStart(ok, ClassifyAll(lines), pkg, locs, rs);
    } else {
      StripRun(ok, lines, pkg, locs, rs, k + 1);
      StripStep(ok, lines, Stripped(lines, pkg, locs, k + 1), pkg, locs, rs, k);
    }
  }

  // ----- the moved lines

  lemma TextReads(ok: Verdict, lines: seq<string>, pkg: string, i: nat)
    requires Editable(ok, lines, pkg) && i < |lines| && S.HitAt(ClassifyAll(lines), pkg, i).Some?
    requires S.HitAt(ClassifyAll(lines), pkg, i).value.loc.single
    ensures var cs := ClassifyAll(lines);
            && Asked(StateAt(cs, i), cs[i]) != [] && RuleAt(cs, i).pkg == pkg && Admitted(ok, RuleAt(cs, i))
            && ReadsAsEntry(Classify(SingleText(lines[i])), RuleAt(cs, i).thread, RuleAt(cs, i).cpus)
  {
    hide Classify, CpuText, EntrySafe, PkgSafe, SingleText, ReadsAsEntry;
    var cs := ClassifyAll(lines);
    HitRule(ok, cs, pkg, i);
    SingleIsHit(ok, cs, pkg, i);
    SingleReads(lines[i]);
  }

  lemma TextsRead(ok: Verdict, lines: seq<string>, pkg: string, locs: seq<S.ThreadLoc>, rs: seq<AffinityRule>)
    requires Editable(ok, lines, pkg) && SinglesAre(ClassifyAll(lines), pkg, locs, rs)
    ensures Printable(ok, pkg, ClassifyAll(SingleTexts(lines, locs)), rs)
  {
    hide Classify, SingleText, Clean, SinglesSafe, SpecVerdict, Complete;
    var texts := SingleTexts(lines, locs);
    forall k | 0 <= k < |rs|
      ensures ReadsAsEntry(Classify(texts[k]), rs[k].thread, rs[k].cpus) && rs[k].pkg == pkg && Admitted(ok, rs[k])
    {
      TextReads(ok, lines, pkg, locs[k].idx);
    }
  }

  // ----- putting them back

  /** Putting texts back adds exactly their rules. */
  ghost predicate TextsPut(ok: Verdict, lines: seq<string>, out: seq<string>, pkg: string, rs: seq<AffinityRule>)
  {
    PutIn(ok, ClassifyAll(lines), ClassifyAll(out), pkg, rs)
  }

  lemma BackInBlock(ok: Verdict, rest: seq<string>, pkg: string, texts: seq<string>, rs: seq<AffinityRule>)
    requires Clean(ok, ClassifyAll(rest)) && NoSinglesFrom(ClassifyAll(rest), pkg, 0)
    requires Printable(ok, pkg, ClassifyAll(texts), rs) && S.Scan(ClassifyAll(rest), pkg).blockClose.Some?
    ensures var c := S.Scan(ClassifyAll(rest), pkg).blockClose.value;
            TextsPut(ok, rest, rest[..c] + texts + rest[c..], pkg, rs)
  {
    hide Classify;
    var cs, es := ClassifyAll(rest), ClassifyAll(texts);
    var c := S.Scan(cs, pkg).blockClose.value;
    PutInBlock(ok, cs, pkg, es, rs);
    ClassifySplice(rest, c, c, texts);
  }

  lemma BackBehind(ok: Verdict, rest: seq<string>, pkg: string, i: nat, texts: seq<string>, rs: seq<AffinityRule>)
    requires Clean(ok, ClassifyAll(rest)) && NoSinglesFrom(ClassifyAll(rest), pkg, 0)
    requires Printable(ok, pkg, ClassifyAll(texts), rs)
    requires i < |rest| && S.HeaderAt(ClassifyAll(rest), pkg, i) == Some(S.Standalone(i))
    ensures var out := rest[..i] + BlockLines(OpenedText(rest[i]), texts) + rest[i + 1..];
            && (!HasComment(rest[i]) ==> TextsPut(ok, rest, out, pkg, rs))
            && (HasComment(rest[i]) ==> StrayClose(ClassifyAll(out), i, i + |texts| + 1))
  {
    hide Classify, OpenedText, HasComment, Clean, Moves, NoSinglesFrom, PutIn, StrayClose;
    var cs, es := ClassifyAll(rest), ClassifyAll(texts);
    var bt := BlockLines(OpenedText(rest[i]), texts);
    var b := ClassifyAll(bt);
    CleanLine(ok, cs, i);
    BlockReads(OpenedText(rest[i]), texts);
    ClassifySplice(rest, i, i + 1, bt);
    if HasComment(rest[i]) {
      OpenedCommented(rest[i]);
      StrayMade(cs, i, i + 1, b, es, rs);
    } else {
      OpenedPlain(rest[i], pkg, cs[i].outer.cpus);
      PutBehind(ok, cs, pkg, i, b, es, rs);
    }
  }

  lemma BackFresh(ok: Verdict, rest: seq<string>, pkg: string, i: nat, texts: seq<string>, rs: seq<AffinityRule>)
    requires Clean(ok, ClassifyAll(rest)) && NoSinglesFrom(ClassifyAll(rest), pkg, 0) && PkgSafe(pkg)
    requires Printable(ok, pkg, ClassifyAll(texts), rs) && i <= |rest| && StateAt(ClassifyAll(rest), i) == START
    ensures TextsPut(ok, rest, rest[..i] + BlockLines(BareOpenLine(pkg), texts) + rest[i..], pkg, rs)
  {
    hide Classify, BareOpenLine, PkgSafe;
    var cs, es := ClassifyAll(rest), ClassifyAll(texts);
    var bt := BlockLines(BareOpenLine(pkg), texts);
    var b := ClassifyAll(bt);
    OpenLine(pkg);
    BlockReads(BareOpenLine(pkg), texts);
    ClassifySplice(rest, i, i, bt);
    PutFresh(ok, cs, pkg, i, b, es, rs);
  }

  lemma FirstLineFound(ok: Verdict, cs: seq<Line>, pkg: string)
    requires Clean(ok, cs) && BlockFree(cs, pkg) && pkg != "" && S.Scan(cs, pkg).pkgLine.Some?
    ensures var h := S.Scan(cs, pkg).pkgLine.value;
            h.Standalone? && S.HeaderAt(cs, pkg, h.idx) == Some(S.Standalone(h.idx))
  {
    var v := S.FirstHeader(cs, pkg, |cs|);
    HeaderAlone(ok, cs, pkg, v);
  }

  /** The rules come back, unless the brace lands in a comment. */
  lemma PutBackMeaning(ok: Verdict, rest: seq<string>, pkg: string, at: nat, texts: seq<string>, rs: seq<AffinityRule>)
    requires Clean(ok, ClassifyAll(rest)) && NoSinglesFrom(ClassifyAll(rest), pkg, 0) && PkgSafe(pkg)
    requires Printable(ok, pkg, ClassifyAll(texts), rs)
    requires at <= |rest| && StateAt(ClassifyAll(rest), at) == START
    ensures !BraceInComment(rest, pkg) ==> TextsPut(ok, rest, PutBack(rest, pkg, at, texts), pkg, rs)
    ensures BraceInComment(rest, pkg) ==>
              S.Scan(ClassifyAll(rest), pkg).pkgLine.Some? &&
              var i := S.Scan(ClassifyAll(rest), pkg).pkgLine.value.idx;
              StrayClose(ClassifyAll(PutBack(rest, pkg, at, texts)), i, i + |texts| + 1)
  {
    hide Classify, TextsPut, HasComment, StrayClose, PkgSafe, Clean, Printable, ClassifyAll, S.OpenTo, S.CloseTo, S.HitsTo,
         NoSinglesFrom, BlockFree, BlockLines, OpenedText;
    var cs := ClassifyAll(rest);
    var t := S.Scan(cs, pkg);
    SafeName(pkg);
    if t.blockClose.Some? {
      BackInBlock(ok, rest, pkg, texts, rs);
    } else {
      BlockFound(ok, cs, pkg);
      if t.pkgLine.Some? {
        FirstLineFound(ok, cs, pkg);
        BackBehind(ok, rest, pkg, t.pkgLine.value.idx, texts, rs);
      } else {
        BackFresh(ok, rest, pkg, at, texts, rs);
      }
    }
  }

  // ----- the whole move

  /** The recorded single-line rules, as places and as rules. */
  lemma SinglesFound(ok: Verdict, cs: seq<Line>, pkg: string) returns (rs: seq<AffinityRule>)
    requires Clean(ok, cs) && forall k | 0 <= k < |cs| :: Named(cs[k])
    ensures SinglesAre(cs, pkg, SinglesOf(S.Scan(cs, pkg).hits), rs)
  {
    hide Clean, Complete, SinglesOf, SinglesAre;
    var locs := SinglesOf(S.Scan(cs, pkg).hits);
    SingleLocsFacts(ok, cs, pkg);
    forall k | 0 <= k < |locs|
      ensures locs[k].idx < |cs| && Asked(StateAt(cs, locs[k].idx), cs[locs[k].idx]) != []
      ensures Asked(StateAt(cs, locs[k].idx), cs[locs[k].idx]) == [RuleAt(cs, locs[k].idx)]
    {
      HitRule(ok, cs, pkg, locs[k].idx);
    }
    rs := RulesAt(cs, locs);
    SinglesStand(cs, pkg, locs, rs);
  }

  lemma SinglesSeen(ok: Verdict, cs: seq<Line>, pkg: string, locs: seq<S.ThreadLoc>, rs: seq<AffinityRule>)
    requires Clean(ok, cs) && SinglesAre(cs, pkg, locs, rs) && pkg != ""
    ensures locs == [] <==> NoSinglesFrom(cs, pkg, 0)
    ensures locs != [] ==> locs[0].idx < |cs| && StateAt(cs, locs[0].idx) == START
    ensures BlockFree(cs, pkg) ==> forall l | l in locs :: !l.open
  {
    hide Clean;
    if locs == [] {
      assert Low(locs, 0) == 0 && Bound(locs, 0, |cs|) == |cs|;
    } else {
      CleanLine(ok, cs, locs[0].idx);
      assert SingleAt(cs, pkg, locs[0].idx);
    }
    if BlockFree(cs, pkg) {
      forall k | 0 <= k < |locs| ensures !locs[k].open {
        NoOpener(ok, cs, pkg, locs[k].idx);
      }
    }
  }

  /** The file without the single-line rules. */
  lemma RestMeaning(ok: Verdict, lines: seq<string>, pkg: string, locs: seq<S.ThreadLoc>, rs: seq<AffinityRule>)
    requires Editable(ok, lines, pkg) && SinglesAre(ClassifyAll(lines), pkg, locs, rs) && locs != []
    ensures var rest := Stripped(lines, pkg, locs, 0);
            var os, cs := ClassifyAll(lines), ClassifyAll(rest);
            && Clean(ok, cs) && Moves(ok, os, cs, pkg, multiset(rs), multiset{}) && NoSinglesFrom(cs, pkg, 0)
            && locs[0].idx <= |rest| && StateAt(cs, locs[0].idx) == START
            && (BraceInComment(rest, pkg) <==> BraceInComment(lines, pkg))
  {
    hide Classify, Clean, Moves, HasComment, Complete, SpecVerdict, SinglesSafe, HeaderLine, PkgSafe;
    var rest := Stripped(lines, pkg, locs, 0);
    var os, cs := ClassifyAll(lines), ClassifyAll(rest);
    SafeName(pkg);
    StripRun(ok, lines, pkg, locs, rs, 0);
    RemovingDone(ok, os, cs, pkg, locs, rs);
    SinglesSeen(ok, os, pkg, locs, rs);
    BlockFound(ok, os, pkg);
    BlockFound(ok, cs, pkg);
  }

  predicate SameRules(ok: Verdict, lines: seq<string>, out: seq<string>, pkg: string)
  {
    Moves(ok, ClassifyAll(lines), ClassifyAll(out), pkg, multiset{}, multiset{})
  }

  /** The early exit of the editor is not taken on such a file. */
  lemma NormalizedIs(ok: Verdict, lines: seq<string>, pkg: string, locs: seq<S.ThreadLoc>, rs: seq<AffinityRule>)
    requires Editable(ok, lines, pkg) && SinglesAre(ClassifyAll(lines), pkg, locs, rs) && locs != []
    requires locs == SinglesOf(S.Scan(ClassifyAll(lines), pkg).hits)
    ensures Normalized(lines, pkg) ==
              PutBack(Stripped(lines, pkg, locs, 0), pkg, locs[0].idx, SingleTexts(lines, locs))
  {
    hide Classify, Clean, Complete, SpecVerdict, SinglesSafe, PkgSafe, PutBack, Stripped, SingleTexts, SinglesOf;
    var cs := ClassifyAll(lines);
    SafeName(pkg);
    SinglesSeen(ok, cs, pkg, locs, rs);
    BlockFound(ok, cs, pkg);
    if BlockFree(cs, pkg) && S.Scan(cs, pkg).pkgLine.Some? {
      FirstLineFound(ok, cs, pkg);
    }
  }

  /** What a normalized file keeps, in the words of the file before. */
  ghost predicate Regular(ok: Verdict, lines: seq<string>, out: seq<string>, pkg: string)
  {
    && Clean(ok, ClassifyAll(out)) && SameRules(ok, lines, out, pkg) && NoSinglesFrom(ClassifyAll(out), pkg, 0)
  }

  lemma MovedMeaning(ok: Verdict, lines: seq<string>, pkg: string, locs: seq<S.ThreadLoc>, rs: seq<AffinityRule>)
    requires Editable(ok, lines, pkg) && SinglesAre(ClassifyAll(lines), pkg, locs, rs) && locs != []
    ensures var rest, texts := Stripped(lines, pkg, locs, 0), SingleTexts(lines, locs);
            var out := PutBack(rest, pkg, locs[0].idx, texts);
            && (!BraceInComment(lines, pkg) ==> Regular(ok, lines, out, pkg) && !BlockFree(ClassifyAll(out), pkg))
            && (BraceInComment(lines, pkg) ==>
                  HasStrayClose(ClassifyAll(out)))
  {
    hide Classify, Clean, BraceInComment, Complete, SpecVerdict, SinglesSafe, PkgSafe, PutBack, Stripped,
         SingleTexts, StrayClose, Moves, Printable, NoSinglesFrom, BlockFree, HeaderLine;
    var rest, texts := Stripped(lines, pkg, locs, 0), SingleTexts(lines, locs);
    RestMeaning(ok, lines, pkg, locs, rs);
    TextsRead(ok, lines, pkg, locs, rs);
    PutBackMeaning(ok, rest, pkg, locs[0].idx, texts, rs);
    if !BraceInComment(lines, pkg) {
      var a, b, c := ClassifyAll(lines), ClassifyAll(rest), ClassifyAll(PutBack(rest, pkg, locs[0].idx, texts));
      MovesRound(ok, a, b, c, pkg, multiset(rs));
    } else {
      var i := S.Scan(ClassifyAll(rest), pkg).pkgLine.value.idx;
      assert StrayClose(ClassifyAll(PutBack(rest, pkg, locs[0].idx, texts)), i, i + |texts| + 1);
    }
  }

  lemma MovesRound(ok: Verdict, a: seq<Line>, b: seq<Line>, c: seq<Line>, pkg: string, m: multiset<AffinityRule>)
    requires Moves(ok, a, b, pkg, m, multiset{}) && Moves(ok, b, c, pkg, multiset{}, m)
    ensures Moves(ok, a, c, pkg, multiset{}, multiset{})
  {
    MovesChain(ok, a, b, c, pkg, m, multiset{}, multiset{}, m);
    assert m + multiset{} == multiset{} + m;
    MovesCancel(ok, a, c, pkg, multiset{}, multiset{}, m);
  }

  /** A moved rule keeps its name only if the name can be printed. */
  lemma RegularNeedsSafe(ok: Verdict, lines: seq<string>, out: seq<string>, pkg: string)
    requires Clean(ok, ClassifyAll(lines)) && Regular(ok, lines, out, pkg)
    ensures SinglesSafe(ClassifyAll(lines), pkg)
  {
    hide Classify, Clean, Loaded, NoSinglesFrom, EntrySafe, Moves;
    var cs := ClassifyAll(lines);
    forall k | 0 <= k < |cs| && SingleAt(cs, pkg, k) ensures EntrySafe(cs[k].outer.thread) {
      var r := AffinityRule(pkg, cs[k].outer.thread, cs[k].outer.cpus);
      SingleLoaded(ok, lines, k);
      SameMembers(ok, cs, ClassifyAll(out), pkg, r);
      BlockNamesSafe(ok, out, pkg, r);
    }
  }

  lemma SameMembers(ok: Verdict, a: seq<Line>, b: seq<Line>, pkg: string, r: AffinityRule)
    requires Moves(ok, a, b, pkg, multiset{}, multiset{}) && r in Loaded(ok, a)
    ensures r in Loaded(ok, b)
  {
    hide Loaded;
    assert r in multiset(Loaded(ok, a));
    assert multiset(Loaded(ok, b)) + multiset{} == multiset(Loaded(ok, b));
    assert multiset(Loaded(ok, a)) + multiset{} == multiset(Loaded(ok, a));
    assert r in multiset(Loaded(ok, b));
  }

  lemma SingleLoaded(ok: Verdict, lines: seq<string>, k: nat)
    requires Clean(ok, ClassifyAll(lines)) && k < |lines|
    requires ClassifyAll(lines)[k].Text? && ClassifyAll(lines)[k].outer.Single?
    requires !StateAt(ClassifyAll(lines), k).inBlock
    ensures var o := ClassifyAll(lines)[k].outer;
            AffinityRule(o.pkg, o.thread, o.cpus) in Loaded(ok, ClassifyAll(lines)) && o.thread != ""
  {
    hide Classify, Hard, Soft, After, Rules;
    var cs := ClassifyAll(lines);
    assert cs[k] == Classify(lines[k]);
    assert Named(cs[k]);
    LineOf(ok, cs, k);
    CutAt(ok, cs, k, k + 1);
    assert cs[k..k + 1] == [cs[k]];
    One(ok, StateAt(cs, k), cs[k]);
  }

  /** Moving the single-line rules of a package into its block leaves the rules of
      the file as they were, and leaves no single-line rule of the package behind, exactly
      when their names can be printed and the opening brace is not added to a comment. */
  lemma NormalizedMeaning(ok: Verdict, lines: seq<string>, pkg: string)
    requires Loadable(ok, lines, pkg)
    ensures Regular(ok, lines, Normalized(lines, pkg), pkg) <==>
              SinglesSafe(ClassifyAll(lines), pkg) && !NormalizingBreaks(lines, pkg)
  {
    hide Classify, Clean, SpecVerdict, SinglesSafe, PkgSafe, Normalized, SameRules, NoSinglesFrom, BraceInComment, HasSingles;
    if Regular(ok, lines, Normalized(lines, pkg), pkg) {
      RegularNeedsSafe(ok, lines, Normalized(lines, pkg), pkg);
    }
    if SinglesSafe(ClassifyAll(lines), pkg) {
      MoveMeaning(ok, lines, pkg);
    }
  }

  /** With names that can be printed, it goes wrong exactly when the brace is added to a
      comment, and then the file does not load. */
  lemma MoveMeaning(ok: Verdict, lines: seq<string>, pkg: string)
    requires Editable(ok, lines, pkg)
    ensures var out := Normalized(lines, pkg);
            && (Clean(ok, ClassifyAll(out)) <==> !(HasSingles(lines, pkg) && BraceInComment(lines, pkg)))
            && (Clean(ok, ClassifyAll(out)) ==> Regular(ok, lines, out, pkg))
            && (Clean(ok, ClassifyAll(out)) && HasSingles(lines, pkg) ==> !BlockFree(ClassifyAll(out), pkg))
            && (!HasSingles(lines, pkg) ==> out == lines)
  {
    hide Classify, Clean, Moves, BraceInComment, Complete, SpecVerdict, SinglesSafe, PkgSafe, Normalized,
         PutBack, HasStrayClose;
    var cs := ClassifyAll(lines);
    var rs := SinglesFound(ok, cs, pkg);
    var locs := SinglesOf(S.Scan(cs, pkg).hits);
    SafeName(pkg);
    SinglesSeen(ok, cs, pkg, locs, rs);
    HasSinglesIs(lines, pkg);
    if locs == [] {
      MovesNothing(ok, cs, pkg);
      NothingMoved(lines, pkg);
    } else {
      NormalizedIs(ok, lines, pkg, locs, rs);
      MovedMeaning(ok, lines, pkg, locs, rs);
      if BraceInComment(lines, pkg) {
        HasStrayFails(ok, ClassifyAll(Normalized(lines, pkg)));
      }
    }
  }

  lemma HasSinglesIs(lines: seq<string>, pkg: string)
    ensures HasSingles(lines, pkg) <==> !NoSinglesFrom(ClassifyAll(lines), pkg, 0)
  {
  }

  lemma NothingMoved(lines: seq<string>, pkg: string)
    requires SinglesOf(S.Scan(ClassifyAll(lines), pkg).hits) == []
    ensures Normalized(lines, pkg) == lines
  {
  }
}
