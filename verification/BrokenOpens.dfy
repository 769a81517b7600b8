/** The file `normalize_singles` leaves when its brace falls into a comment, and why a
    later upsert cannot repair it. */
module BrokenOpens {
  import opened Base
  import opened Text
  import opened Lines
  import opened Syntax
  import opened Shapes
  import opened Printing
  import opened Loader
  import opened Edits
  import opened Tracking
  import opened Swapping
  import opened Taking
  import opened Stripping
  import opened Inserting
  import opened Normalizing
  import opened SinglesMoved
  import opened RuleEdits
  import S = Scanner

  // ----- edits around a stray brace

  lemma SwappedLine(lines: seq<string>, i: nat, cpus: string)
    requires i < |lines|
    ensures ClassifyAll(Swapped(lines, i, cpus)) == Spliced(ClassifyAll(lines), i, i + 1, [Classify(SpecSwap(lines[i], cpus))])
  {
    hide Classify, SpecSwap;
    LineReplaced(lines, i, SpecSwap(lines[i], cpus));
  }

  lemma StrayBefore(cs: seq<Line>, h: nat, j: nat, i: nat, u: nat, mid: seq<Line>)
    requires StrayClose(cs, h, j) && j < i <= u <= |cs|
    ensures StrayClose(Spliced(cs, i, u, mid), h, j)
  {
    var out := Spliced(cs, i, u, mid);
    SplicePrefix(cs, i, u, mid, h);
    assert forall k | 0 <= k <= j :: out[k] == cs[k];
  }

  lemma StrayAround(cs: seq<Line>, h: nat, j: nat, i: nat, u: nat, mid: seq<Line>)
    requires StrayClose(cs, h, j) && h <= i <= u <= j && forall c | c in mid :: Quiet(c)
    ensures StrayClose(Spliced(cs, i, u, mid), h, j - (u - i) + |mid|)
  {
    hide Quiet;
    var out := Spliced(cs, i, u, mid);
    SplicePrefix(cs, i, u, mid, h);
    var d := |mid| - (u - i);
    forall k | h <= k < j + d ensures Quiet(out[k]) {
      if k < i {
        assert out[k] == cs[k];
      } else if k < i + |mid| {
        assert out[k] == mid[k - i] && mid[k - i] in mid;
      } else {
        assert out[k] == cs[k - d];
      }
    }
    assert out[j + d] == cs[j];
  }

  // ----- the shape of the damage

  ghost predicate Printed(raw: string)
  {
    exists th, cp, t :: EntrySafe(th) && CpuText(cp) && Tail(t) && raw == EntryText(th, cp) + t
  }

  lemma PrintedQuiet(raw: string)
    requires Printed(raw)
    ensures Quiet(Classify(raw))
  {
    hide EntrySafe, CpuText, Tail, EntryText, Classify;
    var th, cp, t :| EntrySafe(th) && CpuText(cp) && Tail(t) && raw == EntryText(th, cp) + t;
    EntryLine(th, cp, t);
  }

  lemma PrintedSwap(raw: string, cpus: string)
    requires Printed(raw) && CpuText(cpus)
    ensures Printed(SpecSwap(raw, cpus))
  {
    hide EntrySafe, CpuText, Tail, SpecSwap;
    var th, cp, t :| EntrySafe(th) && CpuText(cp) && Tail(t) && raw == EntryText(th, cp) + t;
    var z := SwapText(th, cp, t, cpus);
    assert SpecSwap(raw, cpus) == EntryText(th, cpus) + z;
  }

  lemma SafeParts(th: string, cp: string)
    requires EntrySafe(th) && CpuText(cp)
    ensures Trimmed(th) && Trimmed(cp) && th != "" && cp != "" && !IsWs(cp[0]) && '=' !in cp && Blank("\t")
  {
  }

  /** The swap in a printed line. */
  lemma SwapText(th: string, cp: string, t: string, cpus: string) returns (z: string)
    requires EntrySafe(th) && CpuText(cp) && CpuText(cpus) && Tail(t)
    ensures Tail(z) && SpecSwap(EntryText(th, cp) + t, cpus) == EntryText(th, cpus) + z
  {
    hide CommentAt, SpecSwap, Core, Tail, CpuText, EntrySafe, Trim, Trimmed, CloseLike, SplitRuleCore, Opens;
    SafeParts(th, cp);
    var w;
    EntryCore(th, cp);
    TrimTrimmed(th);
    TrimTrimmed(cp);
    TabLine(th, cp, t);
    CpuNoBrace(Trim(cp));
    w, z := PlainSwap("\t", th, cp, t, cpus);
    assert w == "" && w + cpus == cpus;
    TabLine(th, cpus, z);
  }

  /** The file after the opening brace of pkg's block fell into the comment of line h: the
      block's lines follow, and its closing brace stands on line j. Nothing of pkg is in
      front of line h. */
  ghost predicate BrokenOpen(out: seq<string>, pkg: string, h: nat, j: nat)
  {
    var cs := ClassifyAll(out);
    && h < j && StrayClose(cs, h, j)
    && S.HeaderAt(cs, pkg, h) == Some(S.Standalone(h)) && HasComment(out[h]) && CpuText(cs[h].outer.cpus)
    && (forall k | 0 <= k < h :: S.HitAt(cs, pkg, k).None? && S.HeaderAt(cs, pkg, k).None?)
    && (forall k | 0 <= k <= h :: !S.InTarget(cs, pkg, k))
    && (forall k | h < k < j :: Printed(out[k]))
  }

  /** The line printed for a single-line rule. */
  lemma SingleTextPrinted(raw: string)
    requires Classify(raw).Text? && Classify(raw).outer.Single?
    requires EntrySafe(Classify(raw).outer.thread) && CpuText(Classify(raw).outer.cpus)
    ensures Printed(SingleText(raw))
  {
    hide EntrySafe, CpuText, Tail;
    var o := Classify(raw).outer;
    assert ParseOuter(Trim(raw)) == o;
    CommentText(EntryText(o.thread, o.cpus), raw);
    var t :| Tail(t) && SingleText(raw) == EntryText(o.thread, o.cpus) + t;
  }

  lemma CommentText(line: string, raw: string)
    requires !Skipped(Trim(raw))
    ensures exists t :: Tail(t) && WithComment(line, Trim(raw)) == line + t
  {
    hide Tail;
    var lead, q, t := ShapeOf(raw);
    TrimShape(lead, q, t);
    TailTrimmed(t);
    assert "" + q + TrimEnd(t) == q + TrimEnd(t);
    WithCommentShape(line, "", q, TrimEnd(t));
    assert line + "" == line;
    EmptyTail();
  }

  lemma TextsPrinted(ok: Verdict, lines: seq<string>, pkg: string, locs: seq<S.ThreadLoc>, rs: seq<AffinityRule>)
    requires Editable(ok, lines, pkg) && SinglesAre(ClassifyAll(lines), pkg, locs, rs)
    ensures forall x | x in SingleTexts(lines, locs) :: Printed(x)
  {
    hide Classify, SingleText, SinglesSafe, Complete, EntrySafe, CpuText, Printed;
    var texts := SingleTexts(lines, locs);
    var cs := ClassifyAll(lines);
    forall k | 0 <= k < |locs| ensures Printed(texts[k]) {
      var i := locs[k].idx;
      SingleFound(ok, lines, pkg, i);
      SingleTextPrinted(lines[i]);
    }
  }

  lemma SingleFound(ok: Verdict, lines: seq<string>, pkg: string, i: nat)
    requires Editable(ok, lines, pkg) && i < |lines| && S.HitAt(ClassifyAll(lines), pkg, i).Some?
    requires S.HitAt(ClassifyAll(lines), pkg, i).value.loc.single
    ensures var c := Classify(lines[i]);
            c.Text? && c.outer.Single? && EntrySafe(c.outer.thread) && CpuText(c.outer.cpus)
  {
    hide Classify, EntrySafe, CpuText;
    var cs := ClassifyAll(lines);
    HitRule(ok, cs, pkg, i);
    SingleIsHit(ok, cs, pkg, i);
  }

  /** Before the package's first line there is nothing of the package. */
  lemma NothingBefore(ok: Verdict, cs: seq<Line>, out: seq<Line>, pkg: string, h: nat)
    requires Clean(ok, cs) && BlockFree(cs, pkg) && NoSinglesFrom(cs, pkg, 0) && pkg != "" && h < |cs| && h < |out|
    requires S.Scan(cs, pkg).pkgLine == Some(S.Standalone(h)) && out[..h] == cs[..h]
    requires out[h].Text? && out[h].outer.Rule? && out[h].outer.pkg == pkg && !out[h].outer.open
    ensures S.HeaderAt(out, pkg, h) == Some(S.Standalone(h))
    ensures forall k | 0 <= k < h :: S.HitAt(out, pkg, k).None? && S.HeaderAt(out, pkg, k).None?
    ensures forall k | 0 <= k <= h :: !S.InTarget(out, pkg, k)
  {
    hide Clean;
    var v := S.FirstHeader(cs, pkg, |cs|);
    HeaderAlone(ok, cs, pkg, v);
    forall k | 0 <= k <= h ensures S.StateAt(out, k) == S.StateAt(cs, k) && !S.InTarget(cs, pkg, k) {
      assert out[..k] == out[..h][..k] == cs[..h][..k] == cs[..k];
      PrefixSame(out, cs, k);
      InTargetIsLoader(ok, cs, pkg, k);
    }
    CleanLine(ok, cs, h);
    forall k | 0 <= k < h ensures S.HitAt(out, pkg, k).None? && S.HeaderAt(out, pkg, k).None? {
      assert out[k] == out[..h][k] == cs[..h][k] == cs[k];
      CleanLine(ok, cs, k);
      assert !SingleAt(cs, pkg, k) && S.HeaderAt(cs, pkg, k).None?;
      S.PendingRun(cs, k);
      SamePending(out, cs, pkg, k);
    }
  }

  lemma SamePending(a: seq<Line>, b: seq<Line>, pkg: string, k: nat)
    requires k < |a| && k < |b| && a[..k] == b[..k] && a[k] == b[k] && S.StateAt(a, k) == S.StateAt(b, k)
    ensures S.HeaderAt(a, pkg, k) == S.HeaderAt(b, pkg, k) && S.HitAt(a, pkg, k) == S.HitAt(b, pkg, k)
  {
    var p := S.StateAt(a, k).pend;
    if p.Some? {
      assert a[p.value] == a[..k][p.value] == b[..k][p.value] == b[p.value];
    }
  }

  lemma BehindHeader(rest: seq<string>, pkg: string, at: nat, texts: seq<string>, h: nat)
    requires S.Scan(ClassifyAll(rest), pkg).blockClose.None? && S.Scan(ClassifyAll(rest), pkg).pkgLine == Some(S.Standalone(h))
    ensures h < |rest|
    ensures var out := PutBack(rest, pkg, at, texts);
            && |out| == |rest| + |texts| + 1 && out[h] == OpenedText(rest[h])
            && (forall k | h < k < h + |texts| + 1 :: out[k] in texts)
            && ClassifyAll(out)[..h] == ClassifyAll(rest)[..h] && ClassifyAll(out)[h] == Classify(out[h])
  {
    hide Classify, OpenedText;
    var out := PutBack(rest, pkg, at, texts);
    assert out == rest[..h] + BlockLines(OpenedText(rest[h]), texts) + rest[h + 1..];
    forall k | h < k < h + |texts| + 1 ensures out[k] in texts {
      assert out[k] == texts[k - h - 1];
    }
  }

  lemma BreakMade(ok: Verdict, rest: seq<string>, pkg: string, at: nat, texts: seq<string>, rs: seq<AffinityRule>)
    requires SpecVerdict(ok) && Clean(ok, ClassifyAll(rest)) && NoSinglesFrom(ClassifyAll(rest), pkg, 0) && PkgSafe(pkg)
    requires BraceInComment(rest, pkg) && Printable(ok, pkg, ClassifyAll(texts), rs) && forall x | x in texts :: Printed(x)
    requires at <= |rest| && StateAt(ClassifyAll(rest), at) == START
    ensures var h := S.Scan(ClassifyAll(rest), pkg).pkgLine.value.idx;
            BrokenOpen(PutBack(rest, pkg, at, texts), pkg, h, h + |texts| + 1)
  {
    hide Classify, HasComment, PkgSafe, Clean, Printable, OpenedText, Printed, CpuText, StrayClose, BlockFree, NoSinglesFrom;
    var cs := ClassifyAll(rest);
    var h := S.Scan(cs, pkg).pkgLine.value.idx;
    SafeName(pkg);
    BlockFound(ok, cs, pkg);
    FirstLineFound(ok, cs, pkg);
    PutBackMeaning(ok, rest, pkg, at, texts, rs);
    var out := PutBack(rest, pkg, at, texts);
    BehindHeader(rest, pkg, at, texts, h);
    hide PutBack, ClassifyAll, S.HeaderAt, S.HitAt, S.OpenTo, S.CloseTo, S.HitsTo, S.HeaderTo;
    assert HasComment(rest[h]);
    OpenedCommented(rest[h]);
    HeaderCpus(ok, cs, pkg, h);
    NothingBefore(ok, cs, ClassifyAll(out), pkg, h);
    forall k | h < k < h + |texts| + 1 ensures Printed(out[k]) {
      assert out[k] in texts;
    }
  }

  lemma HeaderCpus(ok: Verdict, cs: seq<Line>, pkg: string, h: nat)
    requires SpecVerdict(ok) && Clean(ok, cs) && h < |cs| && S.HeaderAt(cs, pkg, h) == Some(S.Standalone(h))
    ensures cs[h].Text? && cs[h].outer.Rule? && cs[h].outer.pkg == pkg && !cs[h].outer.open && CpuText(cs[h].outer.cpus)
  {
    hide CpuText;
    CleanLine(ok, cs, h);
    assert ok(pkg, "", cs[h].outer.cpus);
  }

  // ----- an upsert on the damaged file

  /** The scanner, too, stays outside through the damage. */
  lemma {:induction false} ScannerOutside(cs: seq<Line>, h: nat, j: nat, k: nat)
    requires StrayClose(cs, h, j) && !S.StateAt(cs, h).inBlock && h <= k <= j + 1
    ensures !S.StateAt(cs, k).inBlock
  {
    if k > h {
      ScannerOutside(cs, h, j, k - 1);
      assert k - 1 < j ==> Quiet(cs[k - 1]);
    }
  }

  /** A recorded rule stands behind the damage, or is one of its printed lines. */
  lemma HitPlace(out: seq<string>, pkg: string, h: nat, j: nat, i: nat)
    requires BrokenOpen(out, pkg, h, j) && i < |out| && S.HitAt(ClassifyAll(out), pkg, i).Some?
    ensures h < i && i != j
    ensures i < j ==> var loc := S.HitAt(ClassifyAll(out), pkg, i).value.loc; !loc.open && !loc.closed && loc.single
  {
    hide Classify, Printed, HasComment, CpuText;
    var cs := ClassifyAll(out);
    if h <= i <= j {
      ScannerOutside(cs, h, j, i);
      assert i < j ==> Quiet(cs[i]);
    }
  }

  /** Where the damage ends while recorded rules are taken out, last first. */
  ghost predicate StrayStays(os: seq<Line>, cs: seq<Line>, pkg: string, h: nat, j: nat, locs: seq<S.ThreadLoc>, k: nat)
  {
    var b := Bound(locs, k, |os|);
    && b <= |cs| && b <= |os| && cs[..b] == os[..b]
    && exists u: nat :: StrayClose(cs, h, u) && (if b > j then u == j else u >= b)
  }

  ghost predicate AwayFrom(os: seq<Line>, pkg: string, h: nat, j: nat, locs: seq<S.ThreadLoc>)
  {
    && (forall k | 0 <= k < |locs| ::
          && h < locs[k].idx < |os| && locs[k].idx != j
          && (locs[k].idx < j ==> !locs[k].open && !locs[k].closed))
    && (forall k | 0 < k < |locs| :: locs[k - 1].idx < locs[k].idx)
  }

  lemma StrayStep(os: seq<Line>, cs: seq<Line>, pkg: string, h: nat, j: nat, locs: seq<S.ThreadLoc>, k: nat, mid: seq<Line>)
    requires AwayFrom(os, pkg, h, j, locs) && k < |locs| && StrayStays(os, cs, pkg, h, j, locs, k + 1)
    requires locs[k].open || locs[k].closed || mid == []
    ensures locs[k].idx < |cs| && StrayStays(os, Spliced(cs, locs[k].idx, locs[k].idx + 1, mid), pkg, h, j, locs, k)
  {
    hide Quiet;
    var i, b := locs[k].idx, Bound(locs, k + 1, |os|);
    assert i < b by {
      if k + 1 < |locs| {
        assert locs[k + 1 - 1].idx < locs[k + 1].idx;
      }
    }
    PrefixLeft(os, cs, b, i, mid);
    var u: nat :| StrayClose(cs, h, u) && (if b > j then u == j else u >= b);
    if i > j {
      StrayBefore(cs, h, u, i, i + 1, mid);
    } else {
      StrayAround(cs, h, u, i, i + 1, mid);
    }
  }

  lemma {:induction false} StrippedStray(lines: seq<string>, pkg: string, h: nat, j: nat, locs: seq<S.ThreadLoc>, k: nat)
    requires StrayClose(ClassifyAll(lines), h, j) && AwayFrom(ClassifyAll(lines), pkg, h, j, locs) && k <= |locs|
    ensures StrayStays(ClassifyAll(lines), ClassifyAll(Stripped(lines, pkg, locs, k)), pkg, h, j, locs, k)
    decreases |locs| - k
  {
    hide Classify, RemovalLines, Quiet, ClassifyAll, StrayStays;
    var os := ClassifyAll(lines);
    if k == |locs| {
      StrayStart(os, pkg, h, j, locs);
    } else {
      StrippedStray(lines, pkg, h, j, locs, k + 1);
      var rest := Stripped(lines, pkg, locs, k + 1);
      Removals(rest, pkg, locs[k]);
      var i := locs[k].idx;
      var mid := if i < |rest| then RemovalLines(rest[i], pkg, locs[k]) else [];
      NothingClassified();
      StrayStep(os, ClassifyAll(rest), pkg, h, j, locs, k, ClassifyAll(mid));
      ClassifySplice(rest, i, i + 1, mid);
    }
  }

  lemma StrayStart(os: seq<Line>, pkg: string, h: nat, j: nat, locs: seq<S.ThreadLoc>)
    requires StrayClose(os, h, j)
    ensures StrayStays(os, os, pkg, h, j, locs, |locs|)
  {
  }

  lemma NothingClassified()
    ensures ClassifyAll([]) == []
  {
  }

  lemma Removals(rest: seq<string>, pkg: string, loc: S.ThreadLoc)
    ensures loc.idx < |rest| && !loc.open && !loc.closed ==> RemovalLines(rest[loc.idx], pkg, loc) == []
  {
  }

  /** Changing or removing recorded rules leaves a stray brace. */
  lemma BrokenReplaced(out: seq<string>, pkg: string, h: nat, j: nat, locs: seq<S.ThreadLoc>, cpus: string)
    requires BrokenOpen(out, pkg, h, j) && CpuText(cpus) && locs != [] && AwayFrom(ClassifyAll(out), pkg, h, j, locs)
    ensures HasStrayClose(ClassifyAll(Stripped(Swapped(out, locs[|locs| - 1].idx, cpus), pkg, locs[..|locs| - 1], 0)))
  {
    hide Classify, SpecSwap, Printed, HasComment, CpuText, Quiet;
    var n := |locs| - 1;
    var i := locs[n].idx;
    var cs := ClassifyAll(out);
    var given := Swapped(out, i, cpus);
    var d := Classify(SpecSwap(out[i], cpus));
    SwappedLine(out, i, cpus);
    if i > j {
      StrayBefore(cs, h, j, i, i + 1, [d]);
    } else {
      PrintedSwap(out[i], cpus);
      PrintedQuiet(SpecSwap(out[i], cpus));
      StrayAround(cs, h, j, i, i + 1, [d]);
    }
    StrippedStray(given, pkg, h, j, locs[..n], 0);
    var fixed := ClassifyAll(Stripped(given, pkg, locs[..n], 0));
    var u: nat :| StrayClose(fixed, h, u);
    assert HasStrayClose(fixed);
  }

  lemma HitsAway(out: seq<string>, pkg: string, h: nat, j: nat, thread: string)
    requires BrokenOpen(out, pkg, h, j)
    ensures AwayFrom(ClassifyAll(out), pkg, h, j, ThreadLocs(S.Scan(ClassifyAll(out), pkg).hits, thread))
  {
    hide Classify, BrokenOpen, S.HitAt, S.HitsTo, ThreadLocs;
    var cs := ClassifyAll(out);
    HitsOf(cs, pkg, thread, |cs|);
    var locs := ThreadLocs(S.HitsTo(cs, pkg, |cs|), thread);
    forall k | 0 <= k < |locs|
      ensures h < locs[k].idx < |cs| && locs[k].idx != j && (locs[k].idx < j ==> !locs[k].open && !locs[k].closed)
    {
      HitPlace(out, pkg, h, j, locs[k].idx);
    }
  }

  predicate AreHits(cs: seq<Line>, pkg: string, locs: seq<S.ThreadLoc>, n: nat)
    requires n <= |cs|
  {
    && (forall k | 0 <= k < |locs| ::
          locs[k].idx < n && S.HitAt(cs, pkg, locs[k].idx).Some? && S.HitAt(cs, pkg, locs[k].idx).value.loc == locs[k])
    && (forall k | 0 < k < |locs| :: locs[k - 1].idx < locs[k].idx)
  }

  lemma {:induction false} HitsOf(cs: seq<Line>, pkg: string, thread: string, n: nat)
    requires n <= |cs|
    ensures AreHits(cs, pkg, ThreadLocs(S.HitsTo(cs, pkg, n), thread), n)
  {
    hide ThreadLocs, S.HitsTo, AreHits;
    if n == 0 {
      NoHitsYet(cs, pkg, thread);
    } else {
      HitsOf(cs, pkg, thread, n - 1);
      ThreadLocsNext(cs, pkg, thread, n - 1);
      OneMoreLoc(cs, pkg, ThreadLocs(S.HitsTo(cs, pkg, n - 1), thread), thread, n - 1);
    }
  }

  lemma NoHitsYet(cs: seq<Line>, pkg: string, thread: string)
    ensures AreHits(cs, pkg, ThreadLocs(S.HitsTo(cs, pkg, 0), thread), 0)
  {
  }

  lemma OneMoreLoc(cs: seq<Line>, pkg: string, locs: seq<S.ThreadLoc>, thread: string, n: nat)
    requires n < |cs| && AreHits(cs, pkg, locs, n)
    ensures var h := S.HitAt(cs, pkg, n);
            AreHits(cs, pkg, locs + (if h.Some? && h.value.name == thread then [h.value.loc] else []), n + 1)
  {
    S.HitIndex(cs, pkg, n);
    hide S.HitAt;
    assert locs + [] == locs;
  }

  /** The damaged package has no block before the damage ends. */
  lemma CloseBehind(out: seq<string>, pkg: string, h: nat, j: nat)
    requires BrokenOpen(out, pkg, h, j) && S.Scan(ClassifyAll(out), pkg).blockClose.Some?
    ensures S.Scan(ClassifyAll(out), pkg).blockClose.value > j
  {
    hide Classify, Printed, HasComment, CpuText;
    var cs := ClassifyAll(out);
    S.FirstBlock(cs, pkg, |cs|);
    var c := S.Scan(cs, pkg).blockClose.value;
    assert S.InTarget(cs, pkg, c);
    if h <= c <= j {
      ScannerOutside(cs, h, j, c);
    }
  }

  lemma BrokenBehind(ok: Verdict, out: seq<string>, pkg: string, h: nat, j: nat, thread: string, cpus: string)
    requires BrokenOpen(out, pkg, h, j)
    requires Printable(ok, pkg, ClassifyAll([EntryText(thread, cpus)]), [AffinityRule(pkg, thread, cpus)])
    requires S.Scan(ClassifyAll(out), pkg).blockClose.None?
    ensures S.Scan(ClassifyAll(out), pkg).pkgLine == Some(S.Standalone(h))
    ensures HasStrayClose(ClassifyAll(PutBack(out, pkg, |out|, [EntryText(thread, cpus)])))
  {
    hide Classify, Printed, CpuText, OpenedText, EntryText, HasComment;
    var cs := ClassifyAll(out);
    var texts := [EntryText(thread, cpus)];
    HeaderIs(cs, pkg, h, |cs|);
    OpenedCommented(out[h]);
    BlockReads(OpenedText(out[h]), texts);
    var bt := BlockLines(OpenedText(out[h]), texts);
    ClassifySplice(out, h, h + 1, bt);
    StrayMade(cs, h, h + 1, ClassifyAll(bt), ClassifyAll(texts), [AffinityRule(pkg, thread, cpus)]);
    assert StrayClose(ClassifyAll(PutBack(out, pkg, |out|, texts)), h, h + 2);
  }

  /** A thread rule put into the damaged file. */
  lemma BrokenThread(ok: Verdict, out: seq<string>, pkg: string, h: nat, j: nat, thread: string, cpus: string)
    requires BrokenOpen(out, pkg, h, j) && CpuText(cpus)
    requires Printable(ok, pkg, ClassifyAll([EntryText(thread, cpus)]), [AffinityRule(pkg, thread, cpus)])
    ensures var e := UpsertedThread(out, pkg, thread, cpus); e.Some? && HasStrayClose(ClassifyAll(e.value))
  {
    hide Classify, CpuText, EntryText, BrokenOpen, Printable, HasStrayClose, Stripped, ThreadLocs;
    var cs := ClassifyAll(out);
    var t := S.Scan(cs, pkg);
    var locs := ThreadLocs(t.hits, thread);
    if locs != [] {
      HitsAway(out, pkg, h, j, thread);
      BrokenReplaced(out, pkg, h, j, locs, cpus);
    } else if t.blockClose.Some? {
      CloseBehind(out, pkg, h, j);
      BrokenInserted(out, pkg, h, j, t.blockClose.value, [EntryText(thread, cpus)]);
    } else {
      BrokenBehind(ok, out, pkg, h, j, thread, cpus);
    }
  }

  lemma BrokenInserted(out: seq<string>, pkg: string, h: nat, j: nat, c: nat, texts: seq<string>)
    requires BrokenOpen(out, pkg, h, j) && j < c <= |out|
    ensures HasStrayClose(ClassifyAll(out[..c] + texts + out[c..]))
  {
    hide Classify, Printed, HasComment, CpuText;
    ClassifySplice(out, c, c, texts);
    StrayBefore(ClassifyAll(out), h, j, c, c, ClassifyAll(texts));
  }

  /** A package rule put into the damaged file. */
  lemma BrokenRule(out: seq<string>, pkg: string, h: nat, j: nat, cpus: string)
    requires BrokenOpen(out, pkg, h, j) && CpuText(cpus) && pkg != ""
    ensures var e := UpsertedRule(out, pkg, cpus); e.Some? && HasStrayClose(ClassifyAll(e.value))
  {
    hide Classify, Printed, HasComment, CpuText, SpecSwap, StrayClose, Swapped, S.HitAt, S.InTarget;
    var cs := ClassifyAll(out);
    BrokenHeader(cs, pkg, h, j);
    HeaderIs(cs, pkg, h, |cs|);
    var o := cs[h].outer;
    CpuNoBrace(o.cpus);
    SwapStandalone(out[h], pkg, o.cpus, cpus);
    var d := Classify(SpecSwap(out[h], cpus));
    SwappedLine(out, h, cpus);
    StrayAround(cs, h, j, h, h + 1, [d]);
    assert UpsertedRule(out, pkg, cpus) == Some(Swapped(out, h, cpus));
  }

  lemma BrokenHeader(cs: seq<Line>, pkg: string, h: nat, j: nat)
    requires StrayClose(cs, h, j) && S.HeaderAt(cs, pkg, h) == Some(S.Standalone(h))
    ensures h <= j < |cs| && cs[h].Text? && cs[h].outer == Rule(pkg, cs[h].outer.cpus, false)
  {
  }

  /** Normalizing such a file damages it. */
  lemma NormalizedBreaks(ok: Verdict, lines: seq<string>, pkg: string) returns (h: nat, j: nat)
    requires Editable(ok, lines, pkg) && HasSingles(lines, pkg) && BraceInComment(lines, pkg)
    ensures BrokenOpen(Normalized(lines, pkg), pkg, h, j)
  {
    hide Classify, Clean, Moves, BraceInComment, Complete, SinglesSafe, PkgSafe, Normalized,
         PutBack, SpecVerdict, Printed, Stripped, SingleTexts, BrokenOpen, Printable,
         HasSingles, SinglesOf, SinglesAre, S.Scan, NoSinglesFrom;
    var cs := ClassifyAll(lines);
    var rs := SinglesFound(ok, cs, pkg);
    var locs := SinglesOf(S.Scan(cs, pkg).hits);
    SafeName(pkg);
    SinglesSeen(ok, cs, pkg, locs, rs);
    HasSinglesIs(lines, pkg);
    NormalizedIs(ok, lines, pkg, locs, rs);
    RestMeaning(ok, lines, pkg, locs, rs);
    TextsRead(ok, lines, pkg, locs, rs);
    TextsPrinted(ok, lines, pkg, locs, rs);
    var rest, texts := Stripped(lines, pkg, locs, 0), SingleTexts(lines, locs);
    BreakMade(ok, rest, pkg, locs[0].idx, texts, rs);
    HeaderThere(rest, pkg);
    h := S.Scan(ClassifyAll(rest), pkg).pkgLine.value.idx;
    j := h + |texts| + 1;
  }

  lemma HeaderThere(rest: seq<string>, pkg: string)
    requires BraceInComment(rest, pkg)
    ensures S.Scan(ClassifyAll(rest), pkg).pkgLine.Some?
  {
  }
}
