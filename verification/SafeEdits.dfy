/** The edits on any file the loader takes: they keep the other rules exactly when the thread
    names of the package's single-line rules can be printed. */
module SafeEdits {
  import opened Base
  import opened Text
  import opened Lines
  import opened Syntax
  import opened Shapes
  import opened Printing
  import opened Loader
  import opened Edits
  import opened Tracking
  import opened Swapping
  import opened Headers
  import opened Taking
  import opened Stripping
  import opened Inserting
  import opened Normalizing
  import opened EntryNames
  import opened SinglesMoved
  import opened RuleEdits
  import opened BrokenOpens
  import opened Upserting
  import opened Deleting
  import S = Scanner

  // ----- the edits bring back no single-line rule

  /** Lines that replace one inside a block. */
  lemma NoneInside(cs: seq<Line>, pkg: string, i: nat, mid: seq<Line>)
    requires NoSinglesFrom(cs, pkg, 0) && i < |cs| && StateAt(cs, i).inBlock && |mid| <= 1
    requires After(StateAt(cs, i), mid) == StateAt(cs, i + 1)
    ensures NoSinglesFrom(Spliced(cs, i, i + 1, mid), pkg, 0)
  {
    hide NoSinglesFrom, StateAt;
    forall k | 0 <= k < |mid| ensures !SingleIn(StateAt(cs, i), mid, pkg, k) {
      assert mid[..0] == [];
    }
    SinglesAfter(cs, i, i + 1, mid, pkg);
  }

  /** Lines outside blocks that are no single-line rules. */
  lemma NoneOutside(cs: seq<Line>, pkg: string, i: nat, j: nat, mid: seq<Line>)
    requires NoSinglesFrom(cs, pkg, 0) && i <= j <= |cs| && After(StateAt(cs, i), mid) == StateAt(cs, j)
    requires forall k | 0 <= k < |mid| :: mid[k].Text? ==> !mid[k].outer.Single?
    ensures NoSinglesFrom(Spliced(cs, i, j, mid), pkg, 0)
  {
    hide NoSinglesFrom, StateAt, After;
    SinglesAfter(cs, i, j, mid, pkg);
  }

  lemma {:induction false} StrippedNone(ok: Verdict, lines: seq<string>, pkg: string,
                                        locs: seq<S.ThreadLoc>, rs: seq<AffinityRule>, k: nat)
    requires |rs| == |locs| && Recorded(ClassifyAll(lines), pkg, locs, rs) && PkgSafe(pkg)
    requires Clean(ok, ClassifyAll(lines)) && k <= |rs| && NoSinglesFrom(ClassifyAll(lines), pkg, 0)
    ensures NoSinglesFrom(ClassifyAll(Stripped(lines, pkg, locs, k)), pkg, 0)
    decreases |rs| - k
  {
    hide Classify, Clean, Moves, Recorded, LineRemoved, NoSinglesFrom, PkgSafe;
    if k < |rs| {
      var cur := Stripped(lines, pkg, locs, k + 1);
      StrippedNone(ok, lines, pkg, locs, rs, k + 1);
      StrippedTaken(ok, lines, pkg, locs, rs, k + 1);
      StripNone(ok, lines, cur, pkg, locs, rs, k);
    }
  }

  lemma StripNone(ok: Verdict, lines: seq<string>, cur: seq<string>, pkg: string,
                  locs: seq<S.ThreadLoc>, rs: seq<AffinityRule>, k: nat)
    requires |rs| == |locs| && Recorded(ClassifyAll(lines), pkg, locs, rs) && PkgSafe(pkg) && k < |rs|
    requires Taken(ok, ClassifyAll(lines), ClassifyAll(cur), pkg, locs, rs, k + 1) && NoSinglesFrom(ClassifyAll(cur), pkg, 0)
    ensures locs[k].idx < |cur| && NoSinglesFrom(ClassifyAll(LineRemoved(cur, pkg, locs[k])), pkg, 0)
  {
    hide Classify, Clean, Moves, PkgSafe;
    var os, cs := ClassifyAll(lines), ClassifyAll(cur);
    Spot(os, cs, pkg, locs, rs, k);
    var i := locs[k].idx;
    var mid := RemovalLines(cur[i], pkg, locs[k]);
    HitIsText(cs, pkg, i);
    NotSkippedText(cur[i]);
    RemovalClasses(cur[i], pkg, locs[k]);
    SafeName(pkg);
    RemovalRun(ok, cs, pkg, i, ClassifyAll(mid));
    CleanLine(ok, cs, i);
    assert !SingleAt(cs, pkg, i);
    NoneInside(cs, pkg, i, ClassifyAll(mid));
    ClassifySplice(cur, i, i + 1, mid);
  }

  lemma SwappedNone(ok: Verdict, lines: seq<string>, pkg: string, i: nat, cpus: string)
    requires Clean(ok, ClassifyAll(lines)) && SpecVerdict(ok) && CpuText(cpus) && i < |lines| && NoSinglesFrom(ClassifyAll(lines), pkg, 0)
    requires S.HitAt(ClassifyAll(lines), pkg, i).Some?
    ensures NoSinglesFrom(ClassifyAll(Swapped(lines, i, cpus)), pkg, 0)
  {
    hide Classify, SpecSwap, Clean, CpuText, Swapped, SwappedTo;
    var cs := ClassifyAll(lines);
    var d := Classify(SpecSwap(lines[i], cpus));
    SwappedHit(ok, lines, pkg, i, cpus);
    CleanLine(ok, cs, i);
    assert !SingleAt(cs, pkg, i);
    RewordedStep(StateAt(cs, i), cs[i], d, SwappedTo(lines[i], cpus));
    One(ok, StateAt(cs, i), d);
    NoneInside(cs, pkg, i, [d]);
    SwappedLine(lines, i, cpus);
  }

  lemma RewordedStep(s: State, c: Line, d: Line, cpus: string)
    requires Reworded(s, c, d, cpus)
    ensures Step(s, d) == Step(s, c) && d.Text?
    ensures !s.inBlock ==> !d.outer.Single?
  {
  }

  /** A thread rule put into a settled file leaves no single-line rule. */
  lemma UpsertedNone(ok: Verdict, lines: seq<string>, pkg: string, thread: string, cpus: string)
    requires Settled(ok, lines, pkg) && EntrySafe(thread) && thread != "" && ok(pkg, thread, cpus)
    requires !BraceInComment(lines, pkg)
    ensures var out := UpsertedThread(lines, pkg, thread, cpus);
            out.Some? && NoSinglesFrom(ClassifyAll(out.value), pkg, 0)
  {
    hide Classify, Clean, Moves, PkgSafe, NoSinglesFrom, CpuText, Stripped, PutBack, Swapped, EntrySafe, SpecSwap, SwappedTo,
         BraceInComment, Only, Recorded, ThreadLocs, StrayClose, Printable, EntryText, BlockFree;
    var cs := ClassifyAll(lines);
    var locs := ThreadLocs(S.Scan(cs, pkg).hits, thread);
    var rs := Only(Loaded(ok, cs), pkg, thread);
    HitsAreThreadRules(ok, lines, pkg, thread);
    BlockFound(ok, cs, pkg);
    SafeName(pkg);
    if locs != [] {
      OnlyMatches(Loaded(ok, cs), pkg, thread);
      ReplacedNone(ok, lines, pkg, thread, locs, rs, cpus);
    } else {
      NewEntry(ok, pkg, thread, cpus);
      CleanEnd(ok, cs);
      PutBackMeaning(ok, lines, pkg, |lines|, [EntryText(thread, cpus)], [AffinityRule(pkg, thread, cpus)]);
    }
  }

  lemma ReplacedNone(ok: Verdict, lines: seq<string>, pkg: string, thread: string,
                     locs: seq<S.ThreadLoc>, rs: seq<AffinityRule>, cpus: string)
    requires Clean(ok, ClassifyAll(lines)) && SpecVerdict(ok) && PkgSafe(pkg)
    requires NoSinglesFrom(ClassifyAll(lines), pkg, 0) && ok(pkg, thread, cpus)
    requires locs != [] && |rs| == |locs| && Recorded(ClassifyAll(lines), pkg, locs, rs)
    requires forall r | r in rs :: r.pkg == pkg && r.thread == thread
    ensures var n := |locs| - 1;
            NoSinglesFrom(ClassifyAll(Stripped(Swapped(lines, locs[n].idx, cpus), pkg, locs[..n], 0)), pkg, 0)
  {
    hide Classify, SpecSwap, Clean, Moves, PkgSafe, NoSinglesFrom, CpuText, Stripped, Reworded, Swapped, ClassifyAll, SwappedTo;
    var n := |locs| - 1;
    var i := locs[n].idx;
    var cs := ClassifyAll(lines);
    assert CpuText(cpus);
    SwappedHit(ok, lines, pkg, i, cpus);
    var d := Classify(SpecSwap(lines[i], cpus));
    assert rs[n] in rs;
    assert Admitted(ok, rs[n]) by {
      TakenRule(ok, cs, pkg, i);
    }
    LastSwapped(ok, cs, pkg, locs, rs, d, SwappedTo(lines[i], cpus));
    SwappedLine(lines, i, cpus);
    SwappedNone(ok, lines, pkg, i, cpus);
    StrippedNone(ok, Swapped(lines, i, cpus), pkg, locs[..n], rs[..n], 0);
  }

  // ----- the package's own line

  lemma HeaderSwappedNone(ok: Verdict, lines: seq<string>, pkg: string, i: nat, cpus: string)
    requires Clean(ok, ClassifyAll(lines)) && SpecVerdict(ok) && pkg != "" && ok(pkg, "", cpus) && i < |lines|
    requires NoSinglesFrom(ClassifyAll(lines), pkg, 0)
    requires var h := S.HeaderAt(ClassifyAll(lines), pkg, i); h == Some(S.Standalone(i)) || h == Some(S.OpenInline(i))
    ensures NoSinglesFrom(ClassifyAll(Swapped(lines, i, cpus)), pkg, 0)
  {
    hide Classify, SpecSwap, CpuText, Rules, Moves, Swapped, NoSinglesFrom;
    var cs := ClassifyAll(lines);
    CleanLine(ok, cs, i);
    var o := cs[i].outer;
    assert ok(pkg, "", o.cpus);
    if o.open {
      CpuNoBrace(o.cpus);
      SwapOpenInline(lines[i], pkg, o.cpus, cpus);
    } else {
      CpuNoBrace(o.cpus);
      SwapStandalone(lines[i], pkg, o.cpus, cpus);
    }
    var d := Classify(SpecSwap(lines[i], cpus));
    RewordedStep(StateAt(cs, i), cs[i], d, cpus);
    One(ok, StateAt(cs, i), d);
    NoneOutside(cs, pkg, i, i + 1, [d]);
    SwappedLine(lines, i, cpus);
  }

  lemma SameOpening(ok: Verdict, cs: seq<Line>, pkg: string, i: nat, d: Line)
    requires Clean(ok, cs) && i < |cs| && pkg != ""
    requires var h := S.HeaderAt(cs, pkg, i); h == Some(S.OpenBare(i)) || h == Some(S.OpenInline(i))
    requires d.Text? && ((d.outer.Rule? && d.outer.pkg == pkg && d.outer.open) || d.outer == BareOpen(pkg))
    ensures Step(StateAt(cs, i), d) == StateAt(cs, i + 1)
  {
    hide Clean, StateAt, S.StateAt;
    CleanLine(ok, cs, i);
  }

  /** A header line replaced by another header that opens the same block. */
  lemma HeaderReplacedNone(ok: Verdict, lines: seq<string>, pkg: string, i: nat, raw: string)
    requires Clean(ok, ClassifyAll(lines)) && i < |lines| && NoSinglesFrom(ClassifyAll(lines), pkg, 0) && pkg != ""
    requires var h := S.HeaderAt(ClassifyAll(lines), pkg, i); h == Some(S.OpenBare(i)) || h == Some(S.OpenInline(i))
    requires var c := Classify(raw); c.Text? && ((c.outer.Rule? && c.outer.pkg == pkg && c.outer.open) || c.outer == BareOpen(pkg))
    ensures NoSinglesFrom(ClassifyAll(lines[i := raw]), pkg, 0)
  {
    hide Classify, NoSinglesFrom, Clean;
    var cs := ClassifyAll(lines);
    SameOpening(ok, cs, pkg, i, Classify(raw));
    hide S.HeaderAt;
    One(ok, StateAt(cs, i), Classify(raw));
    NoneOutside(cs, pkg, i, i + 1, [Classify(raw)]);
    LineReplaced(lines, i, raw);
  }

  lemma Gap(cs: seq<Line>, pi: nat, v: nat)
    requires pi < v <= |cs| && forall k | pi < k < v :: cs[k].Skip?
    ensures var gap := cs[pi + 1..v]; forall k | 0 <= k < |gap| :: gap[k].Skip?
  {
  }

  lemma PendingGivenNone(ok: Verdict, lines: seq<string>, pkg: string, v: nat, pi: nat, cpus: string)
    requires Clean(ok, ClassifyAll(lines)) && SpecVerdict(ok) && PkgSafe(pkg) && ok(pkg, "", cpus) && pi < v < |lines|
    requires S.HeaderAt(ClassifyAll(lines), pkg, v) == Some(S.BarePending(pi)) && NoSinglesFrom(ClassifyAll(lines), pkg, 0)
    ensures var given := lines[pi := WithComment(HeaderText(pkg, cpus, true), lines[pi])];
            NoSinglesFrom(ClassifyAll(given[..v] + given[v + 1..]), pkg, 0)
  {
    hide HeaderText, WithComment, Clean, Classify, NoSinglesFrom, PkgSafe, S.HeaderAt, SpecVerdict, CpuText;
    var cs := ClassifyAll(lines);
    var raw := WithComment(HeaderText(pkg, cpus, true), lines[pi]);
    SafeName(pkg);
    TakesCpus(ok, pkg, cpus);
    PendingOpen(ok, cs, pkg, v, pi);
    assert cs[pi] == Classify(lines[pi]);
    HeaderReads(lines[pi], pkg, cpus);
    PendingNone(ok, cs, pkg, v, pi, Classify(raw), cpus);
    DroppedBrace(lines, pi, v, raw);
  }

  lemma PendingNone(ok: Verdict, cs: seq<Line>, pkg: string, v: nat, pi: nat, d: Line, cpus: string)
    requires pi < v < |cs| && StateAt(cs, pi) == START && StateAt(cs, v + 1) == State(true, pkg, "")
    requires NoSinglesFrom(cs, pkg, 0) && (forall k | pi < k < v :: cs[k].Skip?)
    requires d.Text? && d.outer == Rule(pkg, cpus, true) && ok(pkg, "", cpus)
    ensures NoSinglesFrom(Spliced(cs, pi, v + 1, [d] + cs[pi + 1..v]), pkg, 0)
  {
    hide NoSinglesFrom, StateAt, After, Rules, Hard, Soft, Spliced;
    var gap := cs[pi + 1..v];
    Gap(cs, pi, v);
    RuleThenSkips(d, gap);
    GivenRun(ok, pkg, d, gap, cpus);
    NoneOutside(cs, pkg, pi, v + 1, [d] + gap);
  }

  lemma RuleThenSkips(d: Line, gap: seq<Line>)
    requires d.Text? && d.outer.Rule? && forall k | 0 <= k < |gap| :: gap[k].Skip?
    ensures var mid := [d] + gap; forall k | 0 <= k < |mid| :: mid[k].Text? ==> !mid[k].outer.Single?
  {
  }

  lemma AppendedNone(ok: Verdict, lines: seq<string>, pkg: string, cpus: string)
    requires Clean(ok, ClassifyAll(lines)) && SpecVerdict(ok) && PkgSafe(pkg) && ok(pkg, "", cpus)
    requires NoSinglesFrom(ClassifyAll(lines), pkg, 0)
    ensures NoSinglesFrom(ClassifyAll(lines + [HeaderText(pkg, cpus, false)]), pkg, 0)
  {
    hide PkgSafe, CpuText, Clean, NoSinglesFrom, Classify, HeaderText;
    var cs := ClassifyAll(lines);
    var q := HeaderText(pkg, cpus, false);
    assert CpuText(cpus);
    ClosedHeader(pkg, cpus);
    CleanEnd(ok, cs);
    One(ok, START, Classify(q));
    NoneOutside(cs, pkg, |cs|, |cs|, [Classify(q)]);
    LineAppended(lines, q);
  }

  lemma ClosedHeader(pkg: string, cpus: string)
    requires PkgSafe(pkg) && CpuText(cpus)
    ensures var c := Classify(HeaderText(pkg, cpus, false)); c.Text? && c.outer == Rule(pkg, cpus, false)
  {
    hide PkgSafe, CpuText, ParseOuterCore, Classify, HeaderText, Core, Tail;
    var q := HeaderText(pkg, cpus, false);
    HeaderCore(pkg, cpus, false);
    EmptyTail();
    assert "" + q + "" == q;
    ReadShape("", q, "");
  }

  lemma LineAppended(lines: seq<string>, q: string)
    ensures ClassifyAll(lines + [q]) == Spliced(ClassifyAll(lines), |lines|, |lines|, [Classify(q)])
  {
    hide Classify;
  }

  /** Only a header that waits for its brace is seen on a later line. */
  lemma OwnIndex(cs: seq<Line>, pkg: string, v: nat)
    ensures v < |cs| && S.HeaderAt(cs, pkg, v).Some? && !S.HeaderAt(cs, pkg, v).value.BarePending? ==>
              S.HeaderAt(cs, pkg, v).value.idx == v
  {
  }

  lemma TakesCpus(ok: Verdict, pkg: string, cpus: string)
    requires SpecVerdict(ok) && ok(pkg, "", cpus)
    ensures CpuText(cpus)
  {
  }

  lemma UpsertedRuleNone(ok: Verdict, lines: seq<string>, pkg: string, cpus: string)
    requires Settled(ok, lines, pkg) && ok(pkg, "", cpus)
    ensures var out := UpsertedRule(lines, pkg, cpus);
            out.Some? && NoSinglesFrom(ClassifyAll(out.value), pkg, 0)
  {
    hide Classify, Clean, PkgSafe, NoSinglesFrom, CpuText, Swapped, HeaderText, WithComment, ParseOuter, Trim, S.HeaderAt,
         S.HeaderTo, S.OpenTo, S.CloseTo, S.HitsTo, SpecVerdict, HeaderSet;
    var cs := ClassifyAll(lines);
    SafeName(pkg);
    var v := S.FirstHeader(cs, pkg, |cs|);
    UpsertedRuleMeaning(ok, lines, pkg, cpus);
    OwnIndex(cs, pkg, v);
    TakesCpus(ok, pkg, cpus);
    match S.Scan(cs, pkg).pkgLine {
      case Some(Standalone(i)) => HeaderSwappedNone(ok, lines, pkg, i, cpus);
      case Some(OpenInline(i)) => HeaderSwappedNone(ok, lines, pkg, i, cpus);
      case Some(OpenBare(i)) =>
        OpenBareIs(lines, pkg, i, cpus);
        HeaderReplacedNone(ok, lines, pkg, i, WithComment(HeaderText(pkg, cpus, true), lines[i]));
      case Some(BarePending(i)) => PendingUpserted(ok, lines, pkg, v, i, cpus);
      case None => AppendedNone(ok, lines, pkg, cpus);
    }
  }

  lemma PendingUpserted(ok: Verdict, lines: seq<string>, pkg: string, v: nat, i: nat, cpus: string)
    requires Settled(ok, lines, pkg) && ok(pkg, "", cpus) && v < |lines|
    requires S.Scan(ClassifyAll(lines), pkg).pkgLine == Some(S.BarePending(i))
    requires S.HeaderAt(ClassifyAll(lines), pkg, v) == Some(S.BarePending(i))
    requires forall u | 0 <= u < v :: S.HeaderAt(ClassifyAll(lines), pkg, u).None?
    ensures UpsertedRule(lines, pkg, cpus).Some? && NoSinglesFrom(ClassifyAll(UpsertedRule(lines, pkg, cpus).value), pkg, 0)
  {
    hide Classify, Clean, PkgSafe, NoSinglesFrom, CpuText, HeaderText, WithComment, ParseOuter, Trim, S.HeaderAt, S.Scan,
         SpecVerdict, UpsertedRule, Moves, StateAt;
    var cs := ClassifyAll(lines);
    PendingOpen(ok, cs, pkg, v, i);
    BlockOpenIs(ok, cs, pkg, v, i);
    PendingGiven(ok, lines, pkg, v, i, cpus);
    PendingIs(lines, pkg, v, i, cpus);
    PendingGivenNone(ok, lines, pkg, v, i, cpus);
  }

  lemma PendingIs(lines: seq<string>, pkg: string, v: nat, i: nat, cpus: string)
    requires var t := S.Scan(ClassifyAll(lines), pkg); t.pkgLine == Some(S.BarePending(i)) && t.blockOpen == Some(v)
    requires i < v < |lines| && ParseOuter(Trim(lines[v])) == BareOpen("")
    ensures var given := lines[i := WithComment(HeaderText(pkg, cpus, true), lines[i])];
            UpsertedRule(lines, pkg, cpus) == Some(given[..v] + given[v + 1..])
  {
    hide Classify, HeaderText, WithComment, ParseOuter, Trim, S.Scan;
  }

  lemma OpenBareIs(lines: seq<string>, pkg: string, i: nat, cpus: string)
    requires i < |lines| && S.HeaderAt(ClassifyAll(lines), pkg, i) == Some(S.OpenBare(i)) && PkgSafe(pkg) && CpuText(cpus)
    ensures var c := Classify(WithComment(HeaderText(pkg, cpus, true), lines[i])); c.Text? && c.outer == Rule(pkg, cpus, true)
  {
    hide Classify, HeaderText, WithComment, PkgSafe, CpuText;
    assert ClassifyAll(lines)[i] == Classify(lines[i]);
    HeaderReads(lines[i], pkg, cpus);
  }

  lemma DeletedRuleNone(ok: Verdict, lines: seq<string>, pkg: string)
    requires Settled(ok, lines, pkg) && DeletedRule(lines, pkg).Some?
    ensures NoSinglesFrom(ClassifyAll(DeletedRule(lines, pkg).value), pkg, 0)
  {
    hide Classify, Clean, PkgSafe, CpuText, NoSinglesFrom, BareOpenLine, S.HeaderAt, S.HeaderTo, S.OpenTo, S.CloseTo, S.HitsTo,
         SpecVerdict;
    var cs := ClassifyAll(lines);
    SafeName(pkg);
    var v := S.FirstHeader(cs, pkg, |cs|);
    OwnIndex(cs, pkg, v);
    match S.Scan(cs, pkg).pkgLine {
      case Some(Standalone(i)) =>
        StandaloneGone(ok, cs, pkg, i);
        LineDropped(lines, i);
      case Some(OpenInline(i)) =>
        OpenLine(pkg);
        HeaderReplacedNone(ok, lines, pkg, i, BareOpenLine(pkg));
      case _ =>
    }
  }

  lemma StandaloneGone(ok: Verdict, cs: seq<Line>, pkg: string, i: nat)
    requires Clean(ok, cs) && i < |cs| && S.HeaderAt(cs, pkg, i) == Some(S.Standalone(i)) && NoSinglesFrom(cs, pkg, 0)
    ensures NoSinglesFrom(Spliced(cs, i, i + 1, []), pkg, 0)
  {
    hide Clean, NoSinglesFrom;
    CleanLine(ok, cs, i);
    NoneOutside(cs, pkg, i, i + 1, []);
  }

  lemma DeletedThreadNone(ok: Verdict, lines: seq<string>, pkg: string, thread: string)
    requires Settled(ok, lines, pkg) && thread != "" && DeletedThread(lines, pkg, thread).Some?
    ensures NoSinglesFrom(ClassifyAll(DeletedThread(lines, pkg, thread).value), pkg, 0)
  {
    hide Classify, Clean, Loaded, Only, PkgSafe, Stripped, ThreadLocs, Recorded, NoSinglesFrom;
    var cs := ClassifyAll(lines);
    HitsAreThreadRules(ok, lines, pkg, thread);
    StrippedNone(ok, lines, pkg, ThreadLocs(S.Scan(cs, pkg).hits, thread), Only(Loaded(ok, cs), pkg, thread), 0);
  }

  // ----- names that are kept can be printed

  /** If every thread rule of the package but one thread's is kept, in a file without
      single-line rules, the names of the single-line rules could be printed. */
  lemma KeptAreSafe(ok: Verdict, lines: seq<string>, out: seq<string>, pkg: string, thread: string)
    requires Clean(ok, ClassifyAll(lines)) && Clean(ok, ClassifyAll(out)) && !HasSingles(out, pkg)
    requires thread == "" || EntrySafe(thread)
    requires forall r | r in Loaded(ok, ClassifyAll(lines)) && r.pkg == pkg && r.thread != "" && r.thread != thread ::
               r in Loaded(ok, ClassifyAll(out))
    ensures SinglesSafe(ClassifyAll(lines), pkg)
  {
    hide Classify, Clean, Loaded, EntrySafe, HasSingles;
    var cs := ClassifyAll(lines);
    HasSinglesIs(out, pkg);
    forall k | 0 <= k < |cs| && SingleAt(cs, pkg, k) ensures EntrySafe(cs[k].outer.thread) {
      var r := AffinityRule(pkg, cs[k].outer.thread, cs[k].outer.cpus);
      SingleLoaded(ok, lines, k);
      if r.thread != thread {
        BlockNamesSafe(ok, out, pkg, r);
      }
    }
  }

  // ----- the edits, with the exact condition

  /** The rule is set, every other rule is as before, and none stands on a line of its own. */
  ghost predicate SetClean(ok: Verdict, lines: seq<string>, out: seq<string>, r: AffinityRule)
  {
    ThreadSet(ok, lines, out, r) && !HasSingles(out, r.pkg)
  }

  /** A thread rule put into any file the loader takes is the only new one, exactly when the
      names of the package's single-line rules can be printed, no brace goes into a comment,
      and the thread's last line can take new CPUs. */
  lemma UpsertIff(ok: Verdict, lines: seq<string>, pkg: string, thread: string, cpus: string)
    requires Loadable(ok, lines, pkg) && thread != "" && EntrySafe(thread) && ok(pkg, thread, cpus)
    ensures SetClean(ok, lines, Upserted(lines, pkg, thread, cpus).lines, AffinityRule(pkg, thread, cpus)) <==>
              SinglesSafe(ClassifyAll(lines), pkg) && !BraceInComment(lines, pkg) && !CpusStay(lines, pkg, thread, cpus)
  {
    hide Classify, Clean, PkgSafe, SinglesSafe, Normalized, HasSingles, BraceInComment, EntrySafe, SpecVerdict, ThreadSet, CpusStay,
         UpsertedThread, Settled, Loaded, SameRules;
    var r := AffinityRule(pkg, thread, cpus);
    var out := Upserted(lines, pkg, thread, cpus).lines;
    if SinglesSafe(ClassifyAll(lines), pkg) {
      UpsertReadsBack(ok, lines, pkg, thread, cpus);
      if !BraceInComment(lines, pkg) {
        NormalizedSettled(ok, lines, pkg);
        UpsertedNone(ok, Normalized(lines, pkg), pkg, thread, cpus);
        HasSinglesIs(out, pkg);
      }
    } else if SetClean(ok, lines, out, r) {
      SetKeeps(ok, lines, out, r);
      KeptAreSafe(ok, lines, out, pkg, thread);
    }
  }

  lemma SetKeeps(ok: Verdict, lines: seq<string>, out: seq<string>, r: AffinityRule)
    requires ThreadSet(ok, lines, out, r)
    ensures Clean(ok, ClassifyAll(out))
    ensures forall q | q in Loaded(ok, ClassifyAll(lines)) && q.pkg == r.pkg && q.thread != "" && q.thread != r.thread ::
              q in Loaded(ok, ClassifyAll(out))
  {
    hide Classify, Clean, Loaded, Without;
    var was, now := Loaded(ok, ClassifyAll(lines)), Loaded(ok, ClassifyAll(out));
    forall q | q in was && q.pkg == r.pkg && q.thread != "" && q.thread != r.thread ensures q in now {
      WithoutCounts(was, r.pkg, r.thread, q);
      assert q in multiset(was);
      assert q in multiset(now);
    }
  }

  /** A thread's rules taken out of any file the loader takes, for a thread that has rules:
      exactly those are gone, if and only if the names can be printed and normalizing does not
      break the file. */
  lemma DeleteThreadIff(ok: Verdict, lines: seq<string>, pkg: string, thread: string)
    requires Loadable(ok, lines, pkg) && thread != "" && EntrySafe(thread)
    requires Only(Loaded(ok, ClassifyAll(lines)), pkg, thread) != []
    ensures var e := Deleted(lines, pkg, thread);
            (e.answer == Ok && ThreadGone(ok, lines, e.lines, pkg, thread) && !HasSingles(e.lines, pkg)) <==>
            SinglesSafe(ClassifyAll(lines), pkg) && !NormalizingBreaks(lines, pkg)
  {
    hide Classify, Clean, PkgSafe, SinglesSafe, Normalized, HasSingles, BraceInComment, EntrySafe, SpecVerdict, ThreadGone,
         DeletedThread, Settled, Loaded, SameRules, Only;
    var e := Deleted(lines, pkg, thread);
    if SinglesSafe(ClassifyAll(lines), pkg) {
      DeleteThread(ok, lines, pkg, thread);
      if NormalizingBreaks(lines, pkg) {
        if e.answer == Ok {
          GoneIsClean(ok, lines, e.lines, pkg, thread);
        }
      } else {
        NormalizedSettled(ok, lines, pkg);
        DeletedThreadNone(ok, Normalized(lines, pkg), pkg, thread);
        HasSinglesIs(e.lines, pkg);
      }
    } else if e.answer == Ok && ThreadGone(ok, lines, e.lines, pkg, thread) && !HasSingles(e.lines, pkg) {
      GoneKeeps(ok, lines, e.lines, pkg, thread);
      KeptAreSafe(ok, lines, e.lines, pkg, thread);
    }
  }

  lemma GoneIsClean(ok: Verdict, lines: seq<string>, out: seq<string>, pkg: string, thread: string)
    ensures ThreadGone(ok, lines, out, pkg, thread) ==> Clean(ok, ClassifyAll(out))
  {
    hide Classify, Clean, Loaded;
  }

  lemma GoneKeeps(ok: Verdict, lines: seq<string>, out: seq<string>, pkg: string, thread: string)
    requires ThreadGone(ok, lines, out, pkg, thread)
    ensures Clean(ok, ClassifyAll(out))
    ensures forall q | q in Loaded(ok, ClassifyAll(lines)) && q.pkg == pkg && q.thread != "" && q.thread != thread ::
              q in Loaded(ok, ClassifyAll(out))
  {
    hide Classify, Clean, Loaded, Without;
    var was, now := Loaded(ok, ClassifyAll(lines)), Loaded(ok, ClassifyAll(out));
    forall q | q in was && q.pkg == pkg && q.thread != "" && q.thread != thread ensures q in now {
      WithoutCounts(was, pkg, thread, q);
      assert q in multiset(was);
      assert q in multiset(now);
    }
  }

  /** The rules on the package's first line give way to `plus`, nothing else changes, and no
      rule of the package stands on a line of its own. */
  ghost predicate RuleMoved(ok: Verdict, lines: seq<string>, out: seq<string>, pkg: string, plus: multiset<AffinityRule>)
  {
    && Clean(ok, ClassifyAll(out)) && !HasSingles(out, pkg)
    && Moves(ok, ClassifyAll(lines), ClassifyAll(out), pkg, HeaderRules(ClassifyAll(Normalized(lines, pkg)), pkg), plus)
  }

  lemma MovedKeeps(ok: Verdict, lines: seq<string>, out: seq<string>, pkg: string, plus: multiset<AffinityRule>)
    requires RuleMoved(ok, lines, out, pkg, plus)
    ensures forall q | q in Loaded(ok, ClassifyAll(lines)) && q.pkg == pkg && q.thread != "" :: q in Loaded(ok, ClassifyAll(out))
  {
    hide Classify, Clean, Loaded, HeaderRules, HasSingles, Normalized, Others;
    var was, now := Loaded(ok, ClassifyAll(lines)), Loaded(ok, ClassifyAll(out));
    var minus := HeaderRules(ClassifyAll(Normalized(lines, pkg)), pkg);
    HeaderRulesOwn(ClassifyAll(Normalized(lines, pkg)), pkg);
    forall q | q in was && q.pkg == pkg && q.thread != "" ensures q in now {
      assert q !in minus;
      assert q in multiset(was);
      assert (multiset(now) + minus)[q] == (multiset(was) + plus)[q];
      assert q in multiset(now);
    }
  }

  /** The package's own rule, put in or taken out, on any file the loader takes. */
  lemma UpsertRuleIff(ok: Verdict, lines: seq<string>, pkg: string, cpus: string)
    requires Loadable(ok, lines, pkg) && ok(pkg, "", cpus)
    ensures RuleMoved(ok, lines, Upserted(lines, pkg, "", cpus).lines, pkg, multiset{AffinityRule(pkg, "", cpus)}) <==>
              SinglesSafe(ClassifyAll(lines), pkg) && !NormalizingBreaks(lines, pkg)
  {
    hide Classify, Clean, PkgSafe, SinglesSafe, Normalized, HasSingles, BraceInComment, SpecVerdict, Moves, UpsertedRule, Settled,
         Loaded, SameRules, HeaderRules;
    var out := Upserted(lines, pkg, "", cpus).lines;
    if SinglesSafe(ClassifyAll(lines), pkg) {
      UpsertRuleReadsBack(ok, lines, pkg, cpus);
      if !NormalizingBreaks(lines, pkg) {
        NormalizedSettled(ok, lines, pkg);
        UpsertedRuleNone(ok, Normalized(lines, pkg), pkg, cpus);
        HasSinglesIs(out, pkg);
      }
    } else if RuleMoved(ok, lines, out, pkg, multiset{AffinityRule(pkg, "", cpus)}) {
      MovedKeeps(ok, lines, out, pkg, multiset{AffinityRule(pkg, "", cpus)});
      KeptAreSafe(ok, lines, out, pkg, "");
    }
  }

  lemma DeleteRuleIff(ok: Verdict, lines: seq<string>, pkg: string)
    requires Loadable(ok, lines, pkg) && HeaderRules(ClassifyAll(Normalized(lines, pkg)), pkg) != multiset{}
    ensures var e := Deleted(lines, pkg, "");
            (e.answer == Ok && RuleMoved(ok, lines, e.lines, pkg, multiset{})) <==>
            SinglesSafe(ClassifyAll(lines), pkg) && !NormalizingBreaks(lines, pkg)
  {
    hide Classify, Clean, PkgSafe, SinglesSafe, Normalized, HasSingles, BraceInComment, SpecVerdict, Moves, DeletedRule, Settled,
         Loaded, SameRules, HeaderRules;
    var e := Deleted(lines, pkg, "");
    if SinglesSafe(ClassifyAll(lines), pkg) {
      DeleteRule(ok, lines, pkg);
      if !NormalizingBreaks(lines, pkg) {
        NormalizedSettled(ok, lines, pkg);
        DeletedRuleNone(ok, Normalized(lines, pkg), pkg);
        HasSinglesIs(e.lines, pkg);
      }
    } else if e.answer == Ok && RuleMoved(ok, lines, e.lines, pkg, multiset{}) {
      MovedKeeps(ok, lines, e.lines, pkg, multiset{});
      KeptAreSafe(ok, lines, e.lines, pkg, "");
    }
  }
}
