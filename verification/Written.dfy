/** After an upsert the written rule is among the loader's rules, on every file whose blocks
    the scanner reads as the loader does, whatever else is wrong with it. */
module Written {
  import opened Base
  import opened Text
  import opened Lines
  import opened Syntax
  import opened Printing
  import opened Loader
  import opened Edits
  import opened Tracking
  import opened Swapping
  import opened SwappedSingles
  import opened Headers
  import opened Taking
  import opened Stripping
  import opened Normalizing
  import opened RuleEdits
  import opened RuleFiles
  import opened BrokenOpens
  import opened Upserting
  import opened StrayBraces
  import opened RoughRounds
  import S = Scanner
  import SafeEdits
  import Answers

  // ----- a rule on one line

  lemma RuleInside(ok: Verdict, a: seq<Line>, c: Line, z: seq<Line>, r: AffinityRule)
    requires Asked(After(START, a), c) == [r] && Admitted(ok, r)
    ensures r in Loaded(ok, a + [c] + z)
  {
    hide After, Rules;
    Cut(ok, START, a, [c], z);
    One(ok, After(START, a), c);
  }

  /** Line i of the new file asks for the rule. */
  lemma RuleOnLine(ok: Verdict, cs: seq<Line>, i: nat, r: AffinityRule)
    requires i < |cs| && Asked(StateAt(cs, i), cs[i]) == [r] && Admitted(ok, r)
    ensures r in Loaded(ok, cs)
  {
    assert cs == cs[..i] + [cs[i]] + cs[i + 1..];
    RuleInside(ok, cs[..i], cs[i], cs[i + 1..], r);
  }

  // ----- the package's own rule

  /** The line to be rewritten has no brace in its CPU text. */
  predicate PlainValue(c: Line)
  {
    && (c.Text? && c.outer.Rule? ==> NoBrace(c.outer.cpus)) && (c.Text? && c.outer.Single? ==> NoBrace(c.outer.cpus))
    && (c.Text? && c.inner.Entry? ==> NoBrace(c.inner.cpus))
  }

  /** A header line outside every block, replaced by a rule of the package. */
  lemma HeaderWritten(ok: Verdict, lines: seq<string>, pkg: string, i: nat, raw: string, cpus: string)
    requires i < |lines| && !StateAt(ClassifyAll(lines), i).inBlock && ok(pkg, "", cpus)
    requires var d := Classify(raw); d.Text? && d.outer.Rule? && d.outer.pkg == pkg && d.outer.cpus == cpus
    ensures AffinityRule(pkg, "", cpus) in Loaded(ok, ClassifyAll(lines[i := raw]))
  {
    hide Classify;
    var os := ClassifyAll(lines[i := raw]);
    assert os[..i] == ClassifyAll(lines)[..i];
    assert os[i] == Classify(raw);
    RuleOnLine(ok, os, i, AffinityRule(pkg, "", cpus));
  }

  lemma HeaderPlace(cs: seq<Line>, pkg: string)
    requires S.NoOrphans(cs, |cs|)
    ensures var h := S.Scan(cs, pkg).pkgLine;
            h.Some? ==> h.value.idx < |cs| && !StateAt(cs, h.value.idx).inBlock && cs[h.value.idx].Text?
    ensures var h := S.Scan(cs, pkg).pkgLine;
            h.Some? && (h.value.Standalone? || h.value.OpenInline?) ==>
              cs[h.value.idx].outer.Rule? && cs[h.value.idx].outer.pkg == pkg && cs[h.value.idx].outer.open == h.value.OpenInline?
  {
    var v := S.FirstHeader(cs, pkg, |cs|);
    if v < |cs| {
      S.PendingRun(cs, v);
      var i := S.Scan(cs, pkg).pkgLine.value.idx;
      S.AgreeUpTo(cs, i);
    }
  }

  lemma SwapHeader(raw: string, pkg: string, cpus: string)
    requires Classify(raw).Text? && Classify(raw).outer.Rule? && Classify(raw).outer.pkg == pkg && pkg != ""
    requires NoBrace(Classify(raw).outer.cpus) && CpuText(cpus)
    ensures var d := Classify(SpecSwap(raw, cpus)); d.Text? && d.outer == Rule(pkg, cpus, Classify(raw).outer.open)
  {
    hide Classify, SpecSwap, CpuText;
    var o := Classify(raw).outer;
    if o.open {
      SwapOpenInline(raw, pkg, o.cpus, cpus);
    } else {
      SwapStandalone(raw, pkg, o.cpus, cpus);
    }
  }

  /** The brace line of a waiting header taken out behind it. */
  lemma GivenWritten(ok: Verdict, lines: seq<string>, pkg: string, i: nat, raw: string, cpus: string, v: nat)
    requires i < v < |lines| && !StateAt(ClassifyAll(lines), i).inBlock && ok(pkg, "", cpus)
    requires var d := Classify(raw); d.Text? && d.outer.Rule? && d.outer.pkg == pkg && d.outer.cpus == cpus
    ensures var given := lines[i := raw]; AffinityRule(pkg, "", cpus) in Loaded(ok, ClassifyAll(given[..v] + given[v + 1..]))
  {
    hide Classify;
    var given := lines[i := raw];
    var rest := lines[..v] + lines[v + 1..];
    assert given[..v] + given[v + 1..] == rest[i := raw];
    assert ClassifyAll(rest)[..i] == ClassifyAll(lines)[..i];
    HeaderWritten(ok, rest, pkg, i, raw, cpus);
  }

  /** The brace of a waiting header stands below it. */
  lemma BraceBelow(lines: seq<string>, pkg: string, i: nat, raw: string, o: nat)
    requires pkg != "" && S.Scan(ClassifyAll(lines), pkg).pkgLine == Some(S.BarePending(i)) && i < |lines|
    requires S.Scan(ClassifyAll(lines), pkg).blockOpen == Some(o) && Classify(raw).Text? && Classify(raw).outer.Rule?
    requires ParseOuter(Trim(lines[i := raw][o])) == BareOpen("")
    ensures i < o < |lines|
  {
    hide ParseOuter, Trim, S.HitsTo, S.HeaderTo, S.CloseTo, S.OpenTo;
    var cs := ClassifyAll(lines);
    S.FirstBlock(cs, pkg, |cs|);
    var v := S.FirstHeader(cs, pkg, |cs|);
    S.PendingRun(cs, v);
    assert Named(Classify(lines[o]));
    OpensAt(cs, pkg, o);
    TextAt(lines, pkg, o);
  }

  lemma TextAt(lines: seq<string>, pkg: string, o: nat)
    requires o < |lines| && !S.StateAt(ClassifyAll(lines), o).inBlock && S.InTarget(ClassifyAll(lines), pkg, o + 1)
    ensures Classify(lines[o]).Text? && Classify(lines[o]).outer == ParseOuter(Trim(lines[o]))
  {
    hide ParseOuter, Trim;
  }

  /** What the edit needs of the line it rewrites. */
  predicate RuleReady(lines: seq<string>, pkg: string)
  {
    var h := S.Scan(ClassifyAll(lines), pkg).pkgLine;
    h.Some? && (h.value.Standalone? || h.value.OpenInline?) && h.value.idx < |lines| ==> PlainValue(Classify(lines[h.value.idx]))
  }

  /** The package's own rule is loaded after the edit. */
  lemma RuleWritten(ok: Verdict, lines: seq<string>, pkg: string, cpus: string)
    requires SpecVerdict(ok) && PkgSafe(pkg) && ok(pkg, "", cpus) && S.NoOrphans(ClassifyAll(lines), |lines|) && RuleReady(lines, pkg)
    requires UpsertedRule(lines, pkg, cpus).Some?
    ensures AffinityRule(pkg, "", cpus) in Loaded(ok, ClassifyAll(UpsertedRule(lines, pkg, cpus).value))
  {
    hide Classify, PkgSafe, CpuText, SpecVerdict, S.HeaderTo, S.HitsTo, S.CloseTo, S.OpenTo, S.StateAt, HeaderText, WithComment, SpecSwap, Loaded, ParseOuter, Trim;
    var cs := ClassifyAll(lines);
    var t := S.Scan(cs, pkg);
    SafeName(pkg);
    SpecTakes(ok, pkg, "", cpus);
    HeaderPlace(cs, pkg);
    match t.pkgLine {
      case Some(Standalone(i)) =>
        SwapHeader(lines[i], pkg, cpus);
        HeaderWritten(ok, lines, pkg, i, SpecSwap(lines[i], cpus), cpus);
      case Some(OpenInline(i)) =>
        SwapHeader(lines[i], pkg, cpus);
        HeaderWritten(ok, lines, pkg, i, SpecSwap(lines[i], cpus), cpus);
      case Some(OpenBare(i)) =>
        HeaderReads(lines[i], pkg, cpus);
        HeaderWritten(ok, lines, pkg, i, WithComment(HeaderText(pkg, cpus, true), lines[i]), cpus);
      case Some(BarePending(i)) =>
        var raw := WithComment(HeaderText(pkg, cpus, true), lines[i]);
        HeaderReads(lines[i], pkg, cpus);
        HeaderWritten(ok, lines, pkg, i, raw, cpus);
        if t.blockOpen.Some? && ParseOuter(Trim(lines[i := raw][t.blockOpen.value])) == BareOpen("") {
          BraceBelow(lines, pkg, i, raw, t.blockOpen.value);
          GivenWritten(ok, lines, pkg, i, raw, cpus, t.blockOpen.value);
        }
      case None =>
        AppendedWritten(ok, lines, pkg, cpus);
    }
  }

  lemma SpecTakes(ok: Verdict, pkg: string, thread: string, cpus: string)
    requires SpecVerdict(ok) && ok(pkg, thread, cpus)
    ensures CpuText(cpus) && pkg != ""
  {
  }

  lemma AppendedWritten(ok: Verdict, lines: seq<string>, pkg: string, cpus: string)
    requires PkgSafe(pkg) && CpuText(cpus) && ok(pkg, "", cpus) && S.NoOrphans(ClassifyAll(lines), |lines|)
    requires !S.Scan(ClassifyAll(lines), pkg).unterminated
    ensures AffinityRule(pkg, "", cpus) in Loaded(ok, ClassifyAll(lines + [HeaderText(pkg, cpus, false)]))
  {
    hide Classify, PkgSafe, CpuText, HeaderText, Loaded, S.HeaderTo, S.HitsTo, S.CloseTo, S.OpenTo, S.StateAt;
    var cs := ClassifyAll(lines);
    var raw := HeaderText(pkg, cpus, false);
    SafeEdits.ClosedHeader(pkg, cpus);
    S.AgreeUpTo(cs, |cs|);
    var os := ClassifyAll(lines + [raw]);
    assert os[..|cs|] == cs == cs[..|cs|];
    assert os[|cs|] == Classify(raw);
    RuleOnLine(ok, os, |cs|, AffinityRule(pkg, "", cpus));
  }

  // ----- a thread rule on a line of its own or in a block

  /** A line inside the package's block, or a line that opens it, then the printed entry. */
  lemma EntryWritten(ok: Verdict, a: seq<string>, z: seq<string>, pkg: string, thread: string, cpus: string)
    requires After(START, ClassifyAll(a)) == State(true, pkg, "") && EntrySafe(thread) && CpuText(cpus) && ok(pkg, thread, cpus)
    ensures AffinityRule(pkg, thread, cpus) in Loaded(ok, ClassifyAll(a + [EntryText(thread, cpus)] + z))
  {
    hide Classify, EntrySafe, CpuText, EntryText, After, Loaded;
    var e := EntryText(thread, cpus);
    EntryLine(thread, cpus, "");
    assert e + "" == e;
    ClassifyConcat(a + [e], z);
    ClassifyConcat(a, [e]);
    assert ClassifyAll([e]) == [Classify(e)];
    RuleInside(ok, ClassifyAll(a), Classify(e), ClassifyAll(z), AffinityRule(pkg, thread, cpus));
  }

  lemma OpenedBy(lines: seq<string>, i: nat, raw: string, pkg: string)
    requires i <= |lines| && !StateAt(ClassifyAll(lines), i).inBlock && pkg != ""
    requires var d := Classify(raw); d.Text? && ((d.outer.Rule? && d.outer.pkg == pkg && d.outer.open) || d.outer == BareOpen(pkg))
    ensures After(START, ClassifyAll(lines[..i] + [raw])) == State(true, pkg, "")
  {
    hide Classify, After;
    ClassifyConcat(lines[..i], [raw]);
    assert ClassifyAll([raw]) == [Classify(raw)];
    assert ClassifyAll(lines[..i]) == ClassifyAll(lines)[..i];
    AfterConcat(START, ClassifyAll(lines[..i]), [Classify(raw)]);
    RoughOne(StateAt(ClassifyAll(lines), i), Classify(raw));
  }

  lemma RoughOne(s: State, c: Line)
    ensures After(s, [c]) == Step(s, c)
  {
    assert [c][1..] == [];
  }

  /** A new thread rule: into the closed block, under the package's own line if that has no
      comment, or into a block of its own. */
  lemma NewThreadWritten(ok: Verdict, lines: seq<string>, pkg: string, thread: string, cpus: string)
    requires SpecVerdict(ok) && PkgSafe(pkg) && EntrySafe(thread) && ok(pkg, thread, cpus)
    requires S.NoOrphans(ClassifyAll(lines), |lines|) && !BraceInComment(lines, pkg)
    requires var t := S.Scan(ClassifyAll(lines), pkg);
             t.blockClose.None? && !(t.pkgLine.Some? && t.pkgLine.value.Standalone?) ==> !t.unterminated
    ensures AffinityRule(pkg, thread, cpus) in Loaded(ok, ClassifyAll(PutBack(lines, pkg, |lines|, [EntryText(thread, cpus)])))
  {
    hide Classify, PkgSafe, CpuText, EntrySafe, EntryText, SpecVerdict, S.HeaderTo, S.HitsTo, S.CloseTo, S.OpenTo, S.StateAt, OpenedText, BareOpenLine,
         Loaded, HasComment;
    var cs := ClassifyAll(lines);
    var t := S.Scan(cs, pkg);
    var e := EntryText(thread, cpus);
    SafeName(pkg);
    SpecTakes(ok, pkg, thread, cpus);
    HeaderPlace(cs, pkg);
    if t.blockClose.Some? {
      var c := t.blockClose.value;
      ClosePlace(lines, pkg, c);
      EntryWritten(ok, lines[..c], lines[c..], pkg, thread, cpus);
    } else if t.pkgLine.Some? && t.pkgLine.value.Standalone? {
      var i := t.pkgLine.value.idx;
      var raw := OpenedText(lines[i]);
      OpenedPlain(lines[i], pkg, Classify(lines[i]).outer.cpus);
      OpenedBy(lines, i, raw, pkg);
      EntryWritten(ok, lines[..i] + [raw], ["}"] + lines[i + 1..], pkg, thread, cpus);
      BlockShape(lines[..i], raw, e, lines[i + 1..]);
    } else {
      OpenLine(pkg);
      S.AgreeUpTo(cs, |cs|);
      OpenedBy(lines, |lines|, BareOpenLine(pkg), pkg);
      EntryWritten(ok, lines[..|lines|] + [BareOpenLine(pkg)], ["}"] + lines[|lines|..], pkg, thread, cpus);
      BlockShape(lines[..|lines|], BareOpenLine(pkg), e, lines[|lines|..]);
    }
  }

  lemma BlockShape(a: seq<string>, opener: string, e: string, z: seq<string>)
    ensures a + BlockLines(opener, [e]) + z == (a + [opener]) + [e] + (["}"] + z)
  {
  }

  lemma ClosePlace(lines: seq<string>, pkg: string, c: nat)
    requires S.NoOrphans(ClassifyAll(lines), |lines|) && S.Scan(ClassifyAll(lines), pkg).blockClose == Some(c)
    ensures c < |lines| && After(START, ClassifyAll(lines[..c])) == State(true, pkg, "")
  {
    hide Classify, S.OpenTo, S.HitsTo, S.HeaderTo, S.CloseTo, After;
    var cs := ClassifyAll(lines);
    S.FirstBlock(cs, pkg, |cs|);
    assert S.InTarget(cs, pkg, c);
    S.AgreeUpTo(cs, c);
    NoCurrentOutside(cs, c);
    assert ClassifyAll(lines[..c]) == cs[..c];
  }

  // ----- a thread rule that is there

  lemma {:induction false} HitsNamed(cs: seq<Line>, pkg: string, thread: string, n: nat)
    requires n <= |cs|
    ensures forall l | l in ThreadLocs(S.HitsTo(cs, pkg, n), thread) ::
              l.idx < n && S.HitAt(cs, pkg, l.idx) == Some(S.Hit(thread, l))
  {
    hide ThreadLocs, S.HitAt;
    if n > 0 {
      HitsNamed(cs, pkg, thread, n - 1);
      ThreadLocsNext(cs, pkg, thread, n - 1);
      S.HitIndex(cs, pkg, n - 1);
    } else {
      Answers.NoHitsYet(cs, pkg, thread);
    }
  }

  /** What the loader reads on a recorded line. */
  predicate HoldsThread(s: State, c: Line, pkg: string, thread: string, loc: S.ThreadLoc)
  {
    && c.Text?
    && (if loc.single then
          && !s.inBlock && !loc.closed && c.outer.Single? && c.outer.pkg == pkg && c.outer.thread == thread && c.outer.open == loc.open
        else
          && s.inBlock && s.cur == pkg && !loc.open && c.inner.Entry? && c.inner.name == thread && c.inner.closed == loc.closed)
  }

  lemma HoldsHit(cs: seq<Line>, pkg: string, thread: string, loc: S.ThreadLoc)
    requires S.NoOrphans(cs, |cs|) && loc.idx < |cs| && S.HitAt(cs, pkg, loc.idx) == Some(S.Hit(thread, loc))
    ensures HoldsThread(StateAt(cs, loc.idx), cs[loc.idx], pkg, thread, loc)
  {
    S.AgreeUpTo(cs, loc.idx);
  }

  predicate SamePlace(s: State, r: State)
  {
    s.inBlock == r.inBlock && s.cur == r.cur
  }

  /** What `line_remove` leaves leads where the line led, but for a package line in front of
      a single-line rule, which waits on. */
  lemma RemovedStep(ok: Verdict, s: State, c: Line, pkg: string, thread: string, loc: S.ThreadLoc, mid: seq<Line>, z: seq<Line>)
    requires HoldsThread(s, c, pkg, thread, loc) && Removal(loc, pkg, mid) && pkg != "" && (!s.inBlock ==> s.cur == "")
    requires loc.single ==> NoStray(Step(s, c), z)
    ensures SamePlace(After(Step(s, c), z), After(s, mid + z))
    ensures NoStray(s, [c]) && NoStray(Step(s, c), z) ==> NoStray(s, mid + z)
  {
    hide NoStray, After;
    if loc.single && !loc.open {
      assert mid + z == z;
      PendMoot(ok, s.pend, z);
    } else {
      AfterConcat(s, mid, z);
      NoStrayConcat(s, mid, z);
      if mid == [] {
        NoneRun(s);
      } else {
        assert mid == [mid[0]];
        RoughOne(s, mid[0]);
        NoStrayOne(s, mid[0]);
      }
    }
  }

  lemma NoneRun(s: State)
    ensures After(s, []) == s && NoStray(s, [])
  {
  }

  /** The lines in front of the last place of the thread, the earlier places taken out. */
  ghost predicate FrontLeft(a: seq<string>, cur: seq<string>, b: nat, braced: bool)
  {
    && b <= |a| && b <= |cur| && cur[..b] == a[..b]
    && SamePlace(After(START, ClassifyAll(a)), After(START, ClassifyAll(cur)))
    && (braced ==> NoStray(START, ClassifyAll(cur)))
  }

  ghost predicate Places(a: seq<string>, pkg: string, thread: string, locs: seq<S.ThreadLoc>)
  {
    && InLineOrder(locs, |a|)
    && forall k | 0 <= k < |locs| :: HoldsThread(StateAt(ClassifyAll(a), locs[k].idx), ClassifyAll(a)[locs[k].idx], pkg, thread, locs[k])
  }

  lemma FrontStep(ok: Verdict, a: seq<string>, cur: seq<string>, pkg: string, thread: string, loc: S.ThreadLoc, b: nat, braced: bool)
    requires FrontLeft(a, cur, b, braced) && loc.idx < b && PkgSafe(pkg) && (loc.single ==> braced)
    requires HoldsThread(StateAt(ClassifyAll(a), loc.idx), ClassifyAll(a)[loc.idx], pkg, thread, loc)
    ensures loc.idx < |cur| && FrontLeft(a, LineRemoved(cur, pkg, loc), loc.idx, braced)
  {
    hide Classify, NoStray, After, PkgSafe, HoldsThread, RemovalLines, Removal;
    var i := loc.idx;
    var cs := ClassifyAll(cur);
    var p, c, z := cs[..i], cs[i], cs[i + 1..];
    assert cur[..i] == cur[..b][..i] == a[..b][..i] == a[..i];
    assert cur[i] == cur[..b][i] == a[..b][i] == a[i];
    assert p == ClassifyAll(a)[..i] && c == ClassifyAll(a)[i];
    var s := After(START, p);
    var mid := ClassifyAll(RemovalLines(cur[i], pkg, loc));
    HoldsText(s, c, pkg, thread, loc);
    NotSkippedText(cur[i]);
    RemovalClasses(cur[i], pkg, loc);
    SafeName(pkg);
    NoCurrentOutside(cs, i);
    assert cs == p + ([c] + z);
    AfterConcat(START, p, [c] + z);
    AfterConcat(s, [c], z);
    RoughOne(s, c);
    NoStrayConcat(START, p, [c] + z);
    NoStrayConcat(s, [c], z);
    RemovedStep(ok, s, c, pkg, thread, loc, mid, z);
    ClassifySplice(cur, i, i + 1, RemovalLines(cur[i], pkg, loc));
    assert p + mid + z == p + (mid + z);
    AfterConcat(START, p, mid + z);
    NoStrayConcat(START, p, mid + z);
    assert LineRemoved(cur, pkg, loc)[..i] == cur[..i];
  }

  lemma HoldsText(s: State, c: Line, pkg: string, thread: string, loc: S.ThreadLoc)
    requires HoldsThread(s, c, pkg, thread, loc)
    ensures c.Text?
  {
  }

  lemma {:induction false} FrontStripped(ok: Verdict, a: seq<string>, pkg: string, thread: string, locs: seq<S.ThreadLoc>, k: nat, braced: bool)
    requires Places(a, pkg, thread, locs) && PkgSafe(pkg) && k <= |locs|
    requires (forall k | 0 <= k < |locs| :: locs[k].single ==> braced) && (braced ==> NoStray(START, ClassifyAll(a)))
    ensures FrontLeft(a, Stripped(a, pkg, locs, k), Bound(locs, k, |a|), braced)
    decreases |locs| - k
  {
    hide Classify, NoStray, After, PkgSafe, HoldsThread, FrontLeft, LineRemoved;
    if k == |locs| {
      FrontWhole(a, braced);
    } else {
      FrontStripped(ok, a, pkg, thread, locs, k + 1, braced);
      FrontStep(ok, a, Stripped(a, pkg, locs, k + 1), pkg, thread, locs[k], Bound(locs, k + 1, |a|), braced);
    }
  }

  lemma FrontWhole(a: seq<string>, braced: bool)
    requires braced ==> NoStray(START, ClassifyAll(a))
    ensures FrontLeft(a, a, |a|, braced)
  {
  }

  lemma {:induction false} StripSplit(a: seq<string>, z: seq<string>, pkg: string, locs: seq<S.ThreadLoc>, k: nat)
    requires InLineOrder(locs, |a|) && k <= |locs|
    ensures Stripped(a + z, pkg, locs, k) == Stripped(a, pkg, locs, k) + z
    decreases |locs| - k
  {
    hide LineRemoved;
    if k < |locs| {
      StripSplit(a, z, pkg, locs, k + 1);
      RoomLeft(a, pkg, locs, k + 1);
      RemovedInFront(Stripped(a, pkg, locs, k + 1), z, pkg, locs[k]);
    }
  }

  lemma RemovedInFront(a: seq<string>, z: seq<string>, pkg: string, loc: S.ThreadLoc)
    requires loc.idx < |a|
    ensures LineRemoved(a + z, pkg, loc) == LineRemoved(a, pkg, loc) + z
  {
    hide RemovalLines;
    var i := loc.idx;
    assert (a + z)[..i] == a[..i] && (a + z)[i] == a[i] && (a + z)[i + 1..] == a[i + 1..] + z;
  }

  /** The swapped line asks for the new rule, wherever it comes to stand. */
  lemma SwappedAsks(raw: string, s: State, r: State, pkg: string, thread: string, cpus: string, loc: S.ThreadLoc)
    requires HoldsThread(s, Classify(raw), pkg, thread, loc) && SamePlace(s, r) && PlainValue(Classify(raw)) && CpuText(cpus)
    requires !loc.single ==> SwappedTo(raw, cpus) == cpus
    ensures Asked(r, Classify(SpecSwap(raw, cpus))) == [AffinityRule(pkg, thread, cpus)]
  {
    hide Classify, SpecSwap, CpuText, SwappedTo;
    var c := Classify(raw);
    if loc.single {
      if c.outer.open {
        SwapOpenSingle(raw, pkg, thread, c.outer.cpus, cpus);
      } else {
        SwapClosedSingle(raw, pkg, thread, c.outer.cpus, cpus);
      }
    } else {
      SwapAnyEntry(raw, thread, c.inner.cpus, c.inner.closed, cpus);
    }
  }

  /** What the edit of a thread that has rules needs: its last line can take the new CPUs, and
      where single-line rules are left, no stray brace. */
  predicate ThreadReady(lines: seq<string>, pkg: string, thread: string, cpus: string)
  {
    var cs := ClassifyAll(lines);
    var locs := ThreadLocs(S.Scan(cs, pkg).hits, thread);
    locs != [] && locs[|locs| - 1].idx < |lines| ==>
      var last := locs[|locs| - 1];
      && PlainValue(cs[last.idx]) && (!last.single ==> SwappedTo(lines[last.idx], cpus) == cpus)
      && (NoSinglesFrom(cs, pkg, 0) || NoStray(START, cs))
  }

  lemma OldThreadWritten(ok: Verdict, lines: seq<string>, pkg: string, thread: string, cpus: string)
    requires SpecVerdict(ok) && PkgSafe(pkg) && ok(pkg, thread, cpus) && S.NoOrphans(ClassifyAll(lines), |lines|)
    requires ThreadReady(lines, pkg, thread, cpus) && ThreadLocs(S.Scan(ClassifyAll(lines), pkg).hits, thread) != []
    ensures UpsertedThread(lines, pkg, thread, cpus).Some?
    ensures AffinityRule(pkg, thread, cpus) in Loaded(ok, ClassifyAll(UpsertedThread(lines, pkg, thread, cpus).value))
  {
    hide Classify, PkgSafe, CpuText, SpecVerdict, S.HeaderTo, S.HitsTo, S.CloseTo, S.OpenTo, SpecSwap, Loaded, ThreadLocs, NoStray, SwappedTo,
         HoldsThread, S.HitAt, PutBack, Stripped, After, PlainValue, S.NoOrphans, LineRemoved;
    var cs := ClassifyAll(lines);
    var locs := ThreadLocs(S.Scan(cs, pkg).hits, thread);
    var n := |locs| - 1;
    var last, front := locs[n], locs[..n];
    HitsNamed(cs, pkg, thread, |cs|);
    HitsOf(cs, pkg, thread, |cs|);
    forall k | 0 <= k < |locs| ensures locs[k].idx < |cs| && HoldsThread(StateAt(cs, locs[k].idx), cs[locs[k].idx], pkg, thread, locs[k]) {
      assert locs[k] in locs;
      HoldsHit(cs, pkg, thread, locs[k]);
    }
    var i := last.idx;
    var a, z := lines[..i], [SpecSwap(lines[i], cpus)] + lines[i + 1..];
    assert Swapped(lines, i, cpus) == a + z;
    PlacesInFront(lines, pkg, thread, locs, n);
    var braced := exists k :: 0 <= k < n && front[k].single;
    NoSingleLocs(cs, pkg, thread, locs, n);
    if braced {
      FrontNoStray(lines, i);
    }
    FrontStripped(ok, a, pkg, thread, front, 0, braced);
    StripSplit(a, z, pkg, front, 0);
    SpecTakes(ok, pkg, thread, cpus);
    LastWritten(ok, lines, Stripped(a, pkg, front, 0), pkg, thread, cpus, last);
  }

  lemma NoSingleLocs(cs: seq<Line>, pkg: string, thread: string, locs: seq<S.ThreadLoc>, n: nat)
    requires n <= |locs|
    requires forall k | 0 <= k < |locs| :: locs[k].idx < |cs| && HoldsThread(StateAt(cs, locs[k].idx), cs[locs[k].idx], pkg, thread, locs[k])
    ensures NoSinglesFrom(cs, pkg, 0) ==> !exists k :: 0 <= k < n && locs[..n][k].single
  {
    hide After;
    if NoSinglesFrom(cs, pkg, 0) {
      forall k | 0 <= k < n ensures !locs[..n][k].single {
        assert !SingleAt(cs, pkg, locs[k].idx);
      }
    }
  }

  lemma FrontNoStray(lines: seq<string>, i: nat)
    requires i <= |lines| && NoStray(START, ClassifyAll(lines))
    ensures NoStray(START, ClassifyAll(lines[..i]))
  {
    hide NoStray, Classify;
    var cs := ClassifyAll(lines);
    assert ClassifyAll(lines[..i]) == cs[..i];
    assert cs == cs[..i] + cs[i..];
    NoStrayConcat(START, cs[..i], cs[i..]);
  }

  lemma PlacesInFront(lines: seq<string>, pkg: string, thread: string, locs: seq<S.ThreadLoc>, n: nat)
    requires InLineOrder(locs, |lines|) && |locs| == n + 1
    requires var cs := ClassifyAll(lines);
             forall k | 0 <= k < |locs| :: HoldsThread(StateAt(cs, locs[k].idx), cs[locs[k].idx], pkg, thread, locs[k])
    ensures Places(lines[..locs[n].idx], pkg, thread, locs[..n])
  {
    hide Classify, HoldsThread, After;
    var i := locs[n].idx;
    var cs, fs := ClassifyAll(lines), ClassifyAll(lines[..i]);
    forall k | 0 <= k < n ensures locs[k].idx < i {
      Increasing(locs, k, n);
    }
    forall k | 0 <= k < n ensures fs[locs[k].idx] == cs[locs[k].idx] && fs[..locs[k].idx] == cs[..locs[k].idx] {
    }
  }

  lemma LastWritten(ok: Verdict, lines: seq<string>, front: seq<string>, pkg: string, thread: string, cpus: string, last: S.ThreadLoc)
    requires last.idx < |lines| && SamePlace(After(START, ClassifyAll(lines[..last.idx])), After(START, ClassifyAll(front)))
    requires HoldsThread(StateAt(ClassifyAll(lines), last.idx), ClassifyAll(lines)[last.idx], pkg, thread, last)
    requires PlainValue(Classify(lines[last.idx])) && CpuText(cpus) && ok(pkg, thread, cpus)
    requires !last.single ==> SwappedTo(lines[last.idx], cpus) == cpus
    ensures AffinityRule(pkg, thread, cpus) in
              Loaded(ok, ClassifyAll(front + ([SpecSwap(lines[last.idx], cpus)] + lines[last.idx + 1..])))
  {
    hide Classify, CpuText, SpecSwap, Loaded, HoldsThread, After, PlainValue, SwappedTo;
    var i := last.idx;
    var raw := SpecSwap(lines[i], cpus);
    assert ClassifyAll(lines[..i]) == ClassifyAll(lines)[..i];
    SwappedAsks(lines[i], StateAt(ClassifyAll(lines), i), After(START, ClassifyAll(front)), pkg, thread, cpus, last);
    ClassifyConcat(front + [raw], lines[i + 1..]);
    ClassifyConcat(front, [raw]);
    assert front + ([raw] + lines[i + 1..]) == front + [raw] + lines[i + 1..];
    assert ClassifyAll([raw]) == [Classify(raw)];
    RuleInside(ok, ClassifyAll(front), Classify(raw), ClassifyAll(lines[i + 1..]), AffinityRule(pkg, thread, cpus));
  }

  // ----- the whole edit

  /** The edit has a line it can rewrite, or a place for a new one, on the normalized file. */
  predicate WriteReady(lines: seq<string>, pkg: string, thread: string, cpus: string)
  {
    if thread == "" then RuleReady(lines, pkg)
    else if ThreadLocs(S.Scan(ClassifyAll(lines), pkg).hits, thread) != [] then ThreadReady(lines, pkg, thread, cpus)
    else !BraceInComment(lines, pkg)
  }

  lemma ThreadWritten(ok: Verdict, lines: seq<string>, pkg: string, thread: string, cpus: string)
    requires SpecVerdict(ok) && PkgSafe(pkg) && thread != "" && EntrySafe(thread) && ok(pkg, thread, cpus)
    requires S.NoOrphans(ClassifyAll(lines), |lines|) && WriteReady(lines, pkg, thread, cpus)
    requires UpsertedThread(lines, pkg, thread, cpus).Some?
    ensures AffinityRule(pkg, thread, cpus) in Loaded(ok, ClassifyAll(UpsertedThread(lines, pkg, thread, cpus).value))
  {
    hide Classify, PkgSafe, EntrySafe, SpecVerdict, S.HeaderTo, S.HitsTo, S.CloseTo, S.OpenTo, Loaded, ThreadLocs, PutBack, Stripped,
         EntryText, BraceInComment, ThreadReady, S.StateAt;
    if ThreadLocs(S.Scan(ClassifyAll(lines), pkg).hits, thread) != [] {
      OldThreadWritten(ok, lines, pkg, thread, cpus);
    } else {
      NewThreadWritten(ok, lines, pkg, thread, cpus);
    }
  }

  /** `rule_upsert` answers "ok" only when the rule it was given is loaded from the file it
      has written, whatever else is wrong with that file. */
  lemma UpsertWritten(ok: Verdict, lines: seq<string>, pkg: string, thread: string, cpus: string)
    requires SpecVerdict(ok) && PkgSafe(pkg) && (thread != "" ==> EntrySafe(thread)) && ok(pkg, thread, cpus)
    requires S.NoOrphans(ClassifyAll(Normalized(lines, pkg)), |Normalized(lines, pkg)|)
    requires WriteReady(Normalized(lines, pkg), pkg, thread, cpus)
    requires Upserted(lines, pkg, thread, cpus).answer == Ok
    ensures AffinityRule(pkg, thread, cpus) in Loaded(ok, ClassifyAll(Upserted(lines, pkg, thread, cpus).lines))
  {
    hide Classify, PkgSafe, EntrySafe, SpecVerdict, Loaded, Normalized, UpsertedRule, UpsertedThread, S.NoOrphans, RuleReady, ThreadReady;
    var moved := Normalized(lines, pkg);
    if thread == "" {
      RuleWritten(ok, moved, pkg, cpus);
    } else {
      ThreadWritten(ok, moved, pkg, thread, cpus);
    }
  }
}
