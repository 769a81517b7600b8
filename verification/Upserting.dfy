/** `rule_upsert`: the rule reads back, and no other rule changes. */
module Upserting {
  import opened Base
  import opened Text
  import opened Lines
  import opened Syntax
  import opened Printing
  import opened Loader
  import opened Edits
  import opened Tracking
  import opened Swapping
  import opened Headers
  import opened Taking
  import opened Stripping
  import opened Inserting
  import opened Normalizing
  import opened SinglesMoved
  import opened RuleEdits
  import opened BrokenOpens
  import S = Scanner
  import Shapes

  // ----- a thread rule that is there

  lemma LastSwapped(ok: Verdict, cs: seq<Line>, pkg: string, locs: seq<S.ThreadLoc>, rs: seq<AffinityRule>,
                    d: Line, cpus: string)
    requires Clean(ok, cs) && locs != [] && |rs| == |locs| && Recorded(cs, pkg, locs, rs)
    requires var i := locs[|locs| - 1].idx; i < |cs| && Reworded(StateAt(cs, i), cs[i], d, cpus)
    requires rs[|rs| - 1].pkg == pkg && Admitted(ok, rs[|rs| - 1].(cpus := cpus))
    ensures var n := |locs| - 1;
            var base := Spliced(cs, locs[n].idx, locs[n].idx + 1, [d]);
            && Clean(ok, base)
            && Moves(ok, cs, base, pkg, multiset{rs[n]}, multiset{rs[n].(cpus := cpus)})
            && Recorded(base, pkg, locs[..n], rs[..n])
  {
    hide Clean, Reworded, Moves;
    var n := |locs| - 1;
    var i := locs[n].idx;
    var base := Spliced(cs, i, i + 1, [d]);
    SwapRule(ok, cs, i, d, cpus);
    forall k | 0 <= k < n
      ensures locs[k].idx < |base| && S.HitAt(base, pkg, locs[k].idx) == S.HitAt(cs, pkg, locs[k].idx)
      ensures Asked(StateAt(base, locs[k].idx), base[locs[k].idx]) == [rs[k]]
    {
      BeforeLast(cs, pkg, locs, rs, k, n);
      assert base[..i] == cs[..i];
      SamePoint(cs, base, pkg, i, locs[k].idx);
    }
  }

  lemma {:induction false} BeforeLast(cs: seq<Line>, pkg: string, locs: seq<S.ThreadLoc>, rs: seq<AffinityRule>, k: nat, n: nat)
    requires Recorded(cs, pkg, locs, rs) && k < n < |locs|
    ensures locs[k].idx < locs[n].idx
    decreases n
  {
    assert locs[n - 1].idx < locs[n].idx;
    if k < n - 1 {
      BeforeLast(cs, pkg, locs, rs, k, n - 1);
    }
  }

  lemma StripTaken(ok: Verdict, lines: seq<string>, cur: seq<string>, pkg: string,
                   locs: seq<S.ThreadLoc>, rs: seq<AffinityRule>, k: nat)
    requires |rs| == |locs| && Recorded(ClassifyAll(lines), pkg, locs, rs) && PkgSafe(pkg) && k < |rs|
    requires Taken(ok, ClassifyAll(lines), ClassifyAll(cur), pkg, locs, rs, k + 1)
    ensures locs[k].idx < |cur|
    ensures Taken(ok, ClassifyAll(lines), ClassifyAll(LineRemoved(cur, pkg, locs[k])), pkg, locs, rs, k)
  {
    hide Clean, Moves;
    var os, cs := ClassifyAll(lines), ClassifyAll(cur);
    Spot(os, cs, pkg, locs, rs, k);
    var i := locs[k].idx;
    var mid := RemovalLines(cur[i], pkg, locs[k]);
    RemovalClasses(cur[i], pkg, locs[k]);
    SafeName(pkg);
    TakenStep(ok, os, cs, pkg, locs, rs, k, ClassifyAll(mid));
    ClassifySplice(cur, i, i + 1, mid);
  }

  lemma {:induction false} StrippedTaken(ok: Verdict, lines: seq<string>, pkg: string,
                                         locs: seq<S.ThreadLoc>, rs: seq<AffinityRule>, k: nat)
    requires |rs| == |locs| && Recorded(ClassifyAll(lines), pkg, locs, rs) && PkgSafe(pkg)
    requires Clean(ok, ClassifyAll(lines)) && k <= |rs|
    ensures Taken(ok, ClassifyAll(lines), ClassifyAll(Stripped(lines, pkg, locs, k)), pkg, locs, rs, k)
    decreases |rs| - k
  {
    hide Taken, Recorded, LineRemoved;
    if k == |rs| {
      TakenStart(ok, ClassifyAll(lines), pkg, locs, rs);
    } else {
      StrippedTaken(ok, lines, pkg, locs, rs, k + 1);
      StripTaken(ok, lines, Stripped(lines, pkg, locs, k + 1), pkg, locs, rs, k);
    }
  }

  /** All the rules at `locs` taken out. */
  lemma AllTaken(ok: Verdict, lines: seq<string>, pkg: string, locs: seq<S.ThreadLoc>, rs: seq<AffinityRule>)
    requires |rs| == |locs| && Recorded(ClassifyAll(lines), pkg, locs, rs) && PkgSafe(pkg) && Clean(ok, ClassifyAll(lines))
    ensures var out := Stripped(lines, pkg, locs, 0);
            Clean(ok, ClassifyAll(out)) && Moves(ok, ClassifyAll(lines), ClassifyAll(out), pkg, multiset(rs), multiset{})
  {
    hide Clean, Moves, Recorded, Stripped;
    StrippedTaken(ok, lines, pkg, locs, rs, 0);
    assert rs[0..] == rs;
  }

  /** The swapped line of a recorded entry. */
  lemma SwappedHit(ok: Verdict, lines: seq<string>, pkg: string, i: nat, cpus: string)
    requires Clean(ok, ClassifyAll(lines)) && SpecVerdict(ok) && CpuText(cpus) && i < |lines|
    requires S.HitAt(ClassifyAll(lines), pkg, i).Some? && NoSinglesFrom(ClassifyAll(lines), pkg, 0)
    ensures var cs := ClassifyAll(lines);
            && Reworded(StateAt(cs, i), cs[i], Classify(SpecSwap(lines[i], cpus)), SwappedTo(lines[i], cpus))
            && Asked(StateAt(cs, i), cs[i]) != []
            && SwappedTo(lines[i], cpus) in {cpus, RuleAt(cs, i).cpus}
  {
    hide Classify, SpecSwap, CpuText, TidyClose, Rules;
    var cs := ClassifyAll(lines);
    HitRule(ok, cs, pkg, i);
    CleanLine(ok, cs, i);
    assert !SingleAt(cs, pkg, i);
    var e := cs[i].inner;
    assert StateAt(cs, i).inBlock && e.Entry?;
    assert ok(pkg, e.name, e.cpus);
    CpuNoBrace(e.cpus);
    SwapAnyEntry(lines[i], e.name, e.cpus, e.closed, cpus);
  }

  /** The last rule of the thread gets the CPUs its line can take, the earlier ones go. */
  lemma ReplacedMeaning(ok: Verdict, lines: seq<string>, pkg: string, thread: string,
                        locs: seq<S.ThreadLoc>, rs: seq<AffinityRule>, cpus: string)
    requires Clean(ok, ClassifyAll(lines)) && SpecVerdict(ok) && PkgSafe(pkg)
    requires NoSinglesFrom(ClassifyAll(lines), pkg, 0) && ok(pkg, thread, cpus)
    requires locs != [] && |rs| == |locs| && Recorded(ClassifyAll(lines), pkg, locs, rs)
    requires forall r | r in rs :: r.pkg == pkg && r.thread == thread
    ensures var n := |locs| - 1;
            var out := Stripped(Swapped(lines, locs[n].idx, cpus), pkg, locs[..n], 0);
            && locs[n].idx < |lines| && Clean(ok, ClassifyAll(out))
            && Moves(ok, ClassifyAll(lines), ClassifyAll(out), pkg, multiset(rs),
                     multiset{AffinityRule(pkg, thread, SwappedTo(lines[locs[n].idx], cpus))})
  {
    hide Classify, SpecSwap, Clean, Moves, PkgSafe, NoSinglesFrom, CpuText, Stripped, Reworded, Swapped, ClassifyAll;
    var n := |locs| - 1;
    var i := locs[n].idx;
    var cs := ClassifyAll(lines);
    assert CpuText(cpus);
    SwappedHit(ok, lines, pkg, i, cpus);
    var d := Classify(SpecSwap(lines[i], cpus));
    assert rs[n] in rs;
    var to := SwappedTo(lines[i], cpus);
    assert Admitted(ok, rs[n]) by {
      TakenRule(ok, cs, pkg, i);
    }
    LastSwapped(ok, cs, pkg, locs, rs, d, to);
    var given := Swapped(lines, i, cpus);
    SwappedLine(lines, i, cpus);
    AllTaken(ok, given, pkg, locs[..n], rs[..n]);
    ReplacedMoves(ok, cs, ClassifyAll(given), ClassifyAll(Stripped(given, pkg, locs[..n], 0)), pkg, rs,
                  AffinityRule(pkg, thread, to));
  }

  lemma TakenRule(ok: Verdict, cs: seq<Line>, pkg: string, i: nat)
    requires Clean(ok, cs) && i < |cs| && S.HitAt(cs, pkg, i).Some?
    ensures Asked(StateAt(cs, i), cs[i]) != [] && Admitted(ok, RuleAt(cs, i))
  {
    HitRule(ok, cs, pkg, i);
    CleanLine(ok, cs, i);
  }

  lemma ReplacedMoves(ok: Verdict, a: seq<Line>, b: seq<Line>, c: seq<Line>, pkg: string,
                      rs: seq<AffinityRule>, r: AffinityRule)
    requires rs != [] && Moves(ok, a, b, pkg, multiset{rs[|rs| - 1]}, multiset{r})
    requires Moves(ok, b, c, pkg, multiset(rs[..|rs| - 1]), multiset{})
    ensures Moves(ok, a, c, pkg, multiset(rs), multiset{r})
  {
    hide Moves;
    var n := |rs| - 1;
    MovesChain(ok, a, b, c, pkg, multiset{rs[n]}, multiset{r}, multiset(rs[..n]), multiset{});
    assert rs == rs[..n] + [rs[n]];
    assert multiset(rs) == multiset{rs[n]} + multiset(rs[..n]);
    assert multiset{r} + multiset{} == multiset{r};
  }

  lemma OnlyMatches(rs: seq<AffinityRule>, pkg: string, thread: string)
    ensures forall r | r in Only(rs, pkg, thread) :: r.pkg == pkg && r.thread == thread
  {
    if rs != [] {
      OnlyMatches(rs[1..], pkg, thread);
    }
  }

  /** The printed line of a new thread rule. */
  lemma NewEntry(ok: Verdict, pkg: string, thread: string, cpus: string)
    requires SpecVerdict(ok) && PkgSafe(pkg) && EntrySafe(thread) && ok(pkg, thread, cpus)
    ensures Printable(ok, pkg, ClassifyAll([EntryText(thread, cpus)]), [AffinityRule(pkg, thread, cpus)])
  {
    hide Classify, CpuText, EntrySafe, PkgSafe, EntryText;
    SafeName(pkg);
    EntryLine(thread, cpus, "");
    assert EntryText(thread, cpus) + "" == EntryText(thread, cpus);
  }

  /** A file the scanner can be asked about: no single-line rule of pkg is left. */
  ghost predicate Settled(ok: Verdict, lines: seq<string>, pkg: string)
  {
    && SpecVerdict(ok) && PkgSafe(pkg) && Clean(ok, ClassifyAll(lines)) && NoSinglesFrom(ClassifyAll(lines), pkg, 0)
  }

  /** `out` has the rules of `lines`, with the new rule in place of every rule for the
      same package and thread. */
  ghost predicate ThreadSet(ok: Verdict, lines: seq<string>, out: seq<string>, r: AffinityRule)
  {
    var was, now := Loaded(ok, ClassifyAll(lines)), Loaded(ok, ClassifyAll(out));
    && Clean(ok, ClassifyAll(out))
    && multiset(now) == multiset(Without(was, r.pkg, r.thread)) + multiset{r}
    && Others(now, r.pkg) == Others(was, r.pkg)
  }

  lemma SetFromMoves(ok: Verdict, lines: seq<string>, out: seq<string>, r: AffinityRule)
    requires Clean(ok, ClassifyAll(out))
    requires Moves(ok, ClassifyAll(lines), ClassifyAll(out), r.pkg,
                   multiset(Only(Loaded(ok, ClassifyAll(lines)), r.pkg, r.thread)), multiset{r})
    ensures ThreadSet(ok, lines, out, r)
  {
    hide Loaded, Clean, Classify;
    var was, now := Loaded(ok, ClassifyAll(lines)), Loaded(ok, ClassifyAll(out));
    OnlyAndWithout(was, r.pkg, r.thread);
    var m := multiset(Only(was, r.pkg, r.thread));
    assert multiset(now) == (multiset(now) + m) - m;
    assert multiset(now) == (multiset(was) + multiset{r}) - m;
  }

  /** The CPUs the thread's rule has after the edit: those of its last line, if that line
      cannot take new ones. */
  function WrittenCpus(lines: seq<string>, pkg: string, thread: string, cpus: string): string
  {
    var locs := ThreadLocs(S.Scan(ClassifyAll(lines), pkg).hits, thread);
    if locs != [] && locs[|locs| - 1].idx < |lines| then SwappedTo(lines[locs[|locs| - 1].idx], cpus) else cpus
  }

  /** A thread rule put into a settled file. */
  lemma UpsertedThreadMeaning(ok: Verdict, lines: seq<string>, pkg: string, thread: string, cpus: string)
    requires Settled(ok, lines, pkg) && EntrySafe(thread) && thread != "" && ok(pkg, thread, cpus)
    ensures var out := UpsertedThread(lines, pkg, thread, cpus);
            && out.Some?
            && (!BraceInComment(lines, pkg) ==>
                  ThreadSet(ok, lines, out.value, AffinityRule(pkg, thread, WrittenCpus(lines, pkg, thread, cpus))))
            && (BraceInComment(lines, pkg) ==> !Clean(ok, ClassifyAll(out.value)))
  {
    hide Classify, Clean, Moves, PkgSafe, NoSinglesFrom, CpuText, Stripped, PutBack, Swapped, EntrySafe,
         BraceInComment, Only, ThreadSet, Recorded, ThreadLocs, StrayClose, Printable, EntryText, SwappedTo;
    var cs := ClassifyAll(lines);
    var r := AffinityRule(pkg, thread, cpus);
    var locs := ThreadLocs(S.Scan(cs, pkg).hits, thread);
    var rs := Only(Loaded(ok, cs), pkg, thread);
    HitsAreThreadRules(ok, lines, pkg, thread);
    BlockFound(ok, cs, pkg);
    SafeName(pkg);
    var out := UpsertedThread(lines, pkg, thread, cpus).value;
    if locs != [] {
      OnlyMatches(Loaded(ok, cs), pkg, thread);
      ReplacedMeaning(ok, lines, pkg, thread, locs, rs, cpus);
      SetFromMoves(ok, lines, out, AffinityRule(pkg, thread, WrittenCpus(lines, pkg, thread, cpus)));
      HitsNeedBlock(ok, cs, pkg, thread);
      UnlessBlock(lines, pkg);
    } else {
      NewEntry(ok, pkg, thread, cpus);
      CleanEnd(ok, cs);
      PutBackMeaning(ok, lines, pkg, |lines|, [EntryText(thread, cpus)], [r]);
      NewRuleMeaning(ok, lines, pkg, thread, cpus, out);
    }
  }

  lemma NewRuleMeaning(ok: Verdict, lines: seq<string>, pkg: string, thread: string, cpus: string, out: seq<string>)
    requires Only(Loaded(ok, ClassifyAll(lines)), pkg, thread) == []
    requires BraceInComment(lines, pkg) ==> HasStrayClose(ClassifyAll(out))
    requires !BraceInComment(lines, pkg) ==> TextsPut(ok, lines, out, pkg, [AffinityRule(pkg, thread, cpus)])
    ensures !BraceInComment(lines, pkg) ==> ThreadSet(ok, lines, out, AffinityRule(pkg, thread, cpus))
    ensures BraceInComment(lines, pkg) ==> !Clean(ok, ClassifyAll(out))
  {
    hide Classify, Clean, Moves, BraceInComment, HasStrayClose, ThreadSet, Only;
    var r := AffinityRule(pkg, thread, cpus);
    if BraceInComment(lines, pkg) {
      HasStrayFails(ok, ClassifyAll(out));
    } else {
      SetFromMoves(ok, lines, out, r);
    }
  }

  lemma UnlessBlock(lines: seq<string>, pkg: string)
    requires S.Scan(ClassifyAll(lines), pkg).blockClose.Some?
    ensures !BraceInComment(lines, pkg)
  {
  }

  lemma HitsAreThreadRules(ok: Verdict, lines: seq<string>, pkg: string, thread: string)
    requires Clean(ok, ClassifyAll(lines)) && thread != ""
    ensures var cs := ClassifyAll(lines);
            var locs, rs := ThreadLocs(S.Scan(cs, pkg).hits, thread), Only(Loaded(ok, cs), pkg, thread);
            |rs| == |locs| && Recorded(cs, pkg, locs, rs)
  {
    hide Classify, Clean;
    var cs := ClassifyAll(lines);
    assert cs[..|cs|] == cs;
    forall k | 0 <= k < |cs| ensures Named(cs[k]) {
      assert cs[k] == Classify(lines[k]);
    }
    TableIsRules(ok, cs, pkg, thread, |cs|);
  }

  /** In a settled file every recorded rule stands in a block. */
  lemma HitsNeedBlock(ok: Verdict, cs: seq<Line>, pkg: string, thread: string)
    requires Clean(ok, cs) && NoSinglesFrom(cs, pkg, 0) && ThreadLocs(S.Scan(cs, pkg).hits, thread) != []
    requires exists rs :: Recorded(cs, pkg, ThreadLocs(S.Scan(cs, pkg).hits, thread), rs)
    ensures S.Scan(cs, pkg).blockClose.Some?
  {
    hide Clean;
    var locs := ThreadLocs(S.Scan(cs, pkg).hits, thread);
    var i := locs[0].idx;
    CleanLine(ok, cs, i);
    assert !SingleAt(cs, pkg, i);
    BlockFound(ok, cs, pkg);
    InTargetIsLoader(ok, cs, pkg, i);
  }

  // ----- the rule of the package itself

  /** The rule on the first line that names pkg, if that line has one. */
  function HeaderRules(cs: seq<Line>, pkg: string): multiset<AffinityRule>
  {
    match S.Scan(cs, pkg).pkgLine
    case Some(Standalone(i)) =>
      if cs[i].Text? && cs[i].outer.Rule? then multiset{AffinityRule(pkg, "", cs[i].outer.cpus)} else multiset{}
    case Some(OpenInline(i)) =>
      if cs[i].Text? && cs[i].outer.Rule? then multiset{AffinityRule(pkg, "", cs[i].outer.cpus)} else multiset{}
    case _ => multiset{}
  }

  /** `out` has the rules of `lines`, with the new rule in place of the one on the
      package's first line. */
  ghost predicate HeaderSet(ok: Verdict, lines: seq<string>, out: seq<string>, pkg: string, cpus: string)
  {
    var cs, os := ClassifyAll(lines), ClassifyAll(out);
    Clean(ok, os) && Moves(ok, cs, os, pkg, HeaderRules(cs, pkg), multiset{AffinityRule(pkg, "", cpus)})
  }

  lemma HeaderSwapped(ok: Verdict, lines: seq<string>, pkg: string, i: nat, cpus: string)
    requires Clean(ok, ClassifyAll(lines)) && SpecVerdict(ok) && pkg != "" && ok(pkg, "", cpus) && i < |lines|
    requires var h := S.HeaderAt(ClassifyAll(lines), pkg, i); h == Some(S.Standalone(i)) || h == Some(S.OpenInline(i))
    ensures var cs, os := ClassifyAll(lines), ClassifyAll(Swapped(lines, i, cpus));
            && cs[i].Text? && cs[i].outer.Rule?
            && Clean(ok, os)
            && Moves(ok, cs, os, pkg, multiset{AffinityRule(pkg, "", cs[i].outer.cpus)}, multiset{AffinityRule(pkg, "", cpus)})
  {
    hide Classify, SpecSwap, CpuText, Rules, Moves;
    var cs := ClassifyAll(lines);
    CleanLine(ok, cs, i);
    var o := cs[i].outer;
    assert ok(pkg, "", o.cpus);
    if o.open {
      CpuNoBrace(o.cpus);
      SwapOpenInline(lines[i], pkg, o.cpus, cpus);
    } else {
      CpuNoBrace(o.cpus);
      SwapStandalone(lines[i], pkg, o.cpus, cpus);
    }
    var d := Classify(SpecSwap(lines[i], cpus));
    SwapRule(ok, cs, i, d, cpus);
    SwappedLine(lines, i, cpus);
  }

  /** The printed opening line with a rule. */
  lemma HeaderReads(raw: string, pkg: string, cpus: string)
    requires Classify(raw).Text? && PkgSafe(pkg) && CpuText(cpus)
    ensures var c := Classify(WithComment(HeaderText(pkg, cpus, true), raw)); c.Text? && c.outer == Rule(pkg, cpus, true)
  {
    hide PkgSafe, CpuText, ParseOuterCore;
    HeaderCore(pkg, cpus, true);
    var q := HeaderText(pkg, cpus, true);
    assert "" + q == q;
    PrintedWithComment("", q, raw);
    var t :| Shapes.Tail(t) && WithComment("" + q, raw) == "" + q + t;
    Shapes.ReadShape("", q, t);
  }

  lemma OpenGiven(ok: Verdict, lines: seq<string>, pkg: string, i: nat, cpus: string)
    requires Clean(ok, ClassifyAll(lines)) && SpecVerdict(ok) && PkgSafe(pkg) && ok(pkg, "", cpus) && i < |lines|
    requires S.HeaderAt(ClassifyAll(lines), pkg, i) == Some(S.OpenBare(i))
    ensures var cs, os := ClassifyAll(lines), ClassifyAll(lines[i := WithComment(HeaderText(pkg, cpus, true), lines[i])]);
            Clean(ok, os) && Moves(ok, cs, os, pkg, multiset{}, multiset{AffinityRule(pkg, "", cpus)})
  {
    hide Classify, HeaderText, WithComment, CpuText, Clean, Moves;
    var cs := ClassifyAll(lines);
    var raw := WithComment(HeaderText(pkg, cpus, true), lines[i]);
    SafeName(pkg);
    assert CpuText(cpus);
    HeaderReads(lines[i], pkg, cpus);
    GiveRuleToOpen(ok, cs, pkg, i, Classify(raw), cpus);
    LineReplaced(lines, i, raw);
  }

  /** The first block of a package whose first line waits for its brace. */
  lemma BlockOpenIs(ok: Verdict, cs: seq<Line>, pkg: string, v: nat, pi: nat)
    requires Clean(ok, cs) && NoSinglesFrom(cs, pkg, 0) && v < |cs| && S.HeaderAt(cs, pkg, v) == Some(S.BarePending(pi))
    requires forall u | 0 <= u < v :: S.HeaderAt(cs, pkg, u).None?
    ensures S.Scan(cs, pkg).blockOpen == Some(v)
  {
    hide Clean;
    PendingOpen(ok, cs, pkg, v, pi);
    InTargetIsLoader(ok, cs, pkg, v + 1);
    S.FirstBlock(cs, pkg, |cs|);
    var o := S.OpenTo(cs, pkg, |cs|).value;
    CleanLine(ok, cs, o);
    OpenerIsHeader(cs, pkg, o);
    assert !SingleAt(cs, pkg, o);
    assert S.InTarget(cs, pkg, v + 1) && o <= v;
  }

  lemma OpenerIsHeader(cs: seq<Line>, pkg: string, o: nat)
    requires o < |cs| && !S.StateAt(cs, o).inBlock && S.InTarget(cs, pkg, o + 1)
    ensures S.HeaderAt(cs, pkg, o).Some? || (cs[o].Text? && cs[o].outer.Single? && cs[o].outer.pkg == pkg)
  {
  }

  lemma PendingGiven(ok: Verdict, lines: seq<string>, pkg: string, v: nat, pi: nat, cpus: string)
    requires Clean(ok, ClassifyAll(lines)) && SpecVerdict(ok) && PkgSafe(pkg) && ok(pkg, "", cpus) && pi < v < |lines|
    requires S.HeaderAt(ClassifyAll(lines), pkg, v) == Some(S.BarePending(pi))
    ensures var given := lines[pi := WithComment(HeaderText(pkg, cpus, true), lines[pi])];
            var cs, os := ClassifyAll(lines), ClassifyAll(given[..v] + given[v + 1..]);
            Clean(ok, os) && Moves(ok, cs, os, pkg, multiset{}, multiset{AffinityRule(pkg, "", cpus)})
    ensures ParseOuter(Trim(lines[v])) == BareOpen("")
  {
    hide HeaderText, WithComment, CpuText, Clean, Moves, Trim, ParseOuter;
    var cs := ClassifyAll(lines);
    var raw := WithComment(HeaderText(pkg, cpus, true), lines[pi]);
    SafeName(pkg);
    assert CpuText(cpus);
    PendingOpen(ok, cs, pkg, v, pi);
    HeaderReads(lines[pi], pkg, cpus);
    GiveRuleToPending(ok, cs, pkg, v, pi, Classify(raw), cpus);
    DroppedBrace(lines, pi, v, raw);
  }

  lemma DroppedBrace(lines: seq<string>, pi: nat, v: nat, raw: string)
    requires pi < v < |lines|
    ensures var given := lines[pi := raw];
            ClassifyAll(given[..v] + given[v + 1..]) ==
              Spliced(ClassifyAll(lines), pi, v + 1, [Classify(raw)] + ClassifyAll(lines)[pi + 1..v])
  {
    hide Classify;
    var given := lines[pi := raw];
    var mid := [raw] + lines[pi + 1..v];
    assert given[..v] + given[v + 1..] == lines[..pi] + mid + lines[v + 1..];
    ClassifySplice(lines, pi, v + 1, mid);
    assert ClassifyAll(mid) == [Classify(raw)] + ClassifyAll(lines)[pi + 1..v];
  }

  lemma Appended(ok: Verdict, lines: seq<string>, pkg: string, cpus: string)
    requires Clean(ok, ClassifyAll(lines)) && SpecVerdict(ok) && PkgSafe(pkg) && ok(pkg, "", cpus)
    ensures var cs, os := ClassifyAll(lines), ClassifyAll(lines + [HeaderText(pkg, cpus, false)]);
            Clean(ok, os) && Moves(ok, cs, os, pkg, multiset{}, multiset{AffinityRule(pkg, "", cpus)})
  {
    hide PkgSafe, CpuText, ParseOuterCore, Clean, Moves;
    var q := HeaderText(pkg, cpus, false);
    assert CpuText(cpus);
    HeaderCore(pkg, cpus, false);
    assert "" + q + "" == q;
    Shapes.ReadShape("", q, "");
    AppendRule(ok, ClassifyAll(lines), pkg, Classify(q), cpus);
    assert ClassifyAll(lines + [q]) == ClassifyAll(lines) + [Classify(q)];
  }

  /** The rule of a package put into a settled file. */
  lemma UpsertedRuleMeaning(ok: Verdict, lines: seq<string>, pkg: string, cpus: string)
    requires Settled(ok, lines, pkg) && ok(pkg, "", cpus)
    ensures var out := UpsertedRule(lines, pkg, cpus);
            out.Some? && HeaderSet(ok, lines, out.value, pkg, cpus)
  {
    hide Classify, Clean, Moves, PkgSafe, NoSinglesFrom, CpuText, Swapped, HeaderText, WithComment, ParseOuter, Trim;
    var cs := ClassifyAll(lines);
    SafeName(pkg);
    BlockFound(ok, cs, pkg);
    var v := S.FirstHeader(cs, pkg, |cs|);
    match S.Scan(cs, pkg).pkgLine {
      case Some(Standalone(i)) => HeaderSwapped(ok, lines, pkg, i, cpus);
      case Some(OpenInline(i)) => HeaderSwapped(ok, lines, pkg, i, cpus);
      case Some(OpenBare(i)) => OpenGiven(ok, lines, pkg, i, cpus);
      case Some(BarePending(i)) =>
        PendingOpen(ok, cs, pkg, v, i);
        BlockOpenIs(ok, cs, pkg, v, i);
        PendingGiven(ok, lines, pkg, v, i, cpus);
      case None => Appended(ok, lines, pkg, cpus);
    }
  }

  // ----- the whole edit

  lemma {:induction false} WithoutCounts(rs: seq<AffinityRule>, pkg: string, thread: string, r: AffinityRule)
    ensures multiset(Without(rs, pkg, thread))[r] ==
              if r.pkg == pkg && r.thread == thread then 0 else multiset(rs)[r]
  {
    if rs != [] {
      WithoutCounts(rs[1..], pkg, thread, r);
      assert rs == [rs[0]] + rs[1..];
    }
  }

  lemma SameWithout(a: seq<AffinityRule>, b: seq<AffinityRule>, pkg: string, thread: string)
    requires multiset(a) == multiset(b)
    ensures multiset(Without(a, pkg, thread)) == multiset(Without(b, pkg, thread))
  {
    hide Without;
    forall r ensures multiset(Without(a, pkg, thread))[r] == multiset(Without(b, pkg, thread))[r] {
      WithoutCounts(a, pkg, thread, r);
      WithoutCounts(b, pkg, thread, r);
    }
  }

  lemma SetThrough(ok: Verdict, lines: seq<string>, moved: seq<string>, out: seq<string>, r: AffinityRule)
    requires SameRules(ok, lines, moved, r.pkg) && ThreadSet(ok, moved, out, r)
    ensures ThreadSet(ok, lines, out, r)
  {
    hide Classify, Clean, Loaded;
    var a, b := Loaded(ok, ClassifyAll(lines)), Loaded(ok, ClassifyAll(moved));
    assert multiset(b) + multiset{} == multiset(b) && multiset(a) + multiset{} == multiset(a);
    SameWithout(a, b, r.pkg, r.thread);
  }

  /** Only one rule can be the one that was set. */
  lemma OneSet(ok: Verdict, lines: seq<string>, out: seq<string>, r: AffinityRule, q: AffinityRule)
    requires ThreadSet(ok, lines, out, r) && r.pkg == q.pkg && r.thread == q.thread
    ensures ThreadSet(ok, lines, out, q) <==> r == q
  {
    hide Classify, Clean, Loaded, Without, Others;
    var w := multiset(Without(Loaded(ok, ClassifyAll(lines)), r.pkg, r.thread));
    if w + multiset{r} == w + multiset{q} {
      assert (w + multiset{r})[r] == w[r] + 1;
      assert (w + multiset{q})[r] == w[r] + (if q == r then 1 else 0);
    }
  }

  /** The normalized file is settled, and its hazard is the one of the file before. */
  lemma NormalizedSettled(ok: Verdict, lines: seq<string>, pkg: string)
    requires Editable(ok, lines, pkg) && !(HasSingles(lines, pkg) && BraceInComment(lines, pkg))
    ensures var moved := Normalized(lines, pkg);
            && Settled(ok, moved, pkg) && SameRules(ok, lines, moved, pkg)
            && (BraceInComment(moved, pkg) <==> BraceInComment(lines, pkg))
  {
    hide Classify, Clean, Moves, PkgSafe, SinglesSafe, SpecVerdict, Normalized, HasSingles, NoSinglesFrom, HeaderLine;
    MoveMeaning(ok, lines, pkg);
    BlockFound(ok, ClassifyAll(Normalized(lines, pkg)), pkg);
  }

  /** The thread's last line, once the single-line rules are moved, closes its block, has a
      `=` behind the brace, and does not hold these CPUs yet. */
  predicate CpusStay(lines: seq<string>, pkg: string, thread: string, cpus: string)
  {
    var moved := Normalized(lines, pkg);
    var locs := ThreadLocs(S.Scan(ClassifyAll(moved), pkg).hits, thread);
    locs != [] &&
    var i := locs[|locs| - 1].idx;
    i < |moved| &&
    var c := Classify(moved[i]);
    c.Text? && c.inner.Entry? && c.inner.closed && c.inner.cpus != cpus && !TidyClose(moved[i])
  }

  lemma StayIs(lines: seq<string>, pkg: string, thread: string, cpus: string)
    ensures CpusStay(lines, pkg, thread, cpus) <==> WrittenCpus(Normalized(lines, pkg), pkg, thread, cpus) != cpus
  {
    hide Normalized, Classify, TidyClose;
  }

  /** `rule_upsert` of a thread rule answers "ok". The file is then clean, with exactly one
      rule for the thread and every other rule as before, unless the only place for a block
      is a package line with a comment. The thread's rule has the new CPUs exactly when its
      last line can take them; otherwise it has that line's old ones. */
  lemma UpsertReadsBack(ok: Verdict, lines: seq<string>, pkg: string, thread: string, cpus: string)
    requires Editable(ok, lines, pkg)
    requires thread != "" && EntrySafe(thread) && ok(pkg, thread, cpus)
    ensures var e, written := Upserted(lines, pkg, thread, cpus), WrittenCpus(Normalized(lines, pkg), pkg, thread, cpus);
            && e.answer == Ok
            && (Clean(ok, ClassifyAll(e.lines)) <==> !BraceInComment(lines, pkg))
            && (!BraceInComment(lines, pkg) ==> ThreadSet(ok, lines, e.lines, AffinityRule(pkg, thread, written)))
            && (ThreadSet(ok, lines, e.lines, AffinityRule(pkg, thread, cpus)) <==>
                  !BraceInComment(lines, pkg) && !CpusStay(lines, pkg, thread, cpus))
  {
    hide Classify, Clean, PkgSafe, SinglesSafe, Normalized, HasSingles, BraceInComment, EntrySafe, CpuText,
         UpsertedThread, Settled, SameRules, HasStrayClose, Others, Without, BrokenOpen, WrittenCpus, CpusStay;
    var moved := Normalized(lines, pkg);
    if HasSingles(lines, pkg) && BraceInComment(lines, pkg) {
      var h, j := NormalizedBreaks(ok, lines, pkg);
      NewEntry(ok, pkg, thread, cpus);
      BrokenThread(ok, moved, pkg, h, j, thread, cpus);
      HasStrayFails(ok, ClassifyAll(UpsertedThread(moved, pkg, thread, cpus).value));
    } else {
      NormalizedSettled(ok, lines, pkg);
      UpsertedThreadMeaning(ok, moved, pkg, thread, cpus);
      if !BraceInComment(lines, pkg) {
        var out, written := UpsertedThread(moved, pkg, thread, cpus).value, WrittenCpus(moved, pkg, thread, cpus);
        SetThrough(ok, lines, moved, out, AffinityRule(pkg, thread, written));
        StayIs(lines, pkg, thread, cpus);
        OneSet(ok, lines, out, AffinityRule(pkg, thread, written), AffinityRule(pkg, thread, cpus));
      }
    }
  }

  /** `rule_upsert` of the package's own rule: the new rule takes the place of the one
      on the package's first line, unless normalizing already damaged the file. */
  lemma UpsertRuleReadsBack(ok: Verdict, lines: seq<string>, pkg: string, cpus: string)
    requires Editable(ok, lines, pkg) && ok(pkg, "", cpus)
    ensures var e := Upserted(lines, pkg, "", cpus);
            && e.answer == Ok
            && (Clean(ok, ClassifyAll(e.lines)) <==> !(HasSingles(lines, pkg) && BraceInComment(lines, pkg)))
            && (!(HasSingles(lines, pkg) && BraceInComment(lines, pkg)) ==>
                  Moves(ok, ClassifyAll(lines), ClassifyAll(e.lines), pkg,
                        HeaderRules(ClassifyAll(Normalized(lines, pkg)), pkg), multiset{AffinityRule(pkg, "", cpus)}))
  {
    hide Classify, Clean, PkgSafe, SinglesSafe, Normalized, HasSingles, BraceInComment, CpuText, HeaderRules,
         UpsertedRule, Settled, Moves, HasStrayClose, BrokenOpen;
    var moved := Normalized(lines, pkg);
    SafeName(pkg);
    if HasSingles(lines, pkg) && BraceInComment(lines, pkg) {
      var h, j := NormalizedBreaks(ok, lines, pkg);
      BrokenRule(moved, pkg, h, j, cpus);
      HasStrayFails(ok, ClassifyAll(UpsertedRule(moved, pkg, cpus).value));
    } else {
      NormalizedSettled(ok, lines, pkg);
      UpsertedRuleMeaning(ok, moved, pkg, cpus);
      var minus, plus := HeaderRules(ClassifyAll(moved), pkg), multiset{AffinityRule(pkg, "", cpus)};
      MovesChain(ok, ClassifyAll(lines), ClassifyAll(moved), ClassifyAll(UpsertedRule(moved, pkg, cpus).value), pkg,
                 multiset{}, multiset{}, minus, plus);
      assert multiset{} + minus == minus && multiset{} + plus == plus;
    }
  }

  lemma OnlyRule(ok: Verdict, lines: seq<string>, out: seq<string>, pkg: string, cpus: string, minus: multiset<AffinityRule>)
    requires Clean(ok, ClassifyAll(out))
    requires Moves(ok, ClassifyAll(lines), ClassifyAll(out), pkg, minus, multiset{AffinityRule(pkg, "", cpus)})
    requires forall r | r in minus :: r.pkg == pkg && r.thread == ""
    ensures ThreadSet(ok, lines, out, AffinityRule(pkg, "", cpus)) <==>
              minus == multiset(Only(Loaded(ok, ClassifyAll(lines)), pkg, ""))
  {
    hide Classify, Clean, Loaded, Only, Without;
    var was, now := Loaded(ok, ClassifyAll(lines)), Loaded(ok, ClassifyAll(out));
    OnlyAndWithout(was, pkg, "");
    Balance(multiset(now), minus, multiset(Only(was, pkg, "")), multiset(Without(was, pkg, "")),
            multiset{AffinityRule(pkg, "", cpus)});
  }

  lemma HeaderRulesOwn(cs: seq<Line>, pkg: string)
    ensures forall r | r in HeaderRules(cs, pkg) :: r.pkg == pkg && r.thread == ""
  {
  }

  /** After `rule_upsert` of the package's own rule, it is the only one of the package itself
      exactly when normalizing does not break the file and the package's first line held
      every such rule before. */
  lemma OnlyRuleLeft(ok: Verdict, lines: seq<string>, pkg: string, cpus: string)
    requires Editable(ok, lines, pkg) && ok(pkg, "", cpus)
    ensures ThreadSet(ok, lines, Upserted(lines, pkg, "", cpus).lines, AffinityRule(pkg, "", cpus)) <==>
              !NormalizingBreaks(lines, pkg)
              && HeaderRules(ClassifyAll(Normalized(lines, pkg)), pkg) == multiset(Only(Loaded(ok, ClassifyAll(lines)), pkg, ""))
  {
    hide Classify, Clean, Loaded, Only, Without, Editable, Upserted, HasSingles, BraceInComment, Normalized, HeaderRules, Moves, Others;
    UpsertRuleReadsBack(ok, lines, pkg, cpus);
    HeaderRulesOwn(ClassifyAll(Normalized(lines, pkg)), pkg);
    if !NormalizingBreaks(lines, pkg) {
      OnlyRule(ok, lines, Upserted(lines, pkg, "", cpus).lines, pkg, cpus, HeaderRules(ClassifyAll(Normalized(lines, pkg)), pkg));
    }
  }

  lemma Balance(now: multiset<AffinityRule>, minus: multiset<AffinityRule>, o: multiset<AffinityRule>,
                w: multiset<AffinityRule>, r: multiset<AffinityRule>)
    requires now + minus == o + w + r
    ensures now == w + r <==> minus == o
  {
    if minus == o {
      assert now == (now + minus) - minus == (o + w + r) - o == w + r;
    }
    if now == w + r {
      assert minus == (now + minus) - now == (o + w + r) - (w + r) == o;
    }
  }
}
