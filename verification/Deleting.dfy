/** `rule_delete`: the rules asked for are gone, and no other rule changes. */
module Deleting {
  import opened Base
  import opened Lines
  import opened Syntax
  import opened Printing
  import opened Loader
  import opened Edits
  import opened Tracking
  import opened Headers
  import opened Taking
  import opened Inserting
  import opened Normalizing
  import opened SinglesMoved
  import opened RuleEdits
  import opened BrokenOpens
  import opened Upserting
  import S = Scanner

  /** `out` has the rules of `lines` except those of one thread. */
  ghost predicate ThreadGone(ok: Verdict, lines: seq<string>, out: seq<string>, pkg: string, thread: string)
  {
    var was, now := Loaded(ok, ClassifyAll(lines)), Loaded(ok, ClassifyAll(out));
    && Clean(ok, ClassifyAll(out))
    && multiset(now) == multiset(Without(was, pkg, thread))
    && Others(now, pkg) == Others(was, pkg)
  }

  lemma GoneFromMoves(ok: Verdict, lines: seq<string>, out: seq<string>, pkg: string, thread: string)
    requires Clean(ok, ClassifyAll(out))
    requires Moves(ok, ClassifyAll(lines), ClassifyAll(out), pkg,
                   multiset(Only(Loaded(ok, ClassifyAll(lines)), pkg, thread)), multiset{})
    ensures ThreadGone(ok, lines, out, pkg, thread)
  {
    hide Loaded, Clean, Classify;
    var was, now := Loaded(ok, ClassifyAll(lines)), Loaded(ok, ClassifyAll(out));
    OnlyAndWithout(was, pkg, thread);
    var m := multiset(Only(was, pkg, thread));
    assert multiset(now) == (multiset(now) + m) - m;
    assert multiset(now) == (multiset(was) + multiset{}) - m;
  }

  lemma DeletedThreadMeaning(ok: Verdict, lines: seq<string>, pkg: string, thread: string)
    requires Settled(ok, lines, pkg) && thread != ""
    ensures var out := DeletedThread(lines, pkg, thread);
            && (out.None? <==> Only(Loaded(ok, ClassifyAll(lines)), pkg, thread) == [])
            && (out.Some? ==> ThreadGone(ok, lines, out.value, pkg, thread))
  {
    hide Classify, Clean, Loaded, Only, Moves, PkgSafe, Stripped, ThreadGone, ThreadLocs, Recorded, CpuText;
    var cs := ClassifyAll(lines);
    var locs, rs := ThreadLocs(S.Scan(cs, pkg).hits, thread), Only(Loaded(ok, cs), pkg, thread);
    HitsAreThreadRules(ok, lines, pkg, thread);
    if locs != [] {
      AllTaken(ok, lines, pkg, locs, rs);
      GoneFromMoves(ok, lines, Stripped(lines, pkg, locs, 0), pkg, thread);
    }
  }

  lemma {:induction false} OnlyCounts(rs: seq<AffinityRule>, pkg: string, thread: string, r: AffinityRule)
    ensures multiset(Only(rs, pkg, thread))[r] ==
              if r.pkg == pkg && r.thread == thread then multiset(rs)[r] else 0
  {
    if rs != [] {
      OnlyCounts(rs[1..], pkg, thread, r);
      assert rs == [rs[0]] + rs[1..];
    }
  }

  lemma SameOnly(a: seq<AffinityRule>, b: seq<AffinityRule>, pkg: string, thread: string)
    requires multiset(a) == multiset(b)
    ensures multiset(Only(a, pkg, thread)) == multiset(Only(b, pkg, thread))
    ensures Only(a, pkg, thread) == [] <==> Only(b, pkg, thread) == []
  {
    hide Only;
    var x, y := Only(a, pkg, thread), Only(b, pkg, thread);
    forall r ensures multiset(x)[r] == multiset(y)[r] {
      OnlyCounts(a, pkg, thread, r);
      OnlyCounts(b, pkg, thread, r);
    }
    assert multiset(x) == multiset(y);
    assert |multiset(x)| == |x| && |multiset(y)| == |y|;
  }

  lemma GoneThrough(ok: Verdict, lines: seq<string>, moved: seq<string>, out: seq<string>, pkg: string, thread: string)
    requires SameRules(ok, lines, moved, pkg) && ThreadGone(ok, moved, out, pkg, thread)
    ensures ThreadGone(ok, lines, out, pkg, thread)
  {
    hide Classify, Clean, Loaded;
    SameMultiset(ok, lines, moved, pkg);
    SameWithout(Loaded(ok, ClassifyAll(lines)), Loaded(ok, ClassifyAll(moved)), pkg, thread);
  }

  lemma SameMultiset(ok: Verdict, lines: seq<string>, moved: seq<string>, pkg: string)
    requires SameRules(ok, lines, moved, pkg)
    ensures multiset(Loaded(ok, ClassifyAll(lines))) == multiset(Loaded(ok, ClassifyAll(moved)))
  {
    hide Classify, Loaded;
    var a, b := Loaded(ok, ClassifyAll(lines)), Loaded(ok, ClassifyAll(moved));
    assert multiset(b) + multiset{} == multiset(b) && multiset(a) + multiset{} == multiset(a);
  }

  lemma ThreadDeleted(ok: Verdict, lines: seq<string>, pkg: string, thread: string)
    requires Editable(ok, lines, pkg) && thread != "" && !(HasSingles(lines, pkg) && BraceInComment(lines, pkg))
    ensures var e := Deleted(lines, pkg, thread);
            && (e.answer == NotFound <==> Only(Loaded(ok, ClassifyAll(lines)), pkg, thread) == [])
            && (e.answer == NotFound ==> e.lines == lines)
            && (e.answer != NotFound ==> e.answer == Ok && ThreadGone(ok, lines, e.lines, pkg, thread))
  {
    hide Classify, Clean, Loaded, PkgSafe, SinglesSafe, Normalized, HasSingles, BraceInComment, CpuText,
         DeletedThread, Settled, SameRules, Only, ThreadGone;
    var moved := Normalized(lines, pkg);
    NormalizedSettled(ok, lines, pkg);
    DeletedThreadMeaning(ok, moved, pkg, thread);
    SameMultiset(ok, lines, moved, pkg);
    SameOnly(Loaded(ok, ClassifyAll(lines)), Loaded(ok, ClassifyAll(moved)), pkg, thread);
    if DeletedThread(moved, pkg, thread).Some? {
      GoneThrough(ok, lines, moved, DeletedThread(moved, pkg, thread).value, pkg, thread);
    }
  }

  lemma DeletedRuleMeaning(ok: Verdict, lines: seq<string>, pkg: string)
    requires Settled(ok, lines, pkg)
    ensures var cs, out := ClassifyAll(lines), DeletedRule(lines, pkg);
            && (out.None? <==> HeaderRules(cs, pkg) == multiset{})
            && (out.Some? ==>
                  && Clean(ok, ClassifyAll(out.value))
                  && Moves(ok, cs, ClassifyAll(out.value), pkg, HeaderRules(cs, pkg), multiset{}))
  {
    hide Classify, Clean, Loaded, Moves, PkgSafe, CpuText, NoSinglesFrom, BareOpenLine;
    var cs := ClassifyAll(lines);
    SafeName(pkg);
    var v := S.FirstHeader(cs, pkg, |cs|);
    match S.Scan(cs, pkg).pkgLine {
      case Some(Standalone(i)) =>
        DropHeaderRule(ok, cs, pkg, i, []);
        LineDropped(lines, i);
      case Some(OpenInline(i)) =>
        OpenLine(pkg);
        var raw := BareOpenLine(pkg);
        DropHeaderRule(ok, cs, pkg, i, [Classify(raw)]);
        LineReplaced(lines, i, raw);
      case _ =>
    }
  }

  lemma RuleDeleted(ok: Verdict, lines: seq<string>, pkg: string)
    requires Editable(ok, lines, pkg) && !(HasSingles(lines, pkg) && BraceInComment(lines, pkg))
    ensures var e, minus := Deleted(lines, pkg, ""), HeaderRules(ClassifyAll(Normalized(lines, pkg)), pkg);
            && (e.answer == NotFound <==> minus == multiset{})
            && (e.answer == NotFound ==> e.lines == lines)
            && (e.answer != NotFound ==>
                  && e.answer == Ok && Clean(ok, ClassifyAll(e.lines))
                  && Moves(ok, ClassifyAll(lines), ClassifyAll(e.lines), pkg, minus, multiset{}))
  {
    hide Classify, Clean, Loaded, PkgSafe, SinglesSafe, Normalized, HasSingles, BraceInComment, CpuText,
         DeletedRule, Settled, Moves, HeaderRules;
    var moved := Normalized(lines, pkg);
    NormalizedSettled(ok, lines, pkg);
    DeletedRuleMeaning(ok, moved, pkg);
    if DeletedRule(moved, pkg).Some? {
      var minus := HeaderRules(ClassifyAll(moved), pkg);
      MovesChain(ok, ClassifyAll(lines), ClassifyAll(moved), ClassifyAll(DeletedRule(moved, pkg).value), pkg,
                 multiset{}, multiset{}, minus, multiset{});
      var none: multiset<AffinityRule> := multiset{};
      assert none + minus == minus && none + none == none;
    }
  }

  /** On a file that normalizing damages, a deletion that answers "ok" writes the
      damage. */
  lemma DeleteDamages(ok: Verdict, lines: seq<string>, pkg: string, thread: string)
    requires Editable(ok, lines, pkg) && HasSingles(lines, pkg) && BraceInComment(lines, pkg)
    ensures var e := Deleted(lines, pkg, thread); e.answer == Ok ==> !Clean(ok, ClassifyAll(e.lines))
  {
    hide Classify, Clean, PkgSafe, SinglesSafe, Normalized, HasSingles, BraceInComment, CpuText, SpecVerdict,
         BrokenOpen, HasStrayClose, ThreadLocs, Stripped;
    var moved := Normalized(lines, pkg);
    var h, j := NormalizedBreaks(ok, lines, pkg);
    if thread == "" {
      BrokenRuleGone(moved, pkg, h, j);
      HasStrayFails(ok, ClassifyAll(moved[..h] + moved[h + 1..]));
    } else {
      var locs := ThreadLocs(S.Scan(ClassifyAll(moved), pkg).hits, thread);
      HitsAway(moved, pkg, h, j, thread);
      BrokenGone(moved, pkg, h, j, locs);
      HasStrayFails(ok, ClassifyAll(Stripped(moved, pkg, locs, 0)));
    }
  }

  /** `rule_delete` of a thread. Unless normalizing breaks the file, it answers "not found"
      exactly when the loader has no rule for the thread, and otherwise those rules, and no
      others, are gone. What is written is clean exactly when normalizing does not break the
      file. */
  lemma DeleteThread(ok: Verdict, lines: seq<string>, pkg: string, thread: string)
    requires Editable(ok, lines, pkg) && thread != ""
    ensures var e := Deleted(lines, pkg, thread);
            && (!NormalizingBreaks(lines, pkg) ==>
                  && (e.answer == NotFound <==> Only(Loaded(ok, ClassifyAll(lines)), pkg, thread) == [])
                  && (e.answer == Ok ==> ThreadGone(ok, lines, e.lines, pkg, thread)))
            && e.answer in {Ok, NotFound} && (e.answer == NotFound ==> e.lines == lines)
            && (e.answer == Ok ==> (Clean(ok, ClassifyAll(e.lines)) <==> !NormalizingBreaks(lines, pkg)))
  {
    hide Classify, Clean, Loaded, PkgSafe, SinglesSafe, Normalized, HasSingles, BraceInComment, DeletedThread, Only;
    if NormalizingBreaks(lines, pkg) {
      DeleteDamages(ok, lines, pkg, thread);
    } else {
      ThreadDeleted(ok, lines, pkg, thread);
    }
  }

  /** `rule_delete` of the package's own rule: the same for the rule on the package's first
      line. */
  lemma DeleteRule(ok: Verdict, lines: seq<string>, pkg: string)
    requires Editable(ok, lines, pkg)
    ensures var e, minus := Deleted(lines, pkg, ""), HeaderRules(ClassifyAll(Normalized(lines, pkg)), pkg);
            && (!NormalizingBreaks(lines, pkg) ==>
                  && (e.answer == NotFound <==> minus == multiset{})
                  && (e.answer == Ok ==> Moves(ok, ClassifyAll(lines), ClassifyAll(e.lines), pkg, minus, multiset{})))
            && e.answer in {Ok, NotFound} && (e.answer == NotFound ==> e.lines == lines)
            && (e.answer == Ok ==> (Clean(ok, ClassifyAll(e.lines)) <==> !NormalizingBreaks(lines, pkg)))
  {
    hide Classify, Clean, Loaded, PkgSafe, SinglesSafe, Normalized, HasSingles, BraceInComment, DeletedRule, Moves, HeaderRules;
    if NormalizingBreaks(lines, pkg) {
      DeleteDamages(ok, lines, pkg, "");
    } else {
      RuleDeleted(ok, lines, pkg);
    }
  }

  lemma BrokenRuleGone(out: seq<string>, pkg: string, h: nat, j: nat)
    requires BrokenOpen(out, pkg, h, j)
    ensures S.Scan(ClassifyAll(out), pkg).pkgLine == Some(S.Standalone(h))
    ensures HasStrayClose(ClassifyAll(out[..h] + out[h + 1..]))
  {
    hide Classify, HasComment, Printed, CpuText;
    var cs := ClassifyAll(out);
    HeaderIs(cs, pkg, h, |cs|);
    StrayAround(cs, h, j, h, h + 1, []);
    assert out[..h] + [] + out[h + 1..] == out[..h] + out[h + 1..];
    ClassifySplice(out, h, h + 1, []);
    assert ClassifyAll([]) == [];
  }

  lemma BrokenGone(out: seq<string>, pkg: string, h: nat, j: nat, locs: seq<S.ThreadLoc>)
    requires BrokenOpen(out, pkg, h, j) && AwayFrom(ClassifyAll(out), pkg, h, j, locs)
    ensures HasStrayClose(ClassifyAll(Stripped(out, pkg, locs, 0)))
  {
    hide Classify, HasComment, Printed, CpuText, Quiet;
    StrippedStray(out, pkg, h, j, locs, 0);
    var fixed := ClassifyAll(Stripped(out, pkg, locs, 0));
    var u: nat :| StrayClose(fixed, h, u);
  }
}
