/** `rule_delete_pkg`: a package and all its rules taken out of the file. */
module DeletingPkg {
  import opened Base
  import opened Lines
  import opened Syntax
  import opened Printing
  import opened Loader
  import opened Edits
  import opened Tracking
  import opened Taking
  import opened Stripping
  import opened Normalizing
  import opened SinglesMoved
  import opened RuleEdits
  import opened Upserting
  import opened Deleting
  import opened Purging
  import opened BrokenOpens
  import opened DamagedRounds
  import S = Scanner

  // ----- the removed lines as ranges

  lemma {:induction false} DroppedKeeps(lines: seq<string>, t: S.Target, a: nat, b: nat)
    requires a <= b <= |lines| && forall k | a <= k < b :: !Doomed(t, k)
    ensures Dropped(lines, t, b) == Dropped(lines, t, a) + lines[a..b]
  {
    if a < b {
      DroppedKeeps(lines, t, a, b - 1);
      assert !Doomed(t, b - 1) && lines[a..b] == lines[a..b - 1] + [lines[b - 1]];
    }
  }

  lemma {:induction false} DroppedSkips(lines: seq<string>, t: S.Target, a: nat, b: nat)
    requires a <= b <= |lines| && forall k | a <= k < b :: Doomed(t, k)
    ensures Dropped(lines, t, b) == Dropped(lines, t, a)
  {
    if a < b {
      DroppedSkips(lines, t, a, b - 1);
      assert Doomed(t, b - 1);
    }
  }

  lemma DoomedIs(t: S.Target, k: nat)
    requires t.pkgLine.Some? && SinglesOf(t.hits) == [] && (t.blockOpen.Some? ==> t.blockClose.Some?)
    ensures Doomed(t, k) <==>
              k == t.pkgLine.value.idx || (t.blockOpen.Some? && t.blockOpen.value <= k <= t.blockClose.value)
  {
  }

  lemma DroppedIs(lines: seq<string>, t: S.Target)
    requires t.pkgLine.Some? && t.pkgLine.value.idx < |lines| && SinglesOf(t.hits) == []
    requires t.blockOpen.Some? ==>
               t.blockClose.Some? && t.pkgLine.value.idx <= t.blockOpen.value < t.blockClose.value < |lines|
    ensures Dropped(lines, t, |lines|) == RoundLines(lines, t)
  {
    hide Doomed, Dropped, SinglesOf, RoundLines;
    var i := t.pkgLine.value.idx;
    forall k: nat ensures Doomed(t, k) <==>
                            k == i || (t.blockOpen.Some? && t.blockOpen.value <= k <= t.blockClose.value) {
      DoomedIs(t, k);
    }
    DroppedFront(lines, t, i);
    if t.blockOpen.None? {
      DroppedSkips(lines, t, i, i + 1);
      DroppedRest(lines, t, i + 1);
      RoundAlone(lines, t);
    } else {
      var o, c := t.blockOpen.value, t.blockClose.value;
      DroppedSkips(lines, t, o, c + 1);
      DroppedRest(lines, t, c + 1);
      if i < o {
        DroppedSkips(lines, t, i, i + 1);
        DroppedKeeps(lines, t, i + 1, o);
      }
      RoundBlock(lines, t);
    }
  }

  lemma RoundAlone(lines: seq<string>, t: S.Target)
    requires t.pkgLine.Some? && t.pkgLine.value.idx < |lines| && t.blockOpen.None?
    ensures RoundLines(lines, t) == lines[..t.pkgLine.value.idx] + lines[t.pkgLine.value.idx + 1..]
  {
  }

  lemma RoundBlock(lines: seq<string>, t: S.Target)
    requires t.pkgLine.Some? && t.pkgLine.value.idx < |lines| && t.blockOpen.Some? && t.blockClose.Some?
    requires t.pkgLine.value.idx <= t.blockOpen.value < t.blockClose.value < |lines|
    ensures var i, o, c := t.pkgLine.value.idx, t.blockOpen.value, t.blockClose.value;
            RoundLines(lines, t) == (if i < o then lines[..i] + lines[i + 1..o] else lines[..i]) + lines[c + 1..]
  {
  }

  lemma DroppedFront(lines: seq<string>, t: S.Target, i: nat)
    requires i <= |lines| && forall k | 0 <= k < i :: !Doomed(t, k)
    ensures Dropped(lines, t, i) == lines[..i]
  {
    DroppedKeeps(lines, t, 0, i);
    assert lines[0..i] == lines[..i];
  }

  lemma DroppedRest(lines: seq<string>, t: S.Target, i: nat)
    requires i <= |lines| && forall k | i <= k < |lines| :: !Doomed(t, k)
    ensures Dropped(lines, t, |lines|) == Dropped(lines, t, i) + lines[i..]
  {
    DroppedKeeps(lines, t, i, |lines|);
    assert lines[i..|lines|] == lines[i..];
  }

  lemma RoundClassified(lines: seq<string>, t: S.Target)
    requires t.pkgLine.Some? && t.pkgLine.value.idx < |lines|
    requires t.blockOpen.Some? ==>
               t.blockClose.Some? && t.pkgLine.value.idx <= t.blockOpen.value < t.blockClose.value < |lines|
    ensures ClassifyAll(RoundLines(lines, t)) == RoundLines(ClassifyAll(lines), t)
  {
    hide Classify;
  }

  // ----- all rounds

  lemma {:induction false} NoLoneNoSingles(ok: Verdict, cs: seq<Line>, pkg: string, n: nat)
    requires Hard(ok, START, cs) == 0 && NoLone(cs, pkg) && n <= |cs|
    ensures SinglesOf(S.HitsTo(cs, pkg, n)) == []
  {
    hide Hard, EventAt, S.HitAt;
    if n > 0 {
      NoLoneNoSingles(ok, cs, pkg, n - 1);
      SingleLocsNext(cs, pkg, n - 1);
      SingleIsLone(ok, cs, pkg, n - 1);
    }
  }

  lemma SingleIsLone(ok: Verdict, cs: seq<Line>, pkg: string, k: nat)
    requires Hard(ok, START, cs) == 0 && k < |cs|
    ensures S.HitAt(cs, pkg, k).Some? && S.HitAt(cs, pkg, k).value.loc.single ==> EventAt(cs, pkg, k) == [Lone]
  {
    SoundLine(ok, cs, k);
  }

  /** What is kept from round to round. */
  ghost predicate Purgeable(ok: Verdict, lines: seq<string>, pkg: string)
  {
    Sound(ok, ClassifyAll(lines)) && NoLone(ClassifyAll(lines), pkg) && pkg != ""
  }

  lemma RoundKept(ok: Verdict, lines: seq<string>, pkg: string)
    requires Purgeable(ok, lines, pkg) && AnyLine(S.Scan(ClassifyAll(lines), pkg))
    ensures |RoundOf(lines, pkg)| < |lines| && Purgeable(ok, RoundOf(lines, pkg), pkg)
    ensures Rounded(ok, ClassifyAll(lines), ClassifyAll(RoundOf(lines, pkg)), pkg)
    ensures Events(START, ClassifyAll(lines), pkg) != []
  {
    hide Classify, EventAt, Events, Hard, S.OpenTo, S.CloseTo, S.HeaderTo, S.HitsTo, NoLone, Dropped, SinglesOf, Others,
         RoundOut, Dangling, FailCount;
    var cs := ClassifyAll(lines);
    var t := S.Scan(cs, pkg);
    NoLoneNoSingles(ok, cs, pkg, |cs|);
    RoundMeaning(ok, cs, pkg);
    DroppedIs(lines, t);
    RoundClassified(lines, t);
    hide RoundLines;
    RoundShorter(lines, t);
    LoneIs(cs, pkg);
    LoneIs(ClassifyAll(RoundOf(lines, pkg)), pkg);
    SomeEvent(ok, cs, pkg);
    RoundOutLess(Events(START, cs, pkg));
  }

  lemma RoundShorter(lines: seq<string>, t: S.Target)
    requires t.pkgLine.Some? && t.pkgLine.value.idx < |lines|
    requires t.blockOpen.Some? ==>
               t.blockClose.Some? && t.pkgLine.value.idx <= t.blockOpen.value < t.blockClose.value < |lines|
    ensures |RoundLines(lines, t)| < |lines|
  {
  }

  lemma SomeEvent(ok: Verdict, cs: seq<Line>, pkg: string)
    requires Sound(ok, cs) && pkg != "" && NoLone(cs, pkg) && S.Scan(cs, pkg).pkgLine.Some?
    ensures Events(START, cs, pkg) != []
  {
    hide EventAt, Events, S.OpenTo, S.CloseTo, S.HitsTo;
    var v := FirstEvent(ok, cs, pkg);
    EventsCut(ok, cs, pkg, v, v + 1);
    EventsNext(cs, pkg, v, v);
  }

  lemma NoneLeft(ok: Verdict, lines: seq<string>, pkg: string)
    requires Purgeable(ok, lines, pkg) && !AnyLine(S.Scan(ClassifyAll(lines), pkg))
    ensures Events(START, ClassifyAll(lines), pkg) == []
    ensures Loaded(ok, ClassifyAll(lines)) == Others(Loaded(ok, ClassifyAll(lines)), pkg)
  {
    hide Classify, EventAt, Events, S.OpenTo, S.CloseTo, S.HitsTo;
    var cs := ClassifyAll(lines);
    var v := S.FirstHeader(cs, pkg, |cs|);
    forall k | 0 <= k < |cs| ensures EventAt(cs, pkg, k) == [] {
      HeaderIsEvent(ok, cs, pkg, k);
    }
    QuietEvents(cs, pkg, 0, |cs|);
    StartAt(cs);
    assert cs[0..|cs|] == cs;
    NoEventsNoRules(ok, START, cs, pkg);
    OthersOfAll(Loaded(ok, cs), pkg);
  }

  /** The rounds end with a file whose rules are those of the other packages, in their
      order; each stranded package line costs one failure. */
  lemma {:induction false} PurgedMeaning(ok: Verdict, lines: seq<string>, pkg: string)
    requires Purgeable(ok, lines, pkg)
    ensures var cs, os := ClassifyAll(lines), ClassifyAll(Purged(lines, pkg));
            && Loaded(ok, os) == Others(Loaded(ok, cs), pkg) && Sound(ok, os)
            && FailCount(ok, os) == FailCount(ok, cs) + Stranded(Events(START, cs, pkg))
    decreases |lines|
  {
    hide Classify, Events, Sound, NoLone, FailCount, Loaded, Others, AnyLine, RoundOut, Dangling;
    if AnyLine(S.Scan(ClassifyAll(lines), pkg)) {
      RoundKept(ok, lines, pkg);
      PurgedMeaning(ok, RoundOf(lines, pkg), pkg);
    } else {
      NoneLeft(ok, lines, pkg);
    }
  }

  lemma NothingStranded(es: seq<Event>)
    requires es == []
    ensures Stranded(es) == 0
  {
  }

  lemma SettledNoLone(ok: Verdict, lines: seq<string>, pkg: string)
    requires Settled(ok, lines, pkg)
    ensures Purgeable(ok, lines, pkg)
  {
    hide Classify;
    var cs := ClassifyAll(lines);
    SafeName(pkg);
    CleanEnd(ok, cs);
    forall k | 0 <= k < |cs| ensures EventAt(cs, pkg, k) != [Lone] {
      assert !SingleAt(cs, pkg, k);
    }
  }

  lemma PkgDeleted(ok: Verdict, lines: seq<string>, pkg: string)
    requires Editable(ok, lines, pkg) && !(HasSingles(lines, pkg) && BraceInComment(lines, pkg))
    ensures var e := DeletedPkg(lines, pkg);
            var events := Events(START, ClassifyAll(Normalized(lines, pkg)), pkg);
            && (e.answer == NotFound <==> events == [])
            && (e.answer == NotFound ==> e.lines == lines)
            && (e.answer != NotFound ==> e.answer == Ok)
            && Loaded(ok, ClassifyAll(e.lines)) == Others(Loaded(ok, ClassifyAll(lines)), pkg)
            && FailCount(ok, ClassifyAll(e.lines)) == Unpaired(events, 0) && Sound(ok, ClassifyAll(e.lines))
  {
    hide Classify, Loaded, PkgSafe, SinglesSafe, Normalized, HasSingles, BraceInComment, CpuText, HeaderLine,
         Events, Sound, NoLone, FailCount, Others, AnyLine, Purged, Settled, Stranded, Unpaired;
    var moved := Normalized(lines, pkg);
    var cs := ClassifyAll(moved);
    NormalizedSettled(ok, lines, pkg);
    SettledNoLone(ok, moved, pkg);
    CleanCounts(ok, lines, moved, pkg);
    if AnyLine(S.Scan(cs, pkg)) {
      RoundKept(ok, moved, pkg);
      PurgedMeaning(ok, moved, pkg);
      StrandedIsUnpaired(Events(START, cs, pkg));
    } else {
      NoneLeft(ok, moved, pkg);
      NothingLeft(ok, lines, moved, pkg);
      CleanEnd(ok, ClassifyAll(lines));
      NothingStranded([]);
      StrandedIsUnpaired([]);
    }
  }

  /** `rule_delete_pkg` leaves a file without a hard failure exactly when normalizing does
      not break it. Then no rule of the package is left and every other rule is in its
      place, and the failures are the package lines whose block went with a rule that
      stands alone. Otherwise the stray brace outlives every round. */
  lemma DeletePkg(ok: Verdict, lines: seq<string>, pkg: string)
    requires Editable(ok, lines, pkg)
    ensures var e, breaks := DeletedPkg(lines, pkg), NormalizingBreaks(lines, pkg);
            var events := Events(START, ClassifyAll(Normalized(lines, pkg)), pkg);
            && (e.answer == NotFound <==> !breaks && events == [])
            && (e.answer == NotFound ==> e.lines == lines)
            && (e.answer != NotFound ==> e.answer == Ok)
            && (Sound(ok, ClassifyAll(e.lines)) <==> !breaks)
            && (Clean(ok, ClassifyAll(e.lines)) <==> !breaks && Unpaired(events, 0) == 0)
            && (!breaks ==>
                  && Loaded(ok, ClassifyAll(e.lines)) == Others(Loaded(ok, ClassifyAll(lines)), pkg)
                  && FailCount(ok, ClassifyAll(e.lines)) == Unpaired(events, 0))
  {
    hide Classify, Loaded, PkgSafe, SinglesSafe, Normalized, HasSingles, BraceInComment, Events, Sound, FailCount, Others,
         AnyLine, Purged, Unpaired, Damaged, SpecVerdict, BrokenOpen;
    if NormalizingBreaks(lines, pkg) {
      var h, j := NormalizedBreaks(ok, lines, pkg);
      BrokenIsDamaged(Normalized(lines, pkg), pkg, h, j);
      var u := PurgedDamaged(Normalized(lines, pkg), pkg, h, j);
      DamagedFails(ok, ClassifyAll(Purged(Normalized(lines, pkg), pkg)), pkg, h, u);
    } else {
      PkgDeleted(ok, lines, pkg);
    }
  }

  lemma CleanCounts(ok: Verdict, lines: seq<string>, moved: seq<string>, pkg: string)
    requires Editable(ok, lines, pkg) && Settled(ok, moved, pkg) && SameRules(ok, lines, moved, pkg)
    ensures FailCount(ok, ClassifyAll(lines)) == 0 == FailCount(ok, ClassifyAll(moved))
    ensures Others(Loaded(ok, ClassifyAll(moved)), pkg) == Others(Loaded(ok, ClassifyAll(lines)), pkg)
  {
    hide Classify, Loaded, PkgSafe, SinglesSafe;
  }

  lemma NothingLeft(ok: Verdict, lines: seq<string>, moved: seq<string>, pkg: string)
    requires SameRules(ok, lines, moved, pkg)
    requires Loaded(ok, ClassifyAll(moved)) == Others(Loaded(ok, ClassifyAll(moved)), pkg)
    ensures Loaded(ok, ClassifyAll(lines)) == Others(Loaded(ok, ClassifyAll(lines)), pkg)
  {
    hide Classify, Loaded, Others;
    var a, b := Loaded(ok, ClassifyAll(lines)), Loaded(ok, ClassifyAll(moved));
    SameMultiset(ok, lines, moved, pkg);
    OthersNone(b, pkg);
    forall r | r in a ensures r.pkg != pkg {
      assert r in multiset(a) && r in multiset(b) && r in b;
    }
    OthersOfAll(a, pkg);
  }

  lemma {:induction false} OthersNone(rs: seq<AffinityRule>, pkg: string)
    ensures forall r | r in Others(rs, pkg) :: r.pkg != pkg
  {
    if rs != [] {
      OthersNone(rs[1..], pkg);
    }
  }
}
