/** What the edits of single rules do to a file with any failure but a stray opening brace. */
module RoughEdits {
  import opened Base
  import opened Text
  import opened Lines
  import opened Syntax
  import opened Printing
  import opened Loader
  import opened Edits
  import opened Tracking
  import opened Swapping
  import opened SwappedSingles
  import opened Headers
  import opened Taking
  import opened Stripping
  import opened Normalizing
  import opened RuleEdits
  import opened RuleFiles
  import opened BrokenOpens
  import opened Upserting
  import opened Purging
  import opened StrayBraces
  import opened RoughRounds
  import opened RoughNormalizing
  import opened Written
  import S = Scanner
  import Answers
  import Deleting
  import SafeEdits

  // ----- lines of the package that give way to others

  /** Lines i to j give way to others that lead to the same rules behind them. */
  lemma SpliceMoves(ok: Verdict, cs: seq<Line>, pkg: string, i: nat, j: nat, mid: seq<Line>)
    requires i <= j <= |cs| && NoStray(START, cs)
    requires var s := StateAt(cs, i);
             && NoStray(s, mid + cs[j..]) && Rules(ok, After(s, mid), cs[j..]) == Rules(ok, StateAt(cs, j), cs[j..])
             && AllOf(Rules(ok, s, cs[i..j]), pkg) && AllOf(Rules(ok, s, mid), pkg)
    ensures var s, out := StateAt(cs, i), cs[..i] + mid + cs[j..];
            && NoStray(START, out)
            && Moves(ok, cs, out, pkg, multiset(Rules(ok, s, cs[i..j])), multiset(Rules(ok, s, mid)))
  {
    hide NoStray, Rules, After, AllOf, Others;
    var a, m, z := cs[..i], cs[i..j], cs[j..];
    assert cs == a + (m + z) && a + mid + z == a + (mid + z) && cs[..j] == a + m;
    AfterConcat(START, a, m);
    NoStrayConcat(START, a, m + z);
    NoStrayConcat(START, a, mid + z);
    RulesPut(ok, a, m, mid, z, pkg);
  }

  /** One line gives way to another that leads to the same place and is no stray brace. */
  lemma LineMoves(ok: Verdict, cs: seq<Line>, pkg: string, i: nat, d: Line)
    requires i < |cs| && NoStray(START, cs) && Step(StateAt(cs, i), d) == Step(StateAt(cs, i), cs[i]) && !StrayOpen(StateAt(cs, i), d)
    requires AllOf(Emit(ok, StateAt(cs, i), cs[i]), pkg) && AllOf(Emit(ok, StateAt(cs, i), d), pkg)
    ensures NoStray(START, cs[i := d])
    ensures var s := StateAt(cs, i); Moves(ok, cs, cs[i := d], pkg, multiset(Emit(ok, s, cs[i])), multiset(Emit(ok, s, d)))
  {
    hide NoStray, Rules, After, AllOf, Moves, StrayOpen, Step, Emit;
    var s := StateAt(cs, i);
    assert cs[i..i + 1] == [cs[i]] && cs[i := d] == cs[..i] + [d] + cs[i + 1..];
    One(ok, s, cs[i]);
    One(ok, s, d);
    NoStrayOne(s, d);
    StateAtNext(cs, i);
    StraySuffix(cs, i + 1);
    NoStrayConcat(s, [d], cs[i + 1..]);
    SpliceMoves(ok, cs, pkg, i, i + 1, [d]);
  }

  /** A line outside every block that opens none goes. */
  lemma DropMoves(ok: Verdict, cs: seq<Line>, pkg: string, i: nat)
    requires i < |cs| && NoStray(START, cs) && AllOf(Emit(ok, StateAt(cs, i), cs[i]), pkg)
    requires var s := StateAt(cs, i); Step(s, cs[i]) == s || (!s.inBlock && Step(s, cs[i]) == START)
    ensures var out := cs[..i] + cs[i + 1..];
            NoStray(START, out) && Moves(ok, cs, out, pkg, multiset(Emit(ok, StateAt(cs, i), cs[i])), multiset{})
  {
    hide NoStray, Rules, After, AllOf, Moves, Step, Emit;
    var s, z := StateAt(cs, i), cs[i + 1..];
    assert cs[i..i + 1] == [cs[i]] && cs[..i] + [] + z == cs[..i] + z && [] + z == z;
    One(ok, s, cs[i]);
    StateAtNext(cs, i);
    StraySuffix(cs, i + 1);
    NothingRun(ok, s);
    if !s.inBlock {
      NoCurrentOutside(cs, i);
      if Step(s, cs[i]) == START {
        PendMoot(ok, s.pend, z);
      }
    }
    NoneOf(pkg);
    SpliceMoves(ok, cs, pkg, i, i + 1, []);
  }

  lemma NothingRun(ok: Verdict, s: State)
    ensures After(s, []) == s && Rules(ok, s, []) == []
  {
  }

  lemma NoneOf(pkg: string)
    ensures AllOf([], pkg)
  {
  }

  // ----- a thread's places

  /** `line_remove` at a place of the thread takes out its rule and nothing else. */
  lemma RemovedMoves(ok: Verdict, cur: seq<string>, pkg: string, thread: string, loc: S.ThreadLoc)
    requires NoStray(START, ClassifyAll(cur)) && loc.idx < |cur| && PkgSafe(pkg)
    requires HoldsThread(StateAt(ClassifyAll(cur), loc.idx), ClassifyAll(cur)[loc.idx], pkg, thread, loc)
    ensures var cs, out := ClassifyAll(cur), ClassifyAll(LineRemoved(cur, pkg, loc));
            NoStray(START, out) && Moves(ok, cs, out, pkg, multiset(Emit(ok, StateAt(cs, loc.idx), cs[loc.idx])), multiset{})
  {
    hide NoStray, After, Moves, Classify, PkgSafe, RemovalLines, AllOf, Emit, Step, HoldsThread, Removal;
    var i := loc.idx;
    var cs := ClassifyAll(cur);
    var s, c := StateAt(cs, i), cs[i];
    var mid := ClassifyAll(RemovalLines(cur[i], pkg, loc));
    HoldsText(s, c, pkg, thread, loc);
    NotSkippedText(cur[i]);
    RemovalClasses(cur[i], pkg, loc);
    SafeName(pkg);
    ClassifySplice(cur, i, i + 1, RemovalLines(cur[i], pkg, loc));
    if !s.inBlock {
      NoCurrentOutside(cs, i);
    }
    PlaceFacts(ok, s, c, pkg, thread, loc, mid);
    if mid == [] {
      assert cs[..i] + [] + cs[i + 1..] == cs[..i] + cs[i + 1..];
      DropMoves(ok, cs, pkg, i);
    } else {
      assert mid == [mid[0]] && cs[..i] + mid + cs[i + 1..] == cs[i := mid[0]];
      LineMoves(ok, cs, pkg, i, mid[0]);
    }
  }

  lemma PlaceFacts(ok: Verdict, s: State, c: Line, pkg: string, thread: string, loc: S.ThreadLoc, mid: seq<Line>)
    requires HoldsThread(s, c, pkg, thread, loc) && Removal(loc, pkg, mid) && pkg != "" && (!s.inBlock ==> s.cur == "")
    ensures AllOf(Emit(ok, s, c), pkg) && |mid| <= 1
    ensures mid == [] ==> Step(s, c) == s || (!s.inBlock && Step(s, c) == START)
    ensures mid != [] ==> Step(s, mid[0]) == Step(s, c) && !StrayOpen(s, mid[0]) && Emit(ok, s, mid[0]) == [] && AllOf([], pkg)
  {
  }

  /** The rules on the lines at locs[k..]. */
  function PlaceRules(ok: Verdict, cs: seq<Line>, locs: seq<S.ThreadLoc>, k: nat): seq<AffinityRule>
    decreases |locs| - k
  {
    if k >= |locs| then []
    else
      var i := locs[k].idx;
      (if i < |cs| then Emit(ok, StateAt(cs, i), cs[i]) else []) + PlaceRules(ok, cs, locs, k + 1)
  }

  lemma {:induction false} PlacesMove(ok: Verdict, a: seq<string>, pkg: string, thread: string, locs: seq<S.ThreadLoc>, k: nat)
    requires Places(a, pkg, thread, locs) && NoStray(START, ClassifyAll(a)) && PkgSafe(pkg) && k <= |locs|
    ensures var cur, b := Stripped(a, pkg, locs, k), Bound(locs, k, |a|);
            && b <= |cur| && b <= |a| && cur[..b] == a[..b] && NoStray(START, ClassifyAll(cur))
            && Moves(ok, ClassifyAll(a), ClassifyAll(cur), pkg, multiset(PlaceRules(ok, ClassifyAll(a), locs, k)), multiset{})
    decreases |locs| - k
  {
    hide NoStray, After, Moves, Classify, PkgSafe, RemovalLines, Emit, Step, HoldsThread, PlaceRules, LineRemoved;
    var cs := ClassifyAll(a);
    if k == |locs| {
      NoMoves(ok, cs, pkg);
      NoPlaces(ok, cs, locs, k);
    } else {
      PlacesMove(ok, a, pkg, thread, locs, k + 1);
      var cur, b, i := Stripped(a, pkg, locs, k + 1), Bound(locs, k + 1, |a|), locs[k].idx;
      var ds := ClassifyAll(cur);
      assert cur[..i] == cur[..b][..i] == a[..b][..i] == a[..i];
      assert cur[i] == cur[..b][i] == a[..b][i] == a[i];
      assert ds[..i] == cs[..i] && ds[i] == cs[i];
      RemovedMoves(ok, cur, pkg, thread, locs[k]);
      FrontStays(cur, pkg, locs[k]);
      PlacesNext(ok, cs, locs, k);
      GoneChain(ok, cs, ds, ClassifyAll(LineRemoved(cur, pkg, locs[k])), pkg, multiset(PlaceRules(ok, cs, locs, k + 1)),
                multiset(Emit(ok, StateAt(cs, i), cs[i])), multiset{});
    }
  }

  lemma GoneChain(ok: Verdict, a: seq<Line>, b: seq<Line>, c: seq<Line>, pkg: string, m: multiset<AffinityRule>, n: multiset<AffinityRule>,
                  plus: multiset<AffinityRule>)
    requires Moves(ok, a, b, pkg, m, multiset{}) && Moves(ok, b, c, pkg, n, plus)
    ensures Moves(ok, a, c, pkg, n + m, plus)
  {
    hide Moves;
    MovesChain(ok, a, b, c, pkg, m, multiset{}, n, plus);
    assert m + n == n + m && multiset{} + plus == plus;
  }

  lemma NoMoves(ok: Verdict, cs: seq<Line>, pkg: string)
    ensures Moves(ok, cs, cs, pkg, multiset{}, multiset{})
  {
  }

  lemma NoPlaces(ok: Verdict, cs: seq<Line>, locs: seq<S.ThreadLoc>, k: nat)
    requires k >= |locs|
    ensures PlaceRules(ok, cs, locs, k) == [] && multiset(PlaceRules(ok, cs, locs, k)) == multiset{}
  {
  }

  lemma PlacesNext(ok: Verdict, cs: seq<Line>, locs: seq<S.ThreadLoc>, k: nat)
    requires k < |locs| && locs[k].idx < |cs|
    ensures var i := locs[k].idx;
            multiset(PlaceRules(ok, cs, locs, k)) == multiset(Emit(ok, StateAt(cs, i), cs[i])) + multiset(PlaceRules(ok, cs, locs, k + 1))
  {
  }

  lemma FrontStays(cur: seq<string>, pkg: string, loc: S.ThreadLoc)
    requires loc.idx < |cur|
    ensures var out := LineRemoved(cur, pkg, loc); loc.idx <= |out| && out[..loc.idx] == cur[..loc.idx]
  {
  }

  lemma {:induction false} PlacesSnoc(ok: Verdict, cs: seq<Line>, locs: seq<S.ThreadLoc>, l: S.ThreadLoc, k: nat)
    requires k <= |locs| && l.idx < |cs|
    ensures PlaceRules(ok, cs, locs + [l], k) == PlaceRules(ok, cs, locs, k) + Emit(ok, StateAt(cs, l.idx), cs[l.idx])
    decreases |locs| - k
  {
    hide Emit, StateAt;
    var all := locs + [l];
    if k < |locs| {
      PlacesSnoc(ok, cs, locs, l, k + 1);
      assert all[k] == locs[k];
    } else {
      assert all[k] == l && PlaceRules(ok, cs, all, k + 1) == [];
    }
  }

  /** The rules at the recorded places are the loader's rules of the thread. */
  lemma {:induction false} PlacesAreRules(ok: Verdict, lines: seq<string>, pkg: string, thread: string, n: nat)
    requires S.NoOrphans(ClassifyAll(lines), |lines|) && n <= |lines| && thread != ""
    ensures var cs := ClassifyAll(lines);
            PlaceRules(ok, cs, ThreadLocs(S.HitsTo(cs, pkg, n), thread), 0) == Only(Rules(ok, START, cs[..n]), pkg, thread)
  {
    hide Classify, S.HitAt, S.HitsTo, ThreadLocs, Emit, Asked, Rules, S.NoOrphans, After, Only;
    var cs := ClassifyAll(lines);
    if n == 0 {
      NothingRead(ok, cs, pkg, thread);
    } else {
      var m := n - 1;
      PlacesAreRules(ok, lines, pkg, thread, m);
      ThreadLocsNext(cs, pkg, thread, m);
      assert cs[..n] == cs[..m] + [cs[m]];
      Concat(ok, START, cs[..m], [cs[m]]);
      One(ok, StateAt(cs, m), cs[m]);
      OnlyConcat(Rules(ok, START, cs[..m]), Emit(ok, StateAt(cs, m), cs[m]), pkg, thread);
      assert Named(Classify(lines[m]));
      S.HitsAreLoaderLines(cs, pkg, m);
      S.HitIndex(cs, pkg, m);
      OnlyOfLine(ok, StateAt(cs, m), cs[m], pkg, thread);
      var h, locs := S.HitAt(cs, pkg, m), ThreadLocs(S.HitsTo(cs, pkg, m), thread);
      if h.Some? && h.value.name == thread {
        PlacesSnoc(ok, cs, locs, h.value.loc, 0);
      } else {
        assert locs + [] == locs;
      }
    }
  }

  lemma NothingRead(ok: Verdict, cs: seq<Line>, pkg: string, thread: string)
    ensures PlaceRules(ok, cs, ThreadLocs(S.HitsTo(cs, pkg, 0), thread), 0) == Only(Rules(ok, START, cs[..0]), pkg, thread)
  {
  }

  lemma OnlyOfLine(ok: Verdict, s: State, c: Line, pkg: string, thread: string)
    ensures Only(Emit(ok, s, c), pkg, thread) ==
              if Asked(s, c) != [] && Asked(s, c)[0].pkg == pkg && Asked(s, c)[0].thread == thread then Emit(ok, s, c) else []
  {
  }

  lemma ThreadPlaces(lines: seq<string>, pkg: string, thread: string)
    requires S.NoOrphans(ClassifyAll(lines), |lines|)
    ensures Places(lines, pkg, thread, ThreadLocs(S.Scan(ClassifyAll(lines), pkg).hits, thread))
  {
    hide Classify, S.HitAt, ThreadLocs, S.HitsTo, S.NoOrphans, HoldsThread, After;
    var cs := ClassifyAll(lines);
    var locs := ThreadLocs(S.Scan(cs, pkg).hits, thread);
    HitsNamed(cs, pkg, thread, |cs|);
    HitsOf(cs, pkg, thread, |cs|);
    forall k | 0 <= k < |locs| ensures locs[k].idx < |cs| && HoldsThread(StateAt(cs, locs[k].idx), cs[locs[k].idx], pkg, thread, locs[k]) {
      assert locs[k] in locs;
      HoldsHit(cs, pkg, thread, locs[k]);
    }
  }

  /** The rules of a thread go, and no others. */
  lemma ThreadDropped(ok: Verdict, lines: seq<string>, pkg: string, thread: string)
    requires NoStray(START, ClassifyAll(lines)) && PkgSafe(pkg) && thread != ""
    ensures var cs := ClassifyAll(lines);
            var out := ClassifyAll(Stripped(lines, pkg, ThreadLocs(S.Scan(cs, pkg).hits, thread), 0));
            NoStray(START, out) && Moves(ok, cs, out, pkg, multiset(Only(Loaded(ok, cs), pkg, thread)), multiset{})
  {
    hide NoStray, Moves, Classify, PkgSafe, PlaceRules, Stripped, ThreadLocs, Places, S.HitsTo, S.NoOrphans, Only;
    var cs := ClassifyAll(lines);
    NoneStray(cs);
    ThreadPlaces(lines, pkg, thread);
    PlacesMove(ok, lines, pkg, thread, ThreadLocs(S.Scan(cs, pkg).hits, thread), 0);
    PlacesAreRules(ok, lines, pkg, thread, |lines|);
    assert cs[..|lines|] == cs;
  }

  // ----- the deletion of a thread's rules

  /** Files the results are about: no stray opening brace, and single-line rules that can be
      moved. */
  ghost predicate Workable(lines: seq<string>, pkg: string)
  {
    PkgSafe(pkg) && NoStray(START, ClassifyAll(lines)) && MovesWell(lines, pkg)
  }

  lemma NormalizedMoves(ok: Verdict, lines: seq<string>, pkg: string)
    requires Workable(lines, pkg)
    ensures var cs, os := ClassifyAll(lines), ClassifyAll(Normalized(lines, pkg));
            && NoStray(START, os) && Round(os, pkg, |os|) && Moves(ok, cs, os, pkg, multiset{}, multiset{})
            && multiset(Loaded(ok, os)) == multiset(Loaded(ok, cs))
  {
    hide NoStray, Loaded, Others, Classify, PkgSafe, Normalized, MovesWell, MovesSingles, Round, Accepts;
    NormalizedRough(ok, lines, pkg);
  }

  /** Whatever else is wrong with the file: after the edit the rules of the thread are gone,
      all others are there as often as before, and those of other packages in their order. */
  lemma DeleteThreadRough(ok: Verdict, lines: seq<string>, pkg: string, thread: string)
    requires Workable(lines, pkg) && thread != ""
    ensures var cs := ClassifyAll(lines);
            Moves(ok, cs, ClassifyAll(Deleted(lines, pkg, thread).lines), pkg, multiset(Only(Loaded(ok, cs), pkg, thread)), multiset{})
  {
    hide Moves, Classify, Workable, Normalized, Only, Loaded, NoStray, Round, S.HitsTo, ThreadLocs, Stripped, PkgSafe;
    var cs, moved := ClassifyAll(lines), Normalized(lines, pkg);
    NormalizedMoves(ok, lines, pkg);
    WorkableName(lines, pkg);
    Deleting.SameOnly(Loaded(ok, cs), Loaded(ok, ClassifyAll(moved)), pkg, thread);
    ThreadDropped(ok, moved, pkg, thread);
    var gone := multiset(Only(Loaded(ok, cs), pkg, thread));
    var locs := ThreadLocs(S.Scan(ClassifyAll(moved), pkg).hits, thread);
    GoneChain(ok, cs, ClassifyAll(moved), ClassifyAll(Stripped(moved, pkg, locs, 0)), pkg, multiset{}, gone, multiset{});
    assert gone + multiset{} == gone;
    if locs == [] {
      NoThread(ok, moved, pkg, thread);
      NoMoves(ok, cs, pkg);
    }
  }

  lemma WorkableName(lines: seq<string>, pkg: string)
    requires Workable(lines, pkg)
    ensures PkgSafe(pkg)
  {
  }

  /** Without a place there is nothing to take out. */
  lemma NoThread(ok: Verdict, lines: seq<string>, pkg: string, thread: string)
    requires NoStray(START, ClassifyAll(lines)) && thread != ""
    requires ThreadLocs(S.Scan(ClassifyAll(lines), pkg).hits, thread) == []
    ensures Only(Loaded(ok, ClassifyAll(lines)), pkg, thread) == []
  {
    hide NoStray, Classify, ThreadLocs, S.HitsTo, S.NoOrphans, Only, PlaceRules;
    var cs := ClassifyAll(lines);
    NoneStray(cs);
    PlacesAreRules(ok, lines, pkg, thread, |lines|);
    NoPlaces(ok, cs, [], 0);
    assert cs[..|lines|] == cs;
  }

  // ----- the package's own rule

  /** Line i is the first that names the package, and holds its rule. */
  predicate FirstRule(cs: seq<Line>, pkg: string, i: nat)
  {
    i < |cs| && Answers.FirstHeaded(cs, pkg, i) && cs[i].outer.Rule?
  }

  /** The rules on that line give way to `plus`; without such a line `plus` comes in. */
  ghost predicate FirstMoves(ok: Verdict, cs: seq<Line>, ms: seq<Line>, out: seq<Line>, pkg: string, plus: multiset<AffinityRule>)
  {
    && (forall i: nat | FirstRule(ms, pkg, i) :: Moves(ok, cs, out, pkg, multiset(Emit(ok, StateAt(ms, i), ms[i])), plus))
    && ((forall i: nat :: !FirstRule(ms, pkg, i)) ==> Moves(ok, cs, out, pkg, multiset{}, plus))
  }

  lemma FirstIs(cs: seq<Line>, pkg: string)
    requires S.NoOrphans(cs, |cs|)
    ensures var h := S.Scan(cs, pkg).pkgLine;
            if h.Some? && (h.value.Standalone? || h.value.OpenInline?)
            then FirstRule(cs, pkg, h.value.idx) && forall i: nat | FirstRule(cs, pkg, i) :: i == h.value.idx
            else forall i: nat :: !FirstRule(cs, pkg, i)
  {
    hide S.HeaderAt, Answers.Headed;
    var v := S.FirstHeader(cs, pkg, |cs|);
    forall i | 0 <= i < |cs| ensures S.HeaderAt(cs, pkg, i).Some? <==> Answers.Headed(cs, pkg, i) {
      Answers.HeaderIsHeaded(cs, pkg, i);
    }
    if v < |cs| {
      Answers.HeaderIsHeaded(cs, pkg, v);
      Answers.HeadedText(cs, pkg, v);
      Answers.OnlyFirst(cs, pkg, v);
    }
  }

  /** The first line holds a rule: it is replaced by other lines in its place. */
  lemma FirstFrom(ok: Verdict, cs: seq<Line>, out: seq<Line>, pkg: string, i: nat, plus: multiset<AffinityRule>)
    requires S.NoOrphans(cs, |cs|) && i < |cs|
    requires var h := S.Scan(cs, pkg).pkgLine; h == Some(S.Standalone(i)) || h == Some(S.OpenInline(i))
    requires Moves(ok, cs, out, pkg, multiset(Emit(ok, StateAt(cs, i), cs[i])), plus)
    ensures FirstMoves(ok, cs, cs, out, pkg, plus)
  {
    hide S.HeaderTo, S.HitsTo, S.OpenTo, S.CloseTo, FirstRule, Emit, StateAt, Moves;
    FirstIs(cs, pkg);
  }

  lemma FirstHolds(ok: Verdict, cs: seq<Line>, pkg: string, i: nat)
    requires S.NoOrphans(cs, |cs|) && NoStray(START, cs)
    requires var h := S.Scan(cs, pkg).pkgLine; h == Some(S.Standalone(i)) || h == Some(S.OpenInline(i))
    ensures i < |cs| && !StateAt(cs, i).inBlock && StateAt(cs, i).cur == ""
    ensures cs[i].Text? && cs[i].outer.Rule? && cs[i].outer.pkg == pkg
    ensures cs[i].outer.open <==> S.Scan(cs, pkg).pkgLine == Some(S.OpenInline(i))
    ensures AllOf(Emit(ok, StateAt(cs, i), cs[i]), pkg)
  {
    hide S.HeaderTo, S.HitsTo, S.OpenTo, S.CloseTo, After;
    HeaderPlace(cs, pkg);
    NoCurrentOutside(cs, i);
  }

  lemma RuleDropped(ok: Verdict, lines: seq<string>, pkg: string)
    requires NoStray(START, ClassifyAll(lines)) && PkgSafe(pkg) && DeletedRule(lines, pkg).Some?
    ensures var cs := ClassifyAll(lines); FirstMoves(ok, cs, cs, ClassifyAll(DeletedRule(lines, pkg).value), pkg, multiset{})
  {
    hide NoStray, Moves, FirstMoves, Classify, PkgSafe, S.HitsTo, S.HeaderTo, S.OpenTo, S.CloseTo, S.NoOrphans, Emit, After, AllOf;
    var cs := ClassifyAll(lines);
    NoneStray(cs);
    SafeName(pkg);
    match S.Scan(cs, pkg).pkgLine {
      case Some(Standalone(i)) =>
        FirstHolds(ok, cs, pkg, i);
        DropMoves(ok, cs, pkg, i);
        LineDropped(lines, i);
        assert cs[..i] + [] + cs[i + 1..] == cs[..i] + cs[i + 1..];
        FirstFrom(ok, cs, cs[..i] + cs[i + 1..], pkg, i, multiset{});
      case Some(OpenInline(i)) =>
        FirstHolds(ok, cs, pkg, i);
        OpenLine(pkg);
        var d := Classify(BareOpenLine(pkg));
        BareFacts(ok, StateAt(cs, i), cs[i], d, pkg);
        LineMoves(ok, cs, pkg, i, d);
        LineReplaced(lines, i, BareOpenLine(pkg));
        assert cs[..i] + [d] + cs[i + 1..] == cs[i := d];
        FirstFrom(ok, cs, cs[i := d], pkg, i, multiset{});
    }
  }

  lemma BareFacts(ok: Verdict, s: State, c: Line, d: Line, pkg: string)
    requires !s.inBlock && c.Text? && c.outer.Rule? && c.outer.pkg == pkg && c.outer.open
    requires d.Text? && d.outer == BareOpen(pkg) && pkg != ""
    ensures Step(s, d) == Step(s, c) && !StrayOpen(s, d) && Emit(ok, s, d) == [] && multiset(Emit(ok, s, d)) == multiset{} && AllOf(Emit(ok, s, d), pkg)
  {
  }

  /** The deletion of the package's own rule: the one on the first line that names it goes,
      if there is one, and no other. */
  lemma DeleteRuleRough(ok: Verdict, lines: seq<string>, pkg: string)
    requires Workable(lines, pkg)
    ensures FirstMoves(ok, ClassifyAll(lines), ClassifyAll(Normalized(lines, pkg)), ClassifyAll(Deleted(lines, pkg, "").lines), pkg, multiset{})
  {
    hide Moves, FirstMoves, Classify, Workable, Normalized, NoStray, Round, PkgSafe, DeletedRule, S.NoOrphans;
    var cs, moved := ClassifyAll(lines), Normalized(lines, pkg);
    NormalizedMoves(ok, lines, pkg);
    WorkableName(lines, pkg);
    if DeletedRule(moved, pkg).Some? {
      RuleDropped(ok, moved, pkg);
      FirstThrough(ok, cs, ClassifyAll(moved), ClassifyAll(DeletedRule(moved, pkg).value), pkg, multiset{});
    } else {
      NoneStray(ClassifyAll(moved));
      NoFirst(ok, cs, moved, pkg);
    }
  }

  lemma FirstThrough(ok: Verdict, cs: seq<Line>, ms: seq<Line>, out: seq<Line>, pkg: string, plus: multiset<AffinityRule>)
    requires Moves(ok, cs, ms, pkg, multiset{}, multiset{}) && FirstMoves(ok, ms, ms, out, pkg, plus)
    ensures FirstMoves(ok, cs, ms, out, pkg, plus)
  {
    hide Moves, Answers.FirstHeaded, Emit, StateAt;
    var none: multiset<AffinityRule> := multiset{};
    assert none + none == none;
    forall i: nat | FirstRule(ms, pkg, i) ensures Moves(ok, cs, out, pkg, multiset(Emit(ok, StateAt(ms, i), ms[i])), plus) {
      var gone := multiset(Emit(ok, StateAt(ms, i), ms[i]));
      GoneChain(ok, cs, ms, out, pkg, multiset{}, gone, plus);
      assert gone + multiset{} == gone;
    }
    if forall i: nat :: !FirstRule(ms, pkg, i) {
      GoneChain(ok, cs, ms, out, pkg, multiset{}, multiset{}, plus);
    }
  }

  lemma NoFirst(ok: Verdict, cs: seq<Line>, moved: seq<string>, pkg: string)
    requires S.NoOrphans(ClassifyAll(moved), |moved|) && DeletedRule(moved, pkg).None?
    ensures FirstMoves(ok, cs, ClassifyAll(moved), cs, pkg, multiset{})
  {
    hide Classify, S.HeaderTo, S.HitsTo, S.OpenTo, S.CloseTo, FirstRule, Moves;
    FirstIs(ClassifyAll(moved), pkg);
    NoMoves(ok, cs, pkg);
  }

  // ----- a new rule of the package

  /** A header line that gets the new rule. */
  lemma HeaderFacts(ok: Verdict, s: State, c: Line, d: Line, pkg: string, cpus: string)
    requires !s.inBlock && c.Text? && pkg != "" && ok(pkg, "", cpus)
    requires (c.outer.Rule? && c.outer.pkg == pkg) || c.outer == BareOpen(pkg)
    requires d.Text? && d.outer == Rule(pkg, cpus, if c.outer.Rule? then c.outer.open else true)
    ensures Step(s, d) == Step(s, c) && !StrayOpen(s, d) && Emit(ok, s, d) == [AffinityRule(pkg, "", cpus)]
    ensures AllOf(Emit(ok, s, c), pkg) && AllOf(Emit(ok, s, d), pkg) && (c.outer.BareOpen? ==> Emit(ok, s, c) == [])
    ensures multiset(Emit(ok, s, d)) == multiset{AffinityRule(pkg, "", cpus)}
    ensures c.outer.BareOpen? ==> multiset(Emit(ok, s, c)) == multiset{}
  {
  }

  /** A waiting header that is given its rule and its brace. */
  lemma GivenFacts(ok: Verdict, s: State, d: Line, gap: seq<Line>, z: seq<Line>, pkg: string, cpus: string)
    requires !s.inBlock && pkg != "" && ok(pkg, "", cpus) && (forall k | 0 <= k < |gap| :: gap[k].Skip?)
    requires d.Text? && d.outer == Rule(pkg, cpus, true) && NoStray(State(true, pkg, ""), z)
    ensures After(s, [d] + gap) == State(true, pkg, "") && Rules(ok, s, [d] + gap) == [AffinityRule(pkg, "", cpus)]
    ensures NoStray(s, [d] + gap + z) && AllOf(Rules(ok, s, [d] + gap), pkg)
  {
    hide NoStray;
    var t := Step(s, d);
    Concat(ok, s, [d], gap);
    One(ok, s, d);
    SkipRun(ok, t, gap);
    NoStrayOne(s, d);
    SkipsFree(t, gap);
    NoStrayConcat(s, [d], gap);
    NoStrayConcat(s, [d] + gap, z);
  }

  lemma {:induction false} SkipsFree(s: State, gap: seq<Line>)
    requires forall k | 0 <= k < |gap| :: gap[k].Skip?
    ensures NoStray(s, gap)
    decreases |gap|
  {
    if gap != [] {
      SkipsFree(s, gap[1..]);
    }
  }

  /** What the scanner records of a header that waits for its brace. */
  lemma WaitsFor(ok: Verdict, cs: seq<Line>, pkg: string, i: nat) returns (v: nat)
    requires Round(cs, pkg, |cs|) && NoStray(START, cs) && S.Scan(cs, pkg).pkgLine == Some(S.BarePending(i))
    ensures i < v < |cs| && S.Scan(cs, pkg).blockOpen == Some(v) && cs[v].Text? && cs[v].outer == BareOpen("")
    ensures !StateAt(cs, i).inBlock && StateAt(cs, v + 1) == State(true, pkg, "") && cs[i].Text?
    ensures Rules(ok, StateAt(cs, i), cs[i..v + 1]) == [] && forall k | i < k < v :: cs[k].Skip?
  {
    hide S.StateAt, S.HitAt, S.OpenTo, S.CloseTo, S.HitsTo, S.HeaderTo, NoStray, After, Rules, SinglesOf, Lawful;
    v := S.FirstHeader(cs, pkg, |cs|);
    assert cs[..|cs|] == cs;
    HeadFacts(cs, |cs|, v);
    HeadFacts(cs, |cs|, i);
    HeadFacts(cs, |cs|, v + 1);
    S.PendingRun(cs, v);
    AllNamed(cs, |cs|);
    WaitingOpens(cs, pkg, v, i);
    FirstOpening(cs, pkg, v);
    WaitingRun(ok, cs, i, v);
  }

  lemma WaitingOpens(cs: seq<Line>, pkg: string, v: nat, i: nat)
    requires v < |cs| && S.HeaderAt(cs, pkg, v) == Some(S.BarePending(i)) && pkg != ""
    ensures !S.StateAt(cs, v).inBlock && S.InTarget(cs, pkg, v + 1) && cs[v].Text? && cs[v].outer == BareOpen("")
    ensures S.StateAt(cs, v).pend == Some(i)
  {
  }

  lemma WaitingRun(ok: Verdict, cs: seq<Line>, i: nat, v: nat)
    requires i < v < |cs| && !StateAt(cs, i).inBlock && cs[i].Text? && cs[i].outer.Pending?
    requires cs[v].Text? && cs[v].outer == BareOpen("") && forall k | i < k < v :: cs[k].Skip?
    ensures Rules(ok, StateAt(cs, i), cs[i..v + 1]) == []
  {
    hide After, Rules;
    var s, gap := StateAt(cs, i), cs[i + 1..v];
    assert cs[i..v + 1] == [cs[i]] + (gap + [cs[v]]);
    Concat(ok, s, [cs[i]], gap + [cs[v]]);
    One(ok, s, cs[i]);
    var t := Step(s, cs[i]);
    Concat(ok, t, gap, [cs[v]]);
    SkipRun(ok, t, gap);
    One(ok, t, cs[v]);
  }

  lemma GivenMoves(ok: Verdict, cs: seq<Line>, pkg: string, i: nat, d: Line, cpus: string, v: nat)
    requires Round(cs, pkg, |cs|) && NoStray(START, cs) && i < v < |cs| && !StateAt(cs, i).inBlock && pkg != "" && ok(pkg, "", cpus)
    requires StateAt(cs, v + 1) == State(true, pkg, "") && Rules(ok, StateAt(cs, i), cs[i..v + 1]) == []
    requires (forall k | i < k < v :: cs[k].Skip?) && d.Text? && d.outer == Rule(pkg, cpus, true)
    ensures Moves(ok, cs, cs[..i] + ([d] + cs[i + 1..v]) + cs[v + 1..], pkg, multiset{}, multiset{AffinityRule(pkg, "", cpus)})
  {
    hide NoStray, After, Rules, Moves, AllOf, Round;
    var gap := cs[i + 1..v];
    forall k | 0 <= k < |gap| ensures gap[k].Skip? {
      assert gap[k] == cs[i + 1 + k];
    }
    StraySuffix(cs, v + 1);
    hide StateAt;
    GivenFacts(ok, StateAt(cs, i), d, gap, cs[v + 1..], pkg, cpus);
    NoneOf(pkg);
    SpliceMoves(ok, cs, pkg, i, v + 1, [d] + gap);
  }

  lemma NoneHeld(ok: Verdict, cs: seq<Line>, out: seq<Line>, pkg: string, plus: multiset<AffinityRule>)
    requires S.NoOrphans(cs, |cs|) && Moves(ok, cs, out, pkg, multiset{}, plus)
    requires var h := S.Scan(cs, pkg).pkgLine; h.None? || h.value.OpenBare? || h.value.BarePending?
    ensures FirstMoves(ok, cs, cs, out, pkg, plus)
  {
    hide S.HeaderTo, S.HitsTo, S.OpenTo, S.CloseTo, FirstRule, Emit, StateAt, Moves;
    FirstIs(cs, pkg);
  }

  /** The header line the rule is put on. */
  lemma HeldSet(ok: Verdict, lines: seq<string>, pkg: string, i: nat, raw: string, cpus: string)
    requires NoStray(START, ClassifyAll(lines)) && pkg != "" && ok(pkg, "", cpus)
    requires var h := S.Scan(ClassifyAll(lines), pkg).pkgLine; h == Some(S.Standalone(i)) || h == Some(S.OpenInline(i))
    requires i < |lines| && Classify(raw).Text?
    requires Classify(raw).outer == Rule(pkg, cpus, S.Scan(ClassifyAll(lines), pkg).pkgLine == Some(S.OpenInline(i)))
    ensures FirstMoves(ok, ClassifyAll(lines), ClassifyAll(lines), ClassifyAll(lines[i := raw]), pkg, multiset{AffinityRule(pkg, "", cpus)})
  {
    hide NoStray, Moves, FirstMoves, Classify, S.HitsTo, S.HeaderTo, S.OpenTo, S.CloseTo, S.NoOrphans, Emit, After, AllOf, Step, StrayOpen;
    var cs := ClassifyAll(lines);
    NoneStray(cs);
    FirstHolds(ok, cs, pkg, i);
    HeaderFacts(ok, StateAt(cs, i), cs[i], Classify(raw), pkg, cpus);
    LineMoves(ok, cs, pkg, i, Classify(raw));
    LineReplaced(lines, i, raw);
    assert cs[..i] + [Classify(raw)] + cs[i + 1..] == cs[i := Classify(raw)];
    FirstFrom(ok, cs, cs[i := Classify(raw)], pkg, i, multiset{AffinityRule(pkg, "", cpus)});
  }

  lemma OpenSet(ok: Verdict, lines: seq<string>, pkg: string, i: nat, raw: string, cpus: string)
    requires NoStray(START, ClassifyAll(lines)) && pkg != "" && ok(pkg, "", cpus)
    requires S.Scan(ClassifyAll(lines), pkg).pkgLine == Some(S.OpenBare(i))
    requires Classify(raw).Text? && Classify(raw).outer == Rule(pkg, cpus, true)
    ensures i < |lines|
    ensures FirstMoves(ok, ClassifyAll(lines), ClassifyAll(lines), ClassifyAll(lines[i := raw]), pkg, multiset{AffinityRule(pkg, "", cpus)})
  {
    hide NoStray, Moves, FirstMoves, Classify, S.HitsTo, S.HeaderTo, S.OpenTo, S.CloseTo, S.NoOrphans, Emit, After, AllOf, Step, StrayOpen, S.StateAt;
    var cs := ClassifyAll(lines);
    NoneStray(cs);
    HeaderPlace(cs, pkg);
    var v := S.FirstHeader(cs, pkg, |cs|);
    HeaderFacts(ok, StateAt(cs, i), cs[i], Classify(raw), pkg, cpus);
    LineMoves(ok, cs, pkg, i, Classify(raw));
    LineReplaced(lines, i, raw);
    assert cs[..i] + [Classify(raw)] + cs[i + 1..] == cs[i := Classify(raw)];
    NoneHeld(ok, cs, cs[i := Classify(raw)], pkg, multiset{AffinityRule(pkg, "", cpus)});
  }

  lemma WaitingSet(ok: Verdict, lines: seq<string>, pkg: string, i: nat, raw: string, cpus: string)
    requires Round(ClassifyAll(lines), pkg, |lines|) && NoStray(START, ClassifyAll(lines)) && pkg != "" && ok(pkg, "", cpus)
    requires S.Scan(ClassifyAll(lines), pkg).pkgLine == Some(S.BarePending(i))
    requires Classify(raw).Text? && Classify(raw).outer == Rule(pkg, cpus, true)
    ensures var cs, o := ClassifyAll(lines), S.Scan(ClassifyAll(lines), pkg).blockOpen;
            && i < |lines| && o.Some? && i < o.value < |lines| && ParseOuter(Trim(lines[i := raw][o.value])) == BareOpen("")
            && var given := lines[i := raw];
            FirstMoves(ok, cs, cs, ClassifyAll(given[..o.value] + given[o.value + 1..]), pkg, multiset{AffinityRule(pkg, "", cpus)})
  {
    hide NoStray, Moves, FirstMoves, Classify, S.HitsTo, S.HeaderTo, S.OpenTo, S.CloseTo, S.NoOrphans, After, Rules, Round, S.StateAt,
         ParseOuter, Trim;
    var cs := ClassifyAll(lines);
    NoneStray(cs);
    var v := WaitsFor(ok, cs, pkg, i);
    BraceText(lines[v]);
    GivenMoves(ok, cs, pkg, i, Classify(raw), cpus, v);
    GivenText(lines, i, v, raw);
    var given := lines[i := raw];
    NoneHeld(ok, cs, ClassifyAll(given[..v] + given[v + 1..]), pkg, multiset{AffinityRule(pkg, "", cpus)});
  }

  lemma GivenText(lines: seq<string>, i: nat, v: nat, raw: string)
    requires i < v < |lines|
    ensures var cs, given := ClassifyAll(lines), lines[i := raw];
            ClassifyAll(given[..v] + given[v + 1..]) == cs[..i] + ([Classify(raw)] + cs[i + 1..v]) + cs[v + 1..]
  {
    hide Classify;
    var given := lines[i := raw];
    assert given[..v] + given[v + 1..] == lines[..i] + ([raw] + lines[i + 1..v]) + lines[v + 1..];
    ClassifySplice(lines, i, v + 1, [raw] + lines[i + 1..v]);
    ClassifyConcat([raw], lines[i + 1..v]);
    ClassifySlice(lines, i + 1, v);
    assert ClassifyAll([raw]) == [Classify(raw)];
  }

  lemma BraceText(raw: string)
    requires Classify(raw).Text? && Classify(raw).outer == BareOpen("")
    ensures ParseOuter(Trim(raw)) == BareOpen("")
  {
  }

  lemma AppendSet(ok: Verdict, lines: seq<string>, pkg: string, raw: string, cpus: string)
    requires NoStray(START, ClassifyAll(lines)) && pkg != "" && ok(pkg, "", cpus)
    requires S.Scan(ClassifyAll(lines), pkg).pkgLine.None? && !S.Scan(ClassifyAll(lines), pkg).unterminated
    requires Classify(raw).Text? && Classify(raw).outer == Rule(pkg, cpus, false)
    ensures FirstMoves(ok, ClassifyAll(lines), ClassifyAll(lines), ClassifyAll(lines + [raw]), pkg, multiset{AffinityRule(pkg, "", cpus)})
  {
    hide NoStray, Moves, FirstMoves, Classify, S.HitsTo, S.HeaderTo, S.OpenTo, S.CloseTo, S.NoOrphans, After, Rules, S.StateAt, Emit, Step;
    var cs, d := ClassifyAll(lines), Classify(raw);
    var n := |cs|;
    NoneStray(cs);
    S.AgreeUpTo(cs, n);
    var s := StateAt(cs, n);
    AppendFacts(ok, s, d, pkg, cpus);
    One(ok, s, d);
    NothingRun(ok, s);
    NothingRun(ok, Step(s, d));
    NoneOf(pkg);
    NoStrayOne(s, d);
    assert cs[n..n] == [] && cs[n..] == [] && [d] + [] == [d] && cs[..n] + [d] + cs[n..] == cs + [d];
    SpliceMoves(ok, cs, pkg, n, n, [d]);
    ClassifyConcat(lines, [raw]);
    assert ClassifyAll([raw]) == [d];
    NoneHeld(ok, cs, cs + [d], pkg, multiset{AffinityRule(pkg, "", cpus)});
  }

  lemma AppendFacts(ok: Verdict, s: State, d: Line, pkg: string, cpus: string)
    requires !s.inBlock && ok(pkg, "", cpus) && d.Text? && d.outer == Rule(pkg, cpus, false)
    ensures Emit(ok, s, d) == [AffinityRule(pkg, "", cpus)] && !StrayOpen(s, d) && AllOf(Emit(ok, s, d), pkg)
    ensures multiset(Emit(ok, s, d)) == multiset{AffinityRule(pkg, "", cpus)}
  {
  }

  lemma RuleSet(ok: Verdict, lines: seq<string>, pkg: string, cpus: string)
    requires Round(ClassifyAll(lines), pkg, |lines|) && NoStray(START, ClassifyAll(lines)) && SpecVerdict(ok) && PkgSafe(pkg)
    requires ok(pkg, "", cpus) && RuleReady(lines, pkg) && UpsertedRule(lines, pkg, cpus).Some?
    ensures FirstMoves(ok, ClassifyAll(lines), ClassifyAll(lines), ClassifyAll(UpsertedRule(lines, pkg, cpus).value), pkg,
                       multiset{AffinityRule(pkg, "", cpus)})
  {
    hide NoStray, Moves, FirstMoves, Classify, PkgSafe, CpuText, SpecVerdict, S.HeaderTo, S.HitsTo, S.CloseTo, S.OpenTo, S.StateAt, HeaderText,
         WithComment, SpecSwap, ParseOuter, Trim, S.NoOrphans, Round, NoBrace;
    var cs := ClassifyAll(lines);
    SafeName(pkg);
    SpecTakes(ok, pkg, "", cpus);
    NoneStray(cs);
    HeaderPlace(cs, pkg);
    match S.Scan(cs, pkg).pkgLine {
      case Some(Standalone(i)) =>
        SwapHeader(lines[i], pkg, cpus);
        HeldSet(ok, lines, pkg, i, SpecSwap(lines[i], cpus), cpus);
      case Some(OpenInline(i)) =>
        SwapHeader(lines[i], pkg, cpus);
        HeldSet(ok, lines, pkg, i, SpecSwap(lines[i], cpus), cpus);
      case Some(OpenBare(i)) =>
        HeaderReads(lines[i], pkg, cpus);
        OpenSet(ok, lines, pkg, i, WithComment(HeaderText(pkg, cpus, true), lines[i]), cpus);
      case Some(BarePending(i)) =>
        HeaderReads(lines[i], pkg, cpus);
        WaitingSet(ok, lines, pkg, i, WithComment(HeaderText(pkg, cpus, true), lines[i]), cpus);
      case None =>
        SafeEdits.ClosedHeader(pkg, cpus);
        AppendSet(ok, lines, pkg, HeaderText(pkg, cpus, false), cpus);
    }
  }

  /** A new rule of the package: it takes the place of the one on the first line that names the
      package, if that line holds one, and nothing else changes. */
  lemma UpsertRuleRough(ok: Verdict, lines: seq<string>, pkg: string, cpus: string)
    requires Workable(lines, pkg) && SpecVerdict(ok) && ok(pkg, "", cpus) && RuleReady(Normalized(lines, pkg), pkg)
    requires Upserted(lines, pkg, "", cpus).answer == Ok
    ensures FirstMoves(ok, ClassifyAll(lines), ClassifyAll(Normalized(lines, pkg)), ClassifyAll(Upserted(lines, pkg, "", cpus).lines), pkg,
                       multiset{AffinityRule(pkg, "", cpus)})
  {
    hide Moves, FirstMoves, Classify, Workable, Normalized, NoStray, Round, PkgSafe, UpsertedRule, RuleReady, SpecVerdict;
    var cs, moved := ClassifyAll(lines), Normalized(lines, pkg);
    NormalizedMoves(ok, lines, pkg);
    WorkableName(lines, pkg);
    RuleSet(ok, moved, pkg, cpus);
    FirstThrough(ok, cs, ClassifyAll(moved), ClassifyAll(UpsertedRule(moved, pkg, cpus).value), pkg, multiset{AffinityRule(pkg, "", cpus)});
  }

  // ----- a new rule of a thread

  lemma SwappedLeads(raw: string, s: State, pkg: string, thread: string, cpus: string, loc: S.ThreadLoc)
    requires HoldsThread(s, Classify(raw), pkg, thread, loc) && PlainValue(Classify(raw)) && CpuText(cpus)
    ensures Step(s, Classify(SpecSwap(raw, cpus))) == Step(s, Classify(raw)) && !StrayOpen(s, Classify(SpecSwap(raw, cpus)))
  {
    hide Classify, SpecSwap, CpuText, SwappedTo;
    var c := Classify(raw);
    if loc.single {
      if c.outer.open {
        SwapOpenSingle(raw, pkg, thread, c.outer.cpus, cpus);
      } else {
        SwapClosedSingle(raw, pkg, thread, c.outer.cpus, cpus);
      }
    } else {
      SwapAnyEntry(raw, thread, c.inner.cpus, c.inner.closed, cpus);
    }
  }

  /** The thread's last line takes the new CPUs. */
  lemma LastSet(ok: Verdict, lines: seq<string>, pkg: string, thread: string, cpus: string, loc: S.ThreadLoc)
    requires NoStray(START, ClassifyAll(lines)) && loc.idx < |lines| && CpuText(cpus) && ok(pkg, thread, cpus)
    requires HoldsThread(StateAt(ClassifyAll(lines), loc.idx), ClassifyAll(lines)[loc.idx], pkg, thread, loc)
    requires PlainValue(Classify(lines[loc.idx])) && (!loc.single ==> SwappedTo(lines[loc.idx], cpus) == cpus)
    ensures var cs, out := ClassifyAll(lines), ClassifyAll(Swapped(lines, loc.idx, cpus));
            && NoStray(START, out)
            && Moves(ok, cs, out, pkg, multiset(Emit(ok, StateAt(cs, loc.idx), cs[loc.idx])), multiset{AffinityRule(pkg, thread, cpus)})
  {
    hide NoStray, Moves, Classify, CpuText, SpecSwap, HoldsThread, After, PlainValue, SwappedTo, Emit, Step, StrayOpen, Asked;
    var cs, i := ClassifyAll(lines), loc.idx;
    var s, raw := StateAt(cs, i), SpecSwap(lines[i], cpus);
    SwappedAsks(lines[i], s, s, pkg, thread, cpus, loc);
    SwappedLeads(lines[i], s, pkg, thread, cpus, loc);
    OwnPlace(ok, s, cs[i], Classify(raw), pkg, thread, cpus, loc);
    LineMoves(ok, cs, pkg, i, Classify(raw));
    LineReplaced(lines, i, raw);
    assert cs[..i] + [Classify(raw)] + cs[i + 1..] == cs[i := Classify(raw)];
  }

  lemma OwnPlace(ok: Verdict, s: State, c: Line, d: Line, pkg: string, thread: string, cpus: string, loc: S.ThreadLoc)
    requires HoldsThread(s, c, pkg, thread, loc) && Asked(s, d) == [AffinityRule(pkg, thread, cpus)] && ok(pkg, thread, cpus)
    ensures AllOf(Emit(ok, s, c), pkg) && AllOf(Emit(ok, s, d), pkg)
    ensures multiset(Emit(ok, s, d)) == multiset{AffinityRule(pkg, thread, cpus)}
  {
  }

  /** The earlier places are as they were. */
  lemma FrontPlaces(ok: Verdict, a: seq<string>, b: seq<string>, pkg: string, thread: string, locs: seq<S.ThreadLoc>, n: nat)
    requires |locs| == n + 1 && Places(a, pkg, thread, locs) && |b| == |a| && b[..locs[n].idx] == a[..locs[n].idx]
    ensures Places(b, pkg, thread, locs[..n])
    ensures forall k | 0 <= k < n :: locs[k].idx < |a| && StateAt(ClassifyAll(b), locs[k].idx) == StateAt(ClassifyAll(a), locs[k].idx)
                                     && ClassifyAll(b)[locs[k].idx] == ClassifyAll(a)[locs[k].idx]
  {
    hide Classify, HoldsThread, After;
    var i := locs[n].idx;
    var cs, ds := ClassifyAll(a), ClassifyAll(b);
    forall k | 0 <= k < n
      ensures locs[k].idx < i && ds[..locs[k].idx] == cs[..locs[k].idx] && ds[locs[k].idx] == cs[locs[k].idx]
    {
      Increasing(locs, k, n);
      var j := locs[k].idx;
      assert b[..j] == b[..i][..j] == a[..i][..j] == a[..j];
      assert b[j] == b[..i][j] == a[..i][j] == a[j];
    }
  }

  lemma {:induction false} SamePlaceRules(ok: Verdict, cs: seq<Line>, ds: seq<Line>, locs: seq<S.ThreadLoc>, k: nat)
    requires |cs| == |ds| && k <= |locs|
    requires forall k | 0 <= k < |locs| :: locs[k].idx < |cs| && StateAt(ds, locs[k].idx) == StateAt(cs, locs[k].idx)
                                           && ds[locs[k].idx] == cs[locs[k].idx]
    ensures PlaceRules(ok, ds, locs, k) == PlaceRules(ok, cs, locs, k)
    decreases |locs| - k
  {
    hide StateAt, Emit;
    if k < |locs| {
      SamePlaceRules(ok, cs, ds, locs, k + 1);
    }
  }

  lemma OldThreadSet(ok: Verdict, lines: seq<string>, pkg: string, thread: string, cpus: string)
    requires NoStray(START, ClassifyAll(lines)) && SpecVerdict(ok) && PkgSafe(pkg) && thread != "" && ok(pkg, thread, cpus)
    requires ThreadReady(lines, pkg, thread, cpus) && ThreadLocs(S.Scan(ClassifyAll(lines), pkg).hits, thread) != []
    ensures UpsertedThread(lines, pkg, thread, cpus).Some?
    ensures var cs := ClassifyAll(lines);
            Moves(ok, cs, ClassifyAll(UpsertedThread(lines, pkg, thread, cpus).value), pkg,
                  multiset(Only(Loaded(ok, cs), pkg, thread)), multiset{AffinityRule(pkg, thread, cpus)})
  {
    hide NoStray, Moves, Classify, PkgSafe, CpuText, SpecVerdict, S.HitsTo, S.HeaderTo, S.OpenTo, S.CloseTo, ThreadLocs, HoldsThread, PlainValue, SwappedTo,
         Stripped, Swapped, PlaceRules, Only, S.NoOrphans, Emit, After, PutBack;
    var cs := ClassifyAll(lines);
    var locs := ThreadLocs(S.Scan(cs, pkg).hits, thread);
    var n := |locs| - 1;
    var last, front := locs[n], locs[..n];
    SpecTakes(ok, pkg, thread, cpus);
    NoneStray(cs);
    ThreadPlaces(lines, pkg, thread);
    LastSet(ok, lines, pkg, thread, cpus, last);
    var given := Swapped(lines, last.idx, cpus);
    SwapStays(lines, last.idx, cpus);
    FrontPlaces(ok, lines, given, pkg, thread, locs, n);
    PlacesMove(ok, given, pkg, thread, front, 0);
    SamePlaceRules(ok, cs, ClassifyAll(given), front, 0);
    assert front + [last] == locs;
    PlacesSnoc(ok, cs, front, last, 0);
    PlacesAreRules(ok, lines, pkg, thread, |lines|);
    assert cs[..|lines|] == cs;
    SetChain(ok, cs, ClassifyAll(given), ClassifyAll(Stripped(given, pkg, front, 0)), pkg, PlaceRules(ok, cs, front, 0),
             Emit(ok, StateAt(cs, last.idx), cs[last.idx]), AffinityRule(pkg, thread, cpus));
  }

  lemma SwapStays(lines: seq<string>, i: nat, cpus: string)
    requires i < |lines|
    ensures |Swapped(lines, i, cpus)| == |lines| && Swapped(lines, i, cpus)[..i] == lines[..i]
  {
  }

  lemma SetChain(ok: Verdict, a: seq<Line>, b: seq<Line>, c: seq<Line>, pkg: string, front: seq<AffinityRule>, last: seq<AffinityRule>,
                 r: AffinityRule)
    requires Moves(ok, a, b, pkg, multiset(last), multiset{r}) && Moves(ok, b, c, pkg, multiset(front), multiset{})
    ensures Moves(ok, a, c, pkg, multiset(front + last), multiset{r})
  {
    hide Moves;
    MovesChain(ok, a, b, c, pkg, multiset(last), multiset{r}, multiset(front), multiset{});
    assert multiset(front + last) == multiset(last) + multiset(front) && multiset{r} + multiset{} == multiset{r};
  }

  lemma NewThreadSet(ok: Verdict, lines: seq<string>, pkg: string, thread: string, cpus: string)
    requires NoStray(START, ClassifyAll(lines)) && SpecVerdict(ok) && PkgSafe(pkg) && EntrySafe(thread) && ok(pkg, thread, cpus)
    requires !BraceInComment(lines, pkg)
    requires var t := S.Scan(ClassifyAll(lines), pkg);
             t.blockClose.None? && !(t.pkgLine.Some? && t.pkgLine.value.Standalone?) ==> !t.unterminated
    ensures Moves(ok, ClassifyAll(lines), ClassifyAll(PutBack(lines, pkg, |lines|, [EntryText(thread, cpus)])), pkg,
                  multiset{}, multiset{AffinityRule(pkg, thread, cpus)})
  {
    hide NoStray, Classify, PkgSafe, CpuText, EntrySafe, EntryText, SpecVerdict, S.HeaderTo, S.HitsTo, S.CloseTo, S.OpenTo, S.StateAt, OpenedText,
         BareOpenLine, HasComment, PutWell, S.NoOrphans, Moves, BlockLines, After;
    var cs, e := ClassifyAll(lines), EntryText(thread, cpus);
    var t := S.Scan(cs, pkg);
    SafeName(pkg);
    SpecTakes(ok, pkg, thread, cpus);
    NoneStray(cs);
    EntryAlone(ok, pkg, thread, cpus);
    if t.blockClose.Some? {
      PutInBlock(ok, lines, pkg, t.blockClose.value, [e]);
    } else if t.pkgLine.Some? && t.pkgLine.value.Standalone? {
      PutUnderHeader(ok, lines, pkg, t.pkgLine.value.idx, [e]);
    } else {
      S.AgreeUpTo(cs, |cs|);
      NothingLeft(lines);
      PutFresh(ok, lines, pkg, |lines|, [e]);
    }
    var out := ClassifyAll(PutBack(lines, pkg, |lines|, [e]));
    PutMoves(ok, cs, out, pkg, ClassifyAll([e]), AffinityRule(pkg, thread, cpus));
  }

  lemma NothingLeft(lines: seq<string>)
    ensures NoStray(START, ClassifyAll(lines)[|lines|..])
  {
  }

  lemma EntryAlone(ok: Verdict, pkg: string, thread: string, cpus: string)
    requires EntrySafe(thread) && CpuText(cpus) && ok(pkg, thread, cpus)
    ensures var ts := ClassifyAll([EntryText(thread, cpus)]);
            ThreadLines(ts) && Rules(ok, State(true, pkg, ""), ts) == [AffinityRule(pkg, thread, cpus)]
  {
    hide Classify, EntrySafe, CpuText, EntryText;
    var e := EntryText(thread, cpus);
    EntryLine(thread, cpus, "");
    assert e + "" == e;
    var ts := ClassifyAll([e]);
    assert ts == [Classify(e)];
    One(ok, State(true, pkg, ""), Classify(e));
  }

  lemma PutMoves(ok: Verdict, cs: seq<Line>, out: seq<Line>, pkg: string, ts: seq<Line>, r: AffinityRule)
    requires PutWell(ok, cs, out, pkg, ts) && Rules(ok, State(true, pkg, ""), ts) == [r]
    ensures Moves(ok, cs, out, pkg, multiset{}, multiset{r})
  {
    hide NoStray, Events, Rules, Others, Loaded;
    var m := multiset(Loaded(ok, out));
    assert m + multiset{} == m;
  }

  /** A new rule of a thread: it takes the place of all rules of the thread, and nothing else
      changes. */
  lemma UpsertThreadRough(ok: Verdict, lines: seq<string>, pkg: string, thread: string, cpus: string)
    requires Workable(lines, pkg) && SpecVerdict(ok) && thread != "" && EntrySafe(thread) && ok(pkg, thread, cpus)
    requires WriteReady(Normalized(lines, pkg), pkg, thread, cpus) && Upserted(lines, pkg, thread, cpus).answer == Ok
    ensures var cs := ClassifyAll(lines);
            Moves(ok, cs, ClassifyAll(Upserted(lines, pkg, thread, cpus).lines), pkg,
                  multiset(Only(Loaded(ok, cs), pkg, thread)), multiset{AffinityRule(pkg, thread, cpus)})
  {
    hide Moves, Classify, Workable, Normalized, NoStray, Round, PkgSafe, EntrySafe, SpecVerdict, Only, Loaded, S.HeaderTo, S.HitsTo, S.CloseTo,
         S.OpenTo, S.StateAt, PutBack, EntryText, ThreadReady, BraceInComment, ThreadLocs, Stripped, Swapped;
    var cs, moved, r := ClassifyAll(lines), Normalized(lines, pkg), AffinityRule(pkg, thread, cpus);
    var ms, out := ClassifyAll(moved), ClassifyAll(UpsertedThread(moved, pkg, thread, cpus).value);
    NormalizedMoves(ok, lines, pkg);
    WorkableName(lines, pkg);
    Deleting.SameOnly(Loaded(ok, cs), Loaded(ok, ms), pkg, thread);
    var gone := multiset(Only(Loaded(ok, cs), pkg, thread));
    if ThreadLocs(S.Scan(ms, pkg).hits, thread) != [] {
      OldThreadSet(ok, moved, pkg, thread, cpus);
    } else {
      NewThreadSet(ok, moved, pkg, thread, cpus);
      NoThread(ok, moved, pkg, thread);
    }
    GoneChain(ok, cs, ms, out, pkg, multiset{}, gone, multiset{r});
    assert gone + multiset{} == gone;
  }
}
