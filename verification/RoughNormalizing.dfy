/** `normalize_singles` on a file with any failure but a stray opening brace, and the
    deletion of a package from such a file. */
module RoughNormalizing {
  import opened Base
  import opened Text
  import opened Lines
  import opened Syntax
  import opened Printing
  import opened Loader
  import opened Edits
  import opened Tracking
  import opened Taking
  import opened Stripping
  import opened Normalizing
  import opened Purging
  import opened RuleEdits
  import opened RuleFiles
  import opened StrayBraces
  import opened RoughRounds
  import S = Scanner

  /** Names and CPU texts of pkg's single-line rules can be printed. */
  predicate SinglesPrint(cs: seq<Line>, pkg: string)
  {
    forall k | 0 <= k < |cs| && SingleAt(cs, pkg, k) :: EntrySafe(cs[k].outer.thread) && CpuText(cs[k].outer.cpus)
  }

  ghost predicate Nameless(ok: Verdict)
  {
    forall t, c :: !ok("", t, c)
  }

  /** Every rule of a package with a name is taken. */
  ghost predicate Accepts(ok: Verdict)
  {
    forall p, t, c :: p != "" ==> ok(p, t, c)
  }

  // ----- taking a single-line rule out

  /** The file that is left when lines from i on have been worked off: in front of i nothing
      has changed, behind it no single-line rule of the package is left. */
  ghost predicate Worked(ok: Verdict, os: seq<Line>, cs: seq<Line>, pkg: string, i: nat)
  {
    && i <= |os| && i <= |cs| && cs[..i] == os[..i]
    && NoStray(START, cs) && Others(Loaded(ok, cs), pkg) == Others(Loaded(ok, os), pkg)
    && Lone !in Events(StateAt(cs, i), cs[i..], pkg)
  }

  /** A single-line rule outside every block gives way to nothing, or to the opening of its
      block. */
  predicate GivesWay(c: Line, pkg: string, mid: seq<Line>)
  {
    && c.Text? && c.outer.Single? && c.outer.pkg == pkg
    && (if c.outer.open then |mid| == 1 && mid[0].Text? && mid[0].outer == BareOpen(pkg) else mid == [])
  }

  /** The rule of a single-line rule, if it is taken. */
  function LineRules(ok: Verdict, c: Line): seq<AffinityRule>
  {
    if c.Text? && c.outer.Single? && ok(c.outer.pkg, c.outer.thread, c.outer.cpus)
    then [AffinityRule(c.outer.pkg, c.outer.thread, c.outer.cpus)] else []
  }

  /** The rules of the lines at locs[k..]. */
  function LeavingRules(ok: Verdict, cs: seq<Line>, locs: seq<S.ThreadLoc>, k: nat): seq<AffinityRule>
    decreases |locs| - k
  {
    if k >= |locs| then []
    else (if locs[k].idx < |cs| then LineRules(ok, cs[locs[k].idx]) else []) + LeavingRules(ok, cs, locs, k + 1)
  }

  lemma WayRun(ok: Verdict, s: State, c: Line, pkg: string, mid: seq<Line>, z: seq<Line>)
    requires GivesWay(c, pkg, mid) && pkg != "" && !s.inBlock && s.cur == "" && NoStray(Step(s, c), z)
    ensures NoStray(s, mid + z) && NoStray(START, mid + z)
    ensures Rules(ok, s, mid + z) == Rules(ok, Step(s, c), z)
    ensures Events(s, mid + z, pkg) == (if c.outer.open then [Opened] else []) + Events(Step(s, c), z, pkg)
  {
    hide NoStray, Rules, Events, After;
    if c.outer.open {
      NoStrayConcat(s, mid, z);
      NoStrayConcat(START, mid, z);
      assert mid == [mid[0]];
      NoStrayOne(s, mid[0]);
      NoStrayOne(START, mid[0]);
      One(ok, s, mid[0]);
      One(ok, START, mid[0]);
      Concat(ok, s, mid, z);
      EventsConcat(s, mid, z, pkg);
      EventsOfOne(s, mid[0], pkg);
    } else {
      assert mid + z == z;
      PendMoot(ok, s.pend, z);
    }
  }

  lemma WorkedStep(ok: Verdict, os: seq<Line>, cs: seq<Line>, pkg: string, i: nat, j: nat, mid: seq<Line>)
    requires Worked(ok, os, cs, pkg, j) && pkg != "" && i < j && GivesWay(cs[i], pkg, mid) && !StateAt(cs, i).inBlock
    requires forall k | i < k < j :: !SingleAt(cs, pkg, k)
    ensures var out := cs[..i] + mid + cs[i + 1..];
            && Worked(ok, os, out, pkg, i) && NoStray(START, out[i..])
            && multiset(Loaded(ok, cs)) == multiset(Loaded(ok, out)) + multiset(LineRules(ok, cs[i]))
  {
    hide NoStray, Rules, Events, After, GivesWay, Others, SingleAt, LineRules;
    var a, c, z := cs[..i], cs[i], cs[i + 1..];
    var s := StateAt(cs, i);
    var out := a + mid + z;
    assert cs == a + ([c] + z) && out == a + (mid + z);
    assert out[..i] == a && out[i..] == mid + z;
    NoCurrentOutside(cs, i);
    NoStrayConcat(START, a, [c] + z);
    NoStrayConcat(s, [c], z);
    One(ok, s, c);
    WayRun(ok, s, c, pkg, mid, z);
    NoStrayConcat(START, a, mid + z);
    Concat(ok, s, [c], z);
    SingleEmits(ok, s, c, pkg, mid);
    OthersEmit(ok, s, c, pkg);
    WorkedOthers(ok, a, [c] + z, mid + z, Emit(ok, s, c), Rules(ok, Step(s, c), z), pkg);
    StateAtNext(cs, i);
    NoLoneFrom(cs, pkg, i + 1, j);
    assert out[..i] == os[..i] by {
      assert cs[..i] == cs[..j][..i] == os[..j][..i] == os[..i];
    }
  }

  /** Leaving out rules of the package changes nothing for the others. */
  lemma WorkedOthers(ok: Verdict, a: seq<Line>, b: seq<Line>, d: seq<Line>, gone: seq<AffinityRule>, rest: seq<AffinityRule>, pkg: string)
    requires Rules(ok, After(START, a), b) == gone + rest && Rules(ok, After(START, a), d) == rest && Others(gone, pkg) == []
    ensures Others(Loaded(ok, a + b), pkg) == Others(Loaded(ok, a + d), pkg)
    ensures multiset(Loaded(ok, a + b)) == multiset(Loaded(ok, a + d)) + multiset(gone)
  {
    hide Rules, After, Others;
    Concat(ok, START, a, b);
    Concat(ok, START, a, d);
    OthersConcat(Rules(ok, START, a), gone + rest, pkg);
    OthersConcat(Rules(ok, START, a), rest, pkg);
    OthersConcat(gone, rest, pkg);
    assert [] + Others(rest, pkg) == Others(rest, pkg);
  }

  lemma SingleEmits(ok: Verdict, s: State, c: Line, pkg: string, mid: seq<Line>)
    requires GivesWay(c, pkg, mid) && !s.inBlock
    ensures forall r | r in Asked(s, c) :: r.pkg == pkg
    ensures Emit(ok, s, c) == LineRules(ok, c)
  {
  }

  lemma {:induction false} NoLoneFrom(cs: seq<Line>, pkg: string, i: nat, j: nat)
    requires i <= j <= |cs| && (forall k | i <= k < j :: !SingleAt(cs, pkg, k))
    requires Lone !in Events(StateAt(cs, j), cs[j..], pkg)
    ensures Lone !in Events(StateAt(cs, i), cs[i..], pkg)
    decreases j - i
  {
    hide Events, After;
    if i < j {
      NoLoneFrom(cs, pkg, i + 1, j);
      StateAtNext(cs, i);
      assert cs[i..] == [cs[i]] + cs[i + 1..];
      EventsConcat(StateAt(cs, i), [cs[i]], cs[i + 1..], pkg);
      EventsOfOne(StateAt(cs, i), cs[i], pkg);
      AfterOne(StateAt(cs, i), cs[i]);
      assert !SingleAt(cs, pkg, i);
    }
  }

  lemma AfterOne(s: State, c: Line)
    ensures After(s, [c]) == Step(s, c)
  {
    assert [c][1..] == [];
  }

  // ----- all of them

  lemma NoStrayRough(lines: seq<string>)
    requires NoStray(START, ClassifyAll(lines))
    ensures Rough(ClassifyAll(lines), |lines|)
  {
    hide Classify, NoStray, Lawful;
    var cs := ClassifyAll(lines);
    assert cs[..|lines|] == cs;
    forall k | 0 <= k < |cs| ensures Lawful(cs[k]) {
      ReadLawful(lines[k]);
    }
  }

  /** The recorded single-line rules are those of the loader, in line order, and there is
      none between them. */
  lemma RecordedSingles(lines: seq<string>, pkg: string)
    requires NoStray(START, ClassifyAll(lines))
    ensures var cs := ClassifyAll(lines);
            var locs := SinglesOf(S.Scan(cs, pkg).hits);
            && InLineOrder(locs, |lines|)
            && (forall k | 0 <= k < |locs| :: locs[k].single && !locs[k].closed && SingleAt(cs, pkg, locs[k].idx) && locs[k].open == cs[locs[k].idx].outer.open)
            && (forall k | 0 <= k < |cs| && SingleAt(cs, pkg, k) :: exists l :: l in locs && l.idx == k)
  {
    hide Classify, NoStray, SinglesOf, S.HitsTo, S.StateAt;
    var cs := ClassifyAll(lines);
    var locs := SinglesOf(S.Scan(cs, pkg).hits);
    NoStrayRough(lines);
    SinglesInOrder(cs, pkg, |cs|);
    SinglesHit(cs, pkg, |cs|);
    forall k | 0 <= k < |locs|
      ensures locs[k].single && !locs[k].closed && SingleAt(cs, pkg, locs[k].idx) && locs[k].open == cs[locs[k].idx].outer.open
    {
      HeadFacts(cs, |lines|, locs[k].idx);
    }
    AllNamed(cs, |lines|);
    forall k | 0 <= k < |cs| && SingleAt(cs, pkg, k) ensures exists l :: l in locs && l.idx == k {
      HeadFacts(cs, |lines|, k);
      SinglesOutside(cs, pkg, k);
    }
  }

  lemma WayOfLine(raw: string, pkg: string, loc: S.ThreadLoc)
    requires Classify(raw).Text? && Classify(raw).outer.Single? && Classify(raw).outer.pkg == pkg && PkgSafe(pkg)
    requires !loc.closed && loc.open == Classify(raw).outer.open
    ensures GivesWay(Classify(raw), pkg, ClassifyAll(RemovalLines(raw, pkg, loc)))
  {
    hide PkgSafe, ParseOuter, InnerOf, BareOpenLine, WithComment;
    NotSkippedText(raw);
    RemovalClasses(raw, pkg, loc);
  }

  lemma {:induction false} StrippedWorked(ok: Verdict, lines: seq<string>, pkg: string, locs: seq<S.ThreadLoc>, k: nat)
    requires NoStray(START, ClassifyAll(lines)) && PkgSafe(pkg) && locs == SinglesOf(S.Scan(ClassifyAll(lines), pkg).hits)
    requires k <= |locs|
    ensures Bound(locs, k, |lines|) <= |lines|
    ensures Worked(ok, ClassifyAll(lines), ClassifyAll(Stripped(lines, pkg, locs, k)), pkg, Bound(locs, k, |lines|))
    ensures k < |locs| ==> NoStray(START, ClassifyAll(Stripped(lines, pkg, locs, k))[locs[k].idx..])
    ensures multiset(Loaded(ok, ClassifyAll(lines))) ==
              multiset(Loaded(ok, ClassifyAll(Stripped(lines, pkg, locs, k)))) + multiset(LeavingRules(ok, ClassifyAll(lines), locs, k))
    decreases |locs| - k
  {
    hide NoStray, Classify, PkgSafe, SinglesOf, S.HitsTo, Worked, LineRemoved, S.Scan, LineRules, Loaded;
    var cs := ClassifyAll(lines);
    RecordedSingles(lines, pkg);
    if k == |locs| {
      AllToWork(ok, lines, pkg);
    } else {
      var j := Bound(locs, k + 1, |lines|);
      var rest := Stripped(lines, pkg, locs, k + 1);
      StrippedWorked(ok, lines, pkg, locs, k + 1);
      OneWorked(ok, lines, rest, pkg, locs, k, j);
    }
  }

  lemma OneWorked(ok: Verdict, lines: seq<string>, rest: seq<string>, pkg: string, locs: seq<S.ThreadLoc>, k: nat, j: nat)
    requires NoStray(START, ClassifyAll(lines)) && PkgSafe(pkg) && locs == SinglesOf(S.Scan(ClassifyAll(lines), pkg).hits)
    requires k < |locs| && j == Bound(locs, k + 1, |lines|) && Worked(ok, ClassifyAll(lines), ClassifyAll(rest), pkg, j)
    ensures var i := locs[k].idx;
            && i < |rest| && i < |lines|
            && Worked(ok, ClassifyAll(lines), ClassifyAll(LineRemoved(rest, pkg, locs[k])), pkg, i)
            && NoStray(START, ClassifyAll(LineRemoved(rest, pkg, locs[k]))[i..])
            && multiset(Loaded(ok, ClassifyAll(rest))) ==
                 multiset(Loaded(ok, ClassifyAll(LineRemoved(rest, pkg, locs[k])))) + multiset(LineRules(ok, ClassifyAll(lines)[i]))
  {
    hide NoStray, Classify, PkgSafe, SinglesOf, S.HitsTo, Worked, RemovalLines, S.Scan, LineRules, Loaded;
    var cs := ClassifyAll(lines);
    RecordedSingles(lines, pkg);
    var i := locs[k].idx;
    WorkedFront(ok, cs, ClassifyAll(rest), pkg, j, i);
    assert Classify(rest[i]) == ClassifyAll(rest)[i] == cs[i] == Classify(lines[i]);
    WayOfLine(rest[i], pkg, locs[k]);
    WorkedSize(ok, cs, ClassifyAll(rest), pkg, j);
    SafeName(pkg);
    forall u | i < u < j ensures !SingleAt(ClassifyAll(rest), pkg, u) {
      WorkedFront(ok, cs, ClassifyAll(rest), pkg, j, u);
      NotBetween(locs, k, |lines|, u);
    }
    WorkedStep(ok, cs, ClassifyAll(rest), pkg, i, j, ClassifyAll(RemovalLines(rest[i], pkg, locs[k])));
    ClassifySplice(rest, i, i + 1, RemovalLines(rest[i], pkg, locs[k]));
  }

  lemma NotBetween(locs: seq<S.ThreadLoc>, k: nat, n: nat, u: nat)
    requires InLineOrder(locs, n) && k < |locs| && locs[k].idx < u < Bound(locs, k + 1, n)
    ensures !exists l :: l in locs && l.idx == u
  {
    if l :| l in locs && l.idx == u {
      var i :| 0 <= i < |locs| && locs[i] == l;
      if i < k {
        Increasing(locs, i, k);
      } else if i > k + 1 {
        Increasing(locs, k + 1, i);
      }
    }
  }

  lemma WorkedSize(ok: Verdict, os: seq<Line>, cs: seq<Line>, pkg: string, j: nat)
    requires Worked(ok, os, cs, pkg, j)
    ensures j <= |cs|
  {
  }

  lemma AllToWork(ok: Verdict, lines: seq<string>, pkg: string)
    requires NoStray(START, ClassifyAll(lines))
    ensures Worked(ok, ClassifyAll(lines), ClassifyAll(lines), pkg, |lines|)
  {
    var cs := ClassifyAll(lines);
    assert cs[|lines|..] == [];
    NoEvents(StateAt(cs, |lines|), pkg);
  }

  lemma WorkedFront(ok: Verdict, os: seq<Line>, cs: seq<Line>, pkg: string, j: nat, i: nat)
    requires Worked(ok, os, cs, pkg, j) && i < j
    ensures i < |cs| && i < |os| && cs[i] == os[i] && StateAt(cs, i) == StateAt(os, i)
    ensures SingleAt(cs, pkg, i) <==> SingleAt(os, pkg, i)
  {
    hide NoStray;
    assert cs[i] == cs[..j][i] == os[..j][i] == os[i];
    assert cs[..i] == cs[..j][..i] == os[..j][..i] == os[..i];
  }

  // ----- putting them back

  /** Thread lines that close nothing. */
  predicate ThreadLines(es: seq<Line>)
  {
    forall k | 0 <= k < |es| :: es[k].Text? && es[k].inner.Entry? && !es[k].inner.closed
  }

  lemma {:induction false} ThreadRun(ok: Verdict, s: State, es: seq<Line>, pkg: string)
    requires ThreadLines(es) && s.inBlock && s.cur == pkg && pkg != ""
    ensures After(s, es) == s && NoStray(s, es) && Events(s, es, pkg) == [] && AllOf(Rules(ok, s, es), pkg)
    ensures es != [] && Accepts(ok) ==> Rules(ok, s, es) != []
    decreases |es|
  {
    if es != [] {
      ThreadRun(ok, s, es[1..], pkg);
    }
  }

  lemma TextsRead(lines: seq<string>, pkg: string)
    requires NoStray(START, ClassifyAll(lines)) && SinglesPrint(ClassifyAll(lines), pkg)
    ensures var locs := SinglesOf(S.Scan(ClassifyAll(lines), pkg).hits); ThreadLines(ClassifyAll(SingleTexts(lines, locs)))
  {
    hide NoStray, Classify, SinglesOf, S.Scan, SingleText, EntrySafe, CpuText;
    RecordedSingles(lines, pkg);
    var cs := ClassifyAll(lines);
    var locs := SinglesOf(S.Scan(cs, pkg).hits);
    var ts := SingleTexts(lines, locs);
    forall k | 0 <= k < |ts| ensures ClassifyAll(ts)[k].Text? && ClassifyAll(ts)[k].inner.Entry? && !ClassifyAll(ts)[k].inner.closed {
      var raw := lines[locs[k].idx];
      assert SingleAt(cs, pkg, locs[k].idx);
      SingleReads(raw);
    }
  }

  /** The lines read alike from either state. */
  ghost predicate SameRest(ok: Verdict, r: State, s: State, z: seq<Line>, pkg: string)
  {
    NoStray(r, z) && Events(r, z, pkg) == Events(s, z, pkg) && Rules(ok, r, z) == Rules(ok, s, z)
  }

  /** The lines put in make no other package's rule, no stray brace, no single-line rule. */
  lemma PutIn(ok: Verdict, cs: seq<Line>, pkg: string, i: nat, j: nat, mid: seq<Line>)
    requires i <= j <= |cs| && NoStray(START, cs)
    requires NoStray(StateAt(cs, i), mid) && Lone !in Events(StateAt(cs, i), mid, pkg)
    requires AllOf(Rules(ok, StateAt(cs, i), mid), pkg) && AllOf(Rules(ok, StateAt(cs, i), cs[i..j]), pkg)
    requires SameRest(ok, After(StateAt(cs, i), mid), StateAt(cs, j), cs[j..], pkg)
    ensures var out := cs[..i] + mid + cs[j..];
            && NoStray(START, out) && (Lone !in Events(START, cs, pkg) ==> Lone !in Events(START, out, pkg))
            && PutRules(ok, cs, out, pkg, Rules(ok, StateAt(cs, i), cs[i..j]), Rules(ok, StateAt(cs, i), mid))
  {
    hide NoStray, Rules, Events, After, AllOf, PutRules;
    var a, m, z := cs[..i], cs[i..j], cs[j..];
    var s := StateAt(cs, i);
    assert cs == a + (m + z) && a + mid + z == a + (mid + z);
    assert cs[..j] == a + m;
    AfterConcat(START, a, m);
    NoStrayConcat(START, a, m + z);
    NoStrayConcat(START, a, mid + z);
    NoStrayConcat(s, mid, z);
    EventsConcat(START, a, m + z, pkg);
    EventsConcat(s, m, z, pkg);
    EventsConcat(START, a, mid + z, pkg);
    EventsConcat(s, mid, z, pkg);
    RulesPut(ok, a, m, mid, z, pkg);
  }

  /** The rules after lines with the rules `was` have given way to lines with the rules `now`. */
  ghost predicate PutRules(ok: Verdict, cs: seq<Line>, out: seq<Line>, pkg: string, was: seq<AffinityRule>, now: seq<AffinityRule>)
  {
    && Others(Loaded(ok, out), pkg) == Others(Loaded(ok, cs), pkg)
    && (now != [] ==> Others(Loaded(ok, out), pkg) != Loaded(ok, out))
    && multiset(Loaded(ok, out)) + multiset(was) == multiset(Loaded(ok, cs)) + multiset(now)
  }

  lemma RulesPut(ok: Verdict, a: seq<Line>, m: seq<Line>, mid: seq<Line>, z: seq<Line>, pkg: string)
    requires var s := After(START, a);
             && AllOf(Rules(ok, s, m), pkg) && AllOf(Rules(ok, s, mid), pkg) && Rules(ok, After(s, mid), z) == Rules(ok, After(s, m), z)
    ensures var s := After(START, a); PutRules(ok, a + (m + z), a + (mid + z), pkg, Rules(ok, s, m), Rules(ok, s, mid))
  {
    hide Rules, After, AllOf, Others;
    var s := After(START, a);
    Concat(ok, START, a, m + z);
    Concat(ok, s, m, z);
    Concat(ok, START, a, mid + z);
    Concat(ok, s, mid, z);
    var ra, rm, ri, rz := Rules(ok, START, a), Rules(ok, s, m), Rules(ok, s, mid), Rules(ok, After(s, m), z);
    OthersMiddle(ra, rm, rz, pkg);
    OthersMiddle(ra, ri, rz, pkg);
    if ri != [] {
      HasOwn(ra + (ri + rz), pkg, |ra|, ri);
    }
  }

  lemma OthersMiddle(a: seq<AffinityRule>, m: seq<AffinityRule>, z: seq<AffinityRule>, pkg: string)
    requires AllOf(m, pkg)
    ensures Others(a + (m + z), pkg) == Others(a, pkg) + Others(z, pkg)
  {
    OthersConcat(a, m + z, pkg);
    OthersConcat(m, z, pkg);
    OthersOfNone(m, pkg);
  }

  lemma HasOwn(rs: seq<AffinityRule>, pkg: string, k: nat, own: seq<AffinityRule>)
    requires k < |rs| && own != [] && AllOf(own, pkg) && rs[k] == own[0]
    ensures Others(rs, pkg) != rs
  {
    assert own[0] in own;
    NoneOfPkg(rs, pkg);
    assert rs[k] in rs;
  }

  lemma {:induction false} NoneOfPkg(rs: seq<AffinityRule>, pkg: string)
    ensures forall r | r in Others(rs, pkg) :: r.pkg != pkg
  {
    if rs != [] {
      NoneOfPkg(rs[1..], pkg);
    }
  }

  /** A line that opens pkg by name. */
  predicate Opener(c: Line, pkg: string)
  {
    c.Text? && (c.outer == BareOpen(pkg) || (c.outer.Rule? && c.outer.pkg == pkg && c.outer.open))
  }

  lemma BlockWay(ok: Verdict, s: State, b: seq<Line>, es: seq<Line>, pkg: string)
    requires Block(b, es) && ThreadLines(es) && Opener(b[0], pkg) && pkg != "" && !s.inBlock
    ensures After(s, b) == START && NoStray(s, b) && Lone !in Events(s, b, pkg) && AllOf(Rules(ok, s, b), pkg)
    ensures es != [] && Accepts(ok) ==> Rules(ok, s, b) != []
    ensures es != [] && Accepts(ok) ==> Rules(ok, State(true, pkg, ""), es) != []
    ensures Rules(ok, s, b) == Emit(ok, s, b[0]) + Rules(ok, State(true, pkg, ""), es)
  {
    hide NoStray, Rules, Events, After, ThreadLines, AllOf;
    var close := b[|b| - 1];
    assert b == [b[0]] + (es + [close]);
    var t := Step(s, b[0]);
    assert t == State(true, pkg, "");
    ThreadRun(ok, t, es, pkg);
    One(ok, s, b[0]);
    One(ok, t, close);
    NoStrayOne(s, b[0]);
    NoStrayOne(t, close);
    EventsOfOne(s, b[0], pkg);
    EventsOfOne(t, close, pkg);
    NoStrayConcat(s, [b[0]], es + [close]);
    NoStrayConcat(t, es, [close]);
    EventsConcat(s, [b[0]], es + [close], pkg);
    EventsConcat(t, es, [close], pkg);
    Concat(ok, s, [b[0]], es + [close]);
    Concat(ok, t, es, [close]);
    AllOfJoin(Emit(ok, s, b[0]), Rules(ok, t, es), pkg);
    assert Rules(ok, t, es) + [] == Rules(ok, t, es);
  }

  lemma AllOfJoin(a: seq<AffinityRule>, b: seq<AffinityRule>, pkg: string)
    requires AllOf(a, pkg) && AllOf(b, pkg)
    ensures AllOf(a + b, pkg)
  {
  }

  /** What putting the lines back leaves. */
  ghost predicate PutWell(ok: Verdict, cs: seq<Line>, os: seq<Line>, pkg: string, ts: seq<Line>)
  {
    && NoStray(START, os) && (Lone !in Events(START, cs, pkg) ==> Lone !in Events(START, os, pkg))
    && Others(Loaded(ok, os), pkg) == Others(Loaded(ok, cs), pkg)
    && (Accepts(ok) && ts != [] ==> Others(Loaded(ok, os), pkg) != Loaded(ok, os))
    && multiset(Loaded(ok, os)) == multiset(Loaded(ok, cs)) + multiset(Rules(ok, State(true, pkg, ""), ts))
  }

  lemma PutInBlock(ok: Verdict, rest: seq<string>, pkg: string, c: nat, texts: seq<string>)
    requires var cs := ClassifyAll(rest); NoStray(START, cs) && ThreadLines(ClassifyAll(texts))
    requires S.Scan(ClassifyAll(rest), pkg).blockClose == Some(c) && pkg != ""
    ensures c < |rest| && PutWell(ok, ClassifyAll(rest), ClassifyAll(rest[..c] + texts + rest[c..]), pkg, ClassifyAll(texts))
  {
    hide NoStray, Rules, Events, After, Others, Classify, S.HeaderTo, S.HitsTo, S.OpenTo;
    var cs, ts := ClassifyAll(rest), ClassifyAll(texts);
    S.FirstBlock(cs, pkg, |cs|);
    NoStrayRough(rest);
    HeadFacts(cs, |rest|, c);
    assert S.InTarget(cs, pkg, c);
    var s := StateAt(cs, c);
    ThreadRun(ok, s, ts, pkg);
    assert cs[c..c] == [];
    NoRules(ok, s, pkg);
    StraySuffix(cs, c);
    PutIn(ok, cs, pkg, c, c, ts);
    ClassifySplice(rest, c, c, texts);
  }

  lemma NoRules(ok: Verdict, s: State, pkg: string)
    ensures Rules(ok, s, []) == [] && AllOf([], pkg)
  {
  }

  lemma StraySuffix(cs: seq<Line>, i: nat)
    requires NoStray(START, cs) && i <= |cs|
    ensures NoStray(StateAt(cs, i), cs[i..])
  {
    hide NoStray;
    assert cs == cs[..i] + cs[i..];
    NoStrayConcat(START, cs[..i], cs[i..]);
  }

  lemma PutUnderHeader(ok: Verdict, rest: seq<string>, pkg: string, i: nat, texts: seq<string>)
    requires var cs := ClassifyAll(rest); NoStray(START, cs) && ThreadLines(ClassifyAll(texts))
    requires S.Scan(ClassifyAll(rest), pkg).pkgLine == Some(S.Standalone(i)) && i < |rest| && !HasComment(rest[i]) && pkg != ""
    ensures PutWell(ok, ClassifyAll(rest), ClassifyAll(rest[..i] + BlockLines(OpenedText(rest[i]), texts) + rest[i + 1..]), pkg, ClassifyAll(texts))
  {
    hide NoStray, Rules, Events, After, Others, Classify, S.Scan, HasComment, OpenedText, ThreadLines, AllOf, SingleAt, Opener,
         Emit, Loaded, PutRules, PutWell;
    var cs, ts := ClassifyAll(rest), ClassifyAll(texts);
    HeaderStands(rest, pkg, i);
    var s := StateAt(cs, i);
    OpenedPlain(rest[i], pkg, cs[i].outer.cpus);
    var b := ClassifyAll(BlockLines(OpenedText(rest[i]), texts));
    BlockReads(OpenedText(rest[i]), texts);
    OpensIt(b[0], pkg);
    BlockWay(ok, s, b, ts, pkg);
    assert cs[i..i + 1] == [cs[i]];
    One(ok, s, cs[i]);
    OwnRule(ok, s, cs[i], b[0], pkg);
    StateAtNext(cs, i);
    StraySuffix(cs, i + 1);
    PutIn(ok, cs, pkg, i, i + 1, b);
    ClassifySplice(rest, i, i + 1, BlockLines(OpenedText(rest[i]), texts));
    PutIsWell(ok, cs, cs[..i] + b + cs[i + 1..], pkg, Emit(ok, s, cs[i]), ts);
  }

  lemma HeaderStands(rest: seq<string>, pkg: string, i: nat)
    requires NoStray(START, ClassifyAll(rest)) && i < |rest| && S.Scan(ClassifyAll(rest), pkg).pkgLine == Some(S.Standalone(i))
    ensures var cs := ClassifyAll(rest);
            cs[i] == Classify(rest[i]) && cs[i].Text? && cs[i].outer.Rule? && cs[i].outer.pkg == pkg && !cs[i].outer.open
            && !StateAt(cs, i).inBlock && StateAt(cs, i).cur == ""
  {
    hide NoStray, Classify, S.HitsTo, S.OpenTo, S.CloseTo, S.StateAt, After;
    var cs := ClassifyAll(rest);
    var v := S.FirstHeader(cs, pkg, |cs|);
    NoStrayRough(rest);
    HeadFacts(cs, |rest|, v);
  }

  lemma OpensIt(c: Line, pkg: string)
    requires c.Text? && c.outer.Rule? && c.outer.pkg == pkg && c.outer.open
    ensures Opener(c, pkg)
  {
  }

  lemma OwnRule(ok: Verdict, s: State, c: Line, d: Line, pkg: string)
    requires !s.inBlock && c.Text? && c.outer.Rule? && c.outer.pkg == pkg
    requires d.Text? && d.outer.Rule? && d.outer.pkg == pkg && d.outer.cpus == c.outer.cpus
    ensures AllOf(Emit(ok, s, c), pkg) && Emit(ok, s, d) == Emit(ok, s, c)
  {
  }

  lemma PutIsWell(ok: Verdict, cs: seq<Line>, out: seq<Line>, pkg: string, own: seq<AffinityRule>, ts: seq<Line>)
    requires NoStray(START, out) && (Lone !in Events(START, cs, pkg) ==> Lone !in Events(START, out, pkg))
    requires PutRules(ok, cs, out, pkg, own, own + Rules(ok, State(true, pkg, ""), ts))
    requires ts != [] && Accepts(ok) ==> Rules(ok, State(true, pkg, ""), ts) != []
    ensures PutWell(ok, cs, out, pkg, ts)
  {
    hide NoStray, Rules, Events, Others, Loaded;
    PutMore(Loaded(ok, cs), Loaded(ok, out), own, Rules(ok, State(true, pkg, ""), ts));
  }

  lemma PutMore(was: seq<AffinityRule>, now: seq<AffinityRule>, own: seq<AffinityRule>, more: seq<AffinityRule>)
    requires multiset(now) + multiset(own) == multiset(was) + multiset(own + more)
    ensures multiset(now) == multiset(was) + multiset(more)
  {
    assert multiset(own + more) == multiset(own) + multiset(more);
    forall r ensures multiset(now)[r] == multiset(was)[r] + multiset(more)[r] {
      assert (multiset(now) + multiset(own))[r] == (multiset(was) + multiset(own + more))[r];
    }
  }

  lemma PutFresh(ok: Verdict, rest: seq<string>, pkg: string, at: nat, texts: seq<string>)
    requires var cs := ClassifyAll(rest); NoStray(START, cs) && ThreadLines(ClassifyAll(texts))
    requires at <= |rest| && PkgSafe(pkg)
    requires var cs := ClassifyAll(rest); !StateAt(cs, at).inBlock && NoStray(START, cs[at..])
    ensures PutWell(ok, ClassifyAll(rest), ClassifyAll(rest[..at] + BlockLines(BareOpenLine(pkg), texts) + rest[at..]), pkg, ClassifyAll(texts))
  {
    hide NoStray, Rules, Events, After, Others, Classify, PkgSafe, BareOpenLine, ThreadLines, AllOf, PutRules, PutWell;
    var cs, ts := ClassifyAll(rest), ClassifyAll(texts);
    var s := StateAt(cs, at);
    SafeName(pkg);
    OpenLine(pkg);
    var b := ClassifyAll(BlockLines(BareOpenLine(pkg), texts));
    BlockReads(BareOpenLine(pkg), texts);
    BlockWay(ok, s, b, ts, pkg);
    NoCurrentOutside(cs, at);
    PendMoot(ok, s.pend, cs[at..]);
    assert cs[at..at] == [];
    NoRules(ok, s, pkg);
    PutIn(ok, cs, pkg, at, at, b);
    assert Rules(ok, s, b) == [] + Rules(ok, State(true, pkg, ""), ts);
    PutIsWell(ok, cs, cs[..at] + b + cs[at..], pkg, [], ts);
    ClassifySplice(rest, at, at, BlockLines(BareOpenLine(pkg), texts));
  }

  lemma PutBackRough(ok: Verdict, rest: seq<string>, pkg: string, at: nat, texts: seq<string>)
    requires var cs := ClassifyAll(rest); NoStray(START, cs) && ThreadLines(ClassifyAll(texts))
    requires at <= |rest| && PkgSafe(pkg) && !BraceInComment(rest, pkg)
    requires var cs := ClassifyAll(rest); !StateAt(cs, at).inBlock && NoStray(START, cs[at..])
    ensures PutWell(ok, ClassifyAll(rest), ClassifyAll(PutBack(rest, pkg, at, texts)), pkg, ClassifyAll(texts))
  {
    hide NoStray, Events, Classify, PkgSafe, BareOpenLine, OpenedText, HasComment, BlockLines, S.HeaderTo, S.CloseTo, S.HitsTo, S.OpenTo,
         PutWell, ThreadLines;
    SafeName(pkg);
    var t := S.Scan(ClassifyAll(rest), pkg);
    if t.blockClose.Some? {
      PutInBlock(ok, rest, pkg, t.blockClose.value, texts);
    } else if t.pkgLine.Some? && t.pkgLine.value.Standalone? {
      PutUnderHeader(ok, rest, pkg, t.pkgLine.value.idx, texts);
    } else {
      PutFresh(ok, rest, pkg, at, texts);
    }
  }

  // ----- the whole move

  /** The single-line rules leave their lines. */
  predicate MovesSingles(lines: seq<string>, pkg: string)
  {
    var t := S.Scan(ClassifyAll(lines), pkg);
    var locs := SinglesOf(t.hits);
    && locs != []
    && !(t.blockClose.None? && ((exists l :: l in locs && l.open) || (t.pkgLine.Some? && !t.pkgLine.value.Standalone?)))
  }

  /** If they do, they can be printed, and no brace is written into a comment. */
  predicate MovesWell(lines: seq<string>, pkg: string)
  {
    MovesSingles(lines, pkg) ==>
      && SinglesPrint(ClassifyAll(lines), pkg)
      && !BraceInComment(Stripped(lines, pkg, SinglesOf(S.Scan(ClassifyAll(lines), pkg).hits), 0), pkg)
  }

  lemma MovedRough(ok: Verdict, lines: seq<string>, pkg: string)
    requires NoStray(START, ClassifyAll(lines)) && PkgSafe(pkg) && MovesSingles(lines, pkg) && MovesWell(lines, pkg)
    ensures MovedWell(ok, ClassifyAll(lines), ClassifyAll(Normalized(lines, pkg)), pkg)
  {
    hide NoStray, Events, Classify, PkgSafe, Loaded, Others, BraceInComment, SinglesOf, S.Scan, PutBack, Worked, ThreadLines, SingleTexts,
         LeavingRules, PutWell, MovedWell;
    var cs := ClassifyAll(lines);
    var locs := SinglesOf(S.Scan(cs, pkg).hits);
    var rest := Stripped(lines, pkg, locs, 0);
    RecordedSingles(lines, pkg);
    StrippedWorked(ok, lines, pkg, locs, 0);
    TextsRead(lines, pkg);
    var at := locs[0].idx;
    forall k | 0 <= k < at ensures !SingleAt(cs, pkg, k) {
      FirstIsLeast(locs, |lines|, k);
    }
    AllWorked(ok, lines, ClassifyAll(rest), pkg, at);
    PutBackRough(ok, rest, pkg, at, SingleTexts(lines, locs));
    TextsRules(ok, lines, pkg, 0);
    var ts := ClassifyAll(SingleTexts(lines, locs));
    assert ts[0..] == ts;
    PutOver(ok, cs, ClassifyAll(rest), ClassifyAll(Normalized(lines, pkg)), pkg, ts);
  }

  /** The lines put back ask for the rules taken out. */
  lemma {:induction false} TextsRules(ok: Verdict, lines: seq<string>, pkg: string, k: nat)
    requires NoStray(START, ClassifyAll(lines)) && SinglesPrint(ClassifyAll(lines), pkg)
    requires k <= |SinglesOf(S.Scan(ClassifyAll(lines), pkg).hits)|
    ensures var locs := SinglesOf(S.Scan(ClassifyAll(lines), pkg).hits);
            Rules(ok, State(true, pkg, ""), ClassifyAll(SingleTexts(lines, locs))[k..]) == LeavingRules(ok, ClassifyAll(lines), locs, k)
    decreases |SinglesOf(S.Scan(ClassifyAll(lines), pkg).hits)| - k
  {
    hide NoStray, Classify, SinglesOf, S.Scan, SingleText, EntrySafe, CpuText;
    var cs := ClassifyAll(lines);
    var locs := SinglesOf(S.Scan(cs, pkg).hits);
    var ts := ClassifyAll(SingleTexts(lines, locs));
    if k < |locs| {
      TextsRules(ok, lines, pkg, k + 1);
      RecordedSingles(lines, pkg);
      assert SingleAt(cs, pkg, locs[k].idx);
      SingleReads(lines[locs[k].idx]);
      assert ts[k..][1..] == ts[k + 1..];
    }
  }

  lemma FirstIsLeast(locs: seq<S.ThreadLoc>, n: nat, k: nat)
    requires InLineOrder(locs, n) && locs != [] && k < locs[0].idx
    ensures !exists l :: l in locs && l.idx == k
  {
    if l :| l in locs && l.idx == k {
      var i :| 0 <= i < |locs| && locs[i] == l;
      if i > 0 {
        Increasing(locs, 0, i);
      }
    }
  }

  /** What normalizing leaves. */
  ghost predicate MovedWell(ok: Verdict, cs: seq<Line>, os: seq<Line>, pkg: string)
  {
    && NoStray(START, os) && Lone !in Events(START, os, pkg) && Others(Loaded(ok, os), pkg) == Others(Loaded(ok, cs), pkg)
    && (Accepts(ok) ==> Others(Loaded(ok, os), pkg) != Loaded(ok, os)) && multiset(Loaded(ok, os)) == multiset(Loaded(ok, cs))
  }

  lemma PutOver(ok: Verdict, a: seq<Line>, b: seq<Line>, c: seq<Line>, pkg: string, ts: seq<Line>)
    requires Others(Loaded(ok, b), pkg) == Others(Loaded(ok, a), pkg) && PutWell(ok, b, c, pkg, ts) && ts != []
    requires Lone !in Events(START, b, pkg)
    requires multiset(Loaded(ok, a)) == multiset(Loaded(ok, b)) + multiset(Rules(ok, State(true, pkg, ""), ts))
    ensures MovedWell(ok, a, c, pkg)
  {
    hide NoStray, Events, Loaded, Others;
  }

  lemma AllWorked(ok: Verdict, lines: seq<string>, cs: seq<Line>, pkg: string, at: nat)
    requires NoStray(START, ClassifyAll(lines)) && Worked(ok, ClassifyAll(lines), cs, pkg, at)
    requires at < |lines| && SingleAt(ClassifyAll(lines), pkg, at)
    requires forall k | 0 <= k < at :: !SingleAt(ClassifyAll(lines), pkg, k)
    ensures at <= |cs| && !StateAt(cs, at).inBlock && NoStray(START, cs) && Lone !in Events(START, cs, pkg)
    ensures Others(Loaded(ok, cs), pkg) == Others(Loaded(ok, ClassifyAll(lines)), pkg)
  {
    hide Classify, NoStray, Events, Loaded, Others;
    var os := ClassifyAll(lines);
    forall k | 0 <= k < at ensures !SingleAt(cs, pkg, k) {
      assert cs[k] == cs[..at][k] == os[..at][k] == os[k];
      assert cs[..k] == cs[..at][..k] == os[..at][..k] == os[..k];
      assert !SingleAt(os, pkg, k);
    }
    NoLoneFrom(cs, pkg, 0, at);
    assert cs[..0] == [] && cs[0..] == cs;
  }

  /** Normalizing keeps every rule, and the other packages' rules in their order; the file is
      then as the rounds need it. */
  lemma NormalizedRough(ok: Verdict, lines: seq<string>, pkg: string)
    requires NoStray(START, ClassifyAll(lines)) && PkgSafe(pkg) && MovesWell(lines, pkg)
    ensures var moved := Normalized(lines, pkg);
            && NoStray(START, ClassifyAll(moved)) && Round(ClassifyAll(moved), pkg, |moved|)
            && Others(Loaded(ok, ClassifyAll(moved)), pkg) == Others(Loaded(ok, ClassifyAll(lines)), pkg)
            && multiset(Loaded(ok, ClassifyAll(moved))) == multiset(Loaded(ok, ClassifyAll(lines)))
            && (!MovesSingles(lines, pkg) ==> moved == lines)
            && (MovesSingles(lines, pkg) && Accepts(ok) ==>
                  Others(Loaded(ok, ClassifyAll(moved)), pkg) != Loaded(ok, ClassifyAll(moved)))
  {
    hide NoStray, Events, Classify, PkgSafe, Loaded, Others, BraceInComment, SinglesOf, PutBack, MovesWell, Rough, S.HitsTo, S.HeaderTo,
         S.OpenTo, S.CloseTo, Stripped, SinglesPrint;
    var moved := Normalized(lines, pkg);
    SafeName(pkg);
    NoStrayRough(lines);
    if MovesSingles(lines, pkg) {
      MovedRough(ok, lines, pkg);
      NoStrayRough(moved);
      assert ClassifyAll(moved)[..|moved|] == ClassifyAll(moved);
      RoughRounds.NoLoneNoSingles(ClassifyAll(moved), pkg, |moved|, |moved|);
    }
  }

  /** On such files the scanner reads what is normalized as the loader does, so what `Answers`
      and `Written` say holds for them. */
  lemma NormalizedAgrees(lines: seq<string>, pkg: string)
    requires NoStray(START, ClassifyAll(lines)) && PkgSafe(pkg) && MovesWell(lines, pkg)
    ensures S.NoOrphans(ClassifyAll(Normalized(lines, pkg)), |Normalized(lines, pkg)|)
  {
    hide NoStray, Classify, PkgSafe, Normalized, MovesWell, Loaded, Others, Round, S.NoOrphans;
    var cs := ClassifyAll(Normalized(lines, pkg));
    NormalizedRough((p, t, c) => true, lines, pkg);
    NoneStray(cs);
  }

  lemma NoneStray(cs: seq<Line>)
    requires NoStray(START, cs)
    ensures S.NoOrphans(cs, |cs|)
  {
    hide NoStray, StrayOpen, S.NoOrphans;
    forall i: nat | i < |cs| ensures !StrayOpen(StateAt(cs, i), cs[i]) {
      NoStrayAt(cs, i);
    }
    NoStrayNoOrphans(cs, |cs|);
  }

  // ----- the deletion

  /** On every file in which the loader meets no stray opening brace, whatever else is wrong
      with it (an unclosed block of this package or of another, garbage, waiting lines, rules
      that are turned down): after the deletion no rule of the package is loaded, and the
      rules of all other packages are those loaded before, in their order. */
  lemma DeletePkgRough(ok: Verdict, lines: seq<string>, pkg: string)
    requires Nameless(ok) && PkgSafe(pkg) && NoStray(START, ClassifyAll(lines)) && MovesWell(lines, pkg)
    ensures Loaded(ok, ClassifyAll(DeletedPkg(lines, pkg).lines)) == Others(Loaded(ok, ClassifyAll(lines)), pkg)
  {
    hide NoStray, Classify, PkgSafe, Loaded, Others, Normalized, MovesWell, MovesSingles, Round, AnyLine, S.Scan, Purged;
    var moved := Normalized(lines, pkg);
    NormalizedRough(ok, lines, pkg);
    if AnyLine(S.Scan(ClassifyAll(moved), pkg)) {
      PurgedRough(ok, moved, pkg, |moved|);
    } else {
      NotMoved(lines, pkg);
      InRound(ClassifyAll(moved), pkg, |moved|);
      RoughRounds.NothingLeft(ok, ClassifyAll(moved), pkg, |moved|);
    }
  }

  /** Moved rules leave something to be deleted. */
  lemma NotMoved(lines: seq<string>, pkg: string)
    requires NoStray(START, ClassifyAll(lines)) && PkgSafe(pkg) && MovesWell(lines, pkg)
    requires !AnyLine(S.Scan(ClassifyAll(Normalized(lines, pkg)), pkg))
    ensures !MovesSingles(lines, pkg) && Normalized(lines, pkg) == lines
  {
    hide NoStray, Classify, PkgSafe, Loaded, Others, Normalized, MovesWell, MovesSingles, Round, AnyLine, S.Scan;
    var any: Verdict := (p, t, c) => p != "";
    var moved := Normalized(lines, pkg);
    NormalizedRough(any, lines, pkg);
    InRound(ClassifyAll(moved), pkg, |moved|);
    RoughRounds.NothingLeft(any, ClassifyAll(moved), pkg, |moved|);
  }
}
