/** The rounds of `rule_delete_pkg` on a file with any failure but a stray opening brace: an
    unclosed block, garbage inside and outside of blocks, waiting lines, rules that are
    turned down. */
module RoughRounds {
  import opened Base
  import opened Text
  import opened Lines
  import opened Syntax
  import opened Loader
  import opened Edits
  import opened Tracking
  import opened Stripping
  import opened Purging
  import opened RuleEdits
  import opened StrayBraces
  import opened RuleFiles
  import S = Scanner

  // ----- lines without rules

  /** No rule, wherever the line stands, but perhaps one of a package without a name. */
  predicate Mute(c: Line)
  {
    c.Skip? || (c.inner.Bad? && !c.inner.closes && !c.outer.Single? && (c.outer.Rule? ==> c.outer.pkg == ""))
  }

  predicate Lawful(c: Line)
  {
    Named(c) && (c.Text? && c.inner.Bad? && !c.inner.closes ==> Mute(c))
  }

  /** A line that is no rule inside a block is none outside. */
  lemma ReadLawful(raw: string)
    ensures Lawful(Classify(raw))
  {
    hide Trim, Find;
    var p := Trim(raw);
    var c := Classify(raw);
    if c.Text? && c.inner.Bad? && !c.inner.closes {
      BadOutside(StripComment(p));
      NoBraceLeft(p);
    }
  }

  lemma NoBraceLeft(p: string)
    requires '}' !in p
    ensures '}' !in StripComment(p)
  {
    match CommentAt(p) {
      case Some(at) => assert forall i | 0 <= i < at :: p[..at][i] == p[i];
      case None =>
    }
  }

  lemma BadOutside(q: string)
    requires SplitRuleCore(q).None?
    ensures var o := ParseOuterCore(q); '}' !in q ==> !o.Single? && (o.Rule? ==> o.pkg == "")
  {
    hide OpenBody, Trim, SingleNames, Opens, CloseLike, CloserFrom, RFind;
    if '}' !in q {
      var body := OpenBody(q);
      SameEq(q);
      RFindFacts(body, '=');
      var e := RFind(body, '=');
      if e >= 0 {
        NoSingleWithout(body[..e]);
      }
      NoCloserWithout(q);
    }
  }

  lemma NoCloserWithout(q: string)
    requires '}' !in q
    ensures CloserFrom(q, 0).None?
  {
    CloserNone(q);
  }

  /** The last `=` of an outer line is that of its body. */
  lemma SameEq(q: string)
    ensures var body := OpenBody(q);
            RFind(body, '=') >= 0 ==> RFind(q, '=') == RFind(body, '=') && body[..RFind(body, '=')] == q[..RFind(body, '=')]
    ensures var body := OpenBody(q); '}' !in q ==> '}' !in body
  {
    BodyOfPrefix(q);
    var body := OpenBody(q);
    var n :| 0 <= n <= |q| && body == q[..n] && '=' !in q[n..];
    hide OpenBody;
    var e := RFind(body, '=');
    RFindFacts(body, '=');
    if e >= 0 {
      var v := body[e + 1..] + q[n..];
      assert q == body[..e] + ['='] + v;
      RFindIs(body[..e], '=', v);
    }
  }

  lemma BodyOfPrefix(q: string)
    ensures exists n :: 0 <= n <= |q| && OpenBody(q) == q[..n] && '=' !in q[n..]
  {
    if q != "" && q[|q| - 1] == '{' {
      var f := q[..|q| - 1];
      BodyFacts(f);
      var n := BodyLen(f);
      assert f[..n] == q[..n];
      forall i | n <= i < |q| ensures q[i] != '=' {
        if i < |q| - 1 {
          assert IsWs(f[i]);
        }
      }
      assert OpenBody(q) == q[..n];
    } else {
      assert q[..|q|] == q && q[|q|..] == "";
    }
  }

  lemma NoSingleWithout(l: string)
    requires '}' !in l
    ensures SingleNames(l).None?
  {
    BodyFacts(l);
    var t := TrimEnd(l);
    assert t != "" ==> t[|t| - 1] == l[|t| - 1];
  }

  lemma {:induction false} MuteRun(ok: Verdict, s: State, cs: seq<Line>, pkg: string)
    requires (forall k | 0 <= k < |cs| :: Mute(cs[k])) && forall t, c :: !ok("", t, c)
    ensures Rules(ok, s, cs) == [] && Lone !in Events(s, cs, pkg)
    decreases |cs|
  {
    if cs != [] {
      hide Step;
      MuteLine(ok, s, cs[0], pkg);
      MuteRun(ok, Step(s, cs[0]), cs[1..], pkg);
      hide Emit, EventOf, Mute;
    }
  }

  lemma MuteLine(ok: Verdict, s: State, c: Line, pkg: string)
    requires Mute(c) && forall t, c :: !ok("", t, c)
    ensures Emit(ok, s, c) == [] && Lone !in EventOf(s, c, pkg)
  {
  }

  // ----- the file in front of line b is free of stray braces, the rest is mute

  ghost predicate Rough(cs: seq<Line>, b: nat)
  {
    && b <= |cs| && NoStray(START, cs[..b]) && (forall k | b <= k < |cs| :: Mute(cs[k]))
    && forall k | 0 <= k < |cs| :: Lawful(cs[k])
  }

  lemma HeadFacts(cs: seq<Line>, b: nat, k: nat)
    requires Rough(cs, b) && k <= b
    ensures S.NoOrphans(cs, k) && S.Agree(cs, StateAt(cs, k), S.StateAt(cs, k))
    ensures k < b ==> !StrayOpen(StateAt(cs, k), cs[k])
    ensures k < |cs| ==> StateAt(cs, k + 1) == Step(StateAt(cs, k), cs[k])
    ensures !StateAt(cs, k).inBlock ==> StateAt(cs, k).cur == ""
    ensures StateAt(cs, k).inBlock ==> StateAt(cs, k).pend == "" && S.StateAt(cs, k).pend.None?
  {
    hide StrayOpen, NoStray, Lawful, Mute;
    forall i | 0 <= i < b ensures !StrayOpen(StateAt(cs, i), cs[i]) {
      NoStrayAt(cs[..b], i);
      assert cs[..b][..i] == cs[..i];
    }
    NoStrayNoOrphans(cs, k);
    NoCurrentOutside(cs, k);
    S.PendingRun(cs, k);
    if k < |cs| {
      StateAtNext(cs, k);
    }
  }

  lemma AllNamed(cs: seq<Line>, b: nat)
    requires Rough(cs, b)
    ensures forall j | 0 <= j < |cs| :: Named(cs[j])
  {
    hide Mute, NoStray, Named;
    forall j | 0 <= j < |cs| ensures Named(cs[j]) {
      assert Lawful(cs[j]);
    }
  }

  // ----- what the scanner records

  lemma {:induction false} SingleListed(cs: seq<Line>, pkg: string, n: nat, k: nat)
    requires k < n <= |cs| && S.HitAt(cs, pkg, k).Some? && S.HitAt(cs, pkg, k).value.loc.single
    ensures S.HitAt(cs, pkg, k).value.loc in SingleLocs(cs, pkg, n)
  {
    hide S.HitAt, SingleLocs;
    SingleLocsNext(cs, pkg, n - 1);
    if k < n - 1 {
      SingleListed(cs, pkg, n - 1, k);
    }
  }

  /** No single-line rule of the package, or no closed block. */
  predicate NoLones(cs: seq<Line>, pkg: string)
  {
    SinglesOf(S.Scan(cs, pkg).hits) == [] || S.Scan(cs, pkg).blockClose.None?
  }

  lemma OpensAt(cs: seq<Line>, pkg: string, k: nat)
    requires k < |cs| && Named(cs[k]) && pkg != "" && !S.StateAt(cs, k).inBlock && S.InTarget(cs, pkg, k + 1)
    ensures S.HeaderAt(cs, pkg, k).Some? || (S.HitAt(cs, pkg, k).Some? && S.HitAt(cs, pkg, k).value.loc.single)
  {
  }

  /** A header that opens a block, or a single-line rule that does, opens the first one. */
  lemma FirstOpening(cs: seq<Line>, pkg: string, k: nat)
    requires k < |cs| && Named(cs[k]) && pkg != "" && NoLones(cs, pkg) && !S.StateAt(cs, k).inBlock && S.InTarget(cs, pkg, k + 1)
    requires (forall j | 0 <= j < |cs| :: Named(cs[j]))
    requires (S.HitAt(cs, pkg, k).Some? && S.HitAt(cs, pkg, k).value.loc.single) || forall j | 0 <= j < k :: S.HeaderAt(cs, pkg, j).None?
    ensures S.Scan(cs, pkg).blockOpen == Some(k)
  {
    hide S.HitAt, S.HeaderAt, S.StateAt, Named, S.OpenTo, S.CloseTo, SinglesOf;
    S.FirstBlock(cs, pkg, |cs|);
    NotInside(cs, pkg, k);
    var o := S.Scan(cs, pkg).blockOpen.value;
    if S.HitAt(cs, pkg, k).Some? && S.HitAt(cs, pkg, k).value.loc.single {
      SingleListed(cs, pkg, |cs|, k);
    }
    if o < k {
      OpensAt(cs, pkg, o);
      if S.HitAt(cs, pkg, o).Some? && S.HitAt(cs, pkg, o).value.loc.single {
        SingleListed(cs, pkg, |cs|, o);
      }
    }
  }

  lemma {:induction false} LastListed(cs: seq<Line>, pkg: string, n: nat)
    requires n <= |cs|
    ensures var l := LastInBlock(S.HitsTo(cs, pkg, n));
            && (l.Some? ==> l.value < n && S.HitAt(cs, pkg, l.value).Some? && !S.HitAt(cs, pkg, l.value).value.loc.single)
            && forall k | 0 <= k < n && S.HitAt(cs, pkg, k).Some? && !S.HitAt(cs, pkg, k).value.loc.single :: l.Some? && k <= l.value
  {
    hide S.HitAt, LastInBlock;
    if n > 0 {
      LastListed(cs, pkg, n - 1);
      LastNext(cs, pkg, n - 1);
      S.HitIndex(cs, pkg, n - 1);
    } else {
      NoLast(cs, pkg);
    }
  }

  lemma NoLast(cs: seq<Line>, pkg: string)
    ensures LastInBlock(S.HitsTo(cs, pkg, 0)).None?
  {
  }

  lemma LastNext(cs: seq<Line>, pkg: string, n: nat)
    requires n < |cs|
    ensures var h := S.HitAt(cs, pkg, n);
            LastInBlock(S.HitsTo(cs, pkg, n + 1)) ==
              if h.Some? && !h.value.loc.single then Some(h.value.loc.idx) else LastInBlock(S.HitsTo(cs, pkg, n))
  {
    hide S.HitAt;
    var hits := S.HitsTo(cs, pkg, n + 1);
    if S.HitAt(cs, pkg, n).Some? {
      assert hits[..|hits| - 1] == S.HitsTo(cs, pkg, n);
    } else {
      assert hits == S.HitsTo(cs, pkg, n);
    }
  }

  /** Where the lines that can hold rules end, once the round is done. */
  function Break(t: S.Target, b: nat): nat
  {
    if t.blockOpen.Some? && t.blockOpen.value < b && t.blockClose.None? then BlockEnd(t, t.blockOpen.value) + 1 else b
  }

  lemma InTargetHit(cs: seq<Line>, pkg: string, k: nat)
    requires k < |cs| && S.InTarget(cs, pkg, k) && Lawful(cs[k])
    ensures S.InTarget(cs, pkg, k + 1) && S.HitAt(cs, pkg, k).None? ==> Mute(cs[k])
    ensures S.InTarget(cs, pkg, k + 1) && S.HitAt(cs, pkg, k).Some? ==> !S.HitAt(cs, pkg, k).value.loc.single
    ensures Mute(cs[k]) ==> S.HitAt(cs, pkg, k).None? && S.InTarget(cs, pkg, k + 1)
  {
  }

  /** Behind an unclosed block's last rule stands nothing but mute lines. */
  lemma BreakFacts(cs: seq<Line>, pkg: string, b: nat)
    requires Rough(cs, b) && pkg != ""
    ensures var t := S.Scan(cs, pkg);
            var m := Break(t, b);
            && m <= b && (forall k | m <= k < |cs| :: Mute(cs[k]))
            && (t.blockOpen.Some? && t.blockOpen.value < b && t.blockClose.None? ==> t.blockOpen.value < m)
            && (t.blockOpen.Some? && t.blockOpen.value < b && t.blockClose.Some? ==> t.blockClose.value < b)
  {
    hide S.HitAt, S.StateAt, Mute, Lawful, NoStray, S.OpenTo, S.CloseTo, LastInBlock, S.HitsTo, S.InTarget;
    var t := S.Scan(cs, pkg);
    S.FirstBlock(cs, pkg, |cs|);
    LastListed(cs, pkg, |cs|);
    if t.blockOpen.Some? && t.blockOpen.value < b {
      var o := t.blockOpen.value;
      if t.blockClose.Some? {
        var c := t.blockClose.value;
        InTargetHit(cs, pkg, c);
        NotInside(cs, pkg, c + 1);
      } else {
        var m := Break(t, b);
        var l := LastInBlock(t.hits);
        if l.Some? {
          HitInTarget(cs, pkg, l.value);
          InTargetHit(cs, pkg, l.value);
        }
        forall k | m <= k < |cs| ensures Mute(cs[k]) {
          InTargetHit(cs, pkg, k);
        }
      }
    }
  }

  lemma NotInside(cs: seq<Line>, pkg: string, k: nat)
    requires k <= |cs|
    ensures !S.StateAt(cs, k).inBlock ==> !S.InTarget(cs, pkg, k)
  {
  }

  lemma HitInTarget(cs: seq<Line>, pkg: string, k: nat)
    requires k < |cs| && S.HitAt(cs, pkg, k).Some? && !S.HitAt(cs, pkg, k).value.loc.single
    ensures S.InTarget(cs, pkg, k)
  {
  }

  // ----- which lines go

  /** The line stands in the block that goes. */
  predicate InDoomed(t: S.Target, k: nat)
  {
    t.blockOpen.Some? && t.blockOpen.value < k && (t.blockClose.Some? ==> k <= t.blockClose.value)
  }

  /** The setting of one round. */
  ghost predicate Round(cs: seq<Line>, pkg: string, b: nat)
  {
    Rough(cs, b) && pkg != "" && NoLones(cs, pkg)
  }

  /** A line inside a block goes exactly when its block goes. */
  lemma DoomedInside(cs: seq<Line>, pkg: string, b: nat, k: nat)
    requires Round(cs, pkg, b) && k < Break(S.Scan(cs, pkg), b) <= b && StateAt(cs, k).inBlock
    ensures var t := S.Scan(cs, pkg);
            && (Doomed(t, k) <==> InDoomed(t, k)) && (InDoomed(t, k) ==> StateAt(cs, k).cur == pkg)
            && (Step(StateAt(cs, k), cs[k]).inBlock ==> (InDoomed(t, k + 1) <==> InDoomed(t, k)))
  {
    hide S.HitAt, S.HeaderAt, S.StateAt, Lawful, NoStray, S.OpenTo, S.CloseTo, S.HitsTo, S.HeaderTo, SinglesOf, NoLones;
    var t := S.Scan(cs, pkg);
    HeadFacts(cs, b, k);
    HeadFacts(cs, b, k + 1);
    S.FirstBlock(cs, pkg, |cs|);
    HeaderOutside(cs, pkg, k);
    SinglesOutside(cs, pkg, k);
    BlockLine(cs, pkg, k);
  }

  lemma BlockLine(cs: seq<Line>, pkg: string, k: nat)
    requires k < |cs|
    ensures S.InTarget(cs, pkg, k) ==> S.StateAt(cs, k).inBlock && S.StateAt(cs, k).cur == pkg
    ensures S.StateAt(cs, k).inBlock && S.StateAt(cs, k + 1).inBlock ==> S.StateAt(cs, k + 1).cur == S.StateAt(cs, k).cur
  {
  }

  /** The recorded package line stands outside every block. */
  lemma HeaderOutside(cs: seq<Line>, pkg: string, k: nat)
    requires k < |cs| && S.StateAt(cs, k).inBlock
    ensures var h := S.Scan(cs, pkg).pkgLine; h.Some? ==> h.value.idx != k
  {
    var v := S.FirstHeader(cs, pkg, |cs|);
    if v < |cs| {
      S.PendingRun(cs, v);
    }
  }

  lemma SinglesOutside(cs: seq<Line>, pkg: string, k: nat)
    requires k < |cs|
    ensures (exists l :: l in SinglesOf(S.Scan(cs, pkg).hits) && l.idx == k) <==>
              S.HitAt(cs, pkg, k).Some? && S.HitAt(cs, pkg, k).value.loc.single
    ensures S.HitAt(cs, pkg, k).Some? && S.HitAt(cs, pkg, k).value.loc.single ==>
              !S.StateAt(cs, k).inBlock && cs[k].Text? && cs[k].outer.Single? && cs[k].outer.pkg == pkg
    ensures cs[k].Text? && !S.StateAt(cs, k).inBlock && cs[k].outer.Single? && cs[k].outer.pkg == pkg && Named(cs[k]) ==>
              S.HitAt(cs, pkg, k).Some? && S.HitAt(cs, pkg, k).value.loc.single
  {
    SinglesHit(cs, pkg, |cs|);
    S.HitIndex(cs, pkg, k);
    if S.HitAt(cs, pkg, k).Some? && S.HitAt(cs, pkg, k).value.loc.single {
      SingleListed(cs, pkg, |cs|, k);
    }
  }

  /** Outside every block these lines go: the recorded header, the opening of the block that
      goes, and single-line rules. */
  lemma DoomedKinds(cs: seq<Line>, pkg: string, b: nat, k: nat)
    requires Round(cs, pkg, b) && k < Break(S.Scan(cs, pkg), b) <= b && !StateAt(cs, k).inBlock
    ensures var t := S.Scan(cs, pkg);
            && (Doomed(t, k) <==>
                 (t.pkgLine.Some? && k == t.pkgLine.value.idx) || t.blockOpen == Some(k)
                 || (S.HitAt(cs, pkg, k).Some? && S.HitAt(cs, pkg, k).value.loc.single))
            && (InDoomed(t, k + 1) <==> t.blockOpen == Some(k))
  {
    hide S.HitAt, S.HeaderAt, S.StateAt, Lawful, NoStray, S.OpenTo, S.CloseTo, S.HitsTo, S.HeaderTo, SinglesOf, NoLones;
    var t := S.Scan(cs, pkg);
    HeadFacts(cs, b, k);
    S.FirstBlock(cs, pkg, |cs|);
    SinglesOutside(cs, pkg, k);
    NotInside(cs, pkg, k);
  }

  lemma HeaderLine(cs: seq<Line>, pkg: string, v: nat)
    requires v < |cs| && pkg != "" && S.HeaderAt(cs, pkg, v).Some?
    ensures var h := S.HeaderAt(cs, pkg, v).value;
            && !S.StateAt(cs, v).inBlock && cs[v].Text? && OwnLine(cs[v], pkg) && !cs[v].outer.Pending?
            && (S.StateAt(cs, v + 1).inBlock ==> S.InTarget(cs, pkg, v + 1))
            && (!h.BarePending? ==> h.idx == v)
            && (h.BarePending? ==> S.StateAt(cs, v).pend == Some(h.idx) && S.InTarget(cs, pkg, v + 1)
                                   && h.idx < |cs| && cs[h.idx].Text? && cs[h.idx].outer == Pending(pkg))
  {
    S.PendingRun(cs, v);
  }

  /** Nothing on the line belongs to another package. */
  predicate OwnLine(c: Line, pkg: string)
  {
    c.Text? && !c.outer.Junk? && (c.outer.pkg == pkg || c.outer == BareOpen(""))
  }

  lemma OwnAsks(s: State, c: Line, pkg: string)
    requires !s.inBlock && OwnLine(c, pkg)
    ensures forall r | r in Asked(s, c) :: r.pkg == pkg
    ensures Step(s, c).pend != "" ==> c.outer.Pending?
  {
  }

  lemma SingleLine(cs: seq<Line>, pkg: string, k: nat)
    requires k < |cs| && S.HitAt(cs, pkg, k).Some? && S.HitAt(cs, pkg, k).value.loc.single
    ensures OwnLine(cs[k], pkg) && !cs[k].outer.Pending? && !S.StateAt(cs, k).inBlock
    ensures S.StateAt(cs, k + 1).inBlock ==> S.InTarget(cs, pkg, k + 1)
  {
  }

  lemma PendingSeen(cs: seq<Line>, k: nat)
    requires k < |cs| && cs[k].Text? && !S.StateAt(cs, k).inBlock && cs[k].outer.Pending?
    ensures S.StateAt(cs, k + 1).pend == Some(k) && !S.StateAt(cs, k + 1).inBlock
  {
  }

  /** What a doomed line outside every block is. */
  lemma DoomedOutside(cs: seq<Line>, pkg: string, b: nat, k: nat)
    requires Round(cs, pkg, b) && k < Break(S.Scan(cs, pkg), b) <= b && !StateAt(cs, k).inBlock && Doomed(S.Scan(cs, pkg), k)
    ensures var t, s := S.Scan(cs, pkg), StateAt(cs, k);
            && OwnLine(cs[k], pkg)
            && (Step(s, cs[k]).inBlock ==> InDoomed(t, k + 1))
            && (Step(s, cs[k]).pend != "" ==> S.StateAt(cs, k + 1).pend == Some(k))
  {
    hide S.HitAt, S.HeaderAt, Lawful, NoStray, S.OpenTo, S.CloseTo, S.HitsTo, S.HeaderTo, SinglesOf, NoLones, Doomed, S.StateAt,
         OwnLine, S.InTarget;
    var t := S.Scan(cs, pkg);
    DoomedKinds(cs, pkg, b, k);
    HeadFacts(cs, b, k);
    HeadFacts(cs, b, k + 1);
    AllNamed(cs, b);
    if t.blockOpen == Some(k) {
      S.FirstBlock(cs, pkg, |cs|);
      OpensAt(cs, pkg, k);
    }
    if S.HitAt(cs, pkg, k).Some? && S.HitAt(cs, pkg, k).value.loc.single {
      SingleLine(cs, pkg, k);
      if S.InTarget(cs, pkg, k + 1) {
        FirstOpening(cs, pkg, k);
      }
    } else if S.HeaderAt(cs, pkg, k).Some? {
      HeaderLine(cs, pkg, k);
    }
    var v := S.FirstHeader(cs, pkg, |cs|);
    if t.pkgLine.Some? && k == t.pkgLine.value.idx {
      HeaderLine(cs, pkg, v);
      if v == k {
        if S.InTarget(cs, pkg, k + 1) {
          FirstOpening(cs, pkg, k);
        }
      } else {
        PendingOwn(cs[k], pkg);
        PendingSeen(cs, k);
      }
    }
    OwnAsks(StateAt(cs, k), cs[k], pkg);
  }

  lemma PendingOwn(c: Line, pkg: string)
    requires c.Text? && c.outer == Pending(pkg)
    ensures OwnLine(c, pkg)
  {
  }

  /** A line outside every block that stays. */
  lemma KeptOutside(cs: seq<Line>, pkg: string, b: nat, k: nat)
    requires Round(cs, pkg, b) && k < Break(S.Scan(cs, pkg), b) <= b && !StateAt(cs, k).inBlock && !Doomed(S.Scan(cs, pkg), k)
    ensures var t, s, c := S.Scan(cs, pkg), StateAt(cs, k), cs[k];
            && !InDoomed(t, k + 1) && (c.Text? && c.outer.Single? ==> c.outer.pkg != pkg)
            && (c.Text? && c.outer == BareOpen("") ==>
                  S.StateAt(cs, k).pend.Some? && s.pend != "" && !Doomed(t, S.StateAt(cs, k).pend.value))
  {
    hide S.HitAt, S.HeaderAt, Lawful, NoStray, S.OpenTo, S.CloseTo, S.HitsTo, S.HeaderTo, SinglesOf, NoLones, Doomed, S.StateAt,
         OwnLine, S.InTarget;
    var t := S.Scan(cs, pkg);
    DoomedKinds(cs, pkg, b, k);
    HeadFacts(cs, b, k);
    SinglesOutside(cs, pkg, k);
    AllNamed(cs, b);
    if cs[k].Text? && cs[k].outer == BareOpen("") {
      BraceStays(cs, pkg, b, k);
    }
  }

  /** A brace that stays has its package line. */
  lemma BraceStays(cs: seq<Line>, pkg: string, b: nat, k: nat)
    requires Round(cs, pkg, b) && k < Break(S.Scan(cs, pkg), b) <= b && !StateAt(cs, k).inBlock && !Doomed(S.Scan(cs, pkg), k)
    requires cs[k].Text? && cs[k].outer == BareOpen("")
    ensures S.StateAt(cs, k).pend.Some? && StateAt(cs, k).pend != "" && !Doomed(S.Scan(cs, pkg), S.StateAt(cs, k).pend.value)
  {
    hide S.HitAt, S.HeaderAt, Lawful, NoStray, S.OpenTo, S.CloseTo, S.HitsTo, S.HeaderTo, SinglesOf, NoLones, Doomed, S.StateAt,
         OwnLine, S.InTarget;
    var t := S.Scan(cs, pkg);
    HeadFacts(cs, b, k);
    S.PendingRun(cs, k);
    var pi := S.StateAt(cs, k).pend.value;
    if Doomed(t, pi) {
      HeadFacts(cs, b, pi);
      DoomedKinds(cs, pkg, b, pi);
      S.FirstBlock(cs, pkg, |cs|);
      PendingSeen(cs, pi);
      NotInside(cs, pkg, pi + 1);
      SinglesOutside(cs, pkg, pi);
      var v := S.FirstHeader(cs, pkg, |cs|);
      HeaderLine(cs, pkg, v);
      S.PendingRun(cs, v);
      assert v == k;
      AllNamed(cs, b);
      FirstOpening(cs, pkg, k);
      DoomedKinds(cs, pkg, b, k);
    }
  }

  // ----- the loader on the file and on what is left of it

  /** State r of the loader on the lines left, and s on all of them, in front of line k. */
  ghost predicate Related(cs: seq<Line>, t: S.Target, k: nat, s: State, r: State)
    requires k <= |cs|
  {
    && (!r.inBlock ==> r.cur == "")
    && (if s.inBlock then (if InDoomed(t, k) then !r.inBlock else r == s)
        else !r.inBlock && (s.pend != "" && S.StateAt(cs, k).pend.Some? && !Doomed(t, S.StateAt(cs, k).pend.value) ==> r.pend == s.pend))
  }

  lemma OthersEmit(ok: Verdict, s: State, c: Line, pkg: string)
    requires forall r | r in Asked(s, c) :: r.pkg == pkg
    ensures Others(Emit(ok, s, c), pkg) == []
  {
    OthersOfNone(Emit(ok, s, c), pkg);
  }

  lemma RelatedDoomed(ok: Verdict, cs: seq<Line>, pkg: string, b: nat, k: nat, r: State)
    requires Round(cs, pkg, b) && k < Break(S.Scan(cs, pkg), b) <= b && Doomed(S.Scan(cs, pkg), k)
    requires Related(cs, S.Scan(cs, pkg), k, StateAt(cs, k), r)
    ensures Related(cs, S.Scan(cs, pkg), k + 1, StateAt(cs, k + 1), r)
    ensures Others(Emit(ok, StateAt(cs, k), cs[k]), pkg) == []
  {
    hide S.Scan, Round, Break, StateAt, S.StateAt, Doomed, Others;
    assert Rough(cs, b) by {
      InRound(cs, pkg, b);
    }
    hide Rough;
    HeadFacts(cs, b, k);
    HeadFacts(cs, b, k + 1);
    if StateAt(cs, k).inBlock {
      DoomedInside(cs, pkg, b, k);
    } else {
      DoomedOutside(cs, pkg, b, k);
      OwnAsks(StateAt(cs, k), cs[k], pkg);
    }
    OthersEmit(ok, StateAt(cs, k), cs[k], pkg);
  }

  lemma InRound(cs: seq<Line>, pkg: string, b: nat)
    ensures Round(cs, pkg, b) ==> Rough(cs, b) && pkg != ""
  {
  }

  lemma RelatedKept(ok: Verdict, cs: seq<Line>, pkg: string, b: nat, k: nat, r: State)
    requires Round(cs, pkg, b) && k < Break(S.Scan(cs, pkg), b) <= b && !Doomed(S.Scan(cs, pkg), k)
    requires Related(cs, S.Scan(cs, pkg), k, StateAt(cs, k), r)
    ensures Related(cs, S.Scan(cs, pkg), k + 1, StateAt(cs, k + 1), Step(r, cs[k]))
    ensures Emit(ok, r, cs[k]) == Emit(ok, StateAt(cs, k), cs[k])
    ensures !StrayOpen(r, cs[k]) && Lone !in EventOf(r, cs[k], pkg)
  {
    hide S.Scan, Round, Break, StateAt, S.StateAt, Doomed;
    assert Rough(cs, b) by {
      InRound(cs, pkg, b);
    }
    hide Rough;
    HeadFacts(cs, b, k);
    HeadFacts(cs, b, k + 1);
    if StateAt(cs, k).inBlock {
      DoomedInside(cs, pkg, b, k);
    } else {
      KeptOutside(cs, pkg, b, k);
      if cs[k].Skip? {
        SkipSeen(cs, k);
      }
    }
  }

  lemma SkipSeen(cs: seq<Line>, k: nat)
    requires k < |cs| && cs[k].Skip?
    ensures S.StateAt(cs, k + 1) == S.StateAt(cs, k)
  {
  }

  /** What is left of the first k lines. */
  ghost predicate Remains(ok: Verdict, cs: seq<Line>, pkg: string, t: S.Target, k: nat)
    requires k <= |cs|
  {
    var kept := Dropped(cs, t, k);
    && NoStray(START, kept) && Lone !in Events(START, kept, pkg)
    && Others(Rules(ok, START, kept), pkg) == Others(Rules(ok, START, cs[..k]), pkg)
    && Related(cs, t, k, StateAt(cs, k), After(START, kept))
  }

  lemma KeptNext(ok: Verdict, kept: seq<Line>, c: Line, pkg: string)
    requires NoStray(START, kept) && Lone !in Events(START, kept, pkg)
    requires !StrayOpen(After(START, kept), c) && Lone !in EventOf(After(START, kept), c, pkg)
    ensures NoStray(START, kept + [c]) && Lone !in Events(START, kept + [c], pkg)
    ensures After(START, kept + [c]) == Step(After(START, kept), c)
    ensures Rules(ok, START, kept + [c]) == Rules(ok, START, kept) + Emit(ok, After(START, kept), c)
  {
    hide NoStray, Events, After, Rules, StrayOpen, EventOf, Emit, Step;
    var s := After(START, kept);
    NoStrayConcat(START, kept, [c]);
    NoStrayOne(s, c);
    EventsConcat(START, kept, [c], pkg);
    EventsOfOne(s, c, pkg);
    Concat(ok, START, kept, [c]);
    One(ok, s, c);
  }

  lemma EventsOfOne(s: State, c: Line, pkg: string)
    ensures Events(s, [c], pkg) == EventOf(s, c, pkg)
  {
    assert [c][1..] == [];
    NoEvents(Step(s, c), pkg);
  }

  lemma RemainsNext(ok: Verdict, cs: seq<Line>, pkg: string, b: nat, k: nat)
    requires Round(cs, pkg, b) && k < Break(S.Scan(cs, pkg), b) <= b && Remains(ok, cs, pkg, S.Scan(cs, pkg), k)
    ensures Remains(ok, cs, pkg, S.Scan(cs, pkg), k + 1)
  {
    hide S.Scan, Round, Break, StateAt, S.StateAt, Doomed, Related, NoStray, Events, Rules, After, Others, EventOf, StrayOpen, Emit, Step;
    var t := S.Scan(cs, pkg);
    InRound(cs, pkg, b);
    assert k < |cs|;
    hide Rough;
    var kept := Dropped(cs, t, k);
    var r := After(START, kept);
    RulesStep(ok, cs, k);
    OthersConcat(Rules(ok, START, cs[..k]), Emit(ok, StateAt(cs, k), cs[k]), pkg);
    if Doomed(t, k) {
      RelatedDoomed(ok, cs, pkg, b, k, r);
      assert kept + [] == kept;
      assert Dropped(cs, t, k + 1) == kept;
    } else {
      RelatedKept(ok, cs, pkg, b, k, r);
      KeptNext(ok, kept, cs[k], pkg);
      OthersConcat(Rules(ok, START, kept), Emit(ok, r, cs[k]), pkg);
      assert Dropped(cs, t, k + 1) == kept + [cs[k]];
    }
  }

  lemma RulesStep(ok: Verdict, cs: seq<Line>, k: nat)
    requires k < |cs|
    ensures Rules(ok, START, cs[..k + 1]) == Rules(ok, START, cs[..k]) + Emit(ok, StateAt(cs, k), cs[k])
  {
    hide Rules, Emit;
    assert cs[..k + 1] == cs[..k] + [cs[k]];
    Concat(ok, START, cs[..k], [cs[k]]);
    One(ok, StateAt(cs, k), cs[k]);
  }

  lemma {:induction false} RemainsTo(ok: Verdict, cs: seq<Line>, pkg: string, b: nat, k: nat)
    requires Round(cs, pkg, b) && k <= Break(S.Scan(cs, pkg), b) <= b
    ensures b <= |cs| && Remains(ok, cs, pkg, S.Scan(cs, pkg), k)
  {
    InRound(cs, pkg, b);
    hide S.Scan, Round, Break, Remains, Rough;
    if k == 0 {
      RemainsAtStart(ok, cs, pkg, S.Scan(cs, pkg));
    } else {
      RemainsTo(ok, cs, pkg, b, k - 1);
      RemainsNext(ok, cs, pkg, b, k - 1);
    }
  }

  lemma RemainsAtStart(ok: Verdict, cs: seq<Line>, pkg: string, t: S.Target)
    ensures Remains(ok, cs, pkg, t, 0)
  {
    assert cs[..0] == [];
    NoEvents(START, pkg);
  }

  // ----- one round

  lemma {:induction false} DroppedRest(cs: seq<Line>, t: S.Target, m: nat, n: nat) returns (rest: seq<Line>)
    requires m <= n <= |cs|
    ensures Dropped(cs, t, n) == Dropped(cs, t, m) + rest
    ensures forall x | x in rest :: exists k :: m <= k < n && cs[k] == x
  {
    hide Doomed;
    if n == m {
      rest := [];
    } else {
      var front := DroppedRest(cs, t, m, n - 1);
      rest := front + (if Doomed(t, n - 1) then [] else [cs[n - 1]]);
      assert Dropped(cs, t, n) == Dropped(cs, t, m) + rest;
    }
  }

  /** Without a single-line rule as the loader reads the file, the scanner records none. */
  lemma {:induction false} NoLoneNoSingles(cs: seq<Line>, pkg: string, b: nat, n: nat)
    requires Rough(cs, b) && Lone !in Events(START, cs[..b], pkg) && n <= |cs|
    ensures SinglesOf(S.HitsTo(cs, pkg, n)) == []
  {
    hide S.HitAt, Events, Rough;
    if n > 0 {
      NoLoneNoSingles(cs, pkg, b, n - 1);
      SingleLocsNext(cs, pkg, n - 1);
      SingleIsLone(cs, pkg, b, n - 1);
    }
  }

  lemma SingleIsLone(cs: seq<Line>, pkg: string, b: nat, k: nat)
    requires Rough(cs, b) && Lone !in Events(START, cs[..b], pkg) && k < |cs|
    ensures S.HitAt(cs, pkg, k).Some? ==> !S.HitAt(cs, pkg, k).value.loc.single
  {
    hide Events, NoStray, S.StateAt;
    if k < b {
      HeadFacts(cs, b, k);
      assert cs[..b][..k] == cs[..k];
      LoneIn(cs[..b], pkg, k);
    }
  }

  lemma LoneIn(cs: seq<Line>, pkg: string, k: nat)
    requires k < |cs| && Lone !in Events(START, cs, pkg)
    ensures Lone !in EventOf(StateAt(cs, k), cs[k], pkg)
  {
    hide Events, EventOf;
    assert cs == cs[..k] + ([cs[k]] + cs[k + 1..]);
    EventsConcat(START, cs[..k], [cs[k]] + cs[k + 1..], pkg);
    EventsConcat(StateAt(cs, k), [cs[k]], cs[k + 1..], pkg);
    EventsOfOne(StateAt(cs, k), cs[k], pkg);
  }

  lemma RulesAtBreak(ok: Verdict, cs: seq<Line>, m: nat, pkg: string)
    requires m <= |cs| && (forall k | m <= k < |cs| :: Mute(cs[k])) && forall t, c :: !ok("", t, c)
    ensures Loaded(ok, cs) == Rules(ok, START, cs[..m])
  {
    hide Rules, Mute, After;
    var rest := cs[m..];
    assert cs == cs[..m] + rest;
    Concat(ok, START, cs[..m], rest);
    MuteRun(ok, StateAt(cs, m), rest, pkg);
  }

  /** One round on such a file leaves such a file, with no single-line rule of the package
      and the same rules of every other package. */
  lemma RoundRough(ok: Verdict, cs: seq<Line>, pkg: string, b: nat) returns (c: nat)
    requires Round(cs, pkg, b) && forall t, c :: !ok("", t, c)
    ensures var out := Dropped(cs, S.Scan(cs, pkg), |cs|);
            && Round(out, pkg, c) && SinglesOf(S.Scan(out, pkg).hits) == []
            && Others(Loaded(ok, out), pkg) == Others(Loaded(ok, cs), pkg)
  {
    var t := S.Scan(cs, pkg);
    var m := Break(t, b);
    BreakFacts(cs, pkg, b);
    RemainsTo(ok, cs, pkg, b, m);
    RulesAtBreak(ok, cs, m, pkg);
    var front := Dropped(cs, t, m);
    var rest := DroppedRest(cs, t, m, |cs|);
    var out := front + rest;
    c := |front|;
    assert out[..c] == front;
    LawfulLeft(cs, t, |cs|, b);
    forall k | c <= k < |out| ensures Mute(out[k]) {
      assert out[k] in rest;
    }
    RulesAtBreak(ok, out, c, pkg);
    NoLoneNoSingles(out, pkg, c, |out|);
  }

  lemma {:induction false} LawfulLeft(cs: seq<Line>, t: S.Target, n: nat, b: nat)
    requires n <= |cs| && Rough(cs, b)
    ensures forall x | x in Dropped(cs, t, n) :: Lawful(x)
  {
    hide Doomed, NoStray, Mute, Lawful;
    if n > 0 {
      LawfulLeft(cs, t, n - 1, b);
    }
  }

  /** When nothing of the package is recorded any more, no rule of it is loaded. */
  lemma NothingLeft(ok: Verdict, cs: seq<Line>, pkg: string, b: nat)
    requires Rough(cs, b) && pkg != "" && !AnyLine(S.Scan(cs, pkg)) && forall t, c :: !ok("", t, c)
    ensures Others(Loaded(ok, cs), pkg) == Loaded(ok, cs)
  {
    hide Rough, Mute, Rules;
    forall k | 0 <= k < b <= |cs| ensures EventOf(StateAt(cs, k), cs[k], pkg) == [] {
      QuietLine(cs, pkg, b, k);
    }
    RoughParts(cs, b);
    var head := cs[..b];
    RulesAtBreak(ok, cs, b, pkg);
    forall k | 0 <= k < |head| ensures EventAt(head, pkg, k) == [] {
      assert head[..k] == cs[..k];
    }
    QuietEvents(head, pkg, 0, |head|);
    StartAt(head);
    assert head[0..|head|] == head;
    NoEventsNoRules(ok, START, head, pkg);
    OthersOfAll(Loaded(ok, cs), pkg);
  }

  lemma RoughParts(cs: seq<Line>, b: nat)
    requires Rough(cs, b)
    ensures b <= |cs| && forall k | b <= k < |cs| :: Mute(cs[k])
  {
  }

  lemma QuietLine(cs: seq<Line>, pkg: string, b: nat, k: nat)
    requires Rough(cs, b) && pkg != "" && !AnyLine(S.Scan(cs, pkg)) && k < b
    ensures EventOf(StateAt(cs, k), cs[k], pkg) == []
  {
    hide NoStray, S.StateAt, S.HitsTo, S.HeaderTo, S.OpenTo, S.CloseTo, SinglesOf;
    var v := S.FirstHeader(cs, pkg, |cs|);
    HeadFacts(cs, b, k);
    assert S.HeaderAt(cs, pkg, k).None?;
    SinglesOutside(cs, pkg, k);
    AllNamed(cs, b);
  }

  /** Down to the last round: no rule of the package is left, and every other package keeps
      its rules, in their order. */
  lemma {:induction false} PurgedRough(ok: Verdict, lines: seq<string>, pkg: string, b: nat)
    requires Round(ClassifyAll(lines), pkg, b) && forall t, c :: !ok("", t, c)
    ensures Loaded(ok, ClassifyAll(Purged(lines, pkg))) == Others(Loaded(ok, ClassifyAll(lines)), pkg)
    decreases |lines|
  {
    hide Round, Classify, Loaded, Others, AnyLine, S.Scan, Dropped;
    var cs := ClassifyAll(lines);
    InRound(cs, pkg, b);
    if AnyLine(S.Scan(cs, pkg)) {
      RoundShrinks(lines, pkg);
      var c := RoundRough(ok, cs, pkg, b);
      DroppedClasses(lines, S.Scan(cs, pkg), |lines|);
      PurgedRough(ok, RoundOf(lines, pkg), pkg, c);
    } else {
      NothingLeft(ok, cs, pkg, b);
    }
  }

  lemma {:induction false} DroppedClasses(lines: seq<string>, t: S.Target, n: nat)
    requires n <= |lines|
    ensures ClassifyAll(Dropped(lines, t, n)) == Dropped(ClassifyAll(lines), t, n)
  {
    hide Classify, Doomed;
    if n > 0 {
      DroppedClasses(lines, t, n - 1);
      assert Classify(lines[n - 1]) == ClassifyAll(lines)[n - 1];
    }
  }
}
