/** When the rounds of `rule_rename` end: on any file, within the weight of its lines or
    never, and which lines and names keep them going. */
module RenameRounds {
  import opened Base
  import opened Text
  import opened Lines
  import opened Syntax
  import opened Shapes
  import opened Printing
  import opened Stripping
  import opened Swapping
  import opened Renaming
  import opened RenamedLines
  import opened RuleEdits
  import S = Scanner

  // ----- the lines that a round rewrites

  /** A single-line rule of the package, outside every block. */
  predicate SingleSeen(cs: seq<Line>, pkg: string, k: nat)
  {
    k < |cs| && !S.StateAt(cs, k).inBlock && cs[k].Text? && cs[k].outer.Single? && cs[k].outer.pkg == pkg
    && cs[k].outer.thread != ""
  }

  /** A line on which the scanner finds a header of the package. */
  ghost predicate HeaderSeen(cs: seq<Line>, pkg: string, k: nat)
  {
    exists v: nat :: v < |cs| && S.HeaderAt(cs, pkg, v).Some? && S.HeaderAt(cs, pkg, v).value.idx == k
  }

  lemma HeaderLineAt(cs: seq<Line>, pkg: string, v: nat)
    requires v < |cs| && pkg != "" && S.HeaderAt(cs, pkg, v).Some?
    ensures var i := S.HeaderAt(cs, pkg, v).value.idx;
            i <= v && !S.StateAt(cs, i).inBlock && cs[i].Text? && IsHeader(cs[i].outer) && OuterPkg(cs[i].outer) == pkg
  {
    S.PendingRun(cs, v);
  }

  lemma {:induction false} SingleFound(cs: seq<Line>, pkg: string, i: nat, n: nat)
    requires i < n <= |cs| && SingleSeen(cs, pkg, i)
    ensures exists l :: l in SingleLocs(cs, pkg, n) && l.idx == i
  {
    hide SingleLocs;
    SingleLocsNext(cs, pkg, n - 1);
    if i < n - 1 {
      SingleFound(cs, pkg, i, n - 1);
    }
  }

  /** What a round rewrites: the single-line rules and the first header. */
  lemma MarkedIs(cs: seq<Line>, pkg: string, i: nat)
    requires pkg != ""
    ensures Marked(S.Scan(cs, pkg), i) <==>
              SingleSeen(cs, pkg, i) || (S.Scan(cs, pkg).pkgLine.Some? && i == S.Scan(cs, pkg).pkgLine.value.idx)
    ensures S.Scan(cs, pkg).pkgLine.Some? ==> HeaderSeen(cs, pkg, S.Scan(cs, pkg).pkgLine.value.idx)
  {
    hide S.HeaderAt, S.HitAt, S.OpenTo, S.CloseTo, SinglesOf, HeaderSeen;
    var t := S.Scan(cs, pkg);
    if t.pkgLine.Some? {
      var v := S.FirstHeader(cs, pkg, |cs|);
      HeaderIsSeen(cs, pkg, v);
    }
    if SingleSeen(cs, pkg, i) {
      SingleFound(cs, pkg, i, |cs|);
    }
    if l :| l in SinglesOf(t.hits) && l.idx == i {
      SinglesHit(cs, pkg, |cs|);
      var k :| 0 <= k < |SinglesOf(t.hits)| && SinglesOf(t.hits)[k] == l;
      assert SingleLocs(cs, pkg, |cs|)[k] == l;
      HitIsSeen(cs, pkg, i);
    }
  }

  lemma HeaderIsSeen(cs: seq<Line>, pkg: string, v: nat)
    requires v < |cs| && S.HeaderAt(cs, pkg, v).Some?
    ensures HeaderSeen(cs, pkg, S.HeaderAt(cs, pkg, v).value.idx)
  {
  }

  lemma HitIsSeen(cs: seq<Line>, pkg: string, i: nat)
    requires i < |cs| && S.HitAt(cs, pkg, i).Some? && S.HitAt(cs, pkg, i).value.loc.single
    ensures SingleSeen(cs, pkg, i)
  {
  }

  /** There is something to rewrite exactly when some line names the package. */
  lemma AnySeen(cs: seq<Line>, pkg: string, k: nat)
    requires SingleSeen(cs, pkg, k) || HeaderSeen(cs, pkg, k)
    ensures AnyLine(S.Scan(cs, pkg))
  {
    hide S.HeaderAt, S.OpenTo, S.CloseTo, SinglesOf, HeaderSeen;
    if SingleSeen(cs, pkg, k) {
      SingleFound(cs, pkg, k, |cs|);
    } else {
      SeenHeader(cs, pkg, k);
    }
  }

  lemma SeenHeader(cs: seq<Line>, pkg: string, k: nat)
    requires HeaderSeen(cs, pkg, k)
    ensures S.Scan(cs, pkg).pkgLine.Some?
  {
    hide S.HeaderAt, S.OpenTo, S.CloseTo;
    var v := S.FirstHeader(cs, pkg, |cs|);
  }

  // ----- rounds

  lemma NothingMarked(lines: seq<string>, was: string, name: string)
    requires !AnyLine(S.Scan(ClassifyAll(lines), was))
    ensures RenameRound(lines, was, name) == lines
  {
    hide Classify, RenamedLine;
  }

  lemma {:induction false} StopStays(lines: seq<string>, was: string, name: string, k: nat)
    requires !AnyLine(S.Scan(ClassifyAll(lines), was))
    ensures Rounds(lines, was, name, k) == lines
    decreases k
  {
    hide Classify, AnyLine, RenameRound;
    if k > 0 {
      NothingMarked(lines, was, name);
      StopStays(lines, was, name, k - 1);
    }
  }

  lemma {:induction false} RoundsJoin(lines: seq<string>, was: string, name: string, a: nat, b: nat)
    ensures Rounds(lines, was, name, a + b) == Rounds(Rounds(lines, was, name, a), was, name, b)
    decreases a
  {
    hide RenameRound;
    if a > 0 {
      RoundsJoin(RenameRound(lines, was, name), was, name, a - 1, b);
    }
  }

  /** A rewritten line weighs less, unless it is a single-line rule under a name that names
      itself. */
  lemma LineLighter(raw: string, was: string, name: string)
    requires Classify(raw).Text? && OuterPkg(Classify(raw).outer) == was && was != "" && was != name
    requires PkgSafe(was) && PkgSafe(name)
    requires IsHeader(Classify(raw).outer) || Classify(raw).outer.Single?
    ensures LineWeight(RenamedLine(raw, was, name), was, name) <= LineWeight(raw, was, name)
    ensures IsHeader(Classify(raw).outer) || !NamesItself(was, name) ==>
              LineWeight(RenamedLine(raw, was, name), was, name) < LineWeight(raw, was, name)
  {
    hide Classify, PkgSafe, RenamedLine, NamesItself;
    if Classify(raw).outer.Single? {
      SingleAfter(raw, was, name);
    } else if NameTrap(raw, was, name) {
      TrapReads(raw, was, name);
    } else {
      RenamedHeader(raw, was, name);
    }
  }

  lemma {:induction false} WeightDrops(lines: seq<string>, next: seq<string>, was: string, name: string, n: nat)
    requires n <= |lines| == |next|
    requires forall k | 0 <= k < n :: LineWeight(next[k], was, name) <= LineWeight(lines[k], was, name)
    ensures Weight(next, was, name, n) <= Weight(lines, was, name, n)
    ensures forall k | 0 <= k < n && LineWeight(next[k], was, name) < LineWeight(lines[k], was, name) ::
              Weight(next, was, name, n) < Weight(lines, was, name, n)
  {
    hide LineWeight;
    if n > 0 {
      WeightDrops(lines, next, was, name, n - 1);
    }
  }

  /** Each round makes the file lighter, unless it rewrites single-line rules only and the
      new name names itself. */
  lemma RoundLighter(lines: seq<string>, was: string, name: string)
    requires PkgSafe(was) && PkgSafe(name) && was != name && AnyLine(S.Scan(ClassifyAll(lines), was))
    requires !NamesItself(was, name) || S.Scan(ClassifyAll(lines), was).pkgLine.Some?
    ensures WeightOf(RenameRound(lines, was, name), was, name) < WeightOf(lines, was, name)
  {
    hide Classify, PkgSafe, RenamedLine, NamesItself, Marked, LineWeight, S.Scan, SinglesOf, HeaderSeen, SingleSeen, Weight;
    var next := RenameRound(lines, was, name);
    var cs := ClassifyAll(lines);
    var t := S.Scan(cs, was);
    SafeName(was);
    forall k | 0 <= k < |lines| ensures LineWeight(next[k], was, name) <= LineWeight(lines[k], was, name) {
      if Marked(t, k) {
        MarkedLine(cs, was, k);
        assert cs[k] == Classify(lines[k]);
        LineLighter(lines[k], was, name);
      }
    }
    var i := SomeMarked(cs, was);
    MarkedLine(cs, was, i);
    assert cs[i] == Classify(lines[i]);
    LineLighter(lines[i], was, name);
    WeightDrops(lines, next, was, name, |lines|);
  }

  /** A marked line names the package. */
  lemma MarkedLine(cs: seq<Line>, pkg: string, i: nat)
    requires pkg != "" && Marked(S.Scan(cs, pkg), i)
    ensures i < |cs| && !S.StateAt(cs, i).inBlock && cs[i].Text? && OuterPkg(cs[i].outer) == pkg
    ensures IsHeader(cs[i].outer) || SingleSeen(cs, pkg, i)
    ensures S.Scan(cs, pkg).pkgLine.Some? && i == S.Scan(cs, pkg).pkgLine.value.idx ==> IsHeader(cs[i].outer)
  {
    hide Marked, S.Scan, S.HeaderAt;
    MarkedIs(cs, pkg, i);
    if HeaderSeen(cs, pkg, i) {
      var v: nat :| v < |cs| && S.HeaderAt(cs, pkg, v).Some? && S.HeaderAt(cs, pkg, v).value.idx == i;
      HeaderLineAt(cs, pkg, v);
    }
  }

  /** The first header, or any single-line rule. */
  lemma SomeMarked(cs: seq<Line>, pkg: string) returns (i: nat)
    requires pkg != "" && AnyLine(S.Scan(cs, pkg))
    ensures Marked(S.Scan(cs, pkg), i)
    ensures S.Scan(cs, pkg).pkgLine.Some? ==> i == S.Scan(cs, pkg).pkgLine.value.idx
  {
    hide S.Scan;
    var t := S.Scan(cs, pkg);
    if t.pkgLine.Some? {
      i := t.pkgLine.value.idx;
    } else {
      var l := SinglesOf(t.hits)[0];
      i := l.idx;
    }
  }

  // ----- blocks before and after a round

  predicate Opening(o: Outer)
  {
    (o.Single? && o.open) || (o.Rule? && o.open) || o.BareOpen?
  }

  /** Outside a block, both lines open one, or both wait for a brace, or neither. */
  predicate SameShape(c: Line, d: Line)
  {
    && c.Text? && d.Text? && (Opening(c.outer) <==> Opening(d.outer)) && (c.outer.Pending? <==> d.outer.Pending?)
    && (c.outer.BareOpen? ==> c.outer.pkg != "") && (d.outer.BareOpen? ==> d.outer.pkg != "")
  }

  /** The first n lines are the same, or rewritten outside blocks in the same shape. */
  predicate Shaped(cs: seq<Line>, out: seq<Line>, n: nat)
  {
    && n <= |cs| == |out|
    && forall k | 0 <= k < n :: out[k] == cs[k] || (!S.StateAt(cs, k).inBlock && SameShape(cs[k], out[k]))
  }

  lemma {:induction false} ShapedStates(cs: seq<Line>, out: seq<Line>, n: nat)
    requires Shaped(cs, out, n)
    ensures S.StateAt(out, n).inBlock == S.StateAt(cs, n).inBlock && S.StateAt(out, n).pend == S.StateAt(cs, n).pend
  {
    if n > 0 {
      hide SameShape, S.Step;
      ShapedStates(cs, out, n - 1);
      ShapedStep(cs, out, n - 1);
    }
  }

  lemma ShapedStep(cs: seq<Line>, out: seq<Line>, k: nat)
    requires |out| == |cs| && k < |cs|
    requires out[k] == cs[k] || (!S.StateAt(cs, k).inBlock && SameShape(cs[k], out[k]))
    requires S.StateAt(out, k).inBlock == S.StateAt(cs, k).inBlock && S.StateAt(out, k).pend == S.StateAt(cs, k).pend
    ensures S.StateAt(out, k + 1).inBlock == S.StateAt(cs, k + 1).inBlock
    ensures S.StateAt(out, k + 1).pend == S.StateAt(cs, k + 1).pend
  {
  }

  /** A header that waits for its brace is seen at the brace, with skipped lines between. */
  lemma BraceAt(cs: seq<Line>, pkg: string, v: nat)
    requires v < |cs| && S.HeaderAt(cs, pkg, v).Some? && pkg != ""
    ensures var k := S.HeaderAt(cs, pkg, v).value.idx;
            && k <= v && (forall u | k < u < v :: cs[u].Skip?)
            && (k < v ==> cs[k].Text? && cs[k].outer == Pending(pkg) && cs[v].Text? && cs[v].outer == BareOpen("")
                          && !S.StateAt(cs, v).inBlock && S.StateAt(cs, v).pend == Some(k))
            && (k == v ==> cs[v].Text? && (cs[v].outer.Rule? || cs[v].outer.BareOpen?) && OuterPkg(cs[v].outer) == pkg
                           && !S.StateAt(cs, v).inBlock)
  {
    S.PendingRun(cs, v);
  }

  lemma BraceIs(cs: seq<Line>, pkg: string, k: nat, v: nat)
    requires k < v < |cs| && pkg != "" && cs[k].Text? && cs[k].outer == Pending(pkg)
    requires cs[v].Text? && cs[v].outer == BareOpen("") && !S.StateAt(cs, v).inBlock && S.StateAt(cs, v).pend == Some(k)
    ensures S.HeaderAt(cs, pkg, v).Some? && S.HeaderAt(cs, pkg, v).value.idx == k
  {
  }

  /** Line n is no brace, before or after, or the file ends there. */
  predicate NoBraceAt(cs: seq<Line>, out: seq<Line>, n: nat)
  {
    && n <= |cs| == |out|
    && (n < |cs| ==> cs[n].Text? && out[n].Text? && cs[n].outer != BareOpen("") && out[n].outer != BareOpen(""))
  }

  /** A header in front of line n is seen there, too. */
  lemma SeenInFront(cs: seq<Line>, pkg: string, k: nat, n: nat) returns (v: nat)
    requires HeaderSeen(cs, pkg, k) && k < n <= |cs| && pkg != ""
    requires n < |cs| ==> cs[n].Text? && cs[n].outer != BareOpen("")
    ensures v < n && S.HeaderAt(cs, pkg, v).Some? && S.HeaderAt(cs, pkg, v).value.idx == k
  {
    hide S.HeaderAt;
    v :| v < |cs| && S.HeaderAt(cs, pkg, v).Some? && S.HeaderAt(cs, pkg, v).value.idx == k;
    BraceAt(cs, pkg, v);
  }

  /** A header that was not rewritten was a header before. */
  lemma SeenBefore(cs: seq<Line>, out: seq<Line>, pkg: string, k: nat, n: nat)
    requires Shaped(cs, out, n) && NoBraceAt(cs, out, n) && k < n && pkg != ""
    requires out[k] == cs[k] && HeaderSeen(out, pkg, k)
    ensures HeaderSeen(cs, pkg, k)
  {
    hide S.HeaderAt, HeaderSeen;
    var v := SeenInFront(out, pkg, k, n);
    BraceAt(out, pkg, v);
    ShapedPart(cs, out, n, v);
    ShapedStates(cs, out, v);
    if k < v {
      ShapedLine(cs, out, n, v);
      BraceIs(cs, pkg, k, v);
      HeaderIsSeen(cs, pkg, v);
    } else {
      OwnHeader(cs, pkg, k);
      HeaderIsSeen(cs, pkg, k);
    }
  }

  lemma OwnHeader(cs: seq<Line>, pkg: string, k: nat)
    requires k < |cs| && cs[k].Text? && (cs[k].outer.Rule? || cs[k].outer.BareOpen?) && OuterPkg(cs[k].outer) == pkg
    requires pkg != "" && !S.StateAt(cs, k).inBlock
    ensures S.HeaderAt(cs, pkg, k).Some? && S.HeaderAt(cs, pkg, k).value.idx == k
  {
  }

  lemma ShapedPart(cs: seq<Line>, out: seq<Line>, n: nat, m: nat)
    requires Shaped(cs, out, n) && m <= n
    ensures Shaped(cs, out, m)
  {
    hide SameShape;
  }

  lemma ShapedLine(cs: seq<Line>, out: seq<Line>, n: nat, k: nat)
    requires Shaped(cs, out, n) && k < n
    ensures out[k] == cs[k] || (cs[k].Text? && out[k].Text? && SameShape(cs[k], out[k]))
  {
  }

  // ----- lines that the rounds come to an end with

  /** Line k is no single-line rule, and no header on which the new name waits for its
      brace in vain or turns the line into a single-line rule of the old package. */
  ghost predicate Calm(lines: seq<string>, was: string, name: string, k: nat)
    requires k < |lines|
  {
    var cs := ClassifyAll(lines);
    && !SingleSeen(cs, was, k)
    && (HeaderSeen(cs, was, k) && NameTrap(lines[k], was, name) ==>
          (cs[k].outer.BareOpen? || ParseOuterCore(name).Pending?) && !Endless(was, name))
  }

  ghost predicate Steady(lines: seq<string>, was: string, name: string, n: nat)
  {
    n <= |lines| && forall k | 0 <= k < n :: Calm(lines, was, name, k)
  }

  lemma TrapEq(raw: string, was: string, name: string)
    requires NameTrap(raw, was, name) && (Classify(raw).outer.BareOpen? || ParseOuterCore(name).Pending?)
    ensures '=' in name
  {
    hide Classify, CommentAt, Trim, StripComment;
    if '=' !in name {
      OpenIsNotPending(name);
    }
  }

  /** A rewritten calm header. */
  lemma CalmLine(raw: string, was: string, name: string)
    requires PkgSafe(was) && PkgSafe(name) && was != name && NamesItself(was, name)
    requires Classify(raw).Text? && IsHeader(Classify(raw).outer) && OuterPkg(Classify(raw).outer) == was
    requires NameTrap(raw, was, name) ==>
               (Classify(raw).outer.BareOpen? || ParseOuterCore(name).Pending?) && !Endless(was, name)
    ensures var d := Classify(RenamedLine(raw, was, name));
            && SameShape(Classify(raw), d) && !(d.outer.Single? && d.outer.pkg == was)
            && !NameTrap(RenamedLine(raw, was, name), was, name)
  {
    hide Classify, PkgSafe, RenamedLine, Endless, NamesItself, OuterOfBody;
    SafeName(was);
    SafeName(name);
    if NameTrap(raw, was, name) {
      TrapReads(raw, was, name);
      TrapSingle(Classify(raw).outer, was, name);
      TrapEq(raw, was, name);
      TrapOpens(was, name);
    } else {
      RenamedHeader(raw, was, name);
    }
  }

  /** What a round leaves of the lines in front of n. */
  lemma SteadyShapes(lines: seq<string>, was: string, name: string, n: nat)
    requires PkgSafe(was) && PkgSafe(name) && was != name && NamesItself(was, name) && Steady(lines, was, name, n)
    ensures var cs, out := ClassifyAll(lines), ClassifyAll(RenameRound(lines, was, name));
            Shaped(cs, out, n)
    ensures forall k | 0 <= k < n ::
              var next := RenameRound(lines, was, name);
              next[k] == lines[k] || (!NameTrap(next[k], was, name) && !SingleSeen(ClassifyAll(next), was, k))
  {
    hide Classify, PkgSafe, RenamedLine, NamesItself, Marked, S.Scan, SingleSeen, HeaderSeen, SameShape, NameTrap, Endless,
         OuterPkg, IsHeader;
    var next := RenameRound(lines, was, name);
    var cs, out := ClassifyAll(lines), ClassifyAll(next);
    SafeName(was);
    forall k | 0 <= k < n
      ensures next[k] == lines[k] || (!NameTrap(next[k], was, name) && !SingleSeen(out, was, k))
      ensures out[k] == cs[k] || (!S.StateAt(cs, k).inBlock && SameShape(cs[k], out[k]))
    {
      assert out[k] == Classify(next[k]) && cs[k] == Classify(lines[k]);
      if Marked(S.Scan(cs, was), k) {
        MarkedCalm(lines, was, name, k);
        NotSingle(out, was, k);
      } else {
        assert next[k] == lines[k];
      }
    }
  }

  lemma NotSingle(cs: seq<Line>, pkg: string, k: nat)
    requires k < |cs| && !(cs[k].Text? && cs[k].outer.Single? && cs[k].outer.pkg == pkg)
    ensures !SingleSeen(cs, pkg, k)
  {
  }

  lemma MarkedCalm(lines: seq<string>, was: string, name: string, k: nat)
    requires PkgSafe(was) && PkgSafe(name) && was != name && NamesItself(was, name) && k < |lines| && Calm(lines, was, name, k)
    requires Marked(S.Scan(ClassifyAll(lines), was), k)
    ensures var c, d := Classify(lines[k]), Classify(RenamedLine(lines[k], was, name));
            && SameShape(c, d) && !(d.outer.Single? && d.outer.pkg == was) && !S.StateAt(ClassifyAll(lines), k).inBlock
            && !NameTrap(RenamedLine(lines[k], was, name), was, name)
  {
    hide Classify, PkgSafe, RenamedLine, NamesItself, Marked, S.Scan, SingleSeen, HeaderSeen, SameShape, NameTrap, Endless;
    var cs := ClassifyAll(lines);
    SafeName(was);
    MarkedIs(cs, was, k);
    MarkedLine(cs, was, k);
    assert cs[k] == Classify(lines[k]);
    CalmLine(lines[k], was, name);
  }

  lemma SteadyRound(lines: seq<string>, was: string, name: string, n: nat)
    requires PkgSafe(was) && PkgSafe(name) && was != name && NamesItself(was, name) && Steady(lines, was, name, n)
    requires NoBraceAt(ClassifyAll(lines), ClassifyAll(RenameRound(lines, was, name)), n)
    ensures Steady(RenameRound(lines, was, name), was, name, n)
  {
    hide Classify, PkgSafe, RenameRound, NamesItself, SingleSeen, HeaderSeen, SameShape, NameTrap, Endless, NoBraceAt, Shaped;
    var next := RenameRound(lines, was, name);
    var cs, out := ClassifyAll(lines), ClassifyAll(next);
    SafeName(was);
    SteadyShapes(lines, was, name, n);
    forall k | 0 <= k < n ensures Calm(next, was, name, k) {
      assert Calm(lines, was, name, k);
      if next[k] == lines[k] {
        assert out[k] == Classify(next[k]) == cs[k];
        SameSingle(cs, out, was, k, n);
        if HeaderSeen(out, was, k) {
          SeenBefore(cs, out, was, k, n);
        }
      }
    }
  }

  lemma SameSingle(cs: seq<Line>, out: seq<Line>, pkg: string, k: nat, n: nat)
    requires Shaped(cs, out, n) && k < n && out[k] == cs[k]
    ensures SingleSeen(out, pkg, k) <==> SingleSeen(cs, pkg, k)
  {
    ShapedPart(cs, out, n, k);
    ShapedStates(cs, out, k);
    hide Shaped, S.StateAt;
  }

  /** Over a steady file the rounds end. */
  lemma {:induction false} SteadyStops(lines: seq<string>, was: string, name: string)
    requires PkgSafe(was) && PkgSafe(name) && was != name && NamesItself(was, name) && Steady(lines, was, name, |lines|)
    ensures RoundsStop(lines, was, name)
    decreases WeightOf(lines, was, name)
  {
    hide Classify, PkgSafe, RenameRound, NamesItself, Steady, WeightOf, S.Scan, AnyLine, Rounds;
    SafeName(was);
    if AnyLine(S.Scan(ClassifyAll(lines), was)) {
      var next := RenameRound(lines, was, name);
      assert |next| == |lines| by {
        SameLength(lines, was, name);
      }
      HeaderLeft(lines, was, name);
      RoundLighter(lines, was, name);
      WholeCut(ClassifyAll(lines), ClassifyAll(next));
      SteadyRound(lines, was, name, |lines|);
      SteadyStops(next, was, name);
      StopsNext(lines, was, name);
    } else {
      StopStays(lines, was, name, WeightOf(lines, was, name));
    }
  }

  lemma SameLength(lines: seq<string>, was: string, name: string)
    ensures |RenameRound(lines, was, name)| == |lines|
  {
  }

  lemma WholeCut(cs: seq<Line>, out: seq<Line>)
    requires |out| == |cs|
    ensures NoBraceAt(cs, out, |cs|)
  {
  }

  lemma HeaderLeft(lines: seq<string>, was: string, name: string)
    requires Steady(lines, was, name, |lines|) && AnyLine(S.Scan(ClassifyAll(lines), was)) && was != ""
    ensures S.Scan(ClassifyAll(lines), was).pkgLine.Some?
  {
    hide Classify, S.Scan, SinglesOf, Marked, HeaderSeen, SingleSeen, AnyLine;
    var cs := ClassifyAll(lines);
    var i := SomeMarked(cs, was);
    MarkedLine(cs, was, i);
    MarkedIs(cs, was, i);
    assert Calm(lines, was, name, i);
  }

  /** If the rounds end after one more round, they end. */
  lemma StopsNext(lines: seq<string>, was: string, name: string)
    requires WeightOf(RenameRound(lines, was, name), was, name) < WeightOf(lines, was, name)
    requires RoundsStop(RenameRound(lines, was, name), was, name)
    ensures RoundsStop(lines, was, name) && RenamedAll(lines, was, name) == RenamedAll(RenameRound(lines, was, name), was, name)
  {
    hide Classify, RenameRound, S.Scan, AnyLine, WeightOf;
    var next := RenameRound(lines, was, name);
    var a, b := WeightOf(next, was, name), WeightOf(lines, was, name) - 1;
    RoundsJoin(next, was, name, a, b - a);
    StopStays(Rounds(next, was, name, a), was, name, b - a);
  }

  // ----- lines that keep the rounds going

  /** Line j names the old package now and after every round. */
  ghost predicate Stuck(lines: seq<string>, was: string, name: string, j: nat)
  {
    && j < |lines| && Steady(lines, was, name, j)
    && (SingleSeen(ClassifyAll(lines), was, j) || EndlessAt(lines, was, name, j))
  }

  /** A header that becomes a single-line rule of the old package. */
  ghost predicate EndlessAt(lines: seq<string>, was: string, name: string, j: nat)
    requires j < |lines|
  {
    Endless(was, name) && HeaderSeen(ClassifyAll(lines), was, j) && NameTrap(lines[j], was, name)
  }

  /** A line that names the package outside a block is no lone brace. */
  lemma StuckLine(lines: seq<string>, was: string, name: string, j: nat)
    requires Stuck(lines, was, name, j) && was != ""
    ensures var c := Classify(lines[j]);
            c.Text? && OuterPkg(c.outer) == was && (IsHeader(c.outer) || c.outer.Single?)
            && !S.StateAt(ClassifyAll(lines), j).inBlock
  {
    hide Classify, Steady, NameTrap, Endless, S.HeaderAt;
    var cs := ClassifyAll(lines);
    assert cs[j] == Classify(lines[j]);
    if HeaderSeen(cs, was, j) {
      var v: nat :| v < |cs| && S.HeaderAt(cs, was, v).Some? && S.HeaderAt(cs, was, v).value.idx == j;
      HeaderLineAt(cs, was, v);
    }
  }

  /** Rewritten, the line is a single-line rule of the old package. */
  lemma StuckAgain(lines: seq<string>, was: string, name: string, j: nat)
    requires PkgSafe(was) && PkgSafe(name) && was != name && NamesItself(was, name) && Stuck(lines, was, name, j)
    ensures var d := Classify(RenamedLine(lines[j], was, name)); d.Text? && d.outer.Single? && d.outer.pkg == was
  {
    hide Classify, Steady, PkgSafe, RenamedLine, NamesItself, HeaderSeen, Endless;
    SafeName(was);
    StuckLine(lines, was, name, j);
    if SingleSeen(ClassifyAll(lines), was, j) {
      assert ClassifyAll(lines)[j] == Classify(lines[j]);
      SingleAfter(lines[j], was, name);
    } else {
      TrapReads(lines[j], was, name);
      TrapSingle(Classify(lines[j]).outer, was, name);
    }
  }

  /** A stuck line stays stuck. */
  lemma StuckNext(lines: seq<string>, was: string, name: string, j: nat)
    requires PkgSafe(was) && PkgSafe(name) && was != name && NamesItself(was, name) && Stuck(lines, was, name, j)
    ensures Stuck(RenameRound(lines, was, name), was, name, j)
  {
    hide Classify, Steady, PkgSafe, RenamedLine, NamesItself, HeaderSeen, SingleSeen, Marked, S.Scan, Endless, NameTrap, Shaped, NoBraceAt;
    var next := RenameRound(lines, was, name);
    var cs, out := ClassifyAll(lines), ClassifyAll(next);
    SafeName(was);
    StuckLine(lines, was, name, j);
    StuckAgain(lines, was, name, j);
    assert cs[j] == Classify(lines[j]) && out[j] == Classify(next[j]);
    SteadyShapes(lines, was, name, j);
    ShapedStates(cs, out, j);
    StuckCut(cs, out, was, j);
    SteadyRound(lines, was, name, j);
    MarkedIs(cs, was, j);
    if Marked(S.Scan(cs, was), j) {
      NamedAt(next, j);
      SeenNow(out, was, j);
    } else {
      assert next[j] == lines[j];
      StillSeen(lines, was, name, j);
    }
  }

  lemma NamedAt(lines: seq<string>, j: nat)
    requires j < |lines|
    ensures Named(ClassifyAll(lines)[j])
  {
    hide Classify;
    assert ClassifyAll(lines)[j] == Classify(lines[j]);
  }

  lemma SeenNow(cs: seq<Line>, pkg: string, j: nat)
    requires j < |cs| && Named(cs[j]) && cs[j].Text? && cs[j].outer.Single? && cs[j].outer.pkg == pkg
    requires !S.StateAt(cs, j).inBlock
    ensures SingleSeen(cs, pkg, j)
  {
  }

  lemma StuckCut(cs: seq<Line>, out: seq<Line>, was: string, j: nat)
    requires j < |cs| == |out| && cs[j].Text? && OuterPkg(cs[j].outer) == was != "" && out[j].Text? && OuterPkg(out[j].outer) == was
    ensures NoBraceAt(cs, out, j)
  {
  }

  /** A header that this round does not reach is seen after it. */
  lemma StillSeen(lines: seq<string>, was: string, name: string, j: nat)
    requires PkgSafe(was) && PkgSafe(name) && j < |lines| && HeaderSeen(ClassifyAll(lines), was, j)
    requires !Marked(S.Scan(ClassifyAll(lines), was), j)
    requires Shaped(ClassifyAll(lines), ClassifyAll(RenameRound(lines, was, name)), j)
    ensures HeaderSeen(ClassifyAll(RenameRound(lines, was, name)), was, j)
  {
    hide Classify, PkgSafe, RenamedLine, HeaderSeen, Marked, S.Scan, S.HeaderAt, Shaped;
    var next := RenameRound(lines, was, name);
    var cs, out := ClassifyAll(lines), ClassifyAll(next);
    SafeName(was);
    var v := SeenInFront(cs, was, j, |cs|);
    BraceAt(cs, was, v);
    forall k | j <= k <= v ensures out[k] == cs[k] {
      if Marked(S.Scan(cs, was), k) {
        MarkedLine(cs, was, k);
      }
      assert out[k] == Classify(next[k]) && cs[k] == Classify(lines[k]);
    }
    ShapedLonger(cs, out, j, v);
    ShapedStates(cs, out, v);
    if j < v {
      BraceIs(out, was, j, v);
    } else {
      OwnHeader(out, was, j);
    }
    HeaderIsSeen(out, was, v);
  }

  lemma ShapedLonger(cs: seq<Line>, out: seq<Line>, j: nat, v: nat)
    requires Shaped(cs, out, j) && j <= v <= |cs| && forall k | j <= k < v :: out[k] == cs[k]
    ensures Shaped(cs, out, v)
  {
    hide SameShape;
  }

  lemma {:induction false} StuckForever(lines: seq<string>, was: string, name: string, j: nat, k: nat)
    requires PkgSafe(was) && PkgSafe(name) && was != name && NamesItself(was, name) && Stuck(lines, was, name, j)
    ensures AnyLine(S.Scan(ClassifyAll(Rounds(lines, was, name, k)), was))
    decreases k
  {
    hide Classify, Steady, PkgSafe, RenameRound, NamesItself, HeaderSeen, SingleSeen, AnyLine, S.Scan, NameTrap, Endless;
    if k == 0 {
      AnySeen(ClassifyAll(lines), was, j);
    } else {
      StuckNext(lines, was, name, j);
      StuckForever(RenameRound(lines, was, name), was, name, j, k - 1);
    }
  }

  /** The first line that is not calm is stuck, if it can be. */
  lemma {:induction false} FirstStuck(lines: seq<string>, was: string, name: string, n: nat) returns (j: nat)
    requires n <= |lines| && !Steady(lines, was, name, n)
    requires forall k | 0 <= k < n && !Calm(lines, was, name, k) ::
               SingleSeen(ClassifyAll(lines), was, k) || EndlessAt(lines, was, name, k)
    ensures j < n && Stuck(lines, was, name, j)
  {
    hide Calm, SingleSeen, EndlessAt, ClassifyAll;
    if Steady(lines, was, name, n - 1) {
      j := n - 1;
      assert !Calm(lines, was, name, j);
    } else {
      j := FirstStuck(lines, was, name, n - 1);
    }
  }

  // ----- when the rounds end

  /** Under a name that does not name itself they always do. */
  lemma {:induction false} OtherNamesStop(lines: seq<string>, was: string, name: string)
    requires PkgSafe(was) && PkgSafe(name) && was != name && !NamesItself(was, name)
    ensures RoundsStop(lines, was, name)
    decreases WeightOf(lines, was, name)
  {
    hide Classify, PkgSafe, RenameRound, NamesItself, WeightOf, S.Scan, AnyLine, Rounds;
    if AnyLine(S.Scan(ClassifyAll(lines), was)) {
      RoundLighter(lines, was, name);
      OtherNamesStop(RenameRound(lines, was, name), was, name);
      StopsNext(lines, was, name);
    } else {
      StopStays(lines, was, name, WeightOf(lines, was, name));
    }
  }

  /** The rounds end if they end after any number of rounds: the weight of the file is
      enough. */
  lemma {:induction false} StopsInTime(lines: seq<string>, was: string, name: string, k: nat)
    requires PkgSafe(was) && PkgSafe(name) && was != name
    requires !AnyLine(S.Scan(ClassifyAll(Rounds(lines, was, name, k)), was))
    ensures RoundsStop(lines, was, name)
    decreases k
  {
    hide Classify, PkgSafe, RenameRound, NamesItself, WeightOf, S.Scan, AnyLine;
    if !AnyLine(S.Scan(ClassifyAll(lines), was)) {
      StopStays(lines, was, name, WeightOf(lines, was, name));
    } else {
      if NamesItself(was, name) && S.Scan(ClassifyAll(lines), was).pkgLine.None? {
        SinglesOnly(lines, was, name, k);
      }
      RoundLighter(lines, was, name);
      StopsInTime(RenameRound(lines, was, name), was, name, k - 1);
      StopsNext(lines, was, name);
    }
  }

  /** So the weight decides, on any file, whether the rounds end at all. */
  lemma StopsIff(lines: seq<string>, was: string, name: string)
    requires PkgSafe(was) && PkgSafe(name) && was != name
    ensures RoundsStop(lines, was, name) <==>
              exists k: nat :: !AnyLine(S.Scan(ClassifyAll(Rounds(lines, was, name, k)), was))
  {
    hide Classify, PkgSafe, RenameRound, WeightOf, S.Scan, AnyLine, Rounds;
    if k: nat :| !AnyLine(S.Scan(ClassifyAll(Rounds(lines, was, name, k)), was)) {
      StopsInTime(lines, was, name, k);
    }
  }

  /** If the rounds end, they end after one more round with the same file. */
  lemma StopsBack(lines: seq<string>, was: string, name: string)
    requires PkgSafe(was) && PkgSafe(name) && was != name && RoundsStop(lines, was, name)
    requires WeightOf(RenameRound(lines, was, name), was, name) < WeightOf(lines, was, name)
    ensures RoundsStop(RenameRound(lines, was, name), was, name)
    ensures RenamedAll(lines, was, name) == RenamedAll(RenameRound(lines, was, name), was, name)
  {
    hide Classify, PkgSafe, RenameRound, WeightOf, S.Scan, AnyLine;
    StopsInTime(RenameRound(lines, was, name), was, name, WeightOf(lines, was, name) - 1);
    StopsNext(lines, was, name);
  }

  /** Single-line rules without a header go on for ever under a name that names itself. */
  lemma SinglesOnly(lines: seq<string>, was: string, name: string, k: nat)
    requires PkgSafe(was) && PkgSafe(name) && was != name && NamesItself(was, name)
    requires AnyLine(S.Scan(ClassifyAll(lines), was)) && S.Scan(ClassifyAll(lines), was).pkgLine.None?
    ensures AnyLine(S.Scan(ClassifyAll(Rounds(lines, was, name, k)), was))
  {
    hide Classify, PkgSafe, NamesItself, HeaderSeen, SingleSeen, Marked, AnyLine, S.Scan, Endless, NameTrap, Rounds;
    var cs := ClassifyAll(lines);
    SafeName(was);
    var i := SomeMarked(cs, was);
    MarkedLine(cs, was, i);
    MarkedIs(cs, was, i);
    assert !Calm(lines, was, name, i);
    forall u | 0 <= u < |lines| && !Calm(lines, was, name, u) ensures SingleSeen(cs, was, u) {
      if HeaderSeen(cs, was, u) {
        SeenHeader(cs, was, u);
      }
    }
    var j := FirstStuck(lines, was, name, |lines|);
    StuckForever(lines, was, name, j, k);
  }

  /** Some header waits for its brace and is read as something else under the new name. */
  ghost predicate Spills(lines: seq<string>, was: string, name: string)
  {
    exists k: nat :: k < |lines| && HeaderSeen(ClassifyAll(lines), was, k) && NameTrap(lines[k], was, name)
                     && Classify(lines[k]).outer.Pending? && !ParseOuterCore(name).Pending?
  }

  /** A line that keeps the rounds going. */
  ghost predicate GoesOn(lines: seq<string>, was: string, name: string)
  {
    exists k: nat :: k < |lines| &&
      ((NamesItself(was, name) && SingleSeen(ClassifyAll(lines), was, k)) || EndlessAt(lines, was, name, k))
  }

  /** On any file the rounds end exactly when no line keeps them going: no single-line rule
      of the old package if the new name names itself, and no commented bare header if the
      new name is the text of a single-line rule of the old package. A name that names
      itself without being such text may besides break up a block whose brace stands on a
      line of its own; for such files `StopsInTime` says how many rounds decide. */
  lemma EndsIff(lines: seq<string>, was: string, name: string)
    requires PkgSafe(was) && PkgSafe(name) && was != name
    requires NamesItself(was, name) && !Endless(was, name) ==> !Spills(lines, was, name)
    ensures RoundsStop(lines, was, name) <==> !GoesOn(lines, was, name)
  {
    hide Classify, PkgSafe, NamesItself, HeaderSeen, SingleSeen, Endless, NameTrap, RoundsStop;
    if !NamesItself(was, name) {
      OtherNamesStop(lines, was, name);
      NoEndless(was, name);
    } else if Steady(lines, was, name, |lines|) {
      SteadyStops(lines, was, name);
      forall k: nat | k < |lines| ensures !SingleSeen(ClassifyAll(lines), was, k) && !EndlessAt(lines, was, name, k) {
        assert Calm(lines, was, name, k);
      }
    } else {
      forall k | 0 <= k < |lines| && !Calm(lines, was, name, k)
        ensures SingleSeen(ClassifyAll(lines), was, k) || EndlessAt(lines, was, name, k)
      {
        assert ClassifyAll(lines)[k] == Classify(lines[k]);
        if !SingleSeen(ClassifyAll(lines), was, k) {
          TrapReads(lines[k], was, name);
        }
      }
      var j := FirstStuck(lines, was, name, |lines|);
      StuckForever(lines, was, name, j, WeightOf(lines, was, name));
      NeverStops(lines, was, name);
    }
  }

  lemma NeverStops(lines: seq<string>, was: string, name: string)
    requires AnyLine(S.Scan(ClassifyAll(Rounds(lines, was, name, WeightOf(lines, was, name))), was))
    ensures !RoundsStop(lines, was, name)
  {
  }

  lemma NoEndless(was: string, name: string)
    requires PkgSafe(name) && !NamesItself(was, name)
    ensures !Endless(was, name)
  {
    TrapSingle(Pending(was), was, name);
    hide NamesItself, Endless;
  }
}
