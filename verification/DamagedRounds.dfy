/** The rounds of `rule_delete_pkg` and `rule_rename` on a file that normalizing has
    damaged: the stray brace stays, however many rounds run. */
module DamagedRounds {
  import opened Base
  import opened Text
  import opened Lines
  import opened Syntax
  import opened Shapes
  import opened Printing
  import opened Loader
  import opened Tracking
  import opened Swapping
  import opened Stripping
  import opened Normalizing
  import opened SinglesMoved
  import opened Renaming
  import opened RenamedLines
  import opened RuleEdits
  import opened RenameRounds
  import opened BrokenOpens
  import S = Scanner

  // ----- what stays from round to round

  /** A stray brace on line j, and nothing of pkg in front of line h. */
  predicate Damaged(cs: seq<Line>, pkg: string, h: nat, j: nat)
  {
    && StrayClose(cs, h, j) && !S.StateAt(cs, h).inBlock
    && (forall k | 0 <= k < h :: S.HitAt(cs, pkg, k).None? && S.HeaderAt(cs, pkg, k).None?)
    && (forall k | 0 <= k <= h :: !S.InTarget(cs, pkg, k))
  }

  lemma BrokenIsDamaged(out: seq<string>, pkg: string, h: nat, j: nat)
    requires BrokenOpen(out, pkg, h, j)
    ensures Damaged(ClassifyAll(out), pkg, h, j)
    ensures AnyLine(S.Scan(ClassifyAll(out), pkg))
  {
    hide Classify, Printed, HasComment, CpuText, Quiet;
    var cs := ClassifyAll(out);
    HeaderIs(cs, pkg, h, |cs|);
  }

  lemma DamagedFails(ok: Verdict, cs: seq<Line>, pkg: string, h: nat, j: nat)
    requires Damaged(cs, pkg, h, j)
    ensures !Clean(ok, cs) && !Sound(ok, cs)
  {
    assert HasStrayClose(cs);
    HasStrayFails(ok, cs);
  }

  /** Lines with the same front, quiet up to a closing brace. */
  lemma StillDamaged(cs: seq<Line>, out: seq<Line>, pkg: string, h: nat, j: nat, u: nat)
    requires Damaged(cs, pkg, h, j) && h <= u < |out| && out[..h] == cs[..h]
    requires (forall k | h <= k < u :: Quiet(out[k])) && out[u].Text? && out[u].outer == Junk
    ensures Damaged(out, pkg, h, u)
  {
    hide Quiet;
    forall k | 0 <= k <= h
      ensures S.StateAt(out, k) == S.StateAt(cs, k) && StateAt(out, k) == StateAt(cs, k) && !S.InTarget(out, pkg, k)
    {
      assert out[..k] == out[..h][..k] == cs[..h][..k] == cs[..k];
      PrefixSame(out, cs, k);
      assert !S.InTarget(cs, pkg, k);
    }
    forall k | 0 <= k < h ensures S.HitAt(out, pkg, k).None? && S.HeaderAt(out, pkg, k).None? {
      assert out[k] == out[..h][k] == cs[..h][k] == cs[k];
      assert out[..k] == out[..h][..k] == cs[..h][..k] == cs[..k];
      S.PendingRun(cs, k);
      SamePending(out, cs, pkg, k);
    }
  }

  // ----- the lines that a round touches

  lemma OutsideAt(cs: seq<Line>, pkg: string, h: nat, j: nat, k: nat)
    requires Damaged(cs, pkg, h, j) && h <= k <= j
    ensures !S.StateAt(cs, k).inBlock && (k < j ==> Quiet(cs[k]))
  {
    ScannerOutside(cs, h, j, k);
  }

  lemma HeaderPlace(cs: seq<Line>, pkg: string, h: nat, j: nat, v: nat)
    requires Damaged(cs, pkg, h, j) && v < |cs| && S.HeaderAt(cs, pkg, v).Some?
    ensures var i := S.HeaderAt(cs, pkg, v).value.idx;
            && h <= i <= v && i != j
            && (i < j ==> cs[i].Text? && cs[i].outer.Rule? && cs[i].outer.pkg == pkg && !cs[i].outer.open)
  {
    S.PendingRun(cs, v);
    if h <= v <= j {
      OutsideAt(cs, pkg, h, j, v);
    } else {
      assert cs[j].Text? && !cs[j].outer.Pending?;
    }
  }

  lemma SinglePlace(cs: seq<Line>, pkg: string, h: nat, j: nat, i: nat)
    requires Damaged(cs, pkg, h, j) && i < |cs| && S.HitAt(cs, pkg, i).Some? && S.HitAt(cs, pkg, i).value.loc.single
    ensures h <= i && i != j
    ensures i < j ==> cs[i].Text? && cs[i].outer.Single? && cs[i].outer.pkg == pkg && !cs[i].outer.open
  {
    if h <= i <= j {
      OutsideAt(cs, pkg, h, j, i);
    }
  }

  lemma BlockBehind(cs: seq<Line>, pkg: string, h: nat, j: nat)
    requires Damaged(cs, pkg, h, j) && S.Scan(cs, pkg).blockOpen.Some?
    ensures S.Scan(cs, pkg).blockOpen.value > j
  {
    forall k | h <= k <= j + 1 ensures !S.InTarget(cs, pkg, k) {
      ScannerOutside(cs, h, j, k);
    }
    BlockOpens(cs, pkg);
  }

  lemma BlockOpens(cs: seq<Line>, pkg: string)
    requires S.Scan(cs, pkg).blockOpen.Some?
    ensures S.Scan(cs, pkg).blockOpen.value < |cs| && S.InTarget(cs, pkg, S.Scan(cs, pkg).blockOpen.value + 1)
  {
    S.FirstBlock(cs, pkg, |cs|);
  }

  /** Marked lines, and doomed ones, are behind line h and never the stray brace. */
  lemma MarkedPlace(cs: seq<Line>, pkg: string, h: nat, j: nat, i: nat)
    requires Damaged(cs, pkg, h, j) && Marked(S.Scan(cs, pkg), i)
    ensures h <= i < |cs| && i != j
    ensures i < j ==> cs[i].Text? && OuterPkg(cs[i].outer) == pkg
                      && ((cs[i].outer.Rule? && !cs[i].outer.open) || (cs[i].outer.Single? && !cs[i].outer.open))
  {
    hide Damaged, S.HitAt, S.HeaderAt, S.OpenTo, S.CloseTo, SinglesOf;
    var t := S.Scan(cs, pkg);
    if t.pkgLine.Some? && i == t.pkgLine.value.idx {
      var v := S.FirstHeader(cs, pkg, |cs|);
      HeaderPlace(cs, pkg, h, j, v);
    } else {
      SinglesHit(cs, pkg, |cs|);
      var l :| l in SinglesOf(t.hits) && l.idx == i;
      var k :| 0 <= k < |SinglesOf(t.hits)| && SinglesOf(t.hits)[k] == l;
      assert SingleLocs(cs, pkg, |cs|)[k] == l;
      SinglePlace(cs, pkg, h, j, i);
    }
  }

  lemma DoomedPlace(cs: seq<Line>, pkg: string, h: nat, j: nat, i: nat)
    requires Damaged(cs, pkg, h, j) && Doomed(S.Scan(cs, pkg), i)
    ensures h <= i && i != j
  {
    hide Damaged, S.HitsTo, S.HeaderTo, S.OpenTo, S.CloseTo, SinglesOf, BlockEnd;
    var t := S.Scan(cs, pkg);
    if Marked(t, i) {
      MarkedPlace(cs, pkg, h, j, i);
    } else {
      BlockBehind(cs, pkg, h, j);
      DamagedOrder(cs, pkg, h, j);
    }
  }

  lemma DamagedOrder(cs: seq<Line>, pkg: string, h: nat, j: nat)
    requires Damaged(cs, pkg, h, j)
    ensures h <= j < |cs|
  {
  }

  // ----- rounds of the deletion

  lemma {:induction false} DroppedQuiet(lines: seq<string>, t: S.Target, h: nat, n: nat)
    requires h <= n <= |lines| && (forall k | 0 <= k < h :: !Doomed(t, k)) && forall k | h <= k < n :: Quiet(Classify(lines[k]))
    ensures var d := Dropped(lines, t, n); h <= |d| && d[..h] == lines[..h] && forall k | h <= k < |d| :: Quiet(Classify(d[k]))
  {
    hide Doomed, Quiet, Classify;
    if n == h {
      DroppedAll(lines, t, h);
    } else {
      DroppedQuiet(lines, t, h, n - 1);
    }
  }

  lemma {:induction false} DroppedAll(lines: seq<string>, t: S.Target, n: nat)
    requires n <= |lines| && forall k | 0 <= k < n :: !Doomed(t, k)
    ensures Dropped(lines, t, n) == lines[..n]
  {
    hide Doomed;
    if n > 0 {
      DroppedAll(lines, t, n - 1);
      assert lines[..n] == lines[..n - 1] + [lines[n - 1]];
    }
  }

  lemma {:induction false} DroppedGrows(lines: seq<string>, t: S.Target, a: nat, b: nat)
    requires a <= b <= |lines|
    ensures Dropped(lines, t, a) <= Dropped(lines, t, b)
  {
    hide Doomed;
    if a < b {
      DroppedGrows(lines, t, a, b - 1);
    }
  }

  lemma RoundDamaged(lines: seq<string>, pkg: string, h: nat, j: nat) returns (u: nat)
    requires Damaged(ClassifyAll(lines), pkg, h, j)
    ensures Damaged(ClassifyAll(RoundOf(lines, pkg)), pkg, h, u)
  {
    hide Damaged, Doomed, S.Scan, Classify, Quiet, Dropped;
    var cs := ClassifyAll(lines);
    var t := S.Scan(cs, pkg);
    forall i: nat | Doomed(t, i) ensures h <= i && i != j {
      DoomedPlace(cs, pkg, h, j, i);
    }
    DamagedLines(lines, pkg, h, j);
    DroppedQuiet(lines, t, h, j);
    var d := Dropped(lines, t, j);
    assert !Doomed(t, j);
    DroppedOne(lines, t, j);
    DroppedGrows(lines, t, j + 1, |lines|);
    u := |d|;
    var out := RoundOf(lines, pkg);
    assert out[..u + 1] == d + [lines[j]];
    assert out[u] == out[..u + 1][u] == lines[j];
    forall k | h <= k < u ensures Quiet(Classify(out[k])) {
      assert out[k] == out[..u + 1][k] == d[k];
    }
    assert out[..h] == out[..u + 1][..h] == d[..h] == lines[..h];
    SameFront(lines, out, h);
    StillDamaged(cs, ClassifyAll(out), pkg, h, j, u);
  }

  lemma DamagedLines(lines: seq<string>, pkg: string, h: nat, j: nat)
    requires Damaged(ClassifyAll(lines), pkg, h, j)
    ensures h <= j < |lines| && Classify(lines[j]).Text? && Classify(lines[j]).outer == Junk
    ensures forall k | h <= k < j :: Quiet(Classify(lines[k]))
  {
    hide Classify, Quiet;
    var cs := ClassifyAll(lines);
    forall k | h <= k < j ensures Quiet(Classify(lines[k])) {
      assert Quiet(cs[k]);
    }
  }

  lemma DroppedOne(lines: seq<string>, t: S.Target, j: nat)
    requires j < |lines| && !Doomed(t, j)
    ensures Dropped(lines, t, j + 1) == Dropped(lines, t, j) + [lines[j]]
  {
  }

  lemma SameFront(a: seq<string>, b: seq<string>, h: nat)
    requires h <= |a| && h <= |b| && b[..h] == a[..h]
    ensures ClassifyAll(b)[..h] == ClassifyAll(a)[..h]
  {
    hide Classify;
    forall k | 0 <= k < h ensures ClassifyAll(b)[k] == ClassifyAll(a)[k] {
      assert b[k] == b[..h][k] == a[..h][k] == a[k];
    }
  }

  /** However far the deletion gets, the stray brace stays. */
  lemma {:induction false} PurgedDamaged(lines: seq<string>, pkg: string, h: nat, j: nat) returns (u: nat)
    requires Damaged(ClassifyAll(lines), pkg, h, j)
    ensures Damaged(ClassifyAll(Purged(lines, pkg)), pkg, h, u)
    decreases |lines|
  {
    hide Damaged, S.Scan, RoundOf, AnyLine, ClassifyAll;
    if !AnyLine(S.Scan(ClassifyAll(lines), pkg)) {
      u := j;
    } else {
      u := RoundDamaged(lines, pkg, h, j);
      if |RoundOf(lines, pkg)| < |lines| {
        u := PurgedDamaged(RoundOf(lines, pkg), pkg, h, u);
      }
    }
  }

  // ----- rounds of the renaming

  lemma SingleQuiet(raw: string, was: string, name: string)
    requires Classify(raw).Text? && Classify(raw).outer.Single? && Classify(raw).outer.pkg == was && !Classify(raw).outer.open
    requires PkgSafe(name)
    ensures Quiet(Classify(RenamedLine(raw, was, name)))
  {
    hide Core, PkgSafe, Tail, ParseOuterCore, Classify, Opens, RenamedTail, RenamedLine, Trim, OpenBody, ThreadBehind;
    NotSkippedText(raw);
    var lead, q, t := ShapeOf(raw);
    ReadShape(lead, q, t);
    var x, ws, z, r := RenamedBody(q, was, name);
    RenamedShape(lead, q, t, was, x, name);
    EmptyTail();
    TailTrimmed(t);
    assert RenamedTail(x + TrimEnd(t), name) == x + TrimEnd(t);
    assert name + (x + TrimEnd(t)) == "" + (name + x) + TrimEnd(t);
    ReadShape("", name + x, TrimEnd(t));
    OpenSingle(q);
    ClosedOuter(name + x);
  }

  lemma OpenSingle(q: string)
    requires ParseOuterCore(q).Single? && !ParseOuterCore(q).open
    ensures !Opens(q)
  {
  }

  lemma RuleHasEq(q: string)
    requires Core(q) && ParseOuterCore(q).Rule?
    ensures '=' in q
  {
    hide Core, SplitSingleLine;
    RFindFacts(OpenBody(q), '=');
    if Opens(q) {
      BodyFacts(q[..|q| - 1]);
    }
    assert forall c | c in OpenBody(q) :: c in q;
  }

  lemma RenamedRule(raw: string, was: string, name: string)
    requires Classify(raw).Text? && Classify(raw).outer.Rule? && Classify(raw).outer.pkg == was && !Classify(raw).outer.open
    requires PkgSafe(was) && PkgSafe(name)
    ensures Quiet(Classify(RenamedLine(raw, was, name)))
  {
    hide Core, PkgSafe, Tail, ParseOuterCore, Classify, RenamedLine;
    NotSkippedText(raw);
    var lead, q, t := ShapeOf(raw);
    ReadShape(lead, q, t);
    RuleHasEq(q);
    RenamedEq(lead, q, t, was, name);
  }

  /** One round of the renaming leaves the stray brace where it is. */
  lemma RenameRoundDamaged(lines: seq<string>, was: string, name: string, h: nat, j: nat)
    requires Damaged(ClassifyAll(lines), was, h, j) && PkgSafe(was) && PkgSafe(name)
    ensures Damaged(ClassifyAll(RenameRound(lines, was, name)), was, h, j)
  {
    hide Damaged, Marked, S.Scan, Classify, Quiet, PkgSafe, RenamedLine, OuterPkg;
    var cs := ClassifyAll(lines);
    var t := S.Scan(cs, was);
    var out := RenameRound(lines, was, name);
    SafeName(was);
    DamagedLines(lines, was, h, j);
    forall i: nat | Marked(t, i) ensures h <= i && i != j {
      MarkedPlace(cs, was, h, j, i);
    }
    forall k | h <= k < j ensures Quiet(Classify(out[k])) {
      if Marked(t, k) {
        MarkedPlace(cs, was, h, j, k);
        assert cs[k] == Classify(lines[k]);
        OneRenamed(lines[k], was, name);
      }
    }
    assert !Marked(t, j) && out[j] == lines[j];
    forall k | 0 <= k < h ensures out[k] == lines[k] {
      assert !Marked(t, k);
    }
    assert out[..h] == lines[..h];
    SameFront(lines, out, h);
    StillDamaged(cs, ClassifyAll(out), was, h, j, j);
  }

  lemma OneRenamed(raw: string, was: string, name: string)
    requires Classify(raw).Text? && OuterPkg(Classify(raw).outer) == was && PkgSafe(was) && PkgSafe(name)
    requires (Classify(raw).outer.Rule? && !Classify(raw).outer.open) || (Classify(raw).outer.Single? && !Classify(raw).outer.open)
    ensures Quiet(Classify(RenamedLine(raw, was, name)))
  {
    hide Classify, Quiet, PkgSafe, RenamedLine;
    SafeName(was);
    if Classify(raw).outer.Rule? {
      RenamedRule(raw, was, name);
    } else {
      SingleQuiet(raw, was, name);
    }
  }

  /** However many rounds run, the stray brace stays. */
  lemma {:induction false} RoundsDamaged(lines: seq<string>, was: string, name: string, h: nat, j: nat, k: nat)
    requires Damaged(ClassifyAll(lines), was, h, j) && PkgSafe(was) && PkgSafe(name)
    ensures Damaged(ClassifyAll(Rounds(lines, was, name, k)), was, h, j)
    decreases k
  {
    hide Damaged, RenameRound, PkgSafe, ClassifyAll;
    if k > 0 {
      RenameRoundDamaged(lines, was, name, h, j);
      RoundsDamaged(RenameRound(lines, was, name), was, name, h, j, k - 1);
    }
  }
}
