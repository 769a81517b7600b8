/** Taking every single-line rule of a package out of a file, last one first, on
    classified lines. */
module Stripping {
  import opened Base
  import opened Lines
  import opened Loader
  import opened Edits
  import opened Tracking
  import opened Taking
  import S = Scanner

  function SinglesOf(hits: seq<S.Hit>): (locs: seq<S.ThreadLoc>)
  {
    if hits == [] then []
    else
      var h := hits[|hits| - 1];
      SinglesOf(hits[..|hits| - 1]) + (if h.loc.single then [h.loc] else [])
  }

  /** The places of pkg's single-line rules in the first n lines, in line order. */
  function SingleLocs(cs: seq<Line>, pkg: string, n: nat): seq<S.ThreadLoc>
    requires n <= |cs|
  {
    SinglesOf(S.HitsTo(cs, pkg, n))
  }

  function Low(locs: seq<S.ThreadLoc>, k: nat): nat
  {
    if 0 < k <= |locs| then locs[k - 1].idx + 1 else 0
  }

  /** Every entry is a recorded single-line rule. */
  predicate Located(cs: seq<Line>, pkg: string, locs: seq<S.ThreadLoc>)
  {
    forall k | 0 <= k < |locs| ::
      && locs[k].single && locs[k].idx < |cs|
      && S.HitAt(cs, pkg, locs[k].idx).Some? && S.HitAt(cs, pkg, locs[k].idx).value.loc == locs[k]
  }

  /** The entries are in line order and nothing of pkg stands on a line of its own
      between them. */
  predicate Complete(cs: seq<Line>, pkg: string, locs: seq<S.ThreadLoc>, n: nat)
    requires n <= |cs|
  {
    forall k | 0 <= k <= |locs| ::
      && Low(locs, k) <= Bound(locs, k, n) <= n
      && forall j | Low(locs, k) <= j < Bound(locs, k, n) :: !SingleAt(cs, pkg, j)
  }

  lemma SingleLocsFacts(ok: Verdict, cs: seq<Line>, pkg: string)
    requires Clean(ok, cs) && forall k | 0 <= k < |cs| :: Named(cs[k])
    ensures Located(cs, pkg, SingleLocs(cs, pkg, |cs|))
    ensures Complete(cs, pkg, SingleLocs(cs, pkg, |cs|), |cs|)
  {
    forall k | 0 <= k < |cs| ensures SingleHit(cs, pkg, k) {
      SingleIsHit(ok, cs, pkg, k);
    }
    SingleLocsTo(cs, pkg, |cs|);
  }

  lemma {:induction false} SinglesHit(cs: seq<Line>, pkg: string, n: nat)
    requires n <= |cs|
    ensures Located(cs, pkg, SingleLocs(cs, pkg, n))
  {
    hide S.HitAt, SingleLocs;
    if n > 0 {
      SinglesHit(cs, pkg, n - 1);
      SingleLocsNext(cs, pkg, n - 1);
      S.HitIndex(cs, pkg, n - 1);
    } else {
      NoSinglesYet(cs, pkg);
    }
  }

  lemma NoSinglesYet(cs: seq<Line>, pkg: string)
    ensures SingleLocs(cs, pkg, 0) == []
  {
  }

  predicate SingleHit(cs: seq<Line>, pkg: string, k: nat)
    requires k < |cs|
  {
    var h := S.HitAt(cs, pkg, k);
    SingleAt(cs, pkg, k) <==> h.Some? && h.value.loc.single
  }

  lemma {:induction false} SingleLocsTo(cs: seq<Line>, pkg: string, n: nat)
    requires n <= |cs| && forall k | 0 <= k < |cs| :: SingleHit(cs, pkg, k)
    ensures Located(cs, pkg, SingleLocs(cs, pkg, n))
    ensures Complete(cs, pkg, SingleLocs(cs, pkg, n), n)
  {
    if n > 0 {
      SingleLocsTo(cs, pkg, n - 1);
      SingleLocsNext(cs, pkg, n - 1);
      assert SingleHit(cs, pkg, n - 1);
      OneMore(cs, pkg, SingleLocs(cs, pkg, n - 1), n);
    }
  }

  lemma OneMore(cs: seq<Line>, pkg: string, locs: seq<S.ThreadLoc>, n: nat)
    requires 0 < n <= |cs| && Located(cs, pkg, locs) && Complete(cs, pkg, locs, n - 1)
    requires SingleHit(cs, pkg, n - 1)
    ensures var h := S.HitAt(cs, pkg, n - 1);
            var more := locs + (if h.Some? && h.value.loc.single then [h.value.loc] else []);
            Located(cs, pkg, more) && Complete(cs, pkg, more, n)
  {
    var h := S.HitAt(cs, pkg, n - 1);
    if h.Some? && h.value.loc.single {
      CompleteMore(cs, pkg, locs, n, h.value.loc);
    } else {
      assert locs + [] == locs;
      CompleteSame(cs, pkg, locs, n);
    }
  }

  lemma SingleLocsNext(cs: seq<Line>, pkg: string, n: nat)
    requires n < |cs|
    ensures var h := S.HitAt(cs, pkg, n);
            SingleLocs(cs, pkg, n + 1) ==
              SingleLocs(cs, pkg, n) + (if h.Some? && h.value.loc.single then [h.value.loc] else [])
  {
    var h := S.HitAt(cs, pkg, n);
    if h.Some? {
      assert S.HitsTo(cs, pkg, n + 1)[..|S.HitsTo(cs, pkg, n + 1)| - 1] == S.HitsTo(cs, pkg, n);
    } else {
      assert S.HitsTo(cs, pkg, n + 1) == S.HitsTo(cs, pkg, n);
    }
  }

  lemma CompleteMore(cs: seq<Line>, pkg: string, locs: seq<S.ThreadLoc>, n: nat, loc: S.ThreadLoc)
    requires 0 < n <= |cs| && Complete(cs, pkg, locs, n - 1) && loc.idx == n - 1
    ensures Complete(cs, pkg, locs + [loc], n)
  {
    var more := locs + [loc];
    forall k | 0 <= k <= |more|
      ensures Low(more, k) <= Bound(more, k, n) <= n
      ensures forall j | Low(more, k) <= j < Bound(more, k, n) :: !SingleAt(cs, pkg, j)
    {
      if k <= |locs| {
        assert Low(more, k) == Low(locs, k) && Bound(more, k, n) == Bound(locs, k, n - 1);
      }
    }
  }

  lemma CompleteSame(cs: seq<Line>, pkg: string, locs: seq<S.ThreadLoc>, n: nat)
    requires 0 < n <= |cs| && Complete(cs, pkg, locs, n - 1) && !SingleAt(cs, pkg, n - 1)
    ensures Complete(cs, pkg, locs, n)
  {
    forall k | 0 <= k <= |locs|
      ensures Low(locs, k) <= Bound(locs, k, n) <= n
      ensures forall j | Low(locs, k) <= j < Bound(locs, k, n) :: !SingleAt(cs, pkg, j)
    {
      assert Low(locs, k) <= Bound(locs, k, n - 1);
    }
  }

  /** The rules on the recorded lines. */
  function RulesAt(cs: seq<Line>, locs: seq<S.ThreadLoc>): (rs: seq<AffinityRule>)
    requires forall k | 0 <= k < |locs| :: locs[k].idx < |cs| && Asked(StateAt(cs, locs[k].idx), cs[locs[k].idx]) != []
    ensures |rs| == |locs| && forall k | 0 <= k < |rs| :: rs[k] == RuleAt(cs, locs[k].idx)
  {
    seq(|locs|, k requires 0 <= k < |locs| => RuleAt(cs, locs[k].idx))
  }

  /** The rules `rs` stand at `locs`, and are all the single-line rules of pkg. */
  ghost predicate SinglesAre(cs: seq<Line>, pkg: string, locs: seq<S.ThreadLoc>, rs: seq<AffinityRule>)
  {
    Recorded(cs, pkg, locs, rs) && Complete(cs, pkg, locs, |cs|) && forall k | 0 <= k < |locs| :: locs[k].single
  }

  lemma SinglesStand(cs: seq<Line>, pkg: string, locs: seq<S.ThreadLoc>, rs: seq<AffinityRule>)
    requires |rs| == |locs| && Located(cs, pkg, locs) && Complete(cs, pkg, locs, |cs|)
    requires forall k | 0 <= k < |rs| :: Asked(StateAt(cs, locs[k].idx), cs[locs[k].idx]) == [rs[k]]
    ensures SinglesAre(cs, pkg, locs, rs)
  {
    forall k | 0 < k < |locs| ensures locs[k - 1].idx < locs[k].idx {
      assert Low(locs, k) <= Bound(locs, k, |cs|);
    }
  }

  // ----- taking them out

  ghost predicate Removing(ok: Verdict, os: seq<Line>, cs: seq<Line>, pkg: string,
                           locs: seq<S.ThreadLoc>, rs: seq<AffinityRule>, k: nat)
  {
    && Taken(ok, os, cs, pkg, locs, rs, k) && NoSinglesFrom(cs, pkg, Bound(locs, k, |os|))
    && (BlockFree(cs, pkg) <==> BlockFree(os, pkg))
  }

  lemma RemovingStart(ok: Verdict, os: seq<Line>, pkg: string, locs: seq<S.ThreadLoc>, rs: seq<AffinityRule>)
    requires Clean(ok, os) && |locs| == |rs|
    ensures Removing(ok, os, os, pkg, locs, rs, |locs|)
  {
    TakenStart(ok, os, pkg, locs, rs);
  }

  lemma NoneBetween(os: seq<Line>, cs: seq<Line>, pkg: string, locs: seq<S.ThreadLoc>, k: nat)
    requires Complete(os, pkg, locs, |os|) && k <= |locs|
    requires var b := Bound(locs, k, |os|); b <= |cs| && cs[..b] == os[..b]
    ensures forall j | Low(locs, k) <= j < Bound(locs, k, |os|) :: !SingleAt(cs, pkg, j)
  {
    var b := Bound(locs, k, |os|);
    forall j | Low(locs, k) <= j < b ensures !SingleAt(cs, pkg, j) {
      SamePoint(os, cs, pkg, b, j);
    }
  }

  lemma RemovingStep(ok: Verdict, os: seq<Line>, cs: seq<Line>, pkg: string,
                     locs: seq<S.ThreadLoc>, rs: seq<AffinityRule>, k: nat, mid: seq<Line>)
    requires |rs| == |locs| && SinglesAre(os, pkg, locs, rs) && pkg != "" && k < |rs| && Removing(ok, os, cs, pkg, locs, rs, k + 1)
    requires Removal(locs[k], pkg, mid)
    ensures locs[k].idx < |cs|
    ensures Removing(ok, os, Spliced(cs, locs[k].idx, locs[k].idx + 1, mid), pkg, locs, rs, k)
  {
    hide Clean, Removal, Moves, Recorded;
    var i, b := locs[k].idx, Bound(locs, k + 1, |os|);
    Spot(os, cs, pkg, locs, rs, k);
    NoneBetween(os, cs, pkg, locs, k + 1);
    TakenStep(ok, os, cs, pkg, locs, rs, k, mid);
    BlocksKept(ok, cs, pkg, i, mid);
    SinglesKept(ok, cs, pkg, i, mid, b);
  }

  lemma RemovingDone(ok: Verdict, os: seq<Line>, cs: seq<Line>, pkg: string,
                     locs: seq<S.ThreadLoc>, rs: seq<AffinityRule>)
    requires SinglesAre(os, pkg, locs, rs) && Removing(ok, os, cs, pkg, locs, rs, 0)
    ensures NoSinglesFrom(cs, pkg, 0)
    ensures Moves(ok, os, cs, pkg, multiset(rs), multiset{})
  {
    assert rs[0..] == rs;
    NoneBetween(os, cs, pkg, locs, 0);
  }

  // ----- a file of one single-line rule

  /** The places of the single-line rule on the only line. */
  lemma OneSingle(c: Line, pkg: string)
    requires c.Text? && c.outer.Single? && c.outer.thread != ""
    ensures SinglesOf(S.Scan([c], pkg).hits) == if pkg == c.outer.pkg then [S.ThreadLoc(0, true, false, c.outer.open)] else []
    ensures S.Scan([c], pkg).pkgLine.None? && S.Scan([c], pkg).blockClose.None?
  {
    var cs := [c];
    OneEvent(cs, pkg);
    hide S.HitAt, S.HeaderAt, S.StateAt, SinglesOf;
    var hits := S.HitsTo(cs, pkg, 1);
    assert hits == S.HitsTo(cs, pkg, 0) + (match S.HitAt(cs, pkg, 0) case Some(h) => [h] case None => []);
    assert S.HeaderTo(cs, pkg, 1) == S.HeaderAt(cs, pkg, 0) && S.CloseTo(cs, pkg, 0).None?;
    OneLoc(hits);
  }

  lemma OneEvent(cs: seq<Line>, pkg: string)
    requires |cs| == 1 && cs[0].Text? && cs[0].outer.Single? && cs[0].outer.thread != ""
    ensures S.HitAt(cs, pkg, 0) == if pkg == cs[0].outer.pkg then
                                     Some(S.Hit(cs[0].outer.thread, S.ThreadLoc(0, true, false, cs[0].outer.open)))
                                   else None
    ensures S.HeaderAt(cs, pkg, 0).None? && !S.InTarget(cs, pkg, 0)
  {
  }

  lemma OneLoc(hits: seq<S.Hit>)
    requires |hits| <= 1
    ensures SinglesOf(hits) == if hits != [] && hits[0].loc.single then [hits[0].loc] else []
  {
    if hits != [] {
      assert hits[..0] == [];
      assert SinglesOf(hits[..0]) == [];
    }
  }
}
