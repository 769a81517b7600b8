/** What stays recognisable in a file while one line of it is taken out: the blocks,
    the headers and the single-line rules of a package. */
module Tracking {
  import opened Base
  import opened Lines
  import opened Loader
  import opened Edits
  import S = Scanner

  /** The loader never stands in a block of pkg. */
  predicate BlockFree(cs: seq<Line>, pkg: string)
  {
    forall k | 0 <= k <= |cs| :: !(StateAt(cs, k).inBlock && StateAt(cs, k).cur == pkg)
  }

  /** A single-line rule of pkg on line k. */
  predicate SingleAt(cs: seq<Line>, pkg: string, k: nat)
    requires k < |cs|
  {
    cs[k].Text? && !StateAt(cs, k).inBlock && cs[k].outer.Single? && cs[k].outer.pkg == pkg
  }

  predicate NoSinglesFrom(cs: seq<Line>, pkg: string, b: nat)
  {
    forall k | b <= k < |cs| :: !SingleAt(cs, pkg, k)
  }

  lemma SingleIsHit(ok: Verdict, cs: seq<Line>, pkg: string, k: nat)
    requires Clean(ok, cs) && k < |cs| && Named(cs[k])
    ensures SingleAt(cs, pkg, k) <==> S.HitAt(cs, pkg, k).Some? && S.HitAt(cs, pkg, k).value.loc.single
  {
    CleanLine(ok, cs, k);
  }

  /** The scanner's state depends on the lines before it only. */
  lemma {:induction false} PrefixSame(a: seq<Line>, b: seq<Line>, i: nat)
    requires i <= |a| && i <= |b| && a[..i] == b[..i]
    ensures S.StateAt(a, i) == S.StateAt(b, i)
  {
    if i > 0 {
      assert a[..i - 1] == a[..i][..i - 1] == b[..i - 1];
      assert a[i - 1] == a[..i][i - 1] == b[i - 1];
      PrefixSame(a, b, i - 1);
      S.PendingRun(a, i - 1);
      var p := S.StateAt(a, i - 1).pend;
      if p.Some? {
        assert a[p.value] == a[..i][p.value] == b[p.value];
      }
    }
  }

  lemma HitFromPrefix(a: seq<Line>, b: seq<Line>, pkg: string, i: nat)
    requires i < |a| && i < |b| && a[..i + 1] == b[..i + 1]
    ensures S.HitAt(a, pkg, i) == S.HitAt(b, pkg, i) && StateAt(a, i) == StateAt(b, i) && a[i] == b[i]
  {
    assert a[..i] == a[..i + 1][..i] == b[..i];
    assert a[i] == a[..i + 1][i] == b[i];
    PrefixSame(a, b, i);
  }

  lemma InTargetIsLoader(ok: Verdict, cs: seq<Line>, pkg: string, k: nat)
    requires Clean(ok, cs) && k <= |cs|
    ensures S.InTarget(cs, pkg, k) <==> StateAt(cs, k).inBlock && StateAt(cs, k).cur == pkg
  {
    S.SoundHasNoOrphans(ok, cs);
    S.AgreeUpTo(cs, k);
  }

  /** In a clean file the scanner records a block exactly when there is one. */
  lemma BlockFound(ok: Verdict, cs: seq<Line>, pkg: string)
    requires Clean(ok, cs)
    ensures var t := S.Scan(cs, pkg);
            && (BlockFree(cs, pkg) <==> t.blockClose.None?)
            && (t.blockClose.None? ==> t.blockOpen.None?)
            && !t.unterminated
  {
    S.FirstBlock(cs, pkg, |cs|);
    CleanEnd(ok, cs);
    forall k | 0 <= k <= |cs| ensures S.InTarget(cs, pkg, k) <==> StateAt(cs, k).inBlock && StateAt(cs, k).cur == pkg {
      InTargetIsLoader(ok, cs, pkg, k);
    }
  }

  /** Without a block, the only header a package can have stands alone. */
  lemma HeaderAlone(ok: Verdict, cs: seq<Line>, pkg: string, v: nat)
    requires Clean(ok, cs) && BlockFree(cs, pkg) && v < |cs| && pkg != ""
    ensures S.HeaderAt(cs, pkg, v).Some? <==>
              cs[v].Text? && !StateAt(cs, v).inBlock && cs[v].outer.Rule? && cs[v].outer.pkg == pkg
    ensures S.HeaderAt(cs, pkg, v).Some? ==> S.HeaderAt(cs, pkg, v) == Some(S.Standalone(v)) && !cs[v].outer.open
  {
    CleanLine(ok, cs, v);
    S.SoundHasNoOrphans(ok, cs);
    S.AgreeUpTo(cs, v);
    assert !(StateAt(cs, v + 1).inBlock && StateAt(cs, v + 1).cur == pkg);
  }

  lemma {:induction false} HeaderIs(cs: seq<Line>, pkg: string, v: nat, n: nat)
    requires v < n <= |cs| && S.HeaderAt(cs, pkg, v).Some? && forall u | 0 <= u < v :: S.HeaderAt(cs, pkg, u).None?
    ensures S.HeaderTo(cs, pkg, n) == S.HeaderAt(cs, pkg, v)
  {
    if n == v + 1 {
      NoHeader(cs, pkg, v);
    } else {
      HeaderIs(cs, pkg, v, n - 1);
    }
  }

  lemma {:induction false} NoHeader(cs: seq<Line>, pkg: string, n: nat)
    requires n <= |cs| && forall u | 0 <= u < n :: S.HeaderAt(cs, pkg, u).None?
    ensures S.HeaderTo(cs, pkg, n).None?
  {
    if n > 0 {
      NoHeader(cs, pkg, n - 1);
    }
  }

  // ----- one single-line rule taken out

  /** The loader's state at old line k, found again in the new file. */
  lemma Removed(ok: Verdict, cs: seq<Line>, pkg: string, i: nat, mid: seq<Line>, k: nat)
    requires Clean(ok, cs) && pkg != "" && i < |cs| && S.HitAt(cs, pkg, i).Some? && k <= |cs|
    requires Removal(S.HitAt(cs, pkg, i).value.loc, pkg, mid)
    ensures |Spliced(cs, i, i + 1, mid)| == |cs| - 1 + |mid| && |mid| <= 1
    ensures k <= i ==> StateAt(Spliced(cs, i, i + 1, mid), k) == StateAt(cs, k)
    ensures k > i ==> StateAt(Spliced(cs, i, i + 1, mid), k - 1 + |mid|) == StateAt(cs, k)
    ensures mid == [] ==> StateAt(cs, i + 1) == StateAt(cs, i)
  {
    RemovalRun(ok, cs, pkg, i, mid);
    if k <= i {
      SplicePrefix(cs, i, i + 1, mid, k);
    } else {
      SpliceSuffix(cs, i, i + 1, mid, k);
    }
  }

  lemma BlocksKept(ok: Verdict, cs: seq<Line>, pkg: string, i: nat, mid: seq<Line>)
    requires Clean(ok, cs) && pkg != "" && i < |cs| && S.HitAt(cs, pkg, i).Some?
    requires Removal(S.HitAt(cs, pkg, i).value.loc, pkg, mid)
    ensures BlockFree(Spliced(cs, i, i + 1, mid), pkg) <==> BlockFree(cs, pkg)
  {
    var out := Spliced(cs, i, i + 1, mid);
    if BlockFree(cs, pkg) {
      forall k | 0 <= k <= |out| ensures !(StateAt(out, k).inBlock && StateAt(out, k).cur == pkg) {
        Removed(ok, cs, pkg, i, mid, if k <= i then k else k + 1 - |mid|);
      }
    }
    if BlockFree(out, pkg) {
      forall j | 0 <= j <= |cs| ensures !(StateAt(cs, j).inBlock && StateAt(cs, j).cur == pkg) {
        Removed(ok, cs, pkg, i, mid, j);
        assert !(StateAt(out, if j <= i then j else j - 1 + |mid|).inBlock && StateAt(out, if j <= i then j else j - 1 + |mid|).cur == pkg);
      }
    }
  }

  lemma SinglesKept(ok: Verdict, cs: seq<Line>, pkg: string, i: nat, mid: seq<Line>, b: nat)
    requires Clean(ok, cs) && pkg != "" && i < b <= |cs| && S.HitAt(cs, pkg, i).Some?
    requires S.HitAt(cs, pkg, i).value.loc.single
    requires Removal(S.HitAt(cs, pkg, i).value.loc, pkg, mid)
    requires NoSinglesFrom(cs, pkg, b) && forall k | i < k < b :: !SingleAt(cs, pkg, k)
    ensures NoSinglesFrom(Spliced(cs, i, i + 1, mid), pkg, i)
  {
    var out := Spliced(cs, i, i + 1, mid);
    Removed(ok, cs, pkg, i, mid, i);
    forall k | i <= k < |out| ensures !SingleAt(out, pkg, k) {
      if k >= i + |mid| {
        var j := k + 1 - |mid|;
        assert out[k] == cs[j];
        Removed(ok, cs, pkg, i, mid, j);
        assert !SingleAt(cs, pkg, j);
      } else {
        assert out[k] == mid[0];
      }
    }
  }

  /** Where the first header goes when a single-line rule is taken out. */
  lemma HeaderKept(ok: Verdict, cs: seq<Line>, pkg: string, i: nat)
    requires Clean(ok, cs) && pkg != "" && i < |cs| && S.HitAt(cs, pkg, i).Some?
    requires S.HitAt(cs, pkg, i).value.loc.single && Removal(S.HitAt(cs, pkg, i).value.loc, pkg, [])
    requires BlockFree(cs, pkg)
    ensures var out := Spliced(cs, i, i + 1, []);
            match S.HeaderTo(cs, pkg, |cs|)
            case None => S.HeaderTo(out, pkg, |out|).None?
            case Some(h) =>
              && h.Standalone? && h.idx < |cs| && h.idx != i
              && S.HeaderTo(out, pkg, |out|) == Some(S.Standalone(if h.idx > i then h.idx - 1 else h.idx))
  {
    hide S.HeaderAt, Clean, BlockFree, S.HitAt, Moves, Removal;
    var out := Spliced(cs, i, i + 1, []);
    RemoveHit(ok, cs, pkg, i, []);
    BlocksKept(ok, cs, pkg, i, []);
    Removed(ok, cs, pkg, i, [], i);
    var v := S.FirstHeader(cs, pkg, |cs|);
    var w := if v <= i then v else v - 1;
    forall u | 0 <= u < w ensures S.HeaderAt(out, pkg, u).None? {
      HeaderMoved(ok, cs, pkg, i, u);
    }
    if v < |cs| {
      NotBoth(ok, cs, pkg, i, v);
      HeaderMoved(ok, cs, pkg, i, w);
      HeaderIs(out, pkg, w, |out|);
    } else {
      NoHeader(out, pkg, |out|);
    }
  }

  lemma NotBoth(ok: Verdict, cs: seq<Line>, pkg: string, i: nat, v: nat)
    requires Clean(ok, cs) && pkg != "" && i < |cs| && v < |cs| && BlockFree(cs, pkg)
    requires S.HitAt(cs, pkg, i).Some? && S.HitAt(cs, pkg, i).value.loc.single && S.HeaderAt(cs, pkg, v).Some?
    ensures v != i && S.HeaderAt(cs, pkg, v) == Some(S.Standalone(v))
  {
    CleanLine(ok, cs, i);
    HeaderAlone(ok, cs, pkg, v);
  }

  lemma HeaderMoved(ok: Verdict, cs: seq<Line>, pkg: string, i: nat, u: nat)
    requires Clean(ok, cs) && pkg != "" && i < |cs| && S.HitAt(cs, pkg, i).Some? && u + 1 < |cs|
    requires Removal(S.HitAt(cs, pkg, i).value.loc, pkg, []) && BlockFree(cs, pkg)
    requires Clean(ok, Spliced(cs, i, i + 1, [])) && BlockFree(Spliced(cs, i, i + 1, []), pkg)
    ensures var out := Spliced(cs, i, i + 1, []);
            && (S.HeaderAt(out, pkg, u).Some? <==> S.HeaderAt(cs, pkg, if u < i then u else u + 1).Some?)
            && (S.HeaderAt(out, pkg, u).Some? ==> S.HeaderAt(out, pkg, u) == Some(S.Standalone(u)))
  {
    var out := Spliced(cs, i, i + 1, []);
    var j := if u < i then u else u + 1;
    assert out[u] == cs[j];
    Removed(ok, cs, pkg, i, [], j);
    HeaderAlone(ok, cs, pkg, j);
    HeaderAlone(ok, out, pkg, u);
  }
}
