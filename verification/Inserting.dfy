/** Putting thread rules into a file: where the block, the first line and the
    single-line rules of the package are afterwards. */
module Inserting {
  import opened Base
  import opened Lines
  import opened Loader
  import opened Edits
  import opened Tracking
  import S = Scanner

  /** Inside a splice the loader runs through the new lines. */
  lemma SpliceInside(cs: seq<Line>, i: nat, j: nat, mid: seq<Line>, k: nat)
    requires i <= j <= |cs| && k <= |mid|
    ensures i + k <= |Spliced(cs, i, j, mid)|
    ensures StateAt(Spliced(cs, i, j, mid), i + k) == After(StateAt(cs, i), mid[..k])
  {
    assert Spliced(cs, i, j, mid)[..i + k] == cs[..i] + mid[..k];
    AfterConcat(START, cs[..i], mid[..k]);
  }

  /** New line k is a single-line rule of pkg. */
  predicate SingleIn(s: State, mid: seq<Line>, pkg: string, k: nat)
    requires k < |mid|
  {
    mid[k].Text? && !After(s, mid[..k]).inBlock && mid[k].outer.Single? && mid[k].outer.pkg == pkg
  }

  lemma SinglesAfter(cs: seq<Line>, i: nat, j: nat, mid: seq<Line>, pkg: string)
    requires i <= j <= |cs| && After(StateAt(cs, i), mid) == StateAt(cs, j)
    requires NoSinglesFrom(cs, pkg, 0) && forall k | 0 <= k < |mid| :: !SingleIn(StateAt(cs, i), mid, pkg, k)
    ensures NoSinglesFrom(Spliced(cs, i, j, mid), pkg, 0)
  {
    hide After;
    var out := Spliced(cs, i, j, mid);
    forall k | 0 <= k < |out| ensures !SingleAt(out, pkg, k) {
      if k < i {
        SplicePrefix(cs, i, j, mid, k);
        assert out[k] == cs[k] && !SingleAt(cs, pkg, k);
      } else if k < i + |mid| {
        SpliceInside(cs, i, j, mid, k - i);
        assert out[k] == mid[k - i] && !SingleIn(StateAt(cs, i), mid, pkg, k - i);
      } else {
        var u := k - i - |mid| + j;
        SpliceSuffix(cs, i, j, mid, u);
        assert out[k] == cs[u] && !SingleAt(cs, pkg, u);
      }
    }
  }

  lemma {:induction false} EntriesStay(s: State, es: seq<Line>, rs: seq<AffinityRule>, k: nat)
    requires Entries(es, rs) && s.inBlock && k <= |es|
    ensures After(s, es[..k]) == s
    decreases k
  {
    if k > 0 {
      EntriesStay(s, es[1..], rs[1..], k - 1);
      assert es[..k][1..] == es[1..][..k - 1];
    }
  }

  /** Inside a block of printed lines. */
  lemma BlockStay(s: State, b: seq<Line>, es: seq<Line>, rs: seq<AffinityRule>, k: nat)
    requires Block(b, es) && Entries(es, rs) && Step(s, b[0]).inBlock && 0 < k < |b|
    ensures After(s, b[..k]) == Step(s, b[0])
  {
    EntriesStay(Step(s, b[0]), es, rs, k - 1);
    assert b[..k][1..] == es[..k - 1] && b[..k][0] == b[0];
  }

  lemma BlockNoSingles(s: State, b: seq<Line>, es: seq<Line>, rs: seq<AffinityRule>, pkg: string)
    requires Block(b, es) && Entries(es, rs) && Step(s, b[0]).inBlock && !b[0].outer.Single?
    ensures forall k | 0 <= k < |b| :: !SingleIn(s, b, pkg, k)
  {
    forall k | 0 <= k < |b| ensures !SingleIn(s, b, pkg, k) {
      if k > 0 {
        BlockStay(s, b, es, rs, k);
      }
    }
  }

  /** What putting the rules `rs` of pkg in must achieve. */
  ghost predicate PutIn(ok: Verdict, cs: seq<Line>, out: seq<Line>, pkg: string, rs: seq<AffinityRule>)
  {
    && Clean(ok, out) && Moves(ok, cs, out, pkg, multiset{}, multiset(rs))
    && NoSinglesFrom(out, pkg, 0) && !BlockFree(out, pkg)
  }

  predicate Printable(ok: Verdict, pkg: string, es: seq<Line>, rs: seq<AffinityRule>)
  {
    Entries(es, rs) && AllOf(rs, pkg) && AllAdmitted(ok, rs) && pkg != ""
  }

  /** Into the block that is there. */
  lemma PutInBlock(ok: Verdict, cs: seq<Line>, pkg: string, es: seq<Line>, rs: seq<AffinityRule>)
    requires Clean(ok, cs) && NoSinglesFrom(cs, pkg, 0) && Printable(ok, pkg, es, rs)
    requires S.Scan(cs, pkg).blockClose.Some?
    ensures var c := S.Scan(cs, pkg).blockClose.value;
            c < |cs| && PutIn(ok, cs, Spliced(cs, c, c, es), pkg, rs)
  {
    var c := S.Scan(cs, pkg).blockClose.value;
    S.FirstBlock(cs, pkg, |cs|);
    assert S.InTarget(cs, pkg, c);
    InTargetIsLoader(ok, cs, pkg, c);
    InsertEntries(ok, cs, pkg, c, es, rs);
    forall k | 0 <= k < |es| ensures !SingleIn(StateAt(cs, c), es, pkg, k) {
      EntriesStay(StateAt(cs, c), es, rs, k);
    }
    SinglesAfter(cs, c, c, es, pkg);
    SplicePrefix(cs, c, c, es, c);
  }

  /** Behind the package's own line, which now opens a block. */
  lemma PutBehind(ok: Verdict, cs: seq<Line>, pkg: string, i: nat, b: seq<Line>, es: seq<Line>, rs: seq<AffinityRule>)
    requires Clean(ok, cs) && NoSinglesFrom(cs, pkg, 0) && Printable(ok, pkg, es, rs)
    requires i < |cs| && S.HeaderAt(cs, pkg, i) == Some(S.Standalone(i))
    requires Block(b, es) && b[0].outer == Rule(pkg, cs[i].outer.cpus, true)
    ensures PutIn(ok, cs, Spliced(cs, i, i + 1, b), pkg, rs)
  {
    hide Clean, Moves, Entries, Block, NoSinglesFrom, BlockFree, SingleIn;
    OpenStandalone(ok, cs, pkg, i, b, es, rs);
    CleanLine(ok, cs, i);
    BlockFirst(b, es);
    BlockNoSingles(StateAt(cs, i), b, es, rs, pkg);
    SinglesAfter(cs, i, i + 1, b, pkg);
    Opened(cs, i, i + 1, b, pkg);
  }

  lemma BlockFirst(b: seq<Line>, es: seq<Line>)
    requires Block(b, es)
    ensures b != [] && b[0].Text?
  {
  }

  lemma Opened(cs: seq<Line>, i: nat, j: nat, b: seq<Line>, pkg: string)
    requires i <= j <= |cs| && b != [] && Step(StateAt(cs, i), b[0]).inBlock && Step(StateAt(cs, i), b[0]).cur == pkg
    ensures !BlockFree(Spliced(cs, i, j, b), pkg)
  {
    SpliceInside(cs, i, j, b, 1);
    assert b[..1] == [b[0]] && [b[0]][1..] == [];
  }

  /** In a block of their own. */
  lemma PutFresh(ok: Verdict, cs: seq<Line>, pkg: string, i: nat, b: seq<Line>, es: seq<Line>, rs: seq<AffinityRule>)
    requires Clean(ok, cs) && NoSinglesFrom(cs, pkg, 0) && Printable(ok, pkg, es, rs)
    requires i <= |cs| && StateAt(cs, i) == START && Block(b, es) && b[0].outer == BareOpen(pkg)
    ensures PutIn(ok, cs, Spliced(cs, i, i, b), pkg, rs)
  {
    InsertBlock(ok, cs, pkg, i, b, es, rs);
    BlockNoSingles(START, b, es, rs, pkg);
    SinglesAfter(cs, i, i, b, pkg);
    Opened(cs, i, i, b, pkg);
  }
}
