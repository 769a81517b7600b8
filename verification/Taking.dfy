/** The editor's table of thread rules against the loader's rules, and taking recorded
    rules out of a file, last one first. */
module Taking {
  import opened Base
  import opened Lines
  import opened Loader
  import opened Edits
  import opened Tracking
  import S = Scanner

  // ----- the rules of one thread

  function Only(rs: seq<AffinityRule>, pkg: string, thread: string): seq<AffinityRule>
  {
    if rs == [] then []
    else (if rs[0].pkg == pkg && rs[0].thread == thread then [rs[0]] else []) + Only(rs[1..], pkg, thread)
  }

  function Without(rs: seq<AffinityRule>, pkg: string, thread: string): seq<AffinityRule>
  {
    if rs == [] then []
    else (if rs[0].pkg == pkg && rs[0].thread == thread then [] else [rs[0]]) + Without(rs[1..], pkg, thread)
  }

  lemma {:induction false} OnlyAndWithout(rs: seq<AffinityRule>, pkg: string, thread: string)
    ensures multiset(rs) == multiset(Only(rs, pkg, thread)) + multiset(Without(rs, pkg, thread))
  {
    if rs != [] {
      OnlyAndWithout(rs[1..], pkg, thread);
      assert rs == [rs[0]] + rs[1..];
    }
  }

  lemma {:induction false} OnlyConcat(a: seq<AffinityRule>, b: seq<AffinityRule>, pkg: string, thread: string)
    ensures Only(a + b, pkg, thread) == Only(a, pkg, thread) + Only(b, pkg, thread)
  {
    if a == [] {
      assert a + b == b;
    } else {
      assert (a + b)[1..] == a[1..] + b;
      OnlyConcat(a[1..], b, pkg, thread);
    }
  }

  /** The places the scanner records under a thread name. */
  function ThreadLocs(hits: seq<S.Hit>, thread: string): (locs: seq<S.ThreadLoc>)
  {
    if hits == [] then []
    else
      var h := hits[|hits| - 1];
      ThreadLocs(hits[..|hits| - 1], thread) + (if h.name == thread then [h.loc] else [])
  }

  /** The rules `rs` stand at the recorded places `locs`, which are in line order. */
  ghost predicate Recorded(cs: seq<Line>, pkg: string, locs: seq<S.ThreadLoc>, rs: seq<AffinityRule>)
  {
    && |rs| == |locs|
    && (forall k | 0 <= k < |locs| ::
          && locs[k].idx < |cs| && S.HitAt(cs, pkg, locs[k].idx).Some?
          && S.HitAt(cs, pkg, locs[k].idx).value.loc == locs[k]
          && Asked(StateAt(cs, locs[k].idx), cs[locs[k].idx]) == [rs[k]])
    && (forall k | 0 < k < |locs| :: locs[k - 1].idx < locs[k].idx)
  }

  lemma ThreadLocsNext(cs: seq<Line>, pkg: string, thread: string, n: nat)
    requires n < |cs|
    ensures var h := S.HitAt(cs, pkg, n);
            ThreadLocs(S.HitsTo(cs, pkg, n + 1), thread) ==
              ThreadLocs(S.HitsTo(cs, pkg, n), thread) + (if h.Some? && h.value.name == thread then [h.value.loc] else [])
  {
    var h := S.HitAt(cs, pkg, n);
    if h.Some? {
      assert S.HitsTo(cs, pkg, n + 1)[..|S.HitsTo(cs, pkg, n + 1)| - 1] == S.HitsTo(cs, pkg, n);
    } else {
      assert S.HitsTo(cs, pkg, n + 1) == S.HitsTo(cs, pkg, n);
    }
  }

  /** The line at n adds the same thing to the loader's rules and to the table. */
  lemma RuleOrHit(ok: Verdict, cs: seq<Line>, pkg: string, thread: string, n: nat)
    requires Clean(ok, cs) && n < |cs| && Named(cs[n]) && thread != ""
    ensures var h := S.HitAt(cs, pkg, n);
            var e := Only(Emit(ok, StateAt(cs, n), cs[n]), pkg, thread);
            if h.Some? && h.value.name == thread
            then h.value.loc.idx == n && Asked(StateAt(cs, n), cs[n]) != [] && e == [RuleAt(cs, n)]
            else e == []
  {
    CleanLine(ok, cs, n);
    S.SoundHasNoOrphans(ok, cs);
    S.HitsAreLoaderLines(cs, pkg, n);
    assert Emit(ok, StateAt(cs, n), cs[n]) == Asked(StateAt(cs, n), cs[n]);
    var a := Asked(StateAt(cs, n), cs[n]);
    if a != [] {
      assert a == [a[0]] && a[1..] == [];
    }
  }

  lemma RulesNext(ok: Verdict, cs: seq<Line>, n: nat)
    requires n < |cs|
    ensures Rules(ok, START, cs[..n + 1]) == Rules(ok, START, cs[..n]) + Emit(ok, StateAt(cs, n), cs[n])
  {
    assert cs[..n + 1] == cs[..n] + [cs[n]];
    Concat(ok, START, cs[..n], [cs[n]]);
    One(ok, StateAt(cs, n), cs[n]);
  }

  /** The loader's rules of one thread in the first n lines. */
  function OnlyTo(ok: Verdict, cs: seq<Line>, pkg: string, thread: string, n: nat): seq<AffinityRule>
    requires n <= |cs|
  {
    Only(Rules(ok, START, cs[..n]), pkg, thread)
  }

  lemma OnlyNext(ok: Verdict, cs: seq<Line>, pkg: string, thread: string, n: nat)
    requires Clean(ok, cs) && n < |cs| && Named(cs[n]) && thread != ""
    ensures var h := S.HitAt(cs, pkg, n);
            if h.Some? && h.value.name == thread
            then h.value.loc.idx == n && Asked(StateAt(cs, n), cs[n]) != []
                 && OnlyTo(ok, cs, pkg, thread, n + 1) == OnlyTo(ok, cs, pkg, thread, n) + [RuleAt(cs, n)]
            else OnlyTo(ok, cs, pkg, thread, n + 1) == OnlyTo(ok, cs, pkg, thread, n) + []
  {
    hide Clean, Rules, Emit;
    RuleOrHit(ok, cs, pkg, thread, n);
    RulesNext(ok, cs, n);
    OnlyConcat(Rules(ok, START, cs[..n]), Emit(ok, StateAt(cs, n), cs[n]), pkg, thread);
  }

  /** On a clean file the places recorded under a thread name are exactly the lines of
      the rules the loader has for it, in the same order. */
  lemma {:induction false} TableIsRules(ok: Verdict, cs: seq<Line>, pkg: string, thread: string, n: nat)
    requires Clean(ok, cs) && n <= |cs| && thread != "" && forall k | 0 <= k < |cs| :: Named(cs[k])
    ensures Recorded(cs, pkg, ThreadLocs(S.HitsTo(cs, pkg, n), thread), OnlyTo(ok, cs, pkg, thread, n))
    ensures forall l | l in ThreadLocs(S.HitsTo(cs, pkg, n), thread) :: l.idx < n
  {
    hide Clean, Recorded, Named, ThreadLocs, OnlyTo, S.HitsTo;
    if n == 0 {
      NothingRecorded(ok, cs, pkg, thread);
    } else {
      TableIsRules(ok, cs, pkg, thread, n - 1);
      ThreadLocsNext(cs, pkg, thread, n - 1);
      OnlyNext(ok, cs, pkg, thread, n - 1);
      RecordedMore(ok, cs, pkg, thread, n - 1, ThreadLocs(S.HitsTo(cs, pkg, n - 1), thread),
                   OnlyTo(ok, cs, pkg, thread, n - 1));
    }
  }

  lemma NothingRecorded(ok: Verdict, cs: seq<Line>, pkg: string, thread: string)
    ensures ThreadLocs(S.HitsTo(cs, pkg, 0), thread) == [] && OnlyTo(ok, cs, pkg, thread, 0) == []
    ensures Recorded(cs, pkg, [], [])
  {
    assert cs[..0] == [];
  }

  lemma RecordedMore(ok: Verdict, cs: seq<Line>, pkg: string, thread: string, n: nat,
                     locs: seq<S.ThreadLoc>, rs: seq<AffinityRule>)
    requires n < |cs| && Recorded(cs, pkg, locs, rs) && forall l | l in locs :: l.idx < n
    ensures var h := S.HitAt(cs, pkg, n);
            if h.Some? && h.value.name == thread && h.value.loc.idx == n && Asked(StateAt(cs, n), cs[n]) != []
            then Recorded(cs, pkg, locs + [h.value.loc], rs + [RuleAt(cs, n)])
            else Recorded(cs, pkg, locs + [], rs + [])
  {
    hide S.HitAt;
    assert locs + [] == locs && rs + [] == rs;
    var h := S.HitAt(cs, pkg, n);
    if h.Some? && h.value.loc.idx == n && Asked(StateAt(cs, n), cs[n]) != [] {
      var more := locs + [h.value.loc];
      forall k | 0 < k < |more| ensures more[k - 1].idx < more[k].idx {
        assert more[k - 1] in locs;
      }
    }
  }

  // ----- taking them out

  function Bound(locs: seq<S.ThreadLoc>, k: nat, n: nat): nat
  {
    if k < |locs| then locs[k].idx else n
  }

  /** The file after the rules at locs[k..] have been taken out. */
  ghost predicate Taken(ok: Verdict, os: seq<Line>, cs: seq<Line>, pkg: string,
                        locs: seq<S.ThreadLoc>, rs: seq<AffinityRule>, k: nat)
  {
    var b := Bound(locs, k, |os|);
    && k <= |rs| && b <= |cs| && b <= |os| && cs[..b] == os[..b]
    && Clean(ok, cs) && Moves(ok, os, cs, pkg, multiset(rs[k..]), multiset{})
  }

  lemma TakenStart(ok: Verdict, os: seq<Line>, pkg: string, locs: seq<S.ThreadLoc>, rs: seq<AffinityRule>)
    requires Clean(ok, os) && |locs| == |rs|
    ensures Taken(ok, os, os, pkg, locs, rs, |locs|)
  {
    MovesNothing(ok, os, pkg);
    assert multiset(rs[|locs|..]) == multiset{};
  }

  /** Inside the untouched prefix a line reads as it did in the original file. */
  lemma SamePoint(os: seq<Line>, cs: seq<Line>, pkg: string, b: nat, j: nat)
    requires j < b <= |cs| && b <= |os| && cs[..b] == os[..b]
    ensures S.HitAt(cs, pkg, j) == S.HitAt(os, pkg, j) && StateAt(cs, j) == StateAt(os, j) && cs[j] == os[j]
    ensures SingleAt(cs, pkg, j) <==> SingleAt(os, pkg, j)
  {
    assert cs[..j + 1] == cs[..b][..j + 1] == os[..b][..j + 1] == os[..j + 1];
    HitFromPrefix(cs, os, pkg, j);
  }

  /** The next line to go reads as it did in the original file. */
  lemma Spot(os: seq<Line>, cs: seq<Line>, pkg: string, locs: seq<S.ThreadLoc>, rs: seq<AffinityRule>, k: nat)
    requires Recorded(os, pkg, locs, rs) && k < |rs|
    requires var b := Bound(locs, k + 1, |os|); b <= |cs| && cs[..b] == os[..b]
    ensures var i, b := locs[k].idx, Bound(locs, k + 1, |os|);
            && i < b <= |cs| && b <= |os| && S.HitAt(cs, pkg, i).Some? && S.HitAt(cs, pkg, i).value.loc == locs[k]
            && Asked(StateAt(cs, i), cs[i]) == [rs[k]]
  {
    assert locs[k].idx < Bound(locs, k + 1, |os|) by {
      if k + 1 < |locs| {
        assert locs[k + 1 - 1].idx < locs[k + 1].idx;
      }
    }
    SamePoint(os, cs, pkg, Bound(locs, k + 1, |os|), locs[k].idx);
  }

  lemma TakenStep(ok: Verdict, os: seq<Line>, cs: seq<Line>, pkg: string,
                  locs: seq<S.ThreadLoc>, rs: seq<AffinityRule>, k: nat, mid: seq<Line>)
    requires |rs| == |locs| && Recorded(os, pkg, locs, rs) && pkg != "" && k < |rs| && Taken(ok, os, cs, pkg, locs, rs, k + 1)
    requires Removal(locs[k], pkg, mid)
    ensures locs[k].idx < |cs|
    ensures Taken(ok, os, Spliced(cs, locs[k].idx, locs[k].idx + 1, mid), pkg, locs, rs, k)
  {
    hide Clean, Removal, Moves, Recorded;
    var i, b := locs[k].idx, Bound(locs, k + 1, |os|);
    Spot(os, cs, pkg, locs, rs, k);
    RemoveHit(ok, cs, pkg, i, mid);
    StepMoves(ok, os, cs, pkg, rs, k, i, mid);
    PrefixLeft(os, cs, b, i, mid);
  }

  lemma PrefixLeft(os: seq<Line>, cs: seq<Line>, b: nat, i: nat, mid: seq<Line>)
    requires i < b <= |cs| && b <= |os| && cs[..b] == os[..b]
    ensures Spliced(cs, i, i + 1, mid)[..i] == os[..i] && i <= |Spliced(cs, i, i + 1, mid)|
  {
    assert Spliced(cs, i, i + 1, mid)[..i] == cs[..i] == cs[..b][..i] == os[..b][..i] == os[..i];
  }

  lemma HeadCounted(rs: seq<AffinityRule>, k: nat)
    requires k < |rs|
    ensures multiset(rs[k..]) == multiset(rs[k + 1..]) + multiset{rs[k]}
  {
    assert rs[k..] == [rs[k]] + rs[k + 1..];
  }

  lemma StepMoves(ok: Verdict, os: seq<Line>, cs: seq<Line>, pkg: string, rs: seq<AffinityRule>,
                  k: nat, i: nat, mid: seq<Line>)
    requires k < |rs| && i < |cs| && Moves(ok, os, cs, pkg, multiset(rs[k + 1..]), multiset{})
    requires Moves(ok, cs, Spliced(cs, i, i + 1, mid), pkg, multiset{rs[k]}, multiset{})
    ensures Moves(ok, os, Spliced(cs, i, i + 1, mid), pkg, multiset(rs[k..]), multiset{})
  {
    hide Moves;
    MovesChain(ok, os, cs, Spliced(cs, i, i + 1, mid), pkg, multiset(rs[k + 1..]), multiset{}, multiset{rs[k]}, multiset{});
    HeadCounted(rs, k);
    var none: multiset<AffinityRule> := multiset{};
    assert none + none == none;
  }
}
