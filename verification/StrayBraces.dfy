/** Files with any failure but one: the loader meets no bare brace without a package line
    in front of it. */
module StrayBraces {
  import opened Base
  import opened Lines
  import opened Loader
  import opened Purging
  import S = Scanner

  /** A bare brace outside every block, with no package line waiting for it. */
  predicate StrayOpen(s: State, c: Line)
  {
    c.Text? && !s.inBlock && s.pend == "" && c.outer == BareOpen("")
  }

  predicate NoStray(s: State, cs: seq<Line>)
    decreases |cs|
  {
    cs == [] || (!StrayOpen(s, cs[0]) && NoStray(Step(s, cs[0]), cs[1..]))
  }

  lemma {:induction false} NoStrayConcat(s: State, a: seq<Line>, b: seq<Line>)
    ensures NoStray(s, a + b) <==> NoStray(s, a) && NoStray(After(s, a), b)
    decreases |a|
  {
    hide StrayOpen, Step;
    if a == [] {
      assert a + b == b;
    } else {
      assert (a + b)[1..] == a[1..] + b;
      NoStrayConcat(Step(s, a[0]), a[1..], b);
    }
  }

  lemma NoStrayOne(s: State, c: Line)
    ensures NoStray(s, [c]) <==> !StrayOpen(s, c)
  {
    hide StrayOpen, Step;
    assert [c][1..] == [];
  }

  lemma NoStrayAt(cs: seq<Line>, i: nat)
    requires NoStray(START, cs) && i < |cs|
    ensures !StrayOpen(StateAt(cs, i), cs[i])
    ensures NoStray(START, cs[..i])
  {
    hide StrayOpen, Step, After, NoStray;
    var front := cs[..i];
    assert cs == front + ([cs[i]] + cs[i + 1..]);
    NoStrayConcat(START, front, [cs[i]] + cs[i + 1..]);
    NoStrayConcat(StateAt(cs, i), [cs[i]], cs[i + 1..]);
    NoStrayOne(StateAt(cs, i), cs[i]);
  }

  /** Then the scanner reads the same blocks as the loader. */
  lemma {:induction false} NoStrayNoOrphans(cs: seq<Line>, n: nat)
    requires n <= |cs| && forall i | 0 <= i < n :: !StrayOpen(StateAt(cs, i), cs[i])
    ensures S.NoOrphans(cs, n) && S.Agree(cs, StateAt(cs, n), S.StateAt(cs, n))
  {
    if n > 0 {
      NoStrayNoOrphans(cs, n - 1);
      S.AgreeUpTo(cs, n - 1);
      assert !S.OrphanOpen(cs, n - 1);
    }
    S.AgreeUpTo(cs, n);
  }

  /** A package line left waiting in front of such lines changes none of their rules and
      leads to the same place. */
  lemma {:induction false} PendMoot(ok: Verdict, p: string, cs: seq<Line>)
    requires NoStray(START, cs)
    ensures var s := State(false, "", p);
            && Rules(ok, s, cs) == Rules(ok, START, cs) && NoStray(s, cs) && (forall pkg :: Events(s, cs, pkg) == Events(START, cs, pkg))
            && After(s, cs).inBlock == After(START, cs).inBlock && After(s, cs).cur == After(START, cs).cur
    decreases |cs|
  {
    if cs != [] {
      var s := State(false, "", p);
      if cs[0].Skip? {
        PendMoot(ok, p, cs[1..]);
      } else {
        assert Step(s, cs[0]) == Step(START, cs[0]);
      }
    }
  }
}
