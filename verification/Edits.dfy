/** The single-line and block edits of the rule editor, on classified lines: what
    each one does to the rules the loader reads back. */
module Edits {
  import opened Base
  import opened Lines
  import opened Loader
  import S = Scanner

  /** The rules of every other package, in file order. */
  function Others(rs: seq<AffinityRule>, pkg: string): seq<AffinityRule>
  {
    if rs == [] then []
    else (if rs[0].pkg != pkg then [rs[0]] else []) + Others(rs[1..], pkg)
  }

  predicate AllOf(rs: seq<AffinityRule>, pkg: string)
  {
    forall r | r in rs :: r.pkg == pkg
  }

  lemma {:induction false} OthersConcat(a: seq<AffinityRule>, b: seq<AffinityRule>, pkg: string)
    ensures Others(a + b, pkg) == Others(a, pkg) + Others(b, pkg)
  {
    if a == [] {
      assert a + b == b;
    } else {
      assert (a + b)[1..] == a[1..] + b;
      OthersConcat(a[1..], b, pkg);
    }
  }

  lemma {:induction false} OthersOfNone(rs: seq<AffinityRule>, pkg: string)
    requires AllOf(rs, pkg)
    ensures Others(rs, pkg) == []
  {
    if rs != [] {
      assert rs[0] in rs;
      OthersOfNone(rs[1..], pkg);
    }
  }

  lemma {:induction false} OthersOfAll(rs: seq<AffinityRule>, pkg: string)
    requires forall r | r in rs :: r.pkg != pkg
    ensures Others(rs, pkg) == rs
  {
    if rs != [] {
      assert rs[0] in rs;
      OthersOfAll(rs[1..], pkg);
    }
  }

  /** Rewriting `cs` into `out` took the rules `minus` of pkg away, put the rules
      `plus` in, and left the sequence of every other package's rules as it was. */
  predicate Moves(ok: Verdict, cs: seq<Line>, out: seq<Line>, pkg: string,
                  minus: multiset<AffinityRule>, plus: multiset<AffinityRule>)
  {
    && Others(Loaded(ok, out), pkg) == Others(Loaded(ok, cs), pkg)
    && multiset(Loaded(ok, out)) + minus == multiset(Loaded(ok, cs)) + plus
  }

  lemma MovesChain(ok: Verdict, a: seq<Line>, b: seq<Line>, c: seq<Line>, pkg: string,
                   m1: multiset<AffinityRule>, p1: multiset<AffinityRule>,
                   m2: multiset<AffinityRule>, p2: multiset<AffinityRule>)
    requires Moves(ok, a, b, pkg, m1, p1) && Moves(ok, b, c, pkg, m2, p2)
    ensures Moves(ok, a, c, pkg, m1 + m2, p1 + p2)
  {
    var x, y, z := multiset(Loaded(ok, a)), multiset(Loaded(ok, b)), multiset(Loaded(ok, c));
    assert z + (m1 + m2) == (z + m2) + m1 == (y + m1) + p2 == x + (p1 + p2);
  }

  lemma MovesCancel(ok: Verdict, a: seq<Line>, c: seq<Line>, pkg: string,
                    m: multiset<AffinityRule>, p: multiset<AffinityRule>, x: multiset<AffinityRule>)
    requires Moves(ok, a, c, pkg, m + x, p + x)
    ensures Moves(ok, a, c, pkg, m, p)
  {
    var y, z := multiset(Loaded(ok, a)), multiset(Loaded(ok, c));
    assert z + m == (z + (m + x)) - x == (y + (p + x)) - x == y + p;
  }

  lemma MovesNothing(ok: Verdict, cs: seq<Line>, pkg: string)
    ensures Moves(ok, cs, cs, pkg, multiset{}, multiset{})
  {
  }

  /** One splice as a move. */
  lemma SpliceMoves(ok: Verdict, cs: seq<Line>, i: nat, j: nat, mid: seq<Line>, pkg: string)
    requires i <= j <= |cs|
    requires After(StateAt(cs, i), mid) == StateAt(cs, j)
    requires AllOf(Rules(ok, StateAt(cs, i), cs[i..j]), pkg) && AllOf(Rules(ok, StateAt(cs, i), mid), pkg)
    ensures Moves(ok, cs, Spliced(cs, i, j, mid), pkg,
                  multiset(Rules(ok, StateAt(cs, i), cs[i..j])), multiset(Rules(ok, StateAt(cs, i), mid)))
  {
    Splice(ok, cs, i, j, mid);
    var a := Rules(ok, START, cs[..i]);
    var o := Rules(ok, StateAt(cs, i), cs[i..j]);
    var m := Rules(ok, StateAt(cs, i), mid);
    var z := Rules(ok, StateAt(cs, j), cs[j..]);
    OthersConcat(a, o, pkg);
    OthersConcat(a, m, pkg);
    OthersConcat(a + o, z, pkg);
    OthersConcat(a + m, z, pkg);
    OthersOfNone(o, pkg);
    OthersOfNone(m, pkg);
  }

  // ----- clean files

  lemma CleanLine(ok: Verdict, cs: seq<Line>, i: nat)
    requires Clean(ok, cs) && i < |cs|
    ensures HardFails(ok, StateAt(cs, i), cs[i]) == 0 && SoftFails(StateAt(cs, i), cs[i]) == 0
    ensures StateAt(cs, i + 1) == Step(StateAt(cs, i), cs[i])
    ensures cs[i].Text? && !StateAt(cs, i).inBlock && !(cs[i].outer.BareOpen? && cs[i].outer.pkg == "") ==>
              StateAt(cs, i).pend == ""
    ensures S.StateAt(cs, i).inBlock == StateAt(cs, i).inBlock
    ensures StateAt(cs, i).inBlock ==> S.StateAt(cs, i).cur == StateAt(cs, i).cur && StateAt(cs, i).pend == ""
    ensures !StateAt(cs, i).inBlock ==> StateAt(cs, i).cur == ""
  {
    LineOf(ok, cs, i);
    S.SoundHasNoOrphans(ok, cs);
    S.AgreeUpTo(cs, i);
    NoCurrentOutside(cs, i);
  }

  lemma CleanEnd(ok: Verdict, cs: seq<Line>)
    requires Clean(ok, cs)
    ensures StateAt(cs, |cs|) == START == After(START, cs)
    ensures !S.StateAt(cs, |cs|).inBlock
    ensures Sound(ok, cs)
  {
    assert cs[..|cs|] == cs;
    NoCurrentOutside(cs, |cs|);
    S.SoundHasNoOrphans(ok, cs);
    S.AgreeUpTo(cs, |cs|);
  }

  /** A splice that keeps the state and adds no failure keeps a clean file clean. */
  lemma SpliceClean(ok: Verdict, cs: seq<Line>, i: nat, j: nat, mid: seq<Line>)
    requires i <= j <= |cs| && Clean(ok, cs)
    requires After(StateAt(cs, i), mid) == StateAt(cs, j)
    requires Hard(ok, StateAt(cs, i), mid) == 0 && Soft(StateAt(cs, i), mid) == 0
    ensures Clean(ok, Spliced(cs, i, j, mid))
  {
    Splice(ok, cs, i, j, mid);
  }

  // ----- taking one rule out

  /** What `line_remove` leaves in place of a recorded line. */
  predicate Removal(loc: S.ThreadLoc, pkg: string, mid: seq<Line>)
  {
    if loc.open then |mid| == 1 && mid[0].Text? && mid[0].outer == BareOpen(pkg)
    else if loc.closed then |mid| == 1 && mid[0].Text? && mid[0].inner == Close
    else mid == []
  }

  /** The rule on a recorded line. */
  function RuleAt(cs: seq<Line>, i: nat): AffinityRule
    requires i < |cs| && Asked(StateAt(cs, i), cs[i]) != []
  {
    Asked(StateAt(cs, i), cs[i])[0]
  }

  lemma HitRule(ok: Verdict, cs: seq<Line>, pkg: string, i: nat)
    requires Clean(ok, cs) && i < |cs| && S.HitAt(cs, pkg, i).Some?
    ensures Asked(StateAt(cs, i), cs[i]) != []
    ensures RuleAt(cs, i).pkg == pkg && RuleAt(cs, i).thread == S.HitAt(cs, pkg, i).value.name
    ensures Rules(ok, StateAt(cs, i), cs[i..i + 1]) == [RuleAt(cs, i)]
    ensures Admitted(ok, RuleAt(cs, i))
  {
    CleanLine(ok, cs, i);
    assert cs[i..i + 1] == [cs[i]];
    One(ok, StateAt(cs, i), cs[i]);
  }

  lemma RemovalRun(ok: Verdict, cs: seq<Line>, pkg: string, i: nat, mid: seq<Line>)
    requires Clean(ok, cs) && pkg != "" && i < |cs| && S.HitAt(cs, pkg, i).Some?
    requires Removal(S.HitAt(cs, pkg, i).value.loc, pkg, mid)
    ensures After(StateAt(cs, i), mid) == StateAt(cs, i + 1)
    ensures Rules(ok, StateAt(cs, i), mid) == []
    ensures Hard(ok, StateAt(cs, i), mid) == 0 && Soft(StateAt(cs, i), mid) == 0
  {
    CleanLine(ok, cs, i);
    if mid != [] {
      assert mid == [mid[0]];
      One(ok, StateAt(cs, i), mid[0]);
    }
  }

  lemma RemoveHit(ok: Verdict, cs: seq<Line>, pkg: string, i: nat, mid: seq<Line>)
    requires Clean(ok, cs) && pkg != "" && i < |cs| && S.HitAt(cs, pkg, i).Some?
    requires Removal(S.HitAt(cs, pkg, i).value.loc, pkg, mid)
    ensures Asked(StateAt(cs, i), cs[i]) != []
    ensures Clean(ok, Spliced(cs, i, i + 1, mid))
    ensures Moves(ok, cs, Spliced(cs, i, i + 1, mid), pkg, multiset{RuleAt(cs, i)}, multiset{})
    ensures After(StateAt(cs, i), mid) == StateAt(cs, i + 1)
  {
    HitRule(ok, cs, pkg, i);
    RemovalRun(ok, cs, pkg, i, mid);
    SpliceClean(ok, cs, i, i + 1, mid);
    SpliceMoves(ok, cs, i, i + 1, mid, pkg);
  }

  // ----- putting thread rules in

  /** A run of printed thread lines: read in a block they are the rules `rs`; read
      outside they open no block. */
  predicate Entries(es: seq<Line>, rs: seq<AffinityRule>)
  {
    && |es| == |rs|
    && forall k | 0 <= k < |es| ::
         && es[k].Text? && es[k].inner == Entry(rs[k].thread, rs[k].cpus, false)
         && (es[k].outer.Single? ==> !es[k].outer.open) && (es[k].outer.Rule? ==> !es[k].outer.open)
         && !es[k].outer.BareOpen?
  }

  predicate AllAdmitted(ok: Verdict, rs: seq<AffinityRule>)
  {
    forall r | r in rs :: Admitted(ok, r)
  }

  lemma {:induction false} EntriesRun(ok: Verdict, s: State, es: seq<Line>, rs: seq<AffinityRule>)
    requires Entries(es, rs) && s.inBlock && AllOf(rs, s.cur) && AllAdmitted(ok, rs)
    ensures After(s, es) == s && Rules(ok, s, es) == rs && Hard(ok, s, es) == 0 && Soft(s, es) == 0
    decreases |es|
  {
    if es != [] {
      assert rs[0] in rs && rs == [rs[0]] + rs[1..];
      EntriesRun(ok, s, es[1..], rs[1..]);
    }
  }

  lemma InsertEntries(ok: Verdict, cs: seq<Line>, pkg: string, i: nat, es: seq<Line>, rs: seq<AffinityRule>)
    requires Clean(ok, cs) && i <= |cs| && S.InTarget(cs, pkg, i)
    requires Entries(es, rs) && AllOf(rs, pkg) && AllAdmitted(ok, rs)
    ensures Clean(ok, Spliced(cs, i, i, es))
    ensures Moves(ok, cs, Spliced(cs, i, i, es), pkg, multiset{}, multiset(rs))
    ensures After(StateAt(cs, i), es) == StateAt(cs, i)
  {
    S.SoundHasNoOrphans(ok, cs);
    S.AgreeUpTo(cs, i);
    assert cs[i..i] == [];
    EntriesRun(ok, StateAt(cs, i), es, rs);
    SpliceClean(ok, cs, i, i, es);
    SpliceMoves(ok, cs, i, i, es, pkg);
  }

  /** A block: a line that opens pkg, thread lines, a closing line. */
  predicate Block(b: seq<Line>, es: seq<Line>)
  {
    && |b| == |es| + 2 && b[0].Text? && b[1..|b| - 1] == es
    && b[|b| - 1].Text? && b[|b| - 1].inner == Close && b[|b| - 1].outer == Junk
  }

  lemma BlockRun(ok: Verdict, s: State, b: seq<Line>, es: seq<Line>, rs: seq<AffinityRule>, pkg: string)
    requires Block(b, es) && Entries(es, rs) && AllOf(rs, pkg) && AllAdmitted(ok, rs) && pkg != ""
    requires s == START && (b[0].outer == BareOpen(pkg) || (b[0].outer.Rule? && b[0].outer.pkg == pkg && b[0].outer.open))
    ensures After(s, b) == START
    ensures Rules(ok, s, b) == Emit(ok, s, b[0]) + rs
    ensures Hard(ok, s, b) == HardFails(ok, s, b[0]) && Soft(s, b) == 0
  {
    hide Rules, Hard, Soft, After, Entries, AllOf, AllAdmitted;
    var close := b[|b| - 1];
    assert b == [b[0]] + es + [close];
    Cut(ok, s, [b[0]], es, [close]);
    One(ok, s, b[0]);
    EntriesRun(ok, Step(s, b[0]), es, rs);
    One(ok, Step(s, b[0]), close);
  }

  /** A fresh block at a place outside every block. */
  lemma InsertBlock(ok: Verdict, cs: seq<Line>, pkg: string, i: nat, b: seq<Line>, es: seq<Line>, rs: seq<AffinityRule>)
    requires Clean(ok, cs) && i <= |cs| && StateAt(cs, i) == START && pkg != ""
    requires Block(b, es) && Entries(es, rs) && AllOf(rs, pkg) && AllAdmitted(ok, rs) && b[0].outer == BareOpen(pkg)
    ensures Clean(ok, Spliced(cs, i, i, b))
    ensures Moves(ok, cs, Spliced(cs, i, i, b), pkg, multiset{}, multiset(rs))
    ensures After(StateAt(cs, i), b) == StateAt(cs, i)
  {
    BlockRun(ok, START, b, es, rs, pkg);
    assert cs[i..i] == [];
    SpliceClean(ok, cs, i, i, b);
    SpliceMoves(ok, cs, i, i, b, pkg);
  }

  lemma OpenedRun(ok: Verdict, cs: seq<Line>, pkg: string, i: nat, b: seq<Line>, es: seq<Line>, rs: seq<AffinityRule>)
    requires Clean(ok, cs) && i < |cs| && S.HeaderAt(cs, pkg, i) == Some(S.Standalone(i)) && pkg != ""
    requires Block(b, es) && Entries(es, rs) && AllOf(rs, pkg) && AllAdmitted(ok, rs)
    requires b[0].outer == Rule(pkg, cs[i].outer.cpus, true)
    ensures After(StateAt(cs, i), b) == StateAt(cs, i + 1)
    ensures var r := AffinityRule(pkg, "", cs[i].outer.cpus);
            Rules(ok, StateAt(cs, i), cs[i..i + 1]) == [r] && Rules(ok, StateAt(cs, i), b) == [r] + rs
    ensures Hard(ok, StateAt(cs, i), b) == 0 && Soft(StateAt(cs, i), b) == 0
  {
    hide Clean, Rules, Hard, Soft, After, Entries, AllAdmitted;
    CleanLine(ok, cs, i);
    assert cs[i..i + 1] == [cs[i]];
    One(ok, StateAt(cs, i), cs[i]);
    BlockRun(ok, StateAt(cs, i), b, es, rs, pkg);
  }

  /** The package's own line turned into the opening line of a block. */
  lemma OpenStandalone(ok: Verdict, cs: seq<Line>, pkg: string, i: nat, b: seq<Line>, es: seq<Line>, rs: seq<AffinityRule>)
    requires Clean(ok, cs) && i < |cs| && S.HeaderAt(cs, pkg, i) == Some(S.Standalone(i)) && pkg != ""
    requires Block(b, es) && Entries(es, rs) && AllOf(rs, pkg) && AllAdmitted(ok, rs)
    requires b[0].outer == Rule(pkg, cs[i].outer.cpus, true)
    ensures Clean(ok, Spliced(cs, i, i + 1, b))
    ensures Moves(ok, cs, Spliced(cs, i, i + 1, b), pkg, multiset{}, multiset(rs))
    ensures After(StateAt(cs, i), b) == StateAt(cs, i + 1)
  {
    hide Rules, Hard, Soft, Moves, Clean, Block, Entries, AllAdmitted, Spliced;
    var r := AffinityRule(pkg, "", cs[i].outer.cpus);
    OpenedRun(ok, cs, pkg, i, b, es, rs);
    SpliceClean(ok, cs, i, i + 1, b);
    SpliceMoves(ok, cs, i, i + 1, b, pkg);
    OneAndRest(r, rs);
    MovesCancel(ok, cs, Spliced(cs, i, i + 1, b), pkg, multiset{}, multiset(rs), multiset{r});
  }

  lemma OneAndRest(r: AffinityRule, rs: seq<AffinityRule>)
    ensures multiset([r] + rs) == multiset(rs) + multiset{r} && multiset([r]) == multiset{} + multiset{r}
  {
  }
}
