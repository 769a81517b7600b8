/** Edits of a package's own lines: its rule, its opening line, its whole block. */
module Headers {
  import opened Base
  import opened Lines
  import opened Loader
  import opened Edits
  import S = Scanner

  // ----- the CPU text of one rule

  /** A line rewritten to ask for the same rule with other CPUs. */
  predicate Reworded(s: State, c: Line, d: Line, cpus: string)
  {
    && c.Text? && d.Text?
    && if s.inBlock then
         c.inner.Entry? && d.inner == Entry(c.inner.name, cpus, c.inner.closed)
       else
         c.outer.Rule? && d.outer == Rule(c.outer.pkg, cpus, c.outer.open)
  }

  lemma SwapRule(ok: Verdict, cs: seq<Line>, i: nat, d: Line, cpus: string)
    requires Clean(ok, cs) && i < |cs| && Reworded(StateAt(cs, i), cs[i], d, cpus)
    requires Admitted(ok, RuleAt(cs, i).(cpus := cpus))
    ensures Clean(ok, Spliced(cs, i, i + 1, [d]))
    ensures var r := RuleAt(cs, i);
            Moves(ok, cs, Spliced(cs, i, i + 1, [d]), r.pkg, multiset{r}, multiset{r.(cpus := cpus)})
    ensures After(StateAt(cs, i), [d]) == StateAt(cs, i + 1)
    ensures Asked(StateAt(cs, i), d) == [RuleAt(cs, i).(cpus := cpus)]
  {
    hide Clean, Moves, Rules, After, Hard, Soft;
    CleanLine(ok, cs, i);
    var r := RuleAt(cs, i);
    assert cs[i..i + 1] == [cs[i]];
    One(ok, StateAt(cs, i), cs[i]);
    One(ok, StateAt(cs, i), d);
    SpliceClean(ok, cs, i, i + 1, [d]);
    SpliceMoves(ok, cs, i, i + 1, [d], r.pkg);
  }

  // ----- headers without a rule of their own

  /** `pkg {` turned into `pkg=cpus {`. */
  lemma GiveRuleToOpen(ok: Verdict, cs: seq<Line>, pkg: string, i: nat, d: Line, cpus: string)
    requires Clean(ok, cs) && i < |cs| && pkg != "" && S.HeaderAt(cs, pkg, i) == Some(S.OpenBare(i))
    requires d.Text? && d.outer == Rule(pkg, cpus, true) && ok(pkg, "", cpus)
    ensures Clean(ok, Spliced(cs, i, i + 1, [d]))
    ensures Moves(ok, cs, Spliced(cs, i, i + 1, [d]), pkg, multiset{}, multiset{AffinityRule(pkg, "", cpus)})
  {
    CleanLine(ok, cs, i);
    assert cs[i..i + 1] == [cs[i]];
    One(ok, StateAt(cs, i), cs[i]);
    One(ok, StateAt(cs, i), d);
    SpliceClean(ok, cs, i, i + 1, [d]);
    SpliceMoves(ok, cs, i, i + 1, [d], pkg);
  }

  /** A package line, skipped lines, and a bare brace: the loader's side. */
  lemma PendingOpen(ok: Verdict, cs: seq<Line>, pkg: string, v: nat, pi: nat)
    requires Clean(ok, cs) && v < |cs| && S.HeaderAt(cs, pkg, v) == Some(S.BarePending(pi))
    ensures pi < v && StateAt(cs, pi) == START && StateAt(cs, v) == State(false, "", pkg)
    ensures StateAt(cs, v + 1) == State(true, pkg, "")
    ensures cs[pi].Text? && cs[pi].outer == Pending(pkg) && cs[v].Text? && cs[v].outer == BareOpen("") && pkg != ""
    ensures forall k | pi < k < v :: cs[k].Skip?
  {
    S.PendingRun(cs, v);
    CleanLine(ok, cs, v);
    CleanLine(ok, cs, pi);
    S.SoundHasNoOrphans(ok, cs);
    S.AgreeUpTo(cs, v);
    S.AgreeUpTo(cs, pi);
  }

  lemma PendingQuiet(ok: Verdict, cs: seq<Line>, pkg: string, v: nat, pi: nat)
    requires pi < v < |cs| && cs[pi].Text? && cs[pi].outer == Pending(pkg) && pkg != ""
    requires cs[v].Text? && cs[v].outer == BareOpen("") && forall k | pi < k < v :: cs[k].Skip?
    ensures Rules(ok, START, cs[pi..v + 1]) == []
  {
    var gap := cs[pi + 1..v];
    assert cs[pi..v + 1] == [cs[pi]] + gap + [cs[v]];
    Cut(ok, START, [cs[pi]], gap, [cs[v]]);
    One(ok, START, cs[pi]);
    SkipRun(ok, Step(START, cs[pi]), gap);
    One(ok, After(Step(START, cs[pi]), gap), cs[v]);
  }

  /** `pkg` and a later `{` turned into `pkg=cpus {`. */
  lemma GiveRuleToPending(ok: Verdict, cs: seq<Line>, pkg: string, v: nat, pi: nat, d: Line, cpus: string)
    requires Clean(ok, cs) && v < |cs| && S.HeaderAt(cs, pkg, v) == Some(S.BarePending(pi)) && pi < v
    requires d.Text? && d.outer == Rule(pkg, cpus, true) && ok(pkg, "", cpus)
    ensures Clean(ok, Spliced(cs, pi, v + 1, [d] + cs[pi + 1..v]))
    ensures Moves(ok, cs, Spliced(cs, pi, v + 1, [d] + cs[pi + 1..v]), pkg, multiset{}, multiset{AffinityRule(pkg, "", cpus)})
  {
    PendingOpen(ok, cs, pkg, v, pi);
    PendingQuiet(ok, cs, pkg, v, pi);
    RuleForPending(ok, cs, pkg, v, pi, d, cpus);
  }

  lemma RuleForPending(ok: Verdict, cs: seq<Line>, pkg: string, v: nat, pi: nat, d: Line, cpus: string)
    requires Clean(ok, cs) && pi < v < |cs| && StateAt(cs, pi) == START && StateAt(cs, v + 1) == State(true, pkg, "")
    requires forall k | pi < k < v :: cs[k].Skip?
    requires Rules(ok, START, cs[pi..v + 1]) == []
    requires d.Text? && d.outer == Rule(pkg, cpus, true) && ok(pkg, "", cpus)
    ensures Clean(ok, Spliced(cs, pi, v + 1, [d] + cs[pi + 1..v]))
    ensures Moves(ok, cs, Spliced(cs, pi, v + 1, [d] + cs[pi + 1..v]), pkg, multiset{}, multiset{AffinityRule(pkg, "", cpus)})
  {
    var gap := cs[pi + 1..v];
    hide Clean, Moves, Rules;
    GivenRun(ok, pkg, d, gap, cpus);
    SpliceClean(ok, cs, pi, v + 1, [d] + gap);
    SpliceMoves(ok, cs, pi, v + 1, [d] + gap, pkg);
  }

  lemma GivenRun(ok: Verdict, pkg: string, d: Line, gap: seq<Line>, cpus: string)
    requires d.Text? && d.outer == Rule(pkg, cpus, true) && ok(pkg, "", cpus)
    requires forall k | 0 <= k < |gap| :: gap[k].Skip?
    ensures After(START, [d] + gap) == State(true, pkg, "")
    ensures Rules(ok, START, [d] + gap) == [AffinityRule(pkg, "", cpus)]
    ensures Hard(ok, START, [d] + gap) == 0 && Soft(START, [d] + gap) == 0
  {
    Concat(ok, START, [d], gap);
    One(ok, START, d);
    SkipRun(ok, Step(START, d), gap);
  }

  lemma NoRun(ok: Verdict, s: State)
    ensures After(s, []) == s && Rules(ok, s, []) == [] && Hard(ok, s, []) == 0 && Soft(s, []) == 0
  {
  }

  /** The package's rule taken off its own line. */
  lemma DropHeaderRule(ok: Verdict, cs: seq<Line>, pkg: string, i: nat, mid: seq<Line>)
    requires Clean(ok, cs) && i < |cs| && pkg != ""
    requires S.HeaderAt(cs, pkg, i) == Some(S.Standalone(i)) || S.HeaderAt(cs, pkg, i) == Some(S.OpenInline(i))
    requires if S.HeaderAt(cs, pkg, i) == Some(S.Standalone(i)) then mid == []
             else |mid| == 1 && mid[0].Text? && mid[0].outer == BareOpen(pkg)
    ensures Clean(ok, Spliced(cs, i, i + 1, mid))
    ensures Moves(ok, cs, Spliced(cs, i, i + 1, mid), pkg, multiset{AffinityRule(pkg, "", cs[i].outer.cpus)}, multiset{})
  {
    hide Clean, Moves, Rules;
    CleanLine(ok, cs, i);
    assert cs[i..i + 1] == [cs[i]];
    One(ok, StateAt(cs, i), cs[i]);
    NoRun(ok, StateAt(cs, i));
    if mid != [] {
      assert mid == [mid[0]];
      One(ok, StateAt(cs, i), mid[0]);
    }
    SpliceClean(ok, cs, i, i + 1, mid);
    SpliceMoves(ok, cs, i, i + 1, mid, pkg);
  }

  /** A package-level rule appended to the file. */
  lemma AppendRule(ok: Verdict, cs: seq<Line>, pkg: string, d: Line, cpus: string)
    requires Clean(ok, cs) && d.Text? && d.outer == Rule(pkg, cpus, false) && ok(pkg, "", cpus)
    ensures Clean(ok, cs + [d])
    ensures Moves(ok, cs, cs + [d], pkg, multiset{}, multiset{AffinityRule(pkg, "", cpus)})
  {
    var n := |cs|;
    CleanEnd(ok, cs);
    assert Spliced(cs, n, n, [d]) == cs + [d] && cs[n..n] == [];
    One(ok, START, d);
    SpliceClean(ok, cs, n, n, [d]);
    SpliceMoves(ok, cs, n, n, [d], pkg);
  }
}
