/** The block grammar of `load_config` as a fold over classified lines. The verdict
    of `add_rule` on a (package, thread, cpus) triple is the parameter `ok`. */
module Loader {
  import opened Lines

  /** The text of a rule; the thread is empty for a package-level rule. */
  datatype AffinityRule = AffinityRule(pkg: string, thread: string, cpus: string)

  type Verdict = (string, string, string) -> bool

  datatype State = State(inBlock: bool, cur: string, pend: string)

  const START := State(false, "", "")

  function Step(s: State, c: Line): State
  {
    if c.Skip? then s
    else if s.inBlock then
      if c.inner.Close? || (c.inner.Entry? && c.inner.closed) || (c.inner.Bad? && c.inner.closes)
      then State(false, "", s.pend)
      else s
    else
      match c.outer
      case Single(pkg, _, _, open) => if open then State(true, pkg, "") else State(false, s.cur, "")
      case Rule(pkg, _, open) => if open then State(true, pkg, "") else State(false, s.cur, "")
      case BareOpen(pkg) =>
        if pkg != "" then State(true, pkg, "")
        else if s.pend != "" then State(true, s.pend, "")
        else s
      case Pending(pkg) => State(false, s.cur, pkg)
      case Junk => State(false, s.cur, "")
  }

  /** The rule a line asks `add_rule` for, as a sequence of zero or one. */
  function Asked(s: State, c: Line): seq<AffinityRule>
  {
    if c.Skip? then []
    else if s.inBlock then
      if c.inner.Entry? then [AffinityRule(s.cur, c.inner.name, c.inner.cpus)] else []
    else
      match c.outer
      case Single(pkg, thread, cpus, _) => [AffinityRule(pkg, thread, cpus)]
      case Rule(pkg, cpus, _) => [AffinityRule(pkg, "", cpus)]
      case _ => []
  }

  predicate Admitted(ok: Verdict, r: AffinityRule)
  {
    ok(r.pkg, r.thread, r.cpus)
  }

  function Emit(ok: Verdict, s: State, c: Line): seq<AffinityRule>
  {
    var a := Asked(s, c);
    if a != [] && Admitted(ok, a[0]) then a else []
  }

  /** Failures other than a package line that never got its brace. */
  function HardFails(ok: Verdict, s: State, c: Line): nat
  {
    (if Asked(s, c) != Emit(ok, s, c) then 1 else 0) +
    (if c.Skip? then 0
     else if s.inBlock then (if c.inner.Bad? then 1 else 0)
     else if c.outer.Junk? || (c.outer.BareOpen? && c.outer.pkg == "" && s.pend == "") then 1
     else 0)
  }

  /** A pending package line dropped by the next line. */
  function SoftFails(s: State, c: Line): nat
  {
    if c.Text? && !s.inBlock && s.pend != "" &&
       (c.outer.Single? || c.outer.Rule? || c.outer.Pending? || (c.outer.BareOpen? && c.outer.pkg != ""))
    then 1 else 0
  }

  function After(s: State, cs: seq<Line>): State
    decreases |cs|
  {
    if cs == [] then s else After(Step(s, cs[0]), cs[1..])
  }

  function Rules(ok: Verdict, s: State, cs: seq<Line>): seq<AffinityRule>
    decreases |cs|
  {
    if cs == [] then [] else Emit(ok, s, cs[0]) + Rules(ok, Step(s, cs[0]), cs[1..])
  }

  function Hard(ok: Verdict, s: State, cs: seq<Line>): nat
    decreases |cs|
  {
    if cs == [] then 0 else HardFails(ok, s, cs[0]) + Hard(ok, Step(s, cs[0]), cs[1..])
  }

  function Soft(s: State, cs: seq<Line>): nat
    decreases |cs|
  {
    if cs == [] then 0 else SoftFails(s, cs[0]) + Soft(Step(s, cs[0]), cs[1..])
  }

  /** The rules and the failure count `load_config` publishes. */
  function Loaded(ok: Verdict, cs: seq<Line>): seq<AffinityRule>
  {
    Rules(ok, START, cs)
  }

  function FailCount(ok: Verdict, cs: seq<Line>): nat
  {
    var s := After(START, cs);
    Hard(ok, START, cs) + Soft(START, cs) + (if s.inBlock || s.pend != "" then 1 else 0)
  }

  /** The loader reports no failure. */
  predicate Clean(ok: Verdict, cs: seq<Line>)
  {
    FailCount(ok, cs) == 0
  }

  /** The only failures, if any, are package lines left without a brace. */
  predicate Sound(ok: Verdict, cs: seq<Line>)
  {
    Hard(ok, START, cs) == 0 && !After(START, cs).inBlock
  }

  /** The loader's state just before line i. */
  function StateAt(cs: seq<Line>, i: nat): State
    requires i <= |cs|
  {
    After(START, cs[..i])
  }

  // ----- running over a concatenation

  lemma {:induction false} Concat(ok: Verdict, s: State, a: seq<Line>, b: seq<Line>)
    ensures After(s, a + b) == After(After(s, a), b)
    ensures Rules(ok, s, a + b) == Rules(ok, s, a) + Rules(ok, After(s, a), b)
    ensures Hard(ok, s, a + b) == Hard(ok, s, a) + Hard(ok, After(s, a), b)
    ensures Soft(s, a + b) == Soft(s, a) + Soft(After(s, a), b)
    decreases |a|
  {
    if a == [] {
      assert a + b == b;
    } else {
      assert (a + b)[1..] == a[1..] + b;
      Concat(ok, Step(s, a[0]), a[1..], b);
    }
  }

  lemma One(ok: Verdict, s: State, c: Line)
    ensures After(s, [c]) == Step(s, c)
    ensures Rules(ok, s, [c]) == Emit(ok, s, c)
    ensures Hard(ok, s, [c]) == HardFails(ok, s, c)
    ensures Soft(s, [c]) == SoftFails(s, c)
  {
    assert [c][1..] == [];
  }

  lemma StateAtNext(cs: seq<Line>, i: nat)
    requires i < |cs|
    ensures StateAt(cs, i + 1) == Step(StateAt(cs, i), cs[i])
  {
    assert cs[..i + 1] == cs[..i] + [cs[i]];
    AfterConcat(START, cs[..i], [cs[i]]);
    assert [cs[i]][1..] == [];
  }

  /** Cutting a run in three: what each part contributes. */
  lemma Cut(ok: Verdict, s: State, a: seq<Line>, m: seq<Line>, z: seq<Line>)
    ensures After(s, a + m + z) == After(After(After(s, a), m), z)
    ensures Rules(ok, s, a + m + z) == Rules(ok, s, a) + Rules(ok, After(s, a), m) + Rules(ok, After(After(s, a), m), z)
    ensures Hard(ok, s, a + m + z) == Hard(ok, s, a) + Hard(ok, After(s, a), m) + Hard(ok, After(After(s, a), m), z)
    ensures Soft(s, a + m + z) == Soft(s, a) + Soft(After(s, a), m) + Soft(After(After(s, a), m), z)
  {
    hide After, Rules, Hard, Soft;
    Concat(ok, s, a + m, z);
    Concat(ok, s, a, m);
  }

  /** Cutting a file in three at lines i and j. */
  lemma CutAt(ok: Verdict, cs: seq<Line>, i: nat, j: nat)
    requires i <= j <= |cs|
    ensures StateAt(cs, j) == After(StateAt(cs, i), cs[i..j])
    ensures After(START, cs) == After(StateAt(cs, j), cs[j..])
    ensures Loaded(ok, cs) == Rules(ok, START, cs[..i]) + Rules(ok, StateAt(cs, i), cs[i..j]) + Rules(ok, StateAt(cs, j), cs[j..])
    ensures Hard(ok, START, cs) == Hard(ok, START, cs[..i]) + Hard(ok, StateAt(cs, i), cs[i..j]) + Hard(ok, StateAt(cs, j), cs[j..])
    ensures Soft(START, cs) == Soft(START, cs[..i]) + Soft(StateAt(cs, i), cs[i..j]) + Soft(StateAt(cs, j), cs[j..])
  {
    hide After, Rules, Hard, Soft;
    assert cs[..j] == cs[..i] + cs[i..j];
    assert cs == cs[..i] + cs[i..j] + cs[j..];
    Concat(ok, START, cs[..i], cs[i..j]);
    Cut(ok, START, cs[..i], cs[i..j], cs[j..]);
  }

  lemma LineOf(ok: Verdict, cs: seq<Line>, i: nat)
    requires i < |cs|
    ensures HardFails(ok, StateAt(cs, i), cs[i]) <= Hard(ok, START, cs)
    ensures SoftFails(StateAt(cs, i), cs[i]) <= Soft(START, cs)
    ensures StateAt(cs, i + 1) == Step(StateAt(cs, i), cs[i])
  {
    CutAt(ok, cs, i, i + 1);
    assert cs[i..i + 1] == [cs[i]];
    One(ok, StateAt(cs, i), cs[i]);
    StateAtNext(cs, i);
  }

  /** Outside a block no package is current. */
  lemma {:induction false} NoCurrentOutside(cs: seq<Line>, i: nat)
    requires i <= |cs|
    ensures !StateAt(cs, i).inBlock ==> StateAt(cs, i).cur == ""
    ensures StateAt(cs, i).inBlock ==> StateAt(cs, i).pend == ""
  {
    if i > 0 {
      NoCurrentOutside(cs, i - 1);
      StateAtNext(cs, i - 1);
    }
  }

  // ----- the editing lemma

  function Spliced(cs: seq<Line>, i: nat, j: nat, mid: seq<Line>): seq<Line>
    requires i <= j <= |cs|
  {
    cs[..i] + mid + cs[j..]
  }

  /** Replacing lines i..j by lines that leave the loader in the same state changes
      the loaded rules and the failures in that one place only. */
  lemma Splice(ok: Verdict, cs: seq<Line>, i: nat, j: nat, mid: seq<Line>)
    requires i <= j <= |cs|
    requires After(StateAt(cs, i), mid) == StateAt(cs, j)
    ensures var out := Spliced(cs, i, j, mid);
            var s := StateAt(cs, i);
            var a := Rules(ok, START, cs[..i]);
            var z := Rules(ok, StateAt(cs, j), cs[j..]);
            && Loaded(ok, cs) == a + Rules(ok, s, cs[i..j]) + z
            && Loaded(ok, out) == a + Rules(ok, s, mid) + z
            && After(START, out) == After(START, cs)
            && Hard(ok, START, out) + Hard(ok, s, cs[i..j]) == Hard(ok, START, cs) + Hard(ok, s, mid)
            && Soft(START, out) + Soft(s, cs[i..j]) == Soft(START, cs) + Soft(s, mid)
    ensures forall k | 0 <= k <= i :: StateAt(Spliced(cs, i, j, mid), k) == StateAt(cs, k)
    ensures forall k | j <= k <= |cs| :: StateAt(Spliced(cs, i, j, mid), k - j + i + |mid|) == StateAt(cs, k)
  {
    CutAt(ok, cs, i, j);
    Cut(ok, START, cs[..i], mid, cs[j..]);
    forall k | 0 <= k <= i ensures StateAt(Spliced(cs, i, j, mid), k) == StateAt(cs, k) {
      SplicePrefix(cs, i, j, mid, k);
    }
    forall k | j <= k <= |cs| ensures StateAt(Spliced(cs, i, j, mid), k - j + i + |mid|) == StateAt(cs, k) {
      SpliceSuffix(cs, i, j, mid, k);
    }
  }

  lemma SplicePrefix(cs: seq<Line>, i: nat, j: nat, mid: seq<Line>, k: nat)
    requires k <= i <= j <= |cs|
    ensures StateAt(Spliced(cs, i, j, mid), k) == StateAt(cs, k)
  {
    assert Spliced(cs, i, j, mid)[..k] == cs[..k];
  }

  lemma SpliceSuffix(cs: seq<Line>, i: nat, j: nat, mid: seq<Line>, k: nat)
    requires i <= j <= k <= |cs|
    requires After(StateAt(cs, i), mid) == StateAt(cs, j)
    ensures StateAt(Spliced(cs, i, j, mid), k - j + i + |mid|) == StateAt(cs, k)
  {
    hide After;
    var rest := cs[j..k];
    assert Spliced(cs, i, j, mid)[..k - j + i + |mid|] == cs[..i] + mid + rest;
    AfterConcat(START, cs[..i] + mid, rest);
    AfterConcat(START, cs[..i], mid);
    assert cs[..k] == cs[..j] + rest;
    AfterConcat(START, cs[..j], rest);
  }

  lemma {:induction false} AfterConcat(s: State, a: seq<Line>, b: seq<Line>)
    ensures After(s, a + b) == After(After(s, a), b)
    decreases |a|
  {
    if a == [] {
      assert a + b == b;
    } else {
      assert (a + b)[1..] == a[1..] + b;
      AfterConcat(Step(s, a[0]), a[1..], b);
    }
  }

  /** Skipped lines change nothing. */
  lemma {:induction false} SkipRun(ok: Verdict, s: State, cs: seq<Line>)
    requires forall k | 0 <= k < |cs| :: cs[k].Skip?
    ensures After(s, cs) == s && Rules(ok, s, cs) == [] && Hard(ok, s, cs) == 0 && Soft(s, cs) == 0
    decreases |cs|
  {
    if cs != [] {
      SkipRun(ok, s, cs[1..]);
    }
  }
}
