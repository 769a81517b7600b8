/** `add_rule` and the loop of `load_config`, over the lines of the file. */
module ConfigFiles {
  import opened Base
  import opened Text
  import opened Lines
  import opened Syntax
  import opened Printing
  import opened Loader
  import opened CpuSets
  import opened CpuSpecs
  import opened CpuTexts
  import opened Normalizing

  const MAX_PKG_LEN := 128
  const MAX_THREAD_LEN := 32

  predicate Control(s: string)
  {
    exists i :: 0 <= i < |s| && (s[i] < ' ' || s[i] == '\U{00007f}')
  }

  predicate NamesOk(pkg: string, thread: string)
  {
    pkg != "" && |pkg| < MAX_PKG_LEN && |thread| < MAX_THREAD_LEN && !Control(pkg) && !Control(thread)
  }

  /** `add_rule` takes the rule. */
  predicate Takes(topo: CpuTopology, pkg: string, thread: string, cpus: string)
  {
    NamesOk(pkg, thread) && SpecLike(cpus) && ParsedSpec(cpus, topo) != {}
  }

  function TakesVerdict(topo: CpuTopology): Verdict
  {
    (pkg, thread, cpus) => Takes(topo, pkg, thread, cpus)
  }

  /** A rule as the loader keeps it. */
  datatype KeptRule = KeptRule(pkg: string, thread: string, cpus: set<nat>, dir: string)

  /** What the loader knows of the machine: the cores, whether cpuset directories are in
      use, and which of them can be created. */
  datatype Machine = Machine(topo: CpuTopology, cpusets: bool, creatable: string -> bool)

  function DirOf(m: Machine, cpus: set<nat>): string
  {
    var name := RangesText(Runs(cpus, CPU_SETSIZE));
    if m.cpusets && m.creatable(name) then name else ""
  }

  function Kept(m: Machine, r: AffinityRule): KeptRule
  {
    var cpus := ParsedSpec(r.cpus, m.topo);
    KeptRule(r.pkg, r.thread, cpus, if r.thread == "" then DirOf(m, cpus) else "")
  }

  function KeptAll(m: Machine, rs: seq<AffinityRule>): (ks: seq<KeptRule>)
    ensures |ks| == |rs| && forall k | 0 <= k < |rs| :: ks[k] == Kept(m, rs[k])
  {
    seq(|rs|, k requires 0 <= k < |rs| => Kept(m, rs[k]))
  }

  /** A rule with a written CPU text is taken if and only if its names are short enough, hold
      no control character, the package has a name, and some piece means a CPU there is. */
  lemma WrittenTaken(topo: CpuTopology, pkg: string, thread: string, ps: seq<Piece>)
    requires forall p | p in ps :: WellWritten(p)
    ensures Takes(topo, pkg, thread, PiecesText(ps)) <==>
              && 0 < |pkg| < 128 && |thread| < 32
              && (forall c | c in pkg + thread :: c >= ' ' && c != 127 as char)
              && exists p, c: nat :: p in ps && Means(p.body, topo, c)
  {
    hide PiecesText, WellWritten, SpecLike, Means, ParsedSpec;
    WrittenIsSpec(ps);
    NoControl(pkg, thread);
    forall c: nat ensures c in ParsedSpec(PiecesText(ps), topo) <==> exists p :: p in ps && Means(p.body, topo, c) {
      SpecMeans(ps, topo, c);
    }
    if p, c: nat :| p in ps && Means(p.body, topo, c) {
      assert c in ParsedSpec(PiecesText(ps), topo);
      SaysSomething(p.body, topo, c);
    }
    if ParsedSpec(PiecesText(ps), topo) != {} {
      var c :| c in ParsedSpec(PiecesText(ps), topo);
    }
  }

  lemma SaysSomething(b: Body, topo: CpuTopology, c: nat)
    requires Means(b, topo, c)
    ensures b != Nothing
  {
  }

  lemma NoControl(pkg: string, thread: string)
    ensures !Control(pkg) && !Control(thread) <==> forall c | c in pkg + thread :: c >= ' ' && c != 127 as char
  {
    forall i | 0 <= i < |pkg| ensures pkg[i] in pkg + thread {
    }
    forall i | 0 <= i < |thread| ensures thread[i] in pkg + thread {
      assert (pkg + thread)[|pkg| + i] == thread[i];
    }
  }

  class ConfigLoader {
    const machine: Machine
    var rules: seq<KeptRule>
    var failCnt: nat
    var curPkg: string
    var pendingPkg: string
    var inBlock: bool

    constructor (m: Machine)
      ensures machine == m
    {
      machine := m;
      rules, failCnt, curPkg, pendingPkg, inBlock := [], 0, "", "", false;
    }

    method AddRule(pkg: string, thread: string, cpus: string) returns (added: bool)
      modifies this`rules
      ensures added == Takes(machine.topo, pkg, thread, cpus)
      ensures rules == old(rules) + (if added then [Kept(machine, AffinityRule(pkg, thread, cpus))] else [])
    {
      hide SpecLike, ParsedSpec, Control, Runs, RangesText;
      if pkg == "" || |pkg| >= MAX_PKG_LEN || |thread| >= MAX_THREAD_LEN {
        return false;
      }
      if Control(pkg) || Control(thread) {
        return false;
      }
      if !SpecLike(cpus) {
        return false;
      }
      var parsed := ParseCpuSpec(cpus, machine.topo);
      if parsed == {} {
        return false;
      }
      var dir := "";
      if thread == "" {
        var name := RangesText(Runs(parsed, CPU_SETSIZE));
        if machine.cpusets && machine.creatable(name) {
          dir := name;
        }
      }
      rules := rules + [KeptRule(pkg, thread, parsed, dir)];
      return true;
    }

    /** The loader's state in the words of the specification. */
    ghost predicate At(lines: seq<string>, n: nat)
      requires n <= |lines|
      reads this
    {
      var ok := TakesVerdict(machine.topo);
      var cs := ClassifyAll(lines)[..n];
      && State(inBlock, curPkg, pendingPkg) == After(START, cs)
      && rules == KeptAll(machine, Rules(ok, START, cs))
      && failCnt == Hard(ok, START, cs) + Soft(START, cs)
    }

    /** Reads one line. */
    method LoadLine(raw: string)
      modifies this
      ensures var s, c := old(State(inBlock, curPkg, pendingPkg)), Classify(raw);
              && State(inBlock, curPkg, pendingPkg) == Step(s, c)
              && rules == old(rules) + KeptAll(machine, Emit(TakesVerdict(machine.topo), s, c))
              && failCnt == old(failCnt) + HardFails(TakesVerdict(machine.topo), s, c) + SoftFails(s, c)
    {
      hide SpecLike, ParsedSpec, NamesOk, Kept, CloseLike, SplitRuleLine, ParseOuter, Trim;
      var p := Trim(raw);
      if Skipped(p) {
        return;
      }
      if inBlock {
        if CloseLike(p) {
          inBlock, curPkg := false, "";
          return;
        }
        match SplitRuleLine(p) {
          case Some(RuleLine(thread, cpus, closed)) =>
            var added := AddRule(curPkg, thread, cpus);
            if !added {
              failCnt := failCnt + 1;
            }
            if closed {
              inBlock, curPkg := false, "";
            }
          case None =>
            failCnt := failCnt + 1;
            if '}' in p {
              inBlock, curPkg := false, "";
            }
        }
        return;
      }
      OuterLine(ParseOuter(p));
    }

    method OuterLine(o: Outer)
      requires !inBlock
      modifies this
      ensures forall inner :: var s, c := old(State(inBlock, curPkg, pendingPkg)), Line.Text(inner, o);
              && State(inBlock, curPkg, pendingPkg) == Step(s, c)
              && rules == old(rules) + KeptAll(machine, Emit(TakesVerdict(machine.topo), s, c))
              && failCnt == old(failCnt) + HardFails(TakesVerdict(machine.topo), s, c) + SoftFails(s, c)
    {
      hide Kept, Takes;
      match o {
        case Single(pkg, thread, cpus, open) =>
          if pendingPkg != "" {
            failCnt := failCnt + 1;
          }
          pendingPkg := "";
          var added := AddRule(pkg, thread, cpus);
          if !added {
            failCnt := failCnt + 1;
          }
          if open {
            curPkg, inBlock := pkg, true;
          }
        case Rule(pkg, cpus, open) =>
          if pendingPkg != "" {
            failCnt := failCnt + 1;
          }
          var added := AddRule(pkg, "", cpus);
          if !added {
            failCnt := failCnt + 1;
          }
          if open {
            curPkg, inBlock := pkg, true;
          }
          pendingPkg := "";
        case BareOpen(pkg) =>
          var owner := pendingPkg;
          if pkg != "" {
            if pendingPkg != "" {
              failCnt := failCnt + 1;
            }
            owner := pkg;
          }
          if owner == "" {
            failCnt := failCnt + 1;
            return;
          }
          curPkg, pendingPkg, inBlock := owner, "", true;
        case Pending(pkg) =>
          if pendingPkg != "" {
            failCnt := failCnt + 1;
          }
          pendingPkg := pkg;
        case Junk =>
          failCnt := failCnt + 1;
          pendingPkg := "";
      }
    }

    /** The rules of a file and the number of failures. */
    method LoadConfig(lines: seq<string>)
      modifies this
      ensures rules == KeptAll(machine, Loaded(TakesVerdict(machine.topo), ClassifyAll(lines)))
      ensures failCnt == FailCount(TakesVerdict(machine.topo), ClassifyAll(lines))
    {
      hide Classify, Kept, Takes;
      rules, failCnt, curPkg, pendingPkg, inBlock := [], 0, "", "", false;
      for n := 0 to |lines|
        invariant At(lines, n)
      {
        LoadLine(lines[n]);
        NextLine(machine, lines, n);
      }
      assert ClassifyAll(lines)[..|lines|] == ClassifyAll(lines);
      if inBlock || pendingPkg != "" {
        failCnt := failCnt + 1;
      }
    }
  }

  lemma NextLine(m: Machine, lines: seq<string>, n: nat)
    requires n < |lines|
    ensures var ok, cs := TakesVerdict(m.topo), ClassifyAll(lines);
            var s, c := After(START, cs[..n]), Classify(lines[n]);
            && After(START, cs[..n + 1]) == Step(s, c)
            && KeptAll(m, Rules(ok, START, cs[..n + 1])) == KeptAll(m, Rules(ok, START, cs[..n])) + KeptAll(m, Emit(ok, s, c))
            && Hard(ok, START, cs[..n + 1]) == Hard(ok, START, cs[..n]) + HardFails(ok, s, c)
            && Soft(START, cs[..n + 1]) == Soft(START, cs[..n]) + SoftFails(s, c)
  {
    hide Classify, Kept, Takes;
    var ok, cs := TakesVerdict(m.topo), ClassifyAll(lines);
    assert cs[..n + 1] == cs[..n] + [cs[n]];
    Concat(ok, START, cs[..n], [cs[n]]);
    One(ok, After(START, cs[..n]), cs[n]);
  }
}
