/** Which CPUs the rules give a thread. */
module RuleMatch {
  import opened Base
  import opened Lines
  import opened Syntax
  import opened Loader
  import opened Edits
  import opened Taking
  import opened CpuSets
  import opened CpuSpecs
  import opened ConfigFiles

  /** The rules in use; `fits` is `fnmatch` on a pattern and a name. */
  datatype AppConfig = AppConfig(rules: seq<KeptRule>, machine: Machine, fits: (string, string) -> bool)

  datatype AffinityResult = AffinityResult(cpus: set<nat>, dir: string, threadRule: bool)

  /** What a process cache holds for a thread. */
  datatype TaskEntry = TaskEntry(pid: int, pkg: string, cpus: set<nat>, dir: string, threadRule: bool)

  // ----- the specification, on the set of rules

  predicate Hits(cfg: AppConfig, r: KeptRule, pkg: string, thread: string)
  {
    r.pkg == pkg && r.thread != "" && |thread| < MAX_THREAD_LEN && cfg.fits(r.thread, thread)
  }

  predicate OfPkg(r: KeptRule, pkg: string)
  {
    r.pkg == pkg && r.thread == ""
  }

  predicate AnyHit(cfg: AppConfig, rs: seq<KeptRule>, pkg: string, thread: string)
  {
    exists r :: r in rs && Hits(cfg, r, pkg, thread)
  }

  lemma OneMore(cfg: AppConfig, rs: seq<KeptRule>, rule: KeptRule, pkg: string, thread: string)
    ensures AnyHit(cfg, rs + [rule], pkg, thread) <==> AnyHit(cfg, rs, pkg, thread) || Hits(cfg, rule, pkg, thread)
  {
    var more := rs + [rule];
    assert rule in more && forall r | r in rs :: r in more;
  }

  predicate Matched(cfg: AppConfig, pkg: string, thread: string)
  {
    thread != "" && AnyHit(cfg, cfg.rules, pkg, thread)
  }

  predicate HasThreadRules(cfg: AppConfig, pkg: string)
  {
    exists r :: r in cfg.rules && r.pkg == pkg && r.thread != ""
  }

  function ThreadCpus(cfg: AppConfig, pkg: string, thread: string): set<nat>
  {
    set r, c | r in cfg.rules && Hits(cfg, r, pkg, thread) && c in r.cpus :: c
  }

  function CpusOf(rs: seq<KeptRule>, pkg: string): set<nat>
  {
    set r, c | r in rs && OfPkg(r, pkg) && c in r.cpus :: c
  }

  function PkgCpus(cfg: AppConfig, pkg: string): set<nat>
  {
    CpusOf(cfg.rules, pkg)
  }

  /** The package-level rules of pkg. */
  function PkgRules(rs: seq<KeptRule>, pkg: string): seq<KeptRule>
  {
    if rs == [] then []
    else PkgRules(rs[..|rs| - 1], pkg) + (if OfPkg(rs[|rs| - 1], pkg) then [rs[|rs| - 1]] else [])
  }

  function FallbackDir(rs: seq<KeptRule>, pkg: string): string
  {
    var mine := PkgRules(rs, pkg);
    if |mine| == 1 then mine[0].dir else ""
  }

  function Affinity(cfg: AppConfig, pkg: string, thread: string): Option<AffinityResult>
  {
    var matched := Matched(cfg, pkg, thread);
    var cpus := if matched then ThreadCpus(cfg, pkg, thread) else PkgCpus(cfg, pkg);
    var dir := if matched then DirOf(cfg.machine, cpus) else FallbackDir(cfg.rules, pkg);
    if cpus == {} then
      if HasThreadRules(cfg, pkg) then Some(AffinityResult(cfg.machine.topo.present, "", false)) else None
    else Some(AffinityResult(cpus, dir, matched))
  }

  // ----- thread_affinity

  method ThreadAffinity(pkg: string, thread: string, cfg: AppConfig) returns (r: Option<AffinityResult>)
    ensures r == Affinity(cfg, pkg, thread)
  {
    hide RangesText, Runs;
    var cpus: set<nat> := {};
    var dir := "";
    var matched := false;
    if thread != "" {
      cpus, matched := ThreadPass(pkg, thread, cfg);
      if matched {
        dir := DirOf(cfg.machine, cpus);
      }
    }
    if !matched {
      cpus, dir := PkgPass(pkg, cfg);
    }
    if cpus == {} {
      if HasThreadRules(cfg, pkg) {
        return Some(AffinityResult(cfg.machine.topo.present, "", false));
      }
      return None;
    }
    return Some(AffinityResult(cpus, dir, matched));
  }

  /** The loop over the thread rules. */
  method ThreadPass(pkg: string, thread: string, cfg: AppConfig) returns (cpus: set<nat>, matched: bool)
    requires thread != ""
    ensures matched == Matched(cfg, pkg, thread) && cpus == (if matched then ThreadCpus(cfg, pkg, thread) else {})
  {
    cpus, matched := {}, false;
    for k := 0 to |cfg.rules|
      invariant matched <==> AnyHit(cfg, cfg.rules[..k], pkg, thread)
      invariant cpus == set r, c | r in cfg.rules[..k] && Hits(cfg, r, pkg, thread) && c in r.cpus :: c
    {
      var rule := cfg.rules[k];
      assert cfg.rules[..k + 1] == cfg.rules[..k] + [rule];
      OneMore(cfg, cfg.rules[..k], rule, pkg, thread);
      if rule.pkg != pkg || rule.thread == "" {
        continue;
      }
      if |thread| < MAX_THREAD_LEN && cfg.fits(rule.thread, thread) {
        cpus := cpus + rule.cpus;
        matched := true;
      }
    }
    assert cfg.rules[..|cfg.rules|] == cfg.rules;
  }

  /** The fallback loop over the package's own rules. */
  method PkgPass(pkg: string, cfg: AppConfig) returns (cpus: set<nat>, dir: string)
    ensures cpus == PkgCpus(cfg, pkg) && dir == FallbackDir(cfg.rules, pkg)
  {
    hide PkgRules, CpusOf;
    cpus, dir := {}, "";
    var seen := false;
    NoRulesYet(pkg);
    for k := 0 to |cfg.rules|
      invariant seen <==> PkgRules(cfg.rules[..k], pkg) != []
      invariant dir == FallbackDir(cfg.rules[..k], pkg)
      invariant cpus == CpusOf(cfg.rules[..k], pkg)
    {
      var rule := cfg.rules[k];
      assert cfg.rules[..k + 1] == cfg.rules[..k] + [rule];
      OneMoreOf(cfg.rules[..k], rule, pkg);
      if rule.pkg != pkg || rule.thread != "" {
        continue;
      }
      cpus := cpus + rule.cpus;
      if !seen {
        dir := rule.dir;
        seen := true;
      } else {
        dir := "";
      }
    }
    assert cfg.rules[..|cfg.rules|] == cfg.rules;
  }

  lemma NoRulesYet(pkg: string)
    ensures PkgRules([], pkg) == [] && CpusOf([], pkg) == {}
  {
  }

  lemma OneMoreOf(rs: seq<KeptRule>, rule: KeptRule, pkg: string)
    ensures PkgRules(rs + [rule], pkg) == PkgRules(rs, pkg) + (if OfPkg(rule, pkg) then [rule] else [])
    ensures CpusOf(rs + [rule], pkg) == CpusOf(rs, pkg) + (if OfPkg(rule, pkg) then rule.cpus else {})
  {
    assert (rs + [rule])[..|rs|] == rs;
    assert forall r :: r in rs + [rule] <==> r in rs || r == rule;
  }

  // ----- what the rules say, rule by rule

  /** A thread rule of the package for threads of that name. */
  predicate ForName(cfg: AppConfig, r: KeptRule, pkg: string, name: string)
  {
    r in cfg.rules && r.pkg == pkg && r.thread != "" && name != "" && |name| < 32 && cfg.fits(r.thread, name)
  }

  ghost predicate CpuByName(cfg: AppConfig, pkg: string, name: string, c: nat)
  {
    exists r :: ForName(cfg, r, pkg, name) && c in r.cpus
  }

  ghost predicate CpuByPkg(cfg: AppConfig, pkg: string, c: nat)
  {
    exists r :: r in cfg.rules && r.pkg == pkg && r.thread == "" && c in r.cpus
  }

  /** The CPUs of a thread: those of all thread rules that fit its name, if they have any;
      else, if no thread rule fits, those of all package rules; and if that leaves none, all
      CPUs present for a package with thread rules, and nothing for any other. */
  ghost predicate ByRules(cfg: AppConfig, pkg: string, name: string, r: Option<AffinityResult>)
  {
    if exists c: nat :: CpuByName(cfg, pkg, name, c) then
      r.Some? && r.value.threadRule && forall c: nat :: c in r.value.cpus <==> CpuByName(cfg, pkg, name, c)
    else if !(exists q :: ForName(cfg, q, pkg, name)) && exists c: nat :: CpuByPkg(cfg, pkg, c) then
      r.Some? && !r.value.threadRule && forall c: nat :: c in r.value.cpus <==> CpuByPkg(cfg, pkg, c)
    else if exists q :: q in cfg.rules && q.pkg == pkg && q.thread != "" then
      r.Some? && !r.value.threadRule && r.value.cpus == cfg.machine.topo.present && r.value.dir == ""
    else r.None?
  }

  lemma MatchedIs(cfg: AppConfig, pkg: string, thread: string)
    ensures Matched(cfg, pkg, thread) <==> exists q :: ForName(cfg, q, pkg, thread)
    ensures forall c: nat :: c in ThreadCpus(cfg, pkg, thread) && thread != "" <==> CpuByName(cfg, pkg, thread, c)
    ensures forall c: nat :: c in PkgCpus(cfg, pkg) <==> CpuByPkg(cfg, pkg, c)
  {
    if Matched(cfg, pkg, thread) {
      var r :| r in cfg.rules && Hits(cfg, r, pkg, thread);
      assert ForName(cfg, r, pkg, thread);
    }
    forall q | ForName(cfg, q, pkg, thread) ensures Hits(cfg, q, pkg, thread) && q in cfg.rules {
    }
    forall c: nat | c in ThreadCpus(cfg, pkg, thread) && thread != "" ensures CpuByName(cfg, pkg, thread, c) {
      var r :| r in cfg.rules && Hits(cfg, r, pkg, thread) && c in r.cpus;
      assert ForName(cfg, r, pkg, thread);
    }
  }

  lemma AffinityByRules(cfg: AppConfig, pkg: string, name: string)
    ensures ByRules(cfg, pkg, name, Affinity(cfg, pkg, name))
  {
    hide RangesText, Runs, FallbackDir, CpuByName, CpuByPkg, ForName, ThreadCpus, PkgCpus, Matched;
    MatchedIs(cfg, pkg, name);
    NameNeedsRule(cfg, pkg, name);
    NonEmpty(ThreadCpus(cfg, pkg, name));
    NonEmpty(PkgCpus(cfg, pkg));
  }

  lemma NameNeedsRule(cfg: AppConfig, pkg: string, name: string)
    ensures Matched(cfg, pkg, name) ==> HasThreadRules(cfg, pkg) && name != ""
    ensures (exists q :: ForName(cfg, q, pkg, name)) ==> HasThreadRules(cfg, pkg)
    ensures HasThreadRules(cfg, pkg) <==> exists q :: q in cfg.rules && q.pkg == pkg && q.thread != ""
    ensures forall c: nat :: CpuByName(cfg, pkg, name, c) ==> exists q :: ForName(cfg, q, pkg, name)
  {
  }

  lemma NonEmpty(s: set<nat>)
    ensures s != {} <==> exists c: nat :: c in s
  {
  }

  /** The directory is the one named after the CPUs where a thread rule decides; otherwise
      that of the package's rule, if there is exactly one. */
  lemma DirByRules(cfg: AppConfig, pkg: string, name: string, k: nat)
    requires k < |cfg.rules| && cfg.rules[k].pkg == pkg && cfg.rules[k].thread == "" && cfg.rules[k].cpus != {}
    ensures var r := Affinity(cfg, pkg, name);
            && r.Some?
            && (r.value.threadRule ==>
                  var text := RangesText(Runs(r.value.cpus, CPU_SETSIZE));
                  r.value.dir == if cfg.machine.cpusets && cfg.machine.creatable(text) then text else "")
            && ((forall q :: !ForName(cfg, q, pkg, name)) ==>
                  r.value.dir == if exists j :: 0 <= j < |cfg.rules| && j != k && cfg.rules[j].pkg == pkg && cfg.rules[j].thread == ""
                                 then "" else cfg.rules[k].dir)
  {
    hide RangesText, Runs;
    MatchedIs(cfg, pkg, name);
    NameNeedsRule(cfg, pkg, name);
    var c :| c in cfg.rules[k].cpus;
    assert cfg.rules[k] in cfg.rules;
    assert c in PkgCpus(cfg, pkg);
    OneRule(cfg.rules, pkg, k);
  }

  lemma {:induction false} OneRule(rs: seq<KeptRule>, pkg: string, k: nat)
    requires k < |rs| && OfPkg(rs[k], pkg)
    ensures var mine := PkgRules(rs, pkg);
            && mine != [] && (|mine| == 1 ==> mine[0] == rs[k])
            && (|mine| == 1 <==> forall j | 0 <= j < |rs| && j != k :: !OfPkg(rs[j], pkg))
  {
    hide OfPkg;
    var n := |rs| - 1;
    assert forall j | 0 <= j < n :: rs[..n][j] == rs[j];
    if k == n {
      NoRule(rs[..n], pkg);
    } else {
      OneRule(rs[..n], pkg, k);
    }
  }

  lemma {:induction false} NoRule(rs: seq<KeptRule>, pkg: string)
    ensures PkgRules(rs, pkg) == [] <==> forall j | 0 <= j < |rs| :: !OfPkg(rs[j], pkg)
  {
    hide OfPkg;
    if rs != [] {
      var n := |rs| - 1;
      NoRule(rs[..n], pkg);
      assert forall j | 0 <= j < n :: rs[..n][j] == rs[j];
    }
  }

  // ----- the order of the rules does not matter

  /** Two rule lists with the same rules of one package, counted. */
  ghost predicate SameOf(a: seq<KeptRule>, b: seq<KeptRule>, pkg: string)
  {
    forall r: KeptRule | r.pkg == pkg :: multiset(a)[r] == multiset(b)[r]
  }

  lemma {:induction false} PkgRulesCount(rs: seq<KeptRule>, pkg: string, r: KeptRule)
    ensures multiset(PkgRules(rs, pkg))[r] == if OfPkg(r, pkg) then multiset(rs)[r] else 0
  {
    if rs != [] {
      PkgRulesCount(rs[..|rs| - 1], pkg, r);
      assert rs == rs[..|rs| - 1] + [rs[|rs| - 1]];
    }
  }

  lemma SameFallback(a: seq<KeptRule>, b: seq<KeptRule>, pkg: string)
    requires SameOf(a, b, pkg)
    ensures FallbackDir(a, pkg) == FallbackDir(b, pkg)
  {
    var x, y := PkgRules(a, pkg), PkgRules(b, pkg);
    forall r ensures multiset(x)[r] == multiset(y)[r] {
      PkgRulesCount(a, pkg, r);
      PkgRulesCount(b, pkg, r);
    }
    assert multiset(x) == multiset(y);
    assert |multiset(x)| == |x| && |multiset(y)| == |y|;
    if |x| == 1 {
      assert x[0] in multiset(x) && x[0] in multiset(y);
    }
  }

  /** A thread's CPUs and directory depend only on which rules its package has, not on
      their order nor on the rules of other packages. */
  lemma OrderDoesNotMatter(a: AppConfig, b: AppConfig, pkg: string, thread: string)
    requires a.machine == b.machine && a.fits == b.fits && SameOf(a.rules, b.rules, pkg)
    ensures Affinity(a, pkg, thread) == Affinity(b, pkg, thread)
  {
    hide RangesText, Runs, FallbackDir;
    forall r: KeptRule | r.pkg == pkg ensures r in a.rules <==> r in b.rules {
      assert r in a.rules <==> multiset(a.rules)[r] > 0;
      assert r in b.rules <==> multiset(b.rules)[r] > 0;
    }
    SameFallback(a.rules, b.rules, pkg);
    assert ThreadCpus(a, pkg, thread) == ThreadCpus(b, pkg, thread);
    assert PkgCpus(a, pkg) == PkgCpus(b, pkg);
  }

  // ----- directories

  /** The rules come from the loader: a package rule's directory is the text of its CPUs
      or empty. */
  predicate LoadedRules(rs: seq<KeptRule>)
  {
    forall r | r in rs && r.thread == "" :: r.dir == "" || r.dir == RangesText(Runs(r.cpus, CPU_SETSIZE))
  }

  lemma LoaderDirs(m: Machine, rs: seq<AffinityRule>)
    ensures LoadedRules(KeptAll(m, rs))
  {
  }

  lemma {:induction false} PkgRulesIn(rs: seq<KeptRule>, pkg: string)
    ensures forall r :: r in PkgRules(rs, pkg) <==> r in rs && OfPkg(r, pkg)
  {
    if rs != [] {
      PkgRulesIn(rs[..|rs| - 1], pkg);
      assert rs == rs[..|rs| - 1] + [rs[|rs| - 1]];
    }
  }

  lemma DirNamesCpus(cfg: AppConfig, pkg: string, thread: string)
    requires LoadedRules(cfg.rules)
    ensures var r := Affinity(cfg, pkg, thread);
            r.Some? && r.value.dir != "" ==> r.value.dir == RangesText(Runs(r.value.cpus, CPU_SETSIZE))
  {
    hide RangesText, Runs;
    var mine := PkgRules(cfg.rules, pkg);
    PkgRulesIn(cfg.rules, pkg);
    if |mine| == 1 {
      assert mine[0] in mine && forall r | r in mine :: r == mine[0];
      assert PkgCpus(cfg, pkg) == mine[0].cpus;
    }
  }

  /** The configuration a file gives. */
  function ConfigOf(m: Machine, fits: (string, string) -> bool, ok: Verdict, cs: seq<Line>): AppConfig
  {
    AppConfig(KeptAll(m, Loaded(ok, cs)), m, fits)
  }

  /** With the rules of any file, a directory that is handed out is named after exactly the
      CPUs handed out. */
  lemma DirIsCpus(m: Machine, fits: (string, string) -> bool, ok: Verdict, cs: seq<Line>, pkg: string, thread: string)
    ensures var r := Affinity(ConfigOf(m, fits, ok, cs), pkg, thread);
            r.Some? && r.value.dir != "" ==> r.value.dir == RangesText(Runs(r.value.cpus, CPU_SETSIZE))
  {
    hide LoadedRules, KeptAll, Affinity;
    LoaderDirs(m, Loaded(ok, cs));
    DirNamesCpus(ConfigOf(m, fits, ok, cs), pkg, thread);
  }

  /** A package with one rule of its own: its threads get that rule's CPUs, and the
      directory named after them if it can be used. */
  lemma OwnRule(m: Machine, fits: (string, string) -> bool, rs: seq<AffinityRule>, k: nat, name: string)
    requires k < |rs| && rs[k].thread == "" && ParsedSpec(rs[k].cpus, m.topo) != {}
    requires forall j | 0 <= j < |rs| && j != k :: rs[j].pkg != rs[k].pkg || rs[j].thread != ""
    requires forall q :: !ForName(AppConfig(KeptAll(m, rs), m, fits), q, rs[k].pkg, name)
    ensures var r := Affinity(AppConfig(KeptAll(m, rs), m, fits), rs[k].pkg, name);
            var cpus := ParsedSpec(rs[k].cpus, m.topo);
            var text := RangesText(Runs(cpus, CPU_SETSIZE));
            r == Some(AffinityResult(cpus, if m.cpusets && m.creatable(text) then text else "", false))
  {
    hide RangesText, Runs, ParsedSpec, Affinity;
    var cfg := AppConfig(KeptAll(m, rs), m, fits);
    DirByRules(cfg, rs[k].pkg, name, k);
    AffinityByRules(cfg, rs[k].pkg, name);
    var cpus := ParsedSpec(rs[k].cpus, m.topo);
    var c :| c in cpus;
    assert cfg.rules[k] in cfg.rules;
    forall c: nat ensures CpuByPkg(cfg, rs[k].pkg, c) <==> c in cpus {
    }
    assert CpuByPkg(cfg, rs[k].pkg, c);
    assert Affinity(cfg, rs[k].pkg, name).value.cpus == cpus;
  }

  // ----- edits and affinities

  lemma {:induction false} KeptCount(m: Machine, rs: seq<AffinityRule>, pkg: string, k: KeptRule)
    requires k.pkg != pkg
    ensures multiset(KeptAll(m, rs))[k] == multiset(KeptAll(m, Others(rs, pkg)))[k]
  {
    hide Kept, KeptAll;
    KeptName(m);
    if rs != [] {
      KeptCount(m, rs[1..], pkg, k);
      KeptHead(m, rs);
      if rs[0].pkg != pkg {
        var o := Others(rs, pkg);
        assert o == [rs[0]] + Others(rs[1..], pkg) && o[1..] == Others(rs[1..], pkg);
        KeptHead(m, o);
      } else {
        assert Others(rs, pkg) == Others(rs[1..], pkg);
      }
    }
  }

  lemma KeptHead(m: Machine, rs: seq<AffinityRule>)
    requires rs != []
    ensures KeptAll(m, rs) == [Kept(m, rs[0])] + KeptAll(m, rs[1..])
  {
    hide Kept;
  }

  lemma KeptName(m: Machine)
    ensures forall r: AffinityRule :: Kept(m, r).pkg == r.pkg
  {
  }

  /** An edit of one package never changes what a thread of another package gets. */
  lemma OtherPackagesUnmoved(m: Machine, fits: (string, string) -> bool, ok: Verdict, cs: seq<Line>, out: seq<Line>,
                             pkg: string, other: string, thread: string)
    requires Others(Loaded(ok, out), pkg) == Others(Loaded(ok, cs), pkg) && other != pkg
    ensures Affinity(ConfigOf(m, fits, ok, out), other, thread) == Affinity(ConfigOf(m, fits, ok, cs), other, thread)
  {
    hide Kept, Others, Affinity;
    var a, b := ConfigOf(m, fits, ok, out), ConfigOf(m, fits, ok, cs);
    forall r: KeptRule | r.pkg == other ensures multiset(a.rules)[r] == multiset(b.rules)[r] {
      KeptCount(m, Loaded(ok, out), pkg, r);
      KeptCount(m, Loaded(ok, cs), pkg, r);
    }
    OrderDoesNotMatter(a, b, other, thread);
  }

  lemma KeptConcat(m: Machine, a: seq<AffinityRule>, b: seq<AffinityRule>)
    ensures KeptAll(m, a + b) == KeptAll(m, a) + KeptAll(m, b)
  {
    hide Kept;
  }

  lemma {:induction false} KeptPermuted(m: Machine, a: seq<AffinityRule>, b: seq<AffinityRule>)
    requires multiset(a) == multiset(b)
    ensures multiset(KeptAll(m, a)) == multiset(KeptAll(m, b))
    decreases |a|
  {
    hide Kept, KeptAll;
    SameSize(a, b);
    if a != [] {
      var i := Position(b, a[0]);
      SamePull(m, a, b, i);
      KeptPermuted(m, PulledOut(a, 0), PulledOut(b, i));
    }
  }

  lemma SameSize(a: seq<AffinityRule>, b: seq<AffinityRule>)
    requires multiset(a) == multiset(b)
    ensures |a| == |b| && (a != [] ==> a[0] in b)
  {
    assert |multiset(a)| == |a| && |multiset(b)| == |b|;
    if a != [] {
      assert a[0] in multiset(a);
    }
  }

  lemma Position(b: seq<AffinityRule>, r: AffinityRule) returns (i: nat)
    requires r in b
    ensures i < |b| && b[i] == r
  {
    i :| 0 <= i < |b| && b[i] == r;
  }

  /** The list without its rule at i. */
  function PulledOut(b: seq<AffinityRule>, i: nat): seq<AffinityRule>
    requires i < |b|
  {
    b[..i] + b[i + 1..]
  }

  lemma SamePull(m: Machine, a: seq<AffinityRule>, b: seq<AffinityRule>, i: nat)
    requires multiset(a) == multiset(b) && i < |b| && a != [] && b[i] == a[0]
    ensures multiset(PulledOut(a, 0)) == multiset(PulledOut(b, i))
    ensures multiset(KeptAll(m, PulledOut(a, 0))) == multiset(KeptAll(m, PulledOut(b, i)))
      ==> multiset(KeptAll(m, a)) == multiset(KeptAll(m, b))
  {
    hide Kept, KeptAll, PulledOut;
    Pulled(m, a, 0);
    Pulled(m, b, i);
  }

  /** One rule pulled out of a list. */
  lemma Pulled(m: Machine, b: seq<AffinityRule>, i: nat)
    requires i < |b|
    ensures multiset(KeptAll(m, b)) == multiset{Kept(m, b[i])} + multiset(KeptAll(m, PulledOut(b, i)))
    ensures multiset(PulledOut(b, i)) == multiset(b) - multiset{b[i]}
  {
    hide Kept;
    var x, y := b[..i], b[i + 1..];
    assert b == x + [b[i]] + y;
    KeptConcat(m, x, y);
    assert KeptAll(m, b) == KeptAll(m, x) + [Kept(m, b[i])] + KeptAll(m, y);
  }

  /** After an upsert the threads of the package get what they would get from the old
      rules with the new one in place of the thread's. */
  lemma UpsertedAffinity(m: Machine, fits: (string, string) -> bool, ok: Verdict, cs: seq<Line>, out: seq<Line>,
                         r: AffinityRule, thread: string)
    requires multiset(Loaded(ok, out)) == multiset(Without(Loaded(ok, cs), r.pkg, r.thread)) + multiset{r}
    ensures Affinity(ConfigOf(m, fits, ok, out), r.pkg, thread) ==
              Affinity(AppConfig(KeptAll(m, Without(Loaded(ok, cs), r.pkg, r.thread) + [r]), m, fits), r.pkg, thread)
  {
    hide Kept, KeptAll, Affinity, Loaded, Without;
    var now := Without(Loaded(ok, cs), r.pkg, r.thread) + [r];
    KeptPermuted(m, Loaded(ok, out), now);
    OrderDoesNotMatter(ConfigOf(m, fits, ok, out), AppConfig(KeptAll(m, now), m, fits), r.pkg, thread);
  }
}
