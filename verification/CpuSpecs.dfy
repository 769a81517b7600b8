/** Reading CPU texts: ranges, semantic core names, and the clamp pair of a rule. */
module CpuSpecs {
  import opened Base
  import opened Text
  import opened Syntax
  import opened CpuSets

  // ----- unsigned numbers

  const USIZE_MAX := 0xFFFF_FFFF_FFFF_FFFF

  function Value(s: string): nat
    requires AllDigits(s)
  {
    if s == "" then 0 else Value(s[..|s| - 1]) * 10 + (s[|s| - 1] as int - '0' as int)
  }

  /** `str::parse::<usize>`: digits, perhaps behind a plus sign, that fit 64 bits. */
  function ParseUsize(s: string): (r: Option<nat>)
    ensures r.Some? ==> r.value <= USIZE_MAX
  {
    var d := if s != "" && s[0] == '+' then s[1..] else s;
    if d != "" && AllDigits(d) && Value(d) <= USIZE_MAX then Some(Value(d)) else None
  }

  // ----- one part

  /** The range of one part; a first number that does not parse, or parses to the
      largest number, voids the part; a second one that does not parse is the first. */
  function PartRange(part: string): Option<Range>
  {
    var pos := Find(part, '-');
    var a := match ParseUsize(if pos >= 0 then part[..pos] else part) case Some(v) => v case None => USIZE_MAX;
    if a == USIZE_MAX then None
    else if pos < 0 then Some(Range(a, a))
    else
      var b := match ParseUsize(part[pos + 1..]) case Some(v) => v case None => a;
      Some(if a > b then Range(b, a) else Range(a, b))
  }

  function Within(r: Range, present: Option<set<nat>>): set<nat>
  {
    set i: nat | i < CPU_SETSIZE && r.lo <= i <= r.hi && (present.Some? ==> i in present.value)
  }

  function PartSet(part: string, present: Option<set<nat>>): set<nat>
  {
    var p := Trim(part);
    if p == "" then {}
    else
      match PartRange(p)
      case Some(r) => Within(r, present)
      case None => {}
  }

  function PartsSet(parts: seq<string>, present: Option<set<nat>>): set<nat>
  {
    if parts == [] then {} else PartsSet(parts[..|parts| - 1], present) + PartSet(parts[|parts| - 1], present)
  }

  /** The CPUs a range text stands for. */
  function ParsedRanges(spec: string, present: Option<set<nat>>): set<nat>
  {
    if spec == "" then {} else PartsSet(Split(spec, ','), present)
  }

  method PartBounds(part: string) returns (bounds: Option<Range>)
    ensures bounds == PartRange(part)
  {
    hide ParseUsize;
    var pos := Find(part, '-');
    if pos >= 0 {
      var a := match ParseUsize(part[..pos]) case Some(v) => v case None => USIZE_MAX;
      var b := match ParseUsize(part[pos + 1..]) case Some(v) => v case None => a;
      if a == USIZE_MAX {
        return None;
      }
      if a > b {
        return Some(Range(b, a));
      }
      return Some(Range(a, b));
    }
    var a := match ParseUsize(part) case Some(v) => v case None => USIZE_MAX;
    if a == USIZE_MAX {
      return None;
    }
    return Some(Range(a, a));
  }

  method ParseCpuRanges(spec: string, present: Option<set<nat>>) returns (cpus: CpuSet)
    ensures fresh(cpus) && fresh(cpus.bits) && cpus.Valid() && cpus.Members() == ParsedRanges(spec, present)
  {
    hide AllDigits, Value, Split, Trim, PartRange, Within;
    cpus := new CpuSet();
    if spec == "" {
      return;
    }
    var parts := Split(spec, ',');
    for k := 0 to |parts|
      invariant fresh(cpus.bits) && cpus.Valid() && cpus.Members() == PartsSet(parts[..k], present)
    {
      assert parts[..k + 1][..k] == parts[..k];
      var part := Trim(parts[k]);
      if part == "" {
        continue;
      }
      var bounds := PartBounds(part);
      if bounds.None? {
        continue;
      }
      RangeSet(cpus, bounds.value.lo, bounds.value.hi, present);
    }
    assert parts[..|parts|] == parts;
  }

  /** The inner loop: the CPUs from lo to hi, clamped, that are present. */
  method RangeSet(cpus: CpuSet, lo: nat, hi: nat, present: Option<set<nat>>)
    requires cpus.Valid()
    modifies cpus.bits
    ensures cpus.Valid() && cpus.Members() == old(cpus.Members()) + Within(Range(lo, hi), present)
  {
    var top := if hi < CPU_SETSIZE - 1 then hi else CPU_SETSIZE - 1;
    var i := lo;
    while i <= top
      invariant lo <= i && (i <= top + 1 || i == lo) && cpus.Valid()
      invariant forall c :: c in cpus.Members() <==>
                  c in old(cpus.Members()) || (c < i && c in Within(Range(lo, hi), present))
    {
      if present.Some? && i !in present.value {
        i := i + 1;
        continue;
      }
      cpus.Set(i);
      i := i + 1;
    }
  }

  // ----- print, then parse

  lemma {:induction false} DecimalDigits(n: nat)
    ensures AllDigits(Decimal(n)) && Value(Decimal(n)) == n
  {
    if n < 10 {
      assert Decimal(n)[..0] == "";
    } else {
      DecimalDigits(n / 10);
      assert Decimal(n)[..|Decimal(n)| - 1] == Decimal(n / 10);
    }
  }

  lemma DecimalParses(n: nat)
    requires n <= USIZE_MAX
    ensures ParseUsize(Decimal(n)) == Some(n)
  {
    DecimalDigits(n);
    assert '0' <= Decimal(n)[0] <= '9';
  }

  /** A plus sign in front changes nothing, and a number that does not fit 64 bits is none. */
  lemma PlusParses(n: nat)
    ensures ParseUsize("+" + Decimal(n)) == ParseUsize(Decimal(n)) == if n <= USIZE_MAX then Some(n) else None
  {
    DecimalDigits(n);
    assert '0' <= Decimal(n)[0] <= '9';
    assert ("+" + Decimal(n))[1..] == Decimal(n);
  }

  predicate Plain(s: string)
  {
    s != "" && forall i | 0 <= i < |s| :: '0' <= s[i] <= '9' || s[i] == '-'
  }

  lemma PlainTrim(s: string)
    requires Plain(s)
    ensures Trim(s) == s && ',' !in s
  {
    TrimTrimmed(s);
  }

  lemma RangeTextPlain(r: Range)
    ensures Plain(RangeText(r))
  {
    DecimalDigits(r.lo);
    DecimalDigits(r.hi);
  }

  lemma RangeTextParses(r: Range)
    requires r.lo <= r.hi < CPU_SETSIZE
    ensures PartRange(RangeText(r)) == Some(r)
  {
    hide Decimal, ParseUsize;
    DecimalDigits(r.lo);
    DecimalDigits(r.hi);
    DecimalParses(r.lo);
    DecimalParses(r.hi);
    var s := RangeText(r);
    FindFacts(s, '-');
    if r.lo == r.hi {
      assert '-' !in s;
    } else {
      assert s[|Decimal(r.lo)|] == '-';
      assert s[..|Decimal(r.lo)|] == Decimal(r.lo) && s[|Decimal(r.lo)| + 1..] == Decimal(r.hi);
      assert forall i | 0 <= i < |Decimal(r.lo)| :: s[i] != '-';
    }
  }

  lemma {:induction false} SplitLast(x: string, y: string, c: char)
    requires c !in y
    ensures Split(x + [c] + y, c) == Split(x, c) + [y]
    decreases |x|
  {
    hide Find;
    var s := x + [c] + y;
    FindFacts(x, c);
    FindFacts(y, c);
    FirstIn(x, c, y);
    var k := Find(x, c);
    if k < 0 {
      assert s[..|x|] == x && s[|x| + 1..] == y;
      assert Split(y, c) == [y];
    } else {
      assert s[..k] == x[..k] && s[k + 1..] == x[k + 1..] + [c] + y;
      SplitLast(x[k + 1..], y, c);
    }
  }

  lemma FirstIn(x: string, c: char, y: string)
    ensures Find(x + [c] + y, c) == if c in x then Find(x, c) else |x|
  {
    hide Find;
    var s := x + [c] + y;
    FindFacts(s, c);
    FindFacts(x, c);
    assert s[|x|] == c && forall i | 0 <= i < |x| :: s[i] == x[i];
  }

  function Texts(rs: seq<Range>): (ts: seq<string>)
    ensures |ts| == |rs|
  {
    seq(|rs|, k requires 0 <= k < |rs| => RangeText(rs[k]))
  }

  /** The text of a set has a dash exactly when two neighbouring CPUs are in it: one CPU alone
      is written as one number. */
  lemma DashMeansRun(S: set<nat>)
    ensures '-' in RangesText(Runs(S, CPU_SETSIZE)) <==> exists c: nat :: c in S && c + 1 in S && c + 1 < CPU_SETSIZE
  {
    hide Runs, RangesText;
    var rs := Runs(S, CPU_SETSIZE);
    RunsAreMaximal(S, CPU_SETSIZE);
    DashIn(rs);
    hide Covers, Separated, Below;
    if k :| 0 <= k < |rs| && rs[k].lo != rs[k].hi {
      LongRun(rs, k);
      assert Covers(rs, rs[k].lo) && Covers(rs, rs[k].lo + 1);
    }
    if c: nat :| c in S && c + 1 in S && c + 1 < CPU_SETSIZE {
      assert Covers(rs, c) && Covers(rs, c + 1);
      var k := SameRun(rs, c);
    }
  }

  lemma LongRun(rs: seq<Range>, k: nat)
    requires Separated(rs) && k < |rs| && rs[k].lo != rs[k].hi
    ensures Covers(rs, rs[k].lo) && Covers(rs, rs[k].lo + 1)
  {
    assert rs[k].lo <= rs[k].lo + 1 <= rs[k].hi;
  }

  /** Two neighbouring CPUs are in one run. */
  lemma SameRun(rs: seq<Range>, c: nat) returns (k: nat)
    requires Separated(rs) && Covers(rs, c) && Covers(rs, c + 1)
    ensures k < |rs| && rs[k].lo != rs[k].hi
  {
    var j :| 0 <= j < |rs| && rs[j].lo <= c <= rs[j].hi;
    k :| 0 <= k < |rs| && rs[k].lo <= c + 1 <= rs[k].hi;
    assert j == k;
  }

  lemma {:induction false} DashIn(rs: seq<Range>)
    ensures '-' in RangesText(rs) <==> exists k :: 0 <= k < |rs| && rs[k].lo != rs[k].hi
  {
    hide RangeText;
    if |rs| > 1 {
      var front, last := rs[..|rs| - 1], rs[|rs| - 1];
      DashIn(front);
      OneDashIn(last);
      InJoin(RangesText(front), RangeText(last));
      if k :| 0 <= k < |front| && front[k].lo != front[k].hi {
        assert rs[k].lo != rs[k].hi;
      }
    } else if |rs| == 1 {
      OneDashIn(rs[0]);
    }
  }

  lemma OneDashIn(r: Range)
    ensures '-' in RangeText(r) <==> r.lo != r.hi
  {
    hide Decimal;
    DecimalDigits(r.lo);
    DecimalDigits(r.hi);
    if r.lo != r.hi {
      assert RangeText(r)[|Decimal(r.lo)|] == '-';
    }
  }

  lemma InJoin(x: string, y: string)
    ensures '-' in x + "," + y <==> '-' in x || '-' in y
  {
  }

  lemma {:induction false} SplitRanges(rs: seq<Range>)
    requires rs != []
    ensures Split(RangesText(rs), ',') == Texts(rs)
  {
    hide RangeText, Split, Find, Trim, Plain;
    var last := rs[|rs| - 1];
    RangeTextPlain(last);
    PlainTrim(RangeText(last));
    if |rs| == 1 {
      FindFacts(RangeText(last), ',');
      OneSplit(RangeText(last), ',');
    } else {
      SplitRanges(rs[..|rs| - 1]);
      var x := RangesText(rs[..|rs| - 1]);
      SplitLast(x, RangeText(last), ',');
      assert RangesText(rs) == x + [','] + RangeText(last);
      assert Texts(rs) == Texts(rs[..|rs| - 1]) + [RangeText(last)];
    }
  }

  lemma {:induction false} TextsSet(rs: seq<Range>, present: Option<set<nat>>, cpu: nat)
    requires (forall k | 0 <= k < |rs| :: rs[k].lo <= rs[k].hi) && Below(rs, CPU_SETSIZE)
    ensures cpu in PartsSet(Texts(rs), present) <==> Covers(rs, cpu) && (present.Some? ==> cpu in present.value)
  {
    hide RangeText, PartRange, Plain, Trim;
    if rs != [] {
      var n := |rs| - 1;
      TextsSet(rs[..n], present, cpu);
      assert Texts(rs)[..n] == Texts(rs[..n]);
      RangeTextPlain(rs[n]);
      PlainTrim(RangeText(rs[n]));
      PlainNotEmpty(RangeText(rs[n]));
      RangeTextParses(rs[n]);
      LastCovers(rs, cpu);
    }
  }

  lemma PlainNotEmpty(s: string)
    requires Plain(s)
    ensures s != ""
  {
  }

  lemma LastCovers(rs: seq<Range>, cpu: nat)
    requires rs != []
    ensures var n := |rs| - 1; Covers(rs, cpu) <==> Covers(rs[..n], cpu) || rs[n].lo <= cpu <= rs[n].hi
  {
    var n := |rs| - 1;
    if Covers(rs[..n], cpu) {
      var k :| 0 <= k < n && rs[..n][k].lo <= cpu <= rs[..n][k].hi;
      assert rs[k].lo <= cpu <= rs[k].hi;
    }
    if Covers(rs, cpu) && !(rs[n].lo <= cpu <= rs[n].hi) {
      var k :| 0 <= k < |rs| && rs[k].lo <= cpu <= rs[k].hi;
      assert rs[..n][k].lo <= cpu <= rs[..n][k].hi;
    }
  }

  /** The printed ranges of a set parse to the set, or to its present part. */
  lemma PrintedParses(S: set<nat>, present: Option<set<nat>>)
    requires forall cpu | cpu in S :: cpu < CPU_SETSIZE
    ensures ParsedRanges(RangesText(Runs(S, CPU_SETSIZE)), present) ==
              if present.Some? then S * present.value else S
  {
    hide Runs, RangeText, Covers;
    var rs := Runs(S, CPU_SETSIZE);
    RunsAreMaximal(S, CPU_SETSIZE);
    if rs == [] {
      forall cpu | cpu in S ensures false {
        assert Covers(rs, cpu);
        NothingCovered(cpu);
      }
    } else {
      SplitRanges(rs);
      TextNotEmpty(rs);
      var out := PartsSet(Texts(rs), present);
      forall cpu: nat ensures cpu in out <==> cpu in S && (present.Some? ==> cpu in present.value) {
        TextsSet(rs, present, cpu);
      }
    }
  }

  lemma NothingCovered(cpu: nat)
    ensures !Covers([], cpu)
  {
  }

  lemma TextNotEmpty(rs: seq<Range>)
    requires rs != []
    ensures RangesText(rs) != ""
  {
    RangeTextPlain(rs[|rs| - 1]);
  }

  // ----- semantic names

  datatype CpuTopology = CpuTopology(present: set<nat>, eCore: set<nat>, pCore: set<nat>, hpCore: set<nat>)

  function NamedSet(part: string, topo: CpuTopology): set<nat>
  {
    match part
    case "e-core" => topo.eCore
    case "p-core" => topo.pCore
    case "hp-core" => topo.hpCore
    case "all-core" => topo.present
    case _ => ParsedRanges(part, Some(topo.present))
  }

  function SpecParts(parts: seq<string>, topo: CpuTopology): set<nat>
  {
    if parts == [] then {}
    else
      var p := Trim(parts[|parts| - 1]);
      SpecParts(parts[..|parts| - 1], topo) + (if p == "" then {} else NamedSet(p, topo))
  }

  /** `parse_cpu_spec`: names and ranges, mixed. */
  function ParsedSpec(spec: string, topo: CpuTopology): set<nat>
  {
    if spec == "" then {} else SpecParts(Split(spec, ','), topo)
  }

  method ParseCpuSpec(spec: string, topo: CpuTopology) returns (cpus: set<nat>)
    ensures cpus == ParsedSpec(spec, topo)
  {
    hide Split, Trim, ParsedRanges;
    cpus := {};
    if spec == "" {
      return;
    }
    var parts := Split(spec, ',');
    for k := 0 to |parts|
      invariant cpus == SpecParts(parts[..k], topo)
    {
      assert parts[..k + 1][..k] == parts[..k];
      var part := Trim(parts[k]);
      if part == "" {
        continue;
      }
      cpus := cpus + NamedSet(part, topo);
    }
    assert parts[..|parts|] == parts;
  }

  predicate IsTier(S: set<nat>, topo: CpuTopology)
  {
    S in {topo.eCore, topo.pCore, topo.hpCore, topo.present}
  }

  /** `spec_name`: the name of a core tier, or the ranges. */
  function SpecName(S: set<nat>, topo: CpuTopology): string
  {
    if S != {} && S == topo.eCore then "e-core"
    else if S != {} && S == topo.pCore then "p-core"
    else if S != {} && S == topo.hpCore then "hp-core"
    else if S != {} && S == topo.present then "all-core"
    else RangesText(Runs(S, CPU_SETSIZE))
  }

  /** Only a core tier has a name, the slowest tier first; other sets are shown as ranges. */
  lemma SpecNameIs(S: set<nat>, topo: CpuTopology)
    requires S != {} && forall cpu | cpu in S :: cpu < CPU_SETSIZE
    ensures SpecName(S, topo) ==
              if S == topo.eCore then "e-core" else if S == topo.pCore then "p-core"
              else if S == topo.hpCore then "hp-core" else if S == topo.present then "all-core"
              else RangesText(Runs(S, 1024))
  {
  }

  lemma NameParses(name: string, topo: CpuTopology)
    requires name in {"e-core", "p-core", "hp-core", "all-core"}
    ensures ParsedSpec(name, topo) == NamedSet(name, topo)
  {
    hide ParsedRanges;
    FindFacts(name, ',');
    assert Split(name, ',') == [name];
    TrimTrimmed(name);
    OneName(name, topo);
  }

  lemma OneName(name: string, topo: CpuTopology)
    requires Trim(name) == name && name != ""
    ensures SpecParts([name], topo) == NamedSet(name, topo)
  {
    hide NamedSet, Trim;
    assert [name][..0] == [];
    assert SpecParts([name], topo) == SpecParts([], topo) + NamedSet(name, topo);
  }

  /** The text of one range is no tier name. */
  lemma RangeIsNoName(part: string, topo: CpuTopology)
    requires Plain(part)
    ensures NamedSet(part, topo) == ParsedRanges(part, Some(topo.present))
  {
    hide ParsedRanges;
    assert part[0] != 'e' && part[0] != 'p' && part[0] != 'h' && part[0] != 'a';
  }

  lemma OnePart(part: string, present: Option<set<nat>>)
    requires Plain(part)
    ensures ParsedRanges(part, present) == PartSet(part, present)
  {
    PlainTrim(part);
    FindFacts(part, ',');
    OneSplit(part, ',');
    OneSet(part, present);
  }

  lemma OneSplit(part: string, c: char)
    requires Find(part, c) < 0
    ensures Split(part, c) == [part]
  {
  }

  lemma OneSet(part: string, present: Option<set<nat>>)
    ensures PartsSet([part], present) == PartSet(part, present)
  {
    hide PartSet;
    assert [part][..0] == [];
    assert PartsSet([part], present) == PartsSet([], present) + PartSet(part, present);
  }

  lemma {:induction false} SpecTexts(rs: seq<Range>, topo: CpuTopology)
    ensures SpecParts(Texts(rs), topo) == PartsSet(Texts(rs), Some(topo.present))
  {
    hide RangeText, PartRange, Within, NamedSet;
    if rs != [] {
      var n := |rs| - 1;
      SpecTexts(rs[..n], topo);
      assert Texts(rs)[..n] == Texts(rs[..n]);
      RangeTextPlain(rs[n]);
      PlainTrim(RangeText(rs[n]));
      RangeIsNoName(RangeText(rs[n]), topo);
      OnePart(RangeText(rs[n]), Some(topo.present));
    }
  }

  /** The text a rule is shown with parses back to its CPUs exactly when they are a core
      tier or all present. */
  lemma SpecNameParses(S: set<nat>, topo: CpuTopology)
    requires forall cpu | cpu in S :: cpu < CPU_SETSIZE
    ensures ParsedSpec(SpecName(S, topo), topo) == S <==> IsTier(S, topo) || S <= topo.present
  {
    hide Runs, RangesText, ParsedRanges, ParsedSpec;
    if S != {} && IsTier(S, topo) {
      NameParses(SpecName(S, topo), topo);
    } else {
      RangesParse(S, topo);
      assert S * topo.present == S <==> S <= topo.present;
    }
  }

  lemma RangesParse(S: set<nat>, topo: CpuTopology)
    requires forall cpu | cpu in S :: cpu < CPU_SETSIZE
    ensures ParsedSpec(RangesText(Runs(S, CPU_SETSIZE)), topo) == S * topo.present
  {
    hide Runs, RangeText, SpecParts, PartsSet;
    var rs := Runs(S, CPU_SETSIZE);
    PrintedParses(S, Some(topo.present));
    if rs != [] {
      TextNotEmpty(rs);
      SplitRanges(rs);
      SpecTexts(rs, topo);
    }
  }

  // ----- the clamp pair

  const CLAMP_MAX := 1024

  /** A number between 0 and 1024, as `parse::<i32>` reads text without a minus sign. */
  function ParseClamp(s: string): Option<nat>
  {
    match ParseUsize(s)
    case Some(v) => if v <= CLAMP_MAX then Some(v) else None
    case None => None
  }

  function Join(parts: seq<string>, c: char): string
  {
    if parts == [] then ""
    else if |parts| == 1 then parts[0]
    else Join(parts[..|parts| - 1], c) + [c] + parts[|parts| - 1]
  }

  datatype RuleSpec = RuleSpec(cpus: string, utilMin: int, utilMax: int)

  /** A rule's CPU text and its clamp pair; without a pair the text is all CPUs. */
  function RuleSpecOf(spec: string): RuleSpec
  {
    var parts := Split(spec, '-');
    var n := |parts|;
    if n >= 3 && ParseClamp(parts[n - 2]).Some? && ParseClamp(parts[n - 1]).Some?
    then RuleSpec(Join(parts[..n - 2], '-'), ParseClamp(parts[n - 2]).value, ParseClamp(parts[n - 1]).value)
    else RuleSpec(spec, -1, -1)
  }

  method ParseRuleSpec(spec: string) returns (r: RuleSpec)
    ensures r == RuleSpecOf(spec)
  {
    var parts := Split(spec, '-');
    if |parts| < 3 {
      return RuleSpec(spec, -1, -1);
    }
    var i, got := |parts|, 0;
    var utilMin: int, utilMax: int := -1, -1;
    var v := ParseClamp(parts[i - 1]);
    if v.Some? {
      utilMax := v.value;
      i := i - 1;
      got := got + 1;
    }
    v := ParseClamp(parts[i - 1]);
    if v.Some? {
      utilMin := v.value;
      i := i - 1;
      got := got + 1;
    }
    if got < 2 {
      return RuleSpec(spec, -1, -1);
    }
    return RuleSpec(Join(parts[..i], '-'), utilMin, utilMax);
  }

  lemma {:induction false} JoinSplit(s: string, c: char)
    ensures Join(Split(s, c), c) == s
    decreases |s|
  {
    hide Join, Find;
    FindFacts(s, c);
    JoinOne(s, c);
    var k := Find(s, c);
    if k >= 0 {
      JoinSplit(s[k + 1..], c);
      JoinFirst(s[..k], Split(s[k + 1..], c), c);
      assert s == s[..k] + [c] + s[k + 1..];
    }
  }

  lemma JoinOne(s: string, c: char)
    ensures Join([s], c) == s
  {
  }

  lemma {:induction false} JoinFirst(x: string, parts: seq<string>, c: char)
    requires parts != []
    ensures Join([x] + parts, c) == x + [c] + Join(parts, c)
    decreases |parts|
  {
    var all, n := [x] + parts, |parts| - 1;
    assert all[..|all| - 1] == [x] + parts[..n] && all[|all| - 1] == parts[n];
    if n > 0 {
      JoinFirst(x, parts[..n], c);
      assert x + [c] + Join(parts[..n], c) + [c] + parts[n] == x + [c] + (Join(parts[..n], c) + [c] + parts[n]);
    }
  }

  /** A clamp pair put behind any text is read back, and the text with it. */
  lemma ClampPairParses(cpus: string, utilMin: nat, utilMax: nat)
    requires utilMin <= CLAMP_MAX && utilMax <= CLAMP_MAX
    ensures RuleSpecOf(cpus + "-" + Decimal(utilMin) + "-" + Decimal(utilMax)) == RuleSpec(cpus, utilMin, utilMax)
  {
    hide Decimal, ParseUsize, Value, AllDigits;
    var a, b := Decimal(utilMin), Decimal(utilMax);
    DecimalDigits(utilMin);
    DecimalDigits(utilMax);
    DecimalParses(utilMin);
    DecimalParses(utilMax);
    ClampParts(cpus, a, b);
    JoinSplit(cpus, '-');
    hide Split, Join;
    var parts := Split(cpus, '-') + [a] + [b];
    assert parts[..|parts| - 2] == Split(cpus, '-');
  }

  /** Numbers over 1024 are no clamp pair: the text stays whole. */
  lemma BigPairStays(cpus: string, utilMin: nat, utilMax: nat)
    requires utilMin > 1024 || utilMax > 1024
    ensures var s := cpus + "-" + Decimal(utilMin) + "-" + Decimal(utilMax); RuleSpecOf(s) == RuleSpec(s, -1, -1)
  {
    hide Decimal, Value, AllDigits, Split, Join;
    var a, b := Decimal(utilMin), Decimal(utilMax);
    DecimalDigits(utilMin);
    DecimalDigits(utilMax);
    NoDash(a);
    NoDash(b);
    BigIsNone(utilMin);
    BigIsNone(utilMax);
    ClampParts(cpus, a, b);
    hide ParseClamp;
  }

  lemma NoDash(s: string)
    requires AllDigits(s)
    ensures '-' !in s
  {
  }

  lemma BigIsNone(n: nat)
    ensures n > 1024 ==> ParseClamp(Decimal(n)).None?
  {
    DecimalDigits(n);
    assert Decimal(n) != "" && Decimal(n)[0] != '+';
  }

  lemma ClampParts(cpus: string, a: string, b: string)
    requires '-' !in a && '-' !in b
    ensures Split(cpus + "-" + a + "-" + b, '-') == Split(cpus, '-') + [a] + [b]
  {
    hide Split;
    var x := cpus + ['-'] + a;
    SplitLast(cpus, a, '-');
    SplitLast(x, b, '-');
    assert x + ['-'] + b == cpus + "-" + a + "-" + b;
  }

  lemma FindFront(x: string, z: string, c: char)
    requires c !in z
    ensures Find(x + z, c) == Find(x, c)
  {
    var s := x + z;
    FindFacts(s, c);
    FindFacts(x, c);
    assert forall i | 0 <= i < |s| :: s[i] == if i < |x| then x[i] else z[i - |x|];
    if c in x {
      assert s[Find(x, c)] == c;
    }
  }

  /** The last part of a text without the separator behind it. */
  lemma {:induction false} LastPart(x: string, z: string, c: char)
    requires c !in z
    ensures |Split(x + z, c)| == |Split(x, c)|
    ensures Split(x + z, c)[|Split(x, c)| - 1] == Split(x, c)[|Split(x, c)| - 1] + z
    decreases |x|
  {
    hide Find;
    var s := x + z;
    FindFront(x, z, c);
    FindFacts(x, c);
    var k := Find(x, c);
    if k >= 0 {
      assert s[k + 1..] == x[k + 1..] + z;
      LastPart(x[k + 1..], z, c);
    }
  }

  lemma CommaIsNoClamp(p: string, q: string)
    ensures ParseClamp(p + "," + q).None?
  {
    var s := p + "," + q;
    assert s[|p|] == ',';
    if s[0] == '+' {
      assert s[1..][|p| - 1] == ',';
    }
  }

  /** A comma in the last or the last but one part: no pair can be read. */
  lemma CommaKeepsWhole(x: string, z: string, tail: Option<string>)
    requires '-' !in z && (tail.Some? ==> '-' !in tail.value)
    ensures var spec := x + ("," + z) + (match tail case Some(t) => ['-'] + t case None => "");
            RuleSpecOf(spec) == RuleSpec(spec, -1, -1)
  {
    hide ParseClamp, Find;
    var head := x + ("," + z);
    LastPart(x, "," + z, '-');
    var p := Split(x, '-')[|Split(x, '-')| - 1];
    CommaIsNoClamp(p, z);
    assert p + ("," + z) == p + "," + z;
    match tail {
      case Some(t) =>
        SplitLast(head, t, '-');
        assert head + ['-'] + t == head + (['-'] + t);
      case None =>
        assert head + "" == head;
    }
  }

  /** A CPU text without a pair is never taken apart. */
  lemma RangesKeepWhole(rs: seq<Range>)
    ensures RuleSpecOf(RangesText(rs)) == RuleSpec(RangesText(rs), -1, -1)
  {
    hide Decimal, ParseClamp, RuleSpecOf, Find;
    if |rs| > 1 {
      var last, x := rs[|rs| - 1], RangesText(rs[..|rs| - 1]);
      DecimalDigits(last.lo);
      DecimalDigits(last.hi);
      CommaKeepsWhole(x, Decimal(last.lo), if last.lo == last.hi then None else Some(Decimal(last.hi)));
      RegroupLast(x, Decimal(last.lo), Decimal(last.hi));
    } else if |rs| == 1 {
      OneRangeWhole(rs[0]);
    } else {
      FewParts("");
    }
  }

  lemma RegroupLast(x: string, lo: string, hi: string)
    ensures x + "," + lo == x + ("," + lo) + "" && x + "," + (lo + "-" + hi) == x + ("," + lo) + (['-'] + hi)
  {
  }

  lemma OneRangeWhole(r: Range)
    ensures RuleSpecOf(RangeText(r)) == RuleSpec(RangeText(r), -1, -1)
  {
    hide Decimal, ParseClamp;
    DecimalDigits(r.lo);
    DecimalDigits(r.hi);
    FewParts(Decimal(r.lo));
    SplitLast(Decimal(r.lo), Decimal(r.hi), '-');
    assert Decimal(r.lo) + "-" + Decimal(r.hi) == Decimal(r.lo) + ['-'] + Decimal(r.hi);
  }

  lemma FewParts(s: string)
    requires '-' !in s
    ensures Split(s, '-') == [s] && RuleSpecOf(s) == RuleSpec(s, -1, -1)
  {
    FindFacts(s, '-');
  }

  lemma NamesKeepWhole(name: string)
    requires name in {"e-core", "p-core", "hp-core", "all-core"}
    ensures RuleSpecOf(name) == RuleSpec(name, -1, -1)
  {
    hide Find, ParseClamp;
    var k := |name| - 5;
    assert name[k] == '-' && name[..k] + ['-'] + "core" == name;
    FewParts(name[..k]);
    SplitLast(name[..k], "core", '-');
  }

  /** The text behind the last comma. */
  lemma {:induction false} LastPartOf(s: string) returns (x: Option<string>, p: string)
    ensures var parts := Split(s, ','); p == parts[|parts| - 1]
    ensures s == match x case Some(front) => front + "," + p case None => p
    decreases |s|
  {
    hide Find;
    FindFacts(s, ',');
    var k := Find(s, ',');
    if k < 0 {
      x, p := None, s;
    } else {
      var y;
      y, p := LastPartOf(s[k + 1..]);
      x := Some(match y case Some(front) => s[..k] + "," + front case None => s[..k]);
      assert s == s[..k] + "," + s[k + 1..];
    }
  }

  /** Text around at most one dash. */
  predicate OneDash(p: string, z: string, tail: Option<string>)
  {
    && '-' !in z && (tail.Some? ==> '-' !in tail.value)
    && p == z + (match tail case Some(t) => ['-'] + t case None => "")
  }

  lemma SpecPartDash(t: string) returns (z: string, tail: Option<string>)
    requires t == "" || SpecPart(t)
    ensures OneDash(t, z, tail)
  {
    hide Find;
    var d := Find(t, '-');
    FindFacts(t, '-');
    if t in {"e-core", "p-core", "hp-core", "all-core"} {
      z, tail := NameDash(t);
    } else if d < 0 {
      z, tail := t, None;
      assert t == t + "";
    } else {
      z, tail := t[..d], Some(t[d + 1..]);
      assert t == t[..d] + (['-'] + t[d + 1..]);
    }
  }

  lemma NameDash(t: string) returns (z: string, tail: Option<string>)
    requires t in {"e-core", "p-core", "hp-core", "all-core"}
    ensures OneDash(t, z, tail)
  {
    z := if t == "e-core" then "e" else if t == "p-core" then "p" else if t == "hp-core" then "hp" else "all";
    tail := Some("core");
    assert t == z + (['-'] + "core");
  }

  lemma PartDash(p: string) returns (z: string, tail: Option<string>)
    requires Trim(p) == "" || SpecPart(Trim(p))
    ensures OneDash(p, z, tail)
  {
    hide Trim, SpecPart;
    var lead, trail := TrimSplit(p);
    var y, rest := SpecPartDash(Trim(p));
    if rest.None? {
      z, tail := lead + y + trail, None;
      assert p == z + "";
    } else {
      z, tail := lead + y, Some(rest.value + trail);
      assert p == (lead + y) + (['-'] + (rest.value + trail));
    }
  }

  /** A CPU text the loader takes is never taken apart, however it is written. */
  lemma SpecsKeepWhole(s: string)
    requires SpecLike(s)
    ensures RuleSpecOf(s) == RuleSpec(s, -1, -1)
  {
    var x, p := LastPartOf(s);
    var z, tail := PartDash(p);
    hide SpecLike, RuleSpecOf, OneDash;
    match x {
      case Some(front) => LastDashWhole(front, p, z, tail);
      case None => DashKeepsWhole(p, z, tail);
    }
  }

  lemma LastDashWhole(front: string, p: string, z: string, tail: Option<string>)
    requires OneDash(p, z, tail)
    ensures RuleSpecOf(front + "," + p) == RuleSpec(front + "," + p, -1, -1)
  {
    hide RuleSpecOf;
    CommaKeepsWhole(front, z, tail);
    var rest := match tail case Some(t) => ['-'] + t case None => "";
    assert front + ("," + z) + rest == front + "," + (z + rest);
  }

  lemma DashKeepsWhole(p: string, z: string, tail: Option<string>)
    requires OneDash(p, z, tail)
    ensures RuleSpecOf(p) == RuleSpec(p, -1, -1)
  {
    hide ParseClamp, Find;
    FewParts(z);
    match tail {
      case Some(t) =>
        SplitLast(z, t, '-');
        assert z + ['-'] + t == z + (['-'] + t);
      case None =>
        assert z + "" == z;
    }
  }

  /** The clamp pair that is shown: a missing side gets its end of the scale. */
  function ShownClamps(utilMin: int, utilMax: int): (int, int)
  {
    if utilMin < 0 && utilMax < 0 then (-1, -1)
    else (if utilMin >= 0 then utilMin else 0, if utilMax >= 0 then utilMax else CLAMP_MAX)
  }

  /** The whole text shown for a rule: the CPUs and, if a side is set, the clamp pair. */
  function ShownSpec(S: set<nat>, topo: CpuTopology, utilMin: int, utilMax: int): string
  {
    var spec := SpecName(S, topo);
    if utilMin >= 0 || utilMax >= 0 then
      spec + "-" + Decimal(if utilMin >= 0 then utilMin else 0) + "-" + Decimal(if utilMax >= 0 then utilMax else CLAMP_MAX)
    else spec
  }

  /** Reading the shown text gives the rule's clamps back, and its CPUs exactly when they
      are a core tier or all present. */
  lemma ShownSpecParses(S: set<nat>, topo: CpuTopology, utilMin: int, utilMax: int)
    requires utilMin <= CLAMP_MAX && utilMax <= CLAMP_MAX
    requires forall cpu | cpu in S :: cpu < CPU_SETSIZE
    ensures var r := RuleSpecOf(ShownSpec(S, topo, utilMin, utilMax));
            && (r.utilMin, r.utilMax) == ShownClamps(utilMin, utilMax)
            && (ParsedSpec(r.cpus, topo) == S <==> IsTier(S, topo) || S <= topo.present)
  {
    hide Runs, RangesText, RuleSpecOf, Decimal, ParsedSpec, IsTier;
    if utilMin >= 0 || utilMax >= 0 {
      ClampPairParses(SpecName(S, topo), if utilMin >= 0 then utilMin else 0, if utilMax >= 0 then utilMax else CLAMP_MAX);
    } else {
      RangesKeepWhole(Runs(S, CPU_SETSIZE));
      if SpecName(S, topo) in {"e-core", "p-core", "hp-core", "all-core"} {
        NamesKeepWhole(SpecName(S, topo));
      }
    }
    hide SpecName;
    SpecNameParses(S, topo);
  }
}
