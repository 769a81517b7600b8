/** The files the loader takes without failure, given by a grammar: rules on lines of their
    own, and blocks with thread lines in them. */
module Grammar {
  import opened Base
  import opened Lines
  import opened Loader

  /** What opens a block: a line that does it alone, or a package line with its brace on a
      later line and nothing but skipped lines between. */
  datatype Opening = AtOnce(c: Line) | Later(first: Line, gap: seq<Line>, brace: Line)

  /** A line without meaning, a rule on a line of its own, or a whole block. */
  datatype Item = Idle(c: Line) | Lone(c: Line) | Block(opening: Opening, body: seq<Line>, last: Line)

  predicate AllSkipped(cs: seq<Line>)
  {
    forall k | 0 <= k < |cs| :: cs[k].Skip?
  }

  /** The package of an opening, and the rule it holds, if any. */
  function OwnerOf(o: Opening): string
  {
    var c := if o.AtOnce? then o.c else o.first;
    if c.Text? && !c.outer.Junk? then c.outer.pkg else ""
  }

  function LineRule(c: Line): seq<AffinityRule>
  {
    if c.Skip? then []
    else
      match c.outer
      case Single(pkg, thread, cpus, _) => [AffinityRule(pkg, thread, cpus)]
      case Rule(pkg, cpus, _) => [AffinityRule(pkg, "", cpus)]
      case _ => []
  }

  predicate Taken(ok: Verdict, rs: seq<AffinityRule>)
  {
    forall r | r in rs :: ok(r.pkg, r.thread, r.cpus)
  }

  predicate OpensBlock(ok: Verdict, o: Opening)
  {
    match o
    case AtOnce(c) =>
      && c.Text? && Taken(ok, LineRule(c))
      && ((c.outer.Single? && c.outer.open) || (c.outer.Rule? && c.outer.open) || (c.outer.BareOpen? && c.outer.pkg != ""))
    case Later(first, gap, brace) =>
      && first.Text? && first.outer.Pending? && first.outer.pkg != ""
      && AllSkipped(gap) && brace.Text? && brace.outer == BareOpen("")
  }

  predicate InBody(ok: Verdict, pkg: string, c: Line)
  {
    c.Skip? || (c.inner.Entry? && !c.inner.closed && ok(pkg, c.inner.name, c.inner.cpus))
  }

  predicate EndsBlock(ok: Verdict, pkg: string, c: Line)
  {
    c.Text? && (c.inner == Close || (c.inner.Entry? && c.inner.closed && ok(pkg, c.inner.name, c.inner.cpus)))
  }

  /** A skipped line, or a lone `=`. */
  predicate Meaningless(c: Line)
  {
    c.Skip? || c.outer == Pending("")
  }

  predicate WellFormed(ok: Verdict, it: Item)
  {
    match it
    case Idle(c) => Meaningless(c)
    case Lone(c) => c.Text? && ((c.outer.Single? && !c.outer.open) || (c.outer.Rule? && !c.outer.open)) && Taken(ok, LineRule(c))
    case Block(o, body, last) =>
      OpensBlock(ok, o) && (forall k | 0 <= k < |body| :: InBody(ok, OwnerOf(o), body[k])) && EndsBlock(ok, OwnerOf(o), last)
  }

  function OpeningLines(o: Opening): seq<Line>
  {
    match o
    case AtOnce(c) => [c]
    case Later(first, gap, brace) => [first] + (gap + [brace])
  }

  function LinesOf(it: Item): seq<Line>
  {
    match it
    case Idle(c) => [c]
    case Lone(c) => [c]
    case Block(o, body, last) => OpeningLines(o) + (body + [last])
  }

  function EntryRule(pkg: string, c: Line): seq<AffinityRule>
  {
    if c.Text? && c.inner.Entry? then [AffinityRule(pkg, c.inner.name, c.inner.cpus)] else []
  }

  function BodyRules(pkg: string, body: seq<Line>): seq<AffinityRule>
  {
    if body == [] then [] else EntryRule(pkg, body[0]) + BodyRules(pkg, body[1..])
  }

  function RulesOf(it: Item): seq<AffinityRule>
  {
    match it
    case Idle(_) => []
    case Lone(c) => LineRule(c)
    case Block(o, body, last) =>
      (match o case AtOnce(c) => LineRule(c) case Later(_, _, _) => []) + (BodyRules(OwnerOf(o), body) + EntryRule(OwnerOf(o), last))
  }

  function FileLines(items: seq<Item>): seq<Line>
  {
    if items == [] then [] else LinesOf(items[0]) + FileLines(items[1..])
  }

  function FileRules(items: seq<Item>): seq<AffinityRule>
  {
    if items == [] then [] else RulesOf(items[0]) + FileRules(items[1..])
  }

  ghost predicate Parses(ok: Verdict, cs: seq<Line>, items: seq<Item>)
  {
    cs == FileLines(items) && forall k | 0 <= k < |items| :: WellFormed(ok, items[k])
  }

  // ----- well-formed lines are read as meant

  /** The run ends in state t, has these rules and no failure. */
  ghost predicate Reads(ok: Verdict, s: State, cs: seq<Line>, t: State, rs: seq<AffinityRule>)
  {
    After(s, cs) == t && Rules(ok, s, cs) == rs && Hard(ok, s, cs) == 0 && Soft(s, cs) == 0
  }

  lemma ReadsJoin(ok: Verdict, s: State, a: seq<Line>, t: State, ra: seq<AffinityRule>, b: seq<Line>, u: State, rb: seq<AffinityRule>)
    requires Reads(ok, s, a, t, ra) && Reads(ok, t, b, u, rb)
    ensures Reads(ok, s, a + b, u, ra + rb)
  {
    hide After, Rules, Hard, Soft;
    Concat(ok, s, a, b);
  }

  lemma {:induction false} BodyReads(ok: Verdict, pkg: string, body: seq<Line>)
    requires forall k | 0 <= k < |body| :: InBody(ok, pkg, body[k])
    ensures Reads(ok, State(true, pkg, ""), body, State(true, pkg, ""), BodyRules(pkg, body))
  {
    if body != [] {
      BodyReads(ok, pkg, body[1..]);
      assert InBody(ok, pkg, body[0]);
    }
  }

  lemma OpeningReads(ok: Verdict, o: Opening)
    requires OpensBlock(ok, o)
    ensures Reads(ok, START, OpeningLines(o), State(true, OwnerOf(o), ""), match o case AtOnce(c) => LineRule(c) case Later(_, _, _) => [])
  {
    match o {
      case AtOnce(c) =>
        One(ok, START, c);
      case Later(first, gap, brace) =>
        var w := State(false, "", first.outer.pkg);
        One(ok, START, first);
        SkipRun(ok, w, gap);
        One(ok, w, brace);
        ReadsJoin(ok, w, gap, w, [], [brace], State(true, first.outer.pkg, ""), []);
        ReadsJoin(ok, START, [first], w, [], gap + [brace], State(true, first.outer.pkg, ""), []);
    }
  }

  lemma ItemReads(ok: Verdict, it: Item)
    requires WellFormed(ok, it)
    ensures Reads(ok, START, LinesOf(it), START, RulesOf(it))
  {
    hide OpensBlock, AllSkipped, After, Rules, Hard, Soft;
    match it {
      case Idle(c) => One(ok, START, c);
      case Lone(c) => One(ok, START, c);
      case Block(o, body, last) =>
        var s := State(true, OwnerOf(o), "");
        OpeningReads(ok, o);
        BodyReads(ok, OwnerOf(o), body);
        One(ok, s, last);
        hide Reads;
        assert Reads(ok, s, [last], START, EntryRule(OwnerOf(o), last)) by {
          LastReads(ok, OwnerOf(o), last);
        }
        ReadsJoin(ok, s, body, s, BodyRules(OwnerOf(o), body), [last], START, EntryRule(OwnerOf(o), last));
        ReadsJoin(ok, START, OpeningLines(o), s, match o case AtOnce(c) => LineRule(c) case Later(_, _, _) => [], body + [last], START,
                  BodyRules(OwnerOf(o), body) + EntryRule(OwnerOf(o), last));
    }
  }

  lemma LastReads(ok: Verdict, pkg: string, last: Line)
    requires EndsBlock(ok, pkg, last)
    ensures Reads(ok, State(true, pkg, ""), [last], START, EntryRule(pkg, last))
  {
    One(ok, State(true, pkg, ""), last);
  }

  lemma {:induction false} FileReads(ok: Verdict, items: seq<Item>)
    requires forall k | 0 <= k < |items| :: WellFormed(ok, items[k])
    ensures Reads(ok, START, FileLines(items), START, FileRules(items))
  {
    hide WellFormed, LinesOf, RulesOf;
    if items != [] {
      ItemReads(ok, items[0]);
      FileReads(ok, items[1..]);
      hide Reads;
      ReadsJoin(ok, START, LinesOf(items[0]), START, RulesOf(items[0]), FileLines(items[1..]), START, FileRules(items[1..]));
    }
  }

  // ----- and nothing else is read without failure

  /** The lines still to be read have no failure in them and end outside every block. */
  ghost predicate Faultless(ok: Verdict, s: State, cs: seq<Line>)
  {
    Hard(ok, s, cs) == 0 && Soft(s, cs) == 0 && After(s, cs) == START
  }

  lemma FaultlessNext(ok: Verdict, s: State, cs: seq<Line>)
    requires Faultless(ok, s, cs) && cs != []
    ensures HardFails(ok, s, cs[0]) == 0 && SoftFails(s, cs[0]) == 0 && Faultless(ok, Step(s, cs[0]), cs[1..])
  {
  }

  lemma {:induction false} TakeBody(ok: Verdict, pkg: string, cs: seq<Line>) returns (body: seq<Line>, last: Line, rest: seq<Line>)
    requires Faultless(ok, State(true, pkg, ""), cs)
    ensures cs == body + ([last] + rest) && (forall k | 0 <= k < |body| :: InBody(ok, pkg, body[k])) && EndsBlock(ok, pkg, last)
    ensures Faultless(ok, START, rest)
    decreases |cs|
  {
    var s := State(true, pkg, "");
    FaultlessNext(ok, s, cs);
    hide Faultless;
    var c := cs[0];
    if InBody(ok, pkg, c) {
      body, last, rest := TakeBody(ok, pkg, cs[1..]);
      body := [c] + body;
    } else {
      body, last, rest := [], c, cs[1..];
      assert cs == [] + ([c] + rest);
    }
  }

  lemma {:induction false} TakeBrace(ok: Verdict, pkg: string, cs: seq<Line>) returns (gap: seq<Line>, brace: Line, rest: seq<Line>)
    requires Faultless(ok, State(false, "", pkg), cs) && pkg != ""
    ensures cs == gap + ([brace] + rest) && AllSkipped(gap) && brace.Text? && brace.outer == BareOpen("")
    ensures Faultless(ok, State(true, pkg, ""), rest)
    decreases |cs|
  {
    var s := State(false, "", pkg);
    FaultlessNext(ok, s, cs);
    hide Faultless;
    var c := cs[0];
    if c.Skip? {
      gap, brace, rest := TakeBrace(ok, pkg, cs[1..]);
      gap := [c] + gap;
    } else {
      gap, brace, rest := [], c, cs[1..];
      assert cs == [] + ([c] + rest);
    }
  }

  lemma TakeItem(ok: Verdict, cs: seq<Line>) returns (it: Item, rest: seq<Line>)
    requires Faultless(ok, START, cs) && cs != []
    ensures cs == LinesOf(it) + rest && WellFormed(ok, it) && Faultless(ok, START, rest)
  {
    FaultlessNext(ok, START, cs);
    hide Faultless, InBody, EndsBlock, AllSkipped;
    var c := cs[0];
    if Meaningless(c) {
      it, rest := Idle(c), cs[1..];
    } else if (c.outer.Single? && !c.outer.open) || (c.outer.Rule? && !c.outer.open) {
      it, rest := Lone(c), cs[1..];
    } else if c.outer.Pending? {
      it, rest := TakeWaiting(ok, c, cs[1..]);
      assert cs == [c] + cs[1..];
    } else {
      it, rest := TakeOpened(ok, c, cs[1..]);
      assert cs == [c] + cs[1..];
    }
  }

  lemma TakeOpened(ok: Verdict, c: Line, behind: seq<Line>) returns (it: Item, rest: seq<Line>)
    requires OpensBlock(ok, AtOnce(c)) && Faultless(ok, State(true, OwnerOf(AtOnce(c)), ""), behind)
    ensures [c] + behind == LinesOf(it) + rest && WellFormed(ok, it) && Faultless(ok, START, rest)
  {
    hide Faultless, InBody, EndsBlock, OpensBlock;
    var body, last;
    body, last, rest := TakeBody(ok, OwnerOf(AtOnce(c)), behind);
    it := Block(AtOnce(c), body, last);
    assert [c] + behind == [c] + (body + [last]) + rest;
  }

  lemma TakeWaiting(ok: Verdict, c: Line, behind: seq<Line>) returns (it: Item, rest: seq<Line>)
    requires c.Text? && c.outer.Pending? && c.outer.pkg != "" && Faultless(ok, State(false, "", c.outer.pkg), behind)
    ensures [c] + behind == LinesOf(it) + rest && WellFormed(ok, it) && Faultless(ok, START, rest)
  {
    hide Faultless, InBody, EndsBlock, AllSkipped;
    var gap, brace, more := TakeBrace(ok, c.outer.pkg, behind);
    var body, last;
    body, last, rest := TakeBody(ok, c.outer.pkg, more);
    it := Block(Later(c, gap, brace), body, last);
    WaitingLines(c, gap, brace, body, last, rest);
  }

  lemma WaitingLines(c: Line, gap: seq<Line>, brace: Line, body: seq<Line>, last: Line, rest: seq<Line>)
    ensures [c] + (gap + ([brace] + (body + ([last] + rest)))) == ([c] + (gap + [brace])) + (body + [last]) + rest
  {
  }

  lemma {:induction false} Parsed(ok: Verdict, cs: seq<Line>) returns (items: seq<Item>)
    requires Faultless(ok, START, cs)
    ensures Parses(ok, cs, items)
    decreases |cs|
  {
    if cs == [] {
      items := [];
    } else {
      var it, rest := TakeItem(ok, cs);
      hide Faultless, WellFormed, LinesOf;
      SomeLine(it);
      items := Parsed(ok, rest);
      assert ([it] + items)[1..] == items;
      items := [it] + items;
    }
  }

  lemma SomeLine(it: Item)
    ensures LinesOf(it) != []
  {
  }

  /** The loader takes a file without failure if and only if the grammar does, and then its
      rules are those of the items, in their order. */
  lemma CleanIsGrammar(ok: Verdict, cs: seq<Line>)
    ensures Clean(ok, cs) <==> exists items :: Parses(ok, cs, items)
    ensures forall items | Parses(ok, cs, items) :: Loaded(ok, cs) == FileRules(items)
  {
    hide After, Hard, Soft, Rules, WellFormed, FileLines, FileRules;
    forall items | Parses(ok, cs, items) ensures Clean(ok, cs) && Loaded(ok, cs) == FileRules(items) {
      FileReads(ok, items);
    }
    if Clean(ok, cs) {
      EndsAtStart(cs);
      var items := Parsed(ok, cs);
    }
  }

  lemma EndsAtStart(cs: seq<Line>)
    ensures var s := After(START, cs); !s.inBlock && s.pend == "" ==> s == START
  {
    NoCurrentOutside(cs, |cs|);
    assert cs[..|cs|] == cs;
  }

  // ----- the number of failures

  /** The line has no meaning where it stands, or its rule is turned down. */
  predicate Faulty(ok: Verdict, s: State, c: Line)
  {
    && c.Text?
    && if s.inBlock then c.inner.Bad? || (c.inner.Entry? && !ok(s.cur, c.inner.name, c.inner.cpus))
       else
         || c.outer.Junk? || (c.outer == BareOpen("") && s.pend == "")
         || (c.outer.Single? && !ok(c.outer.pkg, c.outer.thread, c.outer.cpus))
         || (c.outer.Rule? && !ok(c.outer.pkg, "", c.outer.cpus))
  }

  /** A package line waits, and this is not its brace. */
  predicate Drops(s: State, c: Line)
  {
    c.Text? && !s.inBlock && s.pend != "" && !c.outer.Junk? && c.outer != BareOpen("")
  }

  ghost function FaultyLines(ok: Verdict, cs: seq<Line>, n: nat): set<nat>
    requires n <= |cs|
  {
    set k: nat | k < n && Faulty(ok, StateAt(cs, k), cs[k])
  }

  ghost function DroppingLines(cs: seq<Line>, n: nat): set<nat>
    requires n <= |cs|
  {
    set k: nat | k < n && Drops(StateAt(cs, k), cs[k])
  }

  /** Every failure is counted once: a line without meaning or with a rule turned down, a
      package line that waited for another line than its brace, and an open end. */
  lemma FailuresAreFaults(ok: Verdict, cs: seq<Line>)
    ensures FailCount(ok, cs) ==
              |FaultyLines(ok, cs, |cs|)| + |DroppingLines(cs, |cs|)| +
              (if After(START, cs).inBlock || After(START, cs).pend != "" then 1 else 0)
  {
    hide Faulty, Drops, Hard, Soft, After, FaultyLines, DroppingLines;
    FaultsTo(ok, cs, |cs|);
    assert cs[..|cs|] == cs;
  }

  lemma {:induction false} FaultsTo(ok: Verdict, cs: seq<Line>, n: nat)
    requires n <= |cs|
    ensures Hard(ok, START, cs[..n]) == |FaultyLines(ok, cs, n)| && Soft(START, cs[..n]) == |DroppingLines(cs, n)|
  {
    hide Faulty, Drops, Hard, Soft, HardFails, SoftFails, After, FaultyLines, DroppingLines;
    if n == 0 {
      NoFaults(ok, cs);
    } else {
      var m := n - 1;
      FaultsTo(ok, cs, m);
      assert cs[..n] == cs[..m] + [cs[m]];
      Concat(ok, START, cs[..m], [cs[m]]);
      One(ok, StateAt(cs, m), cs[m]);
      LineFaults(ok, StateAt(cs, m), cs[m]);
      FaultsNext(ok, cs, m);
    }
  }

  lemma FaultsNext(ok: Verdict, cs: seq<Line>, m: nat)
    requires m < |cs|
    ensures |FaultyLines(ok, cs, m + 1)| == |FaultyLines(ok, cs, m)| + (if Faulty(ok, StateAt(cs, m), cs[m]) then 1 else 0)
    ensures |DroppingLines(cs, m + 1)| == |DroppingLines(cs, m)| + (if Drops(StateAt(cs, m), cs[m]) then 1 else 0)
  {
    hide FaultyLines, DroppingLines, Faulty, Drops, StateAt;
    forall k: nat
      ensures k in FaultyLines(ok, cs, m + 1) <==> k in FaultyLines(ok, cs, m) || (k == m && Faulty(ok, StateAt(cs, m), cs[m]))
      ensures k in DroppingLines(cs, m + 1) <==> k in DroppingLines(cs, m) || (k == m && Drops(StateAt(cs, m), cs[m]))
    {
      FaultAt(ok, cs, m, k);
      FaultAt(ok, cs, m + 1, k);
    }
    FaultAt(ok, cs, m, m);
    OneMore(FaultyLines(ok, cs, m), FaultyLines(ok, cs, m + 1), m, Faulty(ok, StateAt(cs, m), cs[m]));
    OneMore(DroppingLines(cs, m), DroppingLines(cs, m + 1), m, Drops(StateAt(cs, m), cs[m]));
  }

  lemma FaultAt(ok: Verdict, cs: seq<Line>, n: nat, k: nat)
    requires n <= |cs|
    ensures k in FaultyLines(ok, cs, n) <==> k < n && Faulty(ok, StateAt(cs, k), cs[k])
    ensures k in DroppingLines(cs, n) <==> k < n && Drops(StateAt(cs, k), cs[k])
  {
    hide Faulty, Drops, StateAt;
  }

  lemma OneMore(a: set<nat>, b: set<nat>, m: nat, more: bool)
    requires m !in a && forall k: nat :: k in b <==> k in a || (k == m && more)
    ensures |b| == |a| + (if more then 1 else 0)
  {
    assert b == a + (if more then {m} else {});
  }

  lemma NoFaults(ok: Verdict, cs: seq<Line>)
    ensures Hard(ok, START, cs[..0]) == 0 == |FaultyLines(ok, cs, 0)| && Soft(START, cs[..0]) == 0 == |DroppingLines(cs, 0)|
  {
  }

  lemma LineFaults(ok: Verdict, s: State, c: Line)
    ensures HardFails(ok, s, c) == (if Faulty(ok, s, c) then 1 else 0) && SoftFails(s, c) == (if Drops(s, c) then 1 else 0)
  {
  }
}
