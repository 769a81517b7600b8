/** What the names and CPU texts let through by the web interface and by `add_rule` have
    to do with the names the editor can print. */
module Guards {
  import opened Base
  import opened Text
  import opened Lines
  import opened Syntax
  import opened Shapes
  import opened Printing
  import opened Loader
  import opened CpuSpecs
  import opened Normalizing
  import opened Relabelling
  import opened ConfigFiles

  // ----- CPU texts

  predicate Harmless(s: string)
  {
    forall i | 0 <= i < |s| :: s[i] !in {'=', '{', '}', '#', '/'}
  }

  lemma PartHarmless(p: string)
    requires Trim(p) == "" || SpecPart(Trim(p))
    ensures Harmless(p)
  {
    var lead, trail := TrimSplit(p);
    var t := Trim(p);
    PartChars(t);
    assert p == lead + t + trail;
    forall i | 0 <= i < |p| ensures p[i] !in {'=', '{', '}', '#', '/'} {
      assert p[i] == if i < |lead| then lead[i] else if i < |lead| + |t| then t[i - |lead|] else trail[i - |lead| - |t|];
    }
  }

  lemma DigitsHarmless(s: string)
    ensures AllDigits(s) ==> Harmless(s)
  {
  }

  lemma PairHarmless(t: string, d: nat)
    requires d < |t| && t[d] == '-' && AllDigits(t[..d]) && AllDigits(t[d + 1..])
    ensures Harmless(t)
  {
    forall i | 0 <= i < |t| ensures t[i] !in {'=', '{', '}', '#', '/'} {
      if i < d {
        assert t[..d][i] == t[i];
      } else if i > d {
        assert t[d + 1..][i - d - 1] == t[i];
      }
    }
  }

  lemma PartChars(t: string)
    requires t == "" || SpecPart(t)
    ensures Harmless(t)
  {
    var d := Find(t, '-');
    if t != "" && t !in {"e-core", "p-core", "hp-core", "all-core"} {
      hide Find, AllDigits, Harmless;
      if AllDigits(t) {
        DigitsHarmless(t);
      } else {
        FindFacts(t, '-');
        PairHarmless(t, d);
      }
    }
  }

  lemma {:induction false} SpecHarmless(s: string)
    requires forall i | 0 <= i < |Split(s, ',')| :: Trim(Split(s, ',')[i]) == "" || SpecPart(Trim(Split(s, ',')[i]))
    ensures Harmless(s)
    decreases |s|
  {
    hide Trim, SpecPart;
    var k := Find(s, ',');
    FindFacts(s, ',');
    var parts := Split(s, ',');
    PartHarmless(parts[0]);
    if k >= 0 {
      var rest := Split(s[k + 1..], ',');
      assert forall i | 0 <= i < |rest| :: rest[i] == parts[i + 1];
      SpecHarmless(s[k + 1..]);
      forall i | 0 <= i < |s| ensures s[i] !in {'=', '{', '}', '#', '/'} {
        assert s[i] == if i < k then s[..k][i] else if i == k then ',' else s[k + 1..][i - k - 1];
      }
    }
  }

  /** The verdict of `add_rule` on the trimmed texts the readers hand it. */
  function Accepts(topo: CpuTopology): Verdict
  {
    (pkg, thread, cpus) => Trimmed(cpus) && Takes(topo, pkg, thread, cpus)
  }

  /** Whatever `add_rule` takes can be printed behind a `=`. */
  lemma AcceptsSpecs(topo: CpuTopology)
    ensures SpecVerdict(Accepts(topo))
  {
    var ok := Accepts(topo);
    forall p, t, c | ok(p, t, c) ensures p != "" && CpuText(c) {
      SpecHarmless(c);
    }
  }

  predicate TrimmedTexts(c: Line)
  {
    && (c.Text? && c.inner.Entry? ==> c.inner.cpus == "" || Trimmed(c.inner.cpus))
    && (c.Text? && c.outer.Single? ==> c.outer.cpus == "" || Trimmed(c.outer.cpus))
    && (c.Text? && c.outer.Rule? ==> c.outer.cpus == "" || Trimmed(c.outer.cpus))
  }

  lemma TrimIsTrimmed(s: string)
    ensures Trim(s) == "" || Trimmed(Trim(s))
  {
    var lead, trail := TrimSplit(s);
  }

  lemma KvTrimmed(s: string)
    ensures Kv(s).Some? ==> Kv(s).value.value == "" || Trimmed(Kv(s).value.value)
  {
    hide Trim, Trimmed, RFind;
    var eq := RFind(s, '=');
    if eq >= 0 { TrimIsTrimmed(s[eq + 1..]); }
  }

  lemma RuleLineTrimmed(p: string)
    ensures var r := SplitRuleCore(p); r.Some? ==> r.value.cpus == "" || Trimmed(r.value.cpus)
  {
    hide Kv, Trimmed, CloserFrom;
    var cb := CloserFrom(p, 0);
    KvTrimmed(if cb.Some? then p[..cb.value] else p);
  }

  lemma OuterTrimmed(body: string, open: bool)
    ensures match OuterOfBody(body, open)
            case Single(_, _, cpus, _) => cpus == "" || Trimmed(cpus)
            case Rule(_, cpus, _) => Trimmed(cpus)
            case _ => true
  {
    hide Trim, Trimmed, RFind, SingleNames, CloseLike;
    var eq := RFind(body, '=');
    if eq >= 0 { TrimIsTrimmed(body[eq + 1..]); }
  }

  /** Every CPU text a line holds is trimmed. */
  lemma ClassifyTrimmed(raw: string)
    ensures TrimmedTexts(Classify(raw))
  {
    hide Trim, Trimmed, SplitRuleCore, OuterOfBody, StripComment, OpenBody, CloseLike;
    var p := Trim(raw);
    RuleLineTrimmed(StripComment(p));
    OuterTrimmed(OpenBody(StripComment(p)), Opens(StripComment(p)));
  }

  lemma VerdictsAgree(topo: CpuTopology, s: State, c: Line)
    requires TrimmedTexts(c)
    ensures Emit(Accepts(topo), s, c) == Emit(TakesVerdict(topo), s, c)
    ensures HardFails(Accepts(topo), s, c) == HardFails(TakesVerdict(topo), s, c)
  {
    hide ParsedSpec, NamesOk;
    EmptyIsNoSpec();
    var a := Asked(s, c);
    if a != [] {
      assert a[0].cpus == "" || Trimmed(a[0].cpus);
      assert Admitted(Accepts(topo), a[0]) == Admitted(TakesVerdict(topo), a[0]);
    }
  }

  lemma EmptyIsNoSpec()
    ensures !SpecLike("")
  {
    FindFacts("", ',');
    TrimBlank("");
    assert Split("", ',') == [""];
  }

  lemma {:induction false} SameLoad(topo: CpuTopology, s: State, cs: seq<Line>)
    requires forall k | 0 <= k < |cs| :: TrimmedTexts(cs[k])
    ensures Rules(Accepts(topo), s, cs) == Rules(TakesVerdict(topo), s, cs)
    ensures Hard(Accepts(topo), s, cs) == Hard(TakesVerdict(topo), s, cs)
    decreases |cs|
  {
    hide Takes, TrimmedTexts, Accepts, TakesVerdict, Emit, HardFails;
    if cs != [] {
      VerdictsAgree(topo, s, cs[0]);
      SameLoad(topo, Step(s, cs[0]), cs[1..]);
    }
  }

  /** The loader of ConfigFiles is the loader the edits are proved against. */
  lemma LoaderVerdict(topo: CpuTopology, lines: seq<string>)
    ensures Loaded(Accepts(topo), ClassifyAll(lines)) == Loaded(TakesVerdict(topo), ClassifyAll(lines))
    ensures FailCount(Accepts(topo), ClassifyAll(lines)) == FailCount(TakesVerdict(topo), ClassifyAll(lines))
    ensures SpecVerdict(Accepts(topo))
  {
    hide Takes, TrimmedTexts, Accepts, TakesVerdict, Classify;
    var cs := ClassifyAll(lines);
    forall k | 0 <= k < |cs| ensures TrimmedTexts(cs[k]) {
      ClassifyTrimmed(lines[k]);
    }
    SameLoad(topo, START, cs);
    AcceptsSpecs(topo);
  }

  /** A name `add_rule` takes can stand in for another one. */
  lemma CompatibleNames(topo: CpuTopology, was: string, name: string)
    requires was != "" && NamesOk(name, "")
    ensures Compatible(Accepts(topo), was, name)
  {
    hide SpecLike, ParsedSpec, Control;
  }

  // ----- the checks of the web interface

  predicate HasSlashes(s: string)
  {
    exists i :: 0 <= i && i + 1 < |s| && s[i] == '/' && s[i + 1] == '/'
  }

  /** `token_ok` on a trimmed name. */
  predicate TokenOk(s: string, max: nat)
  {
    s != "" && |s| < max && !Control(s) && '#' !in s && !HasSlashes(s)
  }

  predicate PkgShapeOk(pkg: string)
  {
    !('{' in pkg && pkg != "" && pkg[|pkg| - 1] == '}')
  }

  /** The web checks leave one kind of name that cannot be a header: one that starts like
      a closing brace. */
  lemma WebNames(pkg: string)
    requires Trimmed(pkg) && TokenOk(pkg, MAX_PKG_LEN)
    ensures Core(pkg)
    ensures PkgSafe(pkg) <==> PkgShapeOk(pkg) && !CloseLike(pkg)
  {
    forall i | 0 <= i < |pkg| ensures !MarkChar(pkg, i) {
      assert pkg[i] in pkg;
    }
  }

  /** Names the web checks let through are names `add_rule` takes. */
  lemma WebNamesTaken(pkg: string, thread: string)
    requires TokenOk(pkg, 128) && (thread == "" || TokenOk(thread, 32))
    ensures NamesOk(pkg, thread)
  {
  }

  // ----- which thread names read back

  /** A printed thread line reads back as the rule it was printed for exactly when the
      name is safe. */
  lemma EntryReadsBack(th: string, cp: string)
    requires CpuText(cp)
    ensures var c := Classify(EntryText(th, cp));
            (c.Text? && c.inner == Entry(th, cp, false)) <==> EntrySafe(th)
  {
    hide EntrySafe, CpuText;
    var c := Classify(EntryText(th, cp));
    if EntrySafe(th) {
      EntryLine(th, cp, "");
      assert EntryText(th, cp) + "" == EntryText(th, cp);
    }
    if c.Text? && c.inner == Entry(th, cp, false) {
      ReadImpliesSafe(th, cp);
    }
  }

  lemma ReadImpliesSafe(th: string, cp: string)
    requires CpuText(cp)
    requires var c := Classify(EntryText(th, cp)); c.Text? && c.inner == Entry(th, cp, false)
    ensures EntrySafe(th)
  {
    hide CpuText;
    var lead, q, t := ShapeOf(EntryText(th, cp));
    ReadShape(lead, q, t);
    assert SplitRuleCore(q) == Some(RuleLine(th, cp, false)) && !CloseLike(q);
    assert CloserFrom(q, 0).None? && Kv(q) == Some(KeyValue(th, cp));
    RFindFacts(q, '=');
    var a, b := AtLastEq(q);
    KvOf(a, b);
    NameWhole(lead, a, b, t, th, cp);
    SafeFromCore(th, cp, b);
  }

  /** The name read back is as long as the printed one: nothing was cut off. */
  lemma NameWhole(lead: string, a: string, b: string, t: string, th: string, cp: string)
    requires lead + (a + "=" + b) + t == EntryText(th, cp) && Blank(lead) && Core(a + "=" + b) && Tail(t)
    requires Trim(a) == th && Trim(b) == cp && '=' !in b && CpuText(cp)
    ensures a == th && b == cp && t == ""
  {
    var l, r := TrimSplit(a);
    var l', r' := TrimSplit(b);
    var s := EntryText(th, cp);
    assert |s| == 1 + |th| + 1 + |cp|;
    assert |a| == |l| + |th| + |r| && |b| == |l'| + |cp| + |r'|;
    assert |lead| + |a| + 1 + |b| + |t| == |s|;
    assert s[0] == '\t';
    FrontBlank(lead, a, b, t, s);
    assert |lead| == 1;
  }

  lemma FrontBlank(lead: string, a: string, b: string, t: string, s: string)
    requires lead + (a + "=" + b) + t == s && s != "" && s[0] == '\t' && Core(a + "=" + b)
    ensures |lead| >= 1
  {
  }

  lemma SafeFromCore(th: string, cp: string, b: string)
    requires Core(th + "=" + b) && b == cp && CpuText(cp) && !CloseLike(th + "=" + b) && CloserFrom(th + "=" + b, 0).None?
    requires Trim(th) == th && th != ""
    ensures EntrySafe(th)
  {
    var q := th + "=" + b;
    FrontKept(th, b);
    NoCloseLike(th, "=" + b);
    assert th + ("=" + b) == q;
    CloserFacts(q, 0);
    forall i | 0 <= i < |th| ensures !Closer(th, i) {
      assert !Closer(q, i) && q[..i] == th[..i];
    }
    CloserNone(th);
    TrimIsTrimmed(th);
  }

  lemma FrontKept(a: string, b: string)
    requires Core(a + "=" + b) && a != ""
    ensures NoMark(a) && !MarkChar(a, 0)
  {
    var q := a + "=" + b;
    assert q[0] == a[0];
    assert |a| > 1 ==> q[1] == a[1];
    forall i | 0 <= i < |a| ensures !CommentMark(a, i) {
      assert !CommentMark(q, i);
      assert q[i] == a[i] && (i > 0 ==> q[i - 1] == a[i - 1]) && (i + 1 < |a| ==> q[i + 1] == a[i + 1]);
    }
  }
}
