/** `spec_swap` on a single-line rule. */
module SwappedSingles {
  import opened Base
  import opened Text
  import opened Lines
  import opened Syntax
  import opened Shapes
  import opened Printing
  import opened Swapping

  /** The names of a single-line rule stand in front of the last `=` of its body. */
  lemma SingleAtEq(body: string, open: bool, pkg: string, thread: string, cp: string) returns (a: string, b: string)
    requires OuterOfBody(body, open) == Single(pkg, thread, cp, open)
    ensures body == a + "=" + b && '=' !in b && SingleNames(a) == Some((pkg, thread)) && Trim(b) == cp && Trim(a) != ""
  {
    hide SingleNames, Trim;
    RFindFacts(body, '=');
    a, b := AtLastEq(body);
    assert body[..|a|] == a && body[|a| + 1..] == b;
    NamesNotBlank(a);
  }

  lemma NamesNotBlank(a: string)
    requires SingleNames(a).Some?
    ensures Trim(a) != ""
  {
    var l, r := TrimSplit(a);
    BodyFacts(a);
  }

  /** How a body with two names reads, whatever its value is. */
  lemma SingleFromParts(a: string, c: string, open: bool, pkg: string, thread: string)
    requires '=' !in c && SingleNames(a) == Some((pkg, thread))
    ensures OuterOfBody(a + "=" + c, open) == Single(pkg, thread, Trim(c), open)
  {
    hide SingleNames, Trim;
    var q := a + ['='] + c;
    assert q == a + "=" + c;
    RFindIs(a, '=', c);
    assert q[..|a|] == a && q[|a| + 1..] == c;
  }

  lemma SwapClosedSingle(raw: string, pkg: string, thread: string, cp: string, cpus: string)
    requires Classify(raw).Text? && Classify(raw).outer == Single(pkg, thread, cp, false)
    requires NoBrace(cp) && CpuText(cpus)
    ensures var c := Classify(SpecSwap(raw, cpus)); c.Text? && c.outer == Single(pkg, thread, cpus, false)
  {
    hide Core, Tail, SpecSwap, CpuText, SingleNames, OuterOfBody, Trim, Classify;
    NotSkippedText(raw);
    var lead, q, t := ShapeOf(raw);
    ReadShape(lead, q, t);
    ClosedBody(q);
    var a, b := SingleAtEq(q, false, pkg, thread, cp);
    var w, z := PlainSwap(lead, a, b, t, cpus);
    ValueFacts(w, cpus);
    NotEmpty(w, cpus);
    SingleFromParts(a, w + cpus, false, pkg, thread);
    NotOpen(a, w + cpus, cpus);
    ReadShape(lead, a + "=" + (w + cpus), z);
  }

  lemma ClosedBody(q: string)
    requires ParseOuterCore(q).Single? && !ParseOuterCore(q).open
    ensures !Opens(q) && ParseOuterCore(q) == OuterOfBody(q, false)
  {
  }

  lemma NotEmpty(w: string, cpus: string)
    requires CpuText(cpus)
    ensures w + cpus != ""
  {
  }

  lemma NotOpen(a: string, v: string, cpus: string)
    requires v != "" && CpuText(cpus) && v[|v| - 1] == cpus[|cpus| - 1]
    ensures var q := a + "=" + v; !Opens(q) && ParseOuterCore(q) == OuterOfBody(q, false)
  {
    var q := a + "=" + v;
    assert q[|q| - 1] == v[|v| - 1];
  }

  lemma SwapOpenSingle(raw: string, pkg: string, thread: string, cp: string, cpus: string)
    requires Classify(raw).Text? && Classify(raw).outer == Single(pkg, thread, cp, true)
    requires NoBrace(cp) && CpuText(cpus)
    ensures var c := Classify(SpecSwap(raw, cpus)); c.Text? && c.outer == Single(pkg, thread, cpus, true)
  {
    hide Core, Tail, SpecSwap, CpuText, SingleNames, OuterOfBody, Trim, Classify, Blank, Breaks, OpenBody;
    NotSkippedText(raw);
    var lead, q, t := ShapeOf(raw);
    ReadShape(lead, q, t);
    OpenedBody(q);
    var body, g := BodyAndGap(q);
    var a, b := SingleAtEq(body, true, pkg, thread, cp);
    RegroupOpen(a, b, g);
    BlankAround(b, g);
    BlankNoEq(g);
    var w, z := BraceSwap(lead, a, b + g, '{', "", t, cpus);
    BraceTail(t);
    OpenSingleCore(a, b, g, w, z, cpus, pkg, thread);
    ReadShape(lead, a + "=" + (w + cpus) + z + ['{'], Breaks("" + Gap(t)) + Comment(t));
  }

  lemma OpenedBody(q: string)
    requires ParseOuterCore(q).Single? && ParseOuterCore(q).open
    ensures Opens(q) && ParseOuterCore(q) == OuterOfBody(OpenBody(q), true)
  {
  }

  lemma BlankAround(b: string, g: string)
    requires Blank(g)
    ensures Trim(b + g) == Trim(b)
  {
    var l, r := TrimSplit(b);
    if Trim(b) == "" {
      TrimBlank(b + g);
    } else {
      TrimBack(b, g);
    }
  }

  lemma OpenSingleCore(a: string, b: string, g: string, w: string, z: string, cpus: string, pkg: string, thread: string)
    requires Core(a + "=" + (b + g) + ['{'] + "") && SingleNames(a) == Some((pkg, thread)) && Trim(a) != ""
    requires Blank(w) && Blank(z) && CpuText(cpus)
    ensures Core(a + "=" + (w + cpus) + z + ['{'])
    ensures ParseOuterCore(a + "=" + (w + cpus) + z + ['{']) == Single(pkg, thread, cpus, true)
  {
    hide SingleNames, Trim, OuterOfBody;
    assert a + "=" + (b + g) + ['{'] + "" == a + "=" + (b + g + ['{']);
    FrontOf(a, b + g + ['{']);
    ValueFacts(w, cpus);
    ValueCore(a, w, cpus);
    var body := a + "=" + (w + cpus);
    OpenLineCore(body, z);
    OpenBodyOf(body, z);
    SingleFromParts(a, w + cpus, true, pkg, thread);
    assert body + z + ['{'] == body + z + "{";
  }
}
