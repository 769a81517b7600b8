/** `spec_swap`: replacing the CPU text of a rule where it stands in its line. */
module Swapping {
  import opened Base
  import opened Text
  import opened Lines
  import opened Syntax
  import opened Shapes
  import opened Printing

  predicate IsBreak(c: char)
  {
    IsWs(c) || c == '{' || c == '}'
  }

  function BreakFrom(s: string, i: nat): (n: nat)
    requires i <= |s|
    ensures i <= n <= |s|
    decreases |s| - i
  {
    if i == |s| || IsBreak(s[i]) then i else BreakFrom(s, i + 1)
  }

  /** The white space and braces of a text. */
  function Breaks(s: string): string
  {
    if s == "" then "" else (if IsBreak(s[0]) then [s[0]] else []) + Breaks(s[1..])
  }

  function SpecSwap(raw: string, cpus: string): string
  {
    var cut := match CommentAt(raw) case Some(at) => at case None => |raw|;
    SwapIn(raw[..cut], raw[cut..], cpus)
  }

  /** The swap in a line without its comment: the text after the last `=`, up to the
      first white space or brace, gives way; of the rest only white space and braces
      stay. */
  function SwapIn(s: string, comment: string, cpus: string): string
  {
    var eq := RFind(s, '=');
    if eq < 0 then s + comment
    else
      var from := LeadFrom(s, eq + 1);
      s[..from] + cpus + Breaks(s[BreakFrom(s, from)..]) + comment
  }

  lemma {:induction false} BreakFacts(s: string, i: nat, e: nat)
    requires i <= e <= |s| && (e == |s| || IsBreak(s[e]))
    ensures BreakFrom(s, i) <= e
    decreases |s| - i
  {
    if i < e && !IsBreak(s[i]) {
      BreakFacts(s, i + 1, e);
    }
  }

  lemma {:induction false} BreaksConcat(a: string, b: string)
    ensures Breaks(a + b) == Breaks(a) + Breaks(b)
  {
    if a == "" {
      assert a + b == b;
    } else {
      assert (a + b)[1..] == a[1..] + b && (a + b)[0] == a[0];
      BreaksConcat(a[1..], b);
      assert Breaks(a) == (if IsBreak(a[0]) then [a[0]] else []) + Breaks(a[1..]);
    }
  }

  predicate NoBrace(s: string)
  {
    forall i | 0 <= i < |s| :: s[i] != '{' && s[i] != '}'
  }

  lemma {:induction false} BreaksBlank(s: string)
    requires NoBrace(s)
    ensures Blank(Breaks(s))
  {
    if s != "" {
      BreaksBlank(s[1..]);
    }
  }

  lemma {:induction false} BreaksOnly(s: string)
    ensures forall i | 0 <= i < |Breaks(s)| :: IsBreak(Breaks(s)[i])
  {
    if s != "" {
      BreaksOnly(s[1..]);
    }
  }

  lemma SwapParts(s: string, comment: string, cpus: string)
    requires CommentAt(s + comment) == if comment == "" then None else Some(|s|)
    ensures SpecSwap(s + comment, cpus) == SwapIn(s, comment, cpus)
  {
    var raw := s + comment;
    assert raw[..|s|] == s && raw[|s|..] == comment;
  }

  lemma SwapAt(s: string, comment: string, cpus: string, h: nat, from: nat, e: nat)
    requires RFind(s, '=') == h && from == LeadFrom(s, h + 1) && e == BreakFrom(s, from)
    ensures SwapIn(s, comment, cpus) == s[..from] + cpus + Breaks(s[e..]) + comment
  {
  }

  /** The value runs to the end of the text: white space follows the new value. */
  lemma SwapPlain(h: string, v: string, comment: string, cpus: string) returns (w: string, z: string)
    requires '=' !in v && NoBrace(v)
    ensures Blank(w) && Blank(z) && (v != "" && !IsWs(v[0]) ==> w == "")
    ensures SwapIn(h + "=" + v, comment, cpus) == h + "=" + w + cpus + z + comment
  {
    hide Breaks, LeadFrom, BreakFrom, RFind;
    var s := h + ['='] + v;
    assert s == h + "=" + v;
    RFindIs(h, '=', v);
    var from := LeadFrom(s, |h| + 1);
    var e := BreakFrom(s, from);
    LeadFromFacts(s, |h| + 1);
    assert v != "" ==> s[|h| + 1] == v[0];
    w, z := s[|h| + 1..from], Breaks(s[e..]);
    NoBraceSlice(h, v, e);
    BreaksBlank(s[e..]);
    SwapAt(s, comment, cpus, |h|, from, e);
    assert s[..from] == h + "=" + w;
  }

  lemma NoBraceSlice(h: string, v: string, e: nat)
    requires NoBrace(v) && |h| < e <= |h| + 1 + |v|
    ensures NoBrace((h + "=" + v)[e..])
  {
    var t := (h + "=" + v)[e..];
    assert forall i | 0 <= i < |t| :: t[i] == v[i + e - |h| - 1];
  }

  /** A brace follows the value: it stays, with what white space and braces follow. */
  lemma SwapBrace(h: string, u: string, c: char, g: string, comment: string, cpus: string) returns (w: string, z: string)
    requires c in {'{', '}'} && '=' !in u && '=' !in g && NoBrace(u)
    ensures Blank(w) && Blank(z)
    ensures SwapIn(h + "=" + u + [c] + g, comment, cpus) == h + "=" + w + cpus + z + [c] + Breaks(g) + comment
  {
    hide Breaks, LeadFrom, BreakFrom, RFind;
    var v := u + [c] + g;
    var s := h + ['='] + v;
    assert s == h + "=" + u + [c] + g;
    RFindIs(h, '=', v);
    var b := |h| + 1 + |u|;
    assert s[b] == c;
    var from := LeadFrom(s, |h| + 1);
    LeadFromFacts(s, |h| + 1);
    assert from <= b;
    var e := BreakFrom(s, from);
    BreakFacts(s, from, b);
    w := s[|h| + 1..from];
    SwapAt(s, comment, cpus, |h|, from, e);
    assert s[..from] == h + "=" + w;
    z := BracePart(s, h, u, c, g, e);
  }

  lemma BracePart(s: string, h: string, u: string, c: char, g: string, e: nat) returns (z: string)
    requires c in {'{', '}'} && NoBrace(u) && s == h + ['='] + (u + [c] + g) && |h| < e <= |h| + 1 + |u|
    ensures Blank(z) && Breaks(s[e..]) == z + [c] + Breaks(g)
  {
    var k := u[e - |h| - 1..];
    assert s[e..] == k + ([c] + g);
    BreaksConcat(k, [c] + g);
    BreaksBlank(k);
    z := Breaks(k);
    assert ([c] + g)[1..] == g;
  }

  lemma CpuNoBrace(s: string)
    requires CpuText(s)
    ensures NoBrace(s)
  {
  }

  // ----- the line as a whole

  lemma FrontOf(a: string, b: string)
    requires Core(a + "=" + b) && Trim(a) != ""
    ensures Front(a)
  {
    var q := a + "=" + b;
    if a == "" {
      TrimBlank(a);
    }
    assert q[0] == a[0];
    assert |a| > 1 ==> q[1] == a[1];
    forall i | 0 <= i < |a| ensures !CommentMark(a, i) {
      assert !CommentMark(q, i);
      assert q[i] == a[i] && (i > 0 ==> q[i - 1] == a[i - 1]) && (i + 1 < |a| ==> q[i + 1] == a[i + 1]);
    }
  }

  /** White space and CPU text starts no comment. */
  lemma ValueFacts(w: string, cpus: string)
    requires Blank(w) && CpuText(cpus)
    ensures NoMark(w + cpus) && '=' !in w + cpus && '}' !in w + cpus && '{' !in w + cpus
    ensures Trim(w + cpus) == cpus
    ensures (w + cpus)[|w + cpus| - 1] == cpus[|cpus| - 1]
  {
    var v := w + cpus;
    forall i | 0 <= i < |v| ensures v[i] !in {'=', '{', '}', '#', '/'} {
      assert v[i] == if i < |w| then w[i] else cpus[i - |w|];
    }
    NoMarkIn(v);
    assert w + cpus + "" == v;
    TrimIs(w, cpus, "");
  }

  lemma ValueCore(a: string, w: string, cpus: string)
    requires Front(a) && Blank(w) && CpuText(cpus)
    ensures Core(a + "=" + (w + cpus))
  {
    ValueFacts(w, cpus);
    CoreJoin(a, '=', w + cpus);
    assert a + "=" + (w + cpus) == a + ['='] + (w + cpus);
  }

  lemma TailJoin(w: string, t: string)
    requires Blank(w) && Tail(t)
    ensures Tail(w + t)
  {
    var s := w + t;
    LeadFacts(t);
    if !Blank(t) {
      var n := LeadLen(t);
      assert s == (w + t[..n]) + t[n..];
      LeadLenIs(w + t[..n], t[n..]);
      assert s[|w| + n] == t[n] && (n + 1 < |t| ==> s[|w| + n + 1] == t[n + 1]);
    }
  }

  /** White space after a core belongs to the text `spec_swap` looks at; a comment does not. */
  function Gap(t: string): string
  {
    if Blank(t) then t else ""
  }

  function Comment(t: string): string
  {
    if Blank(t) then "" else t
  }

  lemma CommentTail(t: string)
    requires Tail(t)
    ensures Tail(Comment(t)) && Tail(Gap(t))
  {
  }

  lemma SwapOfShape(lead: string, q: string, t: string, cpus: string)
    requires Blank(lead) && Core(q) && Tail(t)
    ensures SpecSwap(lead + q + t, cpus) == SwapIn(lead + q + Gap(t), Comment(t), cpus)
  {
    CommentAtShape(lead, q, t);
    assert lead + q + t == (lead + q + Gap(t)) + Comment(t);
    SwapParts(lead + q + Gap(t), Comment(t), cpus);
  }

  lemma BlankNoEq(t: string)
    requires Blank(t)
    ensures '=' !in t && NoBrace(t)
  {
  }

  lemma TrimmedNoBrace(b: string)
    requires NoBrace(Trim(b))
    ensures NoBrace(b)
  {
    var l, r := TrimSplit(b);
    var m := Trim(b);
    forall i | 0 <= i < |b| ensures b[i] != '{' && b[i] != '}' {
      assert b[i] == if i < |l| then l[i] else if i < |l| + |m| then m[i - |l|] else r[i - |l| - |m|];
    }
  }

  /** A value without a brace after it. */
  lemma PlainSwap(lead: string, a: string, b: string, t: string, cpus: string) returns (w: string, z: string)
    requires Blank(lead) && Core(a + "=" + b) && Tail(t) && '=' !in b && Trim(a) != ""
    requires NoBrace(Trim(b)) && CpuText(cpus)
    ensures SpecSwap(lead + (a + "=" + b) + t, cpus) == lead + (a + "=" + (w + cpus)) + z
    ensures Blank(w) && Core(a + "=" + (w + cpus)) && Tail(z) && (b != "" && !IsWs(b[0]) ==> w == "")
  {
    hide SpecSwap, SwapIn, Core, Tail, Trim, CpuText, Breaks;
    SwapOfShape(lead, a + "=" + b, t, cpus);
    TrimmedNoBrace(b);
    BlankNoEq(Gap(t));
    NoBraceJoin(b, Gap(t));
    var y;
    w, y := SwapPlain(lead + a, b + Gap(t), Comment(t), cpus);
    z := y + Comment(t);
    assert lead + (a + "=" + b) + Gap(t) == (lead + a) + "=" + (b + Gap(t));
    Regroup(lead, a, w, cpus, y, Comment(t));
    FrontOf(a, b);
    ValueCore(a, w, cpus);
    CommentTail(t);
    TailJoin(y, Comment(t));
  }

  lemma NoBraceJoin(b: string, g: string)
    requires NoBrace(b) && NoBrace(g)
    ensures NoBrace(b + g)
  {
  }

  lemma Regroup(lead: string, a: string, w: string, cpus: string, y: string, c: string)
    ensures (lead + a) + "=" + w + cpus + y + c == lead + (a + "=" + (w + cpus)) + (y + c)
  {
  }

  /** An unclosed entry, or a package rule that opens no block. */
  lemma SwapEntry(raw: string, name: string, cp: string, cpus: string)
    requires Classify(raw).Text? && Classify(raw).inner == Entry(name, cp, false)
    requires NoBrace(cp) && CpuText(cpus)
    ensures Classify(SpecSwap(raw, cpus)).Text? && Classify(SpecSwap(raw, cpus)).inner == Entry(name, cpus, false)
  {
    var lead, q, t := ShapeOf(raw);
    ReadShape(lead, q, t);
    RFindFacts(q, '=');
    assert SplitRuleCore(q) == Some(RuleLine(name, cp, false));
    assert Kv(q).Some?;
    var a, b := AtLastEq(q);
    KvOf(a, b);
    var w, z := PlainSwap(lead, a, b, t, cpus);
    EntryCoreSwap(a, b, w, name, cp, cpus);
    ReadShape(lead, a + "=" + (w + cpus), z);
  }

  lemma EntryCoreSwap(a: string, b: string, w: string, name: string, cp: string, cpus: string)
    requires '=' !in b && Blank(w) && CpuText(cpus) && a != ""
    requires !CloseLike(a + "=" + b) && SplitRuleCore(a + "=" + b) == Some(RuleLine(name, cp, false))
    ensures var q := a + "=" + (w + cpus); !CloseLike(q) && SplitRuleCore(q) == Some(RuleLine(name, cpus, false))
  {
    hide Trim, Closer, CpuText, CloseLike, Kv;
    KvOf(a, b);
    ValueFacts(w, cpus);
    KvOf(a, w + cpus);
    assert a + ("=" + b) == a + "=" + b;
    NoCloserIn(a, "=" + b);
    CloserInName(a, w + cpus);
    SameClose(a, b, w + cpus);
  }

  lemma NoCloserIn(a: string, b: string)
    requires CloserFrom(a + b, 0).None?
    ensures CloserFrom(a, 0).None?
  {
    var s := a + b;
    CloserFacts(s, 0);
    forall i | 0 <= i < |a| ensures !Closer(a, i) {
      assert !Closer(s, i);
      assert s[..i] == a[..i];
    }
    CloserNone(a);
  }

  lemma SameClose(a: string, b: string, c: string)
    requires a != ""
    ensures CloseLike(a + "=" + b) == CloseLike(a + "=" + c)
  {
    NoCloseLike(a, "=" + b);
    NoCloseLike(a, "=" + c);
    assert a + ("=" + b) == a + "=" + b;
    assert a + ("=" + c) == a + "=" + c;
  }

  lemma SwapStandalone(raw: string, pkg: string, cp: string, cpus: string)
    requires Classify(raw).Text? && Classify(raw).outer == Rule(pkg, cp, false) && pkg != ""
    requires NoBrace(cp) && CpuText(cpus)
    ensures Classify(SpecSwap(raw, cpus)).Text? && Classify(SpecSwap(raw, cpus)).outer == Rule(pkg, cpus, false)
  {
    var lead, q, t := ShapeOf(raw);
    ReadShape(lead, q, t);
    var a, b := RuleAtEq(q, pkg, cp);
    var w, z := PlainSwap(lead, a, b, t, cpus);
    ReadShape(lead, a + "=" + (w + cpus), z);
    StandaloneCore(a, b, w, cpus, pkg, cp);
  }

  lemma RuleAtEq(q: string, pkg: string, cp: string) returns (a: string, b: string)
    requires OuterOfBody(q, false) == Rule(pkg, cp, false) || OuterOfBody(q, true) == Rule(pkg, cp, true)
    ensures q == a + "=" + b && '=' !in b && Trim(a) == pkg && Trim(b) == cp
  {
    RFindFacts(q, '=');
    a, b := AtLastEq(q);
    assert q[..|a|] == a && q[|a| + 1..] == b;
  }

  lemma StandaloneCore(a: string, b: string, w: string, cpus: string, pkg: string, cp: string)
    requires ParseOuterCore(a + "=" + b) == Rule(pkg, cp, false) && '=' !in b && Trim(a) == pkg && pkg != ""
    requires Blank(w) && CpuText(cpus)
    ensures ParseOuterCore(a + "=" + (w + cpus)) == Rule(pkg, cpus, false)
  {
    ValueFacts(w, cpus);
    if a == "" {
      TrimBlank(a);
    }
    SameClose(a, b, w + cpus);
    NoSingleLeft(a, b, false);
    BodyFromParts(a, w + cpus, false);
    var q := a + "=" + (w + cpus);
    assert q[|q| - 1] == cpus[|cpus| - 1];
  }

  /** A body that is not a single-line rule: its names are not. */
  lemma NoSingleLeft(a: string, b: string, open: bool)
    requires '=' !in b && !OuterOfBody(a + "=" + b, open).Single?
    ensures SingleNames(a).None?
  {
    var q := a + ['='] + b;
    assert q == a + "=" + b;
    RFindIs(a, '=', b);
    assert q[..|a|] == a;
  }

  /** How a body is read, from the text on either side of its last `=`. */
  lemma BodyFromParts(a: string, c: string, open: bool)
    requires '=' !in c && SingleNames(a).None? && (!open ==> !CloseLike(a + "=" + c)) && Trim(c) != ""
    ensures OuterOfBody(a + "=" + c, open) == Rule(Trim(a), Trim(c), open)
  {
    var q := a + ['='] + c;
    assert q == a + "=" + c;
    RFindIs(a, '=', c);
    assert q[..|a|] == a && q[|a| + 1..] == c;
  }

  // ----- a value with a brace after it

  lemma BraceSwap(lead: string, a: string, u: string, c: char, g: string, t: string, cpus: string) returns (w: string, z: string)
    requires Blank(lead) && Core(a + "=" + u + [c] + g) && Tail(t) && '=' !in u && '=' !in g
    requires c in {'{', '}'} && NoBrace(Trim(u)) && CpuText(cpus)
    ensures SpecSwap(lead + (a + "=" + u + [c] + g) + t, cpus)
              == lead + (a + "=" + (w + cpus) + z + [c]) + (Breaks(g + Gap(t)) + Comment(t))
    ensures Blank(w) && Blank(z)
  {
    hide SpecSwap, SwapIn, Core, Tail, Trim, CpuText, Breaks, Blank;
    SwapOfShape(lead, a + "=" + u + [c] + g, t, cpus);
    TrimmedNoBrace(u);
    GapNoEq(g, t);
    w, z := SwapBrace(lead + a, u, c, g + Gap(t), Comment(t), cpus);
    Ungroup(lead, a, u, c, g, Gap(t));
    RegroupBrace(lead, a, w, cpus, z, c, Breaks(g + Gap(t)), Comment(t));
  }

  lemma Ungroup(lead: string, a: string, u: string, c: char, g: string, y: string)
    ensures lead + (a + "=" + u + [c] + g) + y == (lead + a) + "=" + u + [c] + (g + y)
  {
  }

  lemma GapNoEq(g: string, t: string)
    requires '=' !in g
    ensures '=' !in g + Gap(t)
  {
    assert forall c | c in Gap(t) :: IsWs(c);
  }

  lemma RegroupBrace(lead: string, a: string, w: string, cpus: string, z: string, c: char, y: string, k: string)
    ensures (lead + a) + "=" + w + cpus + z + [c] + y + k == lead + (a + "=" + (w + cpus) + z + [c]) + (y + k)
  {
  }

  lemma SwapOpenInline(raw: string, pkg: string, cp: string, cpus: string)
    requires Classify(raw).Text? && Classify(raw).outer == Rule(pkg, cp, true) && pkg != ""
    requires NoBrace(cp) && CpuText(cpus)
    ensures Classify(SpecSwap(raw, cpus)).Text? && Classify(SpecSwap(raw, cpus)).outer == Rule(pkg, cpus, true)
  {
    var lead, q, t := ShapeOf(raw);
    ReadShape(lead, q, t);
    var a, b, g := OpenRuleAtEq(q, pkg, cp);
    TrimBack(b, g);
    BlankNoEq(g);
    var w, z := BraceSwap(lead, a, b + g, '{', "", t, cpus);
    BraceTail(t);
    OpenInlineCore(a, b, g, w, z, cpus, pkg, cp);
    ReadShape(lead, a + "=" + (w + cpus) + z + ['{'], Breaks("" + Gap(t)) + Comment(t));
  }

  lemma OpenRuleAtEq(q: string, pkg: string, cp: string) returns (a: string, b: string, g: string)
    requires ParseOuterCore(q) == Rule(pkg, cp, true)
    ensures q == a + "=" + (b + g) + ['{'] + "" && Blank(g) && '=' !in b && Trim(a) == pkg && Trim(b) == cp
    ensures OuterOfBody(a + "=" + b, true) == Rule(pkg, cp, true)
  {
    var body;
    body, g := BodyAndGap(q);
    a, b := RuleAtEq(body, pkg, cp);
    RegroupOpen(a, b, g);
  }

  lemma RegroupOpen(a: string, b: string, g: string)
    ensures (a + "=" + b) + g + ['{'] == a + "=" + (b + g) + ['{'] + ""
  {
  }

  lemma BodyAndGap(q: string) returns (body: string, g: string)
    requires Opens(q)
    ensures body == OpenBody(q) && Blank(g) && q == body + g + ['{']
  {
    var p := q[..|q| - 1];
    body := TrimEnd(p);
    BodyFacts(p);
    g := p[|body|..];
    assert p == body + g && q == p + ['{'];
  }

  lemma BraceTail(t: string)
    requires Tail(t)
    ensures Tail(Breaks("" + Gap(t)) + Comment(t))
  {
    assert "" + Gap(t) == Gap(t);
    BreaksOfBlank(Gap(t));
    TailJoin(Gap(t), Comment(t));
  }

  lemma {:induction false} BreaksOfBlank(s: string)
    requires Blank(s)
    ensures Breaks(s) == s
  {
    if s != "" {
      BreaksOfBlank(s[1..]);
    }
  }

  lemma TrimBack(b: string, g: string)
    requires Blank(g) && Trim(b) != ""
    ensures Trim(b + g) == Trim(b)
  {
    var l, r := TrimSplit(b);
    assert b + g == l + Trim(b) + (r + g);
    TrimIs(l, Trim(b), r + g);
  }

  lemma OpenInlineCore(a: string, b: string, g: string, w: string, z: string, cpus: string, pkg: string, cp: string)
    requires Core(a + "=" + (b + g) + ['{'] + "") && OuterOfBody(a + "=" + b, true) == Rule(pkg, cp, true)
    requires '=' !in b && Trim(a) == pkg && pkg != "" && Blank(w) && Blank(z) && CpuText(cpus)
    ensures Core(a + "=" + (w + cpus) + z + ['{'])
    ensures ParseOuterCore(a + "=" + (w + cpus) + z + ['{']) == Rule(pkg, cpus, true)
  {
    assert a + "=" + (b + g) + ['{'] + "" == a + "=" + (b + g + ['{']);
    FrontOf(a, b + g + ['{']);
    ValueFacts(w, cpus);
    ValueCore(a, w, cpus);
    var body := a + "=" + (w + cpus);
    OpenLineCore(body, z);
    OpenBodyOf(body, z);
    NoSingleLeft(a, b, true);
    BodyFromParts(a, w + cpus, true);
    assert body + z + ['{'] == body + z + "{";
  }

  // ----- an entry that also closes its block

  /** No `=` stands after the brace that closes the block: otherwise `spec_swap`,
      which looks for the last `=`, rewrites the text after the brace. */
  predicate TidyClose(raw: string)
  {
    var q := StripComment(Trim(raw));
    match CloserFrom(q, 0)
    case Some(cb) => '=' !in q[cb..]
    case None => true
  }

  lemma SwapClosedEntry(raw: string, name: string, cp: string, cpus: string)
    requires Classify(raw).Text? && Classify(raw).inner == Entry(name, cp, true) && TidyClose(raw)
    requires NoBrace(cp) && CpuText(cpus)
    ensures Classify(SpecSwap(raw, cpus)).Text? && Classify(SpecSwap(raw, cpus)).inner == Entry(name, cpus, true)
  {
    var lead, q, t := ShapeOf(raw);
    ReadShape(lead, q, t);
    var a, u, g := ClosedAt(q, name, cp);
    ClosedSwap(lead, a, u, g, t, cpus, name);
  }

  lemma ClosedSwap(lead: string, a: string, u: string, g: string, t: string, cpus: string, name: string)
    requires Blank(lead) && Core(a + "=" + u + ['}'] + g) && Tail(t) && '=' !in u && '=' !in g
    requires !CloseLike(a + "=" + u + ['}'] + g) && Trim(a) == name && name != "" && CloserFrom(a, 0).None?
    requires NoBrace(Trim(u)) && CpuText(cpus)
    ensures var out := SpecSwap(lead + (a + "=" + u + ['}'] + g) + t, cpus);
            Classify(out).Text? && Classify(out).inner == Entry(name, cpus, true)
  {
    var w, z := BraceSwap(lead, a, u, '}', g, t, cpus);
    var b := Breaks(g + Gap(t));
    var r, y := TrimBreaks(g + Gap(t));
    ClosedCore(a, u, g, w, z, r, cpus, name);
    TailJoin(y, Comment(t));
    RegroupClosed(lead, a, w + cpus, z, r, y, Comment(t));
    ReadShape(lead, a + "=" + (w + cpus + z + ['}'] + r), y + Comment(t));
  }

  lemma TrimBreaks(s: string) returns (r: string, y: string)
    ensures Breaks(s) == r + y && Blank(y) && (forall i | 0 <= i < |r| :: IsBreak(r[i])) && (r != "" ==> !IsWs(r[|r| - 1]))
  {
    var b := Breaks(s);
    BreaksOnly(s);
    BodyFacts(b);
    r, y := b[..BodyLen(b)], b[BodyLen(b)..];
  }

  lemma RegroupClosed(lead: string, a: string, v: string, z: string, r: string, y: string, k: string)
    ensures lead + (a + "=" + v + z + ['}']) + ((r + y) + k) == lead + (a + "=" + (v + z + ['}'] + r)) + (y + k)
  {
  }

  lemma ClosedAt(q: string, name: string, cp: string) returns (a: string, u: string, g: string)
    requires SplitRuleCore(q) == Some(RuleLine(name, cp, true)) && CloserFrom(q, 0).Some?
    requires '=' !in q[CloserFrom(q, 0).value..]
    ensures q == a + "=" + u + ['}'] + g && '=' !in u && '=' !in g
    ensures Trim(a) == name && Trim(u) == cp && CloserFrom(a, 0).None?
  {
    var cb := CloserFrom(q, 0).value;
    a, u := KvAt(q[..cb]);
    g := q[cb + 1..];
    assert q == q[..cb] + ['}'] + g;
    NoCloserBefore(q, cb, a);
    NotInRest(q, cb);
  }

  lemma KvAt(s: string) returns (a: string, u: string)
    requires Kv(s).Some?
    ensures s == a + "=" + u && '=' !in u && Kv(s) == Some(KeyValue(Trim(a), Trim(u)))
  {
    RFindFacts(s, '=');
    a, u := AtLastEq(s);
    KvOf(a, u);
  }

  lemma NotInRest(q: string, cb: nat)
    requires cb < |q| && '=' !in q[cb..]
    ensures '=' !in q[cb + 1..]
  {
    assert q[cb..] == [q[cb]] + q[cb + 1..];
  }

  lemma NoCloserBefore(q: string, cb: nat, a: string)
    requires CloserFrom(q, 0) == Some(cb) && a <= q[..cb]
    ensures CloserFrom(a, 0).None?
  {
    CloserFacts(q, 0);
    forall i | 0 <= i < |a| ensures !Closer(a, i) {
      assert !Closer(q, i);
      assert q[..i] == a[..i];
    }
    CloserNone(a);
  }

  lemma ClosedCore(a: string, u: string, g: string, w: string, z: string, r: string, cpus: string, name: string)
    requires Core(a + "=" + u + ['}'] + g) && !CloseLike(a + "=" + u + ['}'] + g)
    requires Trim(a) == name && name != "" && CloserFrom(a, 0).None?
    requires Blank(w) && Blank(z) && CpuText(cpus)
    requires (forall i | 0 <= i < |r| :: IsBreak(r[i])) && (r != "" ==> !IsWs(r[|r| - 1]))
    ensures var q := a + "=" + (w + cpus + z + ['}'] + r);
            Core(q) && !CloseLike(q) && SplitRuleCore(q) == Some(RuleLine(name, cpus, true))
  {
    var x := w + cpus + z + ['}'] + r;
    var q := a + "=" + x;
    assert a + "=" + u + ['}'] + g == a + "=" + (u + ['}'] + g);
    FrontOf(a, u + ['}'] + g);
    SameClose(a, u + ['}'] + g, x);
    ValueChars(w, cpus, z, r);
    NoMarkIn(x);
    CoreJoin(a, '=', x);
    assert q == a + ['='] + x;
    ClosedSplit(a, w, cpus, z, r);
  }

  lemma ValueChars(w: string, cpus: string, z: string, r: string)
    requires Blank(w) && Blank(z) && CpuText(cpus)
    requires (forall i | 0 <= i < |r| :: IsBreak(r[i])) && (r != "" ==> !IsWs(r[|r| - 1]))
    ensures var x := w + cpus + z + ['}'] + r;
            (forall i | 0 <= i < |x| :: x[i] !in {'#', '/'}) && !IsWs(x[|x| - 1])
  {
    var v := w + cpus + z;
    var x := v + ['}'] + r;
    forall i | 0 <= i < |x| ensures x[i] !in {'#', '/'} {
      if i < |v| {
        assert x[i] == if i < |w| then w[i] else if i < |w| + |cpus| then cpus[i - |w|] else z[i - |w| - |cpus|];
      } else if i > |v| {
        assert x[i] == r[i - |v| - 1];
      }
    }
    assert x[|x| - 1] == if r == "" then '}' else r[|r| - 1];
  }

  lemma ClosedSplit(a: string, w: string, cpus: string, z: string, r: string)
    requires Trim(a) != "" && CloserFrom(a, 0).None? && Blank(w) && Blank(z) && CpuText(cpus)
    ensures SplitRuleCore(a + "=" + (w + cpus + z + ['}'] + r)) == Some(RuleLine(Trim(a), cpus, true))
  {
    var v := w + cpus + z;
    var q := a + "=" + (v + ['}'] + r);
    var cb := |a| + 1 + |v|;
    ValueFacts(w, cpus);
    TrimBack(w + cpus, z);
    NoCloserValue(w, cpus, z);
    assert q[..cb] == a + "=" + v && q[cb] == '}';
    KvOf(a, v);
    CloserFacts(a, 0);
    FirstCloser(a, v, r);
    hide CloserFrom, Kv, Trim, CpuText, Blank;
    CloserIs(q, cb);
  }

  lemma FirstCloser(a: string, v: string, r: string)
    requires forall i | 0 <= i < |a| :: !Closer(a, i)
    requires forall i | 0 <= i < |v| :: v[i] != '}'
    ensures var q := a + "=" + (v + ['}'] + r); forall i | 0 <= i < |a| + 1 + |v| :: !Closer(q, i)
  {
    hide Kv;
    var q := a + "=" + (v + ['}'] + r);
    forall i | 0 <= i < |a| + 1 + |v| ensures !Closer(q, i) {
      if i < |a| {
        assert !Closer(a, i);
        assert q[..i] == a[..i];
      } else if i > |a| {
        assert q[i] == v[i - |a| - 1];
      }
    }
  }

  lemma NoCloserValue(w: string, cpus: string, z: string)
    requires Blank(w) && Blank(z) && CpuText(cpus)
    ensures var v := w + cpus + z; '=' !in v && forall i | 0 <= i < |v| :: v[i] != '}'
  {
    var v := w + cpus + z;
    forall i | 0 <= i < |v| ensures v[i] != '=' && v[i] != '}' {
      assert v[i] == if i < |w| then w[i] else if i < |w| + |cpus| then cpus[i - |w|] else z[i - |w| - |cpus|];
    }
  }

  // ----- text behind a closing brace

  /** Where `spec_swap` is handed an entry with a `=` behind its closing brace, the rule
      keeps its old CPUs. */
  lemma UntidySwap(raw: string, name: string, cp: string, cpus: string)
    requires Classify(raw).Text? && Classify(raw).inner == Entry(name, cp, true) && !TidyClose(raw)
    ensures Classify(SpecSwap(raw, cpus)).Text? && Classify(SpecSwap(raw, cpus)).inner == Entry(name, cp, true)
  {
    hide Classify, Tail, Core, SpecSwap;
    NotSkippedText(raw);
    var lead, q, t := ShapeOf(raw);
    ReadShape(lead, q, t);
    var cb := CloserFrom(q, 0).value;
    var rest := SwapBehind(lead, q, t, cpus, cb);
    ClosedFirst(lead, q, cb, rest, name, cp);
  }

  /** The swap leaves the text up to the closing brace alone. */
  lemma SwapBehind(lead: string, q: string, t: string, cpus: string, cb: nat) returns (rest: string)
    requires Blank(lead) && Core(q) && Tail(t) && cb < |q| && '=' in q[cb..]
    ensures q[cb] == '}' ==> SpecSwap(lead + q + t, cpus) == lead + (q[..cb + 1] + rest)
  {
    hide Tail, Core, CommentAt, SpecSwap;
    SwapOfShape(lead, q, t, cpus);
    var s := lead + q + Gap(t);
    var n := |lead| + cb + 1;
    assert s[..n] == lead + q[..cb + 1];
    var k :| cb <= k < |q| && q[k] == '=';
    assert s[|lead| + k] == '=';
    rest := SwapAfter(s, Comment(t), cpus, n, |lead| + k);
    assert lead + q[..cb + 1] + rest == lead + (q[..cb + 1] + rest);
  }

  lemma SwapAfter(s: string, comment: string, cpus: string, n: nat, k: nat) returns (rest: string)
    requires n <= k + 1 <= |s| && s[k] == '='
    ensures SwapIn(s, comment, cpus) == s[..n] + rest
  {
    RFindFacts(s, '=');
    hide RFind, LeadFrom, BreakFrom, Breaks;
    var eq := RFind(s, '=');
    var from := LeadFrom(s, eq + 1);
    rest := s[n..from] + cpus + Breaks(s[BreakFrom(s, from)..]) + comment;
    assert s[..from] == s[..n] + s[n..from];
  }

  /** The first closing brace decides how a block line is read. */
  lemma ClosedFirst(lead: string, q: string, cb: nat, rest: string, name: string, cp: string)
    requires Blank(lead) && Core(q) && CloserFrom(q, 0) == Some(cb) && Kv(q[..cb]) == Some(KeyValue(name, cp))
    requires !CloseLike(q)
    ensures var c := Classify(lead + (q[..cb + 1] + rest)); c.Text? && c.inner == Entry(name, cp, true)
  {
    hide Trim, StripComment, Kv, Core;
    var p := Trim(lead + (q[..cb + 1] + rest));
    CoreEnds(q);
    TrimKeeps(lead, q[..cb + 1], rest);
    KvNeedsName(q[..cb]);
    assert p[..cb + 1] == q[..cb + 1];
    SameStart(p, q, cb);
    StripKeeps(p, q, cb);
    SameCloser(StripComment(p), q, cb);
  }

  lemma CoreEnds(q: string)
    requires Core(q)
    ensures q != "" && !IsWs(q[0]) && !MarkChar(q, 0)
  {
  }

  lemma SameStart(p: string, q: string, cb: nat)
    requires 2 <= cb < |q| && cb < |p| && p[..cb + 1] == q[..cb + 1] && q != "" && !MarkChar(q, 0)
    ensures CloseLike(p) == CloseLike(q) && !Skipped(p)
  {
    assert p[0] == p[..cb + 1][0] == q[0];
    assert p[1] == p[..cb + 1][1] == q[1];
    assert p[2] == p[..cb + 1][2] == q[2];
  }

  lemma SameCloser(x: string, q: string, cb: nat)
    requires CloserFrom(q, 0) == Some(cb) && |x| > cb && x[..cb + 1] == q[..cb + 1]
    ensures CloserFrom(x, 0) == Some(cb) && x[..cb] == q[..cb]
  {
    hide Kv;
    CloserFacts(q, 0);
    forall i | 0 <= i <= cb ensures x[..i] == q[..i] && x[i] == q[i] && Closer(x, i) == Closer(q, i) {
      assert x[..cb + 1][..i] == q[..cb + 1][..i];
      assert x[..cb + 1][i] == q[..cb + 1][i];
    }
    CloserIs(x, cb);
  }

  lemma KvNeedsName(s: string)
    requires Kv(s).Some?
    ensures |s| >= 2
  {
    RFindFacts(s, '=');
    TrimBlank("");
  }

  lemma TrimKeeps(lead: string, a: string, rest: string)
    requires Blank(lead) && a != "" && !IsWs(a[0]) && !IsWs(a[|a| - 1])
    ensures var p := Trim(lead + (a + rest)); |p| >= |a| && p[..|a|] == a
  {
    var y := a + rest;
    LeadLenIs(lead, y);
    BodyFacts(y);
    assert y[|a| - 1] == a[|a| - 1];
  }

  lemma StripKeeps(p: string, q: string, cb: nat)
    requires Core(q) && cb < |q| && |p| > cb && p[..cb + 1] == q[..cb + 1] && q[cb] == '}'
    ensures var x := StripComment(p); |x| > cb && x[..cb + 1] == q[..cb + 1]
  {
    forall i | 0 <= i <= cb ensures p[i] == q[i] {
      assert p[..cb + 1][i] == q[..cb + 1][i];
    }
    MarkFacts(p, 0);
    forall i | 0 <= i <= cb ensures !CommentMark(p, i) {
      assert !CommentMark(q, i);
    }
    match MarkFrom(p, 0) {
      case None =>
      case Some(m) =>
        BodyFacts(p[..m]);
        assert p[..m][cb] == '}';
        assert StripComment(p) == p[..m][..BodyLen(p[..m])];
    }
  }

  /** The CPUs a block line has after the swap: the new ones, unless it closes its block and
      is untidy. */
  function SwappedTo(raw: string, cpus: string): string
  {
    var c := Classify(raw);
    if c.Text? && c.inner.Entry? && c.inner.closed && !TidyClose(raw) then c.inner.cpus else cpus
  }

  /** The swap of any thread line in a block. */
  lemma SwapAnyEntry(raw: string, name: string, cp: string, closed: bool, cpus: string)
    requires Classify(raw).Text? && Classify(raw).inner == Entry(name, cp, closed) && NoBrace(cp) && CpuText(cpus)
    ensures Classify(SpecSwap(raw, cpus)).Text?
    ensures Classify(SpecSwap(raw, cpus)).inner == Entry(name, SwappedTo(raw, cpus), closed)
  {
    hide Classify, SpecSwap, TidyClose, CpuText;
    if !closed {
      SwapEntry(raw, name, cp, cpus);
    } else if TidyClose(raw) {
      SwapClosedEntry(raw, name, cp, cpus);
    } else {
      UntidySwap(raw, name, cp, cpus);
    }
  }
}
