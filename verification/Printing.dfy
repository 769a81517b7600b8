/** The lines the rule editor prints, and how the grammar reads them back. */
module Printing {
  import opened Base
  import opened Text
  import opened Lines
  import opened Syntax
  import opened Shapes

  // ----- what the editor prints

  function BareOpenLine(pkg: string): string
  {
    if '=' in pkg then pkg + "= {" else pkg + " {"
  }

  function WithComment(line: string, was: string): string
  {
    match CommentAt(was)
    case Some(at) => line + was[at..]
    case None => line
  }

  function EntryText(thread: string, cpus: string): string
  {
    "\t" + thread + "=" + cpus
  }

  /** A replacement line keeps the old line's comment. */
  lemma WithCommentShape(line: string, lead: string, q: string, t: string)
    requires Blank(lead) && Core(q) && Tail(t)
    ensures WithComment(line, lead + q + t) == line + (if Blank(t) then "" else t)
  {
    CommentAtShape(lead, q, t);
    assert (lead + q + t)[|lead| + |q|..] == t;
  }

  // ----- printed cores

  /** The shape of a CPU text `add_rule` takes. */
  predicate CpuText(s: string)
  {
    Trimmed(s) && forall i | 0 <= i < |s| :: s[i] !in {'=', '{', '}', '#', '/'}
  }

  /** A thread name that can be printed on a line of its own. */
  predicate EntrySafe(th: string)
  {
    Core(th) && !CloseLike(th + "=") && CloserFrom(th, 0).None?
  }

  /** A package name that can be printed as a header. */
  predicate PkgSafe(pkg: string)
  {
    Core(pkg) && !CloseLike(pkg) && ('{' in pkg ==> pkg[|pkg| - 1] != '}')
  }

  lemma SafeName(pkg: string)
    requires PkgSafe(pkg)
    ensures pkg != ""
  {
  }

  lemma NoMarkIn(s: string)
    requires forall i | 0 <= i < |s| :: s[i] !in {'#', '/'}
    ensures NoMark(s)
  {
  }

  /** Text after a character that is not white space starts no comment. */
  lemma NoMarkJoin(a: string, c: char, b: string)
    requires NoMark(a) && NoMark(b) && !IsWs(c) && c !in {'#', '/'}
    ensures NoMark(a + [c] + b)
  {
    var s := a + [c] + b;
    forall i | 0 <= i < |s| ensures !CommentMark(s, i) {
      if i < |a| {
        assert !CommentMark(a, i);
      } else if i > |a| + 1 {
        var k := i - |a| - 1;
        assert !CommentMark(b, k);
        assert s[i] == b[k] && s[i - 1] == b[k - 1] && (k + 1 < |b| ==> s[i + 1] == b[k + 1]);
      }
    }
  }

  /** The beginning of a core. */
  predicate Front(a: string)
  {
    a != "" && !IsWs(a[0]) && NoMark(a) && !MarkChar(a, 0)
  }

  lemma CoreJoin(a: string, c: char, b: string)
    requires Front(a) && NoMark(b) && !IsWs(c) && c !in {'#', '/'}
    requires b != "" ==> !IsWs(b[|b| - 1])
    ensures Core(a + [c] + b)
  {
    var s := a + [c] + b;
    NoMarkJoin(a, c, b);
    assert s[0] == a[0] && (|a| > 1 ==> s[1] == a[1]) && (|a| == 1 ==> s[1] == c);
    assert s[|s| - 1] == if b == "" then c else b[|b| - 1];
  }

  lemma KvOf(a: string, b: string)
    requires '=' !in b
    ensures Kv(a + "=" + b) == if Trim(a) == "" then None else Some(KeyValue(Trim(a), Trim(b)))
  {
    var s := a + ['='] + b;
    assert s == a + "=" + b;
    RFindIs(a, '=', b);
    assert s[..|a|] == a && s[|a| + 1..] == b;
  }

  /** The last `=` splits any text that has one. */
  lemma AtLastEq(s: string) returns (a: string, b: string)
    requires '=' in s
    ensures s == a + "=" + b && '=' !in b && |a| == RFind(s, '=')
  {
    RFindFacts(s, '=');
    var k := RFind(s, '=');
    a, b := s[..k], s[k + 1..];
  }

  /** Braces before the `=`: the same search as in the name alone. */
  lemma CloserInName(a: string, b: string)
    requires '}' !in b && '=' !in b && CloserFrom(a, 0).None?
    ensures CloserFrom(a + "=" + b, 0).None?
  {
    var s := a + "=" + b;
    forall i | |a| <= i < |s| ensures s[i] != '}' {
      assert i > |a| ==> s[i] in b;
    }
    CloserFacts(a, 0);
    forall i | 0 <= i < |s| ensures !Closer(s, i) {
      if i < |a| {
        assert !Closer(a, i);
        assert s[..i] == a[..i];
      }
    }
    CloserNone(s);
  }

  /** A printed thread line reads back as that thread and that CPU text. */
  lemma EntryCore(th: string, cp: string)
    requires EntrySafe(th) && CpuText(cp)
    ensures var q := th + "=" + cp;
            && Core(q) && !CloseLike(q)
            && SplitRuleCore(q) == Some(RuleLine(th, cp, false))
            && !Opens(q)
  {
    var q := th + ['='] + cp;
    assert q == th + "=" + cp;
    NoMarkIn(cp);
    CoreJoin(th, '=', cp);
    NoCloseLike(th, "=" + cp);
    CloserInName(th, cp);
    KvOf(th, cp);
    TrimTrimmed(th);
    TrimTrimmed(cp);
    assert q[|q| - 1] == cp[|cp| - 1];
  }

  /** Whether a name starts like a closing brace shows in the name and the next character. */
  lemma NoCloseLike(a: string, b: string)
    requires a != "" && b != "" && b[0] == '='
    ensures CloseLike(a + b) == CloseLike(a + "=")
  {
    var s, r := a + b, a + "=";
    assert s[0] == r[0] && s[1] == r[1];
    assert |a| > 1 ==> |s| > 2 && s[2] == r[2];
  }

  lemma CloseCore()
    ensures Core("}") && CloseLike("}") && ParseOuterCore("}") == Junk
  {
    RFindNone("}", '=');
  }

  lemma SingleNeedsEq(body: string)
    requires '=' !in body
    ensures SplitSingleLine(body).None? && RFind(body, '=') == -1
  {
    RFindFacts(body, '=');
  }

  /** A safe package name before the last `=` is not a single-line rule. */
  lemma NotSingle(pkg: string, ws: string, b: string)
    requires PkgSafe(pkg) && Blank(ws) && '=' !in b
    ensures SplitSingleLine(pkg + ws + "=" + b).None?
    ensures RFind(pkg + ws + "=" + b, '=') == |pkg + ws|
    ensures Trim(pkg + ws) == pkg
  {
    var s := (pkg + ws) + ['='] + b;
    assert s == pkg + ws + "=" + b;
    RFindIs(pkg + ws, '=', b);
    assert s[..|pkg + ws|] == pkg + ws;
    assert "" + pkg + ws == pkg + ws;
    TrimIs("", pkg, ws);
    NotNames(pkg, ws);
    hide Trim, RFind, SingleNames, PkgSafe;
  }

  lemma NotNames(pkg: string, ws: string)
    requires PkgSafe(pkg) && Blank(ws)
    ensures SingleNames(pkg + ws).None?
  {
    BodyLenIs(pkg, ws);
    assert TrimEnd(pkg + ws) == pkg;
    if pkg[|pkg| - 1] == '}' {
      NoBraceBefore(pkg);
    }
    hide TrimEnd, Trim, Find, PkgSafe;
  }

  lemma NoBraceBefore(pkg: string)
    requires PkgSafe(pkg) && pkg[|pkg| - 1] == '}'
    ensures Find(TrimEnd(pkg[..|pkg| - 1]), '{') == -1
  {
    var left := TrimEnd(pkg[..|pkg| - 1]);
    FindFacts(left, '{');
    forall i | 0 <= i < |left| ensures left[i] != '{' {
      assert left[i] == pkg[i] && pkg[i] in pkg;
    }
  }

  /** An opening line taken apart. */
  lemma OpenBodyOf(body: string, ws: string)
    requires Blank(ws) && (body == "" || !IsWs(body[|body| - 1]))
    ensures var p := body + ws + "{"; Opens(p) && OpenBody(p) == body
  {
    var p := body + ws + "{";
    assert p[..|p| - 1] == body + ws;
    BodyLenIs(body, ws);
  }

  lemma BareOpenCore(pkg: string)
    requires PkgSafe(pkg)
    ensures Core(BareOpenLine(pkg)) && ParseOuterCore(BareOpenLine(pkg)) == BareOpen(pkg)
  {
    var q := BareOpenLine(pkg);
    NoMarkIn(" {");
    if '=' in pkg {
      assert q == pkg + ['='] + " {" == (pkg + "=") + " " + "{";
      CoreJoin(pkg, '=', " {");
      OpenBodyOf(pkg + "=", " ");
      NotSingle(pkg, "", "");
      assert pkg + "" + "=" + "" == pkg + "=" && pkg + "" == pkg;
      assert (pkg + "=")[..|pkg|] == pkg && (pkg + "=")[|pkg| + 1..] == "";
      TrimTrimmed(pkg);
    } else {
      assert q == pkg + " " + "{";
      OpenBodyOf(pkg, " ");
      SingleNeedsEq(pkg);
      OpenLineCore(pkg, " ");
    }
  }

  /** A name, white space, and a brace: still a core. */
  lemma OpenLineCore(q: string, ws: string)
    requires Core(q) && Blank(ws)
    ensures Core(q + ws + "{")
  {
    var s := q + ws + "{";
    forall i | 0 <= i < |s| ensures !CommentMark(s, i) {
      if i < |q| {
        assert !CommentMark(q, i);
        assert i + 1 == |q| ==> s[i + 1] != '/';
      } else if i < |q| + |ws| {
        assert s[i] == ws[i - |q|];
      }
    }
    assert s[0] == q[0] && (|q| > 1 ==> s[1] == q[1]) && s[|s| - 1] == '{';
    assert |q| == 1 ==> s[1] != '/';
  }

  /** The text of a package-level rule. */
  function HeaderText(pkg: string, cpus: string, open: bool): string
  {
    pkg + "=" + cpus + (if open then " {" else "")
  }

  /** The body of a package-level rule. */
  lemma HeaderBody(pkg: string, cpus: string, open: bool)
    requires PkgSafe(pkg) && CpuText(cpus)
    ensures var body := pkg + "=" + cpus;
            Core(body) && !Opens(body) && OuterOfBody(body, open) == Rule(pkg, cpus, open)
  {
    hide RFind, Trim, SplitSingleLine;
    var body := pkg + ['='] + cpus;
    assert body == pkg + "" + "=" + cpus && pkg + "" == pkg;
    NoMarkIn(cpus);
    CoreJoin(pkg, '=', cpus);
    NotSingle(pkg, "", cpus);
    assert body[..|pkg|] == pkg && body[|pkg| + 1..] == cpus;
    TrimTrimmed(pkg);
    TrimTrimmed(cpus);
    assert body[|body| - 1] == cpus[|cpus| - 1];
    NoClosing(pkg, cpus);
  }

  lemma NoClosing(pkg: string, cpus: string)
    requires PkgSafe(pkg)
    ensures !CloseLike(pkg + "=" + cpus)
  {
    var s := pkg + "=" + cpus;
    assert s[0] == pkg[0] && (|pkg| > 1 ==> s[1] == pkg[1]) && (|pkg| > 2 ==> s[2] == pkg[2]);
    assert |pkg| == 1 ==> s[1] == '=';
    assert |pkg| == 2 ==> s[2] == '=';
  }

  lemma HeaderCore(pkg: string, cpus: string, open: bool)
    requires PkgSafe(pkg) && CpuText(cpus)
    ensures Core(HeaderText(pkg, cpus, open)) && ParseOuterCore(HeaderText(pkg, cpus, open)) == Rule(pkg, cpus, open)
  {
    hide PkgSafe, OuterOfBody, Trim, NoMark;
    var body := pkg + "=" + cpus;
    HeaderBody(pkg, cpus, open);
    if open {
      assert HeaderText(pkg, cpus, true) == body + " " + "{";
      OpenBodyOf(body, " ");
      OpenLineCore(body, " ");
    } else {
      assert HeaderText(pkg, cpus, false) == body;
    }
  }

  /** A brace added to a package-level rule without a comment opens its block. */
  lemma OpenedHeader(q: string, pkg: string, cpus: string)
    requires Core(q) && ParseOuterCore(q) == Rule(pkg, cpus, false)
    ensures Core(q + " {") && ParseOuterCore(q + " {") == Rule(pkg, cpus, true)
  {
    assert q + " {" == q + " " + "{";
    OpenBodyOf(q, " ");
    OpenLineCore(q, " ");
    SameBody(q + " " + "{", q, pkg, cpus);
  }

  lemma SameBody(p: string, q: string, pkg: string, cpus: string)
    requires Opens(p) && OpenBody(p) == q && ParseOuterCore(q) == Rule(pkg, cpus, false)
    ensures ParseOuterCore(p) == Rule(pkg, cpus, true)
  {
  }
}
