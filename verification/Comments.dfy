/** What the edits leave of the comments on the lines they rewrite. */
module Comments {
  import opened Base
  import opened Text
  import opened Lines
  import opened Syntax
  import opened Shapes
  import opened Printing
  import opened Swapping
  import opened Normalizing
  import opened Renaming
  import opened RenamedLines

  /** The comment of a line, from its mark on. */
  function Remark(raw: string): string
  {
    match MarkFrom(raw, 0)
    case Some(m) => raw[m..]
    case None => ""
  }

  lemma RemarkIs(s: string, m: nat)
    requires m < |s| && CommentMark(s, m) && forall i | 0 <= i < m :: !CommentMark(s, i)
    ensures MarkFrom(s, 0) == Some(m) && Remark(s) == s[m..]
  {
    hide CommentMark;
    MarkFacts(s, 0);
  }

  lemma NoRemark(s: string)
    requires forall i | 0 <= i < |s| :: !CommentMark(s, i)
    ensures Remark(s) == ""
  {
    hide CommentMark;
    MarkFacts(s, 0);
  }

  /** Text that ends in front of a comment, put in front of another one. */
  lemma RemarkMoves(raw: string, p: string)
    requires forall i | 0 <= i < |p| :: !CommentMark(p + raw[Cut(raw)..], i)
    ensures Remark(p + raw[Cut(raw)..]) == Remark(raw)
  {
    hide BodyLen;
    var cut := Cut(raw);
    var s := p + raw[cut..];
    MarkFacts(raw, 0);
    match MarkFrom(raw, 0) {
      case Some(m) =>
        BodyFacts(raw[..m]);
        assert cut < m;
        var n := |p| + (m - cut);
        forall i | |p| <= i <= n ensures CommentMark(s, i) <==> i == n {
          var k := cut + (i - |p|);
          assert s[i] == raw[k];
          if i < n {
            assert raw[..m][k] == raw[k];
          } else {
            assert s[i - 1] == raw[m - 1];
            assert i + 1 < |s| ==> s[i + 1] == raw[m + 1];
          }
        }
        RemarkIs(s, n);
        assert s[n..] == raw[m..];
      case None =>
        assert s == p;
        NoRemark(s);
    }
  }

  /** Where the white space in front of the comment begins, or the end of the line. */
  function Cut(raw: string): (n: nat)
    ensures n <= |raw|
  {
    match CommentAt(raw) case Some(at) => at case None => |raw|
  }

  // ----- the two marks

  lemma MarkedTail(ws: string, mark: string, rest: string)
    requires Blank(ws) && mark in {"#", "//"}
    ensures LeadLen(ws + mark + rest) == |ws| && MarkChar(ws + mark + rest, |ws|)
  {
    var t := ws + mark + rest;
    assert t[|ws|] == mark[0] && (|mark| > 1 ==> t[|ws| + 1] == mark[1]);
    forall i | 0 <= i < |ws| ensures IsWs(t[i]) {
      assert t[i] == ws[i];
    }
    LeadFacts(t);
  }

  /** `#` and `//` begin a comment, at the start of a line or behind white space. */
  lemma TwoMarks(lead: string, q: string, ws: string, mark: string, rest: string)
    requires Blank(lead) && Core(q) && Blank(ws) && ws != "" && mark in {"#", "//"}
    ensures var c := Classify(lead + q + (ws + mark + rest)); c.Text? && c.outer == ParseOuterCore(q)
    ensures Classify(lead + mark + rest).Skip?
  {
    hide Core, ParseOuterCore, Trim, LeadLen, MarkChar;
    MarkedTail(ws, mark, rest);
    ReadShape(lead, q, ws + mark + rest);
    MarkedTail(lead, mark, rest);
    SkipMarked(lead, mark, rest);
  }

  lemma SkipMarked(lead: string, mark: string, rest: string)
    requires Blank(lead) && mark in {"#", "//"} && LeadLen(lead + mark + rest) == |lead|
    ensures Skipped(Trim(lead + mark + rest))
  {
    hide BodyLen;
    var s := lead + mark + rest;
    var u := TrimStart(s);
    assert u == mark + rest;
    BodyFacts(u);
    var n := BodyLen(u);
    assert n >= |mark| by {
      assert u[|mark| - 1] == mark[|mark| - 1];
    }
    assert u[..n][0] == mark[0] && (|mark| > 1 ==> u[..n][1] == mark[1]);
  }

  /** Nothing else does. */
  lemma NoOtherMark(s: string)
    requires '#' !in s && forall i | 0 < i < |s| :: !(s[i - 1] == '/' && s[i] == '/')
    ensures StripComment(s) == s && !MarkChar(s, 0)
  {
    forall i | 0 <= i < |s| ensures !CommentMark(s, i) {
      assert s[i] != '#';
    }
    MarkFacts(s, 0);
  }

  // ----- the swap

  lemma {:induction false} BreaksOnlyBreaks(s: string)
    ensures forall i | 0 <= i < |Breaks(s)| :: IsBreak(Breaks(s)[i])
  {
    if s != "" {
      BreaksOnlyBreaks(s[1..]);
    }
  }

  /** The swap changes text in front of the comment and makes no mark there. */
  lemma SwapInFront(raw: string, cpus: string) returns (p: string)
    requires CpuText(cpus)
    ensures SpecSwap(raw, cpus) == p + raw[Cut(raw)..]
    ensures forall i | 0 <= i < |p| :: !CommentMark(p + raw[Cut(raw)..], i)
  {
    hide CpuText, Breaks, BodyLen, CommentMark, LeadFrom, BreakFrom, RFind;
    var cut := Cut(raw);
    var s := raw[..cut];
    NoEarlyMark(raw);
    var eq := RFind(s, '=');
    if eq < 0 {
      p := s;
      assert s + raw[cut..] == raw;
    } else {
      RFindFacts(s, '=');
      var from := LeadFrom(s, eq + 1);
      var b := Breaks(s[BreakFrom(s, from)..]);
      p := s[..from] + cpus + b;
      LeadBlank(s, eq + 1);
      BreaksOnlyBreaks(s[BreakFrom(s, from)..]);
      CpuPlain(cpus);
      forall i | 0 <= i < |p| ensures !CommentMark(p + raw[cut..], i) {
        FrontFree(raw, s, from, cpus, b, i);
      }
    }
  }

  /** New CPUs leave the comment of any line as it is. */
  lemma SwapKeepsRemark(raw: string, cpus: string)
    requires CpuText(cpus)
    ensures Remark(SpecSwap(raw, cpus)) == Remark(raw)
  {
    hide CpuText, SpecSwap, Remark, CommentMark, Cut;
    var p := SwapInFront(raw, cpus);
    RemarkMoves(raw, p);
  }

  lemma CpuPlain(cpus: string)
    requires CpuText(cpus)
    ensures forall i | 0 <= i < |cpus| :: cpus[i] !in {'#', '/'}
  {
  }

  lemma {:induction false} LeadBlank(s: string, i: nat)
    requires i <= |s|
    ensures i <= LeadFrom(s, i) <= |s| && forall k | i <= k < LeadFrom(s, i) :: IsWs(s[k])
    decreases |s| - i
  {
    if i < |s| && IsWs(s[i]) {
      LeadBlank(s, i + 1);
    }
  }

  lemma NoEarlyMark(raw: string)
    ensures forall i | 0 <= i < Cut(raw) :: !CommentMark(raw, i)
  {
    hide CommentMark;
    MarkFacts(raw, 0);
  }

  lemma FrontFree(raw: string, s: string, from: nat, cpus: string, b: string, i: nat)
    requires s == raw[..Cut(raw)] && 0 < from <= |s| && (s[from - 1] == '=' || IsWs(s[from - 1]))
    requires (forall k | 0 <= k < |cpus| :: cpus[k] !in {'#', '/'}) && forall k | 0 <= k < |b| :: IsBreak(b[k])
    requires (forall k | 0 <= k < Cut(raw) :: !CommentMark(raw, k)) && i < |s[..from] + cpus + b|
    ensures !CommentMark(s[..from] + cpus + b + raw[Cut(raw)..], i)
  {
    hide Cut;
    var p := s[..from] + cpus + b;
    var t := p + raw[Cut(raw)..];
    assert t[i] == p[i];
    if i < from {
      assert t[i] == raw[i];
      if i + 1 < from {
        assert t[i + 1] == raw[i + 1];
      }
      assert i > 0 ==> t[i - 1] == raw[i - 1];
      assert !CommentMark(raw, i);
    } else if i < from + |cpus| {
      assert t[i] == cpus[i - from];
    } else {
      assert t[i] == b[i - from - |cpus|];
    }
  }

  // ----- printed lines

  /** A printed line takes over the comment of the line it stands for. */
  lemma PrintedKeepsRemark(lead: string, q: string, was: string)
    requires Blank(lead) && Core(q)
    ensures Remark(WithComment(lead + q, was)) == Remark(was)
  {
    hide Core, BodyLen;
    var line := lead + q;
    MarkFacts(was, 0);
    forall i | 0 <= i < |line| ensures !CommentMark(line + was[Cut(was)..], i) {
      PrintedFree(lead, q, was, i);
    }
    RemarkMoves(was, line);
    assert was[|was|..] == "" && line + "" == line;
  }

  lemma PrintedFree(lead: string, q: string, was: string, i: nat)
    requires Blank(lead) && Core(q) && i < |lead + q|
    ensures !CommentMark(lead + q + was[Cut(was)..], i)
  {
    hide BodyLen;
    var line, z := lead + q, was[Cut(was)..];
    var t := line + z;
    MarkFacts(was, 0);
    if z != "" {
      var m := MarkFrom(was, 0).value;
      BodyFacts(was[..m]);
      assert z[0] == was[..m][Cut(was)];
    }
    assert t[i] == line[i] && (i + 1 < |line| ==> t[i + 1] == line[i + 1]) && (i + 1 == |line| && z != "" ==> t[i + 1] == z[0]);
    if i < |lead| {
      assert t[i] == lead[i];
    } else {
      var k := i - |lead|;
      assert t[i] == q[k] && (k > 0 ==> t[i - 1] == q[k - 1]) && (k + 1 < |q| ==> t[i + 1] == q[k + 1]);
      assert !CommentMark(q, k) && !MarkChar(q, 0);
    }
  }

  /** A rule moved into the block, and what is left of a line that opened or closed one. */
  lemma MovedKeepsRemark(raw: string, thread: string, cpus: string, pkg: string)
    requires EntrySafe(thread) && CpuText(cpus) && PkgSafe(pkg)
    ensures Remark(WithComment(EntryText(thread, cpus), raw)) == Remark(raw)
    ensures Remark(WithComment(HeaderText(pkg, cpus, true), raw)) == Remark(raw)
    ensures Remark(WithComment(BareOpenLine(pkg), raw)) == Remark(raw) && Remark(WithComment("}", raw)) == Remark(raw)
  {
    hide EntrySafe, CpuText, PkgSafe, Core, WithComment, EntryText, HeaderText, BareOpenLine, Remark;
    EntryCore(thread, cpus);
    HeaderCore(pkg, cpus, true);
    BareOpenCore(pkg);
    CloseCore();
    EntryLead(thread, cpus);
    assert "" + HeaderText(pkg, cpus, true) == HeaderText(pkg, cpus, true) && "" + BareOpenLine(pkg) == BareOpenLine(pkg) && "" + "}" == "}";
    PrintedKeepsRemark("\t", thread + "=" + cpus, raw);
    PrintedKeepsRemark("", HeaderText(pkg, cpus, true), raw);
    PrintedKeepsRemark("", BareOpenLine(pkg), raw);
    PrintedKeepsRemark("", "}", raw);
  }

  lemma EntryLead(thread: string, cpus: string)
    ensures EntryText(thread, cpus) == "\t" + (thread + "=" + cpus) && Blank("\t") && Blank("")
  {
  }

  // ----- renamed lines

  /** Behind the package's name stands no comment mark. */
  predicate CleanRest(x: string, t: string)
  {
    (x != "" ==> IsWs(x[0]) || x[0] in {'=', '{'}) && (t != "" ==> IsWs(t[0]))
  }

  lemma RestOf(q: string, was: string) returns (x: string)
    requires Core(q) && was != "" && OuterPkg(ParseOuterCore(q)) == was
    ensures q == was + x && (x != "" ==> IsWs(x[0]) || x[0] in {'=', '{'})
  {
    hide Core, ParseOuterCore, Opens, OpenBody, ThreadBehind;
    if ParseOuterCore(q).Single? {
      x := SingleRest(q, was);
    } else if '=' in q {
      var ws, v := EqParts(q, was);
      x := ws + "=" + v;
      assert q == was + x;
      StartsBlank(ws, "=" + v, x);
    } else {
      var g, y := BareRest(q, was);
      x := y;
      if x != "" {
        StartsBlank(g, "{", x);
      }
    }
  }

  lemma SingleRest(q: string, was: string) returns (x: string)
    requires Core(q) && ParseOuterCore(q).Single? && ParseOuterCore(q).pkg == was
    ensures q == was + x && x != "" && (IsWs(x[0]) || x[0] in {'=', '{'})
  {
    hide Core, ParseOuterCore, Opens, OpenBody, ThreadBehind, SplitSingleLine;
    var ws, z, r, g := CoreParts(q, was);
    x := ws + ("{" + z + "=" + r + g);
    assert ws + "{" + z + "=" + r + g == x;
    StartsBlank(ws, "{" + z + "=" + r + g, x);
  }

  lemma StartsBlank(ws: string, y: string, x: string)
    requires Blank(ws) && y != "" && y[0] in {'=', '{'} && x == ws + y
    ensures IsWs(x[0]) || x[0] in {'=', '{'}
  {
  }

  lemma TailStarts(t: string)
    requires Tail(t)
    ensures var u := TrimEnd(t); u != "" ==> IsWs(u[0])
  {
    hide BodyLen;
    BodyFacts(t);
    if TrimEnd(t) != "" {
      assert TrimEnd(t)[0] == t[0];
      LeadFacts(t);
    }
  }

  /** In front of the tail there is no mark, whatever the name. */
  lemma NoMarkInFront(name: string, x: string, t: string, i: nat)
    requires NoMark(name) && CleanRest(x, t) && i < |name|
    ensures !CommentMark(name + (x + t), i)
  {
    var s := name + (x + t);
    if x + t != "" {
      assert s[|name|] == (x + t)[0] == if x != "" then x[0] else t[0];
    }
    assert !CommentMark(name, i);
  }

  /** Marks behind the names stand at the same place. */
  lemma SameMarks(a: string, b: string, x: string, t: string, k: nat)
    requires a != "" && b != "" && CleanRest(x, t) && k < |x + t|
    ensures CommentMark(a + (x + t), |a| + k) <==> CommentMark(b + (x + t), |b| + k)
  {
    var s, u, y := a + (x + t), b + (x + t), x + t;
    assert s[|a| + k] == y[k] == u[|b| + k];
    if k + 1 < |y| {
      assert s[|a| + k + 1] == y[k + 1] == u[|b| + k + 1];
    }
    if k > 0 {
      assert s[|a| + k - 1] == y[k - 1] == u[|b| + k - 1];
    } else {
      assert y[0] == if x != "" then x[0] else t[0];
    }
  }

  lemma SameRemark(a: string, b: string, x: string, t: string)
    requires a != "" && b != "" && NoMark(a) && NoMark(b) && CleanRest(x, t)
    ensures Remark(a + (x + t)) == Remark(b + (x + t))
  {
    hide CommentMark, CleanRest, NoMark;
    var s, u := a + (x + t), b + (x + t);
    forall i | 0 <= i < |a| ensures !CommentMark(s, i) {
      NoMarkInFront(a, x, t, i);
    }
    forall i | 0 <= i < |b| ensures !CommentMark(u, i) {
      NoMarkInFront(b, x, t, i);
    }
    MarkFacts(s, 0);
    match MarkFrom(s, 0) {
      case Some(m) =>
        var k := m - |a|;
        forall i | 0 <= i < |b| + k ensures !CommentMark(u, i) {
          if i >= |b| {
            SameMarks(a, b, x, t, i - |b|);
          }
        }
        SameMarks(a, b, x, t, k);
        RemarkIs(u, |b| + k);
        assert s[m..] == (x + t)[k..] == u[|b| + k..];
      case None =>
        forall i | 0 <= i < |u| ensures !CommentMark(u, i) {
          if i >= |b| {
            SameMarks(a, b, x, t, i - |b|);
          }
        }
        NoRemark(u);
    }
  }

  lemma PrefixFree(was: string, x: string)
    requires NoMark(was + x) && (x != "" ==> IsWs(x[0]) || x[0] in {'=', '{'})
    ensures NoMark(was)
  {
    forall i | 0 <= i < |was| ensures !CommentMark(was, i) {
      assert !CommentMark(was + x, i);
    }
  }

  /** A line of the package under a new name keeps its comment. */
  lemma RenameKeepsRemark(raw: string, was: string, name: string)
    requires Classify(raw).Text? && OuterPkg(Classify(raw).outer) == was && was != "" && PkgSafe(name)
    ensures Remark(RenamedLine(raw, was, name)) == Remark(Trim(raw))
  {
    hide Classify, Tail, ParseOuterCore, RenamedTail, RenamedLine, Trim, TrimEnd, Remark, CommentMark, CleanRest;
    NotSkippedText(raw);
    var lead, q, t := ShapeOf(raw);
    ReadShape(lead, q, t);
    var x := RestOf(q, was);
    var u := TrimEnd(t);
    RenamedShape(lead, q, t, was, x, name);
    TailStarts(t);
    RestIsClean(x, u);
    PrefixFree(was, x);
    assert was + x + u == was + (x + u);
    SameRemark(was, name, x, u);
    TailChange(was, x, u, name);
  }

  lemma RestIsClean(x: string, u: string)
    requires (x != "" ==> IsWs(x[0]) || x[0] in {'=', '{'}) && (u != "" ==> IsWs(u[0]))
    ensures CleanRest(x, u)
  {
  }

  /** The tail is changed only where there is no comment. */
  lemma TailChange(was: string, x: string, u: string, name: string)
    requires was != "" && NoMark(was) && CleanRest(x, u) && PkgSafe(name) && Remark(name + (x + u)) == Remark(was + (x + u))
    ensures Remark(name + RenamedTail(x + u, name)) == Remark(was + (x + u))
  {
    hide Remark, CommentMark, CleanRest, Trim;
    var y := RenamedTail(x + u, name);
    if y != x + u {
      assert Trim(x + u) in {"", "=", "{"} && y in {"=", "= {"};
      PlainRest(x + u);
      PlainEnd(name, x, u);
      PlainRest(y) by {
        TrimPlain();
      }
      NamePlain(name, y);
    }
  }

  lemma TrimPlain()
    ensures Trim("=") == "=" && Trim("= {") == "= {"
  {
    TrimTrimmed("=");
    TrimTrimmed("= {");
  }

  lemma PlainRest(y: string)
    requires Trim(y) in {"", "=", "{", "= {"}
    ensures forall i | 0 <= i < |y| :: y[i] !in {'#', '/'}
  {
    var l, r := TrimSplit(y);
  }

  lemma PlainEnd(name: string, x: string, u: string)
    requires NoMark(name) && CleanRest(x, u) && forall i | 0 <= i < |x + u| :: (x + u)[i] !in {'#', '/'}
    ensures Remark(name + (x + u)) == ""
  {
    hide Remark;
    var s := name + (x + u);
    forall i | 0 <= i < |s| ensures !CommentMark(s, i) {
      if i < |name| {
        NoMarkInFront(name, x, u, i);
      } else {
        assert s[i] == (x + u)[i - |name|];
      }
    }
    NoRemark(s);
  }

  lemma NamePlain(name: string, y: string)
    requires NoMark(name) && y in {"=", "= {"}
    ensures Remark(name + y) == ""
  {
    hide Remark;
    var s := name + y;
    forall i | 0 <= i < |s| ensures !CommentMark(s, i) {
      if i < |name| {
        assert !CommentMark(name, i);
        assert s[i] == name[i] && (i > 0 ==> s[i - 1] == name[i - 1]) && (i + 1 < |s| ==> s[i + 1] == if i + 1 < |name| then name[i + 1] else '=');
      } else {
        assert s[i] == y[i - |name|];
      }
    }
    NoRemark(s);
  }
}
