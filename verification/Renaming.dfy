/** Renaming the package on one of its header lines: the text `rule_rename` writes, and
    how it is read back. */
module Renaming {
  import opened Base
  import opened Text
  import opened Lines
  import opened Syntax
  import opened Shapes
  import opened Printing
  import opened Swapping

  /** The rest of the line, with the `=` a name that contains one needs. */
  function RenamedTail(rest: string, name: string): string
  {
    if '=' in name && (Trim(rest) == "" || Trim(rest) == "=") then "="
    else if '=' in name && Trim(rest) == "{" then "= {"
    else rest
  }

  function RenamedLine(raw: string, was: string, name: string): string
  {
    var p := Trim(raw);
    if StartsWith(p, was) then name + RenamedTail(p[|was|..], name) else raw
  }

  /** The package a line names. */
  function OuterPkg(o: Outer): string
  {
    match o
    case Single(p, _, _, _) => p
    case Rule(p, _, _) => p
    case BareOpen(p) => p
    case Pending(p) => p
    case Junk => ""
  }

  function WithPkg(o: Outer, name: string): Outer
  {
    match o
    case Single(_, t, c, open) => Single(name, t, c, open)
    case Rule(_, c, open) => Rule(name, c, open)
    case BareOpen(_) => BareOpen(name)
    case Pending(_) => Pending(name)
    case Junk => Junk
  }

  predicate IsHeader(o: Outer)
  {
    o.Rule? || o.BareOpen? || o.Pending?
  }

  /** A bare line (no `=`) on which the new name is read as something else: a name with
      a `=` behind which a comment keeps the extra `=` from being written, or a name that
      ends in a brace on a line that has no brace yet. */
  predicate NameTrap(raw: string, was: string, name: string)
  {
    var c := Classify(raw);
    && c.Text? && IsHeader(c.outer) && OuterPkg(c.outer) == was && '=' !in StripComment(Trim(raw))
    && if '=' in name then CommentAt(raw).Some? else c.outer.Pending? && Opens(name)
  }

  // ----- lines with a `=`

  function ValueOf(v: string): string
  {
    if Opens(v) then TrimEnd(v[..|v| - 1]) else v
  }

  function ByValue(pkg: string, v: string): Outer
  {
    var value := Trim(ValueOf(v));
    if value == "" then (if Opens(v) then BareOpen(pkg) else Pending(pkg)) else Rule(pkg, value, Opens(v))
  }

  lemma ValueFree(v: string)
    requires '=' !in v
    ensures '=' !in ValueOf(v)
  {
    if Opens(v) {
      var u := v[..|v| - 1];
      BodyFacts(u);
      assert forall c | c in ValueOf(v) :: c in u;
      assert forall c | c in u :: c in v;
    }
  }

  lemma OpenBodyAt(a: string, v: string)
    ensures Opens(a + "=" + v) <==> Opens(v)
    ensures OpenBody(a + "=" + v) == a + "=" + ValueOf(v)
  {
    var q := a + "=" + v;
    if v != "" {
      assert q[|q| - 1] == v[|v| - 1];
    } else {
      assert q[|q| - 1] == '=';
    }
    if Opens(v) {
      var u := v[..|v| - 1];
      var b := TrimEnd(u);
      BodyFacts(u);
      assert q[..|q| - 1] == (a + "=" + b) + u[|b|..];
      assert (a + "=" + b)[|a + "=" + b| - 1] == if b == "" then '=' else b[|b| - 1];
      BodyLenIs(a + "=" + b, u[|b|..]);
    }
  }

  /** A header line with a `=` is read by the name before it and the text behind it. */
  lemma EqReads(pkg: string, ws: string, v: string)
    requires PkgSafe(pkg) && Blank(ws) && '=' !in v
    ensures ParseOuterCore(pkg + ws + "=" + v) == ByValue(pkg, v)
  {
    var a := pkg + ws;
    OpenBodyAt(a, v);
    ValueFree(v);
    NotSingle(pkg, ws, ValueOf(v));
    var body := a + "=" + ValueOf(v);
    assert body == a + ['='] + ValueOf(v);
    assert body[..|a|] == a && body[|a| + 1..] == ValueOf(v);
    NotClosing(pkg, ws, ValueOf(v));
  }

  lemma NotClosing(pkg: string, ws: string, b: string)
    requires PkgSafe(pkg) && Blank(ws)
    ensures !CloseLike(pkg + ws + "=" + b)
  {
    var s := pkg + ws + "=" + b;
    assert s[0] == pkg[0];
    if |pkg| > 1 {
      assert s[1] == pkg[1];
      assert |pkg| > 2 ==> s[2] == pkg[2];
      assert |pkg| == 2 ==> s[2] == if ws != "" then ws[0] else '=';
    }
  }

  lemma EqCore(pkg: string, ws: string, v: string)
    requires PkgSafe(pkg) && Blank(ws) && NoMark(v) && (v != "" ==> !IsWs(v[|v| - 1]))
    ensures Core(pkg + ws + "=" + v)
  {
    var a := pkg + ws;
    forall i | 0 <= i < |a| ensures !CommentMark(a, i) {
      if i < |pkg| {
        assert !CommentMark(pkg, i);
      } else {
        assert a[i] == ws[i - |pkg|];
      }
    }
    assert !MarkChar(a, 0) by {
      assert a[0] == pkg[0] && (|pkg| > 1 ==> a[1] == pkg[1]) && (|pkg| == 1 && ws != "" ==> a[1] == ws[0]);
    }
    CoreJoin(a, '=', v);
    assert a + ['='] + v == a + "=" + v;
  }

  /** A header line with a `=` taken apart. */
  lemma EqParts(q: string, was: string) returns (ws: string, v: string)
    requires Core(q) && IsHeader(ParseOuterCore(q)) && OuterPkg(ParseOuterCore(q)) == was && was != "" && '=' in q
    ensures q == was + ws + "=" + v && Blank(ws) && '=' !in v && NoMark(v) && (v != "" ==> !IsWs(v[|v| - 1]))
  {
    var a;
    a, v := AtLastEq(q);
    NameBefore(a, v, was);
    ws := NameThenBlank(a, v, was);
    assert q[|q| - 1] == if v == "" then '=' else v[|v| - 1];
    ValueNoMark(a, v);
  }

  lemma NameBefore(a: string, v: string, was: string)
    requires '=' !in v && IsHeader(ParseOuterCore(a + "=" + v)) && OuterPkg(ParseOuterCore(a + "=" + v)) == was
    ensures Trim(a) == was
  {
    OpenBodyAt(a, v);
    ValueFree(v);
    var body := a + ['='] + ValueOf(v);
    assert body == OpenBody(a + "=" + v);
    RFindIs(a, '=', ValueOf(v));
    assert body[..|a|] == a;
  }

  lemma NameThenBlank(a: string, v: string, was: string) returns (ws: string)
    requires Core(a + "=" + v) && Trim(a) == was && was != ""
    ensures Blank(ws) && a == was + ws
  {
    var lead;
    lead, ws := TrimSplit(a);
    if a == "" {
      TrimBlank(a);
    }
    assert (a + "=" + v)[0] == a[0];
    assert lead + was + ws == was + ws;
  }

  lemma ValueNoMark(a: string, v: string)
    requires NoMark(a + "=" + v)
    ensures NoMark(v)
  {
    var q := a + "=" + v;
    forall i | 0 <= i < |v| ensures !CommentMark(v, i) {
      var k := i + |a| + 1;
      assert !CommentMark(q, k);
      assert q[k] == v[i] && q[k - 1] == (if i == 0 then '=' else v[i - 1]) && (i + 1 < |v| ==> q[k + 1] == v[i + 1]);
    }
  }

  // ----- lines without one

  lemma BareParts(q: string, was: string) returns (g: string)
    requires Core(q) && IsHeader(ParseOuterCore(q)) && OuterPkg(ParseOuterCore(q)) == was && '=' !in q
    ensures Blank(g) && q == (if Opens(q) then was + g + "{" else was)
    ensures ParseOuterCore(q) == if Opens(q) then BareOpen(was) else Pending(was)
    ensures '=' !in was
  {
    var body := OpenBody(q);
    if Opens(q) {
      body, g := BodyAndGap(q);
      assert q == body + g + "{";
    } else {
      g := "";
    }
    assert forall c | c in body :: c in q;
    SingleNeedsEq(body);
  }

  lemma BareReads(name: string, g: string, open: bool)
    requires PkgSafe(name) && Blank(g) && '=' !in name && (open || !Opens(name))
    ensures var q := if open then name + g + "{" else name;
            Core(q) && ParseOuterCore(q) == if open then BareOpen(name) else Pending(name)
  {
    SingleNeedsEq(name);
    if open {
      OpenLineCore(name, g);
      OpenBodyOf(name, g);
    }
  }

  // ----- the renamed line

  lemma PrefixOf(was: string, x: string, t: string)
    ensures StartsWith(was + x + t, was) && (was + x + t)[|was|..] == x + t
  {
  }

  /** The line is the name and its rest, with its comment. */
  lemma RenamedShape(lead: string, q: string, t: string, was: string, x: string, name: string)
    requires Blank(lead) && Core(q) && Tail(t) && q == was + x
    ensures RenamedLine(lead + q + t, was, name) == name + RenamedTail(x + TrimEnd(t), name)
  {
    ReadShape(lead, q, t);
    PrefixOf(was, x, TrimEnd(t));
  }

  lemma RenamedEq(lead: string, q: string, t: string, was: string, name: string)
    requires Blank(lead) && Core(q) && Tail(t) && IsHeader(ParseOuterCore(q)) && OuterPkg(ParseOuterCore(q)) == was
    requires PkgSafe(was) && PkgSafe(name) && '=' in q
    ensures var c := Classify(RenamedLine(lead + q + t, was, name));
            c.Text? && c.outer == WithPkg(ParseOuterCore(q), name)
    ensures '=' in StripComment(Trim(RenamedLine(lead + q + t, was, name)))
  {
    hide Core, PkgSafe, Tail, ParseOuterCore, Classify, StripComment, Trim;
    SafeName(was);
    var ws, v := EqParts(q, was);
    EqReads(was, ws, v);
    var x, t' := ws + "=" + v, TrimEnd(t);
    assert q == was + x;
    RenamedShape(lead, q, t, was, x, name);
    EmptyTail();
    TailTrimmed(t);
    EqTail(ws, v, t', name);
    if RenamedTail(x + t', name) == "=" && ByValue(name, v) == Pending(name) {
      JustEq(name);
    } else {
      WithValue(name, ws, v, t');
    }
    ByValues(was, name, v);
  }

  lemma ByValues(was: string, name: string, v: string)
    ensures ByValue(name, v) == WithPkg(ByValue(was, v), name)
  {
  }

  lemma JustEq(name: string)
    requires PkgSafe(name)
    ensures Classify(name + "=").Text? && Classify(name + "=").outer == Pending(name)
    ensures '=' in StripComment(Trim(name + "="))
  {
    hide Core, PkgSafe, Tail, ParseOuterCore, Classify, StripComment, Trim;
    EmptyValue(name);
    EqReads(name, "", "");
    EqCore(name, "", "");
    EmptyTail();
    assert name + "=" == "" + (name + "" + "=" + "") + "";
    ReadShape("", name + "" + "=" + "", "");
    assert (name + "" + "=" + "")[|name|] == '=';
  }

  lemma EmptyValue(name: string)
    ensures ByValue(name, "") == Pending(name)
  {
    TrimBlank("");
  }

  lemma WithValue(name: string, ws: string, v: string, t: string)
    requires PkgSafe(name) && Blank(ws) && '=' !in v && NoMark(v) && (v != "" ==> !IsWs(v[|v| - 1])) && Tail(t)
    ensures var c := Classify(name + (ws + "=" + v + t)); c.Text? && c.outer == ByValue(name, v)
    ensures '=' in StripComment(Trim(name + (ws + "=" + v + t)))
  {
    hide Core, PkgSafe, Tail, ParseOuterCore, Classify, ByValue, StripComment, Trim;
    EqReads(name, ws, v);
    EqCore(name, ws, v);
    assert name + (ws + "=" + v + t) == "" + (name + ws + "=" + v) + t;
    ReadShape("", name + ws + "=" + v, t);
    assert (name + ws + "=" + v)[|name + ws|] == '=';
  }

  /** When the rest holds the `=`, nothing is added, unless the rest is just the `=`. */
  lemma EqTail(ws: string, v: string, t: string, name: string)
    requires Blank(ws) && (v != "" ==> !IsWs(v[|v| - 1])) && Tail(t) && (Blank(t) ==> t == "")
    ensures var x := ws + "=" + v;
            RenamedTail(x + t, name) == x + t || (RenamedTail(x + t, name) == "=" && ByValue(name, v) == Pending(name))
  {
    var r := ws + "=" + v + t;
    LeadLenIs(ws, "=" + v + t);
    assert r == ws + ("=" + v + t);
    var s := Trim(r);
    TrimStarts(r, ws, "=" + v + t);
    if s == "=" {
      TrimSingle(v, t);
    }
  }

  lemma TrimStarts(r: string, ws: string, y: string)
    requires Blank(ws) && y != "" && !IsWs(y[0]) && r == ws + y
    ensures Trim(r) != "" && Trim(r)[0] == y[0] && |Trim(r)| <= |y| && Trim(r) == y[..|Trim(r)|]
    ensures Blank(y[|Trim(r)|..])
  {
    LeadLenIs(ws, y);
    assert TrimStart(r) == y;
    BodyFacts(y);
  }

  lemma TrimSingle(v: string, t: string)
    requires Trim("=" + v + t) == "=" && (v != "" ==> !IsWs(v[|v| - 1])) && (Blank(t) ==> t == "")
    ensures v == "" && t == ""
  {
    hide Trim;
    var y := "=" + v + t;
    TrimStarts(y, "", y);
    assert Blank(y[1..]) && y[1..] == v + t;
    BlankParts(v, t);
  }

  lemma BlankParts(v: string, t: string)
    requires Blank(v + t)
    ensures Blank(v) && Blank(t)
  {
    assert forall i | 0 <= i < |v| :: v[i] == (v + t)[i];
    assert forall i | 0 <= i < |t| :: t[i] == (v + t)[|v| + i];
  }

  /** A bare line: the name, white space, perhaps a brace. */
  lemma RenamedBare(lead: string, q: string, t: string, was: string, name: string)
    requires Blank(lead) && Core(q) && Tail(t) && IsHeader(ParseOuterCore(q)) && OuterPkg(ParseOuterCore(q)) == was
    requires PkgSafe(was) && PkgSafe(name) && '=' !in q
    requires if '=' in name then Blank(t) else ParseOuterCore(q).Pending? ==> !Opens(name)
    ensures var c := Classify(RenamedLine(lead + q + t, was, name));
            c.Text? && c.outer == WithPkg(ParseOuterCore(q), name)
  {
    hide Core, PkgSafe, Tail, ParseOuterCore, Classify, Trim, Opens;
    var g := BareParts(q, was);
    var x := if Opens(q) then g + "{" else "";
    assert q == was + x;
    RenamedShape(lead, q, t, was, x, name);
    EmptyTail();
    TailTrimmed(t);
    var t' := TrimEnd(t);
    if '=' in name {
      assert x + t' == x;
      BareWithEq(name, g, Opens(q));
    } else {
      BareWithout(name, g, Opens(q), t');
    }
  }

  lemma BareWithEq(name: string, g: string, open: bool)
    requires PkgSafe(name) && Blank(g) && '=' in name
    ensures var c := Classify(name + RenamedTail(if open then g + "{" else "", name));
            c.Text? && c.outer == if open then BareOpen(name) else Pending(name)
  {
    hide Core, PkgSafe, Tail, ParseOuterCore, Classify, Trim, Opens;
    BraceRest(g);
    BlankTrim();
    if open {
      OpenLineEq(name);
    } else {
      JustEq(name);
    }
  }

  lemma BlankTrim()
    ensures Trim("") == ""
  {
    TrimBlank("");
  }

  lemma BareWithout(name: string, g: string, open: bool, t: string)
    requires PkgSafe(name) && Blank(g) && '=' !in name && (open || !Opens(name)) && Tail(t)
    ensures var c := Classify(name + RenamedTail((if open then g + "{" else "") + t, name));
            c.Text? && c.outer == if open then BareOpen(name) else Pending(name)
  {
    hide Core, PkgSafe, Tail, ParseOuterCore, Classify, Trim, Opens;
    var x := if open then g + "{" else "";
    BareReads(name, g, open);
    var r := if open then name + g + "{" else name;
    assert name + (x + t) == "" + r + t;
    ReadShape("", r, t);
  }

  lemma BraceRest(g: string)
    requires Blank(g)
    ensures Trim(g + "{") == "{"
  {
    assert g + "{" + "" == g + "{";
    TrimIs(g, "{", "");
  }

  lemma OpenLineEq(name: string)
    requires PkgSafe(name) && '=' in name
    ensures Classify(name + "= {").Text? && Classify(name + "= {").outer == BareOpen(name)
  {
    hide Core, PkgSafe, Tail, ParseOuterCore, Classify;
    BareOpenCore(name);
    EmptyTail();
    assert name + "= {" == "" + BareOpenLine(name) + "";
    ReadShape("", BareOpenLine(name), "");
  }

  // ----- names that are read as something else

  /** The last `=` ends the name. */
  lemma EqShortens(q: string, n: nat)
    requires '=' in OpenBody(q) && |OpenBody(q)| <= n
    ensures var o := ParseOuterCore(q); o.BareOpen? || o.Pending? ==> |OuterPkg(o)| < n
  {
    var body := OpenBody(q);
    RFindFacts(body, '=');
    TrimShort(body[..RFind(body, '=')]);
    hide RFind, Trim, OpenBody, SplitSingleLine;
  }

  lemma TrimShort(s: string)
    ensures |Trim(s)| <= |s|
  {
    var lead, trail := TrimSplit(s);
  }

  lemma BodyHasEq(q: string)
    requires '=' in q
    ensures '=' in OpenBody(q) && |OpenBody(q)| <= |q|
  {
    var k :| 0 <= k < |q| && q[k] == '=';
    if Opens(q) {
      var u := q[..|q| - 1];
      BodyFacts(u);
      assert u[k] == '=';
      assert TrimEnd(u)[k] == '=';
    }
  }

  lemma OpenIsNotPending(q: string)
    requires Opens(q)
    ensures !ParseOuterCore(q).Pending?
  {
  }

  /** A comment keeps the rest of a bare line from being empty, a `=` or a brace. */
  lemma CommentRest(x: string, g: string, t: string)
    requires Blank(g) && x in {"", g + "{"} && Tail(t) && !Blank(t)
    ensures Trim(x + t) != "" && Trim(x + t) != "=" && Trim(x + t) != "{"
  {
    var lead, trail := TrimSplit(x + t);
    var y, n := Trim(x + t), LeadLen(t);
    LeadFacts(t);
    var m := |x| + n;
    assert (x + t)[m] == t[n];
    assert !IsWs((x + t)[m]);
    if x == g + "{" {
      assert (x + t)[|g|] == '{';
      TwoIn(x + t, lead, y, trail, |g|, m);
    } else {
      OneIn(x + t, lead, y, trail, m);
    }
  }

  lemma OneIn(s: string, lead: string, y: string, trail: string, m: nat)
    requires s == lead + y + trail && Blank(lead) && Blank(trail) && m < |s| && !IsWs(s[m])
    ensures |lead| <= m < |lead| + |y| && y[m - |lead|] == s[m]
  {
  }

  lemma TwoIn(s: string, lead: string, y: string, trail: string, a: nat, b: nat)
    requires s == lead + y + trail && Blank(lead) && Blank(trail) && a < b < |s| && !IsWs(s[a]) && !IsWs(s[b])
    ensures |y| > 1
  {
    OneIn(s, lead, y, trail, a);
    OneIn(s, lead, y, trail, b);
  }

  /** A name with a `=` on a bare line with a comment. */
  lemma CommentedName(lead: string, q: string, t: string, was: string, name: string)
    requires Blank(lead) && Core(q) && Tail(t) && !Blank(t)
    requires IsHeader(ParseOuterCore(q)) && OuterPkg(ParseOuterCore(q)) == was
    requires PkgSafe(was) && PkgSafe(name) && '=' !in q && '=' in name
    ensures Classify(RenamedLine(lead + q + t, was, name)).Text?
    ensures Classify(RenamedLine(lead + q + t, was, name)).outer != WithPkg(ParseOuterCore(q), name)
  {
    hide Core, PkgSafe, Tail, ParseOuterCore, Classify, Trim, Opens, OpenBody, RenamedTail, RenamedLine, OuterPkg, WithPkg;
    hide TrimEnd;
    var g, x := BareRest(q, was);
    RenamedShape(lead, q, t, was, x, name);
    TailTrimmed(t);
    var t' := TrimEnd(t);
    CommentedTail(x, g, t', name);
    assert name + (x + t') == "" + (name + x) + t';
    NameCore(name, g, x);
    ReadShape("", name + x, t');
    EqShortens(name + x, |name|);
    NotTheName(ParseOuterCore(name + x), ParseOuterCore(q), name);
  }

  lemma BareRest(q: string, was: string) returns (g: string, x: string)
    requires Core(q) && IsHeader(ParseOuterCore(q)) && OuterPkg(ParseOuterCore(q)) == was && '=' !in q
    ensures Blank(g) && x in {"", g + "{"} && q == was + x
    ensures ParseOuterCore(q).BareOpen? || ParseOuterCore(q).Pending?
  {
    hide Core, ParseOuterCore, Opens;
    g := BareParts(q, was);
    x := if Opens(q) then g + "{" else "";
    assert was + g + "{" == was + (g + "{") && was + "" == was;
  }

  lemma CommentedTail(x: string, g: string, t: string, name: string)
    requires Blank(g) && x in {"", g + "{"} && Tail(t) && !Blank(t)
    ensures RenamedTail(x + t, name) == x + t
  {
    CommentRest(x, g, t);
    hide Trim, Tail;
  }

  lemma NotTheName(o: Outer, w: Outer, name: string)
    requires o.BareOpen? || o.Pending? ==> |OuterPkg(o)| < |name|
    requires w.BareOpen? || w.Pending?
    ensures o != WithPkg(w, name)
  {
  }

  lemma NameCore(name: string, g: string, x: string)
    requires PkgSafe(name) && Blank(g) && x in {"", g + "{"} && '=' in name
    ensures Core(name + x) && '=' in OpenBody(name + x) && |OpenBody(name + x)| <= |name|
  {
    if x == g + "{" {
      OpenLineCore(name, g);
      OpenBodyOf(name, g);
      assert name + x == name + g + "{";
    } else {
      assert name + x == name;
      BodyHasEq(name);
    }
  }

  /** A name that ends in a brace on a line without one. */
  lemma BracedName(lead: string, q: string, t: string, was: string, name: string)
    requires Blank(lead) && Core(q) && Tail(t) && ParseOuterCore(q).Pending? && OuterPkg(ParseOuterCore(q)) == was
    requires PkgSafe(was) && PkgSafe(name) && '=' !in q && '=' !in name && Opens(name)
    ensures Classify(RenamedLine(lead + q + t, was, name)).Text?
    ensures !Classify(RenamedLine(lead + q + t, was, name)).outer.Pending?
  {
    hide Core, PkgSafe, Tail, ParseOuterCore, Classify, Trim, Opens, RenamedTail, RenamedLine, TrimEnd, OuterPkg;
    BareName(q, was);
    RenamedShape(lead, q, t, was, "", name);
    PlainTail("" + TrimEnd(t), name);
    TailTrimmed(t);
    EmptyTail();
    assert name + ("" + TrimEnd(t)) == "" + name + TrimEnd(t);
    SafeCore(name);
    ReadShape("", name, TrimEnd(t));
    OpenIsNotPending(name);
  }

  lemma BareName(q: string, was: string)
    requires Core(q) && ParseOuterCore(q).Pending? && OuterPkg(ParseOuterCore(q)) == was && '=' !in q
    ensures q == was + ""
  {
    hide Core, ParseOuterCore;
    var g := BareParts(q, was);
    assert was + "" == was;
  }

  lemma PlainTail(rest: string, name: string)
    requires '=' !in name
    ensures RenamedTail(rest, name) == rest
  {
  }

  lemma SafeCore(name: string)
    requires PkgSafe(name)
    ensures Core(name)
  {
  }

  /** A renamed header line is the same kind of header, under the new name, exactly when
      the name is no trap for it. */
  lemma RenamedHeader(raw: string, was: string, name: string)
    requires Classify(raw).Text? && IsHeader(Classify(raw).outer) && OuterPkg(Classify(raw).outer) == was
    requires PkgSafe(was) && PkgSafe(name)
    ensures var c := Classify(RenamedLine(raw, was, name));
            c.Text? && (c.outer == WithPkg(Classify(raw).outer, name) <==> !NameTrap(raw, was, name))
  {
    hide Core, PkgSafe, Tail, ParseOuterCore, Classify, Opens;
    NotSkippedText(raw);
    var lead, q, t := ShapeOf(raw);
    ReadShape(lead, q, t);
    CommentAtShape(lead, q, t);
    if '=' in q {
      RenamedEq(lead, q, t, was, name);
    } else if !NameTrap(raw, was, name) {
      RenamedBare(lead, q, t, was, name);
    } else if '=' in name {
      CommentedName(lead, q, t, was, name);
    } else {
      BracedName(lead, q, t, was, name);
    }
  }

  /** A renamed header line is no trap on the way back. */
  lemma NoTrapBack(raw: string, was: string, name: string)
    requires Classify(raw).Text? && IsHeader(Classify(raw).outer) && OuterPkg(Classify(raw).outer) == was
    requires PkgSafe(was) && PkgSafe(name) && !NameTrap(raw, was, name)
    ensures !NameTrap(RenamedLine(raw, was, name), name, was)
  {
    hide Core, PkgSafe, Tail, ParseOuterCore, Classify, Opens, StripComment, Trim, RenamedLine;
    RenamedHeader(raw, was, name);
    NotSkippedText(raw);
    var lead, q, t := ShapeOf(raw);
    ReadShape(lead, q, t);
    if '=' in q {
      RenamedEq(lead, q, t, was, name);
    } else {
      var g := BareParts(q, was);
    }
  }

  // ----- lines that name a package outside its block

  lemma EntryHasEq(p: string)
    requires SplitRuleLine(p).Some?
    ensures '=' in StripComment(p)
  {
    hide Trim, StripComment, RFind;
    var x := StripComment(p);
    var cb := CloserFrom(x, 0);
    var y := if cb.Some? then x[..cb.value] else x;
    RFindFacts(y, '=');
    assert forall c | c in y :: c in x;
  }

  /** A bare header that starts like a closing brace names a package that does. */
  lemma CloseName(raw: string, name: string)
    requires Classify(raw).Text? && IsHeader(Classify(raw).outer) && OuterPkg(Classify(raw).outer) == name
    requires '=' !in StripComment(Trim(raw)) && CloseLike(Trim(raw)) && Trimmed(name)
    ensures CloseLike(name)
  {
    hide Core, Tail, ParseOuterCore, Classify, Opens, StripComment, Trim, Trimmed, CloseLike;
    NotSkippedText(raw);
    var lead, q, t := ShapeOf(raw);
    ReadShape(lead, q, t);
    var g := BareParts(q, name);
    var x := if Opens(q) then g + "{" else "";
    assert q == name + x;
    assert q + TrimEnd(t) == name + (x + TrimEnd(t));
    TailTrimmed(t);
    ClosePrefix(name, g, x, TrimEnd(t));
  }

  lemma ClosePrefix(name: string, g: string, x: string, t: string)
    requires Trimmed(name) && Blank(g) && x in {"", g + "{"} && (t == "" || IsWs(t[0])) && CloseLike(name + (x + t))
    ensures CloseLike(name)
  {
    var p := name + (x + t);
    assert p[0] == name[0];
    if |name| > 1 {
      assert p[1] == name[1];
      assert |name| > 2 ==> p[2] == name[2];
      assert |name| == 2 && |p| > 2 ==> p[2] == (x + t)[0];
    }
  }
}
