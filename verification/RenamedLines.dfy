/** What `rule_rename` makes of one line: a single-line rule, or a bare header on which the
    new name is read as something else. */
module RenamedLines {
  import opened Base
  import opened Text
  import opened Lines
  import opened Syntax
  import opened Shapes
  import opened Printing
  import opened Swapping
  import opened Renaming

  /** A `{` in the new name with just the old name in front of it. */
  predicate NamesItself(was: string, name: string)
  {
    '{' in name && Find(name, '{') >= 0 && Trim(name[..Find(name, '{')]) == was
  }

  /** The new name is the text of a single-line rule of the old one. */
  predicate Endless(was: string, name: string)
  {
    SplitSingleLine(OpenBody(name)).Some? && SplitSingleLine(OpenBody(name)).value.pkg == was
  }

  // ----- a single-line rule under a new name

  lemma EndTrimmed(a: string, c: char, z: string)
    requires !IsWs(c)
    ensures TrimEnd(a + [c] + z) == a + TrimEnd([c] + z)
    ensures var u := TrimEnd([c] + z); u != "" && u[0] == c && !IsWs(u[|u| - 1])
  {
    var u := TrimEnd([c] + z);
    BodyFacts([c] + z);
    assert ([c] + z)[0] == c;
    var trail := ([c] + z)[|u|..];
    assert a + [c] + z == (a + u) + trail;
    BodyLenIs(a + u, trail);
  }

  /** The thread of a single-line rule, from the text behind its first brace. */
  function ThreadBehind(z: string): Option<string>
  {
    var u := TrimEnd("{" + z);
    if |u| < 2 || u[|u| - 1] != '}' then None
    else
      var v := TrimEnd(u[..|u| - 1]);
      if v == "" then None else Some(Trim(v[1..]))
  }

  /** Up to its `=`, a single-line rule is read by the name before the first brace and by
      what stands behind it. */
  lemma NamesJoin(a: string, z: string)
    requires '{' !in a
    ensures SingleNames(a + "{" + z) ==
              if ThreadBehind(z).Some? && ThreadBehind(z).value != "" && Trim(a) != "" then Some((Trim(a), ThreadBehind(z).value))
              else None
  {
    hide Trim, TrimEnd, Find;
    EndTrimmed(a, '{', z);
    var u := TrimEnd("{" + z);
    assert a + ['{'] + z == a + "{" + z && ['{'] + z == "{" + z;
    assert (a + u)[|a + u| - 1] == u[|u| - 1];
    if |u| >= 2 && u[|u| - 1] == '}' {
      var y := u[1..|u| - 1];
      assert u[..|u| - 1] == ['{'] + y;
      assert (a + u)[..|a + u| - 1] == a + ['{'] + y;
      EndTrimmed(a, '{', y);
      var v := TrimEnd(['{'] + y);
      FirstBrace(a, v);
    }
  }

  lemma FirstBrace(a: string, v: string)
    requires '{' !in a && v != "" && v[0] == '{'
    ensures Find(a + v, '{') == |a| && (a + v)[..|a|] == a && (a + v)[|a| + 1..] == v[1..]
  {
    FindFacts(a + v, '{');
    assert (a + v)[|a|] == '{';
    assert forall i | 0 <= i < |a| :: (a + v)[i] == a[i];
  }

  /** Text that is a single-line rule, taken apart at its first brace and its last `=`. */
  lemma SingleBody(b: string, pkg: string) returns (a: string, z: string, r: string)
    requires SplitSingleLine(b).Some? && SplitSingleLine(b).value.pkg == pkg
    ensures b == a + "{" + z + "=" + r && '{' !in a && '=' !in r && Trim(a) == pkg != ""
    ensures ThreadBehind(z).Some? && ThreadBehind(z).value != ""
  {
    hide Trim, TrimEnd, Find, ThreadBehind, SingleNames;
    RFindFacts(b, '=');
    var eq := RFind(b, '=');
    r := b[eq + 1..];
    var l := b[..eq];
    assert forall c | c in r :: c != '=' by {
      forall i | 0 <= i < |r| ensures r[i] != '=' {
        assert r[i] == b[eq + 1 + i];
      }
    }
    HasBrace(l);
    var k := Find(l, '{');
    FindFacts(l, '{');
    a, z := l[..k], l[k + 1..];
    assert l == a + "{" + z;
    assert b == l + "=" + r;
    NamesJoin(a, z);
  }

  lemma HasBrace(l: string)
    requires SingleNames(l).Some?
    ensures '{' in l
  {
    hide Trim, Find;
    var t := TrimEnd(l);
    var left := TrimEnd(t[..|t| - 1]);
    FindFacts(left, '{');
    BodyFacts(l);
    BodyFacts(t[..|t| - 1]);
    var k := Find(left, '{');
    assert l[k] == left[k];
  }

  /** A core taken apart: the name, the text behind its first brace, the text behind its last
      `=`, and what follows the body. */
  ghost predicate Parted(q: string, was: string, ws: string, z: string, r: string, g: string)
  {
    && q == was + (ws + "{" + z + "=" + r + g) && OpenBody(q) == was + ws + "{" + z + "=" + r
    && Blank(ws) && '=' !in r && (Opens(q) <==> g != "") && (Opens(q) ==> exists h :: g == h + "{" && Blank(h))
  }

  lemma CoreParts(q: string, was: string) returns (ws: string, z: string, r: string, g: string)
    requires Core(q) && ParseOuterCore(q).Single? && ParseOuterCore(q).pkg == was
    ensures Parted(q, was, ws, z, r, g) && SplitSingleLine(OpenBody(q)).Some?
    ensures ThreadBehind(z).Some? && ThreadBehind(z).value != ""
  {
    hide Core, SplitSingleLine, Trim, ThreadBehind, OpenBody, Opens;
    g := GapOf(q);
    var a;
    BodySingle(q, was);
    a, z, r := SingleBody(OpenBody(q), was);
    hide ParseOuterCore;
    Prefixed(a, z, r);
    ws := NameFront(q, a, OpenBody(q), g, was);
    Regrouped(was, ws, z, r, g);
  }

  lemma BodySingle(q: string, was: string)
    requires ParseOuterCore(q).Single? && ParseOuterCore(q).pkg == was
    ensures SplitSingleLine(OpenBody(q)).Some? && SplitSingleLine(OpenBody(q)).value.pkg == was
  {
  }

  lemma Prefixed(a: string, z: string, r: string)
    ensures var b := a + "{" + z + "=" + r; |a| <= |b| && b[..|a|] == a
  {
  }

  lemma Regrouped(was: string, ws: string, z: string, r: string, g: string)
    ensures was + (ws + "{" + z + "=" + r + g) == (was + ws) + "{" + z + "=" + r + g
    ensures was + (ws + "{" + z + "=" + r + g) == was + ws + "{" + (z + "=" + r + g)
    ensures ws + "{" + z + "=" + r + g == ws + "{" + (z + "=" + r + g)
    ensures |g| < |ws + "{" + z + "=" + r + g|
  {
  }

  lemma TailsUnder(ws: string, z: string, r: string, g: string, name: string)
    requires Blank(ws)
    ensures var x := ws + "{" + z + "=" + r + g; forall t :: RenamedTail(x + t, name) == x + t
  {
    hide RenamedTail, Blank;
    var y := z + "=" + r + g;
    EqIn(z, r + g);
    assert y == z + "=" + (r + g);
    forall t ensures RenamedTail(ws + "{" + z + "=" + r + g + t, name) == ws + "{" + z + "=" + r + g + t {
      SingleTail(ws, y, t, name);
      assert ws + "{" + y + t == ws + "{" + z + "=" + r + g + t;
    }
  }

  /** What follows the body: nothing, or white space and a brace. */
  lemma GapOf(q: string) returns (g: string)
    requires Core(q)
    ensures q == OpenBody(q) + g && (Opens(q) <==> g != "")
    ensures Opens(q) ==> exists h :: g == h + "{" && Blank(h)
  {
    if Opens(q) {
      var body, h := BodyAndGap(q);
      g := h + "{";
      assert q == body + (h + "{");
    } else {
      g := "";
      assert q == OpenBody(q) + g;
    }
  }

  lemma NameFront(q: string, a: string, b: string, g: string, was: string) returns (ws: string)
    requires Core(q) && q == b + g && |a| <= |b| && b[..|a|] == a && Trim(a) == was && was != ""
    ensures a == was + ws && Blank(ws)
  {
    var lead, trail := TrimSplit(a);
    ws := trail;
    if a == "" {
      TrimBlank("");
    }
    assert a[0] == q[0];
    assert lead == "";
    assert lead + was + trail == was + trail;
  }

  lemma CoreUnder(q: string, was: string, name: string, ws: string, y: string)
    requires Core(q) && q == was + ws + "{" + y && PkgSafe(name) && Blank(ws)
    ensures Core(name + ws + "{" + y)
  {
    var a := name + ws;
    NoMarkBehind(was + ws, y);
    forall i | 0 <= i < |a| ensures !CommentMark(a, i) {
      if i < |name| {
        assert !CommentMark(name, i);
      } else {
        assert a[i] == ws[i - |name|];
      }
    }
    assert !MarkChar(a, 0) by {
      assert a[0] == name[0] && (|name| > 1 ==> a[1] == name[1]) && (|name| == 1 && ws != "" ==> a[1] == ws[0]);
    }
    assert y != "" ==> y[|y| - 1] == q[|q| - 1];
    CoreJoin(a, '{', y);
    assert a + ['{'] + y == name + ws + "{" + y;
  }

  lemma NoMarkBehind(a: string, y: string)
    requires NoMark(a + "{" + y)
    ensures NoMark(y)
  {
    var q := a + "{" + y;
    forall i | 0 <= i < |y| ensures !CommentMark(y, i) {
      var k := i + |a| + 1;
      assert !CommentMark(q, k);
      assert q[k] == y[i] && q[k - 1] == (if i == 0 then '{' else y[i - 1]) && (i + 1 < |y| ==> q[k + 1] == y[i + 1]);
    }
  }

  /** The rest of a single-line rule stays as it is. */
  lemma SingleTail(ws: string, y: string, t: string, name: string)
    requires Blank(ws) && '=' in y
    ensures RenamedTail(ws + "{" + y + t, name) == ws + "{" + y + t
  {
    var s := ws + "{" + y + t;
    var lead, trail := TrimSplit(s);
    var k :| 0 <= k < |y| && y[k] == '=';
    assert s[|ws|] == '{' && s[|ws| + 1 + k] == '=';
    TwoIn(s, lead, Trim(s), trail, |ws|, |ws| + 1 + k);
    hide Trim;
  }

  lemma EqIn(z: string, r: string)
    ensures '=' in z + "=" + r
  {
    assert (z + "=" + r)[|z|] == '=';
  }

  lemma BodyEnds(q: string, b: string, h: string)
    requires Opens(q) && b == OpenBody(q)
    ensures b == "" || !IsWs(b[|b| - 1])
  {
    BodyFacts(q[..|q| - 1]);
  }

  /** The body of a single-line rule under a new name. */
  lemma RenamedBody(q: string, was: string, name: string) returns (x: string, ws: string, z: string, r: string)
    requires Core(q) && ParseOuterCore(q).Single? && ParseOuterCore(q).pkg == was && PkgSafe(name)
    ensures q == was + x && Core(name + x) && OpenBody(name + x) == name + ws + "{" + z + "=" + r
    ensures OpenBody(q) == was + ws + "{" + z + "=" + r
    ensures Opens(name + x) <==> Opens(q)
    ensures Blank(ws) && '=' !in r && ThreadBehind(z).Some? && ThreadBehind(z).value != ""
    ensures forall t :: RenamedTail(x + t, name) == x + t
  {
    hide Core, PkgSafe, SplitSingleLine, Trim, ThreadBehind, RenamedTail, ParseOuterCore, OpenBody, Opens, Blank;
    var g;
    ws, z, r, g := CoreParts(q, was);
    x := ws + "{" + z + "=" + r + g;
    Regrouped(was, ws, z, r, g);
    Regrouped(name, ws, z, r, g);
    CoreUnder(q, was, name, ws, z + "=" + r + g);
    OpenUnder(q, was, x, name, OpenBody(q), g, name + ws + "{" + z + "=" + r);
    hide Parted;
    TailsUnder(ws, z, r, g, name);
  }

  lemma OpenUnder(q: string, was: string, x: string, name: string, b: string, g: string, body: string)
    requires Core(q) && q == was + x && x != "" && b == OpenBody(q) && q == b + g && (Opens(q) <==> g != "")
    requires (Opens(q) ==> exists h :: g == h + "{" && Blank(h)) && name + x == body + g && |g| < |x|
    ensures OpenBody(name + x) == body && (Opens(name + x) <==> Opens(q))
  {
    hide Core;
    var p := name + x;
    assert p[|p| - 1] == x[|x| - 1] == q[|q| - 1];
    if Opens(q) {
      var h :| g == h + "{" && Blank(h);
      BodyEnds(q, b, h);
      var n := |x| - |g| - 1;
      assert b[|b| - 1] == q[|was| + n] == x[n] && body[|body| - 1] == p[|name| + n] == x[n];
      OpenBodyOf(body, h);
      assert body + h + "{" == p;
    } else {
      assert g == "" && p == body;
    }
  }

  /** More text in front of the braces makes the thread longer. */
  lemma ThreadLonger(p: string, z: string)
    requires ThreadBehind(z).Some?
    ensures ThreadBehind(p + "{" + z).Some? && ThreadBehind(p + "{" + z).value != ""
  {
    hide Trim, TrimEnd;
    var u, w := TrimEnd("{" + z), p + "{" + z;
    EndTrimmed("{" + p, '{', z);
    assert "{" + w == ("{" + p) + ['{'] + z && ['{'] + z == "{" + z;
    assert TrimEnd("{" + w) == ("{" + p) + u;
    EndTrimmed("", '{', z);
    var y := u[1..|u| - 1];
    assert u[..|u| - 1] == ['{'] + y;
    assert (("{" + p) + u)[..|("{" + p) + u| - 1] == ("{" + p) + ['{'] + y;
    EndTrimmed("{" + p, '{', y);
    var v := TrimEnd(['{'] + y);
    assert (("{" + p) + v)[1..] == p + v;
    assert (p + v)[|p|] == '{';
    BraceInTrim(p + v, |p|);
  }

  /** The name and its rest, read as a single-line rule. */
  lemma NewSingle(name: string, ws: string, z: string, r: string)
    requires PkgSafe(name) && Blank(ws) && '=' !in r && ThreadBehind(z).Some? && ThreadBehind(z).value != ""
    ensures var s := SplitSingleLine(name + ws + "{" + z + "=" + r);
            if '{' in name then
              Find(name, '{') >= 0 &&
              if Trim(name[..Find(name, '{')]) == "" then s.None?
              else s.Some? && s.value.pkg == Trim(name[..Find(name, '{')])
            else s == Some(SingleLine(name, ThreadBehind(z).value, Trim(r)))
  {
    hide ThreadBehind, SplitSingleLine, Trim, Find;
    SafeName(name);
    if '{' in name {
      FindFacts(name, '{');
      var k := Find(name, '{');
      var a, p := name[..k], name[k + 1..] + ws;
      assert name == a + "{" + name[k + 1..];
      assert name + ws + "{" + z == a + "{" + (p + "{" + z);
      ThreadLonger(p, z);
      SingleOrNone(a, p + "{" + z, r);
    } else {
      TrimmedName(name, ws);
      SingleOrNone(name + ws, z, r);
    }
  }

  lemma TrimmedName(name: string, ws: string)
    requires PkgSafe(name) && '{' !in name && Blank(ws)
    ensures Trim(name + ws) == name && '{' !in name + ws
  {
    assert "" + name + ws == name + ws;
    TrimIs("", name, ws);
    forall i | 0 <= i < |name + ws| ensures (name + ws)[i] != '{' {
      assert (name + ws)[i] == if i < |name| then name[i] else ws[i - |name|];
    }
  }

  lemma SingleOrNone(a: string, z: string, r: string)
    requires '{' !in a && '=' !in r && ThreadBehind(z).Some? && ThreadBehind(z).value != ""
    ensures var s := SplitSingleLine(a + "{" + z + "=" + r);
            if Trim(a) == "" then s.None? else s == Some(SingleLine(Trim(a), ThreadBehind(z).value, Trim(r)))
  {
    hide Trim, ThreadBehind, SingleNames, RFind;
    var l, b := a + "{" + z, a + "{" + z + "=" + r;
    assert b == l + ['='] + r;
    RFindIs(l, '=', r);
    assert b[..|l|] == l && b[|l| + 1..] == r;
    NamesJoin(a, z);
  }

  /** A body with a brace before its last `=` that is no single-line rule names no package
      without a brace. */
  lemma NamedWithBrace(l: string, r: string, k: nat, open: bool, was: string)
    requires k < |l| && l[k] == '{' && '=' !in r && '{' !in was && was != ""
    requires SplitSingleLine(l + "=" + r).None?
    ensures OuterPkg(OuterOfBody(l + "=" + r, open)) != was
  {
    hide Trim, SplitSingleLine, RFind, CloseLike;
    var b := l + "=" + r;
    assert b == l + ['='] + r;
    RFindIs(l, '=', r);
    assert b[..|l|] == l;
    BraceInTrim(l, k);
  }

  lemma BraceInTrim(s: string, k: nat)
    requires k < |s| && s[k] == '{'
    ensures '{' in Trim(s)
  {
    var l, r := TrimSplit(s);
    hide Trim;
    OneIn(s, l, Trim(s), r, k);
  }

  lemma NoBraceInName(q: string, was: string)
    requires ParseOuterCore(q).Single? && ParseOuterCore(q).pkg == was
    ensures '{' !in was && was != ""
  {
    hide Trim;
    BodySingle(q, was);
    var a, z, r := SingleBody(OpenBody(q), was);
    var l, t := TrimSplit(a);
    assert forall c | c in was :: c in a;
  }

  /** A renamed single-line rule: of the old package again if the new name names itself,
      otherwise not. */
  lemma SingleAfter(raw: string, was: string, name: string)
    requires Classify(raw).Text? && Classify(raw).outer.Single? && Classify(raw).outer.pkg == was && PkgSafe(name)
    requires was != name
    ensures var d := Classify(RenamedLine(raw, was, name));
            && d.Text?
            && (NamesItself(was, name) ==> d.outer.Single? && d.outer.pkg == was && d.outer.open == Classify(raw).outer.open)
            && (!NamesItself(was, name) ==> OuterPkg(d.outer) != was)
  {
    hide Core, PkgSafe, Tail, ParseOuterCore, Classify, Opens, RenamedTail, RenamedLine, Trim, OpenBody, ThreadBehind,
         SplitSingleLine, Find;
    NotSkippedText(raw);
    var lead, q, t := ShapeOf(raw);
    ReadShape(lead, q, t);
    var x, ws, z, r := RenamedBody(q, was, name);
    RenamedShape(lead, q, t, was, x, name);
    EmptyTail();
    TailTrimmed(t);
    assert RenamedTail(x + TrimEnd(t), name) == x + TrimEnd(t);
    assert name + (x + TrimEnd(t)) == "" + (name + x) + TrimEnd(t);
    ReadShape("", name + x, TrimEnd(t));
    NewSingle(name, ws, z, r);
    NoBraceInName(q, was);
    OuterIs(q, name + x, was, name, ws, z, r);
  }

  /** Under a name without a brace it is the same single-line rule of the new package. */
  lemma SingleRenamed(raw: string, was: string, name: string)
    requires Classify(raw).Text? && Classify(raw).outer.Single? && Classify(raw).outer.pkg == was && PkgSafe(name) && '{' !in name
    ensures var d := Classify(RenamedLine(raw, was, name)); d.Text? && d.outer == WithPkg(Classify(raw).outer, name)
  {
    hide Core, PkgSafe, Tail, ParseOuterCore, Classify, Opens, RenamedTail, RenamedLine, Trim, OpenBody, ThreadBehind,
         SplitSingleLine, Find;
    NotSkippedText(raw);
    var lead, q, t := ShapeOf(raw);
    ReadShape(lead, q, t);
    var x, ws, z, r := RenamedBody(q, was, name);
    RenamedShape(lead, q, t, was, x, name);
    EmptyTail();
    TailTrimmed(t);
    assert RenamedTail(x + TrimEnd(t), name) == x + TrimEnd(t);
    assert name + (x + TrimEnd(t)) == "" + (name + x) + TrimEnd(t);
    ReadShape("", name + x, TrimEnd(t));
    NewSingle(name, ws, z, r);
    NoBraceInName(q, was);
    NoBraceBlank(was, ws);
    SingleOrNone(was + ws, z, r);
    SameSingle(q, name + x, was, name);
  }

  lemma NoBraceBlank(was: string, ws: string)
    requires '{' !in was && Blank(ws)
    ensures '{' !in was + ws
  {
    forall i | 0 <= i < |was + ws| ensures (was + ws)[i] != '{' {
      assert (was + ws)[i] == if i < |was| then was[i] else ws[i - |was|];
    }
  }

  lemma SameSingle(q: string, p: string, was: string, name: string)
    requires ParseOuterCore(q).Single? && (Opens(p) <==> Opens(q))
    requires var s, u := SplitSingleLine(OpenBody(q)), SplitSingleLine(OpenBody(p));
             s.Some? ==> u == Some(SingleLine(name, s.value.thread, s.value.cpus))
    ensures ParseOuterCore(p) == WithPkg(ParseOuterCore(q), name)
  {
    hide SplitSingleLine, Opens, OpenBody, RFind, CloseLike, Trim;
  }

  lemma OuterIs(q: string, p: string, was: string, name: string, ws: string, z: string, r: string)
    requires ParseOuterCore(q).Single? && ParseOuterCore(q).pkg == was && (Opens(p) <==> Opens(q))
    requires OpenBody(p) == name + ws + "{" + z + "=" + r && '=' !in r && '{' !in was && was != "" && was != name
    requires var s := SplitSingleLine(OpenBody(p));
             if '{' in name then
               Find(name, '{') >= 0 &&
               if Trim(name[..Find(name, '{')]) == "" then s.None?
               else s.Some? && s.value.pkg == Trim(name[..Find(name, '{')])
             else s.Some? && s.value.pkg == name
    ensures NamesItself(was, name) ==>
              ParseOuterCore(p).Single? && ParseOuterCore(p).pkg == was && ParseOuterCore(p).open == ParseOuterCore(q).open
    ensures !NamesItself(was, name) ==> OuterPkg(ParseOuterCore(p)) != was
  {
    hide SplitSingleLine, Trim, Opens, OpenBody, Find, CloseLike, RFind;
    if SplitSingleLine(OpenBody(p)).None? {
      var l := name + ws + "{" + z;
      assert l[|name + ws|] == '{';
      NamedWithBrace(l, r, |name + ws|, Opens(p), was);
    }
  }

  // ----- a bare header on which the new name is a trap

  /** What the new name, put on a bare header, is read as. */
  function TrapOuter(o: Outer, name: string): Outer
  {
    if o.BareOpen? then OuterOfBody(name, true) else ParseOuterCore(name)
  }

  lemma TrapReads(raw: string, was: string, name: string)
    requires PkgSafe(was) && PkgSafe(name) && NameTrap(raw, was, name)
    ensures var c, d := Classify(raw), Classify(RenamedLine(raw, was, name));
            c.Text? && d.Text? && d.outer == TrapOuter(c.outer, name) && (c.outer == BareOpen(was) || c.outer == Pending(was))
    ensures '=' !in was
    ensures !NameTrap(RenamedLine(raw, was, name), was, name)
  {
    hide Core, PkgSafe, Tail, ParseOuterCore, Classify, Trim, Opens, RenamedTail, RenamedLine, CommentAt, OuterOfBody, StripComment;
    NotSkippedText(raw);
    var lead, q, t := ShapeOf(raw);
    ReadShape(lead, q, t);
    CommentAtShape(lead, q, t);
    var g, x := BareRest(q, was);
    var g2 := BareParts(q, was);
    assert q == was + x;
    RenamedShape(lead, q, t, was, x, name);
    TailTrimmed(t);
    EmptyTail();
    TrapTail(x, g, TrimEnd(t), name);
    assert name + (x + TrimEnd(t)) == "" + (name + x) + TrimEnd(t);
    TrapCore(name, g, x);
    assert was + "" == was;
    ReadShape("", name + x, TrimEnd(t));
    if '=' in name {
      var k :| 0 <= k < |name| && name[k] == '=';
      assert (name + x)[k] == '=';
    } else {
      OpenIsNotPending(name);
    }
  }

  lemma TrapTail(x: string, g: string, t: string, name: string)
    requires Blank(g) && x in {"", g + "{"} && Tail(t) && ('=' in name ==> !Blank(t))
    ensures RenamedTail(x + t, name) == x + t
  {
    hide Tail, RenamedTail;
    if '=' in name {
      CommentedTail(x, g, t, name);
    } else {
      PlainTail(x + t, name);
    }
  }

  lemma TrapCore(name: string, g: string, x: string)
    requires PkgSafe(name) && Blank(g) && x in {"", g + "{"}
    ensures Core(name + x)
    ensures ParseOuterCore(name + x) == if x == "" then ParseOuterCore(name) else OuterOfBody(name, true)
  {
    if x == "" {
      assert name + x == name;
    } else {
      OpenLineCore(name, g);
      OpenBodyOf(name, g);
      assert name + x == name + g + "{";
    }
  }

  /** On a line with a brace, a name that names itself opens a block of some package. */
  lemma TrapOpens(was: string, name: string)
    requires NamesItself(was, name) && was != "" && '=' in name && '=' !in was
    ensures var o := OuterOfBody(name, true);
            (o.Single? && o.open) || (o.Rule? && o.open) || (o.BareOpen? && o.pkg != "")
  {
    hide Trim, SplitSingleLine, CloseLike;
    FindFacts(name, '{');
    RFindFacts(name, '=');
    var k, eq := Find(name, '{'), RFind(name, '=');
    if eq < k {
      assert name[..k][eq] == '=';
      EqInTrim(name[..k], eq);
    } else {
      assert name[..eq][k] == '{';
      BraceInTrim(name[..eq], k);
    }
    hide Find, RFind;
  }

  lemma EqInTrim(s: string, k: nat)
    requires k < |s| && s[k] == '='
    ensures '=' in Trim(s)
  {
    var l, r := TrimSplit(s);
    hide Trim;
    OneIn(s, l, Trim(s), r, k);
  }

  lemma NameLast(name: string)
    requires PkgSafe(name)
    ensures name != "" && Trimmed(name) && !CloseLike(name)
  {
  }

  /** A name read by its last `=` is shorter. */
  lemma TrapShorter(o: Outer, name: string)
    requires PkgSafe(name) && (o.BareOpen? || o.Pending?) && ('=' in name || (o.Pending? && Opens(name)))
    ensures OuterPkg(TrapOuter(o, name)) != name
  {
    hide Trim, SplitSingleLine, RFind, CloseLike, OpenBody, PkgSafe, Opens;
    NameLast(name);
    if o.BareOpen? {
      BodyShorter(name, true, name);
    } else {
      BodyOf(name);
      BodyShorter(OpenBody(name), Opens(name), name);
    }
  }

  lemma BodyOf(name: string)
    requires name != ""
    ensures |OpenBody(name)| <= |name| && (Opens(name) ==> |OpenBody(name)| < |name|)
    ensures ('=' in name <==> '=' in OpenBody(name)) && (!Opens(name) ==> OpenBody(name) == name)
  {
    if '=' in name {
      BodyHasEq(name);
    }
    if Opens(name) {
      BodyFacts(name[..|name| - 1]);
      assert forall c | c in OpenBody(name) :: c in name[..|name| - 1];
      assert forall c | c in name[..|name| - 1] :: c in name;
    }
  }

  lemma BodyShorter(b: string, open: bool, name: string)
    requires |b| <= |name| && name != "" && ('=' in b || |b| < |name|)
    ensures OuterPkg(OuterOfBody(b, open)) != name
  {
    hide Trim, RFind, CloseLike;
    RFindFacts(b, '=');
    var s := SplitSingleLine(b);
    var eq := RFind(b, '=');
    if s.Some? {
      SinglePkgShort(b);
    } else if eq >= 0 {
      TrimShort(b[..eq]);
    }
    hide SplitSingleLine;
  }

  lemma SinglePkgShort(b: string)
    requires SplitSingleLine(b).Some?
    ensures |SplitSingleLine(b).value.pkg| < |b|
  {
    var a, z, r := SingleBody(b, SplitSingleLine(b).value.pkg);
    TrimShort(a);
    hide Trim;
  }

  /** The trapped name ends in a lone `=` behind the old name: the next round writes a
      second one, and the line is right. */
  predicate Twice(was: string, name: string)
  {
    name != "" && name[|name| - 1] == '=' && Trim(name[..|name| - 1]) == was
  }

  lemma TwiceReads(was: string, name: string)
    requires PkgSafe(was) && PkgSafe(name) && Twice(was, name)
    ensures OuterOfBody(name, true) == BareOpen(was) && ParseOuterCore(name) == Pending(was) && '=' in name
  {
    hide Trim, CloseLike;
    var n := |name| - 1;
    NameLast(name);
    var l := name[..n];
    assert name == l + ['='] + "";
    RFindIs(l, '=', "");
    TrimBlank("");
    hide RFind;
    assert name[n + 1..] == "";
    var lead, trail := TrimSplit(l);
    NotTwoNames(l, lead, was, trail);
  }

  /** Text that trims to a package name is not the front of a single-line rule. */
  lemma NotTwoNames(l: string, lead: string, was: string, trail: string)
    requires PkgSafe(was) && l == lead + was + trail && Blank(lead) && Blank(trail)
    ensures SingleNames(l).None?
  {
    hide Trim, TrimEnd, Find, Core, CloseLike;
    var t := lead + was;
    NameEnds(lead, was, trail);
    assert t[|t| - 1] == was[|was| - 1];
    if was[|was| - 1] == '}' {
      var left := TrimEnd(t[..|t| - 1]);
      NoBraceLeft(lead, was);
      FindFacts(left, '{');
    }
  }

  lemma NameEnds(lead: string, was: string, trail: string)
    requires PkgSafe(was) && Blank(trail)
    ensures TrimEnd(lead + was + trail) == lead + was && was != ""
  {
    NameLast(was);
    hide PkgSafe;
    assert (lead + was)[|lead + was| - 1] == was[|was| - 1];
    BodyLenIs(lead + was, trail);
  }

  lemma NoBraceLeft(lead: string, was: string)
    requires was != "" && '{' !in was && Blank(lead)
    ensures var t := lead + was; '{' !in TrimEnd(t[..|t| - 1])
  {
    var t := lead + was;
    var left := TrimEnd(t[..|t| - 1]);
    BodyFacts(t[..|t| - 1]);
    forall i | 0 <= i < |left| ensures left[i] != '{' {
      assert left[i] == t[i] == (if i < |lead| then lead[i] else was[i - |lead|]);
    }
  }

  /** A trapped header is the same header again exactly for such a name. */
  lemma SameAgain(o: Outer, was: string, name: string)
    requires PkgSafe(was) && PkgSafe(name) && (o == BareOpen(was) || o == Pending(was)) && was != name
    requires '=' in name || (o.Pending? && Opens(name))
    ensures TrapOuter(o, name) == o <==> Twice(was, name)
  {
    hide PkgSafe, Trim, RFind, SplitSingleLine, CloseLike, OpenBody;
    NameLast(name);
    if Twice(was, name) {
      TwiceReads(was, name);
    } else if TrapOuter(o, name) == o {
      SafeName(was);
      if o.Pending? {
        PendingBody(name);
      }
      EqEnds(name, o.BareOpen?, was);
    }
  }

  lemma PendingBody(name: string)
    requires ParseOuterCore(name).Pending?
    ensures !Opens(name) && ParseOuterCore(name) == OuterOfBody(name, false)
  {
  }

  lemma LastOf(s: string, k: nat)
    requires k <= |s|
    ensures Blank(s[k..]) ==> k == |s| || IsWs(s[|s| - 1])
  {
    if k < |s| {
      assert s[k..][|s| - 1 - k] == s[|s| - 1];
    }
  }

  lemma EqEnds(name: string, open: bool, was: string)
    requires Trimmed(name) && '=' in name && was != ""
    requires OuterOfBody(name, open) == BareOpen(was) || OuterOfBody(name, open) == Pending(was)
    ensures Twice(was, name)
  {
    hide Trim, SplitSingleLine, CloseLike;
    RFindFacts(name, '=');
    var eq := RFind(name, '=');
    hide RFind;
    var v := name[eq + 1..];
    var l, t := TrimSplit(v);
    assert Blank(v);
    LastOf(name, eq + 1);
    assert eq == |name| - 1;
  }

  /** When a trapped header becomes a single-line rule of the old package. */
  lemma TrapSingle(o: Outer, was: string, name: string)
    requires PkgSafe(name) && (o.BareOpen? || o.Pending?)
    ensures TrapOuter(o, name).Single? && TrapOuter(o, name).pkg == was <==> Endless(was, name)
    ensures Endless(was, name) ==> '=' in name && NamesItself(was, name)
  {
    hide Trim, CloseLike, SingleNames, RFind, PkgSafe, Find;
    NameLast(name);
    SameNames(name);
    if Endless(was, name) {
      EndlessFront(was, name);
    }
    hide SplitSingleLine, OpenBody;
  }

  /** A brace behind the last `=` does not change the names in front of it. */
  lemma SameNames(name: string)
    requires name != ""
    ensures var a, b := SplitSingleLine(name), SplitSingleLine(OpenBody(name));
            (a.Some? <==> b.Some?) && (a.Some? ==> a.value.pkg == b.value.pkg)
  {
    hide Trim, SingleNames, OpenBody, RFind;
    var b := OpenBody(name);
    FrontIn(name, b);
    var rest := name[|b|..];
    BehindBody(name);
    RFindSame(b, rest);
    RFindFacts(b, '=');
    assert name == b + rest;
    if RFind(b, '=') >= 0 {
      assert name[..RFind(b, '=')] == b[..RFind(b, '=')];
    }
  }

  lemma BehindBody(name: string)
    ensures |OpenBody(name)| <= |name| && '=' !in name[|OpenBody(name)|..]
  {
    if Opens(name) {
      var u, b := name[..|name| - 1], OpenBody(name);
      BodyFacts(u);
      var rest := name[|b|..];
      forall i | 0 <= i < |rest| ensures rest[i] != '=' {
        assert rest[i] == name[|b| + i];
        assert i < |rest| - 1 ==> name[|b| + i] == u[|b| + i];
      }
    }
  }

  lemma RFindSame(b: string, rest: string)
    requires '=' !in rest
    ensures RFind(b + rest, '=') == RFind(b, '=')
  {
    RFindFacts(b, '=');
    RFindFacts(b + rest, '=');
    var k := RFind(b, '=');
    if k >= 0 {
      var l, r := b[..k], b[k + 1..];
      assert b + rest == l + ['='] + (r + rest);
      forall i | 0 <= i < |r| ensures r[i] != '=' {
        assert r[i] == b[k + 1 + i];
      }
      RFindIs(l, '=', r + rest);
    }
    hide RFind;
  }

  lemma EndlessFront(was: string, name: string)
    requires Endless(was, name)
    ensures '=' in name && NamesItself(was, name)
  {
    hide Trim, SplitSingleLine, Find;
    var b := OpenBody(name);
    var a, z, r := SingleBody(b, was);
    FrontIn(name, b);
    var rest := name[|b|..];
    assert name == b + rest == a + "{" + (z + "=" + r + rest);
    assert name[|a|] == '{' && name[|a| + 1 + |z|] == '=';
    FirstAt(name, |a|);
    assert name[..|a|] == a;
  }

  lemma FrontIn(name: string, b: string)
    requires b == OpenBody(name)
    ensures |b| <= |name| && name[..|b|] == b
  {
    if Opens(name) {
      BodyFacts(name[..|name| - 1]);
    }
  }

  lemma FirstAt(s: string, k: nat)
    requires k < |s| && s[k] == '{' && '{' !in s[..k]
    ensures Find(s, '{') == k
  {
    FindFacts(s, '{');
    assert forall i | 0 <= i < k :: s[i] == s[..k][i];
  }
}
