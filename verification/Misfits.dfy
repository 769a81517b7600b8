/** Renaming a package to a name that does not fit one of its headers: the file no longer
    loads, has more rules, or names the new package on fewer lines. */
module Misfits {
  import opened Base
  import opened Text
  import opened Lines
  import opened Syntax
  import opened Shapes
  import opened Printing
  import opened Loader
  import opened Edits
  import opened Tracking
  import opened Stripping
  import opened Swapping
  import opened Renaming
  import opened RenamedLines
  import opened RuleEdits
  import opened Purging
  import opened RenameRounds
  import opened RenameSteps
  import opened DeletingPkg
  import opened Relabelling
  import S = Scanner

  // ----- files whatever the rules say

  /** A verdict that takes every rule: what is left is the block structure. */
  function Anything(): Verdict
  {
    (pkg, thread, cpus) => true
  }

  lemma {:induction false} AnythingRun(ok: Verdict, s: State, cs: seq<Line>)
    requires Hard(ok, s, cs) == 0
    ensures Hard(Anything(), s, cs) == 0 && Rules(Anything(), s, cs) == Rules(ok, s, cs)
    decreases |cs|
  {
    if cs != [] {
      hide Step, SoftFails;
      AnythingRun(ok, Step(s, cs[0]), cs[1..]);
      AnythingLine(ok, s, cs[0]);
      hide HardFails, Emit;
    }
  }

  lemma AnythingLine(ok: Verdict, s: State, c: Line)
    requires HardFails(ok, s, c) == 0
    ensures HardFails(Anything(), s, c) == 0 && Emit(Anything(), s, c) == Emit(ok, s, c)
  {
  }

  /** How many rules the lines ask for. */
  function Asks(lines: seq<string>): nat
  {
    |Loaded(Anything(), ClassifyAll(lines))|
  }

  lemma CleanAnyway(ok: Verdict, lines: seq<string>)
    requires Clean(ok, ClassifyAll(lines))
    ensures Clean(Anything(), ClassifyAll(lines)) && Asks(lines) == |Loaded(ok, ClassifyAll(lines))|
  {
    hide Classify, Hard, Soft, After, Rules;
    AnythingRun(ok, START, ClassifyAll(lines));
  }

  // ----- two runs that differ by the names of packages

  predicate Alike(s: State, r: State)
  {
    s.inBlock == r.inBlock && s.pend == r.pend
  }

  lemma AlikeLine(s: State, r: State, c: Line)
    requires Alike(s, r)
    ensures Alike(Step(s, c), Step(r, c)) && |Emit(Anything(), r, c)| == |Emit(Anything(), s, c)|
    ensures HardFails(Anything(), r, c) == HardFails(Anything(), s, c) && SoftFails(r, c) == SoftFails(s, c)
  {
  }

  lemma Alikes(s: State, r: State)
    ensures Alike(s, r) <==> s.inBlock == r.inBlock && s.pend == r.pend
  {
  }

  lemma {:induction false} AlikeRun(s: State, r: State, cs: seq<Line>)
    requires Alike(s, r)
    ensures Alike(After(s, cs), After(r, cs)) && |Rules(Anything(), r, cs)| == |Rules(Anything(), s, cs)|
    ensures Hard(Anything(), r, cs) == Hard(Anything(), s, cs) && Soft(r, cs) == Soft(s, cs)
    decreases |cs|
  {
    hide Alike, Step, Emit, HardFails, SoftFails;
    if cs != [] {
      AlikeLine(s, r, cs[0]);
      AlikeRun(Step(s, cs[0]), Step(r, cs[0]), cs[1..]);
    }
  }

  // ----- a header that opens its block for another package

  /** d opens the same block as the bare header c, under another name or with a rule. */
  predicate Stray(c: Line, d: Line, was: string, name: string)
  {
    && c.Text? && d.Text? && d.outer != c.outer && OuterPkg(d.outer) != name
    && (if c.outer == BareOpen(was) then
          Opening(d.outer) && (d.outer.BareOpen? ==> d.outer.pkg != "") && !(d.outer.Single? && d.outer.pkg == was)
        else c.outer == Pending(was) && d.outer.Pending? && d.outer.pkg != "")
  }

  /** A header to its brace. */
  predicate HeaderLines(m: seq<Line>)
  {
    && m != [] && m[0].Text?
    && (if m[0].outer.Pending? then
          |m| > 1 && m[|m| - 1].Text? && m[|m| - 1].outer == BareOpen("") && forall k | 0 < k < |m| - 1 :: m[k].Skip?
        else |m| == 1)
  }

  lemma {:induction false} GapRun(s: State, gap: seq<Line>, brace: Line)
    requires !s.inBlock && s.pend != "" && (forall k | 0 <= k < |gap| :: gap[k].Skip?)
    requires brace.Text? && brace.outer == BareOpen("")
    ensures Rules(Anything(), s, gap + [brace]) == [] && Hard(Anything(), s, gap + [brace]) == 0 && Soft(s, gap + [brace]) == 0
    ensures After(s, gap + [brace]) == State(true, s.pend, "")
    decreases |gap|
  {
    if gap == [] {
      assert [] + [brace] == [brace];
      One(Anything(), s, brace);
    } else {
      assert (gap + [brace])[1..] == gap[1..] + [brace];
      GapRun(s, gap[1..], brace);
    }
  }

  lemma OneHeader(m: seq<Line>)
    requires HeaderLines(m)
    ensures m != [] && m[0].Text? && (m[0].outer.Pending? <==> |m| > 1)
  {
  }

  lemma HeaderSplit(m: seq<Line>) returns (gap: seq<Line>, brace: Line)
    requires HeaderLines(m) && |m| > 1
    ensures m[0].outer.Pending? && m == [m[0]] + (gap + [brace]) && (forall k | 0 <= k < |gap| :: gap[k].Skip?)
    ensures brace.Text? && brace.outer == BareOpen("")
  {
    gap, brace := m[1..|m| - 1], m[|m| - 1];
    forall k | 0 <= k < |gap| ensures gap[k].Skip? {
      assert gap[k] == m[k + 1];
    }
  }

  /** What a header and its brace do to the loader. */
  lemma HeaderRun(s: State, m: seq<Line>)
    requires HeaderLines(m) && s == START
    requires (m[0].outer.BareOpen? || m[0].outer.Pending?) ==> OuterPkg(m[0].outer) != ""
    requires m[0].outer.Pending? || Opening(m[0].outer)
    ensures After(s, m) == State(true, OuterPkg(m[0].outer), "") && Hard(Anything(), s, m) == 0 && Soft(s, m) == 0
    ensures |Rules(Anything(), s, m)| == if m[0].outer.Single? || m[0].outer.Rule? then 1 else 0
  {
    hide After, Rules, Hard, Soft, HeaderLines;
    OneHeader(m);
    One(Anything(), s, m[0]);
    if |m| == 1 {
      assert m == [m[0]];
    } else {
      var gap, brace := HeaderSplit(m);
      Concat(Anything(), s, [m[0]], gap + [brace]);
      GapRun(Step(s, m[0]), gap, brace);
    }
  }

  lemma HeaderNames(s: State, m: seq<Line>, pkg: string)
    requires HeaderLines(m) && !s.inBlock && s.pend == "" && pkg != ""
    requires (m[0].outer.BareOpen? || m[0].outer.Pending?) ==> OuterPkg(m[0].outer) != ""
    requires m[0].outer.Pending? || Opening(m[0].outer)
    ensures |Events(s, m, pkg)| == if OuterPkg(m[0].outer) == pkg then 1 else 0
    ensures !(m[0].outer.Single? && m[0].outer.pkg == pkg) ==> Lone !in Events(s, m, pkg)
  {
    hide Events, HeaderLines;
    OneHeader(m);
    if |m| == 1 {
      assert m == [m[0]];
      OneEvents(s, m[0], pkg);
    } else {
      var gap, brace := HeaderSplit(m);
      EventsConcat(s, [m[0]], gap + [brace], pkg);
      OneEvents(s, m[0], pkg);
      GapEvents(Step(s, m[0]), gap, brace, pkg);
      One(Anything(), s, m[0]);
    }
  }

  /** How often the loader reads one of the two names. */
  function Both(lines: seq<string>, was: string, name: string): nat
  {
    Naming(lines, was) + Naming(lines, name)
  }

  lemma StrayLines(cs: seq<Line>, i: nat, v: nat, d: Line, was: string, name: string)
    requires HeaderOn(cs, was, i, v) && Stray(cs[i], d, was, name) && was != ""
    ensures var m := cs[i..v + 1];
            && m != [] && m[0] == cs[i] && HeaderLines(m) && HeaderLines([d] + m[1..])
            && cs == cs[..i] + m + cs[v + 1..] && cs[i := d] == cs[..i] + ([d] + m[1..]) + cs[v + 1..]
    ensures (cs[i].outer.Pending? || Opening(cs[i].outer)) && (d.outer.Pending? || Opening(d.outer))
    ensures OuterPkg(cs[i].outer) == was && !cs[i].outer.Single? && !cs[i].outer.Rule?
    ensures (d.outer.BareOpen? || d.outer.Pending? ==> OuterPkg(d.outer) != "") && OuterPkg(d.outer) != name
    ensures !(d.outer.Single? && d.outer.pkg == was)
    ensures d.Text? && cs[i].Text? && (d.outer.BareOpen? || d.outer.Pending? ==> OuterPkg(d.outer) != was)
  {
    var m := cs[i..v + 1];
    SliceLines(cs, i, v, d);
    hide Stray, HeaderOn, OuterPkg;
  }

  /** The lines from a header to its brace, and the same with the header replaced. */
  lemma SliceLines(cs: seq<Line>, i: nat, v: nat, d: Line)
    requires i <= v < |cs|
    ensures var m := cs[i..v + 1]; var n := [d] + m[1..];
            && |m| == |n| == v + 1 - i && m[0] == cs[i] && n[0] == d && m[|m| - 1] == cs[v] && (i < v ==> n[|n| - 1] == cs[v])
            && (forall k | 0 < k < |m| :: m[k] == cs[i + k] && n[k] == cs[i + k])
            && cs == cs[..i] + m + cs[v + 1..] && cs[i := d] == cs[..i] + n + cs[v + 1..]
  {
  }

  lemma StrayCounts(cs: seq<Line>, i: nat, v: nat, d: Line, was: string, name: string)
    requires Clean(Anything(), cs) && HeaderOn(cs, was, i, v) && Stray(cs[i], d, was, name)
    requires was != "" && name != "" && was != name && StateAt(cs, i) == START
    ensures Clean(Anything(), cs[i := d])
    ensures var more := if d.outer.Single? || d.outer.Rule? then 1 else 0;
            |Loaded(Anything(), cs[i := d])| == |Loaded(Anything(), cs)| + more
    ensures |Events(START, cs[i := d], was)| == |Events(START, cs, was)| - (if OuterPkg(d.outer) == was then 0 else 1)
    ensures |Events(START, cs[i := d], name)| == |Events(START, cs, name)|
    ensures Lone !in Events(START, cs, was) ==> Lone !in Events(START, cs[i := d], was)
  {
    StrayLines(cs, i, v, d, was, name);
    hide After, Rules, Hard, Soft, Events, Step, HeaderOn, Stray, HeaderLines, Opening, OuterPkg, Clean;
    var m := cs[i..v + 1];
    var n := [d] + m[1..];
    HeadReplaced(cs[..i], m, n, cs[v + 1..]);
    HeadNames(cs[..i], m, n, cs[v + 1..], was);
    HeadNames(cs[..i], m, n, cs[v + 1..], name);
  }

  /** Lines that open one block outside every other. */
  predicate Header(m: seq<Line>)
  {
    && HeaderLines(m) && (m[0].outer.Pending? || Opening(m[0].outer))
    && (m[0].outer.BareOpen? || m[0].outer.Pending? ==> OuterPkg(m[0].outer) != "")
  }

  function OwnRules(o: Outer): nat
  {
    if o.Single? || o.Rule? then 1 else 0
  }

  /** Two headers in the same place of a file. */
  lemma HeadReplaced(front: seq<Line>, m: seq<Line>, n: seq<Line>, rest: seq<Line>)
    requires Header(m) && Header(n) && After(START, front) == START && Clean(Anything(), front + m + rest)
    ensures Clean(Anything(), front + n + rest)
    ensures |Loaded(Anything(), front + n + rest)| - OwnRules(n[0].outer)
         == |Loaded(Anything(), front + m + rest)| - OwnRules(m[0].outer)
  {
    hide After, Rules, Hard, Soft, Step, HeaderLines, Opening, OuterPkg, Alike;
    Cut(Anything(), START, front, m, rest);
    Cut(Anything(), START, front, n, rest);
    HeaderRun(START, m);
    HeaderRun(START, n);
    Alikes(After(START, m), After(START, n));
    AlikeRun(After(START, m), After(START, n), rest);
    Alikes(After(After(START, m), rest), After(After(START, n), rest));
  }

  lemma HeadNames(front: seq<Line>, m: seq<Line>, n: seq<Line>, rest: seq<Line>, pkg: string)
    requires Header(m) && Header(n) && After(START, front) == START && pkg != ""
    requires !(n[0].outer.Single? && n[0].outer.pkg == pkg)
    ensures |Events(START, front + n + rest, pkg)| - (if OuterPkg(n[0].outer) == pkg then 1 else 0)
         == |Events(START, front + m + rest, pkg)| - (if OuterPkg(m[0].outer) == pkg then 1 else 0)
    ensures Lone !in Events(START, front + m + rest, pkg) ==> Lone !in Events(START, front + n + rest, pkg)
  {
    hide After, Rules, Hard, Soft, Events, Step, HeaderLines, Opening, OuterPkg;
    Three(front, m, rest, pkg);
    Three(front, n, rest, pkg);
    HeaderRun(START, m);
    HeaderRun(START, n);
    HeaderNames(START, m, pkg);
    HeaderNames(START, n, pkg);
    SameEvents(After(START, m), After(START, n), rest, pkg);
  }

  // ----- a header that loses its block

  /** In front of line i nothing names the old package; line i does not wait for the brace
      on line v, with skipped lines between. */
  ghost predicate Broken(cs: seq<Line>, was: string, name: string, i: nat, v: nat)
  {
    && i <= v < |cs| && !StateAt(cs, i).inBlock && StateAt(cs, i).pend == ""
    && (S.StateAt(cs, i).pend.Some? ==> S.PendingName(cs, S.StateAt(cs, i).pend.value) != was)
    && (forall u | 0 <= u < i :: !SingleSeen(cs, was, u) && S.HeaderAt(cs, was, u).None?)
    && cs[i].Text?
    && (if i == v then cs[i].outer == BareOpen("")
        else
          && (cs[i].outer.Pending? ==> cs[i].outer.pkg == "")
          && (cs[i].outer.Single? && cs[i].outer.pkg == was ==> NamesItself(was, name))
          && (forall k | i < k < v :: cs[k].Skip?) && cs[v].Text? && cs[v].outer == BareOpen("") && cs[v].inner.Bad?)
  }

  ghost predicate BrokenFile(cs: seq<Line>, was: string, name: string)
  {
    exists i: nat, v: nat :: Broken(cs, was, name, i, v)
  }

  lemma {:induction false} SkipsKeep(cs: seq<Line>, i: nat, v: nat)
    requires i <= v <= |cs| && forall k | i <= k < v :: cs[k].Skip?
    ensures StateAt(cs, v) == StateAt(cs, i)
  {
    if i < v {
      SkipsKeep(cs, i, v - 1);
      StateAtNext(cs, v - 1);
    }
  }

  lemma BrokenFails(ok: Verdict, cs: seq<Line>, was: string, name: string, i: nat, v: nat)
    requires Broken(cs, was, name, i, v)
    ensures !Clean(ok, cs)
  {
    hide NamesItself, S.HeaderAt, S.StateAt, Hard, Soft, StateAt;
    StateAtNext(cs, i);
    LineOf(ok, cs, i);
    if i < v {
      SkipsKeep(cs, i + 1, v);
      LineOf(ok, cs, v);
    }
  }

  /** No line in front of i is rewritten, and none from i + 1 to v. */
  lemma BrokenMarks(cs: seq<Line>, was: string, name: string, i: nat, v: nat, k: nat)
    requires Broken(cs, was, name, i, v) && was != "" && Marked(S.Scan(cs, was), k) && k <= v
    ensures k == i
  {
    hide Marked, S.Scan, NamesItself, S.HeaderAt;
    MarkedIs(cs, was, k);
    MarkedLine(cs, was, k);
    if k < i && HeaderSeen(cs, was, k) {
      var u: nat :| u < |cs| && S.HeaderAt(cs, was, u).Some? && S.HeaderAt(cs, was, u).value.idx == k;
      BraceAt(cs, was, u);
    }
  }

  /** Rewritten, line i still does not wait for the brace. */
  lemma BrokenLine(raw: string, was: string, name: string)
    requires PkgSafe(was) && PkgSafe(name) && was != name && Classify(raw).Text? && OuterPkg(Classify(raw).outer) == was
    requires !Classify(raw).outer.Pending? && (IsHeader(Classify(raw).outer) || Classify(raw).outer.Single?)
    requires Classify(raw).outer.Single? ==> NamesItself(was, name)
    ensures var d := Classify(RenamedLine(raw, was, name));
            d.Text? && !d.outer.Pending? && (d.outer.Single? && d.outer.pkg == was ==> NamesItself(was, name))
  {
    hide Classify, PkgSafe, RenamedLine, NamesItself, Endless, OuterOfBody;
    if Classify(raw).outer.Single? {
      SingleAfter(raw, was, name);
    } else if NameTrap(raw, was, name) {
      TrapReads(raw, was, name);
      TrapSingle(Classify(raw).outer, was, name);
      OpenNotPending(name);
    } else {
      RenamedHeader(raw, was, name);
    }
  }

  lemma OpenNotPending(name: string)
    ensures !OuterOfBody(name, true).Pending?
  {
  }

  lemma BrokenRound(lines: seq<string>, was: string, name: string, i: nat, v: nat)
    requires Broken(ClassifyAll(lines), was, name, i, v) && PkgSafe(was) && PkgSafe(name) && was != name
    ensures Broken(ClassifyAll(RenameRound(lines, was, name)), was, name, i, v)
  {
    hide Classify, PkgSafe, RenamedLine, Marked, S.Scan, NamesItself, SingleSeen, S.HeaderAt, HeaderSeen;
    var next := RenameRound(lines, was, name);
    var cs, out := ClassifyAll(lines), ClassifyAll(next);
    SafeName(was);
    forall k | 0 <= k <= v && k != i ensures out[k] == cs[k] {
      if Marked(S.Scan(cs, was), k) {
        BrokenMarks(cs, was, name, i, v, k);
      }
      assert out[k] == Classify(next[k]) && cs[k] == Classify(lines[k]);
    }
    assert out[i] == Classify(next[i]) && cs[i] == Classify(lines[i]);
    if Marked(S.Scan(cs, was), i) {
      MarkedLine(cs, was, i);
      SeenIsSingle(cs, was, i);
      BrokenLine(lines[i], was, name);
    } else {
      assert next[i] == lines[i];
    }
    SameFrontStates(cs, out, was, i);
    SamePend(cs, out, i);
  }

  lemma SeenIsSingle(cs: seq<Line>, pkg: string, k: nat)
    ensures SingleSeen(cs, pkg, k) ==> k < |cs| && cs[k].Text? && cs[k].outer.Single? && cs[k].outer.pkg == pkg
  {
  }

  lemma SameFrontStates(cs: seq<Line>, out: seq<Line>, pkg: string, i: nat)
    requires i <= |cs| == |out| && forall k | 0 <= k < i :: out[k] == cs[k]
    ensures StateAt(out, i) == StateAt(cs, i) && S.StateAt(out, i) == S.StateAt(cs, i)
    ensures forall u | 0 <= u < i :: (SingleSeen(out, pkg, u) <==> SingleSeen(cs, pkg, u)) && S.HeaderAt(out, pkg, u) == S.HeaderAt(cs, pkg, u)
  {
    assert out[..i] == cs[..i];
    forall u | 0 <= u <= i ensures S.StateAt(out, u) == S.StateAt(cs, u) {
      SameScan(cs, out, u);
    }
    forall u | 0 <= u < i
      ensures (SingleSeen(out, pkg, u) <==> SingleSeen(cs, pkg, u)) && S.HeaderAt(out, pkg, u) == S.HeaderAt(cs, pkg, u)
    {
      S.PendingRun(cs, u);
      assert S.StateAt(out, u) == S.StateAt(cs, u);
    }
  }

  lemma {:induction false} SameScan(cs: seq<Line>, out: seq<Line>, u: nat)
    requires u <= |cs| == |out| && forall k | 0 <= k < u :: out[k] == cs[k]
    ensures S.StateAt(out, u) == S.StateAt(cs, u)
  {
    if u > 0 {
      SameScan(cs, out, u - 1);
      S.PendingRun(cs, u - 1);
    }
  }

  lemma {:induction false} BrokenForever(lines: seq<string>, was: string, name: string, i: nat, v: nat, k: nat)
    requires Broken(ClassifyAll(lines), was, name, i, v) && PkgSafe(was) && PkgSafe(name) && was != name
    ensures Broken(ClassifyAll(Rounds(lines, was, name, k)), was, name, i, v)
    decreases k
  {
    hide ClassifyAll, PkgSafe, RenameRound, Broken;
    if k > 0 {
      BrokenRound(lines, was, name, i, v);
      BrokenForever(RenameRound(lines, was, name), was, name, i, v, k - 1);
    }
  }

  // ----- the lone brace

  /** A line that opens a block without a name: a brace, perhaps behind a lone `=`. */
  lemma LoneBrace(q: string)
    requires Core(q) && ParseOuterCore(q) == BareOpen("")
    ensures q != "" && q[0] in {'{', '='} && forall k | 0 < k < |q| :: q[k] != '='
  {
    hide Trim, SplitSingleLine, CloseLike;
    var b := OpenBody(q);
    var body, g := BodyAndGap(q);
    RFindFacts(b, '=');
    var eq := RFind(b, '=');
    hide RFind;
    assert q == b + g + "{";
    if eq < 0 {
      assert b == "";
      assert q[0] == (g + "{")[0];
    } else {
      var l, t := TrimSplit(b[..eq]);
      var l', t' := TrimSplit(b[eq + 1..]);
      FrontSame(q, b, eq);
    }
    forall k | 0 < k < |q| ensures q[k] != '=' {
      assert k >= |b| ==> q[k] == (g + "{")[k - |b|];
    }
  }

  lemma FrontSame(q: string, b: string, eq: nat)
    requires |b| <= |q| && q[..|b|] == b && 0 <= eq < |b|
    ensures eq > 0 ==> b[..eq][0] == q[0]
  {
  }

  lemma NoKey(q: string)
    requires forall k | 0 < k < |q| :: q[k] != '='
    ensures SplitRuleCore(q).None?
  {
    hide Trim;
    NoKv(q);
    forall i | 0 <= i < |q| ensures !Closer(q, i) {
      assert forall k | 0 < k < i :: q[..i][k] == q[k];
      NoKv(q[..i]);
    }
    CloserNone(q);
  }

  lemma NoKv(y: string)
    requires forall k | 0 < k < |y| :: y[k] != '='
    ensures Kv(y).None?
  {
    RFindFacts(y, '=');
    TrimBlank("");
    assert RFind(y, '=') == 0 ==> y[..0] == "";
    hide Trim, RFind;
  }

  lemma BraceIsBad(raw: string)
    requires Classify(raw).Text? && Classify(raw).outer == BareOpen("")
    ensures Classify(raw).inner.Bad?
  {
    hide Core, Tail, ParseOuterCore, CloseLike, SplitRuleCore, Trim, StripComment, ParseOuter;
    NotSkippedText(raw);
    var lead, q, t := ShapeOf(raw);
    ReadShape(lead, q, t);
    LoneBrace(q);
    NoKey(q);
    NotClosed(q, TrimEnd(t));
  }

  lemma NotClosed(q: string, t: string)
    requires q != "" && q[0] in {'{', '='}
    ensures !CloseLike(q + t)
  {
  }

  // ----- all rounds

  /** What the new name makes of a header it does not fit. */
  lemma MisfitLine(raw: string, was: string, name: string)
    requires PkgSafe(was) && PkgSafe(name) && was != name && NameTrap(raw, was, name)
    requires !Twice(was, name) && !Endless(was, name)
    ensures var c, d := Classify(raw), Classify(RenamedLine(raw, was, name));
            && d.Text? && !(d.outer.Single? && d.outer.pkg == was)
            && (Stray(c, d, was, name)
                || (c.outer == BareOpen(was) && d.outer == BareOpen(""))
                || (c.outer == Pending(was) && (d.outer.Pending? ==> d.outer.pkg == "")))
  {
    hide Classify, PkgSafe, RenamedLine, Endless, Twice, NameTrap;
    TrapReads(raw, was, name);
    var o := Classify(raw).outer;
    TrapName(raw, was, name);
    SameAgain(o, was, name);
    TrapShorter(o, name);
    TrapSingle(o, was, name);
    BraceOpens(name);
  }

  lemma BraceOpens(name: string)
    ensures Opening(OuterOfBody(name, true))
  {
  }

  /** The first header, put under a name it does not fit. */
  lemma FirstMisfit(lines: seq<string>, was: string, name: string, i: nat, v: nat)
    requires Clean(Anything(), ClassifyAll(lines)) && HeaderOn(ClassifyAll(lines), was, i, v)
    requires StateAt(ClassifyAll(lines), i) == START
    requires PkgSafe(was) && PkgSafe(name) && was != name && !Fits(lines[i], was, name) && !Endless(was, name)
    requires forall u | 0 <= u < i :: !SingleSeen(ClassifyAll(lines), was, u) && S.HeaderAt(ClassifyAll(lines), was, u).None?
    ensures var cs, d := ClassifyAll(lines), Classify(RenamedLine(lines[i], was, name));
            Stray(cs[i], d, was, name) || BrokenFile(cs[i := d], was, name)
  {
    hide Classify, PkgSafe, RenamedLine, Endless, Twice, NameTrap, Clean, SingleSeen, S.HeaderAt, NamesItself, Broken, Stray,
         HeaderOn, S.StateAt, StateAt;
    OnHeader(ClassifyAll(lines), was, i, v);
    var cs, d := ClassifyAll(lines), Classify(RenamedLine(lines[i], was, name));
    assert cs[i] == Classify(lines[i]) && cs[v] == Classify(lines[v]);
    SafeName(was);
    MisfitLine(lines[i], was, name);
    if !Stray(cs[i], d, was, name) {
      NoPend(cs, was, i);
      SamePend(cs, cs[i := d], i);
      SameFrontStates(cs, cs[i := d], was, i);
      OnBrace(cs, was, i, v);
      if cs[i].outer.Pending? {
        BraceIsBad(lines[v]);
        BrokenHere(cs[i := d], was, name, i, v);
      } else {
        BrokenHere(cs[i := d], was, name, i, i);
      }
    }
  }

  lemma OnBrace(cs: seq<Line>, was: string, i: nat, v: nat)
    requires HeaderOn(cs, was, i, v)
    ensures forall k | i < k < v :: cs[k].Skip?
    ensures cs[i].outer.Pending? ==> i < v && cs[v].Text? && cs[v].outer == BareOpen("")
  {
  }

  lemma BrokenHere(cs: seq<Line>, was: string, name: string, i: nat, v: nat)
    requires i <= v < |cs| && StateAt(cs, i) == START
    requires S.StateAt(cs, i).pend.Some? ==> S.PendingName(cs, S.StateAt(cs, i).pend.value) != was
    requires forall u | 0 <= u < i :: !SingleSeen(cs, was, u) && S.HeaderAt(cs, was, u).None?
    requires cs[i].Text? && !(cs[i].outer.Single? && cs[i].outer.pkg == was)
    requires if i == v then cs[i].outer == BareOpen("")
             else
               && (cs[i].outer.Pending? ==> cs[i].outer.pkg == "")
               && (forall k | i < k < v :: cs[k].Skip?) && cs[v].Text? && cs[v].outer == BareOpen("") && cs[v].inner.Bad?
    ensures Broken(cs, was, name, i, v)
  {
    hide SingleSeen, S.HeaderAt, NamesItself;
  }

  lemma SamePend(cs: seq<Line>, out: seq<Line>, i: nat)
    requires i <= |cs| == |out| && forall k | 0 <= k < i :: out[k] == cs[k]
    ensures S.StateAt(cs, i).pend.Some? ==>
              S.PendingName(out, S.StateAt(cs, i).pend.value) == S.PendingName(cs, S.StateAt(cs, i).pend.value)
  {
    S.PendingRun(cs, i);
  }

  /** The scanner waits for no brace of the package where the loader waits for none. */
  lemma NoPend(cs: seq<Line>, pkg: string, i: nat)
    requires Clean(Anything(), cs) && i < |cs| && StateAt(cs, i).pend == "" && pkg != ""
    ensures S.StateAt(cs, i).pend.Some? ==> S.PendingName(cs, S.StateAt(cs, i).pend.value) != pkg
  {
    hide Clean;
    CleanEnd(Anything(), cs);
    S.SoundHasNoOrphans(Anything(), cs);
    S.AgreeUpTo(cs, i);
  }

  /** In front of the first header, nothing names the package. */
  lemma NothingInFront(cs: seq<Line>, pkg: string, i: nat, v: nat)
    requires pkg != "" && NoLone(cs, pkg) && HeaderOn(cs, pkg, i, v) && Clean(Anything(), cs)
    requires forall u | 0 <= u < v :: S.HeaderAt(cs, pkg, u).None?
    ensures forall u | 0 <= u < i :: !SingleSeen(cs, pkg, u) && S.HeaderAt(cs, pkg, u).None?
  {
    hide Clean, S.HeaderAt;
    forall u | 0 <= u < i ensures !SingleSeen(cs, pkg, u) {
      CleanLine(Anything(), cs, u);
      assert EventAt(cs, pkg, u) != [Lone];
    }
  }

  /** However the rounds go: the file they end with does not load, or asks for no fewer
      rules than before and reads the two names no more often. If the new name does not fit
      some header, it asks for more, or reads them less often. */
  lemma {:induction false} CountRounds(lines: seq<string>, was: string, name: string)
    requires Clean(Anything(), ClassifyAll(lines)) && NoLone(ClassifyAll(lines), was)
    requires PkgSafe(was) && PkgSafe(name) && was != name && RoundsStop(lines, was, name)
    ensures var out := RenamedAll(lines, was, name);
            Clean(Anything(), ClassifyAll(out)) ==>
              && Asks(out) >= Asks(lines) && Both(out, was, name) <= Both(lines, was, name)
              && (!AllFit(lines, was, name) ==> Asks(out) > Asks(lines) || Both(out, was, name) < Both(lines, was, name))
    decreases WeightOf(lines, was, name)
  {
    hide Classify, Clean, NoLone, PkgSafe, AllFit, AnyLine, S.Scan, RenameRound, WeightOf, RoundsStop, RenamedAll, Asks, Both;
    if !AnyLine(S.Scan(ClassifyAll(lines), was)) {
      AllDone(lines, was, name);
    } else {
      var next := RenameRound(lines, was, name);
      var broken := CountRound(lines, was, name);
      StopsBack(lines, was, name);
      if broken {
        NeverClean(lines, was, name);
      } else {
        CountRounds(next, was, name);
      }
    }
  }

  lemma AllDone(lines: seq<string>, was: string, name: string)
    requires Clean(Anything(), ClassifyAll(lines)) && PkgSafe(was) && !AnyLine(S.Scan(ClassifyAll(lines), was))
    ensures RenamedAll(lines, was, name) == lines && AllFit(lines, was, name)
  {
    hide Classify, Clean, PkgSafe, AnyLine, S.Scan, WeightOf, NameTrap, HeaderSeen;
    StopStays(lines, was, name, WeightOf(lines, was, name));
    forall k | 0 <= k < |lines| ensures Fits(lines[k], was, name) {
      if NameTrap(lines[k], was, name) {
        TrapIsHeader(Anything(), lines, was, name, k);
        AnySeen(ClassifyAll(lines), was, k);
      }
    }
  }

  /** A broken file stays broken to the end. */
  lemma NeverClean(lines: seq<string>, was: string, name: string)
    requires PkgSafe(was) && PkgSafe(name) && was != name
    requires RenamedAll(lines, was, name) == RenamedAll(RenameRound(lines, was, name), was, name)
    requires BrokenFile(ClassifyAll(RenameRound(lines, was, name)), was, name)
    ensures !Clean(Anything(), ClassifyAll(RenamedAll(lines, was, name)))
  {
    hide ClassifyAll, PkgSafe, RenameRound, Broken, WeightOf;
    var next := RenameRound(lines, was, name);
    var i: nat, v: nat :| Broken(ClassifyAll(next), was, name, i, v);
    BrokenForever(next, was, name, i, v, WeightOf(next, was, name));
    BrokenFails(Anything(), ClassifyAll(RenamedAll(next, was, name)), was, name, i, v);
  }

  /** The first header, and the line on which it is seen. */
  lemma FirstOn(cs: seq<Line>, was: string) returns (v: nat)
    requires Sound(Anything(), cs) && Clean(Anything(), cs) && was != "" && NoLone(cs, was) && S.Scan(cs, was).pkgLine.Some?
    ensures var i := S.Scan(cs, was).pkgLine.value.idx;
            && HeaderOn(cs, was, i, v) && StateAt(cs, i) == START
            && forall u | 0 <= u < i :: !SingleSeen(cs, was, u) && S.HeaderAt(cs, was, u).None?
  {
    hide Clean, Sound, S.OpenTo, S.CloseTo, S.HitsTo, HeaderOn, NoLone, SingleSeen;
    v := S.FirstHeader(cs, was, |cs|);
    HeaderAtIs(Anything(), cs, was, v);
    var i := S.Scan(cs, was).pkgLine.value.idx;
    OnHeader(cs, was, i, v);
    CleanLine(Anything(), cs, i);
    NothingInFront(cs, was, i, v);
  }

  lemma OnHeader(cs: seq<Line>, was: string, i: nat, v: nat)
    requires HeaderOn(cs, was, i, v)
    ensures i <= v < |cs| && !StateAt(cs, i).inBlock && cs[i].Text? && IsHeader(cs[i].outer) && OuterPkg(cs[i].outer) == was
  {
  }

  lemma NotEndless(lines: seq<string>, was: string, name: string, i: nat)
    requires PkgSafe(was) && PkgSafe(name) && was != name && RoundsStop(lines, was, name)
    requires i < |lines| && !Fits(lines[i], was, name) && Clean(Anything(), ClassifyAll(lines))
    ensures !Endless(was, name)
  {
    hide Classify, Clean, PkgSafe, RoundsStop, Twice, HeaderSeen, NameTrap, Endless, SingleSeen, NamesItself;
    TrapIsHeader(Anything(), lines, was, name, i);
    if Endless(was, name) {
      assert EndlessAt(lines, was, name, i);
      EndsIff(lines, was, name);
    }
  }

  /** A round on a header that the new name fits. */
  lemma FitRound(lines: seq<string>, was: string, name: string, i: nat, v: nat)
    requires Clean(Anything(), ClassifyAll(lines)) && NoLone(ClassifyAll(lines), was)
    requires PkgSafe(was) && PkgSafe(name) && was != name && HeaderOn(ClassifyAll(lines), was, i, v) && Fits(lines[i], was, name)
    ensures var next := lines[i := RenamedLine(lines[i], was, name)];
            && Clean(Anything(), ClassifyAll(next)) && NoLone(ClassifyAll(next), was)
            && Asks(next) == Asks(lines) && Both(next, was, name) == Both(lines, was, name)
            && (!AllFit(lines, was, name) ==> !AllFit(next, was, name))
  {
    hide Classify, PkgSafe, Fits, AllFit, RenamedLine, Loaded, FailCount, Events, EventAt, HeaderOn, Relabel, Compatible;
    OnHeader(ClassifyAll(lines), was, i, v);
    var raw := RenamedLine(lines[i], was, name);
    var cs, d := ClassifyAll(lines), Classify(raw);
    SafeName(was);
    SafeName(name);
    assert cs[i] == Classify(lines[i]);
    FitHeader(lines[i], was, name);
    assert ClassifyAll(lines[i := raw]) == cs[i := d];
    LoneIs(cs, was);
    LoneIs(cs[i := d], was);
    if d.outer == cs[i].outer {
      SameOuter(Anything(), cs, i, d, was);
      SameOuter(Anything(), cs, i, d, name);
    } else {
      AnythingFits(was, name);
      RenamedRules(Anything(), cs, i, d, was, name);
      RenamedEvents(Anything(), cs, i, v, d, was, name);
    }
    MisfitStays(lines, i, raw, was, name);
  }

  lemma AnythingFits(was: string, name: string)
    requires was != "" && name != ""
    ensures Compatible(Anything(), was, name)
  {
  }

  lemma MisfitStays(lines: seq<string>, i: nat, raw: string, was: string, name: string)
    requires i < |lines| && Fits(lines[i], was, name)
    ensures !AllFit(lines, was, name) ==> !AllFit(lines[i := raw], was, name)
  {
    hide Fits;
    if k :| 0 <= k < |lines| && !Fits(lines[k], was, name) {
      assert lines[i := raw][k] == lines[k];
    }
  }

  /** A round on a header that opens its block for another package. */
  lemma StrayRound(lines: seq<string>, was: string, name: string, i: nat, v: nat)
    requires Clean(Anything(), ClassifyAll(lines)) && NoLone(ClassifyAll(lines), was)
    requires PkgSafe(was) && PkgSafe(name) && was != name && HeaderOn(ClassifyAll(lines), was, i, v)
    requires StateAt(ClassifyAll(lines), i) == START
    requires Stray(ClassifyAll(lines)[i], Classify(RenamedLine(lines[i], was, name)), was, name)
    ensures var next := lines[i := RenamedLine(lines[i], was, name)];
            && Clean(Anything(), ClassifyAll(next)) && NoLone(ClassifyAll(next), was)
            && Asks(next) >= Asks(lines) && Both(next, was, name) <= Both(lines, was, name)
            && (Asks(next) > Asks(lines) || Both(next, was, name) < Both(lines, was, name))
  {
    hide Classify, PkgSafe, RenamedLine, Loaded, Clean, Events, EventAt, HeaderOn, NoLone;
    OnHeader(ClassifyAll(lines), was, i, v);
    var raw := RenamedLine(lines[i], was, name);
    var cs, d := ClassifyAll(lines), Classify(raw);
    SafeName(was);
    SafeName(name);
    assert ClassifyAll(lines[i := raw]) == cs[i := d];
    StrayCounts(cs, i, v, d, was, name);
    LoneIs(cs, was);
    LoneIs(cs[i := d], was);
  }

  /** One round. */
  lemma CountRound(lines: seq<string>, was: string, name: string) returns (broken: bool)
    requires Clean(Anything(), ClassifyAll(lines)) && NoLone(ClassifyAll(lines), was)
    requires PkgSafe(was) && PkgSafe(name) && was != name && RoundsStop(lines, was, name)
    requires AnyLine(S.Scan(ClassifyAll(lines), was))
    ensures WeightOf(RenameRound(lines, was, name), was, name) < WeightOf(lines, was, name)
    ensures var next := RenameRound(lines, was, name);
            if broken then BrokenFile(ClassifyAll(next), was, name)
            else
              && Clean(Anything(), ClassifyAll(next)) && NoLone(ClassifyAll(next), was)
              && Asks(next) >= Asks(lines) && Both(next, was, name) <= Both(lines, was, name)
              && (!AllFit(lines, was, name) ==>
                    !AllFit(next, was, name) || Asks(next) > Asks(lines) || Both(next, was, name) < Both(lines, was, name))
  {
    hide Classify, Clean, NoLone, PkgSafe, Twice, AllFit, AnyLine, RenameRound, WeightOf, RoundsStop, S.OpenTo, S.CloseTo, S.HitsTo,
         S.HeaderTo, Asks, Both, RenamedLine, Broken, Endless, NamesItself, SingleSeen, S.HeaderAt, HeaderOn, Fits;
    var cs := ClassifyAll(lines);
    SafeName(was);
    CleanEnd(Anything(), cs);
    NoLoneNoSingles(Anything(), cs, was, |cs|);
    assert S.Scan(cs, was).pkgLine.Some? by {
      SomeHeader(cs, was);
    }
    var i := S.Scan(cs, was).pkgLine.value.idx;
    var v := FirstOn(cs, was);
    RoundIs(lines, was, name);
    RoundLighter(lines, was, name);
    OnHeader(cs, was, i, v);
    assert cs[i] == Classify(lines[i]);
    if Fits(lines[i], was, name) {
      FitRound(lines, was, name, i, v);
      broken := false;
    } else {
      NotEndless(lines, was, name, i);
      FirstMisfit(lines, was, name, i, v);
      var d := Classify(RenamedLine(lines[i], was, name));
      assert ClassifyAll(lines[i := RenamedLine(lines[i], was, name)]) == cs[i := d];
      broken := !Stray(cs[i], d, was, name);
      if !broken {
        StrayRound(lines, was, name, i, v);
      }
    }
  }

  lemma SomeHeader(cs: seq<Line>, pkg: string)
    requires AnyLine(S.Scan(cs, pkg)) && SinglesOf(S.HitsTo(cs, pkg, |cs|)) == []
    ensures S.Scan(cs, pkg).pkgLine.Some?
  {
  }
}
