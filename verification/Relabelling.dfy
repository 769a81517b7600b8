/** Giving a package another name, one header line at a time, on classified lines. */
module Relabelling {
  import opened Base
  import opened Lines
  import opened Loader
  import opened Edits
  import opened Renaming
  import opened Purging
  import S = Scanner

  function Relabel(rs: seq<AffinityRule>, was: string, name: string): (out: seq<AffinityRule>)
    ensures |out| == |rs|
  {
    if rs == [] then []
    else [if rs[0].pkg == was then rs[0].(pkg := name) else rs[0]] + Relabel(rs[1..], was, name)
  }

  lemma {:induction false} RelabelConcat(a: seq<AffinityRule>, b: seq<AffinityRule>, was: string, name: string)
    ensures Relabel(a + b, was, name) == Relabel(a, was, name) + Relabel(b, was, name)
  {
    if a == [] {
      assert a + b == b;
    } else {
      assert (a + b)[1..] == a[1..] + b;
      RelabelConcat(a[1..], b, was, name);
    }
  }

  lemma {:induction false} RelabelNone(rs: seq<AffinityRule>, was: string, name: string)
    requires forall r | r in rs :: r.pkg != was
    ensures Relabel(rs, was, name) == rs
  {
    if rs != [] {
      assert rs[0] in rs && forall r | r in rs[1..] :: r in rs;
      RelabelNone(rs[1..], was, name);
    }
  }

  /** A name that was not there can be taken back. */
  lemma {:induction false} RelabelBack(rs: seq<AffinityRule>, was: string, name: string)
    requires forall r | r in rs :: r.pkg != name
    ensures Relabel(Relabel(rs, was, name), name, was) == rs
  {
    if rs != [] {
      assert rs[0] in rs && forall r | r in rs[1..] :: r in rs;
      RelabelBack(rs[1..], was, name);
      var out := Relabel(rs, was, name);
      assert out[1..] == Relabel(rs[1..], was, name);
    }
  }

  // ----- two runs that differ by the name

  predicate Moved(p: string, q: string, was: string, name: string)
  {
    q == p || (p == was && q == name)
  }

  predicate Sim(s: State, r: State, was: string, name: string)
  {
    s.inBlock == r.inBlock && Moved(s.cur, r.cur, was, name) && Moved(s.pend, r.pend, was, name)
  }

  predicate LineSim(s: State, c: Line, d: Line, was: string, name: string)
  {
    || c == d
    || (c.Text? && d.Text? && !s.inBlock && IsHeader(c.outer) && OuterPkg(c.outer) == was && d.outer == WithPkg(c.outer, name))
  }

  ghost predicate Compatible(ok: Verdict, was: string, name: string)
  {
    was != "" && name != "" && forall t, c :: ok(was, t, c) ==> ok(name, t, c)
  }

  lemma StepSim(ok: Verdict, s: State, r: State, c: Line, d: Line, was: string, name: string)
    requires Sim(s, r, was, name) && LineSim(s, c, d, was, name) && Compatible(ok, was, name)
    requires HardFails(ok, s, c) == 0
    ensures Sim(Step(s, c), Step(r, d), was, name)
    ensures Relabel(Emit(ok, r, d), was, name) == Relabel(Emit(ok, s, c), was, name)
    ensures HardFails(ok, r, d) == 0 && SoftFails(r, d) == SoftFails(s, c)
  {
    AskedSim(s, r, c, d, was, name);
    var a, b := Asked(s, c), Asked(r, d);
    if a != [] {
      assert a == [a[0]] && b == [b[0]];
      assert Admitted(ok, a[0]) && Admitted(ok, b[0]);
    }
  }

  lemma AskedSim(s: State, r: State, c: Line, d: Line, was: string, name: string)
    requires Sim(s, r, was, name) && LineSim(s, c, d, was, name)
    ensures var a, b := Asked(s, c), Asked(r, d);
            && |a| == |b| <= 1
            && (a != [] ==> Moved(a[0].pkg, b[0].pkg, was, name) && b[0].thread == a[0].thread && b[0].cpus == a[0].cpus)
    ensures Relabel(Asked(r, d), was, name) == Relabel(Asked(s, c), was, name)
  {
    var a, b := Asked(s, c), Asked(r, d);
    if a != [] {
      assert a == [a[0]] && b == [b[0]] && a[1..] == [] && b[1..] == [];
    }
  }

  lemma {:induction false} RunSim(ok: Verdict, s: State, r: State, cs: seq<Line>, was: string, name: string)
    requires Sim(s, r, was, name) && Compatible(ok, was, name) && Hard(ok, s, cs) == 0
    ensures Sim(After(s, cs), After(r, cs), was, name)
    ensures Relabel(Rules(ok, r, cs), was, name) == Relabel(Rules(ok, s, cs), was, name)
    ensures Hard(ok, r, cs) == 0 && Soft(r, cs) == Soft(s, cs)
    decreases |cs|
  {
    hide Compatible, Sim, Step, Emit, HardFails, SoftFails, Relabel;
    if cs != [] {
      StepSim(ok, s, r, cs[0], cs[0], was, name);
      RunSim(ok, Step(s, cs[0]), Step(r, cs[0]), cs[1..], was, name);
      RelabelConcat(Emit(ok, s, cs[0]), Rules(ok, Step(s, cs[0]), cs[1..]), was, name);
      RelabelConcat(Emit(ok, r, cs[0]), Rules(ok, Step(r, cs[0]), cs[1..]), was, name);
    }
  }

  /** The names of blocks do not matter to the events of a package. */
  lemma {:induction false} SameEvents(s: State, r: State, cs: seq<Line>, pkg: string)
    requires s.inBlock == r.inBlock && s.pend == r.pend
    ensures Events(s, cs, pkg) == Events(r, cs, pkg)
    decreases |cs|
  {
    if cs != [] {
      SameEvents(Step(s, cs[0]), Step(r, cs[0]), cs[1..], pkg);
    }
  }

  // ----- one header line renamed

  /** `d` is line i of `cs` under the new name. */
  predicate HeaderRenamed(cs: seq<Line>, i: nat, d: Line, was: string, name: string)
  {
    && i < |cs| && cs[i].Text? && d.Text? && !StateAt(cs, i).inBlock
    && IsHeader(cs[i].outer) && OuterPkg(cs[i].outer) == was && d.outer == WithPkg(cs[i].outer, name)
  }

  lemma RenamedRules(ok: Verdict, cs: seq<Line>, i: nat, d: Line, was: string, name: string)
    requires Clean(ok, cs) && HeaderRenamed(cs, i, d, was, name) && Compatible(ok, was, name)
    ensures Clean(ok, cs[i := d])
    ensures Relabel(Loaded(ok, cs[i := d]), was, name) == Relabel(Loaded(ok, cs), was, name)
  {
    hide Compatible, Step, Emit, HardFails, SoftFails, Relabel, Rules, Hard, Soft, After;
    var s := StateAt(cs, i);
    var front, rest := cs[..i], cs[i + 1..];
    LineOf(ok, cs, i);
    CutAt(ok, cs, i, i + 1);
    assert cs[i..i + 1] == [cs[i]];
    One(ok, s, cs[i]);
    One(ok, s, d);
    StepSim(ok, s, s, cs[i], d, was, name);
    RunSim(ok, Step(s, cs[i]), Step(s, d), rest, was, name);
    assert cs[i := d] == front + [d] + rest;
    Cut(ok, START, front, [d], rest);
    var a, m, z := Rules(ok, START, front), Emit(ok, s, cs[i]), Rules(ok, Step(s, cs[i]), rest);
    var m', z' := Emit(ok, s, d), Rules(ok, Step(s, d), rest);
    RelabelConcat(a + m, z, was, name);
    RelabelConcat(a, m, was, name);
    RelabelConcat(a + m', z', was, name);
    RelabelConcat(a, m', was, name);
    SimEnd(After(Step(s, cs[i]), rest), After(Step(s, d), rest), was, name, ok);
  }

  lemma SimEnd(s: State, r: State, was: string, name: string, ok: Verdict)
    requires Sim(s, r, was, name) && Compatible(ok, was, name)
    ensures (s.inBlock || s.pend != "") <==> (r.inBlock || r.pend != "")
  {
  }

  // ----- the events before and after

  /** The header event at v is written on line i; nothing but skipped lines between. */
  predicate HeaderOn(cs: seq<Line>, was: string, i: nat, v: nat)
  {
    && i <= v < |cs| && !StateAt(cs, i).inBlock && cs[i].Text? && IsHeader(cs[i].outer) && OuterPkg(cs[i].outer) == was
    && (forall k | i < k < v :: cs[k].Skip?)
    && (if i == v then !cs[i].outer.Pending?
        else cs[i].outer.Pending? && cs[v].Text? && cs[v].outer == BareOpen(""))
  }

  /** The events of lines i to v under the old name and under the new one. */
  lemma HeaderEvents(s: State, m: seq<Line>, was: string, name: string, d: Line)
    requires m != [] && !s.inBlock && was != "" && name != "" && was != name
    requires m[0].Text? && IsHeader(m[0].outer) && OuterPkg(m[0].outer) == was && d.Text? && d.outer == WithPkg(m[0].outer, name)
    requires forall k | 0 < k < |m| - 1 :: m[k].Skip?
    requires if |m| == 1 then !m[0].outer.Pending?
             else m[0].outer.Pending? && m[|m| - 1].Text? && m[|m| - 1].outer == BareOpen("")
    ensures var n := [d] + m[1..];
            && |Events(s, m, was)| == 1 && Events(s, m, was)[0] != Lone && Events(s, m, name) == []
            && Events(s, n, was) == [] && Events(s, n, name) == Events(s, m, was)
            && After(s, n).inBlock == After(s, m).inBlock && After(s, n).pend == After(s, m).pend == ""
  {
    var n := [d] + m[1..];
    assert n[1..] == m[1..];
    if |m| == 1 {
      assert m[1..] == [];
      NoEvents(Step(s, m[0]), was);
      NoEvents(Step(s, d), name);
      assert Events(s, m, was) == EventOf(s, m[0], was) + [];
      assert EventOf(s, m[0], was) == [Alone] || EventOf(s, m[0], was) == [Opened];
    } else {
      var gap, brace := m[1..|m| - 1], m[|m| - 1];
      assert m[1..] == gap + [brace];
      assert [brace][1..] == [];
      GapEvents(Step(s, m[0]), gap, brace, was);
      GapEvents(Step(s, m[0]), gap, brace, name);
      GapEvents(Step(s, d), gap, brace, was);
      GapEvents(Step(s, d), gap, brace, name);
    }
  }

  lemma {:induction false} GapEvents(s: State, gap: seq<Line>, brace: Line, pkg: string)
    requires !s.inBlock && s.pend != "" && (forall k | 0 <= k < |gap| :: gap[k].Skip?)
    requires brace.Text? && brace.outer == BareOpen("")
    ensures Events(s, gap + [brace], pkg) == if s.pend == pkg then [Awaited] else []
    ensures After(s, gap + [brace]) == State(true, s.pend, "")
    decreases |gap|
  {
    if gap == [] {
      assert [] + [brace] == [brace] && [brace][1..] == [];
    } else {
      assert (gap + [brace])[1..] == gap[1..] + [brace];
      GapEvents(s, gap[1..], brace, pkg);
    }
  }

  lemma RenamedEvents(ok: Verdict, cs: seq<Line>, i: nat, v: nat, d: Line, was: string, name: string)
    requires HeaderOn(cs, was, i, v) && d.Text? && d.outer == WithPkg(cs[i].outer, name)
    requires was != "" && name != "" && was != name
    ensures |Events(START, cs[i := d], was)| + 1 == |Events(START, cs, was)|
    ensures |Events(START, cs[i := d], name)| == |Events(START, cs, name)| + 1
    ensures forall e | e in Events(START, cs[i := d], was) :: e in Events(START, cs, was)
    ensures Events(START, cs[i := d], name) != []
    ensures forall e | e in Events(START, cs[i := d], name) :: e in Events(START, cs, name) || e != Lone
  {
    hide Events, After, Step;
    var s := StateAt(cs, i);
    var m := cs[i..v + 1];
    var n := [d] + m[1..];
    var front, rest := cs[..i], cs[v + 1..];
    assert cs[i := d] == front + n + rest;
    assert cs == front + m + rest;
    HeaderEvents(s, m, was, name, d);
    Three(front, m, rest, was);
    Three(front, m, rest, name);
    Three(front, n, rest, was);
    Three(front, n, rest, name);
    SameEvents(After(s, m), After(s, n), rest, was);
    SameEvents(After(s, m), After(s, n), rest, name);
  }

  lemma Three(a: seq<Line>, m: seq<Line>, z: seq<Line>, pkg: string)
    ensures Events(START, a + m + z, pkg) ==
              Events(START, a, pkg) + Events(After(START, a), m, pkg) + Events(After(After(START, a), m), z, pkg)
  {
    EventsConcat(START, a + m, z, pkg);
    EventsConcat(START, a, m, pkg);
    AfterConcat(START, a, m);
  }
}
