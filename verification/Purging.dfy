/** Taking a whole package out of a file, on classified lines: rounds that each remove
    the package's first line and its first block. */
module Purging {
  import opened Base
  import opened Lines
  import opened Loader
  import opened Edits
  import opened Tracking
  import opened Taking
  import S = Scanner

  // ----- what a line is to the package

  /** A rule on its own line, a line that opens a block, a brace that opens the block of
      an earlier line, a single-line rule. */
  datatype Event = Alone | Opened | Awaited | Lone

  function EventOf(s: State, c: Line, pkg: string): seq<Event>
  {
    if c.Skip? || s.inBlock then []
    else
      match c.outer
      case Single(p, _, _, _) => if p == pkg then [Lone] else []
      case Rule(p, _, open) => if p == pkg then [if open then Opened else Alone] else []
      case BareOpen(p) =>
        if p != "" then (if p == pkg then [Opened] else [])
        else if s.pend == pkg && pkg != "" then [Awaited]
        else []
      case _ => []
  }

  function Events(s: State, cs: seq<Line>, pkg: string): seq<Event>
    decreases |cs|
  {
    if cs == [] then [] else EventOf(s, cs[0], pkg) + Events(Step(s, cs[0]), cs[1..], pkg)
  }

  lemma {:induction false} EventsConcat(s: State, a: seq<Line>, b: seq<Line>, pkg: string)
    ensures Events(s, a + b, pkg) == Events(s, a, pkg) + Events(After(s, a), b, pkg)
    decreases |a|
  {
    if a == [] {
      assert a + b == b;
    } else {
      assert (a + b)[1..] == a[1..] + b;
      EventsConcat(Step(s, a[0]), a[1..], b, pkg);
    }
  }

  /** Failures of a run that are not hard, counting the state it ends in. */
  function Left(s: State, cs: seq<Line>): nat
  {
    Soft(s, cs) + (if After(s, cs).inBlock || After(s, cs).pend != "" then 1 else 0)
  }

  /** A package line left waiting in front of sound lines changes none of their rules;
      it only costs one failure of its own. */
  lemma {:induction false} PendIrrelevant(ok: Verdict, p: string, cs: seq<Line>, pkg: string)
    requires Hard(ok, START, cs) == 0
    ensures var s := State(false, "", p);
            && Rules(ok, s, cs) == Rules(ok, START, cs) && Hard(ok, s, cs) == 0
            && After(s, cs).inBlock == After(START, cs).inBlock
            && Events(s, cs, pkg) == Events(START, cs, pkg)
            && Left(s, cs) == Left(START, cs) + (if p != "" then 1 else 0)
    decreases |cs|
  {
    if cs != [] {
      var s := State(false, "", p);
      if cs[0].Skip? {
        PendIrrelevant(ok, p, cs[1..], pkg);
      } else {
        assert Step(s, cs[0]) == Step(START, cs[0]);
      }
    }
  }

  // ----- removing a range of lines

  /** The record of a file that a range was removed from. */
  ghost predicate Removed(ok: Verdict, cs: seq<Line>, out: seq<Line>, pkg: string, dangling: nat)
  {
    && Sound(ok, out) && Others(Loaded(ok, out), pkg) == Others(Loaded(ok, cs), pkg)
    && FailCount(ok, out) == FailCount(ok, cs) + dangling
  }

  lemma {:induction false} SkippedEvents(s: State, cs: seq<Line>, pkg: string)
    requires forall k | 0 <= k < |cs| :: cs[k].Skip?
    ensures Events(s, cs, pkg) == []
    decreases |cs|
  {
    if cs != [] {
      SkippedEvents(s, cs[1..], pkg);
    }
  }

  /** What is in front of lines i..j and behind them. */
  lemma DropParts(ok: Verdict, cs: seq<Line>, i: nat, j: nat, mid: seq<Line>, pkg: string)
    requires i <= j <= |cs| && Sound(ok, cs) && !StateAt(cs, i).inBlock && StateAt(cs, j) == START
    requires forall k | 0 <= k < |mid| :: mid[k].Skip?
    ensures var out := Spliced(cs, i, j, mid);
            var p := if StateAt(cs, i).pend != "" then 1 else 0;
            && Loaded(ok, out) == Rules(ok, START, cs[..i]) + Rules(ok, START, cs[j..])
            && Hard(ok, START, out) == 0 && After(START, out).inBlock == After(START, cs).inBlock
            && Left(START, out) == Soft(START, cs[..i]) + Left(START, cs[j..]) + p
  {
    hide Rules, Hard, Soft, After;
    var s := StateAt(cs, i);
    NoCurrentOutside(cs, i);
    CutAt(ok, cs, i, j);
    Cut(ok, START, cs[..i], mid, cs[j..]);
    SkipRun(ok, s, mid);
    SkippedEvents(s, mid, pkg);
    PendIrrelevant(ok, s.pend, cs[j..], pkg);
    assert Rules(ok, START, cs[..i]) + [] == Rules(ok, START, cs[..i]);
  }

  lemma DropEvents(ok: Verdict, cs: seq<Line>, i: nat, j: nat, mid: seq<Line>, pkg: string)
    requires i <= j <= |cs| && Sound(ok, cs) && !StateAt(cs, i).inBlock && StateAt(cs, j) == START
    requires forall k | 0 <= k < |mid| :: mid[k].Skip?
    ensures Events(START, Spliced(cs, i, j, mid), pkg) == Events(START, cs[..i], pkg) + Events(START, cs[j..], pkg)
  {
    hide Rules, Hard, Soft, After, Events;
    var s := StateAt(cs, i);
    NoCurrentOutside(cs, i);
    CutAt(ok, cs, i, j);
    SkipRun(ok, s, mid);
    SkippedEvents(s, mid, pkg);
    PendIrrelevant(ok, s.pend, cs[j..], pkg);
    AfterConcat(START, cs[..i], mid);
    EventsConcat(START, cs[..i] + mid, cs[j..], pkg);
    EventsConcat(START, cs[..i], mid, pkg);
    assert Events(START, cs[..i], pkg) + [] == Events(START, cs[..i], pkg);
  }

  /** Lines i..j, which belong to the package and end outside every block, removed but
      for skipped lines. */
  lemma DropRange(ok: Verdict, cs: seq<Line>, i: nat, j: nat, mid: seq<Line>, pkg: string)
    requires i <= j <= |cs| && Sound(ok, cs) && !StateAt(cs, i).inBlock && StateAt(cs, j) == START
    requires (forall k | 0 <= k < |mid| :: mid[k].Skip?) && AllOf(Rules(ok, StateAt(cs, i), cs[i..j]), pkg)
    requires Soft(StateAt(cs, i), cs[i..j]) <= (if StateAt(cs, i).pend != "" then 1 else 0)
    ensures Removed(ok, cs, Spliced(cs, i, j, mid), pkg,
                    (if StateAt(cs, i).pend != "" then 1 else 0) - Soft(StateAt(cs, i), cs[i..j]))
  {
    hide Rules, Hard, Soft, After;
    DropParts(ok, cs, i, j, mid, pkg);
    CutAt(ok, cs, i, j);
    DropOthers(Rules(ok, START, cs[..i]), Rules(ok, StateAt(cs, i), cs[i..j]), Rules(ok, START, cs[j..]), pkg);
  }

  lemma DropOthers(a: seq<AffinityRule>, m: seq<AffinityRule>, z: seq<AffinityRule>, pkg: string)
    requires AllOf(m, pkg)
    ensures Others(a + m + z, pkg) == Others(a + z, pkg)
  {
    OthersConcat(a + m, z, pkg);
    OthersConcat(a, m, pkg);
    OthersConcat(a, z, pkg);
    OthersOfNone(m, pkg);
  }

  // ----- where the events are

  function EventAt(cs: seq<Line>, pkg: string, k: nat): seq<Event>
    requires k < |cs|
  {
    EventOf(StateAt(cs, k), cs[k], pkg)
  }

  predicate AloneAt(cs: seq<Line>, pkg: string, k: nat)
    requires k < |cs|
  {
    EventAt(cs, pkg, k) == [] || EventAt(cs, pkg, k) == [Alone]
  }

  predicate BlockAt(cs: seq<Line>, pkg: string, k: nat)
    requires k < |cs|
  {
    EventAt(cs, pkg, k) == [Opened] || EventAt(cs, pkg, k) == [Awaited]
  }

  lemma SoundLine(ok: Verdict, cs: seq<Line>, k: nat)
    requires Hard(ok, START, cs) == 0 && k < |cs|
    ensures HardFails(ok, StateAt(cs, k), cs[k]) == 0 && StateAt(cs, k + 1) == Step(StateAt(cs, k), cs[k])
    ensures S.StateAt(cs, k).inBlock == StateAt(cs, k).inBlock
    ensures StateAt(cs, k).inBlock ==> S.StateAt(cs, k).cur == StateAt(cs, k).cur && StateAt(cs, k).pend == ""
    ensures !StateAt(cs, k).inBlock ==> StateAt(cs, k).cur == ""
  {
    LineOf(ok, cs, k);
    S.SoundHasNoOrphans(ok, cs);
    S.AgreeUpTo(cs, k);
    NoCurrentOutside(cs, k);
  }

  /** The scanner's headers are the events, single-line rules apart. */
  lemma HeaderIsEvent(ok: Verdict, cs: seq<Line>, pkg: string, k: nat)
    requires Hard(ok, START, cs) == 0 && k < |cs| && pkg != ""
    ensures S.HeaderAt(cs, pkg, k).Some? <==> EventAt(cs, pkg, k) != [] && EventAt(cs, pkg, k) != [Lone]
    ensures S.HeaderAt(cs, pkg, k).Some? ==>
              match S.HeaderAt(cs, pkg, k).value
              case Standalone(i) => i == k && EventAt(cs, pkg, k) == [Alone]
              case BarePending(i) => EventAt(cs, pkg, k) == [Awaited]
              case _ => S.HeaderAt(cs, pkg, k).value.idx == k && EventAt(cs, pkg, k) == [Opened]
  {
    hide Hard, After, S.StateAt, HardFails;
    SoundLine(ok, cs, k);
    S.SoundHasNoOrphans(ok, cs);
    S.AgreeUpTo(cs, k);
  }

  lemma InBlockOf(ok: Verdict, cs: seq<Line>, pkg: string, k: nat)
    requires Hard(ok, START, cs) == 0 && k <= |cs|
    ensures S.InTarget(cs, pkg, k) <==> StateAt(cs, k).inBlock && StateAt(cs, k).cur == pkg
  {
    S.SoundHasNoOrphans(ok, cs);
    S.AgreeUpTo(cs, k);
  }

  lemma EventsNext(cs: seq<Line>, pkg: string, i: nat, j: nat)
    requires i <= j < |cs|
    ensures Events(StateAt(cs, i), cs[i..j + 1], pkg) == Events(StateAt(cs, i), cs[i..j], pkg) + EventAt(cs, pkg, j)
  {
    assert cs[i..j + 1] == cs[i..j] + [cs[j]];
    EventsConcat(StateAt(cs, i), cs[i..j], [cs[j]], pkg);
    assert cs[..j] == cs[..i] + cs[i..j];
    AfterConcat(START, cs[..i], cs[i..j]);
    assert [cs[j]][1..] == [];
    assert Events(StateAt(cs, j), [cs[j]], pkg) == EventAt(cs, pkg, j) + [];
  }

  lemma {:induction false} QuietEvents(cs: seq<Line>, pkg: string, i: nat, j: nat)
    requires i <= j <= |cs| && forall k | i <= k < j :: EventAt(cs, pkg, k) == []
    ensures Events(StateAt(cs, i), cs[i..j], pkg) == []
  {
    hide Events, EventAt, After;
    if i < j {
      QuietEvents(cs, pkg, i, j - 1);
      EventsNext(cs, pkg, i, j - 1);
    } else {
      assert cs[i..j] == [];
      NoEvents(StateAt(cs, i), pkg);
    }
  }

  predicate AllAlone(es: seq<Event>)
  {
    forall e | e in es :: e == Alone
  }

  lemma {:induction false} AloneEvents(cs: seq<Line>, pkg: string, i: nat, j: nat)
    requires i <= j <= |cs| && forall k | i <= k < j :: AloneAt(cs, pkg, k)
    ensures AllAlone(Events(StateAt(cs, i), cs[i..j], pkg))
  {
    hide Events, EventAt;
    if i < j {
      AloneEvents(cs, pkg, i, j - 1);
      EventsNext(cs, pkg, i, j - 1);
      assert AloneAt(cs, pkg, j - 1);
    } else {
      NoEvents(StateAt(cs, i), pkg);
      assert cs[i..j] == [];
    }
  }

  lemma EventsCut(ok: Verdict, cs: seq<Line>, pkg: string, i: nat, j: nat)
    requires i <= j <= |cs|
    ensures Events(START, cs, pkg) ==
              Events(START, cs[..i], pkg) + Events(StateAt(cs, i), cs[i..j], pkg) + Events(StateAt(cs, j), cs[j..], pkg)
  {
    hide Events, After, Rules, Hard, Soft;
    assert cs == cs[..i] + cs[i..];
    EventsConcat(START, cs[..i], cs[i..], pkg);
    assert cs[i..] == cs[i..j] + cs[j..];
    EventsConcat(StateAt(cs, i), cs[i..j], cs[j..], pkg);
    CutAt(ok, cs, i, j);
  }

  // ----- the rules of a range

  lemma {:induction false} RangeRules(ok: Verdict, cs: seq<Line>, pkg: string, i: nat, j: nat)
    requires i <= j <= |cs|
    requires forall k | i <= k < j :: forall r | r in Asked(StateAt(cs, k), cs[k]) :: r.pkg == pkg
    ensures AllOf(Rules(ok, StateAt(cs, i), cs[i..j]), pkg)
  {
    if i < j {
      RangeRules(ok, cs, pkg, i, j - 1);
      RangeNext(ok, cs, i, j - 1);
      assert forall r | r in Asked(StateAt(cs, j - 1), cs[j - 1]) :: r.pkg == pkg;
    }
  }

  lemma RangeNext(ok: Verdict, cs: seq<Line>, i: nat, j: nat)
    requires i <= j < |cs|
    ensures Rules(ok, StateAt(cs, i), cs[i..j + 1]) == Rules(ok, StateAt(cs, i), cs[i..j]) + Emit(ok, StateAt(cs, j), cs[j])
    ensures Soft(StateAt(cs, i), cs[i..j + 1]) == Soft(StateAt(cs, i), cs[i..j]) + SoftFails(StateAt(cs, j), cs[j])
  {
    assert cs[i..j + 1] == cs[i..j] + [cs[j]];
    Concat(ok, StateAt(cs, i), cs[i..j], [cs[j]]);
    assert cs[..j] == cs[..i] + cs[i..j];
    AfterConcat(START, cs[..i], cs[i..j]);
    One(ok, StateAt(cs, j), cs[j]);
  }

  lemma {:induction false} RangeSoft(ok: Verdict, cs: seq<Line>, i: nat, j: nat)
    requires i < j <= |cs| && forall k | i < k < j :: SoftFails(StateAt(cs, k), cs[k]) == 0
    ensures Soft(StateAt(cs, i), cs[i..j]) == SoftFails(StateAt(cs, i), cs[i])
  {
    hide Rules, SoftFails, Emit, After;
    RangeNext(ok, cs, i, j - 1);
    if i < j - 1 {
      RangeSoft(ok, cs, i, j - 1);
    } else {
      assert cs[i..i] == [];
    }
  }

  // ----- the first block

  predicate NoLone(cs: seq<Line>, pkg: string)
  {
    forall k | 0 <= k < |cs| :: EventAt(cs, pkg, k) != [Lone]
  }

  /** Lines o to c are a whole block of the package. */
  predicate WholeBlock(cs: seq<Line>, pkg: string, o: nat, c: nat)
  {
    && o < c < |cs| && !StateAt(cs, o).inBlock && BlockAt(cs, pkg, o)
    && (forall k | o < k <= c :: StateAt(cs, k).inBlock && StateAt(cs, k).cur == pkg)
    && StateAt(cs, c + 1) == START
  }

  lemma OpensBlock(ok: Verdict, cs: seq<Line>, pkg: string, k: nat)
    requires Hard(ok, START, cs) == 0 && k < |cs| && pkg != "" && EventAt(cs, pkg, k) != [Lone]
    ensures AloneAt(cs, pkg, k) || BlockAt(cs, pkg, k)
    ensures BlockAt(cs, pkg, k) <==> !S.InTarget(cs, pkg, k) && S.InTarget(cs, pkg, k + 1)
  {
    hide Hard, S.InTarget;
    SoundLine(ok, cs, k);
    InBlockOf(ok, cs, pkg, k);
    InBlockOf(ok, cs, pkg, k + 1);
    EventStep(StateAt(cs, k), cs[k], pkg);
  }

  lemma EventStep(s: State, c: Line, pkg: string)
    requires pkg != "" && EventOf(s, c, pkg) != [Lone]
    ensures var e := EventOf(s, c, pkg); e == [] || e == [Alone] || e == [Opened] || e == [Awaited]
    ensures var e, n := EventOf(s, c, pkg), Step(s, c);
            (e == [Opened] || e == [Awaited]) <==> !(s.inBlock && s.cur == pkg) && n.inBlock && n.cur == pkg
  {
  }

  lemma FirstBlockFacts(ok: Verdict, cs: seq<Line>, pkg: string)
    requires Sound(ok, cs) && pkg != "" && NoLone(cs, pkg)
    ensures var t := S.Scan(cs, pkg);
            && (t.blockOpen.None? ==> forall k | 0 <= k < |cs| :: AloneAt(cs, pkg, k))
            && (t.blockOpen.Some? ==>
                  && t.blockClose.Some? && WholeBlock(cs, pkg, t.blockOpen.value, t.blockClose.value)
                  && forall k | 0 <= k < t.blockOpen.value :: AloneAt(cs, pkg, k))
  {
    hide Hard, EventAt, AloneAt, BlockAt, S.OpenTo, S.CloseTo, S.HeaderTo, S.HitsTo, After;
    var t := S.Scan(cs, pkg);
    S.FirstBlock(cs, pkg, |cs|);
    assert cs[..|cs|] == cs;
    InBlockOf(ok, cs, pkg, |cs|);
    forall k | 0 <= k < |cs|
      ensures AloneAt(cs, pkg, k) || (S.InTarget(cs, pkg, k + 1) && !S.InTarget(cs, pkg, k))
    {
      OpensBlock(ok, cs, pkg, k);
    }
    if t.blockOpen.Some? {
      var o, c := t.blockOpen.value, t.blockClose.value;
      OpensBlock(ok, cs, pkg, o);
      SoundLine(ok, cs, o);
      forall k | o < k <= c ensures StateAt(cs, k).inBlock && StateAt(cs, k).cur == pkg {
        InBlockOf(ok, cs, pkg, k);
      }
      BlockLeft(ok, cs, c);
      assert S.InTarget(cs, pkg, o + 1) && !S.InTarget(cs, pkg, o);
      forall k | 0 <= k < o ensures AloneAt(cs, pkg, k) {
        assert !S.InTarget(cs, pkg, k + 1);
      }
    } else {
      forall k | 0 <= k < |cs| ensures AloneAt(cs, pkg, k) {
        assert !S.InTarget(cs, pkg, k + 1);
      }
    }
  }

  lemma BlockLeft(ok: Verdict, cs: seq<Line>, c: nat)
    requires Hard(ok, START, cs) == 0 && c < |cs| && StateAt(cs, c).inBlock && !S.StateAt(cs, c + 1).inBlock
    ensures StateAt(cs, c + 1) == START
  {
    SoundLine(ok, cs, c);
    S.SoundHasNoOrphans(ok, cs);
    S.AgreeUpTo(cs, c + 1);
  }

  lemma BlockRange(ok: Verdict, cs: seq<Line>, pkg: string, o: nat, c: nat)
    requires Hard(ok, START, cs) == 0 && WholeBlock(cs, pkg, o, c)
    ensures AllOf(Rules(ok, StateAt(cs, o), cs[o..c + 1]), pkg)
    ensures Soft(StateAt(cs, o), cs[o..c + 1]) == SoftFails(StateAt(cs, o), cs[o])
    ensures Events(StateAt(cs, o), cs[o..c + 1], pkg) == EventAt(cs, pkg, o)
  {
    hide Hard, Rules, Soft, Events;
    forall k | o <= k < c + 1 ensures forall r | r in Asked(StateAt(cs, k), cs[k]) :: r.pkg == pkg {
      AskedOf(StateAt(cs, k), cs[k], pkg);
    }
    RangeRules(ok, cs, pkg, o, c + 1);
    forall k | o < k < c + 1 ensures SoftFails(StateAt(cs, k), cs[k]) == 0 && EventAt(cs, pkg, k) == [] {
      assert StateAt(cs, k).inBlock;
    }
    RangeSoft(ok, cs, o, c + 1);
    QuietEvents(cs, pkg, o + 1, c + 1);
    EventsHead(ok, cs, pkg, o, c + 1);
  }

  lemma AskedOf(s: State, c: Line, pkg: string)
    requires (s.inBlock && s.cur == pkg) || (!s.inBlock && EventOf(s, c, pkg) != [])
    ensures forall r | r in Asked(s, c) :: r.pkg == pkg
  {
  }

  lemma EventsHead(ok: Verdict, cs: seq<Line>, pkg: string, o: nat, j: nat)
    requires o < j <= |cs|
    ensures Events(StateAt(cs, o), cs[o..j], pkg) == EventAt(cs, pkg, o) + Events(StateAt(cs, o + 1), cs[o + 1..j], pkg)
  {
    assert cs[o..j][1..] == cs[o + 1..j];
    StateAtNext(cs, o);
  }

  // ----- one round

  /** What one round leaves, on raw or classified lines. */
  function RoundLines<T>(xs: seq<T>, t: S.Target): seq<T>
    requires t.pkgLine.Some? && t.pkgLine.value.idx < |xs|
    requires t.blockOpen.Some? ==>
               t.blockClose.Some? && t.pkgLine.value.idx <= t.blockOpen.value < t.blockClose.value < |xs|
  {
    var i := t.pkgLine.value.idx;
    if t.blockOpen.None? then xs[..i] + xs[i + 1..]
    else if i == t.blockOpen.value then xs[..i] + xs[t.blockClose.value + 1..]
    else xs[..i] + xs[i + 1..t.blockOpen.value] + xs[t.blockClose.value + 1..]
  }

  /** The first block taken out of a list of events. */
  function BlockOut(es: seq<Event>): seq<Event>
  {
    if es == [] then []
    else if es[0] == Alone then [Alone] + BlockOut(es[1..])
    else es[1..]
  }

  /** The first block of the list waits for a package line. */
  predicate FirstAwaited(es: seq<Event>)
  {
    es != [] && (es[0] == Awaited || (es[0] == Alone && FirstAwaited(es[1..])))
  }

  lemma {:induction false} OutOf(a: seq<Event>, e: Event, z: seq<Event>)
    requires AllAlone(a) && (e == Opened || e == Awaited)
    ensures BlockOut(a + [e] + z) == a + z && FirstAwaited(a + [e] + z) == (e == Awaited)
  {
    if a == [] {
      assert [] + [e] + z == [e] + z && ([e] + z)[1..] == z && [] + z == z;
    } else {
      assert (a + [e] + z)[1..] == a[1..] + [e] + z;
      assert a[0] in a && forall x | x in a[1..] :: x in a;
      OutOf(a[1..], e, z);
      assert a == [a[0]] + a[1..];
    }
  }

  lemma {:induction false} NoneOut(a: seq<Event>)
    requires AllAlone(a)
    ensures BlockOut(a) == a && !FirstAwaited(a)
  {
    if a != [] {
      assert a[0] in a && forall x | x in a[1..] :: x in a;
      NoneOut(a[1..]);
      assert a == [a[0]] + a[1..];
    }
  }

  /** One round on the list of events: the first event goes, and a rule that stands
      alone takes the first block with it. */
  function RoundOut(es: seq<Event>): seq<Event>
  {
    if es == [] then [] else if es[0] == Alone then BlockOut(es[1..]) else es[1..]
  }

  function Dangling(es: seq<Event>): nat
  {
    if es != [] && es[0] == Alone && FirstAwaited(es[1..]) then 1 else 0
  }

  ghost predicate Rounded(ok: Verdict, cs: seq<Line>, out: seq<Line>, pkg: string)
  {
    && Removed(ok, cs, out, pkg, Dangling(Events(START, cs, pkg)))
    && Events(START, out, pkg) == RoundOut(Events(START, cs, pkg))
  }

  /** A whole block removed. */
  lemma BlockDropped(ok: Verdict, cs: seq<Line>, pkg: string, o: nat, c: nat)
    requires Sound(ok, cs) && WholeBlock(cs, pkg, o, c)
    ensures var out := Spliced(cs, o, c + 1, []);
            && Removed(ok, cs, out, pkg, if EventAt(cs, pkg, o) == [Awaited] then 1 else 0)
            && Events(START, out, pkg) == Events(START, cs[..o], pkg) + Events(START, cs[c + 1..], pkg)
            && Events(START, cs, pkg) == Events(START, cs[..o], pkg) + EventAt(cs, pkg, o) + Events(START, cs[c + 1..], pkg)
  {
    hide Hard, Rules, Soft, Events, Others;
    BlockRange(ok, cs, pkg, o, c);
    SoundLine(ok, cs, o);
    DropRange(ok, cs, o, c + 1, [], pkg);
    DropEvents(ok, cs, o, c + 1, [], pkg);
    EventsCut(ok, cs, pkg, o, c + 1);
  }

  /** A rule that stands alone removed. */
  lemma AloneDropped(ok: Verdict, cs: seq<Line>, pkg: string, h: nat)
    requires Sound(ok, cs) && h < |cs| && EventAt(cs, pkg, h) == [Alone]
    ensures var out := Spliced(cs, h, h + 1, []);
            && Removed(ok, cs, out, pkg, 0)
            && Events(START, out, pkg) == Events(START, cs[..h], pkg) + Events(START, cs[h + 1..], pkg)
            && Events(START, cs, pkg) == Events(START, cs[..h], pkg) + [Alone] + Events(START, cs[h + 1..], pkg)
  {
    hide Hard, Soft, Events, Others, Rules, FailCount, After;
    SoundLine(ok, cs, h);
    assert cs[h..h + 1] == [cs[h]];
    One(ok, StateAt(cs, h), cs[h]);
    AloneRule(ok, StateAt(cs, h), cs[h], pkg);
    DropRange(ok, cs, h, h + 1, [], pkg);
    DropEvents(ok, cs, h, h + 1, [], pkg);
    EventsCut(ok, cs, pkg, h, h + 1);
    EventsNext(cs, pkg, h, h);
    assert cs[h..h] == [];
    NoEvents(StateAt(cs, h), pkg);
  }

  lemma AloneRule(ok: Verdict, s: State, c: Line, pkg: string)
    requires EventOf(s, c, pkg) == [Alone]
    ensures AllOf(Emit(ok, s, c), pkg) && !s.inBlock && !Step(s, c).inBlock && Step(s, c).pend == ""
    ensures Step(s, c).cur == s.cur && SoftFails(s, c) == (if s.pend != "" then 1 else 0)
  {
  }

  lemma NoEvents(s: State, pkg: string)
    ensures Events(s, [], pkg) == []
  {
  }

  lemma RoundAlone(ok: Verdict, cs: seq<Line>, pkg: string, h: nat)
    requires Sound(ok, cs) && h < |cs| && EventAt(cs, pkg, h) == [Alone]
    requires forall k | 0 <= k < h :: EventAt(cs, pkg, k) == []
    requires forall k | 0 <= k < |cs| :: AloneAt(cs, pkg, k)
    ensures Rounded(ok, cs, cs[..h] + cs[h + 1..], pkg)
  {
    hide Sound, Events, Removed;
    AloneDropped(ok, cs, pkg, h);
    QuietEvents(cs, pkg, 0, h);
    AloneEvents(cs, pkg, h + 1, |cs|);
    StartAt(cs);
    assert cs[0..h] == cs[..h] && cs[h + 1..|cs|] == cs[h + 1..];
    var z := Events(START, cs[h + 1..], pkg);
    AfterAlone(ok, cs, pkg, h);
    NoneOut(z);
    assert Spliced(cs, h, h + 1, []) == cs[..h] + cs[h + 1..];
    assert Events(START, cs, pkg) == [Alone] + z && ([Alone] + z)[1..] == z;
  }

  lemma StartAt(cs: seq<Line>)
    ensures StateAt(cs, 0) == START
  {
    assert cs[..0] == [];
  }

  lemma AfterAlone(ok: Verdict, cs: seq<Line>, pkg: string, h: nat)
    requires Sound(ok, cs) && h < |cs| && EventAt(cs, pkg, h) == [Alone]
    ensures StateAt(cs, h + 1) == START
  {
    SoundLine(ok, cs, h);
  }

  lemma RoundBlock(ok: Verdict, cs: seq<Line>, pkg: string, o: nat, c: nat)
    requires Sound(ok, cs) && WholeBlock(cs, pkg, o, c) && EventAt(cs, pkg, o) == [Opened]
    requires forall k | 0 <= k < o :: EventAt(cs, pkg, k) == []
    ensures Rounded(ok, cs, cs[..o] + cs[c + 1..], pkg)
  {
    hide Sound, Events, Removed, EventAt;
    BlockDropped(ok, cs, pkg, o, c);
    QuietEvents(cs, pkg, 0, o);
    StartAt(cs);
    assert cs[0..o] == cs[..o];
    var z := Events(START, cs[c + 1..], pkg);
    assert Spliced(cs, o, c + 1, []) == cs[..o] + cs[c + 1..];
    assert Events(START, cs, pkg) == [Opened] + z && ([Opened] + z)[1..] == z;
  }

  lemma RoundAwaited(ok: Verdict, cs: seq<Line>, pkg: string, pi: nat, o: nat, c: nat)
    requires Sound(ok, cs) && WholeBlock(cs, pkg, o, c) && EventAt(cs, pkg, o) == [Awaited] && pi < o
    requires cs[pi].Text? && cs[pi].outer.Pending? && !StateAt(cs, pi).inBlock
    requires forall k | pi < k < o :: cs[k].Skip?
    requires forall k | 0 <= k < o :: EventAt(cs, pkg, k) == []
    ensures Rounded(ok, cs, cs[..pi] + cs[pi + 1..o] + cs[c + 1..], pkg)
  {
    hide Sound, Events, Removed, Rules, Soft, Hard, After;
    var mid := cs[pi + 1..o];
    AwaitedRange(ok, cs, pkg, pi, o, c);
    DropRange(ok, cs, pi, c + 1, mid, pkg);
    DropEvents(ok, cs, pi, c + 1, mid, pkg);
    EventsCut(ok, cs, pkg, pi, c + 1);
    QuietEvents(cs, pkg, 0, pi);
    StartAt(cs);
    assert cs[0..pi] == cs[..pi];
    var z := Events(START, cs[c + 1..], pkg);
    assert Spliced(cs, pi, c + 1, mid) == cs[..pi] + mid + cs[c + 1..];
    assert Events(START, cs, pkg) == [Awaited] + z && ([Awaited] + z)[1..] == z;
  }

  lemma AwaitedRange(ok: Verdict, cs: seq<Line>, pkg: string, pi: nat, o: nat, c: nat)
    requires Sound(ok, cs) && WholeBlock(cs, pkg, o, c) && EventAt(cs, pkg, o) == [Awaited] && pi < o
    requires cs[pi].Text? && cs[pi].outer.Pending? && !StateAt(cs, pi).inBlock
    requires forall k | pi < k < o :: cs[k].Skip?
    ensures AllOf(Rules(ok, StateAt(cs, pi), cs[pi..c + 1]), pkg)
    ensures Soft(StateAt(cs, pi), cs[pi..c + 1]) == (if StateAt(cs, pi).pend != "" then 1 else 0)
    ensures Events(StateAt(cs, pi), cs[pi..c + 1], pkg) == [Awaited]
  {
    hide Sound, Events, Rules, Soft, Hard, After;
    forall k | pi <= k < c + 1 ensures forall r | r in Asked(StateAt(cs, k), cs[k]) :: r.pkg == pkg {
      if k >= o {
        AskedOf(StateAt(cs, k), cs[k], pkg);
      }
    }
    RangeRules(ok, cs, pkg, pi, c + 1);
    forall k | pi < k < c + 1 ensures SoftFails(StateAt(cs, k), cs[k]) == 0 && (k != o ==> EventAt(cs, pkg, k) == []) {
      if k > o {
        assert StateAt(cs, k).inBlock;
      }
    }
    RangeSoft(ok, cs, pi, c + 1);
    QuietEvents(cs, pkg, pi, o);
    EventsNext(cs, pkg, pi, o);
    EventsJoin(cs, pkg, pi, o + 1, c + 1);
    QuietEvents(cs, pkg, o + 1, c + 1);
  }

  lemma EventsJoin(cs: seq<Line>, pkg: string, i: nat, j: nat, n: nat)
    requires i <= j <= n <= |cs|
    ensures Events(StateAt(cs, i), cs[i..n], pkg) ==
              Events(StateAt(cs, i), cs[i..j], pkg) + Events(StateAt(cs, j), cs[j..n], pkg)
  {
    assert cs[i..n] == cs[i..j] + cs[j..n];
    EventsConcat(StateAt(cs, i), cs[i..j], cs[j..n], pkg);
    assert cs[..j] == cs[..i] + cs[i..j];
    AfterConcat(START, cs[..i], cs[i..j]);
  }

  lemma RoundPair(ok: Verdict, cs: seq<Line>, pkg: string, h: nat, o: nat, c: nat)
    requires Sound(ok, cs) && WholeBlock(cs, pkg, o, c) && h < o && EventAt(cs, pkg, h) == [Alone]
    requires forall k | 0 <= k < h :: EventAt(cs, pkg, k) == []
    requires forall k | 0 <= k < o :: AloneAt(cs, pkg, k)
    ensures Rounded(ok, cs, cs[..h] + cs[h + 1..o] + cs[c + 1..], pkg)
  {
    hide Sound, Events, Others, Loaded, FailCount, After, EventAt, AloneAt, StateAt;
    var one := Spliced(cs, o, c + 1, []);
    BlockDropped(ok, cs, pkg, o, c);
    SplicePrefix(cs, o, c + 1, [], h);
    assert one[h] == cs[h];
    SameEventAt(one, cs, pkg, h);
    AloneDropped(ok, one, pkg, h);
    assert Spliced(one, h, h + 1, []) == cs[..h] + cs[h + 1..o] + cs[c + 1..];
    var a := FrontEvents(ok, cs, pkg, h, o);
    var z, e := Events(START, cs[c + 1..], pkg), EventAt(cs, pkg, o)[0];
    assert EventAt(cs, pkg, o) == [e];
    assert one[..h] == cs[..h];
    PairOut(a, e, z, Events(START, cs, pkg), Events(START, one, pkg), Events(START, one[h + 1..], pkg));
  }

  /** The events before the block: the removed rule, then others that stand alone. */
  lemma FrontEvents(ok: Verdict, cs: seq<Line>, pkg: string, h: nat, o: nat) returns (a: seq<Event>)
    requires h < o <= |cs| && EventAt(cs, pkg, h) == [Alone]
    requires forall k | 0 <= k < h :: EventAt(cs, pkg, k) == []
    requires forall k | 0 <= k < o :: AloneAt(cs, pkg, k)
    ensures Events(START, cs[..o], pkg) == [Alone] + a && AllAlone(a) && Events(START, cs[..h], pkg) == []
  {
    hide Events, EventAt, AloneAt, StateAt;
    QuietEvents(cs, pkg, 0, h);
    StartAt(cs);
    EventsHead(ok, cs, pkg, h, o);
    AloneEvents(cs, pkg, h + 1, o);
    EventsJoin(cs, pkg, 0, h, o);
    assert cs[0..h] == cs[..h] && cs[0..o] == cs[..o];
    a := Events(StateAt(cs, h + 1), cs[h + 1..o], pkg);
  }

  /** The lists of events before and after such a round. */
  lemma PairOut(a: seq<Event>, e: Event, z: seq<Event>, es: seq<Event>, one: seq<Event>, out: seq<Event>)
    requires AllAlone(a) && (e == Opened || e == Awaited)
    requires es == ([Alone] + a) + [e] + z && one == ([Alone] + a) + z && one == [] + [Alone] + out
    ensures RoundOut(es) == out && Dangling(es) == (if e == Awaited then 1 else 0)
  {
    hide RoundOut, Dangling, BlockOut, FirstAwaited, AllAlone;
    FrontFirst(a, [e] + z);
    assert ([Alone] + a) + [e] + z == ([Alone] + a) + ([e] + z) && a + [e] + z == a + ([e] + z);
    OutOf(a, e, z);
    AloneRound(a + [e] + z);
    FrontFirst(a, z);
    AloneFirst(out, a + z);
  }

  lemma FrontFirst(a: seq<Event>, z: seq<Event>)
    ensures ([Alone] + a) + z == [Alone] + (a + z)
  {
  }

  lemma AloneRound(rest: seq<Event>)
    ensures RoundOut([Alone] + rest) == BlockOut(rest) && Dangling([Alone] + rest) == if FirstAwaited(rest) then 1 else 0
  {
    assert ([Alone] + rest)[1..] == rest;
  }

  lemma SameEventAt(a: seq<Line>, b: seq<Line>, pkg: string, h: nat)
    requires h < |a| && h < |b| && a[h] == b[h] && StateAt(a, h) == StateAt(b, h)
    ensures EventAt(a, pkg, h) == EventAt(b, pkg, h)
  {
  }

  lemma AloneFirst(x: seq<Event>, y: seq<Event>)
    requires [] + [Alone] + x == [Alone] + y
    ensures x == y
  {
    assert ([] + [Alone] + x)[1..] == x && ([Alone] + y)[1..] == y;
  }

  predicate KindAt(cs: seq<Line>, pkg: string, v: nat, h: S.PkgLine)
    requires v < |cs|
  {
    match h
    case Standalone(i) => i == v && EventAt(cs, pkg, v) == [Alone]
    case BarePending(i) => EventAt(cs, pkg, v) == [Awaited]
    case _ => h.idx == v && EventAt(cs, pkg, v) == [Opened]
  }

  /** The first header is the first event. */
  lemma FirstEvent(ok: Verdict, cs: seq<Line>, pkg: string) returns (v: nat)
    requires Sound(ok, cs) && pkg != "" && NoLone(cs, pkg) && S.Scan(cs, pkg).pkgLine.Some?
    ensures v < |cs| && S.HeaderAt(cs, pkg, v) == S.Scan(cs, pkg).pkgLine
    ensures KindAt(cs, pkg, v, S.Scan(cs, pkg).pkgLine.value)
    ensures forall k | 0 <= k < v :: EventAt(cs, pkg, k) == []
  {
    hide EventAt, S.HeaderAt;
    v := S.FirstHeader(cs, pkg, |cs|);
    forall k | 0 <= k < v ensures EventAt(cs, pkg, k) == [] {
      HeaderIsEvent(ok, cs, pkg, k);
    }
    HeaderIsEvent(ok, cs, pkg, v);
  }

  lemma RoundCase(ok: Verdict, cs: seq<Line>, pkg: string, v: nat, t: S.Target)
    requires Sound(ok, cs) && v < |cs| && t.pkgLine.Some? && KindAt(cs, pkg, v, t.pkgLine.value)
    requires forall k | 0 <= k < v :: EventAt(cs, pkg, k) == []
    requires t.blockOpen.None? ==> forall k | 0 <= k < |cs| :: AloneAt(cs, pkg, k)
    requires t.blockOpen.Some? ==>
               && t.blockClose.Some? && WholeBlock(cs, pkg, t.blockOpen.value, t.blockClose.value)
               && forall k | 0 <= k < t.blockOpen.value :: AloneAt(cs, pkg, k)
    requires t.pkgLine.value.BarePending? ==>
               var pi := t.pkgLine.value.idx;
               && pi < v && cs[pi].Text? && cs[pi].outer.Pending? && !StateAt(cs, pi).inBlock
               && forall k | pi < k < v :: cs[k].Skip?
    ensures t.blockOpen.Some? ==>
              t.blockClose.Some? && t.pkgLine.value.idx <= t.blockOpen.value < t.blockClose.value < |cs|
    ensures t.pkgLine.value.idx < |cs| && Rounded(ok, cs, RoundLines(cs, t), pkg)
  {
    hide Events, Rounded, EventAt, Sound;
    assert t.blockOpen.None? ==> AloneAt(cs, pkg, v);
    if t.blockOpen.None? {
      RoundAlone(ok, cs, pkg, v);
    } else {
      var o, c := t.blockOpen.value, t.blockClose.value;
      FirstIsBefore(cs, pkg, v, o);
      match t.pkgLine.value {
        case Standalone(h) => RoundPair(ok, cs, pkg, v, o, c);
        case BarePending(pi) => RoundAwaited(ok, cs, pkg, pi, v, c);
        case _ => RoundBlock(ok, cs, pkg, v, c);
      }
    }
  }

  lemma WaitingLine(ok: Verdict, cs: seq<Line>, pkg: string, v: nat, pi: nat)
    requires Sound(ok, cs) && v < |cs| && S.HeaderAt(cs, pkg, v) == Some(S.BarePending(pi))
    ensures pi < v && cs[pi].Text? && cs[pi].outer.Pending? && !StateAt(cs, pi).inBlock
    ensures forall k | pi < k < v :: cs[k].Skip?
  {
    PendingBefore(cs, pkg, v, pi);
    S.PendingRun(cs, v);
    SoundLine(ok, cs, pi);
  }

  /** One round on a sound file without single-line rules of the package. */
  lemma RoundMeaning(ok: Verdict, cs: seq<Line>, pkg: string)
    requires Sound(ok, cs) && pkg != "" && NoLone(cs, pkg) && S.Scan(cs, pkg).pkgLine.Some?
    ensures var t := S.Scan(cs, pkg);
            && (t.blockOpen.Some? ==>
                  t.blockClose.Some? && t.pkgLine.value.idx <= t.blockOpen.value < t.blockClose.value < |cs|)
            && Rounded(ok, cs, RoundLines(cs, t), pkg)
  {
    hide Rounded, EventAt, Sound, S.HeaderTo, S.OpenTo, S.CloseTo, S.HeaderAt, WholeBlock, AloneAt, KindAt;
    var t := S.Scan(cs, pkg);
    var v := FirstEvent(ok, cs, pkg);
    FirstBlockFacts(ok, cs, pkg);
    if t.pkgLine.value.BarePending? {
      WaitingLine(ok, cs, pkg, v, t.pkgLine.value.idx);
    }
    RoundCase(ok, cs, pkg, v, t);
  }

  lemma PendingBefore(cs: seq<Line>, pkg: string, v: nat, pi: nat)
    requires v < |cs| && S.HeaderAt(cs, pkg, v) == Some(S.BarePending(pi))
    ensures S.StateAt(cs, v).pend == Some(pi) && pi < v
  {
  }

  /** The first event is not behind the first block. */
  lemma FirstIsBefore(cs: seq<Line>, pkg: string, v: nat, o: nat)
    requires v < |cs| && o < |cs| && BlockAt(cs, pkg, o) && forall k | 0 <= k < v :: EventAt(cs, pkg, k) == []
    requires AloneAt(cs, pkg, v) || BlockAt(cs, pkg, v)
    requires forall k | 0 <= k < o :: AloneAt(cs, pkg, k)
    ensures v <= o && (!AloneAt(cs, pkg, v) ==> v == o) && (AloneAt(cs, pkg, v) ==> v < o)
  {
  }

  // ----- all rounds

  lemma {:induction false} LoneEvents(cs: seq<Line>, pkg: string, n: nat)
    requires n <= |cs|
    ensures Lone in Events(START, cs[..n], pkg) <==> exists k :: 0 <= k < n && EventAt(cs, pkg, k) == [Lone]
  {
    StartAt(cs);
    if n > 0 {
      LoneEvents(cs, pkg, n - 1);
      EventsNext(cs, pkg, 0, n - 1);
      assert cs[0..n] == cs[..n] && cs[0..n - 1] == cs[..n - 1];
      LoneOf(StateAt(cs, n - 1), cs[n - 1], pkg);
    } else {
      NoEvents(START, pkg);
    }
  }

  lemma LoneOf(s: State, c: Line, pkg: string)
    ensures Lone in EventOf(s, c, pkg) <==> EventOf(s, c, pkg) == [Lone]
  {
  }

  lemma LoneIs(cs: seq<Line>, pkg: string)
    ensures NoLone(cs, pkg) <==> Lone !in Events(START, cs, pkg)
  {
    hide EventAt, Events;
    LoneEvents(cs, pkg, |cs|);
    assert cs[..|cs|] == cs;
  }

  lemma {:induction false} BlockOutLess(es: seq<Event>)
    ensures |BlockOut(es)| <= |es| && forall e | e in BlockOut(es) :: e in es
  {
    if es != [] && es[0] == Alone {
      BlockOutLess(es[1..]);
    }
  }

  lemma RoundOutLess(es: seq<Event>)
    requires es != []
    ensures |RoundOut(es)| < |es| && forall e | e in RoundOut(es) :: e in es
  {
    BlockOutLess(es[1..]);
  }

  /** How many package lines the rounds leave without their block. */
  function Stranded(es: seq<Event>): nat
    decreases |es|
  {
    if es == [] then 0
    else
      RoundOutLess(es);
      Dangling(es) + Stranded(RoundOut(es))
  }

  /** The same number, read off the file from top to bottom: every rule that stands
      alone is paired with the next free block behind it, and a block so paired leaves
      its package line behind if it waits for one. */
  function Unpaired(es: seq<Event>, alone: nat): nat
  {
    if es == [] then 0
    else if es[0] == Alone then Unpaired(es[1..], alone + 1)
    else if alone == 0 then Unpaired(es[1..], 0)
    else (if es[0] == Awaited then 1 else 0) + Unpaired(es[1..], alone - 1)
  }

  lemma {:induction false} OnePair(es: seq<Event>, alone: nat)
    ensures Unpaired(es, alone + 1) == (if FirstAwaited(es) then 1 else 0) + Unpaired(BlockOut(es), alone)
  {
    if es != [] && es[0] == Alone {
      OnePair(es[1..], alone + 1);
      assert ([Alone] + BlockOut(es[1..]))[1..] == BlockOut(es[1..]);
    }
  }

  lemma {:induction false} StrandedIsUnpaired(es: seq<Event>)
    ensures Stranded(es) == Unpaired(es, 0)
    decreases |es|
  {
    if es != [] {
      RoundOutLess(es);
      StrandedIsUnpaired(RoundOut(es));
      if es[0] == Alone {
        OnePair(es[1..], 0);
      }
    }
  }

  /** Without an event there is no rule of the package. */
  lemma {:induction false} NoEventsNoRules(ok: Verdict, s: State, cs: seq<Line>, pkg: string)
    requires Events(s, cs, pkg) == [] && (s.inBlock ==> s.cur != pkg) && pkg != ""
    ensures forall r | r in Rules(ok, s, cs) :: r.pkg != pkg
    decreases |cs|
  {
    if cs != [] {
      NoEventsNoRules(ok, Step(s, cs[0]), cs[1..], pkg);
    }
  }
}
