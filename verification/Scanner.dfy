/** What `target_scan` records about one package, defined line by line over the
    classified file, and the lockstep between that scanner and the loader. */
module Scanner {
  import opened Base
  import opened Lines
  import L = Loader

  datatype PkgLine = Standalone(idx: nat) | OpenInline(idx: nat) | OpenBare(idx: nat) | BarePending(idx: nat)

  datatype ThreadLoc = ThreadLoc(idx: nat, single: bool, closed: bool, open: bool)

  /** One (thread name, location) pair of the scanner's `threads` table. The table
      is kept as the list of its pairs in line order. */
  datatype Hit = Hit(name: string, loc: ThreadLoc)

  datatype Target = Target(
    pkgLine: Option<PkgLine>,
    blockOpen: Option<nat>,
    blockClose: Option<nat>,
    hits: seq<Hit>,
    unterminated: bool)

  /** The scanner's own state: a pending package line is remembered by its index. */
  datatype State = State(inBlock: bool, cur: string, pend: Option<nat>)

  function PendingName(cs: seq<Line>, pi: nat): string
  {
    if pi < |cs| && cs[pi].Text? && cs[pi].outer.Pending? then cs[pi].outer.pkg else ""
  }

  function Step(cs: seq<Line>, i: nat, s: State): State
    requires i < |cs|
  {
    var c := cs[i];
    if c.Skip? then s
    else if s.inBlock then
      if c.inner.Close? || (c.inner.Entry? && c.inner.closed) || (c.inner.Bad? && c.inner.closes)
      then State(false, "", s.pend)
      else s
    else
      match c.outer
      case Single(pkg, _, _, open) => if open then State(true, pkg, None) else State(false, "", None)
      case Rule(pkg, _, open) => if open then State(true, pkg, None) else State(false, "", None)
      case BareOpen(pkg) =>
        if pkg != "" then State(true, pkg, None)
        else if s.pend.Some? then State(true, PendingName(cs, s.pend.value), None)
        else s
      case Pending(_) => State(false, "", Some(i))
      case Junk => State(false, "", None)
  }

  /** The scanner's state just before line i. */
  function StateAt(cs: seq<Line>, i: nat): (s: State)
    requires i <= |cs|
    ensures s.pend.Some? ==> s.pend.value < i
  {
    if i == 0 then State(false, "", None) else Step(cs, i - 1, StateAt(cs, i - 1))
  }

  predicate InTarget(cs: seq<Line>, pkg: string, i: nat)
    requires i <= |cs|
  {
    StateAt(cs, i).inBlock && StateAt(cs, i).cur == pkg
  }

  function HitAt(cs: seq<Line>, pkg: string, i: nat): Option<Hit>
    requires i < |cs|
  {
    var c := cs[i];
    if c.Skip? then None
    else if StateAt(cs, i).inBlock then
      if c.inner.Entry? && InTarget(cs, pkg, i) && c.inner.name != ""
      then Some(Hit(c.inner.name, ThreadLoc(i, false, c.inner.closed, false)))
      else None
    else if c.outer.Single? && c.outer.pkg == pkg && c.outer.thread != ""
    then Some(Hit(c.outer.thread, ThreadLoc(i, true, false, c.outer.open)))
    else None
  }

  function HitsTo(cs: seq<Line>, pkg: string, n: nat): seq<Hit>
    requires n <= |cs|
  {
    if n == 0 then []
    else HitsTo(cs, pkg, n - 1) + (match HitAt(cs, pkg, n - 1) case Some(h) => [h] case None => [])
  }

  function HeaderAt(cs: seq<Line>, pkg: string, i: nat): (h: Option<PkgLine>)
    requires i < |cs|
    ensures h.Some? ==> h.value.idx <= i
  {
    var c := cs[i];
    var s := StateAt(cs, i);
    if c.Skip? || s.inBlock then None
    else if c.outer.Rule? && c.outer.pkg == pkg then
      Some(if c.outer.open then OpenInline(i) else Standalone(i))
    else if c.outer.BareOpen? && c.outer.pkg != "" && c.outer.pkg == pkg then
      Some(OpenBare(i))
    else if c.outer.BareOpen? && c.outer.pkg == "" && s.pend.Some? && PendingName(cs, s.pend.value) == pkg then
      Some(BarePending(s.pend.value))
    else None
  }

  function HeaderTo(cs: seq<Line>, pkg: string, n: nat): (h: Option<PkgLine>)
    requires n <= |cs|
    ensures h.Some? ==> h.value.idx < n
  {
    if n == 0 then None
    else if HeaderTo(cs, pkg, n - 1).Some? then HeaderTo(cs, pkg, n - 1)
    else HeaderAt(cs, pkg, n - 1)
  }

  function CloseTo(cs: seq<Line>, pkg: string, n: nat): (c: Option<nat>)
    requires n <= |cs|
    ensures c.Some? ==> c.value < n
  {
    if n == 0 then None
    else if CloseTo(cs, pkg, n - 1).Some? then CloseTo(cs, pkg, n - 1)
    else if InTarget(cs, pkg, n - 1) && !StateAt(cs, n).inBlock then Some(n - 1)
    else None
  }

  function OpenTo(cs: seq<Line>, pkg: string, n: nat): (o: Option<nat>)
    requires n <= |cs|
    ensures o.Some? ==> o.value < n
  {
    if n == 0 then None
    else if CloseTo(cs, pkg, n - 1).None? && !StateAt(cs, n - 1).inBlock && InTarget(cs, pkg, n) then Some(n - 1)
    else OpenTo(cs, pkg, n - 1)
  }

  /** The whole record. */
  function Scan(cs: seq<Line>, pkg: string): Target
  {
    Target(HeaderTo(cs, pkg, |cs|), OpenTo(cs, pkg, |cs|), CloseTo(cs, pkg, |cs|),
           HitsTo(cs, pkg, |cs|), StateAt(cs, |cs|).inBlock)
  }

  // ----- lockstep with the loader

  predicate Agree(cs: seq<Line>, l: L.State, s: State)
  {
    && l.inBlock == s.inBlock
    && (l.inBlock ==> l.cur == s.cur)
    && l.pend == (match s.pend case Some(pi) => PendingName(cs, pi) case None => "")
    && (s.pend.Some? ==> s.pend.value < |cs| && cs[s.pend.value].Text? && cs[s.pend.value].outer.Pending?)
  }

  /** A bare brace that the scanner, but not the loader, gives to a package line
      whose name is empty (a lone `=`). */
  predicate OrphanOpen(cs: seq<Line>, i: nat)
    requires i < |cs|
  {
    var s := StateAt(cs, i);
    && cs[i].Text? && !s.inBlock && cs[i].outer.BareOpen? && cs[i].outer.pkg == ""
    && s.pend.Some? && PendingName(cs, s.pend.value) == ""
  }

  predicate NoOrphans(cs: seq<Line>, n: nat)
    requires n <= |cs|
  {
    forall i | 0 <= i < n :: !OrphanOpen(cs, i)
  }

  lemma {:induction false} AgreeUpTo(cs: seq<Line>, n: nat)
    requires n <= |cs| && NoOrphans(cs, n)
    ensures Agree(cs, L.StateAt(cs, n), StateAt(cs, n))
  {
    if n > 0 {
      AgreeUpTo(cs, n - 1);
      L.StateAtNext(cs, n - 1);
      assert !OrphanOpen(cs, n - 1);
    }
  }

  /** The two readers agree on every block boundary of a file exactly when no bare
      brace follows a nameless package line. */
  lemma {:induction false} Lockstep(cs: seq<Line>)
    ensures NoOrphans(cs, |cs|) <==>
            forall i | 0 <= i <= |cs| :: L.StateAt(cs, i).inBlock == StateAt(cs, i).inBlock
  {
    if NoOrphans(cs, |cs|) {
      forall i | 0 <= i <= |cs| ensures L.StateAt(cs, i).inBlock == StateAt(cs, i).inBlock {
        AgreeUpTo(cs, i);
      }
    } else {
      var i := FirstOrphan(cs, |cs|);
      AgreeUpTo(cs, i);
      L.StateAtNext(cs, i);
      assert OrphanOpen(cs, i);
      assert StateAt(cs, i + 1).inBlock && !L.StateAt(cs, i + 1).inBlock;
    }
  }

  lemma {:induction false} FirstOrphan(cs: seq<Line>, n: nat) returns (i: nat)
    requires n <= |cs| && !NoOrphans(cs, n)
    ensures i < n && OrphanOpen(cs, i) && NoOrphans(cs, i)
  {
    if NoOrphans(cs, n - 1) {
      i := n - 1;
    } else {
      i := FirstOrphan(cs, n - 1);
    }
  }

  /** A file the loader takes without a hard failure has no such brace. */
  lemma SoundHasNoOrphans(ok: L.Verdict, cs: seq<Line>)
    requires L.Hard(ok, L.START, cs) == 0
    ensures NoOrphans(cs, |cs|)
  {
    if !NoOrphans(cs, |cs|) {
      var i := FirstOrphan(cs, |cs|);
      AgreeUpTo(cs, i);
      L.LineOf(ok, cs, i);
    }
  }

  /** In lockstep, the lines the scanner records for a package are exactly the lines
      whose rule the loader attributes to it as a thread rule. */
  lemma HitsAreLoaderLines(cs: seq<Line>, pkg: string, i: nat)
    requires i < |cs| && NoOrphans(cs, |cs|) && Named(cs[i])
    ensures var a := L.Asked(L.StateAt(cs, i), cs[i]);
            HitAt(cs, pkg, i).Some? <==> a != [] && a[0].pkg == pkg && a[0].thread != ""
    ensures HitAt(cs, pkg, i).Some? ==>
              L.Asked(L.StateAt(cs, i), cs[i])[0].thread == HitAt(cs, pkg, i).value.name
    ensures InTarget(cs, pkg, i) <==> L.StateAt(cs, i).inBlock && L.StateAt(cs, i).cur == pkg
  {
    AgreeUpTo(cs, i);
  }

  // ----- what the record says about the file

  /** o opens the first block of the package within n lines, and c closes it. */
  predicate FirstIs(cs: seq<Line>, pkg: string, n: nat, o: Option<nat>, c: Option<nat>)
    requires n <= |cs|
  {
    && (c.Some? ==>
          && o.Some? && o.value < c.value < n
          && (forall k | o.value < k <= c.value :: InTarget(cs, pkg, k))
          && !StateAt(cs, c.value + 1).inBlock)
    && (o.Some? ==>
          && o.value < n && !StateAt(cs, o.value).inBlock && InTarget(cs, pkg, o.value + 1)
          && (forall k | 0 <= k <= o.value :: !InTarget(cs, pkg, k)))
    && (o.Some? && c.None? ==> forall k | o.value < k <= n :: InTarget(cs, pkg, k))
    && (o.None? ==> c.None? && forall k | 0 <= k <= n :: !InTarget(cs, pkg, k))
  }

  /** A block is entered from outside and left to the outside. */
  lemma BlockSides(cs: seq<Line>, pkg: string, n: nat)
    requires n < |cs|
    ensures InTarget(cs, pkg, n + 1) && StateAt(cs, n).inBlock ==> InTarget(cs, pkg, n)
    ensures InTarget(cs, pkg, n) && StateAt(cs, n + 1).inBlock ==> InTarget(cs, pkg, n + 1)
    ensures InTarget(cs, pkg, n) ==> StateAt(cs, n).inBlock
  {
  }

  lemma FirstStep(cs: seq<Line>, pkg: string, n: nat, o: Option<nat>, c: Option<nat>)
    requires n < |cs| && FirstIs(cs, pkg, n, o, c)
    ensures FirstIs(cs, pkg, n + 1,
                    if c.None? && !StateAt(cs, n).inBlock && InTarget(cs, pkg, n + 1) then Some(n) else o,
                    if c.None? && InTarget(cs, pkg, n) && !StateAt(cs, n + 1).inBlock then Some(n) else c)
  {
    BlockSides(cs, pkg, n);
    hide StateAt, InTarget;
  }

  /** The recorded block is the first block of the package. */
  lemma {:induction false} FirstBlock(cs: seq<Line>, pkg: string, n: nat)
    requires n <= |cs|
    ensures FirstIs(cs, pkg, n, OpenTo(cs, pkg, n), CloseTo(cs, pkg, n))
  {
    hide StateAt;
    if n == 0 {
      OutsideAtStart(cs, pkg);
    } else {
      hide FirstIs;
      FirstBlock(cs, pkg, n - 1);
      FirstStep(cs, pkg, n - 1, OpenTo(cs, pkg, n - 1), CloseTo(cs, pkg, n - 1));
    }
  }

  lemma OutsideAtStart(cs: seq<Line>, pkg: string)
    ensures !InTarget(cs, pkg, 0)
  {
  }

  /** The recorded header is the first header of the package. */
  lemma {:induction false} FirstHeader(cs: seq<Line>, pkg: string, n: nat) returns (v: nat)
    requires n <= |cs|
    ensures v <= n && forall u | 0 <= u < v :: HeaderAt(cs, pkg, u).None?
    ensures HeaderTo(cs, pkg, n).Some? ==> v < n && HeaderAt(cs, pkg, v) == HeaderTo(cs, pkg, n)
    ensures HeaderTo(cs, pkg, n).None? ==> v == n
  {
    if n == 0 {
      v := 0;
    } else {
      v := FirstHeader(cs, pkg, n - 1);
      if HeaderTo(cs, pkg, n - 1).None? && HeaderAt(cs, pkg, n - 1).None? {
        v := n;
      }
    }
  }

  lemma HitIndex(cs: seq<Line>, pkg: string, i: nat)
    requires i < |cs|
    ensures HitAt(cs, pkg, i).Some? ==> HitAt(cs, pkg, i).value.loc.idx == i
  {
  }

  predicate InOrder(cs: seq<Line>, pkg: string, hs: seq<Hit>, n: nat)
    requires n <= |cs|
  {
    && (forall a | 0 <= a < |hs| :: hs[a].loc.idx < n && HitAt(cs, pkg, hs[a].loc.idx) == Some(hs[a]))
    && (forall a, b | 0 <= a < b < |hs| :: hs[a].loc.idx < hs[b].loc.idx)
  }

  /** The recorded hits are the hits of single lines, in increasing line order. */
  lemma {:induction false} HitsInOrder(cs: seq<Line>, pkg: string, n: nat)
    requires n <= |cs|
    ensures InOrder(cs, pkg, HitsTo(cs, pkg, n), n)
  {
    if n > 0 {
      HitsInOrder(cs, pkg, n - 1);
      OneMoreHit(cs, pkg, HitsTo(cs, pkg, n - 1), n - 1);
    }
  }

  lemma OneMoreHit(cs: seq<Line>, pkg: string, hs: seq<Hit>, n: nat)
    requires n < |cs| && InOrder(cs, pkg, hs, n)
    ensures InOrder(cs, pkg, hs + (match HitAt(cs, pkg, n) case Some(h) => [h] case None => []), n + 1)
  {
    match HitAt(cs, pkg, n) {
      case Some(h) => assert h.loc.idx == n;
      case None => assert hs + [] == hs;
    }
  }

  /** A remembered package line is followed by nothing but skipped lines. */
  lemma {:induction false} PendingRun(cs: seq<Line>, i: nat)
    requires i <= |cs|
    ensures var p := StateAt(cs, i).pend;
            p.Some? ==>
              && p.value < i && cs[p.value].Text? && cs[p.value].outer.Pending? && !StateAt(cs, p.value).inBlock
              && (forall k | p.value < k < i :: cs[k].Skip?)
    ensures StateAt(cs, i).inBlock ==> StateAt(cs, i).pend.None?
  {
    if i > 0 {
      PendingRun(cs, i - 1);
    }
  }
}
