/** What the edits answer, in the loader's terms, on every file that has no orphan brace
    once it is normalized. */
module Answers {
  import opened Base
  import opened Text
  import opened Lines
  import opened Syntax
  import opened Loader
  import opened Edits
  import opened Tracking
  import opened Taking
  import opened Stripping
  import opened Normalizing
  import opened RuleEdits
  import opened RoughRounds
  import S = Scanner

  // ----- what the loader sees

  /** On line i the loader meets a rule of the package itself, or enters its block. */
  predicate Headed(cs: seq<Line>, pkg: string, i: nat)
    requires i < |cs|
  {
    var s := StateAt(cs, i);
    && cs[i].Text? && !s.inBlock
    && match cs[i].outer
       case Rule(p, _, _) => p == pkg
       case BareOpen(p) => if p != "" then p == pkg else s.pend == pkg && pkg != ""
       case _ => false
  }

  /** Line i holds a rule on its own for the package. */
  predicate Alone(cs: seq<Line>, pkg: string, i: nat)
    requires i < |cs|
  {
    Headed(cs, pkg, i) && cs[i].outer.Rule? && !cs[i].outer.open
  }

  /** On line i the loader asks for a rule of this thread. */
  predicate AsksFor(cs: seq<Line>, pkg: string, thread: string, i: nat)
    requires i < |cs|
  {
    exists r :: r in Asked(StateAt(cs, i), cs[i]) && r.pkg == pkg && r.thread == thread
  }

  /** Line i closes a block of the package. */
  predicate Closes(cs: seq<Line>, pkg: string, i: nat)
    requires i < |cs|
  {
    StateAt(cs, i).inBlock && StateAt(cs, i).cur == pkg && !StateAt(cs, i + 1).inBlock
  }

  /** The first line that names the package, if line i is one. */
  predicate FirstHeaded(cs: seq<Line>, pkg: string, i: nat)
    requires i < |cs|
  {
    Headed(cs, pkg, i) && forall j | 0 <= j < i :: !Headed(cs, pkg, j)
  }

  // ----- and what the scanner records

  lemma HeaderIsHeaded(cs: seq<Line>, pkg: string, i: nat)
    requires S.NoOrphans(cs, |cs|) && i < |cs|
    ensures S.HeaderAt(cs, pkg, i).Some? <==> Headed(cs, pkg, i)
    ensures S.HeaderAt(cs, pkg, i) == Some(S.Standalone(i)) <==> Alone(cs, pkg, i)
    ensures S.HeaderAt(cs, pkg, i) == Some(S.OpenInline(i)) <==> Headed(cs, pkg, i) && cs[i].outer.Rule? && cs[i].outer.open
    ensures S.HeaderAt(cs, pkg, i).Some? && S.HeaderAt(cs, pkg, i).value.Standalone? ==> S.HeaderAt(cs, pkg, i).value.idx == i
    ensures S.HeaderAt(cs, pkg, i).Some? && S.HeaderAt(cs, pkg, i).value.OpenInline? ==> S.HeaderAt(cs, pkg, i).value.idx == i
  {
    assert !S.OrphanOpen(cs, i);
    S.AgreeUpTo(cs, i);
  }

  lemma HeaderIsFirst(cs: seq<Line>, pkg: string)
    requires S.NoOrphans(cs, |cs|)
    ensures var h := S.Scan(cs, pkg).pkgLine;
            && (h.None? <==> forall i | 0 <= i < |cs| :: !Headed(cs, pkg, i))
            && (h.Some? && h.value.Standalone? <==> exists i :: 0 <= i < |cs| && FirstHeaded(cs, pkg, i) && Alone(cs, pkg, i))
            && (h.Some? && (h.value.Standalone? || h.value.OpenInline?) <==>
                  exists i :: 0 <= i < |cs| && FirstHeaded(cs, pkg, i) && cs[i].outer.Rule?)
  {
    hide S.HeaderAt, Headed;
    var v := S.FirstHeader(cs, pkg, |cs|);
    forall i | 0 <= i < |cs| ensures S.HeaderAt(cs, pkg, i).Some? <==> Headed(cs, pkg, i) {
      HeaderIsHeaded(cs, pkg, i);
    }
    if v < |cs| {
      HeaderIsHeaded(cs, pkg, v);
      HeadedText(cs, pkg, v);
      assert FirstHeaded(cs, pkg, v);
      OnlyFirst(cs, pkg, v);
    }
  }

  lemma OnlyFirst(cs: seq<Line>, pkg: string, v: nat)
    requires v < |cs| && FirstHeaded(cs, pkg, v)
    ensures forall i | 0 <= i < |cs| && FirstHeaded(cs, pkg, i) :: i == v
  {
    hide Headed;
  }

  lemma HeadedText(cs: seq<Line>, pkg: string, i: nat)
    requires i < |cs|
    ensures Headed(cs, pkg, i) ==> cs[i].Text? && (cs[i].outer.Rule? || cs[i].outer.BareOpen?)
  {
  }

  lemma CloseIsLast(cs: seq<Line>, pkg: string)
    requires S.NoOrphans(cs, |cs|)
    ensures S.Scan(cs, pkg).blockClose.Some? <==> exists i :: 0 <= i < |cs| && Closes(cs, pkg, i)
  {
    hide S.StateAt, S.OpenTo, S.CloseTo;
    S.FirstBlock(cs, pkg, |cs|);
    forall k | 0 <= k <= |cs|
      ensures S.InTarget(cs, pkg, k) <==> StateAt(cs, k).inBlock && StateAt(cs, k).cur == pkg
      ensures S.StateAt(cs, k).inBlock == StateAt(cs, k).inBlock
    {
      S.AgreeUpTo(cs, k);
    }
    var c := S.Scan(cs, pkg).blockClose;
    if c.Some? {
      assert Closes(cs, pkg, c.value);
    }
    if i :| 0 <= i < |cs| && Closes(cs, pkg, i) {
      assert S.InTarget(cs, pkg, i) && !S.InTarget(cs, pkg, i + 1);
    }
  }

  lemma {:induction false} LocsListed(cs: seq<Line>, pkg: string, thread: string, n: nat)
    requires n <= |cs|
    ensures ThreadLocs(S.HitsTo(cs, pkg, n), thread) == [] <==>
            forall i | 0 <= i < n :: S.HitAt(cs, pkg, i).None? || S.HitAt(cs, pkg, i).value.name != thread
  {
    hide S.HitAt, ThreadLocs;
    if n > 0 {
      LocsListed(cs, pkg, thread, n - 1);
      ThreadLocsNext(cs, pkg, thread, n - 1);
    } else {
      NoHitsYet(cs, pkg, thread);
    }
  }

  lemma NoHitsYet(cs: seq<Line>, pkg: string, thread: string)
    ensures ThreadLocs(S.HitsTo(cs, pkg, 0), thread) == []
  {
  }

  lemma LocsAreAsked(lines: seq<string>, pkg: string, thread: string)
    requires S.NoOrphans(ClassifyAll(lines), |lines|) && thread != ""
    ensures var cs := ClassifyAll(lines);
            ThreadLocs(S.Scan(cs, pkg).hits, thread) == [] <==> forall i | 0 <= i < |cs| :: !AsksFor(cs, pkg, thread, i)
  {
    hide Classify, S.HitAt, S.HitsTo, S.NoOrphans;
    var cs := ClassifyAll(lines);
    LocsListed(cs, pkg, thread, |cs|);
    forall i | 0 <= i < |cs|
      ensures AsksFor(cs, pkg, thread, i) <==> S.HitAt(cs, pkg, i).Some? && S.HitAt(cs, pkg, i).value.name == thread
    {
      assert Named(Classify(lines[i]));
      S.HitsAreLoaderLines(cs, pkg, i);
      OneAsked(StateAt(cs, i), cs[i]);
    }
  }

  lemma OneAsked(s: State, c: Line)
    ensures |Asked(s, c)| <= 1
  {
  }

  lemma SinglesAreSeen(lines: seq<string>, pkg: string)
    requires S.NoOrphans(ClassifyAll(lines), |lines|)
    ensures var cs := ClassifyAll(lines);
            SinglesOf(S.Scan(cs, pkg).hits) == [] <==> forall i | 0 <= i < |cs| :: !SingleAt(cs, pkg, i)
  {
    hide Classify, S.HitAt, S.HitsTo, S.StateAt, SinglesOf;
    var cs := ClassifyAll(lines);
    var locs := SinglesOf(S.Scan(cs, pkg).hits);
    forall i | 0 <= i < |cs| ensures SingleAt(cs, pkg, i) <==> exists l :: l in locs && l.idx == i {
      assert Named(Classify(lines[i]));
      S.AgreeUpTo(cs, i);
      SinglesOutside(cs, pkg, i);
    }
    SinglesHit(cs, pkg, |cs|);
    if locs != [] {
      assert locs[0] in locs && SingleAt(cs, pkg, locs[0].idx);
    }
  }

  // ----- the answers

  /** `rule_upsert` turns an edit down if and only if the normalized file ends inside a block
      and has no place for the rule: for the package's own rule, no line names the package; for
      a thread rule, no line asks for the thread, no block of the package is closed, and the
      first line that names it is not a rule that stands alone. Nothing is written then. */
  lemma UpsertMalformed(lines: seq<string>, pkg: string, thread: string, cpus: string)
    requires S.NoOrphans(ClassifyAll(Normalized(lines, pkg)), |Normalized(lines, pkg)|)
    ensures var e, cs := Upserted(lines, pkg, thread, cpus), ClassifyAll(Normalized(lines, pkg));
            && (e.answer == Malformed <==>
                  && After(START, cs).inBlock
                  && (if thread == "" then forall i | 0 <= i < |cs| :: !Headed(cs, pkg, i)
                      else
                        && (forall i | 0 <= i < |cs| :: !AsksFor(cs, pkg, thread, i) && !Closes(cs, pkg, i))
                        && !exists i :: 0 <= i < |cs| && FirstHeaded(cs, pkg, i) && Alone(cs, pkg, i)))
            && (e.answer == Malformed ==> e.lines == lines)
            && (e.answer != Malformed ==> e.answer == Ok)
  {
    hide Classify, Normalized, S.HeaderTo, S.OpenTo, S.CloseTo, S.HitsTo, S.StateAt, S.NoOrphans, ThreadLocs, Headed, Closes, AsksFor,
         Swapped, Stripped, PutBack;
    var moved := Normalized(lines, pkg);
    var cs := ClassifyAll(moved);
    assert cs[..|cs|] == cs;
    S.AgreeUpTo(cs, |cs|);
    HeaderIsFirst(cs, pkg);
    if thread != "" {
      CloseIsLast(cs, pkg);
      LocsAreAsked(moved, pkg, thread);
    }
  }

  /** `rule_delete` finds nothing if and only if no line of the normalized file asks for the
      thread; for the package's own rule, if the first line that names it holds none. */
  lemma DeleteFinds(lines: seq<string>, pkg: string, thread: string)
    requires S.NoOrphans(ClassifyAll(Normalized(lines, pkg)), |Normalized(lines, pkg)|)
    ensures var e, cs := Deleted(lines, pkg, thread), ClassifyAll(Normalized(lines, pkg));
            && (e.answer == NotFound <==>
                  if thread == "" then !exists i :: 0 <= i < |cs| && FirstHeaded(cs, pkg, i) && cs[i].outer.Rule?
                  else forall i | 0 <= i < |cs| :: !AsksFor(cs, pkg, thread, i))
            && (e.answer == NotFound ==> e.lines == lines)
            && (e.answer != NotFound ==> e.answer == Ok)
  {
    hide Classify, Normalized, S.HeaderTo, S.OpenTo, S.CloseTo, S.HitsTo, S.NoOrphans, ThreadLocs, FirstHeaded, AsksFor, Stripped;
    var moved := Normalized(lines, pkg);
    HeaderIsFirst(ClassifyAll(moved), pkg);
    if thread != "" {
      LocsAreAsked(moved, pkg, thread);
    }
  }

  /** Some line names the package, or holds a single-line rule of it. */
  predicate Known(cs: seq<Line>, pkg: string)
  {
    exists i :: 0 <= i < |cs| && (Headed(cs, pkg, i) || SingleAt(cs, pkg, i))
  }

  lemma AnyIsKnown(lines: seq<string>, pkg: string)
    requires S.NoOrphans(ClassifyAll(lines), |lines|)
    ensures AnyLine(S.Scan(ClassifyAll(lines), pkg)) <==> Known(ClassifyAll(lines), pkg)
  {
    hide Classify, S.HeaderTo, S.OpenTo, S.CloseTo, S.HitsTo, S.NoOrphans, SinglesOf, SingleAt, Headed, FirstHeaded;
    HeaderIsFirst(ClassifyAll(lines), pkg);
    SinglesAreSeen(lines, pkg);
  }

  /** `rule_delete_pkg` finds nothing if and only if the normalized file does not know the
      package. */
  lemma DeletePkgFinds(lines: seq<string>, pkg: string)
    requires S.NoOrphans(ClassifyAll(Normalized(lines, pkg)), |Normalized(lines, pkg)|)
    ensures var e, cs := DeletedPkg(lines, pkg), ClassifyAll(Normalized(lines, pkg));
            && (e.answer == NotFound <==> !Known(cs, pkg)) && (e.answer == NotFound ==> e.lines == lines)
            && (e.answer != NotFound ==> e.answer == Ok)
  {
    hide Classify, Normalized, S.Scan, AnyLine, Known, S.NoOrphans, Purged;
    AnyIsKnown(Normalized(lines, pkg), pkg);
  }

  /** `rule_rename`, where it returns: nothing to rename, if the normalized file does not know
      the old name; a conflict, if it knows both. */
  lemma RenameFinds(lines: seq<string>, was: string, name: string)
    requires RenameEnds(lines, was, name)
    requires S.NoOrphans(ClassifyAll(Normalized(lines, was)), |Normalized(lines, was)|)
    ensures var e, cs := Renamed(lines, was, name), ClassifyAll(Normalized(lines, was));
            && (e.answer == NotFound <==> !Known(cs, was))
            && (e.answer == Conflict <==> Known(cs, was) && Known(cs, name))
            && (e.answer in {NotFound, Conflict} ==> e.lines == lines)
            && (e.answer !in {NotFound, Conflict} ==> e.answer == Ok)
  {
    hide Classify, Normalized, S.Scan, AnyLine, Known, S.NoOrphans, RenamedAll, RenameEnds;
    AnyIsKnown(Normalized(lines, was), was);
    AnyIsKnown(Normalized(lines, was), name);
  }
}
