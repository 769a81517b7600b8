/** The rule editor: a file of lines, and the edits that change it in place. Every
    method is tied to its function in RuleEdits; what those functions do to the rules
    the loader reads is proved in Upserting, Deleting, DeletingPkg and RenamingPkg. */
module RuleFiles {
  import opened Base
  import opened Text
  import opened Lines
  import opened Syntax
  import opened Printing
  import opened Swapping
  import opened Loader
  import opened Edits
  import opened Relabelling
  import opened Taking
  import opened Stripping
  import opened Purging
  import opened Renaming
  import opened Normalizing
  import opened SinglesMoved
  import opened RuleEdits
  import opened RenameRounds
  import opened BrokenOpens
  import opened DeletingPkg
  import opened TargetScanner
  import S = Scanner

  // ----- places stay in range while later lines are removed

  predicate InLineOrder(locs: seq<S.ThreadLoc>, n: nat)
  {
    && (forall k | 0 <= k < |locs| :: locs[k].idx < n)
    && (forall k | 0 < k < |locs| :: locs[k - 1].idx < locs[k].idx)
  }

  lemma {:induction false} SinglesInOrder(cs: seq<Line>, pkg: string, n: nat)
    requires n <= |cs|
    ensures InLineOrder(SingleLocs(cs, pkg, n), n)
  {
    hide S.HitAt, SingleLocs;
    if n > 0 {
      SinglesInOrder(cs, pkg, n - 1);
      SingleLocsNext(cs, pkg, n - 1);
      S.HitIndex(cs, pkg, n - 1);
    } else {
      NoSingleLocs(cs, pkg);
    }
  }

  lemma NoSingleLocs(cs: seq<Line>, pkg: string)
    ensures SingleLocs(cs, pkg, 0) == []
  {
  }

  lemma {:induction false} RoomLeft(lines: seq<string>, pkg: string, locs: seq<S.ThreadLoc>, k: nat)
    requires InLineOrder(locs, |lines|) && k <= |locs|
    ensures |Stripped(lines, pkg, locs, k)| >= Bound(locs, k, |lines|)
    ensures 0 < k ==> locs[k - 1].idx < |Stripped(lines, pkg, locs, k)|
    decreases |locs| - k
  {
    hide RemovalLines;
    if k < |locs| {
      RoomLeft(lines, pkg, locs, k + 1);
    }
  }

  class RuleFile {
    /** The lines of the configuration file. */
    var disk: seq<string>
    /** The editor's working copy. */
    var lines: seq<string>

    constructor (content: seq<string>)
      ensures disk == content
    {
      disk, lines := content, content;
    }

    method LineRemove(pkg: string, loc: S.ThreadLoc)
      requires loc.idx < |lines|
      modifies this`lines
      ensures lines == LineRemoved(old(lines), pkg, loc)
    {
      if loc.open {
        lines := lines[loc.idx := WithComment(BareOpenLine(pkg), lines[loc.idx])];
      } else if loc.closed {
        lines := lines[loc.idx := WithComment("}", lines[loc.idx])];
      } else {
        lines := lines[..loc.idx] + lines[loc.idx + 1..];
      }
    }

    /** Takes the recorded lines out, last one first. */
    method LinesRemove(pkg: string, locs: seq<S.ThreadLoc>)
      requires InLineOrder(locs, |lines|)
      modifies this`lines
      ensures lines == Stripped(old(lines), pkg, locs, 0)
    {
      var k := |locs|;
      while k > 0
        invariant 0 <= k <= |locs| && lines == Stripped(old(lines), pkg, locs, k)
      {
        RoomLeft(old(lines), pkg, locs, k);
        k := k - 1;
        LineRemove(pkg, locs[k]);
      }
    }

    /** The single-line rules of a package and the lines that will stand for them. The
        table holds them in line order already. */
    method SinglesOfTable(t: S.Target) returns (locs: seq<S.ThreadLoc>, texts: seq<string>)
      requires forall k | 0 <= k < |t.hits| :: t.hits[k].loc.idx < |lines|
      ensures locs == SinglesOf(t.hits) && texts == SingleTexts(lines, locs)
    {
      hide SingleText, Classify;
      locs, texts := [], [];
      for k := 0 to |t.hits|
        invariant locs == SinglesOf(t.hits[..k]) && texts == SingleTexts(lines, locs)
      {
        assert t.hits[..k + 1][..k] == t.hits[..k];
        var loc := t.hits[k].loc;
        if loc.single {
          locs := locs + [loc];
          texts := texts + [SingleText(lines[loc.idx])];
        }
      }
      assert t.hits[..|t.hits|] == t.hits;
    }

    /** Puts printed thread lines where the package's rules belong. */
    method PutLines(pkg: string, at: nat, texts: seq<string>)
      modifies this`lines
      ensures lines == PutBack(old(lines), pkg, at, texts)
    {
      hide Classify, OpenedText, S.HeaderTo, S.CloseTo, S.OpenTo, S.HitsTo;
      var t := TargetScan(ClassifyAll(lines), pkg);
      if t.blockClose.Some? {
        LinesInsert(t.blockClose.value, texts);
      } else if t.pkgLine.Some? && t.pkgLine.value.Standalone? {
        var i := t.pkgLine.value.idx;
        lines := lines[i := OpenedText(lines[i])];
        lines := lines[..i + 1] + (texts + ["}"]) + lines[i + 1..];
        assert lines == old(lines)[..i] + BlockLines(OpenedText(old(lines)[i]), texts) + old(lines)[i + 1..];
      } else {
        var i := if at < |lines| then at else |lines|;
        lines := lines[..i] + ([BareOpenLine(pkg)] + texts + ["}"]) + lines[i..];
      }
    }

    /** One line after the other at a fixed place. */
    method LinesInsert(close: nat, texts: seq<string>)
      requires close <= |lines|
      modifies this`lines
      ensures lines == old(lines)[..close] + texts + old(lines)[close..]
    {
      for off := 0 to |texts|
        invariant lines == old(lines)[..close] + texts[..off] + old(lines)[close..]
      {
        lines := lines[..close + off] + [texts[off]] + lines[close + off..];
      }
      assert texts[..|texts|] == texts;
    }

    method NormalizeSingles(pkg: string)
      modifies this`lines
      ensures lines == Normalized(old(lines), pkg)
    {
      hide Classify, PutBack, Stripped, SingleTexts, S.HeaderTo, S.CloseTo, S.OpenTo, S.HitsTo;
      var t := TargetScan(ClassifyAll(lines), pkg);
      S.HitsInOrder(ClassifyAll(lines), pkg, |lines|);
      SinglesInOrder(ClassifyAll(lines), pkg, |lines|);
      var locs, texts := SinglesOfTable(t);
      if locs == [] {
        return;
      }
      var opens := false;
      for k := 0 to |locs|
        invariant opens <==> exists l :: l in locs[..k] && l.open
      {
        opens := opens || locs[k].open;
        assert locs[..k + 1] == locs[..k] + [locs[k]];
      }
      assert locs[..|locs|] == locs;
      if t.blockClose.None? && (opens || (t.pkgLine.Some? && !t.pkgLine.value.Standalone?)) {
        return;
      }
      LinesRemove(pkg, locs);
      PutLines(pkg, locs[0].idx, texts);
    }

    // ----- the public edits

    method RuleUpsert(pkg: string, thread: string, cpus: string) returns (r: RuleEdit)
      modifies this
      ensures Edited(r, disk) == Upserted(old(disk), pkg, thread, cpus)
    {
      hide Classify, Normalized, SpecSwap, WithComment, S.HitsTo, S.HeaderTo, S.CloseTo, S.OpenTo, ThreadLocs, PutBack,
           HeaderText, UpsertedThread;
      lines := disk;
      NormalizeSingles(pkg);
      var t := TargetScan(ClassifyAll(lines), pkg);
      if thread == "" {
        match t.pkgLine {
          case Some(Standalone(i)) =>
            lines := lines[i := SpecSwap(lines[i], cpus)];
          case Some(BarePending(i)) =>
            lines := lines[i := WithComment(HeaderText(pkg, cpus, true), lines[i])];
            if t.blockOpen.Some? && ParseOuter(Trim(lines[t.blockOpen.value])) == BareOpen("") {
              lines := lines[..t.blockOpen.value] + lines[t.blockOpen.value + 1..];
            }
          case Some(OpenInline(i)) =>
            lines := lines[i := SpecSwap(lines[i], cpus)];
          case Some(OpenBare(i)) =>
            lines := lines[i := WithComment(HeaderText(pkg, cpus, true), lines[i])];
          case None =>
            if t.unterminated {
              return Malformed;
            }
            lines := lines + [HeaderText(pkg, cpus, false)];
        }
      } else {
        var done := UpsertThread(t, pkg, thread, cpus);
        if !done {
          return Malformed;
        }
      }
      disk := lines;
      return Ok;
    }

    method UpsertThread(t: S.Target, pkg: string, thread: string, cpus: string) returns (done: bool)
      requires t == S.Scan(ClassifyAll(lines), pkg) && thread != ""
      modifies this`lines
      ensures done == UpsertedThread(old(lines), pkg, thread, cpus).Some?
      ensures lines == if done then UpsertedThread(old(lines), pkg, thread, cpus).value else old(lines)
    {
      hide Classify, SpecSwap, S.HitsTo, S.HeaderTo, S.CloseTo, S.OpenTo, ThreadLocs, PutBack;
      var locs := ThreadLocs(t.hits, thread);
      HitsOf(ClassifyAll(lines), pkg, thread, |lines|);
      if locs != [] {
        var last := locs[|locs| - 1];
        lines := lines[last.idx := SpecSwap(lines[last.idx], cpus)];
        LinesRemove(pkg, locs[..|locs| - 1]);
      } else if t.blockClose.Some? {
        PutLines(pkg, |lines|, [EntryText(thread, cpus)]);
      } else if t.pkgLine.Some? && t.pkgLine.value.Standalone? {
        PutLines(pkg, |lines|, [EntryText(thread, cpus)]);
      } else if t.unterminated {
        return false;
      } else {
        PutLines(pkg, |lines|, [EntryText(thread, cpus)]);
      }
      return true;
    }

    method RuleDelete(pkg: string, thread: string) returns (r: RuleEdit)
      modifies this
      ensures Edited(r, disk) == Deleted(old(disk), pkg, thread)
    {
      hide Classify, Normalized, S.HitsTo, S.HeaderTo, S.CloseTo, S.OpenTo, ThreadLocs;
      lines := disk;
      NormalizeSingles(pkg);
      var t := TargetScan(ClassifyAll(lines), pkg);
      if thread == "" {
        match t.pkgLine {
          case Some(Standalone(i)) =>
            lines := lines[..i] + lines[i + 1..];
          case Some(OpenInline(i)) =>
            lines := lines[i := BareOpenLine(pkg)];
          case _ =>
            return NotFound;
        }
      } else {
        var locs := ThreadLocs(t.hits, thread);
        HitsOf(ClassifyAll(lines), pkg, thread, |lines|);
        if locs == [] {
          return NotFound;
        }
        LinesRemove(pkg, locs);
      }
      disk := lines;
      return Ok;
    }

    // ----- a whole package

    /** Removes the doomed lines, last one first, each once. */
    method DoomedRemove(t: S.Target)
      modifies this`lines
      ensures lines == Dropped(old(lines), t, |old(lines)|)
    {
      hide Doomed;
      var i := |lines|;
      ghost var was := lines;
      while i > 0
        invariant 0 <= i <= |was| && i <= |lines| && lines[..i] == was[..i]
        invariant Dropped(was, t, i) + lines[i..] == Dropped(was, t, |was|)
      {
        i := i - 1;
        if Doomed(t, i) {
          lines := lines[..i] + lines[i + 1..];
        } else {
          assert lines[i..] == [was[i]] + lines[i + 1..];
        }
      }
    }

    method RuleDeletePkg(pkg: string) returns (r: RuleEdit)
      modifies this
      ensures Edited(r, disk) == DeletedPkg(old(disk), pkg)
    {
      hide Classify, Normalized, S.HitsTo, S.HeaderTo, S.CloseTo, S.OpenTo, Doomed, SinglesOf;
      lines := disk;
      NormalizeSingles(pkg);
      ghost var moved := lines;
      var removed := false;
      while true
        invariant Purged(lines, pkg) == Purged(moved, pkg) && disk == old(disk)
        invariant if removed then AnyLine(S.Scan(ClassifyAll(moved), pkg)) else lines == moved
        decreases |lines|
      {
        var t := TargetScan(ClassifyAll(lines), pkg);
        if t.pkgLine.None? && SinglesOf(t.hits) == [] {
          break;
        }
        RoundShrinks(lines, pkg);
        DoomedRemove(t);
        removed := true;
      }
      if !removed {
        return NotFound;
      }
      disk := lines;
      return Ok;
    }

    /** One round of the renaming loop: the single lines, then the header line. */
    method LinesRename(t: S.Target, was: string, name: string)
      requires t == S.Scan(ClassifyAll(lines), was)
      modifies this`lines
      ensures lines == RenameRound(old(lines), was, name)
    {
      hide Classify, RenamedLine, S.HeaderTo, S.CloseTo, S.OpenTo, S.HitsTo, SinglesOf;
      var locs := SinglesOf(t.hits);
      SinglesInOrder(ClassifyAll(lines), was, |lines|);
      var idxs: seq<nat> := seq(|locs|, k requires 0 <= k < |locs| => locs[k].idx);
      if t.pkgLine.Some? {
        HeaderApart(ClassifyAll(lines), was);
        idxs := idxs + [t.pkgLine.value.idx];
      }
      MarkedAre(t, locs, idxs);
      assert RoundIndices(locs, idxs);
      ghost var before := lines;
      for k := 0 to |idxs|
        invariant |lines| == |before|
        invariant forall i | 0 <= i < |lines| ::
                    lines[i] == if i in idxs[..k] then RenamedLine(before[i], was, name) else before[i]
      {
        var i := idxs[k];
        Once(locs, idxs, k);
        lines := lines[i := RenamedLine(lines[i], was, name)];
        assert idxs[..k + 1] == idxs[..k] + [i];
      }
      assert idxs[..|idxs|] == idxs;
    }

    /** The rounds do not always end: exactly when they do, the edit returns. */
    method RuleRename(was: string, name: string) returns (r: RuleEdit)
      requires RenameEnds(disk, was, name)
      modifies this
      ensures Edited(r, disk) == Renamed(old(disk), was, name)
    {
      hide Classify, Normalized, S.HitsTo, S.HeaderTo, S.CloseTo, S.OpenTo, SinglesOf, RenameRound, WeightOf;
      lines := disk;
      NormalizeSingles(was);
      var t := TargetScan(ClassifyAll(lines), was);
      if t.pkgLine.None? && SinglesOf(t.hits) == [] {
        return NotFound;
      }
      t := TargetScan(ClassifyAll(lines), name);
      if t.pkgLine.Some? || SinglesOf(t.hits) != [] {
        return Conflict;
      }
      ghost var moved := lines;
      ghost var k: nat := 0;
      while true
        invariant k <= WeightOf(moved, was, name) && disk == old(disk)
        invariant Rounds(lines, was, name, WeightOf(moved, was, name) - k) == RenamedAll(moved, was, name)
        decreases WeightOf(moved, was, name) - k
      {
        t := TargetScan(ClassifyAll(lines), was);
        if t.pkgLine.None? && SinglesOf(t.hits) == [] {
          StopStays(lines, was, name, WeightOf(moved, was, name) - k);
          break;
        }
        LinesRename(t, was, name);
        k := k + 1;
      }
      disk := lines;
      return Ok;
    }
  }

  /** The indices of one renaming round: in line order, then the header. */
  predicate RoundIndices(locs: seq<S.ThreadLoc>, idxs: seq<nat>)
  {
    && |locs| <= |idxs| <= |locs| + 1
    && (forall k | 0 <= k < |locs| :: idxs[k] == locs[k].idx)
    && (|idxs| > |locs| ==> forall k | 0 <= k < |locs| :: idxs[|locs|] != locs[k].idx)
    && (forall k | 0 < k < |locs| :: locs[k - 1].idx < locs[k].idx)
  }

  lemma Once(locs: seq<S.ThreadLoc>, idxs: seq<nat>, k: nat)
    requires RoundIndices(locs, idxs) && k < |idxs|
    ensures idxs[k] !in idxs[..k]
  {
    forall j | 0 <= j < k ensures idxs[j] != idxs[k] {
      if k < |locs| {
        Increasing(locs, j, k);
      }
    }
  }

  lemma {:induction false} Increasing(locs: seq<S.ThreadLoc>, j: nat, k: nat)
    requires j < k < |locs| && forall i | 0 < i < |locs| :: locs[i - 1].idx < locs[i].idx
    ensures locs[j].idx < locs[k].idx
  {
    assert locs[k - 1].idx < locs[k].idx;
    if j < k - 1 {
      Increasing(locs, j, k - 1);
    }
  }

  lemma MarkedAre(t: S.Target, locs: seq<S.ThreadLoc>, idxs: seq<nat>)
    requires locs == SinglesOf(t.hits) && |idxs| == |locs| + if t.pkgLine.Some? then 1 else 0
    requires forall k | 0 <= k < |locs| :: idxs[k] == locs[k].idx
    requires t.pkgLine.Some? ==> idxs[|locs|] == t.pkgLine.value.idx
    ensures forall i: nat :: Marked(t, i) <==> i in idxs
  {
    hide SinglesOf;
    forall i: nat ensures Marked(t, i) <==> i in idxs {
      if Marked(t, i) && !(t.pkgLine.Some? && i == t.pkgLine.value.idx) {
        var l :| l in SinglesOf(t.hits) && l.idx == i;
        var k :| 0 <= k < |locs| && locs[k] == l;
        assert idxs[k] == i;
      }
      if i in idxs {
        var k :| 0 <= k < |idxs| && idxs[k] == i;
        if k < |locs| {
          assert locs[k] in SinglesOf(t.hits);
        }
      }
    }
  }

  /** The header line is none of the single lines. */
  lemma HeaderApart(cs: seq<Line>, pkg: string)
    requires S.Scan(cs, pkg).pkgLine.Some?
    ensures forall l | l in SinglesOf(S.Scan(cs, pkg).hits) :: l.idx != S.Scan(cs, pkg).pkgLine.value.idx
  {
    hide SinglesOf, S.HitsTo, S.OpenTo, S.CloseTo;
    var v := S.FirstHeader(cs, pkg, |cs|);
    S.PendingRun(cs, v);
    SinglesAreSingle(cs, pkg, |cs|);
  }

  lemma {:induction false} SinglesAreSingle(cs: seq<Line>, pkg: string, n: nat)
    requires n <= |cs|
    ensures forall l | l in SinglesOf(S.HitsTo(cs, pkg, n)) :: l.idx < |cs| && cs[l.idx].Text? && cs[l.idx].outer.Single?
  {
    hide S.HitsTo, SinglesOf, S.HitAt;
    if n > 0 {
      SinglesAreSingle(cs, pkg, n - 1);
      SingleLocsNext(cs, pkg, n - 1);
      SingleLine(cs, pkg, n - 1);
    } else {
      NoSinglesYet(cs, pkg);
    }
  }

  lemma SingleLine(cs: seq<Line>, pkg: string, i: nat)
    requires i < |cs|
    ensures var h := S.HitAt(cs, pkg, i);
            h.Some? && h.value.loc.single ==> h.value.loc.idx == i && cs[i].Text? && cs[i].outer.Single?
  {
  }

  lemma NoSinglesYet(cs: seq<Line>, pkg: string)
    ensures SinglesOf(S.HitsTo(cs, pkg, 0)) == []
  {
  }

  /** Each round removes at least one line. */
  lemma RoundShrinks(lines: seq<string>, pkg: string)
    requires AnyLine(S.Scan(ClassifyAll(lines), pkg))
    ensures |RoundOf(lines, pkg)| < |lines|
  {
    hide Classify, S.HitsTo, S.HeaderTo, S.CloseTo, S.OpenTo, SinglesOf, BlockEnd;
    var t := S.Scan(ClassifyAll(lines), pkg);
    SinglesInOrder(ClassifyAll(lines), pkg, |lines|);
    var i := if t.pkgLine.Some? then t.pkgLine.value.idx else SinglesOf(t.hits)[0].idx;
    DroppedLess(lines, t, i, |lines|);
  }

  lemma {:induction false} DroppedLess(lines: seq<string>, t: S.Target, i: nat, n: nat)
    requires i < n <= |lines| && Doomed(t, i)
    ensures |Dropped(lines, t, n)| < n
  {
    if n == i + 1 {
      DroppedAtMost(lines, t, i);
    } else {
      DroppedLess(lines, t, i, n - 1);
    }
  }

  lemma {:induction false} DroppedAtMost(lines: seq<string>, t: S.Target, n: nat)
    requires n <= |lines|
    ensures |Dropped(lines, t, n)| <= n
  {
    if n > 0 {
      DroppedAtMost(lines, t, n - 1);
    }
  }
}
