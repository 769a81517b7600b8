/** Thread names as they are read inside a block: each of them can be printed on a line of
    its own. */
module EntryNames {
  import opened Base
  import opened Text
  import opened Lines
  import opened Syntax
  import opened Shapes
  import opened Printing
  import opened Loader
  import opened Edits
  import opened Tracking

  // ----- the name of one line

  /** The key before the last `=` of trimmed text stands at its start. */
  lemma KeyInFront(q: string, y: string, rest: string) returns (n: nat)
    requires Trimmed(q) && q == y + rest && Kv(y).Some?
    ensures n == |Kv(y).value.key| < |y| && q[..n] == Kv(y).value.key && (q[n] == '=' || IsWs(q[n]))
  {
    hide Trim;
    var eq := RFind(y, '=');
    RFindFacts(y, '=');
    var lead, trail := TrimSplit(y[..eq]);
    var name := Trim(y[..eq]);
    n := |name|;
    assert y[..eq] == lead + name + trail;
    assert lead == "" by {
      assert y[..eq][0] == q[0];
    }
    assert y[..eq] == name + trail;
    assert q[..n] == y[..eq][..n] == name;
    assert q[n] == if trail == "" then '=' else trail[0];
  }

  lemma PrefixSafe(q: string, n: nat)
    requires Core(q) && !CloseLike(q) && 0 < n < |q| && (q[n] == '=' || IsWs(q[n])) && Trimmed(q[..n])
    requires forall i | 0 <= i < n :: !Closer(q, i)
    ensures EntrySafe(q[..n])
  {
    var name := q[..n];
    forall i | 0 <= i < n ensures !CommentMark(name, i) {
      assert !CommentMark(q, i);
    }
    assert !CloseLike(name + "=") by {
      assert (name + "=")[0] == q[0] && (name + "=")[n] == '=';
      assert n > 1 ==> (name + "=")[1] == q[1];
      assert n > 2 ==> (name + "=")[2] == q[2];
    }
    forall i | 0 <= i < n ensures !Closer(name, i) {
      assert name[..i] == q[..i] && !Closer(q, i);
    }
    CloserNone(name);
  }

  /** What is read as a thread name inside a block can be printed. */
  lemma EntryNameSafe(raw: string)
    requires Classify(raw).Text? && Classify(raw).inner.Entry?
    ensures EntrySafe(Classify(raw).inner.name)
  {
    hide Core, Tail, CloseLike, EntrySafe, Trimmed, Kv, Trim, StripComment, ParseOuter, ParseOuterCore, Closer;
    NotSkippedText(raw);
    var lead, q, t := ShapeOf(raw);
    ReadShape(lead, q, t);
    CoreTrimmed(q);
    CloserFacts(q, 0);
    CutKv(q);
    var cb := CloserFrom(q, 0);
    var y, rest := if cb.Some? then q[..cb.value] else q, if cb.Some? then q[cb.value..] else "";
    assert q == y + rest;
    var n := KeyInFront(q, y, rest);
    KeyTrimmed(y);
    PrefixSafe(q, n);
  }

  lemma CoreTrimmed(q: string)
    requires Core(q)
    ensures Trimmed(q)
  {
  }

  lemma CutKv(q: string)
    requires SplitRuleCore(q).Some?
    ensures match CloserFrom(q, 0)
            case Some(cb) => cb < |q| && Kv(q[..cb]).Some? && Kv(q[..cb]).value.key == SplitRuleCore(q).value.name
            case None => Kv(q).Some? && Kv(q).value.key == SplitRuleCore(q).value.name
  {
  }

  lemma KeyTrimmed(y: string)
    requires Kv(y).Some?
    ensures Trimmed(Kv(y).value.key)
  {
    hide Trim, Trimmed;
    var lead, trail := TrimSplit(y[..RFind(y, '=')]);
  }

  // ----- the names of a file

  /** Every rule was asked for by some line. */
  lemma {:induction false} RuleLine(ok: Verdict, cs: seq<Line>, n: nat, r: AffinityRule) returns (k: nat)
    requires n <= |cs| && r in Rules(ok, START, cs[..n])
    ensures k < n && r in Asked(StateAt(cs, k), cs[k])
  {
    hide Rules, Asked;
    if n == 0 {
      NoRule(ok);
    } else {
      assert cs[..n] == cs[..n - 1] + [cs[n - 1]];
      Concat(ok, START, cs[..n - 1], [cs[n - 1]]);
      One(ok, StateAt(cs, n - 1), cs[n - 1]);
      if r in Rules(ok, START, cs[..n - 1]) {
        k := RuleLine(ok, cs, n - 1, r);
      } else {
        k := n - 1;
      }
    }
  }

  lemma NoRule(ok: Verdict)
    ensures Rules(ok, START, []) == []
  {
  }

  /** Without single-line rules of a package, its thread rules all have printable names. */
  lemma BlockNamesSafe(ok: Verdict, lines: seq<string>, pkg: string, r: AffinityRule)
    requires Clean(ok, ClassifyAll(lines)) && NoSinglesFrom(ClassifyAll(lines), pkg, 0)
    requires r in Loaded(ok, ClassifyAll(lines)) && r.pkg == pkg && r.thread != ""
    ensures EntrySafe(r.thread)
  {
    hide Classify, Clean, EntrySafe;
    var cs := ClassifyAll(lines);
    assert cs[..|cs|] == cs;
    var k := RuleLine(ok, cs, |cs|, r);
    assert !SingleAt(cs, pkg, k);
    assert cs[k] == Classify(lines[k]);
    EntryNameSafe(lines[k]);
  }
}
