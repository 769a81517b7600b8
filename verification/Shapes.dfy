/** Every line is white space, a core, and a tail; only the core is read. */
module Shapes {
  import opened Base
  import opened Text
  import opened Lines
  import opened Syntax

  /** No comment starts inside q. */
  predicate NoMark(q: string)
  {
    forall i | 0 <= i < |q| :: !CommentMark(q, i)
  }

  /** Trimmed text that is neither skipped nor cut by a comment. */
  predicate Core(q: string)
  {
    Trimmed(q) && NoMark(q) && !MarkChar(q, 0)
  }

  /** What may follow a core: white space, or white space and a comment. */
  predicate Tail(t: string)
  {
    Blank(t) || (LeadLen(t) >= 1 && MarkChar(t, LeadLen(t)))
  }

  lemma EmptyTail()
    ensures Tail("")
  {
  }

  lemma TailMark(q: string, t: string)
    requires Core(q) && Tail(t) && !Blank(t)
    ensures MarkFrom(q + t, 0) == Some(|q| + LeadLen(t))
    ensures CommentAt(q + t) == Some(|q|)
  {
    var s := q + t;
    var m := |q| + LeadLen(t);
    LeadFacts(t);
    forall i | 0 <= i < m ensures !CommentMark(s, i) {
      NoMarkBefore(q, t, i);
    }
    MarkThere(q, t);
    FirstMark(s, m);
    assert s[..m] == q + t[..LeadLen(t)];
    BodyLenIs(q, t[..LeadLen(t)]);
  }

  lemma FirstMark(s: string, m: nat)
    requires CommentMark(s, m) && forall i | 0 <= i < m :: !CommentMark(s, i)
    ensures MarkFrom(s, 0) == Some(m)
  {
    MarkFacts(s, 0);
  }

  lemma MarkThere(q: string, t: string)
    requires Core(q) && Tail(t) && !Blank(t)
    ensures CommentMark(q + t, |q| + LeadLen(t))
  {
    var s, n := q + t, LeadLen(t);
    LeadFacts(t);
    assert s[|q| + n] == t[n] && s[|q| + n - 1] == t[n - 1];
    assert n + 1 < |t| ==> s[|q| + n + 1] == t[n + 1];
  }

  lemma NoMarkBefore(q: string, t: string, i: nat)
    requires Core(q) && Tail(t) && !Blank(t) && i < |q| + LeadLen(t)
    ensures !CommentMark(q + t, i)
  {
    var s := q + t;
    LeadFacts(t);
    if i < |q| {
      assert !CommentMark(q, i);
      assert i + 1 == |q| ==> s[i + 1] == t[0] && IsWs(t[0]);
    } else {
      assert s[i] == t[i - |q|];
    }
  }

  lemma BlankHasNoMark(q: string, t: string)
    requires Core(q) && Blank(t)
    ensures MarkFrom(q + t, 0).None?
  {
    var s := q + t;
    forall i | 0 <= i < |s| ensures !CommentMark(s, i) {
      if i < |q| {
        assert !CommentMark(q, i);
      } else {
        assert s[i] == t[i - |q|];
      }
    }
    MarkFacts(s, 0);
  }

  /** The same with white space in front. */
  lemma CommentAtShape(lead: string, q: string, t: string)
    requires Blank(lead) && Core(q) && Tail(t)
    ensures CommentAt(lead + q + t) == if Blank(t) then None else Some(|lead| + |q|)
  {
    var s := lead + q + t;
    var n := |lead|;
    assert s[n..] == q + t;
    forall i | 0 <= i < |s| ensures CommentMark(s, i) <==> n < i && CommentMark(q + t, i - n) {
      assert i < n ==> s[i] == lead[i];
      assert i >= n ==> s[i] == (q + t)[i - n];
      assert i + 1 >= n && i + 1 < |s| ==> s[i + 1] == (q + t)[i + 1 - n];
      assert i > n ==> s[i - 1] == (q + t)[i - 1 - n];
    }
    if Blank(t) {
      BlankHasNoMark(q, t);
      MarkShiftNone(s, q + t, n);
    } else {
      TailMark(q, t);
      var m := n + |q| + LeadLen(t);
      MarkShift(s, q + t, n, m - n);
      assert s[..m] == (lead + q) + t[..LeadLen(t)];
      LeadFacts(t);
      BodyLenIs(lead + q, t[..LeadLen(t)]);
    }
  }

  lemma MarkShiftNone(s: string, r: string, n: nat)
    requires forall i | 0 <= i < |s| :: CommentMark(s, i) <==> n < i && CommentMark(r, i - n)
    requires MarkFrom(r, 0).None? && |s| == n + |r|
    ensures MarkFrom(s, 0).None?
  {
    MarkFacts(r, 0);
    MarkFacts(s, 0);
    assert forall i | 0 <= i < |s| :: !CommentMark(s, i);
  }

  lemma MarkShift(s: string, r: string, n: nat, m: nat)
    requires forall i | 0 <= i < |s| :: CommentMark(s, i) <==> n < i && CommentMark(r, i - n)
    requires MarkFrom(r, 0) == Some(m) && |s| == n + |r|
    ensures MarkFrom(s, 0) == Some(n + m)
  {
    MarkFacts(r, 0);
    assert CommentMark(s, n + m);
    FirstMark(s, n + m);
  }

  /** How a line of this shape is read: by its core alone. */
  lemma ReadShape(lead: string, q: string, t: string)
    requires Blank(lead) && Core(q) && Tail(t)
    ensures var raw := lead + q + t;
            && Trim(raw) == q + TrimEnd(t)
            && StripComment(Trim(raw)) == q
            && Classify(raw).Text?
            && Classify(raw).outer == ParseOuterCore(q)
            && (CloseLike(q) ==> Classify(raw).inner == Close)
            && (!CloseLike(q) && SplitRuleCore(q).Some? ==>
                  var e := SplitRuleCore(q).value;
                  Classify(raw).inner == Entry(e.name, e.cpus, e.closed))
            && (Classify(raw).inner.Entry? ==> !CloseLike(q) && SplitRuleCore(q).Some?)
  {
    TrimShape(lead, q, t);
    var t' := TrimEnd(t);
    TailTrimmed(t);
    if Blank(t) {
      assert t' == "" && q + t' == q;
      BlankHasNoMark(q, "");
      assert q + "" == q;
    } else {
      TailMark(q, t');
    }
    var p := q + t';
    assert p[0] == q[0];
    assert t' != "" ==> IsWs(t'[0]);
    assert |p| > 1 ==> (p[1] == if |q| > 1 then q[1] else t'[0]);
    assert |q| > 1 ==> p[1] == q[1];
    assert |p| > 2 && |q| == 2 ==> p[2] == t'[0];
    assert |q| > 2 ==> p[2] == q[2];
    assert CloseLike(p) <==> CloseLike(q);
    assert !MarkChar(p, 0);
  }

  lemma TailTrimmed(t: string)
    requires Tail(t)
    ensures Blank(t) ==> TrimEnd(t) == ""
    ensures !Blank(t) ==> Tail(TrimEnd(t)) && !Blank(TrimEnd(t)) && IsWs(TrimEnd(t)[0])
  {
    LeadFacts(t);
    BodyFacts(t);
    if !Blank(t) {
      var n := LeadLen(t);
      var b := BodyLen(t);
      assert !IsWs(t[n]);
      assert n < b;
      assert t[n] == '/' ==> n + 1 < b;
      var t' := t[..b];
      LeadLenIs(t'[..n], t'[n..]);
      assert t'[..n] + t'[n..] == t';
      assert LeadLen(t') == n;
      assert MarkChar(t', n);
      assert !IsWs(t'[n]);
    }
  }

  lemma TrimShape(lead: string, q: string, t: string)
    requires Blank(lead) && Trimmed(q)
    ensures Trim(lead + q + t) == q + TrimEnd(t)
  {
    assert lead + q + t == lead + (q + t);
    LeadLenIs(lead, q + t);
    BodyFacts(t);
    var t' := TrimEnd(t);
    assert q + t == (q + t') + t[BodyLen(t)..];
    BodyLenIs(q + t', t[BodyLen(t)..]);
  }

  /** Every line that is not skipped has this shape. */
  lemma ShapeOf(raw: string) returns (lead: string, q: string, t: string)
    requires !Skipped(Trim(raw))
    ensures raw == lead + q + t && Blank(lead) && Core(q) && Tail(t)
    ensures q == StripComment(Trim(raw))
  {
    hide Core, Tail, Trim, StripComment, MarkChar;
    var trail;
    lead, trail := TrimSplit(raw);
    q, t := CoreOf(Trim(raw), trail);
    assert lead + Trim(raw) + trail == lead + (Trim(raw) + trail);
    assert lead + q + t == lead + (q + t);
  }

  lemma CoreOf(p: string, trail: string) returns (q: string, t: string)
    requires Trimmed(p) && !MarkChar(p, 0) && Blank(trail)
    ensures p + trail == q + t && Core(q) && Tail(t) && q == StripComment(p)
  {
    MarkFacts(p, 0);
    match MarkFrom(p, 0) {
      case None =>
        q, t := p, trail;
      case Some(m) =>
        var b := BodyLen(p[..m]);
        assert m > 0 && IsWs(p[m - 1]);
        assert b > 0 by { BodyFacts(p[..m]); assert p[..m][0] == p[0]; }
        q, t := p[..b], p[b..] + trail;
        CutAtMark(p, m, b);
        CommentTail(p, m, b, trail);
        assert p[..b] + (p[b..] + trail) == p + trail;
    }
  }

  lemma CommentTail(p: string, m: nat, b: nat, trail: string)
    requires b < m < |p| && b == BodyLen(p[..m]) && MarkChar(p, m) && Blank(trail)
    ensures Tail(p[b..] + trail)
  {
    hide BodyLen, LeadLen;
    var t := p[b..] + trail;
    var g := p[b..m];
    BodyFacts(p[..m]);
    assert forall i | 0 <= i < |g| :: g[i] == p[..m][b + i];
    assert t == g + (p[m..] + trail);
    assert (p[m..] + trail)[0] == p[m];
    LeadLenIs(g, p[m..] + trail);
    assert t[m - b] == p[m] && (m + 1 < |p| ==> t[m - b + 1] == p[m + 1]);
    assert LeadLen(t) == m - b;
  }

  lemma CutAtMark(p: string, m: nat, b: nat)
    requires MarkFrom(p, 0) == Some(m) && b == BodyLen(p[..m]) && 0 < b && Trimmed(p) && !MarkChar(p, 0)
    ensures Core(p[..b]) && b < m
  {
    var q := p[..b];
    BodyFacts(p[..m]);
    MarkFacts(p, 0);
    assert q[|q| - 1] == p[..m][b - 1];
    assert IsWs(p[m - 1]) && p[..m][m - 1] == p[m - 1];
    forall i | 0 <= i < |q| ensures !CommentMark(q, i) {
      assert !CommentMark(p, i);
    }
    assert MarkChar(q, 0) ==> MarkChar(p, 0);
  }
}
