/** Replacing a byte string by another of the same length all over a shared buffer, and
    taking it back. */
module Substitution {

  /** Left to right, matches do not overlap. */
  function Subst(s: seq<bv8>, pat: seq<bv8>, rep: seq<bv8>): (t: seq<bv8>)
    requires |pat| == |rep| > 0
    ensures |t| == |s|
  {
    if |s| < |pat| then s
    else if s[..|pat|] == pat then rep + Subst(s[|pat|..], pat, rep)
    else [s[0]] + Subst(s[1..], pat, rep)
  }

  /** Writes the replacement over the bytes from i on. */
  method CopyAt(buf: array<bv8>, i: nat, rep: seq<bv8>)
    requires i + |rep| <= buf.Length
    modifies buf
    ensures buf[..] == old(buf[..])[..i] + rep + old(buf[..])[i + |rep|..]
  {
    for k := 0 to |rep|
      invariant forall j | 0 <= j < buf.Length :: buf[j] == if i <= j < i + k then rep[j - i] else old(buf[j])
    {
      buf[i + k] := rep[k];
    }
  }

  lemma Hit(front: seq<bv8>, rest: seq<bv8>, pat: seq<bv8>, rep: seq<bv8>)
    requires |pat| == |rep| > 0 && |rest| >= |pat| && rest[..|pat|] == pat
    ensures front + Subst(rest, pat, rep) == (front + rep) + Subst(rest[|pat|..], pat, rep)
  {
  }

  lemma Miss(front: seq<bv8>, rest: seq<bv8>, pat: seq<bv8>, rep: seq<bv8>)
    requires |pat| == |rep| > 0 && |rest| >= |pat| && rest[..|pat|] != pat
    ensures front + Subst(rest, pat, rep) == (front + [rest[0]]) + Subst(rest[1..], pat, rep)
  {
  }

  /** The substitution loop of `prop_file_apply`, in place. */
  method SubstInPlace(buf: array<bv8>, pat: seq<bv8>, rep: seq<bv8>)
    requires |pat| == |rep| > 0
    modifies buf
    ensures buf[..] == Subst(old(buf[..]), pat, rep)
  {
    hide Subst;
    var len, n := buf.Length, |pat|;
    ghost var was := buf[..];
    ghost var front: seq<bv8> := [];
    assert [] + was == was;
    assert [] + Subst(was, pat, rep) == Subst(was, pat, rep);
    ghost var rest := was;
    var i := 0;
    while i + n <= len
      invariant 0 <= i <= len && |front| == i && buf[..] == front + rest
      invariant Subst(was, pat, rep) == front + Subst(rest, pat, rep)
    {
      Window(buf[..], front, rest, n);
      if buf[i..i + n] == pat {
        Hit(front, rest, pat, rep);
        Written(front, rest, rep);
        CopyAt(buf, i, rep);
        front, rest := front + rep, rest[n..];
        i := i + n;
      } else {
        Miss(front, rest, pat, rep);
        Passed(front, rest);
        front, rest := front + [rest[0]], rest[1..];
        i := i + 1;
      }
    }
    ShortRest(rest, pat, rep);
  }

  lemma Window(all: seq<bv8>, front: seq<bv8>, rest: seq<bv8>, n: nat)
    requires all == front + rest && n <= |rest|
    ensures all[|front|..|front| + n] == rest[..n]
  {
  }

  lemma Written(front: seq<bv8>, rest: seq<bv8>, rep: seq<bv8>)
    requires |rep| <= |rest|
    ensures (front + rest)[..|front|] + rep + (front + rest)[|front| + |rep|..] == (front + rep) + rest[|rep|..]
  {
  }

  lemma Passed(front: seq<bv8>, rest: seq<bv8>)
    requires rest != []
    ensures front + rest == (front + [rest[0]]) + rest[1..]
  {
  }

  lemma ShortRest(rest: seq<bv8>, pat: seq<bv8>, rep: seq<bv8>)
    requires |pat| == |rep| > 0 && |rest| < |pat|
    ensures Subst(rest, pat, rep) == rest
  {
  }

  // ----- undo

  /** A byte of the replacement that the text does not have shows up at its own place in the
      replacement, not before. */
  lemma {:induction false} FirstMark(s: seq<bv8>, pat: seq<bv8>, rep: seq<bv8>, j: nat)
    requires |pat| == |rep| && j < |rep| && rep[j] !in s && rep[j] !in rep[..j]
    ensures forall k | 0 <= k < j && k < |s| :: Subst(s, pat, rep)[k] != rep[j]
  {
    var t := Subst(s, pat, rep);
    if |s| >= |pat| {
      if s[..|pat|] == pat {
        forall k | 0 <= k < j ensures t[k] != rep[j] {
          assert t[k] == rep[k] && rep[..j][k] == rep[k];
        }
      } else {
        FirstMark(s[1..], pat, rep, j);
        assert s[0] in s;
        forall k | 0 <= k < j && k < |s| ensures t[k] != rep[j] {
          assert t[k] == if k == 0 then s[0] else Subst(s[1..], pat, rep)[k - 1];
        }
      }
    }
  }

  /** Replacing twice in a row is replacing once, if some byte of the middle text does not
      occur in the buffer. */
  lemma {:induction false} SubstTwice(s: seq<bv8>, pat: seq<bv8>, mid: seq<bv8>, rep: seq<bv8>, j: nat)
    requires |pat| == |mid| == |rep| && j < |mid| && mid[j] !in s && mid[j] !in mid[..j]
    ensures Subst(Subst(s, pat, mid), mid, rep) == Subst(s, pat, rep)
    decreases |s|
  {
    var n, t := |pat|, Subst(s, pat, mid);
    if |s| >= n {
      if s[..n] == pat {
        var z := Subst(s[n..], pat, mid);
        assert t[..n] == mid && t[n..] == z;
        SubstTwice(s[n..], pat, mid, rep, j);
      } else {
        var z := Subst(s[1..], pat, mid);
        assert t[1..] == z;
        FirstMark(s[1..], pat, mid, j);
        assert s[0] in s;
        assert t[j] == if j == 0 then s[0] else z[j - 1];
        assert t[..n][j] != mid[j];
        SubstTwice(s[1..], pat, mid, rep, j);
      }
    }
  }

  lemma {:induction false} SubstSame(s: seq<bv8>, pat: seq<bv8>)
    requires pat != []
    ensures Subst(s, pat, pat) == s
    decreases |s|
  {
    var n := |pat|;
    if |s| >= n {
      if s[..n] == pat {
        SubstSame(s[n..], pat);
        assert s == pat + s[n..];
      } else {
        SubstSame(s[1..], pat);
        assert s == [s[0]] + s[1..];
      }
    }
  }

  /** Substituting back restores the buffer if some byte of the replacement does not occur
      in it. */
  lemma SubstUndo(s: seq<bv8>, pat: seq<bv8>, rep: seq<bv8>, j: nat)
    requires |pat| == |rep| && j < |rep| && rep[j] !in s && rep[j] !in rep[..j]
    ensures Subst(Subst(s, pat, rep), rep, pat) == s
  {
    SubstTwice(s, pat, rep, pat, j);
    SubstSame(s, pat);
  }

  /** The same for whichever byte is new: the first place it has in the replacement counts. */
  lemma SubstRestores(s: seq<bv8>, pat: seq<bv8>, rep: seq<bv8>)
    requires |pat| == |rep| > 0 && exists b :: b in rep && b !in s
    ensures Subst(Subst(s, pat, rep), rep, pat) == s
  {
    var b :| b in rep && b !in s;
    var j := FirstPlace(rep, b);
    SubstUndo(s, pat, rep, j);
  }

  lemma {:induction false} FirstPlace(rep: seq<bv8>, b: bv8) returns (j: nat)
    requires b in rep
    ensures j < |rep| && rep[j] == b && b !in rep[..j]
  {
    if rep[0] == b {
      j := 0;
    } else {
      var i := FirstPlace(rep[1..], b);
      j := i + 1;
      assert rep[..j] == [rep[0]] + rep[1..][..i];
    }
  }

  /** A byte changes only inside a match. */
  lemma Behind(s: seq<bv8>, n: nat, q: nat, m: nat)
    requires n + q + m <= |s|
    ensures s[n..][q..q + m] == s[n + q..n + q + m]
  {
  }

  lemma {:induction false} OnlyMatchesChange(s: seq<bv8>, pat: seq<bv8>, rep: seq<bv8>, k: nat) returns (p: nat)
    requires |pat| == |rep| > 0 && k < |s| && Subst(s, pat, rep)[k] != s[k]
    ensures p <= k < p + |pat| <= |s| && s[p..p + |pat|] == pat
    decreases |s|
  {
    var n, t := |pat|, Subst(s, pat, rep);
    if s[..n] == pat {
      if k < n {
        p := 0;
      } else {
        assert t[k] == Subst(s[n..], pat, rep)[k - n] && s[k] == s[n..][k - n];
        var q := OnlyMatchesChange(s[n..], pat, rep, k - n);
        p := q + n;
        Behind(s, n, q, n);
      }
    } else {
      assert t == [s[0]] + Subst(s[1..], pat, rep);
      var q := OnlyMatchesChange(s[1..], pat, rep, k - 1);
      p := q + 1;
      Behind(s, 1, q, n);
    }
  }

  // ----- where nothing matches

  predicate Occurs(s: seq<bv8>, pat: seq<bv8>)
  {
    exists p :: 0 <= p <= |s| && HeadIs(s[p..], pat)
  }

  predicate HeadIs(s: seq<bv8>, pat: seq<bv8>)
  {
    |pat| <= |s| && s[..|pat|] == pat
  }

  /** Bytes at which no match begins are passed over. */
  lemma {:induction false} PassOver(y: seq<bv8>, rest: seq<bv8>, pat: seq<bv8>, rep: seq<bv8>)
    requires |pat| == |rep| > 0 && forall k | 0 <= k < |y| :: !HeadIs((y + rest)[k..], pat)
    ensures Subst(y + rest, pat, rep) == y + Subst(rest, pat, rep)
    decreases |y|
  {
    var s := y + rest;
    if y == [] {
      assert s == rest;
    } else {
      assert s[0..] == s && !HeadIs(s[0..], pat);
      assert s[1..] == y[1..] + rest;
      forall k | 0 <= k < |y[1..]| ensures !HeadIs((y[1..] + rest)[k..], pat) {
        assert s[k + 1..] == s[1..][k..];
      }
      PassOver(y[1..], rest, pat, rep);
      assert y == [y[0]] + y[1..];
    }
  }

  /** The first occurrence is replaced, and the work goes on behind it; without one nothing
      changes. */
  lemma FirstReplaced(s: seq<bv8>, k: nat, pat: seq<bv8>, rep: seq<bv8>)
    requires |pat| == |rep| > 0 && k <= |s| && forall p | 0 <= p < k :: !HeadIs(s[p..], pat)
    ensures k + |pat| <= |s| && s[k..][..|pat|] == pat ==> Subst(s, pat, rep) == s[..k] + (rep + Subst(s[k..][|pat|..], pat, rep))
    ensures k == |s| ==> Subst(s, pat, rep) == s
  {
    var y, rest := s[..k], s[k..];
    assert y + rest == s;
    PassOver(y, rest, pat, rep);
    if k == |s| {
      assert rest == [] && s[..k] == s;
    }
  }

  /** Nothing changes exactly when the pattern does not occur. */
  lemma {:induction false} ChangesIf(s: seq<bv8>, pat: seq<bv8>, rep: seq<bv8>)
    requires |pat| == |rep| > 0 && pat != rep
    ensures Subst(s, pat, rep) == s <==> !Occurs(s, pat)
    decreases |s|
  {
    var n := |pat|;
    if |s| >= n {
      if s[..n] == pat {
        assert s[0..] == s && HeadIs(s[0..], pat);
        assert Subst(s, pat, rep)[..n] == rep;
      } else {
        ChangesIf(s[1..], pat, rep);
        TailOccurs(s, pat);
        assert s == [s[0]] + s[1..];
        assert Subst(s, pat, rep)[1..] == Subst(s[1..], pat, rep);
      }
    }
  }

  lemma TailOccurs(s: seq<bv8>, pat: seq<bv8>)
    requires s != [] && pat != [] && !HeadIs(s, pat)
    ensures Occurs(s, pat) <==> Occurs(s[1..], pat)
  {
    hide HeadIs;
    assert s[0..] == s;
    if Occurs(s, pat) {
      var p :| 0 <= p <= |s| && HeadIs(s[p..], pat);
      assert s[1..][p - 1..] == s[p..];
    }
    if Occurs(s[1..], pat) {
      var p :| 0 <= p <= |s[1..]| && HeadIs(s[1..][p..], pat);
      assert s[1..][p..] == s[p + 1..];
    }
  }
}
