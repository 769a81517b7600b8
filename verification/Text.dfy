/** String primitives of the parser: trimming and searching on ASCII text. */
module Text {
  import opened Base

  /** `char::is_whitespace` on ASCII. */
  predicate IsWs(c: char)
  {
    c == ' ' || '\t' <= c <= '\r'
  }

  predicate Blank(s: string)
  {
    forall i | 0 <= i < |s| :: IsWs(s[i])
  }

  /** Nonempty, with no white space at either end. */
  predicate Trimmed(s: string)
  {
    s != "" && !IsWs(s[0]) && !IsWs(s[|s| - 1])
  }

  /** The number of leading white-space characters. */
  function LeadLen(s: string): (n: nat)
    ensures n <= |s|
  {
    LeadFrom(s, 0)
  }

  function LeadFrom(s: string, i: nat): (n: nat)
    requires i <= |s|
    ensures i <= n <= |s|
    decreases |s| - i
  {
    if i == |s| || !IsWs(s[i]) then i else LeadFrom(s, i + 1)
  }

  lemma {:induction false} LeadFromFacts(s: string, i: nat)
    requires i <= |s|
    ensures var n := LeadFrom(s, i); (forall k | i <= k < n :: IsWs(s[k])) && (n < |s| ==> !IsWs(s[n]))
    decreases |s| - i
  {
    if i < |s| && IsWs(s[i]) {
      LeadFromFacts(s, i + 1);
    }
  }

  lemma LeadFacts(s: string)
    ensures var n := LeadLen(s); (forall k | 0 <= k < n :: IsWs(s[k])) && (n < |s| ==> !IsWs(s[n]))
  {
    LeadFromFacts(s, 0);
  }

  /** The length that remains after trimming the end. */
  function BodyLen(s: string): (n: nat)
    ensures n <= |s|
  {
    BodyTo(s, |s|)
  }

  function BodyTo(s: string, i: nat): (n: nat)
    requires i <= |s|
    ensures n <= i
  {
    if i == 0 || !IsWs(s[i - 1]) then i else BodyTo(s, i - 1)
  }

  lemma {:induction false} BodyToFacts(s: string, i: nat)
    requires i <= |s|
    ensures var n := BodyTo(s, i); (forall k | n <= k < i :: IsWs(s[k])) && (n > 0 ==> !IsWs(s[n - 1]))
  {
    if i > 0 && IsWs(s[i - 1]) {
      BodyToFacts(s, i - 1);
    }
  }

  lemma BodyFacts(s: string)
    ensures var n := BodyLen(s); (forall k | n <= k < |s| :: IsWs(s[k])) && (n > 0 ==> !IsWs(s[n - 1]))
  {
    BodyToFacts(s, |s|);
  }

  function TrimStart(s: string): string
  {
    s[LeadLen(s)..]
  }

  function TrimEnd(s: string): string
  {
    s[..BodyLen(s)]
  }

  function Trim(s: string): string
  {
    TrimEnd(TrimStart(s))
  }

  lemma LeadLenIs(lead: string, x: string)
    requires Blank(lead) && (x == "" || !IsWs(x[0]))
    ensures LeadLen(lead + x) == |lead|
    ensures TrimStart(lead + x) == x
  {
    var s := lead + x;
    LeadFacts(s);
    assert x != "" ==> s[|lead|] == x[0];
    assert forall i | 0 <= i < |lead| :: s[i] == lead[i];
  }

  lemma BodyLenIs(x: string, trail: string)
    requires Blank(trail) && (x == "" || !IsWs(x[|x| - 1]))
    ensures BodyLen(x + trail) == |x|
    ensures TrimEnd(x + trail) == x
  {
    var s := x + trail;
    BodyFacts(s);
    assert x != "" ==> s[|x| - 1] == x[|x| - 1];
    assert forall i | |x| <= i < |s| :: s[i] == trail[i - |x|];
  }

  lemma TrimIs(lead: string, x: string, trail: string)
    requires Blank(lead) && Blank(trail) && Trimmed(x)
    ensures Trim(lead + x + trail) == x
  {
    assert lead + x + trail == lead + (x + trail);
    LeadLenIs(lead, x + trail);
    BodyLenIs(x, trail);
  }

  lemma TrimBlank(s: string)
    requires Blank(s)
    ensures Trim(s) == ""
  {
    LeadLenIs(s, "");
    assert s + "" == s;
  }

  /** Every string is white space, a trimmed middle, white space. */
  lemma TrimSplit(s: string) returns (lead: string, trail: string)
    ensures s == lead + Trim(s) + trail && Blank(lead) && Blank(trail)
    ensures Trim(s) == "" || Trimmed(Trim(s))
    ensures Trim(s) == "" <==> Blank(s)
    ensures lead == s[..LeadLen(s)]
  {
    lead := s[..LeadLen(s)];
    var t := TrimStart(s);
    LeadFacts(s);
    BodyFacts(t);
    trail := t[BodyLen(t)..];
    if Trim(s) == "" {
      assert s == lead + trail;
    } else {
      assert t[0] == s[LeadLen(s)];
      assert Trim(s)[0] == t[0];
      assert s[LeadLen(s)] == t[0];
    }
  }

  lemma TrimTrimmed(x: string)
    requires Trimmed(x)
    ensures Trim(x) == x
  {
    assert "" + x + "" == x;
    TrimIs("", x, "");
  }

  /** The last position of c, or -1. */
  function RFind(s: string, c: char): (r: int)
    ensures -1 <= r < |s|
  {
    RFindTo(s, c, |s|)
  }

  function RFindTo(s: string, c: char, n: nat): (r: int)
    requires n <= |s|
    ensures -1 <= r < n
  {
    if n == 0 then -1 else if s[n - 1] == c then n - 1 else RFindTo(s, c, n - 1)
  }

  lemma {:induction false} RFindToFacts(s: string, c: char, n: nat)
    requires n <= |s|
    ensures var r := RFindTo(s, c, n); (0 <= r ==> s[r] == c) && forall i | r < i < n :: s[i] != c
  {
    if n > 0 && s[n - 1] != c {
      RFindToFacts(s, c, n - 1);
    }
  }

  lemma RFindFacts(s: string, c: char)
    ensures var r := RFind(s, c); (0 <= r ==> s[r] == c) && forall i | r < i < |s| :: s[i] != c
    ensures RFind(s, c) >= 0 <==> c in s
  {
    RFindToFacts(s, c, |s|);
  }

  /** The first position of c, or -1. */
  function Find(s: string, c: char): (r: int)
    ensures -1 <= r < |s|
  {
    FindFrom(s, c, 0)
  }

  function FindFrom(s: string, c: char, from: nat): (r: int)
    requires from <= |s|
    ensures r == -1 || from <= r < |s|
    decreases |s| - from
  {
    if from == |s| then -1
    else if s[from] == c then from
    else FindFrom(s, c, from + 1)
  }

  lemma {:induction false} FindFromFacts(s: string, c: char, from: nat)
    requires from <= |s|
    ensures var r := FindFrom(s, c, from);
            if r < 0 then forall i | from <= i < |s| :: s[i] != c
            else s[r] == c && forall i | from <= i < r :: s[i] != c
    decreases |s| - from
  {
    if from < |s| && s[from] != c {
      FindFromFacts(s, c, from + 1);
    }
  }

  lemma FindFacts(s: string, c: char)
    ensures var r := Find(s, c);
            if r < 0 then c !in s else s[r] == c && forall i | 0 <= i < r :: s[i] != c
  {
    FindFromFacts(s, c, 0);
  }

  lemma RFindAt(s: string, c: char, k: nat)
    requires k < |s| && s[k] == c && forall i | k < i < |s| :: s[i] != c
    ensures RFind(s, c) == k
  {
    RFindFacts(s, c);
  }

  lemma RFindIs(a: string, c: char, b: string)
    requires c !in b
    ensures RFind(a + [c] + b, c) == |a|
  {
    var s := a + [c] + b;
    forall i | |a| < i < |s| ensures s[i] != c {
      assert s[i] in b;
    }
    RFindAt(s, c, |a|);
  }

  lemma RFindNone(s: string, c: char)
    requires c !in s
    ensures RFind(s, c) == -1
  {
    RFindFacts(s, c);
  }

  predicate StartsWith(s: string, p: string)
  {
    |p| <= |s| && s[..|p|] == p
  }
}
