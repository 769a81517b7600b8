/** The line grammar of the configuration file: comments, block lines, outer lines. */
module Syntax {
  import opened Base
  import opened Text
  import opened Lines

  // ----- comments

  /** A comment mark stands at i: `#` or `//`. */
  predicate MarkChar(s: string, i: nat)
  {
    i < |s| && (s[i] == '#' || (s[i] == '/' && i + 1 < |s| && s[i + 1] == '/'))
  }

  /** A comment starts at i: a mark after white space. */
  predicate CommentMark(s: string, i: nat)
  {
    0 < i < |s| && IsWs(s[i - 1]) && MarkChar(s, i)
  }

  function MarkFrom(s: string, from: nat): (r: Option<nat>)
    requires from <= |s|
    ensures r.Some? ==> from <= r.value < |s|
    decreases |s| - from
  {
    if from == |s| then None
    else if CommentMark(s, from) then Some(from)
    else MarkFrom(s, from + 1)
  }

  lemma {:induction false} MarkFacts(s: string, from: nat)
    requires from <= |s|
    ensures match MarkFrom(s, from)
            case Some(m) => CommentMark(s, m) && forall i | from <= i < m :: !CommentMark(s, i)
            case None => forall i | from <= i < |s| :: !CommentMark(s, i)
    decreases |s| - from
  {
    if from < |s| && !CommentMark(s, from) {
      MarkFacts(s, from + 1);
    }
  }

  /** `comment_at`: where the white space before the first comment begins. */
  function CommentAt(s: string): (r: Option<nat>)
    ensures r.Some? ==> r.value <= |s|
  {
    match MarkFrom(s, 0)
    case Some(i) => Some(BodyLen(s[..i]))
    case None => None
  }

  function StripComment(s: string): string
  {
    match CommentAt(s)
    case Some(at) => s[..at]
    case None => s
  }

  // ----- block lines

  predicate CloseLike(p: string)
  {
    && p != "" && p[0] == '}'
    && (|p| == 1 || IsWs(p[1]) || MarkChar(p, 1))
  }

  datatype KeyValue = KeyValue(key: string, value: string)

  /** `kv`: the text around the last `=`, if the key is not empty. */
  function Kv(s: string): (r: Option<KeyValue>)
    ensures r.Some? ==> r.value.key != ""
  {
    var eq := RFind(s, '=');
    if eq < 0 then None
    else
      var k := Trim(s[..eq]);
      if k == "" then None else Some(KeyValue(k, Trim(s[eq + 1..])))
  }

  /** A `}` at i with a rule before it. */
  predicate Closer(p: string, i: nat)
  {
    i < |p| && p[i] == '}' && Kv(p[..i]).Some?
  }

  /** The first closer from `from` on. */
  function CloserFrom(p: string, from: nat): (r: Option<nat>)
    requires from <= |p|
    ensures r.Some? ==> Closer(p, r.value)
    decreases |p| - from
  {
    if from == |p| then None
    else if Closer(p, from) then Some(from)
    else CloserFrom(p, from + 1)
  }

  lemma {:induction false} CloserFacts(p: string, from: nat)
    requires from <= |p|
    ensures match CloserFrom(p, from)
            case Some(cb) => from <= cb && forall i | from <= i < cb :: !Closer(p, i)
            case None => forall i | from <= i < |p| :: !Closer(p, i)
    decreases |p| - from
  {
    if from < |p| && !Closer(p, from) {
      CloserFacts(p, from + 1);
    }
  }

  /** The facts that make a position the first closer. */
  lemma CloserIs(p: string, cb: nat)
    requires Closer(p, cb) && forall i | 0 <= i < cb :: !Closer(p, i)
    ensures CloserFrom(p, 0) == Some(cb)
  {
    CloserFacts(p, 0);
  }

  lemma CloserNone(p: string)
    requires forall i | 0 <= i < |p| :: !Closer(p, i)
    ensures CloserFrom(p, 0).None?
  {
    CloserFacts(p, 0);
  }

  datatype RuleLine = RuleLine(name: string, cpus: string, closed: bool)

  /** `split_rule_line` on text without its comment. */
  function SplitRuleCore(p: string): (r: Option<RuleLine>)
    ensures r.Some? ==> r.value.name != ""
  {
    match CloserFrom(p, 0)
    case Some(cb) => var kv := Kv(p[..cb]).value; Some(RuleLine(kv.key, kv.value, true))
    case None =>
      match Kv(p)
      case Some(kv) => Some(RuleLine(kv.key, kv.value, false))
      case None => None
  }

  function SplitRuleLine(p: string): (r: Option<RuleLine>)
    ensures r.Some? ==> r.value.name != ""
  {
    SplitRuleCore(StripComment(p))
  }

  // ----- outer lines

  datatype SingleLine = SingleLine(pkg: string, thread: string, cpus: string)

  /** `pkg{thread}` taken apart: the names before the `=` of a single-line rule. */
  function SingleNames(l: string): (r: Option<(string, string)>)
    ensures r.Some? ==> r.value.0 != "" && r.value.1 != ""
  {
    var t := TrimEnd(l);
    if t == "" || t[|t| - 1] != '}' then None
    else
      var left := TrimEnd(t[..|t| - 1]);
      var ob := Find(left, '{');
      if ob < 0 then None
      else
        var pkg, thread := Trim(left[..ob]), Trim(left[ob + 1..]);
        if pkg != "" && thread != "" then Some((pkg, thread)) else None
  }

  function SplitSingleLine(body: string): (r: Option<SingleLine>)
    ensures r.Some? ==> r.value.pkg != "" && r.value.thread != ""
  {
    var eq := RFind(body, '=');
    if eq < 0 then None
    else
      match SingleNames(body[..eq])
      case Some((pkg, thread)) => Some(SingleLine(pkg, thread, Trim(body[eq + 1..])))
      case None => None
  }

  /** The body of an outer line, once a trailing `{` is taken off. */
  function OpenBody(p: string): string
  {
    if p != "" && p[|p| - 1] == '{' then TrimEnd(p[..|p| - 1]) else p
  }

  predicate Opens(p: string)
  {
    p != "" && p[|p| - 1] == '{'
  }

  /** `parse_outer` once the trailing brace is known. */
  function OuterOfBody(body: string, open: bool): Outer
  {
    var single := SplitSingleLine(body);
    if single.Some? then Single(single.value.pkg, single.value.thread, single.value.cpus, open)
    else if !open && CloseLike(body) then Junk
    else
      var eq := RFind(body, '=');
      if eq < 0 then (if open then BareOpen(body) else Pending(body))
      else
        var pkg, cpus := Trim(body[..eq]), Trim(body[eq + 1..]);
        if cpus == "" then (if open then BareOpen(pkg) else Pending(pkg))
        else Rule(pkg, cpus, open)
  }

  /** `parse_outer` on text without its comment. */
  function ParseOuterCore(p: string): Outer
  {
    OuterOfBody(OpenBody(p), Opens(p))
  }

  function ParseOuter(p: string): Outer
  {
    ParseOuterCore(StripComment(p))
  }

  // ----- lines

  predicate Skipped(p: string)
  {
    p == "" || MarkChar(p, 0)
  }

  function InnerOf(p: string): (r: Inner)
    ensures r.Entry? ==> r.name != ""
  {
    if CloseLike(p) then Close
    else
      match SplitRuleLine(p)
      case Some(e) => Entry(e.name, e.cpus, e.closed)
      case None => Bad('}' in p)
  }

  /** What a raw line is to either reader. */
  function Classify(raw: string): (c: Line)
    ensures Named(c)
  {
    var p := Trim(raw);
    if Skipped(p) then Skip else Text(InnerOf(p), ParseOuter(p))
  }

  lemma NotSkippedText(raw: string)
    requires Classify(raw).Text?
    ensures !Skipped(Trim(raw))
  {
  }

  function ClassifyAll(lines: seq<string>): (cs: seq<Line>)
    ensures |cs| == |lines| && forall i | 0 <= i < |lines| :: cs[i] == Classify(lines[i])
  {
    seq(|lines|, i requires 0 <= i < |lines| => Classify(lines[i]))
  }

  // ----- CPU specifications

  predicate AllDigits(s: string)
  {
    forall i | 0 <= i < |s| :: '0' <= s[i] <= '9'
  }

  /** One comma-separated part of a CPU specification, already trimmed. */
  predicate SpecPart(t: string)
  {
    || t in {"e-core", "p-core", "hp-core", "all-core"}
    || AllDigits(t)
    || (var d := Find(t, '-'); d > 0 && d + 1 < |t| && AllDigits(t[..d]) && AllDigits(t[d + 1..]))
  }

  function Split(s: string, c: char): (parts: seq<string>)
    ensures |parts| > 0
    decreases |s|
  {
    var k := Find(s, c);
    if k < 0 then [s] else [s[..k]] + Split(s[k + 1..], c)
  }

  /** `spec_like`: every nonempty part has the right shape, and one part is nonempty. */
  predicate SpecLike(s: string)
  {
    var parts := Split(s, ',');
    && (forall i | 0 <= i < |parts| :: Trim(parts[i]) == "" || SpecPart(Trim(parts[i])))
    && exists i :: 0 <= i < |parts| && Trim(parts[i]) != ""
  }
}
