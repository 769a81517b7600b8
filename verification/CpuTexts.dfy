/** What a written CPU text means, piece by piece: tier names, single numbers, and spans in
    either direction, with white space around them and commas between. */
module CpuTexts {
  import opened Base
  import opened Text
  import opened Syntax
  import opened CpuSets
  import opened CpuSpecs

  datatype Body = Nothing | ECores | PCores | HpCores | AllCores | Number(a: nat) | Span(first: nat, last: nat)

  datatype Piece = Piece(lead: string, body: Body, trail: string)

  function BodyText(b: Body): string
  {
    match b
    case Nothing => ""
    case ECores => "e-core"
    case PCores => "p-core"
    case HpCores => "hp-core"
    case AllCores => "all-core"
    case Number(a) => Decimal(a)
    case Span(a, z) => Decimal(a) + "-" + Decimal(z)
  }

  function PieceText(p: Piece): string
  {
    p.lead + BodyText(p.body) + p.trail
  }

  function PiecesText(ps: seq<Piece>): string
  {
    if ps == [] then ""
    else if |ps| == 1 then PieceText(ps[0])
    else PiecesText(ps[..|ps| - 1]) + "," + PieceText(ps[|ps| - 1])
  }

  predicate WellWritten(p: Piece)
  {
    && Blank(p.lead) && Blank(p.trail)
    && (p.body.Number? ==> p.body.a < USIZE_MAX)
    && (p.body.Span? ==> p.body.first < USIZE_MAX && p.body.last < USIZE_MAX)
  }

  /** The CPU is one of those the piece stands for. */
  predicate Means(b: Body, topo: CpuTopology, c: nat)
  {
    match b
    case Nothing => false
    case ECores => c in topo.eCore
    case PCores => c in topo.pCore
    case HpCores => c in topo.hpCore
    case AllCores => c in topo.present
    case Number(a) => c == a && c < 1024 && c in topo.present
    case Span(a, z) => (a <= c <= z || z <= c <= a) && c < 1024 && c in topo.present
  }

  // ----- one piece

  lemma NumberText(n: nat)
    ensures var d := Decimal(n); Plain(d) && '-' !in d
  {
    DecimalDigits(n);
    assert Decimal(n) != "";
  }

  /** A text of digits and dashes is read as a range and no tier. */
  lemma PlainSpec(s: string, topo: CpuTopology)
    requires Plain(s)
    ensures NamedSet(s, topo) == match PartRange(s) case Some(r) => Within(r, Some(topo.present)) case None => {}
  {
    hide PartRange, Within;
    RangeIsNoName(s, topo);
    OnePart(s, Some(topo.present));
    PlainTrim(s);
  }

  lemma OneRange(a: nat)
    requires a < USIZE_MAX
    ensures PartRange(Decimal(a)) == Some(Range(a, a))
  {
    hide Decimal, ParseUsize;
    NumberText(a);
    DecimalParses(a);
    FindFacts(Decimal(a), '-');
  }

  lemma SpanRange(a: nat, z: nat)
    requires a < USIZE_MAX && z < USIZE_MAX
    ensures Plain(Decimal(a) + "-" + Decimal(z))
    ensures PartRange(Decimal(a) + "-" + Decimal(z)) == Some(if a <= z then Range(a, z) else Range(z, a))
  {
    hide Decimal, ParseUsize;
    NumberText(a);
    NumberText(z);
    DecimalParses(a);
    DecimalParses(z);
    FirstIn(Decimal(a), '-', Decimal(z));
    var s := Decimal(a) + ['-'] + Decimal(z);
    assert s == Decimal(a) + "-" + Decimal(z);
    assert s[..|Decimal(a)|] == Decimal(a) && s[|Decimal(a)| + 1..] == Decimal(z);
  }

  lemma BodyMeans(b: Body, topo: CpuTopology, c: nat)
    requires WellWritten(Piece("", b, "")) && b != Nothing
    ensures Trimmed(BodyText(b)) && ',' !in BodyText(b)
    ensures c in NamedSet(BodyText(b), topo) <==> Means(b, topo, c)
  {
    hide PartRange, ParsedRanges, Decimal, NamedSet;
    match b {
      case Number(a) =>
        NumberText(a);
        PlainEnds(Decimal(a));
        PlainSpec(Decimal(a), topo);
        OneRange(a);
      case Span(a, z) =>
        SpanRange(a, z);
        PlainEnds(BodyText(b));
        PlainSpec(BodyText(b), topo);
      case _ =>
        TierNamed(b, topo);
    }
  }

  lemma PlainEnds(s: string)
    requires Plain(s)
    ensures Trimmed(s) && ',' !in s
  {
  }

  lemma TierNamed(b: Body, topo: CpuTopology)
    requires b in {ECores, PCores, HpCores, AllCores}
    ensures Trimmed(BodyText(b)) && ',' !in BodyText(b) && SpecPart(BodyText(b))
    ensures NamedSet(BodyText(b), topo) ==
              match b case ECores => topo.eCore case PCores => topo.pCore case HpCores => topo.hpCore case _ => topo.present
  {
    hide AllDigits, Find, ParsedRanges;
  }

  lemma PieceMeans(p: Piece, topo: CpuTopology, c: nat)
    requires WellWritten(p)
    ensures ',' !in PieceText(p)
    ensures c in (if Trim(PieceText(p)) == "" then {} else NamedSet(Trim(PieceText(p)), topo)) <==> Means(p.body, topo, c)
  {
    hide NamedSet, Trim, BodyText;
    if p.body == Nothing {
      NothingWritten(p);
      TrimBlank(PieceText(p));
    } else {
      BodyMeans(p.body, topo, c);
      TrimIs(p.lead, BodyText(p.body), p.trail);
    }
  }

  lemma NothingWritten(p: Piece)
    requires WellWritten(p) && p.body == Nothing
    ensures Blank(PieceText(p)) && ',' !in PieceText(p)
  {
  }

  // ----- all pieces

  lemma SpecNext(parts: seq<string>, p: string, topo: CpuTopology)
    ensures SpecParts(parts + [p], topo) == SpecParts(parts, topo) + (if Trim(p) == "" then {} else NamedSet(Trim(p), topo))
  {
    hide Trim, NamedSet;
    assert (parts + [p])[..|parts|] == parts;
  }

  lemma {:induction false} PiecesMean(ps: seq<Piece>, topo: CpuTopology, c: nat)
    requires ps != [] && forall p | p in ps :: WellWritten(p)
    ensures c in SpecParts(Split(PiecesText(ps), ','), topo) <==> exists p :: p in ps && Means(p.body, topo, c)
  {
    hide PieceText, Split, SpecParts, NamedSet, Trim, WellWritten, Means;
    var n := |ps| - 1;
    var last := PieceText(ps[n]);
    PieceMeans(ps[n], topo, c);
    assert ps == ps[..n] + [ps[n]];
    if n == 0 {
      FindFacts(last, ',');
      OneSplit(last, ',');
      SpecNext([], last, topo);
      NoParts(topo);
      assert [] + [last] == [last];
    } else {
      PiecesMean(ps[..n], topo, c);
      SplitLast(PiecesText(ps[..n]), last, ',');
      assert PiecesText(ps) == PiecesText(ps[..n]) + [','] + last;
      SpecNext(Split(PiecesText(ps[..n]), ','), last, topo);
    }
  }

  lemma NoParts(topo: CpuTopology)
    ensures SpecParts([], topo) == {}
  {
  }

  /** A written CPU text stands for the CPUs of its pieces and no others. */
  lemma SpecMeans(ps: seq<Piece>, topo: CpuTopology, c: nat)
    requires forall p | p in ps :: WellWritten(p)
    ensures c in ParsedSpec(PiecesText(ps), topo) <==> exists p :: p in ps && Means(p.body, topo, c)
  {
    hide SpecParts, Means, Split;
    if ps != [] {
      PiecesMean(ps, topo, c);
      BlankParts(topo);
    }
  }

  lemma BlankParts(topo: CpuTopology)
    ensures SpecParts(Split("", ','), topo) == {}
  {
    hide NamedSet;
    assert Split("", ',') == [""];
    assert Trim("") == "";
    assert [""][..0] == [];
  }

  // ----- the loader's first look at the text

  lemma BodyIsPart(b: Body)
    requires WellWritten(Piece("", b, "")) && b != Nothing
    ensures Trimmed(BodyText(b)) && ',' !in BodyText(b) && SpecPart(BodyText(b))
  {
    hide Decimal, SpecPart;
    match b {
      case Number(a) =>
        NumberText(a);
        DecimalDigits(a);
        PlainEnds(Decimal(a));
        DigitsPart(Decimal(a));
      case Span(a, z) =>
        SpanRange(a, z);
        PlainEnds(BodyText(b));
        SpanPart(a, z);
      case _ =>
        TierNamed(b, CpuTopology({}, {}, {}, {}));
    }
  }

  lemma DigitsPart(s: string)
    requires AllDigits(s)
    ensures SpecPart(s)
  {
  }

  lemma SpanPart(a: nat, z: nat)
    ensures SpecPart(Decimal(a) + "-" + Decimal(z))
  {
    hide Decimal, Find;
    var x, y := Decimal(a), Decimal(z);
    NumberText(a);
    NumberText(z);
    DecimalDigits(a);
    DecimalDigits(z);
    FirstIn(x, '-', y);
    var s := x + ['-'] + y;
    assert s == x + "-" + y && s[..|x|] == x && s[|x| + 1..] == y;
  }

  lemma PieceIsPart(p: Piece)
    requires WellWritten(p)
    ensures ',' !in PieceText(p)
    ensures if p.body == Nothing then Trim(PieceText(p)) == "" else Trim(PieceText(p)) != "" && SpecPart(Trim(PieceText(p)))
  {
    hide Trim, BodyText, SpecPart;
    if p.body == Nothing {
      NothingWritten(p);
      TrimBlank(PieceText(p));
    } else {
      BodyIsPart(p.body);
      TrimIs(p.lead, BodyText(p.body), p.trail);
    }
  }

  lemma {:induction false} PiecesSplit(ps: seq<Piece>)
    requires ps != [] && forall p | p in ps :: WellWritten(p)
    ensures var parts := Split(PiecesText(ps), ',');
            |parts| == |ps| && forall k | 0 <= k < |ps| :: parts[k] == PieceText(ps[k])
  {
    hide PieceText, Split, WellWritten;
    var n := |ps| - 1;
    var last := PieceText(ps[n]);
    PieceIsPart(ps[n]);
    if n == 0 {
      FindFacts(last, ',');
      OneSplit(last, ',');
    } else {
      PiecesSplit(ps[..n]);
      SplitLast(PiecesText(ps[..n]), last, ',');
      assert PiecesText(ps) == PiecesText(ps[..n]) + [','] + last;
    }
  }

  /** A written text has the shape the loader asks for, if any piece of it says anything. */
  lemma WrittenIsSpec(ps: seq<Piece>)
    requires forall p | p in ps :: WellWritten(p)
    ensures SpecLike(PiecesText(ps)) <==> exists p :: p in ps && p.body != Nothing
  {
    hide PieceText, Split, Trim, SpecPart, WellWritten;
    if ps == [] {
      EmptySplit();
    } else {
      PiecesSplit(ps);
      forall k | 0 <= k < |ps| ensures
        if ps[k].body == Nothing then Trim(PieceText(ps[k])) == ""
        else Trim(PieceText(ps[k])) != "" && SpecPart(Trim(PieceText(ps[k])))
      {
        PieceIsPart(ps[k]);
      }
      var parts := Split(PiecesText(ps), ',');
      if p :| p in ps && p.body != Nothing {
        var k :| 0 <= k < |ps| && ps[k] == p;
        assert Trim(parts[k]) != "";
      }
    }
  }

  lemma EmptySplit()
    ensures Split("", ',') == [""] && Trim("") == ""
  {
  }

  // ----- parts that are no range

  /** A first number that cannot be read voids the part; in place of a last number that
      cannot be read stands the first. */
  lemma UnreadNumbers(a: nat, x: string, present: Option<set<nat>>)
    requires a < USIZE_MAX && ParseUsize(x).None? && Trimmed(x) && ',' !in x && '-' !in x
    ensures ParsedRanges(x, present) == {} && ParsedRanges(x + "-" + Decimal(a), present) == {}
    ensures ParsedRanges(Decimal(a) + "-" + x, present) == ParsedRanges(Decimal(a), present)
  {
    hide ParseUsize, Decimal, Within, Trim, ParsedRanges;
    NumberText(a);
    DecimalParses(a);
    FindFacts(x, '-');
    FirstIn(x, '-', Decimal(a));
    FirstIn(Decimal(a), '-', x);
    var s, t := x + ['-'] + Decimal(a), Decimal(a) + ['-'] + x;
    assert s == x + "-" + Decimal(a) && t == Decimal(a) + "-" + x;
    assert s[..|x|] == x;
    assert t[..|Decimal(a)|] == Decimal(a) && t[|Decimal(a)| + 1..] == x;
    OneRange(a);
    WholePart(x, present);
    WholePart(s, present);
    WholePart(t, present);
    WholePart(Decimal(a), present);
  }

  lemma WholePart(p: string, present: Option<set<nat>>)
    requires Trimmed(p) && ',' !in p
    ensures ParsedRanges(p, present) == match PartRange(p) case Some(r) => Within(r, present) case None => {}
  {
    hide PartRange, Within, Trim;
    TrimTrimmed(p);
    FindFacts(p, ',');
    OneSplit(p, ',');
    OneSet(p, present);
  }
}
