/** The numbered rule rows sent to the kernel: the same whatever order the hash table of
    uids is walked in. */
module RuleRows {
  import opened Base

  datatype Kind = Red | RedPath | Src | OtherKind

  datatype WaylayRule = WaylayRule(pkg: string, kind: Kind, target: string, from: string, to: string)

  datatype Row = Row(uid: int, kind: string, target: string, from: string, to: string)

  // ----- order of strings and rows

  /** Byte order. */
  predicate StrLe(a: string, b: string)
  {
    a == "" || (b != "" && (a[0] < b[0] || (a[0] == b[0] && StrLe(a[1..], b[1..]))))
  }

  lemma {:induction false} StrTotal(a: string, b: string)
    ensures StrLe(a, b) || StrLe(b, a)
    ensures StrLe(a, b) && StrLe(b, a) ==> a == b
  {
    if a != "" && b != "" && a[0] == b[0] {
      StrTotal(a[1..], b[1..]);
      assert a == [a[0]] + a[1..] && b == [b[0]] + b[1..];
    }
  }

  lemma {:induction false} StrTransitive(a: string, b: string, c: string)
    requires StrLe(a, b) && StrLe(b, c)
    ensures StrLe(a, c)
  {
    if a != "" && b != "" && c != "" && a[0] == b[0] == c[0] {
      StrTransitive(a[1..], b[1..], c[1..]);
    }
  }

  /** Rows are ordered by uid and a text: the kind, or the source. */
  function KeyText(byKind: bool, r: Row): string
  {
    if byKind then r.kind else r.from
  }

  predicate Le(byKind: bool, a: Row, b: Row)
  {
    a.uid < b.uid || (a.uid == b.uid && StrLe(KeyText(byKind, a), KeyText(byKind, b)))
  }

  predicate SameKey(byKind: bool, a: Row, b: Row)
  {
    a.uid == b.uid && KeyText(byKind, a) == KeyText(byKind, b)
  }

  lemma LeFacts(byKind: bool, a: Row, b: Row, c: Row)
    ensures Le(byKind, a, b) || Le(byKind, b, a)
    ensures Le(byKind, a, b) && Le(byKind, b, a) ==> SameKey(byKind, a, b)
    ensures Le(byKind, a, b) && Le(byKind, b, c) ==> Le(byKind, a, c)
    ensures SameKey(byKind, a, b) ==> Le(byKind, a, b) && Le(byKind, b, a)
  {
    StrTotal(KeyText(byKind, a), KeyText(byKind, b));
    StrTotal(KeyText(byKind, a), KeyText(byKind, a));
    if Le(byKind, a, b) && Le(byKind, b, c) && a.uid == b.uid == c.uid {
      StrTransitive(KeyText(byKind, a), KeyText(byKind, b), KeyText(byKind, c));
    }
  }

  // ----- stable sorting

  /** Behind every row that is not greater. */
  function Insert(byKind: bool, rows: seq<Row>, r: Row): seq<Row>
  {
    if rows == [] then [r]
    else if Le(byKind, rows[|rows| - 1], r) then rows + [r]
    else Insert(byKind, rows[..|rows| - 1], r) + [rows[|rows| - 1]]
  }

  function StableSort(byKind: bool, rows: seq<Row>): seq<Row>
  {
    if rows == [] then [] else Insert(byKind, StableSort(byKind, rows[..|rows| - 1]), rows[|rows| - 1])
  }

  predicate Sorted(byKind: bool, rows: seq<Row>)
  {
    forall i, j | 0 <= i < j < |rows| :: Le(byKind, rows[i], rows[j])
  }

  /** The rows with the key of k, in their order. */
  function Class(byKind: bool, rows: seq<Row>, k: Row): seq<Row>
  {
    if rows == [] then []
    else Class(byKind, rows[..|rows| - 1], k) + (if SameKey(byKind, rows[|rows| - 1], k) then [rows[|rows| - 1]] else [])
  }

  lemma {:induction false} InsertSorted(byKind: bool, rows: seq<Row>, r: Row)
    requires Sorted(byKind, rows)
    ensures Sorted(byKind, Insert(byKind, rows, r))
    ensures forall x :: x in Insert(byKind, rows, r) <==> x in rows || x == r
  {
    if rows != [] {
      var n, last := |rows| - 1, rows[|rows| - 1];
      forall i | 0 <= i < n ensures Le(byKind, rows[i], r) || !Le(byKind, last, r) {
        LeFacts(byKind, rows[i], last, r);
      }
      LeFacts(byKind, last, r, last);
      if !Le(byKind, last, r) {
        InsertSorted(byKind, rows[..n], r);
        var front := Insert(byKind, rows[..n], r);
        forall x | x in front ensures Le(byKind, x, last) {
          if x != r {
            var i :| 0 <= i < n && rows[..n][i] == x;
            assert rows[i] == x;
          }
        }
      }
      assert rows == rows[..n] + [last];
    }
  }

  lemma NotBoth(byKind: bool, last: Row, r: Row, k: Row)
    requires !Le(byKind, last, r)
    ensures !(SameKey(byKind, last, k) && SameKey(byKind, r, k))
  {
    LeFacts(byKind, last, r, k);
  }

  lemma SwapTail(a: seq<Row>, x: seq<Row>, y: seq<Row>)
    requires x == [] || y == []
    ensures a + y + x == a + x + y
  {
    assert a + [] == a;
  }

  lemma ClassNext(byKind: bool, rows: seq<Row>, r: Row, k: Row)
    ensures Class(byKind, rows + [r], k) == Class(byKind, rows, k) + (if SameKey(byKind, r, k) then [r] else [])
  {
    hide SameKey;
    assert (rows + [r])[..|rows|] == rows;
  }

  lemma NoClass(byKind: bool, k: Row)
    ensures Class(byKind, [], k) == []
  {
  }

  lemma {:induction false} InsertClass(byKind: bool, rows: seq<Row>, r: Row, k: Row)
    ensures Class(byKind, Insert(byKind, rows, r), k) ==
              Class(byKind, rows, k) + (if SameKey(byKind, r, k) then [r] else [])
  {
    hide Le, SameKey, Class;
    if rows == [] {
      ClassNext(byKind, [], r, k);
      NoClass(byKind, k);
      assert [] + [r] == [r];
    } else {
      var n, last := |rows| - 1, rows[|rows| - 1];
      if Le(byKind, last, r) {
        ClassNext(byKind, rows, r, k);
      } else {
        InsertClass(byKind, rows[..n], r, k);
        ClassNext(byKind, Insert(byKind, rows[..n], r), last, k);
        ClassNext(byKind, rows[..n], last, k);
        assert rows == rows[..n] + [last];
        NotBoth(byKind, last, r, k);
        SwapTail(Class(byKind, rows[..n], k), if SameKey(byKind, last, k) then [last] else [],
                 if SameKey(byKind, r, k) then [r] else []);
      }
    }
  }

  /** The sort orders the rows and keeps rows with equal keys in their order. */
  lemma {:induction false} StableSortIsStable(byKind: bool, rows: seq<Row>, k: Row)
    ensures Sorted(byKind, StableSort(byKind, rows))
    ensures Class(byKind, StableSort(byKind, rows), k) == Class(byKind, rows, k)
    ensures forall x :: x in StableSort(byKind, rows) <==> x in rows
  {
    if rows != [] {
      var n := |rows| - 1;
      StableSortIsStable(byKind, rows[..n], k);
      InsertSorted(byKind, StableSort(byKind, rows[..n]), rows[n]);
      InsertClass(byKind, StableSort(byKind, rows[..n]), rows[n], k);
      assert rows == rows[..n] + [rows[n]];
      ClassNext(byKind, rows[..n], rows[n], k);
      hide Class, Sorted, Insert, SameKey;
    }
  }

  lemma {:induction false} ClassIn(byKind: bool, rows: seq<Row>, k: Row)
    ensures forall x :: x in Class(byKind, rows, k) <==> x in rows && SameKey(byKind, x, k)
  {
    if rows != [] {
      ClassIn(byKind, rows[..|rows| - 1], k);
      assert rows == rows[..|rows| - 1] + [rows[|rows| - 1]];
    }
  }

  /** Order and classes determine the sequence. */
  lemma {:induction false} SortedIsUnique(byKind: bool, a: seq<Row>, b: seq<Row>)
    requires Sorted(byKind, a) && Sorted(byKind, b) && forall k :: Class(byKind, a, k) == Class(byKind, b, k)
    ensures a == b
    decreases |a|
  {
    SameEmptiness(byKind, a, b);
    if a != [] {
      var x, y := a[|a| - 1], b[|b| - 1];
      LastSame(byKind, a, b);
      var fa, fb := a[..|a| - 1], b[..|b| - 1];
      forall k ensures Class(byKind, fa, k) == Class(byKind, fb, k) {
        var e := if SameKey(byKind, x, k) then [x] else [];
        assert Class(byKind, a, k) == Class(byKind, fa, k) + e;
        assert Class(byKind, b, k) == Class(byKind, fb, k) + e;
        Cancel(Class(byKind, fa, k), Class(byKind, fb, k), e);
      }
      SortedIsUnique(byKind, fa, fb);
      assert a == fa + [x] && b == fb + [y];
    }
  }

  lemma Cancel(x: seq<Row>, y: seq<Row>, e: seq<Row>)
    requires x + e == y + e
    ensures x == y
  {
    assert |x| == |y|;
    assert x == (x + e)[..|x|] && y == (y + e)[..|y|];
  }

  lemma SameEmptiness(byKind: bool, a: seq<Row>, b: seq<Row>)
    requires forall k :: Class(byKind, a, k) == Class(byKind, b, k)
    ensures a == [] <==> b == []
  {
    if a != [] {
      ClassIn(byKind, a, a[0]);
      ClassIn(byKind, b, a[0]);
      assert a[0] in Class(byKind, b, a[0]);
    }
    if b != [] {
      ClassIn(byKind, a, b[0]);
      ClassIn(byKind, b, b[0]);
      assert b[0] in Class(byKind, a, b[0]);
    }
  }

  lemma LastSame(byKind: bool, a: seq<Row>, b: seq<Row>)
    requires Sorted(byKind, a) && Sorted(byKind, b) && a != [] && b != []
    requires forall k :: Class(byKind, a, k) == Class(byKind, b, k)
    ensures a[|a| - 1] == b[|b| - 1]
  {
    hide Class, Le, SameKey, Sorted;
    var x, y := a[|a| - 1], b[|b| - 1];
    LeFacts(byKind, x, x, x);
    LeFacts(byKind, y, y, y);
    SelfKey(byKind, x);
    SelfKey(byKind, y);
    ClassIn(byKind, b, x);
    ClassIn(byKind, a, x);
    ClassIn(byKind, a, y);
    ClassIn(byKind, b, y);
    assert x in Class(byKind, a, x) && y in Class(byKind, b, y);
    LastLe(byKind, b, x);
    LastLe(byKind, a, y);
    LeFacts(byKind, x, y, x);
    LeFacts(byKind, y, x, y);
    ClassLast(byKind, a, x);
    ClassLast(byKind, b, x);
  }

  lemma SelfKey(byKind: bool, x: Row)
    ensures SameKey(byKind, x, x)
  {
  }

  lemma ClassLast(byKind: bool, rows: seq<Row>, k: Row)
    requires rows != [] && SameKey(byKind, rows[|rows| - 1], k)
    ensures var c := Class(byKind, rows, k); c != [] && c[|c| - 1] == rows[|rows| - 1]
  {
  }

  lemma LastLe(byKind: bool, rows: seq<Row>, x: Row)
    requires Sorted(byKind, rows) && x in rows
    ensures Le(byKind, x, rows[|rows| - 1])
  {
    var i :| 0 <= i < |rows| && rows[i] == x;
    LeFacts(byKind, x, x, x);
  }

  // ----- the rows of the rules

  /** The rules of installed packages under one uid, in file order. */
  function RulesOf(rules: seq<WaylayRule>, uids: map<string, int>, u: int): seq<WaylayRule>
  {
    if rules == [] then []
    else
      var r := rules[|rules| - 1];
      RulesOf(rules[..|rules| - 1], uids, u) + (if r.pkg != "*" && r.pkg in uids && uids[r.pkg] == u then [r] else [])
  }

  /** The row of a rule, if the list takes its kind. */
  function RowOf(byKind: bool, u: int, r: WaylayRule): seq<Row>
  {
    if byKind then
      match r.kind
      case Red => [Row(u, "c", r.target, r.from, r.to)]
      case RedPath => [Row(u, "p", "-", r.from, r.to)]
      case _ => []
    else if r.kind == Src then [Row(u, "", "", r.from, r.to)] else []
  }

  function RowsOf(byKind: bool, u: int, rules: seq<WaylayRule>): seq<Row>
  {
    if rules == [] then [] else RowsOf(byKind, u, rules[..|rules| - 1]) + RowOf(byKind, u, rules[|rules| - 1])
  }

  /** The rows before sorting, for one order of walking the uids. */
  function Walked(byKind: bool, rules: seq<WaylayRule>, uids: map<string, int>, order: seq<int>): seq<Row>
  {
    if order == [] then []
    else
      var u := order[|order| - 1];
      Walked(byKind, rules, uids, order[..|order| - 1]) + RowsOf(byKind, u, RulesOf(rules, uids, u))
  }

  method PushOwn(byKind: bool, u: int, own: seq<WaylayRule>) returns (rows: seq<Row>)
    ensures rows == RowsOf(byKind, u, own)
  {
    hide RowOf;
    rows := [];
    for j := 0 to |own|
      invariant rows == RowsOf(byKind, u, own[..j])
    {
      assert own[..j + 1][..j] == own[..j];
      rows := rows + RowOf(byKind, u, own[j]);
    }
    assert own[..|own|] == own;
  }

  method PushRows(byKind: bool, rules: seq<WaylayRule>, uids: map<string, int>, order: seq<int>) returns (rows: seq<Row>)
    ensures rows == Walked(byKind, rules, uids, order)
  {
    hide RowsOf, RulesOf;
    rows := [];
    for i := 0 to |order|
      invariant rows == Walked(byKind, rules, uids, order[..i])
    {
      assert order[..i + 1][..i] == order[..i];
      var own := PushOwn(byKind, order[i], RulesOf(rules, uids, order[i]));
      rows := rows + own;
    }
    assert order[..|order|] == order;
  }

  /** `build_rule_rows`: both lists, sorted; a row's place is its number. */
  method BuildRuleRows(rules: seq<WaylayRule>, uids: map<string, int>, order: seq<int>)
    returns (rows: seq<Row>, srows: seq<Row>)
    ensures rows == StableSort(true, Walked(true, rules, uids, order))
    ensures srows == StableSort(false, Walked(false, rules, uids, order))
  {
    rows := PushRows(true, rules, uids, order);
    rows := StableSort(true, rows);
    srows := PushRows(false, rules, uids, order);
    srows := StableSort(false, srows);
  }

  // ----- the walk does not matter

  lemma {:induction false} ClassConcat(byKind: bool, a: seq<Row>, b: seq<Row>, k: Row)
    ensures Class(byKind, a + b, k) == Class(byKind, a, k) + Class(byKind, b, k)
  {
    if b == [] {
      assert a + b == a;
    } else {
      assert (a + b)[..|a + b| - 1] == a + b[..|b| - 1];
      ClassConcat(byKind, a, b[..|b| - 1], k);
    }
  }

  lemma {:induction false} RowsUid(byKind: bool, u: int, rules: seq<WaylayRule>)
    ensures forall x | x in RowsOf(byKind, u, rules) :: x.uid == u
  {
    if rules != [] {
      RowsUid(byKind, u, rules[..|rules| - 1]);
    }
  }

  /** Rows with one key all come from one uid. */
  lemma {:induction false} WalkedClass(byKind: bool, rules: seq<WaylayRule>, uids: map<string, int>, order: seq<int>, k: Row)
    requires forall i, j | 0 <= i < j < |order| :: order[i] != order[j]
    ensures Class(byKind, Walked(byKind, rules, uids, order), k) ==
              if k.uid in order then Class(byKind, RowsOf(byKind, k.uid, RulesOf(rules, uids, k.uid)), k) else []
  {
    hide Class, RulesOf, RowsOf;
    if order == [] {
      NoClass(byKind, k);
    } else {
      var n, u := |order| - 1, order[|order| - 1];
      var own := RowsOf(byKind, u, RulesOf(rules, uids, u));
      assert order == order[..n] + [u];
      WalkedClass(byKind, rules, uids, order[..n], k);
      ClassConcat(byKind, Walked(byKind, rules, uids, order[..n]), own, k);
      if u != k.uid {
        RowsUid(byKind, u, RulesOf(rules, uids, u));
        OtherClass(byKind, own, k);
      }
    }
  }

  lemma {:induction false} OtherClass(byKind: bool, own: seq<Row>, k: Row)
    requires forall x | x in own :: x.uid != k.uid
    ensures Class(byKind, own, k) == []
  {
    if own != [] {
      assert own[|own| - 1] in own && forall x | x in own[..|own| - 1] :: x in own;
      OtherClass(byKind, own[..|own| - 1], k);
    }
  }

  /** The numbered rows are the same for any two orders of walking the same uids. */
  lemma NumberingIsStable(byKind: bool, rules: seq<WaylayRule>, uids: map<string, int>, a: seq<int>, b: seq<int>)
    requires forall i, j | 0 <= i < j < |a| :: a[i] != a[j]
    requires forall i, j | 0 <= i < j < |b| :: b[i] != b[j]
    requires forall u :: u in a <==> u in b
    ensures StableSort(byKind, Walked(byKind, rules, uids, a)) == StableSort(byKind, Walked(byKind, rules, uids, b))
  {
    hide Class, Walked, StableSort, Sorted;
    var x, y := Walked(byKind, rules, uids, a), Walked(byKind, rules, uids, b);
    forall k ensures Class(byKind, StableSort(byKind, x), k) == Class(byKind, StableSort(byKind, y), k) {
      StableSortIsStable(byKind, x, k);
      StableSortIsStable(byKind, y, k);
      WalkedClass(byKind, rules, uids, a, k);
      WalkedClass(byKind, rules, uids, b, k);
    }
    var any := Row(0, "", "", "", "");
    StableSortIsStable(byKind, x, any);
    StableSortIsStable(byKind, y, any);
    SortedIsUnique(byKind, StableSort(byKind, x), StableSort(byKind, y));
  }

  // ----- what the rows are

  lemma {:induction false} RulesOfIn(rules: seq<WaylayRule>, uids: map<string, int>, u: int, r: WaylayRule)
    ensures r in RulesOf(rules, uids, u) <==> r in rules && r.pkg != "*" && r.pkg in uids && uids[r.pkg] == u
  {
    if rules != [] {
      RulesOfIn(rules[..|rules| - 1], uids, u, r);
      assert rules == rules[..|rules| - 1] + [rules[|rules| - 1]];
    }
  }

  lemma {:induction false} RowsOfIn(byKind: bool, u: int, rules: seq<WaylayRule>, x: Row)
    ensures x in RowsOf(byKind, u, rules) <==> exists r :: r in rules && x in RowOf(byKind, u, r)
  {
    if rules != [] {
      var n := |rules| - 1;
      RowsOfIn(byKind, u, rules[..n], x);
      assert rules == rules[..n] + [rules[n]];
      assert forall r :: r in rules <==> r in rules[..n] || r == rules[n];
    }
  }

  predicate FromUid(byKind: bool, rules: seq<WaylayRule>, uids: map<string, int>, u: int, x: Row)
  {
    x in RowsOf(byKind, u, RulesOf(rules, uids, u))
  }

  lemma {:induction false} WalkedIn(byKind: bool, rules: seq<WaylayRule>, uids: map<string, int>, order: seq<int>, x: Row)
    ensures x in Walked(byKind, rules, uids, order) <==> exists u :: u in order && FromUid(byKind, rules, uids, u, x)
  {
    hide RowsOf, RulesOf;
    if order != [] {
      var n := |order| - 1;
      WalkedIn(byKind, rules, uids, order[..n], x);
      assert order == order[..n] + [order[n]];
      assert forall u :: u in order <==> u in order[..n] || u == order[n];
      assert x in Walked(byKind, rules, uids, order) <==>
             x in Walked(byKind, rules, uids, order[..n]) || FromUid(byKind, rules, uids, order[n], x);
    }
  }

  /** The row names the package's uid and the rule's texts. */
  predicate StandsFor(x: Row, r: WaylayRule, uids: map<string, int>)
  {
    r.pkg != "*" && r.pkg in uids && x.uid == uids[r.pkg] && x.from == r.from && x.to == r.to
  }

  /** A row of the first list is there exactly when it stands for a red rule, with its target,
      or for a path rule, with a dash for a target; a row of the second exactly when it stands
      for a source rule. Rules of packages that are not installed have none. */
  lemma RowsAreRules(rules: seq<WaylayRule>, uids: map<string, int>, order: seq<int>, x: Row)
    requires forall p | p in uids :: uids[p] in order
    ensures x in StableSort(true, Walked(true, rules, uids, order)) <==>
            exists r :: r in rules && StandsFor(x, r, uids)
                        && ((r.kind == Red && x.kind == "c" && x.target == r.target)
                            || (r.kind == RedPath && x.kind == "p" && x.target == "-"))
    ensures x in StableSort(false, Walked(false, rules, uids, order)) <==>
            exists r :: r in rules && StandsFor(x, r, uids) && r.kind == Src && x.kind == "" && x.target == ""
  {
    hide StableSort, Walked, RowOf;
    RowsFromRules(true, rules, uids, order, x);
    RowsFromRules(false, rules, uids, order, x);
    forall r | r in rules && r.pkg in uids ensures
      x in RowOf(true, uids[r.pkg], r) <==>
        x.uid == uids[r.pkg] && x.from == r.from && x.to == r.to
        && ((r.kind == Red && x.kind == "c" && x.target == r.target) || (r.kind == RedPath && x.kind == "p" && x.target == "-"))
    {
      OneRow(uids[r.pkg], r, x);
    }
    forall r | r in rules && r.pkg in uids ensures
      x in RowOf(false, uids[r.pkg], r) <==>
        x.uid == uids[r.pkg] && x.from == r.from && x.to == r.to && r.kind == Src && x.kind == "" && x.target == ""
    {
      OneRow(uids[r.pkg], r, x);
    }
  }

  lemma OneRow(u: int, r: WaylayRule, x: Row)
    ensures x in RowOf(true, u, r) <==>
              x.uid == u && x.from == r.from && x.to == r.to
              && ((r.kind == Red && x.kind == "c" && x.target == r.target) || (r.kind == RedPath && x.kind == "p" && x.target == "-"))
    ensures x in RowOf(false, u, r) <==>
              x.uid == u && x.from == r.from && x.to == r.to && r.kind == Src && x.kind == "" && x.target == ""
  {
  }

  /** The numbers: rows go by uid; under one uid the red rules come before the path rules,
      and source rules go by their text in byte order. */
  lemma RowsInOrder(rules: seq<WaylayRule>, uids: map<string, int>, order: seq<int>, i: nat, j: nat)
    requires forall p | p in uids :: uids[p] in order
    ensures var rows := StableSort(true, Walked(true, rules, uids, order));
            i < j < |rows| ==>
              rows[i].uid < rows[j].uid || (rows[i].uid == rows[j].uid && (rows[i].kind == "c" || rows[j].kind == "p"))
    ensures var rows := StableSort(false, Walked(false, rules, uids, order));
            i < j < |rows| ==>
              rows[i].uid < rows[j].uid || (rows[i].uid == rows[j].uid && StrLe(rows[i].from, rows[j].from))
  {
    hide StableSort, Walked;
    var any := Row(0, "", "", "", "");
    var rows := StableSort(true, Walked(true, rules, uids, order));
    StableSortIsStable(true, Walked(true, rules, uids, order), any);
    StableSortIsStable(false, Walked(false, rules, uids, order), any);
    if i < j < |rows| {
      RowsAreRules(rules, uids, order, rows[i]);
      RowsAreRules(rules, uids, order, rows[j]);
      assert rows[i].kind in {"c", "p"} && rows[j].kind in {"c", "p"};
      assert !StrLe("p", "c");
    }
  }

  // ----- rows with equal keys stand in file order

  /** x stands somewhere in front of y. */
  ghost predicate Before<T>(xs: seq<T>, x: T, y: T)
  {
    exists i, j :: 0 <= i < j < |xs| && xs[i] == x && xs[j] == y
  }

  lemma BeforeNext<T>(xs: seq<T>, z: T, x: T, y: T)
    ensures Before(xs + [z], x, y) <==> Before(xs, x, y) || (x in xs && z == y)
  {
    var more := xs + [z];
    if Before(xs, x, y) {
      var i, j :| 0 <= i < j < |xs| && xs[i] == x && xs[j] == y;
      assert more[i] == x && more[j] == y;
    }
    if x in xs && z == y {
      var i :| 0 <= i < |xs| && xs[i] == x;
      assert more[i] == x && more[|xs|] == y;
    }
    if Before(more, x, y) {
      var i, j :| 0 <= i < j < |more| && more[i] == x && more[j] == y;
      assert xs[i] == x && (j < |xs| ==> xs[j] == y);
    }
  }

  lemma {:induction false} ClassBefore(byKind: bool, rows: seq<Row>, k: Row, x: Row, y: Row)
    requires SameKey(byKind, x, k) && SameKey(byKind, y, k)
    ensures Before(Class(byKind, rows, k), x, y) <==> Before(rows, x, y)
  {
    hide Before, SameKey;
    if rows != [] {
      var n := |rows| - 1;
      ClassBefore(byKind, rows[..n], k, x, y);
      assert rows == rows[..n] + [rows[n]];
      BeforeNext(rows[..n], rows[n], x, y);
      BeforeNext(Class(byKind, rows[..n], k), rows[n], x, y);
      ClassIn(byKind, rows[..n], k);
      assert Class(byKind, rows[..n], k) + [] == Class(byKind, rows[..n], k);
    } else {
      NotBefore(rows, x, y);
      NotBefore(Class(byKind, rows, k), x, y);
    }
  }

  lemma NotBefore(rows: seq<Row>, x: Row, y: Row)
    requires rows == []
    ensures !Before(rows, x, y)
  {
  }

  lemma {:induction false} RulesOfOrder(rules: seq<WaylayRule>, uids: map<string, int>, u: int, a: nat, b: nat)
    requires a < b < |rules| && OfUid(rules[a], uids, u) && OfUid(rules[b], uids, u)
    ensures Before(RulesOf(rules, uids, u), rules[a], rules[b])
  {
    hide Before;
    var n := |rules| - 1;
    var front := RulesOf(rules[..n], uids, u);
    BeforeNext(front, rules[n], rules[a], rules[b]);
    if b < n {
      RulesOfOrder(rules[..n], uids, u, a, b);
      assert front + [] == front;
    } else {
      assert rules[..n][a] == rules[a];
      RulesOfIn(rules[..n], uids, u, rules[a]);
    }
  }

  predicate OfUid(r: WaylayRule, uids: map<string, int>, u: int)
  {
    r.pkg != "*" && r.pkg in uids && uids[r.pkg] == u
  }

  lemma {:induction false} RowsOfOrder(byKind: bool, u: int, own: seq<WaylayRule>, r: WaylayRule, q: WaylayRule, x: Row, y: Row)
    requires Before(own, r, q) && RowOf(byKind, u, r) == [x] && RowOf(byKind, u, q) == [y]
    ensures Before(RowsOf(byKind, u, own), x, y)
  {
    hide Before, RowOf;
    if own == [] {
      assert false by {
        NothingBefore(own, r, q);
      }
    } else {
      var n := |own| - 1;
      assert own == own[..n] + [own[n]];
      BeforeNext(own[..n], own[n], r, q);
      var front := RowsOf(byKind, u, own[..n]);
      if Before(own[..n], r, q) {
        RowsOfOrder(byKind, u, own[..n], r, q, x, y);
        AtMostOne(byKind, u, own[n]);
        if RowOf(byKind, u, own[n]) != [] {
          BeforeNext(front, RowOf(byKind, u, own[n])[0], x, y);
        } else {
          assert front + [] == front;
        }
      } else {
        RowsOfIn(byKind, u, own[..n], x);
        assert x in RowOf(byKind, u, r);
        BeforeNext(front, y, x, y);
      }
    }
  }

  lemma NothingBefore(own: seq<WaylayRule>, r: WaylayRule, q: WaylayRule)
    requires own == []
    ensures !Before(own, r, q)
  {
  }

  lemma AtMostOne(byKind: bool, u: int, r: WaylayRule)
    ensures var rows := RowOf(byKind, u, r); rows == [] || rows == [rows[0]]
  {
  }

  /** Two rules of one uid whose rows have the same key: the rows stand in the order of the
      rules in the file, so the numbers do not change while the file does not. */
  lemma RowsKeepOrder(byKind: bool, rules: seq<WaylayRule>, uids: map<string, int>, order: seq<int>, a: nat, b: nat, x: Row, y: Row)
    requires forall i, j | 0 <= i < j < |order| :: order[i] != order[j]
    requires forall p | p in uids :: uids[p] in order
    requires a < b < |rules| && StandsFor(x, rules[a], uids) && StandsFor(y, rules[b], uids) && x.uid == y.uid
    requires if byKind then
               && rules[a].kind == rules[b].kind
               && ((rules[a].kind == Red && x.kind == "c" == y.kind && x.target == rules[a].target && y.target == rules[b].target)
                   || (rules[a].kind == RedPath && x.kind == "p" == y.kind && x.target == "-" == y.target))
             else
               && rules[a].kind == Src == rules[b].kind && x.from == y.from
               && x.kind == "" == y.kind && x.target == "" == y.target
    ensures Before(StableSort(byKind, Walked(byKind, rules, uids, order)), x, y)
  {
    hide StableSort, Walked, RulesOf, RowsOf, Before, Class;
    var own := RulesOf(rules, uids, x.uid);
    RulesOfOrder(rules, uids, x.uid, a, b);
    RowsOfOrder(byKind, x.uid, own, rules[a], rules[b], x, y);
    hide RowOf;
    StableSortIsStable(byKind, Walked(byKind, rules, uids, order), x);
    WalkedClass(byKind, rules, uids, order, x);
    ClassBefore(byKind, RowsOf(byKind, x.uid, own), x, x, y);
    ClassBefore(byKind, StableSort(byKind, Walked(byKind, rules, uids, order)), x, x, y);
  }

  /** Byte order compares the first characters that differ; a front comes first. */
  lemma {:induction false} StrLeIs(a: string, b: string, k: nat)
    requires k <= |a| && k <= |b| && a[..k] == b[..k]
    requires k < |a| && k < |b| ==> a[k] != b[k]
    ensures StrLe(a, b) <==> k == |a| || (k < |b| && a[k] < b[k])
    decreases k
  {
    if k > 0 {
      assert a[0] == a[..k][0] == b[..k][0] == b[0];
      assert a[1..][..k - 1] == a[..k][1..] == b[..k][1..] == b[1..][..k - 1];
      StrLeIs(a[1..], b[1..], k - 1);
    }
  }

  /** A row is there exactly when it is made from a rule of an installed package. */
  lemma RowsFromRules(byKind: bool, rules: seq<WaylayRule>, uids: map<string, int>, order: seq<int>, x: Row)
    requires forall p | p in uids :: uids[p] in order
    ensures x in StableSort(byKind, Walked(byKind, rules, uids, order)) <==>
            exists r :: r in rules && r.pkg != "*" && r.pkg in uids && x in RowOf(byKind, uids[r.pkg], r)
  {
    hide StableSort, Walked, RowsOf, RulesOf, Sorted, Class;
    StableSortIsStable(byKind, Walked(byKind, rules, uids, order), x);
    WalkedIn(byKind, rules, uids, order, x);
    forall u ensures FromUid(byKind, rules, uids, u, x) <==>
                     exists r :: r in rules && r.pkg != "*" && r.pkg in uids && uids[r.pkg] == u && x in RowOf(byKind, u, r) {
      UidRows(byKind, rules, uids, u, x);
    }
  }

  lemma UidRows(byKind: bool, rules: seq<WaylayRule>, uids: map<string, int>, u: int, x: Row)
    ensures FromUid(byKind, rules, uids, u, x) <==>
            exists r :: r in rules && r.pkg != "*" && r.pkg in uids && uids[r.pkg] == u && x in RowOf(byKind, u, r)
  {
    hide RulesOf, RowOf;
    RowsOfIn(byKind, u, RulesOf(rules, uids, u), x);
    forall r ensures r in RulesOf(rules, uids, u) <==> r in rules && r.pkg != "*" && r.pkg in uids && uids[r.pkg] == u {
      RulesOfIn(rules, uids, u, r);
    }
  }
}
