/** The substitution rules for property names, one after the other over one buffer, and
    their undo, which runs over them in the same order. */
module PropRules {
  import opened Substitution

  datatype PropRule = PropRule(from: seq<bv8>, to: seq<bv8>)

  /** The others are skipped. */
  predicate Active(r: PropRule)
  {
    |r.from| == |r.to| > 0
  }

  function ApplyRule(s: seq<bv8>, r: PropRule, on: bool): seq<bv8>
  {
    if !Active(r) then s else if on then Subst(s, r.from, r.to) else Subst(s, r.to, r.from)
  }

  function ApplyRules(s: seq<bv8>, rules: seq<PropRule>, on: bool): seq<bv8>
    decreases |rules|
  {
    if rules == [] then s else ApplyRules(ApplyRule(s, rules[0], on), rules[1..], on)
  }

  function Undone(s: seq<bv8>, rules: seq<PropRule>): seq<bv8>
  {
    ApplyRules(ApplyRules(s, rules, true), rules, false)
  }

  // ----- rules that keep apart

  /** A byte of the new text of rule i that is new to the buffer and in no other new text. */
  predicate Marks(s: seq<bv8>, rules: seq<PropRule>, i: nat, b: bv8)
    requires i < |rules|
  {
    b in rules[i].to && b !in s && forall k | 0 <= k < |rules| && k != i && Active(rules[k]) :: b !in rules[k].to
  }

  /** No byte of f is in the new text of one of the first n rules. */
  predicate Foreign(rules: seq<PropRule>, n: nat, f: seq<bv8>)
    requires n <= |rules|
  {
    forall i, k | 0 <= i < n && Active(rules[i]) && 0 <= k < |f| :: f[k] !in rules[i].to
  }

  /** Every new text has a byte of its own, and no rule looks for bytes that an earlier one
      writes. */
  ghost predicate Apart(s: seq<bv8>, rules: seq<PropRule>)
  {
    && (forall i | 0 <= i < |rules| && Active(rules[i]) :: exists b :: Marks(s, rules, i, b))
    && (forall k | 0 <= k < |rules| && Active(rules[k]) :: Foreign(rules, k, rules[k].from))
  }

  // ----- a buffer taken apart

  /** A byte that is as it was, or a place where a rule wrote. */
  datatype Tile = Keep(b: bv8) | Put(rule: PropRule, i: nat)

  function Old(t: Tile): seq<bv8>
  {
    match t case Keep(b) => [b] case Put(r, _) => r.from
  }

  function New(t: Tile): seq<bv8>
  {
    match t case Keep(b) => [b] case Put(r, _) => r.to
  }

  function Was(ts: seq<Tile>): seq<bv8>
  {
    if ts == [] then [] else Old(ts[0]) + Was(ts[1..])
  }

  function Now(ts: seq<Tile>): seq<bv8>
  {
    if ts == [] then [] else New(ts[0]) + Now(ts[1..])
  }

  predicate TileOf(rules: seq<PropRule>, t: Tile, a: nat, b: nat)
  {
    t.Put? ==> a <= t.i < b <= |rules| && t.rule == rules[t.i] && Active(t.rule)
  }

  /** Only the rules a to b - 1 have written. */
  predicate Tiled(rules: seq<PropRule>, ts: seq<Tile>, a: nat, b: nat)
  {
    forall k | 0 <= k < |ts| :: TileOf(rules, ts[k], a, b)
  }

  function Kept(s: seq<bv8>): (ts: seq<Tile>)
    ensures |ts| == |s| && forall k | 0 <= k < |s| :: ts[k] == Keep(s[k])
  {
    seq(|s|, k requires 0 <= k < |s| => Keep(s[k]))
  }

  lemma {:induction false} KeptIs(s: seq<bv8>, ts: seq<Tile>)
    ensures Was(Kept(s) + ts) == s + Was(ts) && Now(Kept(s) + ts) == s + Now(ts)
    decreases |s|
  {
    if s == [] {
      assert Kept(s) + ts == ts && [] + Was(ts) == Was(ts) && [] + Now(ts) == Now(ts);
    } else {
      KeptIs(s[1..], ts);
      KeptHead(s, ts);
      hide Was, Now, Kept;
      HeadTile(Keep(s[0]), Kept(s[1..]) + ts);
      Reheaded(s, Was(ts));
      Reheaded(s, Now(ts));
    }
  }

  lemma KeptHead(s: seq<bv8>, ts: seq<Tile>)
    requires s != []
    ensures Kept(s) + ts == [Keep(s[0])] + (Kept(s[1..]) + ts)
  {
  }

  lemma Reheaded(s: seq<bv8>, x: seq<bv8>)
    requires s != []
    ensures [s[0]] + (s[1..] + x) == s + x
  {
  }

  /** Without a place where a rule wrote, nothing has changed. */
  lemma {:induction false} AllKept(rules: seq<PropRule>, ts: seq<Tile>, n: nat)
    requires Tiled(rules, ts, n, n)
    ensures Now(ts) == Was(ts)
  {
    if ts != [] {
      assert TileOf(rules, ts[0], n, n);
      TiledTail(rules, ts, n, n);
      AllKept(rules, ts[1..], n);
    }
  }

  lemma TiledTail(rules: seq<PropRule>, ts: seq<Tile>, a: nat, b: nat)
    requires Tiled(rules, ts, a, b) && ts != []
    ensures Tiled(rules, ts[1..], a, b) && TileOf(rules, ts[0], a, b)
  {
  }

  lemma TiledJoin(rules: seq<PropRule>, t: Tile, ts: seq<Tile>, a: nat, b: nat)
    requires Tiled(rules, ts, a, b) && TileOf(rules, t, a, b)
    ensures Tiled(rules, [t] + ts, a, b)
  {
  }

  lemma HeadTile(t: Tile, ts: seq<Tile>)
    ensures Was([t] + ts) == Old(t) + Was(ts) && Now([t] + ts) == New(t) + Now(ts)
  {
    assert ([t] + ts)[1..] == ts;
  }

  // ----- a rule switched on

  /** The rule writes wherever its text stands in untouched bytes. */
  function PutIn(ts: seq<Tile>, r: PropRule, i: nat): seq<Tile>
    requires Active(r)
  {
    var n := |r.from|;
    if ts == [] then []
    else if |ts| >= n && ts[..n] == Kept(r.from) then [Put(r, i)] + PutIn(ts[n..], r, i)
    else [ts[0]] + PutIn(ts[1..], r, i)
  }

  /** Text of other bytes than the new texts stands in untouched bytes only. */
  lemma {:induction false} KeptFront(rules: seq<PropRule>, ts: seq<Tile>, n: nat, f: seq<bv8>)
    requires n <= |rules| && Tiled(rules, ts, 0, n) && Foreign(rules, n, f) && HeadIs(Now(ts), f)
    ensures |f| <= |ts| && ts[..|f|] == Kept(f)
    decreases |f|
  {
    if f != [] {
      TiledTail(rules, ts, 0, n);
      var t := ts[0];
      if t.Keep? {
        assert Now(ts)[1..] == Now(ts[1..]) && Now(ts)[0] == t.b;
        assert f[0] == Now(ts)[..|f|][0] && f[1..] == Now(ts)[..|f|][1..];
        assert forall k | 0 <= k < |f[1..]| :: f[1..][k] == f[k + 1];
        KeptFront(rules, ts[1..], n, f[1..]);
        assert ts[..|f|] == [t] + ts[1..][..|f| - 1];
      }
    }
  }

  lemma OnMatch(ts: seq<Tile>, r: PropRule)
    requires Active(r) && |ts| >= |r.from| && ts[..|r.from|] == Kept(r.from)
    ensures Subst(Now(ts), r.from, r.to) == r.to + Subst(Now(ts[|r.from|..]), r.from, r.to)
    ensures Was(ts) == r.from + Was(ts[|r.from|..])
  {
    var n := |r.from|;
    assert ts == Kept(r.from) + ts[n..];
    KeptIs(r.from, ts[n..]);
    assert Now(ts)[..n] == r.from && Now(ts)[n..] == Now(ts[n..]);
  }

  /** No match begins in the first tile. */
  lemma OnMiss(rules: seq<PropRule>, ts: seq<Tile>, n: nat, r: PropRule)
    requires n <= |rules| && Tiled(rules, ts, 0, n) && Active(r) && Foreign(rules, n, r.from)
    requires ts != [] && !(|ts| >= |r.from| && ts[..|r.from|] == Kept(r.from))
    ensures Subst(Now(ts), r.from, r.to) == New(ts[0]) + Subst(Now(ts[1..]), r.from, r.to)
  {
    hide Subst, Foreign;
    TiledTail(rules, ts, 0, n);
    var y, rest := New(ts[0]), Now(ts[1..]);
    forall k | 0 <= k < |y| ensures !HeadIs((y + rest)[k..], r.from) {
      if HeadIs((y + rest)[k..], r.from) {
        if ts[0].Keep? {
          assert (y + rest)[0..] == Now(ts);
          KeptFront(rules, ts, n, r.from);
          assert false;
        } else {
          assert (y + rest)[k..][0] == y[k] && r.from[0] == (y + rest)[k..][..|r.from|][0];
          ForeignAt(rules, n, r.from, ts[0].i);
          assert false;
        }
      }
    }
    PassOver(y, rest, r.from, r.to);
  }

  lemma ForeignAt(rules: seq<PropRule>, n: nat, f: seq<bv8>, i: nat)
    requires n <= |rules| && Foreign(rules, n, f) && i < n && Active(rules[i]) && f != []
    ensures f[0] !in rules[i].to
  {
  }

  lemma {:induction false} SwitchedOn(rules: seq<PropRule>, ts: seq<Tile>, i: nat)
    requires i < |rules| && Active(rules[i]) && Tiled(rules, ts, 0, i) && Foreign(rules, i, rules[i].from)
    ensures var us := PutIn(ts, rules[i], i);
            && Now(us) == Subst(Now(ts), rules[i].from, rules[i].to)
            && Was(us) == Was(ts) && Tiled(rules, us, 0, i + 1)
    decreases |ts|
  {
    hide Subst, Foreign, Tiled, Kept;
    var r, n := rules[i], |rules[i].from|;
    if ts == [] {
      NothingThere(rules, r, i);
    } else if |ts| >= n && ts[..n] == Kept(r.from) {
      TiledFrom(rules, ts, i, n);
      SwitchedOn(rules, ts[n..], i);
      OnMatch(ts, r);
      HeadTile(Put(r, i), PutIn(ts[n..], r, i));
      TiledJoin(rules, Put(r, i), PutIn(ts[n..], r, i), 0, i + 1);
    } else {
      TiledTail(rules, ts, 0, i);
      SwitchedOn(rules, ts[1..], i);
      OnMiss(rules, ts, i, r);
      HeadTile(ts[0], PutIn(ts[1..], r, i));
      TiledJoin(rules, ts[0], PutIn(ts[1..], r, i), 0, i + 1);
    }
  }

  lemma NothingThere(rules: seq<PropRule>, r: PropRule, i: nat)
    requires Active(r)
    ensures Subst([], r.from, r.to) == [] && Tiled(rules, [], 0, i + 1)
  {
  }

  lemma TiledFrom(rules: seq<PropRule>, ts: seq<Tile>, i: nat, n: nat)
    requires Tiled(rules, ts, 0, i) && n <= |ts|
    ensures Tiled(rules, ts[n..], 0, i)
  {
  }

  lemma {:induction false} AllOn(rules: seq<PropRule>, ts: seq<Tile>, i: nat) returns (us: seq<Tile>)
    requires i <= |rules| && Tiled(rules, ts, 0, i)
    requires forall k | 0 <= k < |rules| && Active(rules[k]) :: Foreign(rules, k, rules[k].from)
    ensures Now(us) == ApplyRules(Now(ts), rules[i..], true) && Was(us) == Was(ts) && Tiled(rules, us, 0, |rules|)
    decreases |rules| - i
  {
    hide Foreign, Subst;
    if i == |rules| {
      us := ts;
    } else {
      assert rules[i..][0] == rules[i] && rules[i..][1..] == rules[i + 1..];
      var vs := ts;
      if Active(rules[i]) {
        SwitchedOn(rules, ts, i);
        vs := PutIn(ts, rules[i], i);
      } else {
        TiledMore(rules, ts, i);
      }
      us := AllOn(rules, vs, i + 1);
    }
  }

  lemma TiledMore(rules: seq<PropRule>, ts: seq<Tile>, i: nat)
    requires i < |rules| && Tiled(rules, ts, 0, i)
    ensures Tiled(rules, ts, 0, i + 1)
  {
    forall k | 0 <= k < |ts| ensures TileOf(rules, ts[k], 0, i + 1) {
      assert TileOf(rules, ts[k], 0, i);
    }
  }

  // ----- a rule switched off

  /** What rule i wrote is taken back. */
  function TakenOut(ts: seq<Tile>, i: nat): seq<Tile>
  {
    if ts == [] then []
    else (if ts[0].Put? && ts[0].i == i then Kept(ts[0].rule.from) else [ts[0]]) + TakenOut(ts[1..], i)
  }

  /** A byte b that stands in rule i's new text at j first, and nowhere else. */
  predicate OwnByte(rules: seq<PropRule>, i: nat, j: nat, b: bv8)
  {
    && i < |rules| && j < |rules[i].to| && rules[i].to[j] == b && b !in rules[i].to[..j]
    && forall k | 0 <= k < |rules| && k != i && Active(rules[k]) :: b !in rules[k].to
  }

  lemma {:induction false} NotBefore(rules: seq<PropRule>, ts: seq<Tile>, i: nat, j: nat, b: bv8)
    requires OwnByte(rules, i, j, b) && Tiled(rules, ts, i, |rules|) && b !in Was(ts)
    ensures forall k | 0 <= k < j && k < |Now(ts)| :: Now(ts)[k] != b
  {
    if ts != [] {
      TiledTail(rules, ts, i, |rules|);
      var y, rest := New(ts[0]), Now(ts[1..]);
      NotInTail(ts, b);
      NotBefore(rules, ts[1..], i, j, b);
      if !(ts[0].Put? && ts[0].i == i) {
        OtherTile(rules, ts[0], i, j, b);
      }
      forall k | 0 <= k < j && k < |Now(ts)| ensures Now(ts)[k] != b {
        if k < |y| {
          assert Now(ts)[k] == y[k] && y[k] in y;
          if ts[0].Put? && ts[0].i == i {
            assert rules[i].to[..j][k] == y[k];
          }
        } else {
          assert Now(ts)[k] == rest[k - |y|];
        }
      }
    }
  }

  lemma NotInTail(ts: seq<Tile>, b: bv8)
    requires ts != [] && b !in Was(ts)
    ensures b !in Was(ts[1..]) && b !in Old(ts[0])
  {
  }

  lemma OtherTile(rules: seq<PropRule>, t: Tile, i: nat, j: nat, b: bv8)
    requires OwnByte(rules, i, j, b) && TileOf(rules, t, i, |rules|) && b !in Old(t) && !(t.Put? && t.i == i)
    ensures b !in New(t)
  {
  }

  /** No match of rule i's new text begins in a tile that is not its own. */
  lemma OffMiss(rules: seq<PropRule>, ts: seq<Tile>, i: nat, j: nat, b: bv8)
    requires OwnByte(rules, i, j, b) && Tiled(rules, ts, i, |rules|) && b !in Was(ts) && Active(rules[i])
    requires ts != [] && !(ts[0].Put? && ts[0].i == i)
    ensures Subst(Now(ts), rules[i].to, rules[i].from) == New(ts[0]) + Subst(Now(ts[1..]), rules[i].to, rules[i].from)
  {
    hide Subst;
    var r, y, rest := rules[i], New(ts[0]), Now(ts[1..]);
    TiledTail(rules, ts, i, |rules|);
    NotInTail(ts, b);
    NotBefore(rules, ts[1..], i, j, b);
    OtherTile(rules, ts[0], i, j, b);
    forall k | 0 <= k < |y| ensures !HeadIs((y + rest)[k..], r.to) {
      if |r.to| <= |(y + rest)[k..]| {
        assert (y + rest)[k..][..|r.to|][j] == (y + rest)[k + j];
        assert (y + rest)[k + j] == if k + j < |y| then y[k + j] else rest[k + j - |y|];
        assert (y + rest)[k + j] != b;
      }
    }
    PassOver(y, rest, r.to, r.from);
  }

  lemma OffMatch(ts: seq<Tile>, r: PropRule, i: nat)
    requires Active(r) && ts != [] && ts[0] == Put(r, i)
    ensures Subst(Now(ts), r.to, r.from) == r.from + Subst(Now(ts[1..]), r.to, r.from)
  {
    assert Now(ts)[..|r.to|] == r.to && Now(ts)[|r.to|..] == Now(ts[1..]);
  }

  lemma {:induction false} SwitchedOff(rules: seq<PropRule>, ts: seq<Tile>, i: nat, j: nat, b: bv8)
    requires i < |rules| && OwnByte(rules, i, j, b) && Tiled(rules, ts, i, |rules|) && b !in Was(ts) && Active(rules[i])
    ensures var us := TakenOut(ts, i);
            && Now(us) == Subst(Now(ts), rules[i].to, rules[i].from)
            && Was(us) == Was(ts) && Tiled(rules, us, i + 1, |rules|)
    decreases |ts|
  {
    hide Subst, Tiled, OwnByte, Kept;
    var r := rules[i];
    if ts == [] {
      NothingLeft(rules, r, i);
    } else {
      TiledTail(rules, ts, i, |rules|);
      NotInTail(ts, b);
      SwitchedOff(rules, ts[1..], i, j, b);
      var us := TakenOut(ts[1..], i);
      if ts[0].Put? && ts[0].i == i {
        OffMatch(ts, r, i);
        KeptIs(r.from, us);
        TiledKept(rules, r.from, us, i + 1);
      } else {
        OffMiss(rules, ts, i, j, b);
        HeadTile(ts[0], us);
        TiledJoin(rules, ts[0], us, i + 1, |rules|);
      }
    }
  }

  lemma NothingLeft(rules: seq<PropRule>, r: PropRule, i: nat)
    requires Active(r)
    ensures Subst([], r.to, r.from) == [] && Tiled(rules, [], i + 1, |rules|)
  {
  }

  lemma TiledKept(rules: seq<PropRule>, f: seq<bv8>, us: seq<Tile>, i: nat)
    requires Tiled(rules, us, i, |rules|)
    ensures Tiled(rules, Kept(f) + us, i, |rules|)
  {
  }

  lemma {:induction false} FirstPlaceOf(rules: seq<PropRule>, s: seq<bv8>, i: nat, b: bv8) returns (j: nat)
    requires i < |rules| && Marks(s, rules, i, b)
    ensures OwnByte(rules, i, j, b)
  {
    j := FirstPlace(rules[i].to, b);
  }

  lemma TiledLess(rules: seq<PropRule>, ts: seq<Tile>, i: nat)
    requires i < |rules| && Tiled(rules, ts, i, |rules|) && !Active(rules[i])
    ensures Tiled(rules, ts, i + 1, |rules|)
  {
    forall k | 0 <= k < |ts| ensures TileOf(rules, ts[k], i + 1, |rules|) {
      assert TileOf(rules, ts[k], i, |rules|);
    }
  }

  lemma {:induction false} AllOff(rules: seq<PropRule>, ts: seq<Tile>, i: nat, s: seq<bv8>)
    requires i <= |rules| && Tiled(rules, ts, i, |rules|) && Was(ts) == s
    requires forall k | 0 <= k < |rules| && Active(rules[k]) :: exists b :: Marks(s, rules, k, b)
    ensures ApplyRules(Now(ts), rules[i..], false) == s
    decreases |rules| - i
  {
    hide Subst, Marks, OwnByte, Tiled;
    if i == |rules| {
      AllKept(rules, ts, i);
    } else {
      assert rules[i..][0] == rules[i] && rules[i..][1..] == rules[i + 1..];
      var us := ts;
      if Active(rules[i]) {
        var b :| Marks(s, rules, i, b);
        MarkIsNew(rules, ts, i, b);
        var j := FirstPlaceOf(rules, s, i, b);
        SwitchedOff(rules, ts, i, j, b);
        us := TakenOut(ts, i);
      } else {
        TiledLess(rules, ts, i);
      }
      AllOff(rules, us, i + 1, s);
    }
  }

  lemma MarkIsNew(rules: seq<PropRule>, ts: seq<Tile>, i: nat, b: bv8)
    requires i < |rules| && Marks(Was(ts), rules, i, b)
    ensures b !in Was(ts)
  {
  }

  /** Rules that keep apart are undone, whatever the buffer holds and however many there
      are; old texts may share bytes. */
  lemma RulesUndo(s: seq<bv8>, rules: seq<PropRule>)
    requires Apart(s, rules)
    ensures Undone(s, rules) == s
  {
    hide Marks, Foreign, Subst;
    KeptIs(s, []);
    assert Kept(s) + [] == Kept(s);
    assert Was([]) == [] && Now([]) == [] && s + [] == s;
    assert rules[0..] == rules;
    var us := AllOn(rules, Kept(s), 0);
    AllOff(rules, us, 0, s);
  }

  // ----- two rules that chain

  lemma PairRuns(s: seq<bv8>, a: PropRule, b: PropRule, on: bool)
    ensures ApplyRules(s, [a, b], on) == ApplyRule(ApplyRule(s, a, on), b, on)
  {
    hide ApplyRule;
    assert [a, b][1..] == [b] && [b][1..] == [];
    assert ApplyRules(ApplyRule(s, a, on), [b], on) == ApplyRules(ApplyRule(ApplyRule(s, a, on), b, on), [], on);
  }

  /** Two rules that chain, the second rewriting what the first wrote, are undone exactly
      when the first has nothing to do: otherwise the middle text stays. */
  lemma ChainedPair(s: seq<bv8>, a: seq<bv8>, b: seq<bv8>, c: seq<bv8>)
    requires |a| == |b| == |c| > 0
    requires (exists x :: x in b && x !in s && x !in c) && (exists x :: x in c && x !in s)
    ensures Undone(s, [PropRule(a, b), PropRule(b, c)]) == Subst(s, a, b)
    ensures Undone(s, [PropRule(a, b), PropRule(b, c)]) == s <==> !Occurs(s, a)
  {
    var r1, r2 := PropRule(a, b), PropRule(b, c);
    var x :| x in b && x !in s && x !in c;
    var y :| y in c && y !in s;
    var i := FirstPlace(b, x);
    var j := FirstPlace(c, y);
    PairRuns(s, r1, r2, true);
    SubstTwice(s, a, b, c, i);
    var t := Subst(s, a, c);
    PairRuns(t, r1, r2, false);
    NewBytes(s, a, c);
    assert x !in t;
    NoMatch(t, b, a, x);
    SubstTwice(s, a, c, b, j);
    if a == b {
      SubstSame(s, a);
      NoMatch(s, a, c, x);
      Absent(s, a, x);
    } else {
      ChangesIf(s, a, b);
    }
  }

  lemma {:induction false} NewBytes(s: seq<bv8>, pat: seq<bv8>, rep: seq<bv8>)
    requires |pat| == |rep| > 0
    ensures forall x | x in Subst(s, pat, rep) :: x in s || x in rep
    decreases |s|
  {
    if |s| >= |pat| {
      if s[..|pat|] == pat {
        NewBytes(s[|pat|..], pat, rep);
      } else {
        NewBytes(s[1..], pat, rep);
      }
    }
  }

  lemma Absent(s: seq<bv8>, pat: seq<bv8>, x: bv8)
    requires x in pat && x !in s
    ensures !Occurs(s, pat)
  {
  }

  lemma NoMatch(s: seq<bv8>, pat: seq<bv8>, rep: seq<bv8>, x: bv8)
    requires |pat| == |rep| > 0 && x in pat && x !in s
    ensures Subst(s, pat, rep) == s
  {
    Absent(s, pat, x);
    if pat == rep {
      SubstSame(s, pat);
    } else {
      ChangesIf(s, pat, rep);
    }
  }

  /** Every chained pair leaves some buffer changed: its own first text. */
  lemma ChainedRulesStay(a: seq<bv8>, b: seq<bv8>, c: seq<bv8>)
    requires |a| == |b| == |c| > 0 && a != b && b != c
    ensures Undone(a, [PropRule(a, b), PropRule(b, c)]) == b != a
  {
    var r1, r2 := PropRule(a, b), PropRule(b, c);
    PairRuns(a, r1, r2, true);
    PairRuns(c, r1, r2, false);
    WholeBuffer(a, a, b);
    WholeBuffer(b, b, c);
    WholeBuffer(c, b, a);
    WholeBuffer(c, c, b);
  }

  lemma WholeBuffer(s: seq<bv8>, pat: seq<bv8>, rep: seq<bv8>)
    requires |s| == |pat| == |rep| > 0
    ensures Subst(s, pat, rep) == if s == pat then rep else s
  {
    assert s[..|pat|] == s && s[|pat|..] == [];
    assert s == [s[0]] + s[1..];
  }
}
