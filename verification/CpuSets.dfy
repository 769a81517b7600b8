/** CPU sets of 1024 bits in 16 words, and the text of their ranges. A word is modelled
    by the set of its one bits. */
module CpuSets {
  import opened Base

  const CPU_WORD_BITS := 64
  const CPU_WORDS := 16
  const CPU_SETSIZE := 1024

  // ----- maximal runs

  datatype Range = Range(lo: nat, hi: nat)

  /** The runs of consecutive CPUs of S below n. */
  function Runs(S: set<nat>, n: nat): seq<Range>
  {
    if n == 0 then []
    else
      var rs := Runs(S, n - 1);
      if n - 1 !in S then rs
      else if rs != [] && rs[|rs| - 1].hi + 1 == n - 1 then rs[|rs| - 1 := Range(rs[|rs| - 1].lo, n - 1)]
      else rs + [Range(n - 1, n - 1)]
  }

  predicate Covers(rs: seq<Range>, cpu: nat)
  {
    exists k :: 0 <= k < |rs| && rs[k].lo <= cpu <= rs[k].hi
  }

  predicate Below(rs: seq<Range>, n: nat)
  {
    forall k | 0 <= k < |rs| :: rs[k].hi < n
  }

  /** Sorted, disjoint, and with a gap between any two. */
  predicate Separated(rs: seq<Range>)
  {
    && (forall k | 0 <= k < |rs| :: rs[k].lo <= rs[k].hi)
    && (forall j, k | 0 <= j < k < |rs| :: rs[j].hi + 1 < rs[k].lo)
  }

  /** The runs are separated ranges that cover exactly the set. */
  lemma {:induction false} RunsAreMaximal(S: set<nat>, n: nat)
    ensures Separated(Runs(S, n)) && Below(Runs(S, n), n)
    ensures forall cpu: nat :: Covers(Runs(S, n), cpu) <==> cpu < n && cpu in S
  {
    hide Covers, Separated, Below, Runs;
    if n == 0 {
      NoRuns(S);
    } else {
      RunsAreMaximal(S, n - 1);
      RunsNext(S, n - 1);
      forall cpu: nat ensures Covers(Runs(S, n), cpu) <==> cpu < n && cpu in S {
        RunsNextCovers(S, n - 1, cpu);
      }
    }
  }

  lemma NoRuns(S: set<nat>)
    ensures Runs(S, 0) == [] && Separated(Runs(S, 0)) && Below(Runs(S, 0), 0) && forall cpu: nat :: !Covers(Runs(S, 0), cpu)
  {
  }

  lemma RunsNext(S: set<nat>, n: nat)
    requires Separated(Runs(S, n)) && Below(Runs(S, n), n)
    ensures Separated(Runs(S, n + 1)) && Below(Runs(S, n + 1), n + 1)
  {
  }

  lemma RunsNextCovers(S: set<nat>, n: nat, cpu: nat)
    requires Separated(Runs(S, n))
    ensures Covers(Runs(S, n + 1), cpu) <==> Covers(Runs(S, n), cpu) || (cpu == n && n in S)
  {
    if n in S {
      hide Separated, Covers;
      NextRun(S, n);
      GrownCovers(Runs(S, n), Runs(S, n + 1), n, cpu);
    }
  }

  /** Ranges with n taken in: one range longer by n, or n alone behind the others. */
  predicate Grown(rs: seq<Range>, more: seq<Range>, n: nat)
  {
    && more != [] && |rs| <= |more| && more[|more| - 1].lo <= n == more[|more| - 1].hi
    && (forall k | 0 <= k < |rs| :: more[k].lo == rs[k].lo && rs[k].hi <= more[k].hi)
    && (forall k | 0 <= k < |more| ::
          more[k] == Range(n, n) || (k < |rs| && (more[k] == rs[k] || more[k].hi == n == rs[k].hi + 1)))
  }

  lemma NextRun(S: set<nat>, n: nat)
    requires Separated(Runs(S, n)) && n in S
    ensures Grown(Runs(S, n), Runs(S, n + 1), n)
  {
  }

  lemma GrownCovers(rs: seq<Range>, more: seq<Range>, n: nat, cpu: nat)
    requires Grown(rs, more, n)
    ensures Covers(more, cpu) <==> Covers(rs, cpu) || cpu == n
  {
    if Covers(rs, cpu) {
      var k :| 0 <= k < |rs| && rs[k].lo <= cpu <= rs[k].hi;
      assert more[k].lo <= cpu <= more[k].hi;
    }
    if Covers(more, cpu) && cpu != n {
      var k :| 0 <= k < |more| && more[k].lo <= cpu <= more[k].hi;
      assert rs[k].lo <= cpu <= rs[k].hi;
    }
  }

  /** There is only one such list. */
  lemma {:induction false} SeparatedIsUnique(a: seq<Range>, b: seq<Range>)
    requires Separated(a) && Separated(b) && forall cpu: nat :: Covers(a, cpu) <==> Covers(b, cpu)
    ensures a == b
  {
    HeadCovered(a);
    HeadCovered(b);
    if a != [] && b != [] {
      SameHead(a, b);
      forall cpu: nat ensures Covers(a[1..], cpu) <==> Covers(b[1..], cpu) {
        TailCovers(a, cpu);
        TailCovers(b, cpu);
      }
      SeparatedIsUnique(a[1..], b[1..]);
      assert a == [a[0]] + a[1..] && b == [b[0]] + b[1..];
    }
  }

  lemma HeadCovered(a: seq<Range>)
    requires Separated(a)
    ensures a != [] ==> Covers(a, a[0].lo) && !Covers(a, a[0].hi + 1)
    ensures a != [] ==> forall cpu: nat | a[0].lo <= cpu <= a[0].hi :: Covers(a, cpu)
    ensures a != [] ==> forall cpu: nat | Covers(a, cpu) :: a[0].lo <= cpu
  {
  }

  lemma TailCovers(a: seq<Range>, cpu: nat)
    requires Separated(a) && a != []
    ensures Covers(a[1..], cpu) <==> Covers(a, cpu) && cpu > a[0].hi
  {
    if Covers(a[1..], cpu) {
      var k :| 0 <= k < |a| - 1 && a[1..][k].lo <= cpu <= a[1..][k].hi;
      assert a[k + 1].lo <= cpu <= a[k + 1].hi;
    }
    if Covers(a, cpu) && cpu > a[0].hi {
      var k :| 0 <= k < |a| && a[k].lo <= cpu <= a[k].hi;
      assert a[1..][k - 1].lo <= cpu <= a[1..][k - 1].hi;
    }
  }

  lemma SameHead(a: seq<Range>, b: seq<Range>)
    requires Separated(a) && Separated(b) && a != [] && b != []
    requires forall cpu: nat :: Covers(a, cpu) <==> Covers(b, cpu)
    ensures a[0] == b[0]
  {
    hide Covers;
    HeadCovered(a);
    HeadCovered(b);
    assert a[0].lo == b[0].lo;
    assert a[0].hi == b[0].hi by {
      assert !Covers(a, a[0].hi + 1) && !Covers(b, a[0].hi + 1);
      assert !Covers(b, b[0].hi + 1) && !Covers(a, b[0].hi + 1);
    }
  }

  // ----- the printed text

  function Digit(d: nat): char
    requires d < 10
  {
    ('0' as int + d) as char
  }

  /** Decimal digits. */
  function Decimal(n: nat): (s: string)
    ensures s != ""
  {
    if n < 10 then [Digit(n)] else Decimal(n / 10) + [Digit(n % 10)]
  }

  function RangeText(r: Range): string
  {
    if r.lo == r.hi then Decimal(r.lo) else Decimal(r.lo) + "-" + Decimal(r.hi)
  }

  function RangesText(rs: seq<Range>): string
  {
    if rs == [] then ""
    else if |rs| == 1 then RangeText(rs[0])
    else RangesText(rs[..|rs| - 1]) + "," + RangeText(rs[|rs| - 1])
  }

  // ----- the class

  class CpuSet {
    const bits: array<set<nat>>

    ghost predicate Valid()
      reads this, bits
    {
      bits.Length == CPU_WORDS && forall w | 0 <= w < CPU_WORDS :: forall b | b in bits[w] :: b < CPU_WORD_BITS
    }

    /** The CPUs in the set. */
    ghost function Members(): (s: set<nat>)
      requires Valid()
      reads this, bits
      ensures forall cpu | cpu in s :: cpu < CPU_SETSIZE
    {
      set cpu: nat | cpu < CPU_SETSIZE && cpu % CPU_WORD_BITS in bits[cpu / CPU_WORD_BITS]
    }

    constructor ()
      ensures Valid() && fresh(bits) && Members() == {}
    {
      bits := new set<nat>[CPU_WORDS](_ => {});
    }

    method Set(cpu: nat)
      requires Valid()
      modifies bits
      ensures Valid() && Members() == old(Members()) + (if cpu < CPU_SETSIZE then {cpu} else {})
    {
      if cpu < CPU_SETSIZE {
        bits[cpu / CPU_WORD_BITS] := bits[cpu / CPU_WORD_BITS] + {cpu % CPU_WORD_BITS};
        forall c: nat | c < CPU_SETSIZE && c / CPU_WORD_BITS == cpu / CPU_WORD_BITS && c % CPU_WORD_BITS == cpu % CPU_WORD_BITS
          ensures c == cpu
        {
        }
      }
    }

    predicate IsSet(cpu: nat)
      requires Valid()
      reads this, bits
      ensures IsSet(cpu) <==> cpu in Members()
    {
      cpu < CPU_SETSIZE && cpu % CPU_WORD_BITS in bits[cpu / CPU_WORD_BITS]
    }

    method Or(other: CpuSet)
      requires Valid() && other.Valid() && bits != other.bits
      modifies bits
      ensures Valid() && Members() == old(Members()) + other.Members()
    {
      for w := 0 to CPU_WORDS
        invariant bits.Length == CPU_WORDS
        invariant forall k | 0 <= k < CPU_WORDS :: bits[k] == if k < w then old(bits[k]) + other.bits[k] else old(bits[k])
      {
        bits[w] := bits[w] + other.bits[w];
      }
    }

    method Count() returns (n: nat)
      requires Valid()
      ensures n == |Members()|
    {
      n := 0;
      for w := 0 to CPU_WORDS
        invariant n == |MembersBelow(w)|
      {
        WordCount(w);
        n := n + |bits[w]|;
      }
      assert MembersBelow(CPU_WORDS) == Members();
    }

    ghost function MembersBelow(w: nat): set<nat>
      requires Valid() && w <= CPU_WORDS
      reads this, bits
    {
      set cpu: nat | cpu < w * CPU_WORD_BITS && cpu % CPU_WORD_BITS in bits[cpu / CPU_WORD_BITS]
    }

    lemma WordCount(w: nat)
      requires Valid() && w < CPU_WORDS
      ensures |MembersBelow(w + 1)| == |MembersBelow(w)| + |bits[w]|
    {
      var word := set b | b in bits[w] :: w * CPU_WORD_BITS + b;
      assert MembersBelow(w + 1) == MembersBelow(w) + word;
      ShiftedCount(bits[w], w * CPU_WORD_BITS);
    }

    /** `to_range_string`. */
    method ToRangeString() returns (result: string)
      requires Valid()
      ensures result == RangesText(Runs(Members(), CPU_SETSIZE))
    {
      hide Runs, RangesText;
      ghost var S := Members();
      result := "";
      var start: Option<nat>, end: Option<nat>, first := None, None, true;
      ghost var done: seq<Range> := [];
      NothingPrinted(S);
      for w := 0 to CPU_WORDS
        invariant Printed(S, w * CPU_WORD_BITS, result, start, end, first, done)
      {
        var word := bits[w];
        var base := w * CPU_WORD_BITS;
        if word == {} {
          EmptyWord(w);
          if start.Some? {
            result, first := PushRange(result, start, end, first, done);
            done := done + [Range(start.value, end.value)];
            start, end := None, None;
          }
          continue;
        }
        for bit := 0 to CPU_WORD_BITS
          invariant Printed(S, base + bit, result, start, end, first, done)
        {
          BitAt(w, bit);
          NextCpu(S, base + bit, result, start, end, first, done);
          if bit in word {
            var cpu := base + bit;
            if start.None? {
              start, end := Some(cpu), Some(cpu);
            } else if end.Some? && cpu == end.value + 1 {
              end := Some(cpu);
            } else {
              result, first := PushRange(result, start, end, first, done);
              done := done + [Range(start.value, end.value)];
              start, end := Some(cpu), Some(cpu);
            }
          }
        }
      }
      result, first := PushRange(result, start, end, first, done);
    }

    /** An empty word adds nothing, and keeps later CPUs away from earlier ranges. */
    lemma EmptyWord(w: nat)
      requires Valid() && w < CPU_WORDS && bits[w] == {}
      ensures Runs(Members(), (w + 1) * CPU_WORD_BITS) == Runs(Members(), w * CPU_WORD_BITS)
      ensures Below(Runs(Members(), w * CPU_WORD_BITS), w * CPU_WORD_BITS)
    {
      var S := Members();
      forall cpu | w * CPU_WORD_BITS <= cpu < (w + 1) * CPU_WORD_BITS ensures cpu !in S {
        assert cpu / CPU_WORD_BITS == w;
      }
      SameRuns(S, w * CPU_WORD_BITS, (w + 1) * CPU_WORD_BITS);
      RunsAreMaximal(S, w * CPU_WORD_BITS);
    }

    lemma BitAt(w: nat, bit: nat)
      requires Valid() && w < CPU_WORDS && bit < CPU_WORD_BITS
      ensures w * CPU_WORD_BITS + bit in Members() <==> bit in bits[w]
    {
    }
  }

  lemma {:induction false} ShiftedCount(word: set<nat>, base: nat)
    ensures |set b | b in word :: base + b| == |word|
  {
    if word != {} {
      var x :| x in word;
      ShiftedCount(word - {x}, base);
      assert word == (word - {x}) + {x};
      var rest := set b | b in word - {x} :: base + b;
      assert (set b | b in word :: base + b) == rest + {base + x};
      assert base + x !in rest;
    }
  }

  /** The printer after the CPUs below n: the ranges done, and the open one. */
  ghost predicate Printed(S: set<nat>, n: nat, result: string, start: Option<nat>, end: Option<nat>, first: bool,
                          done: seq<Range>)
  {
    && result == RangesText(done) && (first <==> done == []) && (start.Some? <==> end.Some?)
    && Runs(S, n) == done + (if start.Some? && end.Some? then [Range(start.value, end.value)] else [])
    && (start.None? && done != [] ==> done[|done| - 1].hi + 1 < n || n == 0)
  }

  lemma NothingPrinted(S: set<nat>)
    ensures Printed(S, 0, "", None, None, true, [])
  {
  }

  /** One CPU further. */
  lemma NextCpu(S: set<nat>, n: nat, result: string, start: Option<nat>, end: Option<nat>, first: bool, done: seq<Range>)
    requires Printed(S, n, result, start, end, first, done)
    ensures n !in S ==> Printed(S, n + 1, result, start, end, first, done)
    ensures n in S && start.None? ==> Printed(S, n + 1, result, Some(n), Some(n), first, done)
    ensures n in S && start.Some? && n == end.value + 1 ==> Printed(S, n + 1, result, start, Some(n), first, done)
    ensures n in S && start.Some? && n != end.value + 1 ==>
              var more := done + [Range(start.value, end.value)];
              Printed(S, n + 1, RangesText(more), Some(n), Some(n), false, more)
  {
    hide RangesText;
    assert done + [] == done;
  }

  method PushRange(s: string, start: Option<nat>, end: Option<nat>, first: bool, ghost done: seq<Range>)
    returns (out: string, still: bool)
    requires s == RangesText(done) && (first <==> done == []) && (start.Some? <==> end.Some?)
    ensures out == RangesText(done + if start.Some? then [Range(start.value, end.value)] else [])
    ensures still <==> first && start.None?
  {
    out, still := s, first;
    assert done + [] == done;
    if start.Some? && end.Some? {
      var lo, hi := start.value, end.value;
      if !first {
        out := out + ",";
      }
      out := out + (if lo == hi then Decimal(lo) else Decimal(lo) + "-" + Decimal(hi));
      still := false;
      assert (done + [Range(lo, hi)])[..|done|] == done;
      assert out == (if done == [] then "" else s + ",") + RangeText(Range(lo, hi));
    }
  }

  lemma {:induction false} SameRuns(S: set<nat>, a: nat, b: nat)
    requires a <= b && forall cpu | a <= cpu < b :: cpu !in S
    ensures Runs(S, b) == Runs(S, a)
    decreases b
  {
    if a < b {
      SameRuns(S, a, b - 1);
    }
  }
}
