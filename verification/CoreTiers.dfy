/** `detect_core_types`: the CPUs sorted into tiers by the top frequency of their policy. */
module CoreTiers {
  import opened CpuSets

  /** One frequency policy as it is read; an unreadable frequency is 0. */
  datatype Policy = Policy(freq: nat, cpus: seq<nat>)
  datatype Group = Group(freq: nat, cpus: seq<nat>)
  datatype Tiers = Tiers(eCore: set<nat>, pCore: set<nat>, hpCore: set<nat>)

  /** Some policy runs the CPU at up to f. */
  predicate Offers(ps: seq<Policy>, f: nat, cpu: nat)
  {
    f != 0 && exists k :: 0 <= k < |ps| && ps[k].freq == f && cpu in ps[k].cpus
  }

  predicate Grouped(gs: seq<Group>, f: nat, cpu: nat)
  {
    exists k :: 0 <= k < |gs| && gs[k].freq == f && cpu in gs[k].cpus
  }

  ghost predicate Slowest(ps: seq<Policy>, f: nat)
  {
    forall g: nat, c: nat :: Offers(ps, g, c) ==> f <= g
  }

  ghost predicate Fastest(ps: seq<Policy>, f: nat)
  {
    forall g: nat, c: nat :: Offers(ps, g, c) ==> g <= f
  }

  /** What the three sets must be: the slowest frequency, the fastest if it is another
      one, and everything between. */
  ghost predicate AreTiers(ps: seq<Policy>, t: Tiers)
  {
    && (forall cpu: nat :: cpu in t.eCore <==> cpu < CPU_SETSIZE && exists f: nat :: Offers(ps, f, cpu) && Slowest(ps, f))
    && (forall cpu: nat :: cpu in t.hpCore <==> cpu < CPU_SETSIZE && exists f: nat :: Offers(ps, f, cpu) && Fastest(ps, f) && !Slowest(ps, f))
    && (forall cpu: nat :: cpu in t.pCore <==> cpu < CPU_SETSIZE && exists f: nat :: Offers(ps, f, cpu) && !Fastest(ps, f) && !Slowest(ps, f))
  }

  // ----- the groups

  ghost predicate GroupsOf(ps: seq<Policy>, gs: seq<Group>)
  {
    && (forall k | 0 <= k < |gs| :: gs[k].freq != 0 && gs[k].cpus != [])
    && (forall i, j | 0 <= i < j < |gs| :: gs[i].freq != gs[j].freq)
    && (forall f: nat, cpu: nat :: Grouped(gs, f, cpu) <==> Offers(ps, f, cpu))
  }

  function At(gs: seq<Group>, freq: nat): (k: nat)
    ensures k <= |gs| && (k < |gs| ==> gs[k].freq == freq) && forall j | 0 <= j < k :: gs[j].freq != freq
  {
    if gs == [] || gs[0].freq == freq then 0 else At(gs[1..], freq) + 1
  }

  lemma PolicyAdded(ps: seq<Policy>, p: Policy, f: nat, cpu: nat)
    ensures Offers(ps + [p], f, cpu) <==> Offers(ps, f, cpu) || (f != 0 && p.freq == f && cpu in p.cpus)
  {
    var qs := ps + [p];
    if Offers(ps, f, cpu) {
      var k :| 0 <= k < |ps| && ps[k].freq == f && cpu in ps[k].cpus;
      assert qs[k] == ps[k];
    }
    assert qs[|ps|] == p;
  }

  function GroupAdded(gs: seq<Group>, p: Policy): seq<Group>
  {
    var k := At(gs, p.freq);
    if k < |gs| then gs[k := Group(p.freq, gs[k].cpus + p.cpus)] else gs + [Group(p.freq, p.cpus)]
  }

  lemma GroupGrows(gs: seq<Group>, p: Policy, f: nat, cpu: nat)
    ensures Grouped(GroupAdded(gs, p), f, cpu) <==> Grouped(gs, f, cpu) || (p.freq == f && cpu in p.cpus)
  {
    var k, now := At(gs, p.freq), GroupAdded(gs, p);
    if Grouped(gs, f, cpu) {
      var i :| 0 <= i < |gs| && gs[i].freq == f && cpu in gs[i].cpus;
      assert now[i].freq == f && cpu in now[i].cpus;
    }
    if p.freq == f && cpu in p.cpus {
      assert now[k].freq == f && cpu in now[k].cpus;
    }
    if Grouped(now, f, cpu) {
      var i :| 0 <= i < |now| && now[i].freq == f && cpu in now[i].cpus;
      if i != k {
        assert gs[i] == now[i];
      } else if k < |gs| && cpu in gs[k].cpus {
        assert gs[k].freq == f;
      }
    }
  }

  lemma GroupsKept(ps: seq<Policy>, p: Policy, gs: seq<Group>)
    requires GroupsOf(ps, gs)
    ensures GroupsOf(ps + [p], if p.freq == 0 || p.cpus == [] then gs else GroupAdded(gs, p))
  {
    hide Offers, Grouped;
    var now := if p.freq == 0 || p.cpus == [] then gs else GroupAdded(gs, p);
    forall f: nat, cpu: nat ensures Grouped(now, f, cpu) <==> Offers(ps + [p], f, cpu) {
      PolicyAdded(ps, p, f, cpu);
      GroupGrows(gs, p, f, cpu);
      NoZero(ps, f, cpu);
    }
  }

  lemma NoZero(ps: seq<Policy>, f: nat, cpu: nat)
    ensures Offers(ps, f, cpu) ==> f != 0
  {
  }

  // ----- sorted by frequency

  predicate Rising(gs: seq<Group>)
  {
    forall i, j | 0 <= i < j < |gs| :: gs[i].freq < gs[j].freq
  }

  /** Puts one more group in its place, behind every slower one. */
  function Placed(gs: seq<Group>, g: Group): seq<Group>
  {
    if gs == [] then [g]
    else if g.freq < gs[0].freq then [g] + gs
    else [gs[0]] + Placed(gs[1..], g)
  }

  predicate Above(f: nat, gs: seq<Group>)
  {
    forall k | 0 <= k < |gs| :: f < gs[k].freq
  }

  lemma {:induction false} PlacedFacts(gs: seq<Group>, g: Group, f: nat)
    requires Rising(gs) && forall k | 0 <= k < |gs| :: gs[k].freq != g.freq
    ensures Rising(Placed(gs, g))
    ensures f < g.freq && Above(f, gs) ==> Above(f, Placed(gs, g))
    ensures forall x :: x in Placed(gs, g) <==> x in gs || x == g
  {
    if gs != [] && gs[0].freq <= g.freq {
      var rest := gs[1..];
      assert forall k | 0 <= k < |rest| :: rest[k] == gs[k + 1];
      PlacedFacts(rest, g, f);
      PlacedFacts(rest, g, gs[0].freq);
      assert gs == [gs[0]] + rest;
      hide Placed;
      RisingFront(gs[0], Placed(rest, g));
    }
  }

  lemma RisingFront(g: Group, gs: seq<Group>)
    requires Rising(gs) && Above(g.freq, gs)
    ensures Rising([g] + gs)
  {
  }

  lemma EmptyRises()
    ensures Rising([])
  {
  }

  method SortByFreq(gs: seq<Group>) returns (out: seq<Group>)
    requires forall i, j | 0 <= i < j < |gs| :: gs[i].freq != gs[j].freq
    ensures Rising(out) && forall x :: x in out <==> x in gs
  {
    hide Rising, Placed, Above;
    EmptyRises();
    out := [];
    for k := 0 to |gs|
      invariant Rising(out) && forall x :: x in out <==> x in gs[..k]
    {
      assert gs[..k + 1] == gs[..k] + [gs[k]];
      forall j | 0 <= j < |out| ensures out[j].freq != gs[k].freq {
        assert out[j] in out && out[j] in gs[..k];
      }
      PlacedFacts(out, gs[k], 0);
      out := Placed(out, gs[k]);
    }
    assert gs[..|gs|] == gs;
  }

  // ----- the tiers

  function Low(cpus: seq<nat>): set<nat>
  {
    set cpu | cpu in cpus && cpu < CPU_SETSIZE
  }

  ghost predicate Split(gs: seq<Group>, n: nat, t: Tiers)
    requires n <= |gs|
  {
    && (forall cpu: nat :: cpu in t.eCore <==> n > 0 && cpu in Low(gs[0].cpus))
    && (forall cpu: nat :: cpu in t.hpCore <==> n == |gs| && n > 1 && cpu in Low(gs[n - 1].cpus))
    && (forall cpu: nat :: cpu in t.pCore <==> exists k :: 0 < k < n && k < |gs| - 1 && cpu in Low(gs[k].cpus))
  }

  lemma SplitNext(gs: seq<Group>, n: nat, t: Tiers, next: Tiers)
    requires n < |gs| && Split(gs, n, t)
    requires next == if n == 0 then t.(eCore := t.eCore + Low(gs[0].cpus))
                     else if n == |gs| - 1 then t.(hpCore := t.hpCore + Low(gs[n].cpus))
                     else t.(pCore := t.pCore + Low(gs[n].cpus))
    ensures Split(gs, n + 1, next)
  {
    hide Low;
    forall cpu: nat ensures cpu in next.pCore <==> exists k :: 0 < k < n + 1 && k < |gs| - 1 && cpu in Low(gs[k].cpus) {
      if cpu in next.pCore && cpu !in t.pCore {
        assert cpu in Low(gs[n].cpus);
      }
    }
  }

  lemma GroupIn(gs: seq<Group>, out: seq<Group>, f: nat, cpu: nat)
    requires forall x :: x in out <==> x in gs
    ensures Grouped(out, f, cpu) <==> Grouped(gs, f, cpu)
  {
    if Grouped(out, f, cpu) {
      var k :| 0 <= k < |out| && out[k].freq == f && cpu in out[k].cpus;
      assert out[k] in gs;
    }
    if Grouped(gs, f, cpu) {
      var k :| 0 <= k < |gs| && gs[k].freq == f && cpu in gs[k].cpus;
      assert gs[k] in out;
    }
  }

  /** The ends of the sorted groups are the slowest and the fastest frequency. */
  lemma EndsOf(ps: seq<Policy>, gs: seq<Group>, k: nat)
    requires Rising(gs) && GroupsOf(ps, gs) && k < |gs|
    ensures Slowest(ps, gs[k].freq) <==> k == 0
    ensures Fastest(ps, gs[k].freq) <==> k == |gs| - 1
  {
    hide Offers;
    var n := |gs|;
    InGroup(ps, gs, 0, gs[0].cpus[0]);
    InGroup(ps, gs, n - 1, gs[n - 1].cpus[0]);
    forall g: nat, c: nat | Offers(ps, g, c) ensures gs[0].freq <= g <= gs[n - 1].freq {
      var i := AtGroup(ps, gs, g, c);
    }
  }

  lemma AtGroup(ps: seq<Policy>, gs: seq<Group>, f: nat, cpu: nat) returns (k: nat)
    requires GroupsOf(ps, gs) && Offers(ps, f, cpu)
    ensures k < |gs| && gs[k].freq == f && cpu in gs[k].cpus
  {
    assert Grouped(gs, f, cpu);
    k :| 0 <= k < |gs| && gs[k].freq == f && cpu in gs[k].cpus;
  }

  lemma InGroup(ps: seq<Policy>, gs: seq<Group>, k: nat, cpu: nat)
    requires GroupsOf(ps, gs) && k < |gs| && cpu in gs[k].cpus
    ensures Offers(ps, gs[k].freq, cpu)
  {
    assert Grouped(gs, gs[k].freq, cpu);
  }

  lemma SplitIsTiers(ps: seq<Policy>, gs: seq<Group>, t: Tiers)
    requires Rising(gs) && GroupsOf(ps, gs) && Split(gs, |gs|, t)
    ensures AreTiers(ps, t)
  {
    hide Offers, Slowest, Fastest, GroupsOf, Rising;
    forall k | 0 <= k < |gs|
      ensures (Slowest(ps, gs[k].freq) <==> k == 0) && (Fastest(ps, gs[k].freq) <==> k == |gs| - 1)
    {
      EndsOf(ps, gs, k);
    }
    forall k, cpu: nat | 0 <= k < |gs| && cpu in gs[k].cpus ensures Offers(ps, gs[k].freq, cpu) {
      InGroup(ps, gs, k, cpu);
    }
    forall f: nat, cpu: nat | Offers(ps, f, cpu) ensures exists k :: 0 <= k < |gs| && gs[k].freq == f && cpu in gs[k].cpus {
      var k := AtGroup(ps, gs, f, cpu);
    }
    assert forall k, cpu: nat | 0 <= k < |gs| :: cpu in Low(gs[k].cpus) <==> cpu in gs[k].cpus && cpu < CPU_SETSIZE;
    hide Low;
  }

  /** `policies` is what the directory listing gives, in its order. */
  method DetectCoreTypes(policies: seq<Policy>) returns (t: Tiers)
    ensures AreTiers(policies, t)
  {
    hide Offers, Grouped, Rising, Split, AreTiers;
    var groups := GroupPolicies(policies);
    var sorted := SortByFreq(groups);
    SortedGroups(policies, groups, sorted);
    t := Tiers({}, {}, {});
    StartSplit(sorted, t);
    for i := 0 to |sorted|
      invariant Split(sorted, i, t)
    {
      ghost var was := t;
      if i == 0 {
        t := t.(eCore := t.eCore + Low(sorted[i].cpus));
      } else if i == |sorted| - 1 {
        t := t.(hpCore := t.hpCore + Low(sorted[i].cpus));
      } else {
        t := t.(pCore := t.pCore + Low(sorted[i].cpus));
      }
      SplitNext(sorted, i, was, t);
    }
    SplitIsTiers(policies, sorted, t);
  }

  lemma StartSplit(gs: seq<Group>, t: Tiers)
    requires t == Tiers({}, {}, {})
    ensures Split(gs, 0, t)
  {
  }

  lemma SortedGroups(ps: seq<Policy>, gs: seq<Group>, out: seq<Group>)
    requires GroupsOf(ps, gs) && Rising(out) && forall x :: x in out <==> x in gs
    ensures GroupsOf(ps, out)
  {
    hide Offers, Grouped;
    forall f: nat, cpu: nat ensures Grouped(out, f, cpu) <==> Grouped(gs, f, cpu) {
      GroupIn(gs, out, f, cpu);
    }
    forall k | 0 <= k < |out| ensures out[k].freq != 0 && out[k].cpus != [] {
      assert out[k] in gs;
    }
  }

  method GroupPolicies(policies: seq<Policy>) returns (groups: seq<Group>)
    ensures GroupsOf(policies, groups)
  {
    hide GroupsOf;
    groups := [];
    NoGroups();
    for k := 0 to |policies|
      invariant GroupsOf(policies[..k], groups)
    {
      var p := policies[k];
      assert policies[..k + 1] == policies[..k] + [p];
      GroupsKept(policies[..k], p, groups);
      if p.freq == 0 || p.cpus == [] {
        continue;
      }
      var i := At(groups, p.freq);
      if i < |groups| {
        groups := groups[i := Group(p.freq, groups[i].cpus + p.cpus)];
      } else {
        groups := groups + [Group(p.freq, p.cpus)];
      }
    }
    assert policies[..|policies|] == policies;
  }

  lemma NoGroups()
    ensures GroupsOf([], [])
  {
  }

  // ----- what the tiers are good for

  /** When every CPU has one frequency, no CPU is in two tiers, none is lost, and the
      tiers are ordered by speed. */
  lemma TiersPartition(ps: seq<Policy>, t: Tiers)
    requires AreTiers(ps, t) && forall f: nat, g: nat, c: nat :: Offers(ps, f, c) && Offers(ps, g, c) ==> f == g
    ensures t.eCore !! t.pCore !! t.hpCore
    ensures forall c: nat :: c in t.eCore + t.pCore + t.hpCore <==> c < CPU_SETSIZE && exists f: nat :: Offers(ps, f, c)
    ensures forall c: nat, d: nat, f: nat, g: nat :: c in t.eCore && d in t.pCore && Offers(ps, f, c) && Offers(ps, g, d) ==> f < g
    ensures forall c: nat, d: nat, f: nat, g: nat :: c in t.pCore && d in t.hpCore && Offers(ps, f, c) && Offers(ps, g, d) ==> f < g
  {
    hide Offers;
    forall c: nat, d: nat, f: nat, g: nat | c in t.eCore && d in t.pCore && Offers(ps, f, c) && Offers(ps, g, d) ensures f < g {
      assert Slowest(ps, f) && !Slowest(ps, g);
    }
    forall c: nat, d: nat, f: nat, g: nat | c in t.pCore && d in t.hpCore && Offers(ps, f, c) && Offers(ps, g, d) ensures f < g {
      assert Fastest(ps, g) && !Fastest(ps, f);
    }
  }

  /** The order of the directory listing does not matter. */
  lemma ListingOrder(a: seq<Policy>, b: seq<Policy>, t: Tiers, u: Tiers)
    requires (forall p :: p in a <==> p in b) && AreTiers(a, t) && AreTiers(b, u)
    ensures t == u
  {
    forall f: nat, cpu: nat ensures Offers(a, f, cpu) <==> Offers(b, f, cpu) {
      SameOffers(a, b, f, cpu);
      SameOffers(b, a, f, cpu);
    }
    SameTiers(a, b, t, u);
  }

  lemma SameOffers(a: seq<Policy>, b: seq<Policy>, f: nat, cpu: nat)
    requires forall p :: p in a ==> p in b
    ensures Offers(a, f, cpu) ==> Offers(b, f, cpu)
  {
    if Offers(a, f, cpu) {
      var k :| 0 <= k < |a| && a[k].freq == f && cpu in a[k].cpus;
      assert a[k] in b;
    }
  }

  lemma SameTiers(a: seq<Policy>, b: seq<Policy>, t: Tiers, u: Tiers)
    requires (forall f: nat, cpu: nat :: Offers(a, f, cpu) <==> Offers(b, f, cpu)) && AreTiers(a, t) && AreTiers(b, u)
    ensures t == u
  {
    hide Offers;
    forall f: nat ensures (Slowest(a, f) <==> Slowest(b, f)) && (Fastest(a, f) <==> Fastest(b, f)) {
    }
    hide Slowest, Fastest;
    assert t.eCore == u.eCore && t.pCore == u.pCore && t.hpCore == u.hpCore;
  }
}
