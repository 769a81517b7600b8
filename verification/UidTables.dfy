/** The tables between packages and uids, rebuilt from scratch or kept up step by step. */
module UidTables {
  import opened Base

  datatype UidEntry = UidEntry(pkg: string, cpu: bool, rfr: bool)

  /** No two packages share a uid. */
  predicate OneToOne(list: map<string, int>)
  {
    forall p, q | p in list && q in list && list[p] == list[q] :: p == q
  }

  const UID_LIMIT := 100000

  /** `pkg_to_uid_map`: the packages of the current user. */
  function OfUser(all: map<string, int>): map<string, int>
  {
    map p | p in all && 0 < all[p] < UID_LIMIT :: all[p]
  }

  /** Packages of the list stand in the whole list with the same uid. */
  predicate Within(list: map<string, int>, all: map<string, int>)
  {
    forall p | p in list :: p in all && all[p] == list[p]
  }

  predicate Wanted(pkg: string, cpu: set<string>, rfr: set<string>)
  {
    pkg in cpu || pkg in rfr
  }

  /** uid to entry, for the installed packages with CPU or refresh rules. */
  function Forward(list: map<string, int>, cpu: set<string>, rfr: set<string>): map<int, UidEntry>
    requires OneToOne(list)
  {
    map p | p in list && Wanted(p, cpu, rfr) :: list[p] := UidEntry(p, p in cpu, p in rfr)
  }

  function Reverse(list: map<string, int>, cpu: set<string>, rfr: set<string>): map<string, int>
  {
    map p | p in list && Wanted(p, cpu, rfr) :: list[p]
  }

  /** Both tables hold the listed packages that have CPU or refresh rules, and no others; the
      flags say which. */
  lemma TablesSay(list: map<string, int>, cpu: set<string>, rfr: set<string>, p: string, u: int)
    requires OneToOne(list)
    ensures var fwd, rev := Forward(list, cpu, rfr), Reverse(list, cpu, rfr);
            && (p in rev <==> p in list && (p in cpu || p in rfr)) && (p in rev ==> rev[p] == list[p])
            && (u in fwd && fwd[u].pkg == p <==> p in rev && rev[p] == u)
            && (u in fwd ==> (fwd[u].cpu <==> fwd[u].pkg in cpu) && (fwd[u].rfr <==> fwd[u].pkg in rfr))
  {
    var fwd := Forward(list, cpu, rfr);
    if p in list && Wanted(p, cpu, rfr) {
      assert list[p] in fwd;
    }
  }

  /** `build_uid_tables`; `order` is the order in which the package list is walked. */
  method BuildUidTables(list: map<string, int>, order: seq<string>, cpu: set<string>, rfr: set<string>)
    returns (fwd: map<int, UidEntry>, rev: map<string, int>)
    requires OneToOne(list) && (forall p :: p in order <==> p in list)
    ensures fwd == Forward(list, cpu, rfr) && rev == Reverse(list, cpu, rfr)
  {
    fwd, rev := map[], map[];
    for k := 0 to |order|
      invariant forall u :: u in fwd <==> exists i :: 0 <= i < k && Wanted(order[i], cpu, rfr) && list[order[i]] == u
      invariant forall u | u in fwd :: fwd[u].pkg in list && list[fwd[u].pkg] == u
                                       && fwd[u] == UidEntry(fwd[u].pkg, fwd[u].pkg in cpu, fwd[u].pkg in rfr)
      invariant forall p :: p in rev <==> p in order[..k] && Wanted(p, cpu, rfr)
      invariant forall p | p in rev :: p in list && rev[p] == list[p]
    {
      var pkg := order[k];
      assert pkg in order;
      var uid := list[pkg];
      assert order[..k + 1] == order[..k] + [pkg];
      if pkg in cpu || pkg in rfr {
        if uid !in fwd {
          fwd := fwd[uid := UidEntry(pkg, pkg in cpu, pkg in rfr)];
        }
        if pkg !in rev {
          rev := rev[pkg := uid];
        }
      }
    }
    assert order[..|order|] == order;
    ForwardIs(list, order, cpu, rfr, fwd);
  }

  lemma ForwardIs(list: map<string, int>, order: seq<string>, cpu: set<string>, rfr: set<string>, fwd: map<int, UidEntry>)
    requires OneToOne(list) && (forall p :: p in order <==> p in list)
    requires forall u :: u in fwd <==> exists i :: 0 <= i < |order| && Wanted(order[i], cpu, rfr) && list[order[i]] == u
    requires forall u | u in fwd :: fwd[u].pkg in list && list[fwd[u].pkg] == u
                                    && fwd[u] == UidEntry(fwd[u].pkg, fwd[u].pkg in cpu, fwd[u].pkg in rfr)
    ensures fwd == Forward(list, cpu, rfr)
  {
    var spec := Forward(list, cpu, rfr);
    forall u ensures u in fwd <==> u in spec {
      if u in fwd {
        var i :| 0 <= i < |order| && Wanted(order[i], cpu, rfr) && list[order[i]] == u;
        assert order[i] in list && list[order[i]] in spec;
      }
      if u in spec {
        var p :| p in list && Wanted(p, cpu, rfr) && list[p] == u;
        var i :| 0 <= i < |order| && order[i] == p;
        assert Wanted(order[i], cpu, rfr);
      }
    }
    forall u | u in fwd ensures fwd[u] == spec[u] {
      var i :| 0 <= i < |order| && Wanted(order[i], cpu, rfr) && list[order[i]] == u;
      assert order[i] in list && fwd[u].pkg == order[i];
    }
  }

  class UidState {
    var uidMap: map<int, UidEntry>
    var pkgUid: map<string, int>
    var cpuPkgs: set<string>
    var rfrPkgs: set<string>

    /** The tables are those of the package sets they were built for. */
    ghost predicate BuiltFrom(list: map<string, int>)
      requires OneToOne(list)
      reads this
    {
      uidMap == Forward(list, cpuPkgs, rfrPkgs) && pkgUid == Reverse(list, cpuPkgs, rfrPkgs)
    }

    constructor (list: map<string, int>, order: seq<string>, cpu: set<string>, rfr: set<string>)
      requires OneToOne(list) && (forall p :: p in order <==> p in list)
      ensures BuiltFrom(list) && cpuPkgs == cpu && rfrPkgs == rfr
    {
      var fwd, rev := BuildUidTables(list, order, cpu, rfr);
      uidMap, pkgUid, cpuPkgs, rfrPkgs := fwd, rev, cpu, rfr;
    }

    /** `rebuild_uid_if_needed`: the tables are brought up to date entry by entry, unless the
        flag and the sets say nothing changed. New packages are looked up in the whole
        list. `names` lists the new package sets. */
    method RebuildUidIfNeeded(cpuChanged: bool, ghost list: map<string, int>, all: map<string, int>,
                              nc: set<string>, nr: set<string>, names: seq<string>)
      requires OneToOne(all) && OneToOne(list) && Within(list, all) && BuiltFrom(list)
      requires forall p :: p in names <==> p in nc || p in nr
      modifies this
      ensures if (cpuChanged && nc != old(cpuPkgs)) || nr != old(rfrPkgs)
              then cpuPkgs == nc && rfrPkgs == nr && BuiltFrom(all)
              else cpuPkgs == old(cpuPkgs) && rfrPkgs == old(rfrPkgs) && BuiltFrom(list)
      ensures (nc != old(cpuPkgs) ==> cpuChanged) ==> cpuPkgs == nc && rfrPkgs == nr
    {
      if !(cpuChanged && nc != cpuPkgs) && nr == rfrPkgs {
        return;
      }
      uidMap := ForwardKept(list, all, cpuPkgs, rfrPkgs, uidMap, nc, nr, names);
      pkgUid := ReverseKept(list, all, cpuPkgs, rfrPkgs, pkgUid, uidMap, nc, nr);
      cpuPkgs, rfrPkgs := nc, nr;
    }
  }

  /** The forward half: flags refreshed, unwanted entries dropped, new packages looked up. */
  method ForwardKept(ghost list: map<string, int>, all: map<string, int>, ghost oc: set<string>, ghost or: set<string>, was: map<int, UidEntry>,
                     nc: set<string>, nr: set<string>, names: seq<string>) returns (m: map<int, UidEntry>)
    requires OneToOne(all) && OneToOne(list) && Within(list, all) && was == Forward(list, oc, or)
    requires forall p :: p in names <==> p in nc || p in nr
    ensures m == Forward(all, nc, nr)
  {
    m := map u | u in was && Wanted(was[u].pkg, nc, nr) :: UidEntry(was[u].pkg, was[u].pkg in nc, was[u].pkg in nr);
    KeptEntries(list, oc, or, nc, nr, m);
    EntriesWithin(list, all, nc, nr, m);
    var kept := m;
    var known := set u | u in kept :: kept[u].pkg;
    NoName(all, nc, nr, names, m);
    hide LookedUp, Entries, Forward, OneToOne, Within;
    for k := 0 to |names|
      invariant LookedUp(all, nc, nr, names, k, m) && Entries(all, nc, nr, kept) && kept.Keys <= m.Keys
    {
      var pkg := names[k];
      if pkg in known {
        KnownName(all, nc, nr, names, k, kept, m);
        continue;
      }
      if pkg in all {
        NewName(all, nc, nr, names, k, m);
        m := m[all[pkg] := UidEntry(pkg, pkg in nc, pkg in nr)];
      } else {
        NextName(all, nc, nr, names, k, m);
      }
    }
    EveryName(all, nc, nr, names, m);
  }

  /** The first k names are looked up. */
  ghost predicate LookedUp(all: map<string, int>, nc: set<string>, nr: set<string>, names: seq<string>, k: nat,
                           m: map<int, UidEntry>)
    requires k <= |names|
  {
    Entries(all, nc, nr, m) && forall i | 0 <= i < k && names[i] in all :: all[names[i]] in m
  }

  lemma NoName(all: map<string, int>, nc: set<string>, nr: set<string>, names: seq<string>, m: map<int, UidEntry>)
    requires Entries(all, nc, nr, m)
    ensures LookedUp(all, nc, nr, names, 0, m)
  {
  }

  lemma NextName(all: map<string, int>, nc: set<string>, nr: set<string>, names: seq<string>, k: nat,
                 m: map<int, UidEntry>)
    requires k < |names| && LookedUp(all, nc, nr, names, k, m)
    requires names[k] in all ==> all[names[k]] in m
    ensures LookedUp(all, nc, nr, names, k + 1, m)
  {
    hide Entries;
  }

  lemma KnownName(all: map<string, int>, nc: set<string>, nr: set<string>, names: seq<string>, k: nat,
                  kept: map<int, UidEntry>, m: map<int, UidEntry>)
    requires k < |names| && LookedUp(all, nc, nr, names, k, m) && Entries(all, nc, nr, kept) && kept.Keys <= m.Keys
    requires names[k] in set u | u in kept :: kept[u].pkg
    ensures LookedUp(all, nc, nr, names, k + 1, m)
  {
    hide LookedUp;
    var u :| u in kept && kept[u].pkg == names[k];
    assert u in m;
    NextName(all, nc, nr, names, k, m);
  }

  lemma NewName(all: map<string, int>, nc: set<string>, nr: set<string>, names: seq<string>, k: nat,
                m: map<int, UidEntry>)
    requires k < |names| && LookedUp(all, nc, nr, names, k, m)
    requires names[k] in all && Wanted(names[k], nc, nr)
    ensures LookedUp(all, nc, nr, names, k + 1, m[all[names[k]] := UidEntry(names[k], names[k] in nc, names[k] in nr)])
  {
    NewEntry(all, nc, nr, m, names[k]);
    hide Entries;
  }

  lemma EveryName(all: map<string, int>, nc: set<string>, nr: set<string>, names: seq<string>, m: map<int, UidEntry>)
    requires OneToOne(all) && LookedUp(all, nc, nr, names, |names|, m)
    requires forall p :: p in names <==> p in nc || p in nr
    ensures m == Forward(all, nc, nr)
  {
    hide Entries, OneToOne, Forward;
    forall p | Wanted(p, nc, nr) && p in all ensures all[p] in m {
      assert p in names;
      var i :| 0 <= i < |names| && names[i] == p;
    }
    EntriesAll(all, nc, nr, m);
  }

  /** The reverse half: dropped packages go, the rest is written anew. */
  method ReverseKept(ghost list: map<string, int>, ghost all: map<string, int>, ghost oc: set<string>, ghost or: set<string>, was: map<string, int>,
                     fwd: map<int, UidEntry>, nc: set<string>, nr: set<string>) returns (m: map<string, int>)
    requires OneToOne(all) && Within(list, all) && was == Reverse(list, oc, or) && fwd == Forward(all, nc, nr)
    ensures m == Reverse(all, nc, nr)
  {
    m := map p | p in was && Wanted(p, nc, nr) :: was[p];
    forall u | u in fwd ensures fwd[u].pkg in all && all[fwd[u].pkg] == u && Wanted(fwd[u].pkg, nc, nr) {
    }
    m := m + map u | u in fwd :: fwd[u].pkg := u;
    forall p ensures p in m <==> p in all && Wanted(p, nc, nr) {
      if p in all && Wanted(p, nc, nr) {
        assert all[p] in fwd && fwd[all[p]].pkg == p;
      }
    }
    ReverseIs(all, nc, nr, m);
  }

  /** Every entry is the one the package list asks for. */
  ghost predicate Entries(list: map<string, int>, nc: set<string>, nr: set<string>, m: map<int, UidEntry>)
  {
    forall u | u in m ::
      var p := m[u].pkg;
      p in list && list[p] == u && Wanted(p, nc, nr) && m[u] == UidEntry(p, p in nc, p in nr)
  }

  lemma KeptEntries(list: map<string, int>, oc: set<string>, or: set<string>, nc: set<string>, nr: set<string>,
                    kept: map<int, UidEntry>)
    requires OneToOne(list)
    requires var was := Forward(list, oc, or);
             kept == map u | u in was && Wanted(was[u].pkg, nc, nr) :: UidEntry(was[u].pkg, was[u].pkg in nc, was[u].pkg in nr)
    ensures Entries(list, nc, nr, kept)
  {
  }

  lemma EntriesWithin(list: map<string, int>, all: map<string, int>, nc: set<string>, nr: set<string>, m: map<int, UidEntry>)
    requires Within(list, all) && Entries(list, nc, nr, m)
    ensures Entries(all, nc, nr, m)
  {
  }

  lemma NewEntry(list: map<string, int>, nc: set<string>, nr: set<string>, m: map<int, UidEntry>, p: string)
    requires Entries(list, nc, nr, m) && p in list && Wanted(p, nc, nr)
    ensures Entries(list, nc, nr, m[list[p] := UidEntry(p, p in nc, p in nr)])
  {
  }

  lemma EntriesAll(list: map<string, int>, nc: set<string>, nr: set<string>, m: map<int, UidEntry>)
    requires OneToOne(list) && Entries(list, nc, nr, m)
    requires forall p | Wanted(p, nc, nr) && p in list :: list[p] in m
    ensures m == Forward(list, nc, nr)
  {
    var spec := Forward(list, nc, nr);
    forall u ensures u in m <==> u in spec {
    }
    forall u | u in m ensures m[u] == spec[u] {
      assert list[m[u].pkg] == u;
    }
  }

  lemma ReverseIs(list: map<string, int>, nc: set<string>, nr: set<string>, m: map<string, int>)
    requires forall p :: p in m <==> p in list && Wanted(p, nc, nr)
    requires forall p | p in m :: m[p] == list[p]
    ensures m == Reverse(list, nc, nr)
  {
  }

  /** What is kept up entry by entry equals what a rebuild gives exactly when no wanted
      package has a uid of another user: the rebuild leaves such packages out. */
  lemma KeptIsRebuilt(all: map<string, int>, nc: set<string>, nr: set<string>)
    requires OneToOne(all)
    ensures Within(OfUser(all), all) && OneToOne(OfUser(all))
    ensures (Forward(all, nc, nr) == Forward(OfUser(all), nc, nr) && Reverse(all, nc, nr) == Reverse(OfUser(all), nc, nr))
              <==> forall p | p in all && Wanted(p, nc, nr) :: 0 < all[p] < UID_LIMIT
  {
    hide Forward, Reverse, Wanted;
    if forall p | p in all && Wanted(p, nc, nr) :: 0 < all[p] < UID_LIMIT {
      AllOfUser(all, nc, nr);
    } else {
      var p :| p in all && Wanted(p, nc, nr) && !(0 < all[p] < UID_LIMIT);
      NotOfUser(all, nc, nr, p);
    }
  }

  lemma AllOfUser(all: map<string, int>, nc: set<string>, nr: set<string>)
    requires OneToOne(all) && OneToOne(OfUser(all))
    requires forall p | p in all && Wanted(p, nc, nr) :: 0 < all[p] < UID_LIMIT
    ensures Forward(all, nc, nr) == Forward(OfUser(all), nc, nr) && Reverse(all, nc, nr) == Reverse(OfUser(all), nc, nr)
  {
    hide Wanted, Forward, Entries, OneToOne;
    var user := OfUser(all);
    assert Reverse(all, nc, nr) == Reverse(user, nc, nr);
    ForwardEntries(user, nc, nr);
    hide Reverse;
    EntriesWithin(user, all, nc, nr, Forward(user, nc, nr));
    EntriesAll(all, nc, nr, Forward(user, nc, nr));
  }

  lemma ForwardEntries(list: map<string, int>, nc: set<string>, nr: set<string>)
    requires OneToOne(list)
    ensures Entries(list, nc, nr, Forward(list, nc, nr))
    ensures forall p | p in list && Wanted(p, nc, nr) :: list[p] in Forward(list, nc, nr)
  {
    hide Wanted;
  }

  lemma NotOfUser(all: map<string, int>, nc: set<string>, nr: set<string>, p: string)
    requires p in all && Wanted(p, nc, nr) && !(0 < all[p] < UID_LIMIT)
    ensures Reverse(all, nc, nr) != Reverse(OfUser(all), nc, nr)
  {
    hide Wanted;
    assert p in Reverse(all, nc, nr) && p !in Reverse(OfUser(all), nc, nr);
  }
}
