/** The kernel's filter on task names and the keys it is given. Names are byte strings of
    16 characters; only ASCII is modelled. */
module KernelFilter {
  import opened Base
  import opened Text

  const COMM_LEN := 16
  const KEY_LEN := 8

  function Zeros(n: nat): (z: string)
    ensures |z| == n
  {
    seq(n, _ => '\0')
  }

  // ----- the keys

  function PrefixKey(pkg: string): (k: string)
    ensures |k| == KEY_LEN
  {
    if |pkg| >= KEY_LEN then pkg[..KEY_LEN] else pkg + Zeros(KEY_LEN - |pkg|)
  }

  function SuffixKey(pkg: string): string
    requires |pkg| > KEY_LEN
  {
    pkg[|pkg| - KEY_LEN..]
  }

  predicate KeyOf(pkg: string, key: string)
  {
    pkg != "" && (key == PrefixKey(pkg) || (|pkg| > KEY_LEN && key == SuffixKey(pkg)))
  }

  /** A name's keys are its first eight characters, filled up with NUL, and if it is longer
      its last eight. */
  lemma KeysAre(pkg: string, key: string)
    requires pkg != ""
    ensures KeyOf(pkg, key) <==>
              && |key| == 8
              && ((forall i | 0 <= i < 8 :: key[i] == if i < |pkg| then pkg[i] else '\0') || (|pkg| > 8 && key == pkg[|pkg| - 8..]))
  {
  }

  /** `comm_keys_build`; its sorted list without duplicates is a set here. */
  method CommKeysBuild(pkgs: seq<string>) returns (entries: set<string>)
    ensures forall key :: key in entries <==> exists k :: 0 <= k < |pkgs| && KeyOf(pkgs[k], key)
  {
    entries := {};
    for k := 0 to |pkgs|
      invariant forall key :: key in entries <==> exists i :: 0 <= i < k && KeyOf(pkgs[i], key)
    {
      var bytes := pkgs[k];
      if bytes == "" {
        continue;
      }
      var prefix := new char[KEY_LEN](_ => '\0');
      var len := if |bytes| < KEY_LEN then |bytes| else KEY_LEN;
      for i := 0 to len
        invariant forall j | 0 <= j < KEY_LEN :: prefix[j] == if j < i then bytes[j] else '\0'
      {
        prefix[i] := bytes[i];
      }
      assert prefix[..] == PrefixKey(bytes);
      entries := entries + {prefix[..]};
      if |bytes| > KEY_LEN {
        entries := entries + {bytes[|bytes| - KEY_LEN..]};
      }
    }
  }

  // ----- the filter

  predicate Window(comm: string, keys: set<string>, pos: nat)
  {
    pos + KEY_LEN <= |comm| && comm[pos..pos + KEY_LEN] in keys
  }

  /** Some window of eight characters is a key. */
  predicate Whitelisted(comm: string, keys: set<string>)
  {
    exists pos: nat :: pos <= COMM_LEN - KEY_LEN && Window(comm, keys, pos)
  }

  method WhitelistMatched(comm: string, keys: set<string>) returns (hit: bool)
    requires |comm| == COMM_LEN
    ensures hit == Whitelisted(comm, keys)
  {
    for pos := 0 to COMM_LEN - KEY_LEN + 1
      invariant forall p: nat | p < pos :: !Window(comm, keys, p)
    {
      if comm[pos..pos + KEY_LEN] in keys {
        assert Window(comm, keys, pos);
        return true;
      }
    }
    return false;
  }

  // ----- the user side

  /** `comm_str`: the name up to the first NUL, trimmed. */
  function CommStr(comm: string): string
  {
    var end := Find(comm, '\0');
    Trim(if end < 0 then comm else comm[..end])
  }

  predicate EndsWith(s: string, p: string)
  {
    |p| <= |s| && s[|s| - |p|..] == p
  }

  function FirstWith(pkgs: seq<string>, fits: string -> bool): Option<string>
  {
    if pkgs == [] then None
    else if fits(pkgs[0]) then Some(pkgs[0])
    else FirstWith(pkgs[1..], fits)
  }

  /** `comm_to_pkg`, for one order in which the set of package names is enumerated. */
  function CommToPkg(comm: string, pkgs: seq<string>): Option<string>
  {
    if comm in pkgs then Some(comm)
    else if |comm| < COMM_LEN - 1 then None
    else
      var front := FirstWith(pkgs, p => StartsWith(p, comm));
      if front.Some? then front else FirstWith(pkgs, p => EndsWith(p, comm))
  }

  lemma {:induction false} FirstWithIs(pkgs: seq<string>, fits: string -> bool)
    ensures var r := FirstWith(pkgs, fits);
            if r.Some? then r.value in pkgs && fits(r.value) else forall p | p in pkgs :: !fits(p)
  {
    if pkgs != [] && !fits(pkgs[0]) {
      FirstWithIs(pkgs[1..], fits);
    }
  }

  /** A resolved name is a package's name, or at least 15 characters of its start or end. */
  lemma Resolved(comm: string, pkgs: seq<string>)
    requires CommToPkg(comm, pkgs).Some?
    ensures var p := CommToPkg(comm, pkgs).value;
            p in pkgs && (p == comm || (|comm| >= COMM_LEN - 1 && (StartsWith(p, comm) || EndsWith(p, comm))))
  {
    FirstWithIs(pkgs, p => StartsWith(p, comm));
    FirstWithIs(pkgs, p => EndsWith(p, comm));
  }

  /** The name is what is left of p when only its first or only its last characters fit. */
  predicate CutFrom(p: string, comm: string)
  {
    15 <= |comm| <= |p| && (p[..|comm|] == comm || p[|p| - |comm|..] == comm)
  }

  /** A name resolves if and only if it is a package, or a package cut short at either end
      to at least 15 characters. A package of that very name wins over all others, and one
      that starts with the name over one that only ends with it. */
  lemma ResolvesIff(comm: string, pkgs: seq<string>)
    ensures var r := CommToPkg(comm, pkgs);
            && (r.Some? <==> exists p :: p in pkgs && (p == comm || CutFrom(p, comm)))
            && (r.Some? ==> r.value in pkgs && (r.value == comm || CutFrom(r.value, comm)))
            && (comm in pkgs ==> r == Some(comm))
            && (comm !in pkgs && r.Some? && (exists p :: p in pkgs && comm <= p) ==> comm <= r.value)
  {
    FirstWithIs(pkgs, p => StartsWith(p, comm));
    FirstWithIs(pkgs, p => EndsWith(p, comm));
  }

  /** Package names are neither empty nor do they hold white space or NUL. */
  predicate PlainName(p: string)
  {
    p != "" && forall i | 0 <= i < |p| :: !IsWs(p[i]) && p[i] != '\0'
  }

  /** The keys are those of the packages. */
  ghost predicate KeysOf(keys: set<string>, pkgs: seq<string>)
  {
    && (forall p | p in pkgs :: PlainName(p))
    && forall key :: key in keys <==> exists p :: p in pkgs && KeyOf(p, key)
  }

  /** A task name as the kernel holds it. */
  function Padded(name: string): string
    requires |name| <= COMM_LEN
  {
    name + Zeros(COMM_LEN - |name|)
  }

  /** Where the trimmed name ends, and how many blanks stand before it. */
  predicate Passing(lead: string, t: string, trail: string)
  {
    |t| >= KEY_LEN || (trail == "" && |lead| <= COMM_LEN - KEY_LEN)
  }

  lemma PartsPass(lead: string, t: string, trail: string, pkgs: seq<string>, keys: set<string>)
    requires Blank(lead) && Blank(trail) && Trimmed(t) && |lead + t + trail| <= COMM_LEN && '\0' !in lead + t + trail
    requires KeysOf(keys, pkgs) && CommToPkg(CommStr(Padded(lead + t + trail)), pkgs).Some?
    ensures CommStr(Padded(lead + t + trail)) == t
    ensures Whitelisted(Padded(lead + t + trail), keys) <==> Passing(lead, t, trail)
  {
    hide CommStr, Trim, CommToPkg, Whitelisted, Padded, KeysOf;
    NameOf(lead + t + trail);
    TrimIs(lead, t, trail);
    if Passing(lead, t, trail) {
      Passes(lead, t, trail, pkgs, keys);
    } else {
      Stopped(lead, t, trail, pkgs, keys);
    }
  }

  /** A name that the user side resolves to a package gets through the kernel's filter
      exactly when, trimmed, it fills a window, or has no blank behind it and at most eight
      before it. */
  lemma FilterPasses(name: string, pkgs: seq<string>, keys: set<string>)
    requires |name| <= COMM_LEN && '\0' !in name && KeysOf(keys, pkgs)
    requires CommToPkg(CommStr(Padded(name)), pkgs).Some?
    ensures name != ""
    ensures Whitelisted(Padded(name), keys) <==>
              |Trim(name)| >= KEY_LEN || (!IsWs(name[|name| - 1]) && LeadLen(name) <= COMM_LEN - KEY_LEN)
  {
    hide CommStr, Trim, Whitelisted, Padded, LeadLen;
    NameOf(name);
    var lead, trail := TrimSplit(name);
    Resolved(Trim(name), pkgs);
    PlainIn(CommToPkg(Trim(name), pkgs).value, pkgs, keys);
    hide CommToPkg, KeysOf;
    LeadFacts(name);
    PartsPass(lead, Trim(name), trail, pkgs, keys);
  }

  /** Without blanks around it the filter never stops a name that resolves. */
  lemma NoFalseNegatives(name: string, pkgs: seq<string>, keys: set<string>)
    requires |name| <= COMM_LEN && '\0' !in name && Trimmed(name) && KeysOf(keys, pkgs)
    requires CommToPkg(name, pkgs).Some?
    ensures CommStr(Padded(name)) == name && Whitelisted(Padded(name), keys)
  {
    hide CommStr, Trim, CommToPkg, Whitelisted, Padded, KeysOf;
    assert "" + name + "" == name;
    NameOf(name);
    TrimIs("", name, "");
    PartsPass("", name, "", pkgs, keys);
  }

  // ----- names that pass

  lemma WindowAt(comm: string, keys: set<string>, pos: nat, key: string)
    requires |comm| == COMM_LEN && pos <= COMM_LEN - KEY_LEN && comm[pos..pos + KEY_LEN] == key && key in keys
    ensures Whitelisted(comm, keys)
  {
    assert Window(comm, keys, pos);
  }

  lemma KeyIn(p: string, key: string, pkgs: seq<string>, keys: set<string>)
    requires KeysOf(keys, pkgs) && p in pkgs && KeyOf(p, key)
    ensures key in keys
  {
  }

  lemma PlainIn(p: string, pkgs: seq<string>, keys: set<string>)
    requires KeysOf(keys, pkgs) && p in pkgs
    ensures PlainName(p)
  {
  }

  lemma Passes(lead: string, t: string, trail: string, pkgs: seq<string>, keys: set<string>)
    requires |lead + t + trail| <= COMM_LEN && KeysOf(keys, pkgs) && CommToPkg(t, pkgs).Some? && t != ""
    requires Passing(lead, t, trail)
    ensures Whitelisted(Padded(lead + t + trail), keys)
  {
    hide CommToPkg, Whitelisted, KeysOf, KeyOf;
    var comm := Padded(lead + t + trail);
    Resolved(t, pkgs);
    var p := CommToPkg(t, pkgs).value;
    PlainIn(p, pkgs, keys);
    if p == t || StartsWith(p, t) {
      FrontWindow(lead, t, trail, p);
      FrontKey(p);
      KeyIn(p, PrefixKey(p), pkgs, keys);
      WindowAt(comm, keys, |lead|, PrefixKey(p));
    } else {
      BackWindow(lead, t, trail, p);
      BackKey(p);
      KeyIn(p, SuffixKey(p), pkgs, keys);
      WindowAt(comm, keys, |lead| + |t| - KEY_LEN, SuffixKey(p));
    }
  }

  lemma FrontKey(p: string)
    requires p != ""
    ensures KeyOf(p, PrefixKey(p))
  {
  }

  lemma BackKey(p: string)
    requires |p| > KEY_LEN
    ensures KeyOf(p, SuffixKey(p))
  {
  }

  lemma FrontWindow(lead: string, t: string, trail: string, p: string)
    requires |lead + t + trail| <= COMM_LEN && Passing(lead, t, trail) && (p == t || (|t| >= KEY_LEN && StartsWith(p, t)))
    ensures |lead| + KEY_LEN <= COMM_LEN
    ensures Padded(lead + t + trail)[|lead|..|lead| + KEY_LEN] == PrefixKey(p)
  {
    var n, comm := |lead|, Padded(lead + t + trail);
    assert comm[n..n + KEY_LEN] == (t + trail + Zeros(COMM_LEN - |lead + t + trail|))[..KEY_LEN];
    if |t| >= KEY_LEN {
      assert comm[n..n + KEY_LEN] == t[..KEY_LEN];
      assert p[..|t|][..KEY_LEN] == p[..KEY_LEN];
    }
  }

  lemma BackWindow(lead: string, t: string, trail: string, p: string)
    requires |lead + t + trail| <= COMM_LEN && KEY_LEN < |t| && EndsWith(p, t)
    ensures |lead| + |t| <= COMM_LEN
    ensures |p| > KEY_LEN && Padded(lead + t + trail)[|lead| + |t| - KEY_LEN..|lead| + |t|] == SuffixKey(p)
  {
    var comm := Padded(lead + t + trail);
    assert comm[|lead| + |t| - KEY_LEN..|lead| + |t|] == t[|t| - KEY_LEN..];
    assert p[|p| - |t|..][|t| - KEY_LEN..] == p[|p| - KEY_LEN..];
  }

  // ----- names that are stopped

  /** A key starts with a character of a name and holds no white space; a NUL ends it. */
  lemma KeyShape(p: string, key: string)
    requires PlainName(p) && KeyOf(p, key)
    ensures |key| == KEY_LEN && key[0] != '\0' && forall i | 0 <= i < KEY_LEN :: !IsWs(key[i])
  {
  }

  lemma KeyFrom(key: string, pkgs: seq<string>, keys: set<string>)
    requires KeysOf(keys, pkgs) && key in keys
    ensures |key| == KEY_LEN && key[0] != '\0' && forall i | 0 <= i < KEY_LEN :: !IsWs(key[i])
  {
    var p :| p in pkgs && KeyOf(p, key);
    KeyShape(p, key);
  }

  /** Every window of a name that does not pass holds white space or begins with NUL. */
  lemma StoppedWindow(lead: string, t: string, trail: string, pos: nat) returns (i: nat)
    requires Blank(lead) && Blank(trail) && |lead + t + trail| <= COMM_LEN && !Passing(lead, t, trail)
    requires pos <= COMM_LEN - KEY_LEN
    ensures i < KEY_LEN && var c := Padded(lead + t + trail)[pos + i]; IsWs(c) || (i == 0 && c == '\0')
  {
    var comm := Padded(lead + t + trail);
    var n := |lead + t|;
    if pos < |lead| {
      i := 0;
      assert comm[pos] == lead[pos];
    } else if trail != "" && pos <= n {
      i := n - pos;
      assert comm[n] == trail[0];
    } else if pos < |lead + t + trail| {
      i := 0;
      assert comm[pos] == trail[pos - n];
    } else {
      i := 0;
      assert comm[pos] == Zeros(COMM_LEN - |lead + t + trail|)[pos - |lead + t + trail|];
    }
  }

  lemma Stopped(lead: string, t: string, trail: string, pkgs: seq<string>, keys: set<string>)
    requires Blank(lead) && Blank(trail) && |lead + t + trail| <= COMM_LEN && !Passing(lead, t, trail)
    requires KeysOf(keys, pkgs)
    ensures !Whitelisted(Padded(lead + t + trail), keys)
  {
    hide KeysOf;
    var comm := Padded(lead + t + trail);
    forall pos: nat | pos <= COMM_LEN - KEY_LEN ensures !Window(comm, keys, pos) {
      var i := StoppedWindow(lead, t, trail, pos);
      var w := comm[pos..pos + KEY_LEN];
      assert w[i] == comm[pos + i];
      if w in keys {
        KeyFrom(w, pkgs, keys);
      }
    }
  }

  lemma NameOf(name: string)
    requires |name| <= COMM_LEN && '\0' !in name
    ensures CommStr(Padded(name)) == Trim(name)
  {
    var comm := Padded(name);
    FindFacts(comm, '\0');
    assert forall i | 0 <= i < |name| :: comm[i] == name[i];
    if |name| < COMM_LEN {
      assert comm[|name|] == '\0';
      assert Find(comm, '\0') == |name|;
      assert comm[..|name|] == name;
    } else {
      assert comm == name;
    }
  }

}
