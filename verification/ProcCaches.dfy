/** The process cache with its two counters, kept in step entry by entry. */
module ProcCaches {
  import opened Base
  import opened RuleMatch

  // ----- counters

  /** The tasks whose entry has key k. */
  function With<K(==)>(tasks: map<int, TaskEntry>, key: TaskEntry -> K, k: K): set<int>
  {
    set t | t in tasks && key(tasks[t]) == k
  }

  /** A counter says how many entries have each key, and lists no key without one. */
  ghost predicate Counts<K(!new)>(tasks: map<int, TaskEntry>, key: TaskEntry -> K, c: map<K, nat>)
  {
    forall k :: (if k in c then c[k] else 0) == |With(tasks, key, k)| && (k in c ==> c[k] > 0)
  }

  function Added<K>(c: map<K, nat>, k: K): map<K, nat>
  {
    c[k := (if k in c then c[k] else 0) + 1]
  }

  function Removed<K>(c: map<K, nat>, k: K): map<K, nat>
  {
    if k in c && c[k] > 1 then c[k := c[k] - 1] else c - {k}
  }

  lemma EntryGone<K(!new)>(tasks: map<int, TaskEntry>, key: TaskEntry -> K, c: map<K, nat>, tid: int)
    requires Counts(tasks, key, c) && tid in tasks
    ensures key(tasks[tid]) in c && c[key(tasks[tid])] >= 1
    ensures Counts(tasks - {tid}, key, Removed(c, key(tasks[tid])))
  {
    var k0, less := key(tasks[tid]), Removed(c, key(tasks[tid]));
    assert tid in With(tasks, key, k0);
    assert |With(tasks, key, k0)| > 0;
    forall k ensures (if k in less then less[k] else 0) == |With(tasks - {tid}, key, k)| && (k in less ==> less[k] > 0) {
      assert (if k in c then c[k] else 0) == |With(tasks, key, k)| && (k in c ==> c[k] > 0);
      if k == k0 {
        assert With(tasks - {tid}, key, k) == With(tasks, key, k) - {tid};
      } else {
        assert With(tasks - {tid}, key, k) == With(tasks, key, k);
      }
    }
  }

  lemma EntryNew<K(!new)>(tasks: map<int, TaskEntry>, key: TaskEntry -> K, c: map<K, nat>, tid: int, e: TaskEntry)
    requires Counts(tasks, key, c) && tid !in tasks
    ensures Counts(tasks[tid := e], key, Added(c, key(e)))
  {
    var k0, more := key(e), Added(c, key(e));
    forall k ensures (if k in more then more[k] else 0) == |With(tasks[tid := e], key, k)| && (k in more ==> more[k] > 0) {
      assert (if k in c then c[k] else 0) == |With(tasks, key, k)| && (k in c ==> c[k] > 0);
      if k == k0 {
        assert With(tasks[tid := e], key, k) == With(tasks, key, k) + {tid};
      } else {
        assert With(tasks[tid := e], key, k) == With(tasks, key, k);
      }
    }
  }

  /** An entry replaced: the old key gives way to the new one, which may be the same. */
  lemma EntryReplaced<K(!new)>(tasks: map<int, TaskEntry>, key: TaskEntry -> K, c: map<K, nat>, tid: int, e: TaskEntry)
    requires Counts(tasks, key, c) && tid in tasks
    ensures Counts(tasks[tid := e], key, Added(Removed(c, key(tasks[tid])), key(e)))
    ensures key(e) == key(tasks[tid]) ==> Added(Removed(c, key(tasks[tid])), key(e)) == c
  {
    EntryGone(tasks, key, c, tid);
    EntryNew(tasks - {tid}, key, Removed(c, key(tasks[tid])), tid, e);
    assert (tasks - {tid})[tid := e] == tasks[tid := e];
  }

  function SetOf(xs: seq<int>): set<int>
  {
    set x | x in xs
  }

  lemma SetOfMore(xs: seq<int>, x: int)
    ensures SetOf(xs + [x]) == SetOf(xs) + {x}
  {
  }

  function PidOf(e: TaskEntry): int
  {
    e.pid
  }

  function PkgOf(e: TaskEntry): string
  {
    e.pkg
  }

  class ProcCache {
    var tasks: map<int, TaskEntry>
    var pidTaskCounts: map<int, nat>
    var hitPkgs: map<string, nat>

    /** Both counters agree with the table. */
    ghost predicate Valid()
      reads this
    {
      Counts(tasks, PidOf, pidTaskCounts) && Counts(tasks, PkgOf, hitPkgs)
    }

    constructor ()
      ensures Valid() && tasks == map[]
    {
      tasks, pidTaskCounts, hitPkgs := map[], map[], map[];
    }

    method DropPidRef(pid: int)
      requires pid in pidTaskCounts ==> pidTaskCounts[pid] >= 1
      modifies this`pidTaskCounts
      ensures pidTaskCounts == Removed(old(pidTaskCounts), pid)
    {
      var last := true;
      if pid in pidTaskCounts {
        var n: nat := pidTaskCounts[pid] - 1;
        pidTaskCounts := pidTaskCounts[pid := n];
        last := n == 0;
      }
      if last {
        pidTaskCounts := pidTaskCounts - {pid};
      }
    }

    method AddPidRef(pid: int)
      modifies this`pidTaskCounts
      ensures pidTaskCounts == Added(old(pidTaskCounts), pid)
    {
      pidTaskCounts := pidTaskCounts[pid := (if pid in pidTaskCounts then pidTaskCounts[pid] else 0) + 1];
    }

    method HitPkgAdd(pkg: string)
      modifies this`hitPkgs
      ensures hitPkgs == Added(old(hitPkgs), pkg)
    {
      hitPkgs := hitPkgs[pkg := (if pkg in hitPkgs then hitPkgs[pkg] else 0) + 1];
    }

    method HitPkgDel(pkg: string)
      requires pkg in hitPkgs && hitPkgs[pkg] >= 1
      modifies this`hitPkgs
      ensures hitPkgs == Removed(old(hitPkgs), pkg)
    {
      var n: nat := hitPkgs[pkg] - 1;
      hitPkgs := hitPkgs[pkg := n];
      if n == 0 {
        hitPkgs := hitPkgs - {pkg};
      }
    }

    method Clear()
      modifies this
      ensures Valid() && tasks == map[]
    {
      tasks, pidTaskCounts, hitPkgs := map[], map[], map[];
    }

    /** Takes one entry out, with its two references. */
    method TaskRemove(tid: int)
      requires Valid()
      modifies this
      ensures Valid() && tasks == old(tasks) - {tid}
    {
      if tid in tasks {
        var e := tasks[tid];
        EntryGone(tasks, PidOf, pidTaskCounts, tid);
        EntryGone(tasks, PkgOf, hitPkgs, tid);
        tasks := tasks - {tid};
        HitPkgDel(e.pkg);
        DropPidRef(e.pid);
      } else {
        assert tasks - {tid} == tasks;
      }
    }

    method TaskInsert(tid: int, e: TaskEntry)
      requires Valid()
      modifies this
      ensures Valid() && tasks == old(tasks)[tid := e]
    {
      if tid in tasks {
        var was := tasks[tid];
        EntryReplaced(tasks, PidOf, pidTaskCounts, tid, e);
        EntryReplaced(tasks, PkgOf, hitPkgs, tid, e);
        EntryGone(tasks, PidOf, pidTaskCounts, tid);
        EntryGone(tasks, PkgOf, hitPkgs, tid);
        tasks := tasks[tid := e];
        HitPkgDel(was.pkg);
        if was.pid != e.pid {
          DropPidRef(was.pid);
          AddPidRef(e.pid);
        }
      } else {
        EntryNew(tasks, PidOf, pidTaskCounts, tid, e);
        EntryNew(tasks, PkgOf, hitPkgs, tid, e);
        tasks := tasks[tid := e];
        AddPidRef(e.pid);
      }
      HitPkgAdd(e.pkg);
    }

    /** `task_apply`; `gone` is what setting the affinity reports. A thread-rule entry is
        never replaced by a package-level one. */
    method TaskApply(tid: int, pid: int, pkg: string, comm: string, cfg: AppConfig, gone: bool) returns (done: bool)
      requires Valid()
      modifies this
      ensures Valid()
      ensures var r := Affinity(cfg, pkg, if HasThreadRules(cfg, pkg) then comm else "");
              var kept := r.Some? && !r.value.threadRule && tid in old(tasks) && old(tasks)[tid].threadRule;
              && done == (r.Some? && (kept || !gone))
              && tasks == if r.None? || kept then old(tasks)
                          else if gone then old(tasks) - {tid}
                          else old(tasks)[tid := TaskEntry(pid, pkg, r.value.cpus, r.value.dir, r.value.threadRule)]
      ensures tid in old(tasks) && old(tasks)[tid].threadRule && tid in tasks ==> tasks[tid].threadRule
    {
      hide Affinity, Counts;
      var found := ThreadAffinity(pkg, if HasThreadRules(cfg, pkg) then comm else "", cfg);
      if found.None? {
        return false;
      }
      var result := found.value;
      if !result.threadRule && tid in tasks && tasks[tid].threadRule {
        return true;
      }
      if gone {
        TaskRemove(tid);
        return false;
      }
      TaskInsert(tid, TaskEntry(pid, pkg, result.cpus, result.dir, result.threadRule));
      return true;
    }

    /** `affinity_sync`, for the threads found gone. */
    method AffinitySync(dead: seq<int>)
      requires Valid()
      modifies this
      ensures Valid() && tasks == old(tasks) - SetOf(dead)
    {
      hide Counts;
      assert old(tasks) - SetOf([]) == old(tasks);
      for k := 0 to |dead|
        invariant Valid() && tasks == old(tasks) - SetOf(dead[..k])
      {
        assert dead[..k + 1] == dead[..k] + [dead[k]];
        SetOfMore(dead[..k], dead[k]);
        TaskRemove(dead[k]);
        assert old(tasks) - SetOf(dead[..k]) - {dead[k]} == old(tasks) - SetOf(dead[..k + 1]);
      }
      assert dead[..|dead|] == dead;
    }
  }
}
