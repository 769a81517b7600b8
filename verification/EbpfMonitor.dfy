/** The handlers of both sides as they change the shared table, the queue and the cache in
    place, tied to the steps of EbpfProtocol. */
module EbpfMonitor {
  import opened Base
  import opened RuleMatch
  import opened KernelFilter
  import opened EbpfProtocol

  /** The entries of a scan: process, package, thread and thread name. */
  datatype Task = Task(pid: int, pkg: string, tid: int, name: string)

  /** What a scan that nothing interrupts leaves. */
  function Scanned(env: Env, s: Sys, tasks: seq<Task>): Sys
  {
    if tasks == [] then s
    else
      var t := tasks[|tasks| - 1];
      TaskApply(env, Scanned(env, s, tasks[..|tasks| - 1]), t.tid, t.pid, t.pkg, t.name).0
  }

  function Emptied(s: Sys): Sys
  {
    s.(applied := map[], cache := map[])
  }

  function DeadOf(s: Sys): set<int>
  {
    set t | t in s.cache && t !in s.alive
  }

  /** What a check that nothing interrupts leaves. */
  function Checked(s: Sys): Sys
  {
    s.(cache := s.cache - DeadOf(s), applied := s.applied - DeadOf(s))
  }

  /** After the check every cached thread is alive, and the living keep what they had. */
  lemma CheckedIs(s: Sys)
    ensures var n := Checked(s);
            && (forall t :: t in n.cache <==> t in s.cache && t in s.alive)
            && (forall t :: t in n.applied <==> t in s.applied && (t in s.cache ==> t in s.alive))
            && (forall t | t in n.cache :: n.cache[t] == s.cache[t]) && (forall t | t in n.applied :: n.applied[t] == s.applied[t])
            && n.alive == s.alive && n.queue == s.queue
  {
  }

  /** The thread has what the rules give it, if it is alive and they give it anything. */
  ghost predicate Found(env: Env, n: Sys, t: Task)
  {
    exists r ::
      && ByRules(env.cfg, t.pkg, t.name, r)
      && (t.tid in n.cache <==> r.Some? && t.tid in n.alive)
      && (t.tid in n.cache ==>
            && n.cache[t.tid] == TaskEntry(t.pid, t.pkg, r.value.cpus, r.value.dir, r.value.threadRule)
            && t.tid in n.applied && forall c :: c in n.applied[t.tid] <==> c in r.value.cpus && c < 64)
  }

  lemma FoundNext(env: Env, s: Sys, t: Task)
    requires t.tid !in s.cache
    ensures var n := TaskApply(env, s, t.tid, t.pid, t.pkg, t.name).0;
            && Found(env, n, t) && n.alive == s.alive && n.queue == s.queue
            && (forall u | u != t.tid :: (u in n.cache <==> u in s.cache) && (u in s.cache ==> n.cache[u] == s.cache[u])
                                         && (u in n.applied <==> u in s.applied) && (u in s.applied ==> n.applied[u] == s.applied[u]))
  {
    hide Affinity, ByRules;
    DecisionByRules(env, s, t.tid, t.pkg, t.name);
    var n := TaskApply(env, s, t.tid, t.pid, t.pkg, t.name).0;
    var r := Decision(env, s, t.tid, t.pkg, t.name);
    assert ByRules(env.cfg, t.pkg, t.name, r) && (t.tid in n.cache <==> r.Some? && t.tid in n.alive);
  }

  lemma FoundStays(env: Env, a: Sys, b: Sys, t: Task)
    requires Found(env, a, t) && a.alive == b.alive && (t.tid in b.cache <==> t.tid in a.cache)
    requires t.tid in a.cache ==> b.cache[t.tid] == a.cache[t.tid] && t.tid in b.applied && t.tid in a.applied && b.applied[t.tid] == a.applied[t.tid]
    ensures Found(env, b, t)
  {
    hide ByRules;
    var r :| ByRules(env.cfg, t.pkg, t.name, r) && (t.tid in a.cache <==> r.Some? && t.tid in a.alive)
             && (t.tid in a.cache ==>
                   && a.cache[t.tid] == TaskEntry(t.pid, t.pkg, r.value.cpus, r.value.dir, r.value.threadRule)
                   && t.tid in a.applied && forall c :: c in a.applied[t.tid] <==> c in r.value.cpus && c < 64);
    assert ByRules(env.cfg, t.pkg, t.name, r);
  }

  /** A scan that nothing interrupts finds every thread: each gets what the rules give it,
      and nothing else is in the cache. */
  lemma {:induction false} ScannedFinds(env: Env, s: Sys, tasks: seq<Task>)
    requires forall i, j | 0 <= i < j < |tasks| :: tasks[i].tid != tasks[j].tid
    ensures var n := Scanned(env, Emptied(s), tasks);
            && n.alive == s.alive && n.queue == s.queue
            && (forall k | 0 <= k < |tasks| :: Found(env, n, tasks[k]))
            && (forall u | u in n.cache || u in n.applied :: exists k :: 0 <= k < |tasks| && tasks[k].tid == u)
  {
    hide TaskApply, Found;
    if tasks != [] {
      var m := |tasks| - 1;
      var was := Scanned(env, Emptied(s), tasks[..m]);
      ScannedFinds(env, s, tasks[..m]);
      FoundNext(env, was, tasks[m]);
      var n := Scanned(env, Emptied(s), tasks);
      forall k | 0 <= k < m ensures Found(env, n, tasks[k]) {
        assert Found(env, was, tasks[..m][k]);
        CachedApplied(env, was, tasks[k]);
        FoundStays(env, was, n, tasks[k]);
      }
      forall u | u in n.cache || u in n.applied ensures exists k :: 0 <= k < |tasks| && tasks[k].tid == u {
        if u != tasks[m].tid {
          var k :| 0 <= k < m && tasks[..m][k].tid == u;
          assert tasks[k].tid == u;
        }
      }
    }
  }

  lemma CachedApplied(env: Env, n: Sys, t: Task)
    requires Found(env, n, t)
    ensures t.tid in n.cache ==> t.tid in n.applied
  {
    hide ByRules;
  }

  class Monitor {
    const env: Env
    var alive: set<int>
    var applied: map<int, set<nat>>
    var queue: seq<Event>
    var cache: map<int, TaskEntry>

    constructor (e: Env, running: set<int>)
      ensures env == e && Initial(State()) && alive == running
    {
      env, alive, applied, queue, cache := e, running, map[], [], map[];
    }

    /** Between two calls the monitor is idle. */
    ghost function State(): Sys
      reads this
    {
      Sys(alive, applied, queue, cache, Idle)
    }

    // ----- kernel programs

    method SubmitEvent(e: Event)
      modifies this`queue
      ensures State() == Submitted(old(State()), e)
    {
      queue := queue + [e];
    }

    /** `sched_process_fork`. */
    method SchedProcessFork(parent: int, tgid: int, child: int, comm: string)
      requires |comm| == COMM_LEN
      modifies this
      ensures State() == Forked(env, old(State()), parent, tgid, child, comm)
    {
      alive := alive + {child};
      var tracked := parent in applied;
      if !tracked {
        var hit := WhitelistMatched(comm, env.keys);
        if !hit {
          return;
        }
      }
      if tracked {
        applied := applied[child := {}];
      }
      SubmitEvent(Event(ForkEvent, tgid, child, comm));
    }

    /** `sched_process_exec` and `task_rename`. */
    method ReportNamed(kind: Kind, tgid: int, tid: int, comm: string)
      requires |comm| == COMM_LEN
      modifies this
      ensures State() == Named(env, old(State()), kind, tgid, tid, comm)
    {
      if kind.RenameEvent? && tid == 0 {
        return;
      }
      if tid !in applied {
        var hit := WhitelistMatched(comm, env.keys);
        if !hit {
          return;
        }
      }
      SubmitEvent(Event(kind, tgid, tid, comm));
    }

    /** `sched_process_exit`. */
    method SchedProcessExit(tgid: int, tid: int)
      modifies this
      ensures State() == Exited(old(State()), tgid, tid)
    {
      alive := alive - {tid};
      if tid !in applied {
        return;
      }
      applied := applied - {tid};
      SubmitEvent(Event(ExitEvent, tgid, tid, Zeros(COMM_LEN)));
    }

    // ----- the monitor

    /** `affinity_apply`: true when the thread is gone. */
    method AffinityApply(tid: int, cpus: set<nat>) returns (dead: bool)
      modifies this`applied
      ensures dead == (tid !in alive)
      ensures applied == if dead then old(applied) else old(applied)[tid := Word0(cpus)]
    {
      dead := tid !in alive;
      if !dead {
        applied := applied[tid := Word0(cpus)];
      }
    }

    method ApplyTask(tid: int, pid: int, pkg: string, comm: string) returns (done: bool)
      modifies this`applied, this`cache
      ensures (State(), done) == TaskApply(env, old(State()), tid, pid, pkg, comm)
    {
      hide Affinity;
      var name := if HasThreadRules(env.cfg, pkg) then comm else "";
      var found := ThreadAffinity(pkg, name, env.cfg);
      if found.None? {
        return false;
      }
      var result := found.value;
      if !result.threadRule && tid in cache && cache[tid].threadRule {
        return true;
      }
      var dead := AffinityApply(tid, result.cpus);
      if dead {
        cache := cache - {tid};
        return false;
      }
      cache := cache[tid := TaskEntry(pid, pkg, result.cpus, result.dir, result.threadRule)];
      return true;
    }

    method ApplyEvent(tid: int, pid: int, comm: string) returns (done: bool)
      modifies this`applied, this`cache
      ensures (State(), done) == EventApply(env, old(State()), tid, pid, comm)
    {
      hide TaskApply, CommToPkg;
      var pkg := CommToPkg(comm, env.pkgs);
      if pkg.None? {
        if pid !in cache {
          return false;
        }
        pkg := Some(cache[pid].pkg);
      }
      done := ApplyTask(tid, pid, pkg.value, comm);
    }

    /** `event_dispatch` on the oldest event. */
    method EventDispatch()
      requires queue != []
      modifies this
      ensures State() == Next(env, old(State()), Handle)
    {
      hide EventApply, CommStr;
      var e := queue[0];
      queue := queue[1..];
      var comm := CommStr(e.comm);
      match e.kind {
        case ExitEvent =>
          cache := cache - {e.tid};
          applied := applied - {e.tid};
        case ExecEvent =>
          var done := ApplyEvent(e.tid, e.pid, comm);
          if !done {
            cache := cache - {e.tid};
            applied := applied - {e.tid};
          }
        case RenameEvent =>
          var done := ApplyEvent(e.tid, e.pid, comm);
        case ForkEvent =>
      }
    }

    /** `affinity_check`, when no kernel step comes between; `tids` is the order in which
        the cache is walked. */
    method AffinityCheck(tids: seq<int>)
      requires forall t | t in cache :: t in tids
      modifies this`applied, this`cache
      ensures State() == Checked(old(State()))
    {
      var dead: set<int> := {};
      for k := 0 to |tids|
        invariant dead == set t | t in tids[..k] && t in cache && t !in alive
      {
        assert tids[..k + 1] == tids[..k] + [tids[k]];
        if tids[k] in cache && tids[k] !in alive {
          dead := dead + {tids[k]};
        }
      }
      assert tids[..|tids|] == tids;
      forall t: int ensures t in dead <==> t in DeadOf(State()) {
        assert t in cache ==> t in tids;
      }
      assert dead == DeadOf(State());
      cache := cache - dead;
      applied := applied - dead;
    }

    /** `full_scan`, when no kernel step comes between. */
    method FullScan(tasks: seq<Task>)
      modifies this`applied, this`cache
      ensures State() == Scanned(env, Emptied(old(State())), tasks)
    {
      hide TaskApply;
      cache := map[];
      applied := map[];
      for k := 0 to |tasks|
        invariant alive == old(alive) && queue == old(queue)
        invariant State() == Scanned(env, Emptied(old(State())), tasks[..k])
      {
        assert tasks[..k + 1][..k] == tasks[..k];
        var t := tasks[k];
        var done := ApplyTask(t.tid, t.pid, t.pkg, t.name);
      }
      assert tasks[..|tasks|] == tasks;
    }
  }

  // ----- the uninterrupted check is a run of the protocol

  function Advances(n: nat): (run: seq<Step>)
    ensures |run| == n
  {
    seq(n, _ => Advance)
  }

  lemma {:induction false} AdvanceOnce(env: Env, s: Sys, n: nat)
    requires n > 0
    ensures After(env, s, Advances(n)) == After(env, Advanced(s), Advances(n - 1))
  {
    assert Advances(n)[1..] == Advances(n - 1);
  }

  function DeadIn(s: Sys, todo: seq<int>): seq<int>
  {
    if todo == [] then []
    else (if todo[0] in s.cache && todo[0] !in s.alive then [todo[0]] else []) + DeadIn(s, todo[1..])
  }

  lemma {:induction false} DeadInIs(s: Sys, todo: seq<int>)
    ensures forall t :: t in DeadIn(s, todo) <==> t in todo && t in s.cache && t !in s.alive
  {
    if todo != [] {
      DeadInIs(s, todo[1..]);
    }
  }

  lemma {:induction false} CheckRun(env: Env, s: Sys, todo: seq<int>, dead: seq<int>, n: nat)
    requires s.user == Checking(todo, dead)
    ensures After(env, s, Advances(|todo| + n)) ==
              After(env, s.(user := Checking([], dead + DeadIn(s, todo))), Advances(n))
    decreases |todo|
  {
    if todo == [] {
      assert dead + [] == dead;
    } else {
      var a := Advanced(s);
      AdvanceOnce(env, s, |todo| + n);
      CheckRun(env, a, todo[1..], a.user.dead, n);
      SameDead(s, a, todo[1..]);
      DeadStep(s, todo, dead);
      hide After, Advances, DeadIn;
    }
  }

  lemma DeadStep(s: Sys, todo: seq<int>, dead: seq<int>)
    requires s.user == Checking(todo, dead) && todo != []
    ensures var a := Advanced(s);
            && a == s.(user := Checking(todo[1..], a.user.dead))
            && a.user.dead + DeadIn(s, todo[1..]) == dead + DeadIn(s, todo)
  {
  }

  lemma {:induction false} SameDead(s: Sys, a: Sys, todo: seq<int>)
    requires s.cache == a.cache && s.alive == a.alive
    ensures DeadIn(s, todo) == DeadIn(a, todo)
  {
    if todo != [] {
      SameDead(s, a, todo[1..]);
    }
  }

  lemma {:induction false} DropRun(env: Env, s: Sys, dead: seq<int>)
    requires s.user == Dropping(dead)
    ensures After(env, s, Advances(|dead| + 1)) == s.(applied := s.applied - (set t | t in dead), user := Idle)
    decreases |dead|
  {
    AdvanceOnce(env, s, |dead| + 1);
    if dead == [] {
      assert s.applied - {} == s.applied;
      assert (set t | t in dead) == {};
      assert After(env, Advanced(s), Advances(0)) == Advanced(s);
    } else {
      var a := Advanced(s);
      DropRun(env, a, dead[1..]);
      assert (set t | t in dead) == {dead[0]} + (set t | t in dead[1..]);
      assert a.applied - (set t | t in dead[1..]) == s.applied - (set t | t in dead);
    }
  }

  // ----- and so is the uninterrupted scan

  function ScanSteps(tasks: seq<Task>): (run: seq<Step>)
    ensures |run| == |tasks|
  {
    seq(|tasks|, k requires 0 <= k < |tasks| => ScanTask(tasks[k].pid, tasks[k].pkg, tasks[k].tid, tasks[k].name))
  }

  lemma {:induction false} ScanRun(env: Env, s: Sys, tasks: seq<Task>)
    ensures After(env, s, ScanSteps(tasks)) == Scanned(env, s, tasks)
  {
    hide TaskApply;
    if tasks != [] {
      var n := |tasks| - 1;
      var t := tasks[n];
      ScanRun(env, s, tasks[..n]);
      var st := ScanTask(t.pid, t.pkg, t.tid, t.name);
      assert ScanSteps(tasks) == ScanSteps(tasks[..n]) + [st];
      AfterMore(env, s, ScanSteps(tasks[..n]), st);
    }
  }

  lemma ApplyUser(env: Env, s: Sys, u: User, tid: int, pid: int, pkg: string, comm: string)
    ensures TaskApply(env, s.(user := u), tid, pid, pkg, comm).0 == TaskApply(env, s, tid, pid, pkg, comm).0.(user := u)
  {
    hide Affinity;
  }

  lemma {:induction false} ScannedUser(env: Env, s: Sys, u: User, tasks: seq<Task>)
    ensures Scanned(env, s.(user := u), tasks) == Scanned(env, s, tasks).(user := u)
  {
    hide TaskApply;
    if tasks != [] {
      var n := |tasks| - 1;
      var t := tasks[n];
      ScannedUser(env, s, u, tasks[..n]);
      ApplyUser(env, Scanned(env, s, tasks[..n]), u, t.tid, t.pid, t.pkg, t.name);
    }
  }

  lemma {:induction false} ClearRun(env: Env, s: Sys, keys: seq<int>)
    requires s.user == Clearing(keys)
    ensures After(env, s, Advances(|keys| + 1)) == s.(applied := s.applied - (set t | t in keys), user := Scanning)
    decreases |keys|
  {
    AdvanceOnce(env, s, |keys| + 1);
    if keys == [] {
      assert s.applied - {} == s.applied;
      assert (set t | t in keys) == {};
      assert After(env, Advanced(s), Advances(0)) == Advanced(s);
    } else {
      var a := Advanced(s);
      ClearRun(env, a, keys[1..]);
      assert (set t | t in keys) == {keys[0]} + (set t | t in keys[1..]);
      assert a.applied - (set t | t in keys[1..]) == s.applied - (set t | t in keys);
    }
  }

  lemma NoneLeft(applied: map<int, set<nat>>, keys: seq<int>)
    requires forall t | t in applied :: t in keys
    ensures applied - (set t | t in keys) == map[]
  {
    var left := applied - (set t | t in keys);
    assert forall t :: t !in left;
  }

  /** The steps of a scan that nothing interrupts. */
  function ScanOf(keys: seq<int>, tasks: seq<Task>): seq<Step>
  {
    [StartScan(keys)] + (Advances(|keys| + 1) + (ScanSteps(tasks) + [Advance]))
  }

  /** A scan that nothing interrupts is the scan of the protocol, step by step. */
  lemma ScanIsRun(env: Env, s: Sys, keys: seq<int>, tasks: seq<Task>)
    requires s.user == Idle && forall t | t in s.applied :: t in keys
    ensures After(env, s, ScanOf(keys, tasks)) == Scanned(env, Emptied(s), tasks)
  {
    hide After, Advances, ScanSteps, Scanned;
    var start := Next(env, s, StartScan(keys));
    StartThen(env, s, StartScan(keys), Advances(|keys| + 1) + (ScanSteps(tasks) + [Advance]));
    AfterJoin(env, start, Advances(|keys| + 1), ScanSteps(tasks) + [Advance]);
    ClearRun(env, start, keys);
    NoneLeft(start.applied, keys);
    var clear := Emptied(s).(user := Scanning);
    assert After(env, start, Advances(|keys| + 1)) == clear;
    AfterMore(env, clear, ScanSteps(tasks), Advance);
    ScanRun(env, clear, tasks);
    ScannedUser(env, Emptied(s), Scanning, tasks);
    ScannedUser(env, Emptied(s), Idle, tasks);
    assert Emptied(s).(user := Idle) == Emptied(s);
  }

  lemma StartThen(env: Env, s: Sys, st: Step, rest: seq<Step>)
    ensures After(env, s, [st] + rest) == After(env, Next(env, s, st), rest)
  {
    assert ([st] + rest)[1..] == rest;
  }

  /** A check that nothing interrupts is the check of the protocol, step by step. */
  lemma CheckIsRun(env: Env, s: Sys, tids: seq<int>)
    requires s.user == Idle && forall t | t in s.cache :: t in tids
    ensures exists n :: After(env, s, [StartCheck(tids)] + Advances(n)) == Checked(s)
  {
    hide After, DeadIn, Advances;
    var dead := DeadIn(s, tids);
    var n := |tids| + (1 + (|dead| + 1));
    var start := Next(env, s, StartCheck(tids));
    StartThen(env, s, StartCheck(tids), Advances(n));
    CheckRun(env, start, tids, [], 1 + (|dead| + 1));
    SameDead(s, start, tids);
    assert [] + dead == dead;
    var all := start.(user := Checking([], dead));
    AdvanceOnce(env, all, 1 + (|dead| + 1));
    var drop := Advanced(all);
    DropRun(env, drop, dead);
    DeadInIs(s, tids);
    forall t: int ensures t in dead <==> t in DeadOf(s) {
    }
    assert (set t | t in dead) == DeadOf(s);
    assert After(env, s, [StartCheck(tids)] + Advances(n)) == Checked(s);
  }
}
