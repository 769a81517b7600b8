/** The tracking protocol between the kernel programs and the monitor: a table of tracked
    threads that both sides write, and a queue of events the monitor reads later. */
module EbpfProtocol {
  import opened Base
  import opened Text
  import opened CpuSets
  import opened RuleMatch
  import opened KernelFilter

  datatype Kind = ForkEvent | ExecEvent | RenameEvent | ExitEvent

  datatype Event = Event(kind: Kind, pid: int, tid: int, comm: string)

  /** The rules, the package names in one order, and the kernel's keys. */
  datatype Env = Env(cfg: AppConfig, pkgs: seq<string>, keys: set<string>)

  /** What the monitor is doing: reading events; emptying the table before a scan; scanning
      the processes; checking its cache; removing the dead from the table. */
  datatype User =
    | Idle
    | Clearing(keys: seq<int>)
    | Scanning
    | Checking(todo: seq<int>, dead: seq<int>)
    | Dropping(dead: seq<int>)

  datatype Sys = Sys(alive: set<int>, applied: map<int, set<nat>>, queue: seq<Event>, cache: map<int, TaskEntry>, user: User)

  /** The part of a CPU set that the table holds. */
  function Word0(cpus: set<nat>): set<nat>
  {
    set c | c in cpus && c < CPU_WORD_BITS
  }

  // ----- the kernel programs

  function Tracked(s: Sys, tid: int): bool
  {
    tid in s.applied
  }

  function Submitted(s: Sys, e: Event): Sys
  {
    s.(queue := s.queue + [e])
  }

  /** A thread of process tgid starts a child. A tracked parent's child is tracked at once. */
  function Forked(env: Env, s: Sys, parent: int, tgid: int, child: int, comm: string): Sys
  {
    var born := s.(alive := s.alive + {child});
    var e := Event(ForkEvent, tgid, child, comm);
    if Tracked(s, parent) then Submitted(born.(applied := s.applied[child := {}]), e)
    else if Whitelisted(comm, env.keys) then Submitted(born, e)
    else born
  }

  /** An exec or a rename; the idle thread's renames are ignored. */
  function Named(env: Env, s: Sys, kind: Kind, tgid: int, tid: int, comm: string): Sys
  {
    if kind.RenameEvent? && tid == 0 then s
    else if Tracked(s, tid) || Whitelisted(comm, env.keys) then Submitted(s, Event(kind, tgid, tid, comm)) else s
  }

  function Exited(s: Sys, tgid: int, tid: int): Sys
  {
    var gone := s.(alive := s.alive - {tid});
    if Tracked(s, tid)
    then Submitted(gone.(applied := s.applied - {tid}), Event(ExitEvent, tgid, tid, Zeros(COMM_LEN)))
    else gone
  }

  // ----- the monitor

  function TaskDel(s: Sys, tid: int): Sys
  {
    s.(cache := s.cache - {tid})
  }

  function AppliedDel(s: Sys, tid: int): Sys
  {
    s.(applied := s.applied - {tid})
  }

  /** `pkg_lookup_comm`: the name's package, or the package of the main thread. */
  function PkgLookup(env: Env, s: Sys, pid: int, comm: string): Option<string>
  {
    match CommToPkg(comm, env.pkgs)
    case Some(p) => Some(p)
    case None => if pid in s.cache then Some(s.cache[pid].pkg) else None
  }

  /** What `task_apply` decides for a thread: nothing to set, keep a thread rule, or set. */
  function Decision(env: Env, s: Sys, tid: int, pkg: string, comm: string): Option<AffinityResult>
  {
    Affinity(env.cfg, pkg, if HasThreadRules(env.cfg, pkg) then comm else "")
  }

  predicate Protected(s: Sys, tid: int, r: AffinityResult)
  {
    !r.threadRule && tid in s.cache && s.cache[tid].threadRule
  }

  /** `task_apply` with the call that sets the affinity; a thread that is gone is dropped. */
  function TaskApply(env: Env, s: Sys, tid: int, pid: int, pkg: string, comm: string): (Sys, bool)
  {
    match Decision(env, s, tid, pkg, comm)
    case None => (s, false)
    case Some(r) =>
      if Protected(s, tid, r) then (s, true)
      else if tid !in s.alive then (TaskDel(s, tid), false)
      else
        (s.(applied := s.applied[tid := Word0(r.cpus)],
            cache := s.cache[tid := TaskEntry(pid, pkg, r.cpus, r.dir, r.threadRule)]), true)
  }

  function EventApply(env: Env, s: Sys, tid: int, pid: int, comm: string): (Sys, bool)
  {
    match PkgLookup(env, s, pid, comm)
    case None => (s, false)
    case Some(pkg) => TaskApply(env, s, tid, pid, pkg, comm)
  }

  function Dispatched(env: Env, s: Sys, e: Event): Sys
  {
    var comm := CommStr(e.comm);
    match e.kind
    case ExitEvent => AppliedDel(TaskDel(s, e.tid), e.tid)
    case ExecEvent =>
      var (t, done) := EventApply(env, s, e.tid, e.pid, comm);
      if done then t else AppliedDel(TaskDel(t, e.tid), e.tid)
    case RenameEvent => EventApply(env, s, e.tid, e.pid, comm).0
    case ForkEvent => s
  }

  // ----- steps

  /** One indivisible step of either side. */
  datatype Step =
    | Fork(parent: int, tgid: int, child: int, comm: string)
    | Exec(tgid: int, tid: int, comm: string)
    | Rename(tgid: int, tid: int, comm: string)
    | Exit(tgid: int, tid: int)
    | Handle
    | StartScan(keys: seq<int>)
    | ScanTask(pid: int, pkg: string, tid: int, name: string)
    | StartCheck(tids: seq<int>)
    | Advance

  /** The step can happen. */
  predicate Enabled(s: Sys, st: Step)
  {
    match st
    case Fork(parent, _, child, _) => parent in s.alive && child !in s.alive
    case Exec(_, tid, _) => tid in s.alive
    case Rename(_, tid, _) => tid in s.alive
    case Exit(_, tid) => tid in s.alive
    case Handle => s.user.Idle? && s.queue != []
    case StartScan(keys) => s.user.Idle? && forall t | t in s.applied :: t in keys
    case ScanTask(_, _, _, _) => s.user.Scanning?
    case StartCheck(tids) => s.user.Idle? && forall t | t in s.cache :: t in tids
    case Advance => !s.user.Idle?
  }

  /** The monitor's own next move in a scan or a check. */
  function Advanced(s: Sys): Sys
  {
    match s.user
    case Idle => s
    case Clearing(keys) =>
      if keys == [] then s.(user := Scanning) else AppliedDel(s, keys[0]).(user := Clearing(keys[1..]))
    case Scanning => s.(user := Idle)
    case Checking(todo, dead) =>
      if todo == [] then s.(cache := s.cache - (set t | t in dead), user := Dropping(dead))
      else if todo[0] in s.cache && todo[0] !in s.alive then s.(user := Checking(todo[1..], dead + [todo[0]]))
      else s.(user := Checking(todo[1..], dead))
    case Dropping(dead) =>
      if dead == [] then s.(user := Idle) else AppliedDel(s, dead[0]).(user := Dropping(dead[1..]))
  }

  function Next(env: Env, s: Sys, st: Step): Sys
  {
    match st
    case Fork(parent, tgid, child, comm) => Forked(env, s, parent, tgid, child, comm)
    case Exec(tgid, tid, comm) => Named(env, s, ExecEvent, tgid, tid, comm)
    case Rename(tgid, tid, comm) => Named(env, s, RenameEvent, tgid, tid, comm)
    case Exit(tgid, tid) => Exited(s, tgid, tid)
    case Handle => if s.queue == [] then s else Dispatched(env, s.(queue := s.queue[1..]), s.queue[0])
    case StartScan(keys) => s.(cache := map[], user := Clearing(keys))
    case ScanTask(pid, pkg, tid, name) => TaskApply(env, s, tid, pid, pkg, name).0
    case StartCheck(tids) => s.(user := Checking(tids, []))
    case Advance => Advanced(s)
  }

  function After(env: Env, s: Sys, run: seq<Step>): Sys
    decreases |run|
  {
    if run == [] then s else After(env, Next(env, s, run[0]), run[1..])
  }

  predicate Runnable(env: Env, s: Sys, run: seq<Step>)
    decreases |run|
  {
    run != [] ==> Enabled(s, run[0]) && Runnable(env, Next(env, s, run[0]), run[1..])
  }

  predicate Initial(s: Sys)
  {
    s.applied == map[] && s.queue == [] && s.cache == map[] && s.user == Idle
  }

  // ----- the invariant

  predicate PendingExit(s: Sys, tid: int)
  {
    exists i :: 0 <= i < |s.queue| && s.queue[i].kind == ExitEvent && s.queue[i].tid == tid
  }

  /** The thread is alive and the kernel's table agrees with the cache. */
  predicate Synced(s: Sys, tid: int)
    requires tid in s.cache
  {
    tid in s.alive && tid in s.applied && s.applied[tid] == Word0(s.cache[tid].cpus)
  }

  predicate Inv(s: Sys)
  {
    && (forall t | t in s.applied :: t in s.alive)
    && (forall t | t in s.cache :: Synced(s, t) || PendingExit(s, t))
    && (s.user.Clearing? ==> s.cache == map[])
    && (s.user.Dropping? ==> forall t | t in s.user.dead :: t !in s.cache)
  }

  lemma MorePending(s: Sys, e: Event, tid: int)
    ensures PendingExit(s, tid) ==> PendingExit(Submitted(s, e), tid)
    ensures e.kind == ExitEvent && e.tid == tid ==> PendingExit(Submitted(s, e), tid)
  {
    var q := Submitted(s, e).queue;
    if PendingExit(s, tid) {
      var i :| 0 <= i < |s.queue| && s.queue[i].kind == ExitEvent && s.queue[i].tid == tid;
      assert q[i].kind == ExitEvent && q[i].tid == tid;
    }
    assert q[|s.queue|] == e;
  }

  /** Taking the head event off the queue loses no exit but its own. */
  lemma LessPending(s: Sys, tid: int)
    requires s.queue != [] && PendingExit(s, tid)
    ensures PendingExit(s.(queue := s.queue[1..]), tid) || (s.queue[0].kind == ExitEvent && s.queue[0].tid == tid)
  {
    var i :| 0 <= i < |s.queue| && s.queue[i].kind == ExitEvent && s.queue[i].tid == tid;
    if i > 0 {
      assert s.queue[1..][i - 1] == s.queue[i];
    }
  }

  lemma KernelKeeps(env: Env, s: Sys, st: Step)
    requires Inv(s) && Enabled(s, st) && (st.Fork? || st.Exec? || st.Rename? || st.Exit?)
    ensures Inv(Next(env, s, st))
  {
    hide PendingExit, Whitelisted;
    var n := Next(env, s, st);
    forall t | t in n.cache ensures Synced(n, t) || PendingExit(n, t) {
      assert Synced(s, t) || PendingExit(s, t);
      if n.queue != s.queue {
        MorePending(s, n.queue[|n.queue| - 1], t);
        SameQueue(Submitted(s, n.queue[|n.queue| - 1]), n, t);
      } else {
        SameQueue(s, n, t);
      }
    }
  }

  lemma SameQueue(a: Sys, b: Sys, tid: int)
    requires a.queue == b.queue
    ensures PendingExit(a, tid) == PendingExit(b, tid)
  {
  }

  lemma ApplyKeeps(env: Env, s: Sys, tid: int, pid: int, pkg: string, comm: string)
    requires Inv(s) && !s.user.Clearing? && !s.user.Dropping?
    ensures Inv(TaskApply(env, s, tid, pid, pkg, comm).0)
  {
    hide PendingExit, Affinity, Word0;
    var n := TaskApply(env, s, tid, pid, pkg, comm).0;
    forall t | t in n.cache ensures Synced(n, t) || PendingExit(n, t) {
      SameQueue(s, n, t);
      assert t in s.cache ==> Synced(s, t) || PendingExit(s, t);
    }
  }

  /** The event is off the queue; what it asks for is not done yet. An exit of its own
      thread is the only thing it may still owe. */
  predicate Owed(s: Sys, tid: int, isExit: bool)
  {
    && (forall t | t in s.applied :: t in s.alive)
    && (forall t | t in s.cache && !(isExit && t == tid) :: Synced(s, t) || PendingExit(s, t))
    && !s.user.Clearing? && !s.user.Dropping?
  }

  lemma HeadTaken(s: Sys)
    requires Inv(s) && s.user.Idle? && s.queue != []
    ensures Owed(s.(queue := s.queue[1..]), s.queue[0].tid, s.queue[0].kind.ExitEvent?)
  {
    hide PendingExit;
    var q := s.(queue := s.queue[1..]);
    forall t | t in q.cache && !(s.queue[0].kind.ExitEvent? && t == s.queue[0].tid) ensures Synced(q, t) || PendingExit(q, t) {
      assert Synced(s, t) || PendingExit(s, t);
      if PendingExit(s, t) {
        LessPending(s, t);
      }
    }
  }

  lemma DroppedKeeps(s: Sys, tid: int)
    requires (forall t | t in s.applied :: t in s.alive) && !s.user.Clearing? && !s.user.Dropping?
    requires forall t | t in s.cache && t != tid :: Synced(s, t) || PendingExit(s, t)
    ensures Inv(AppliedDel(TaskDel(s, tid), tid))
  {
    hide PendingExit;
    var n := AppliedDel(TaskDel(s, tid), tid);
    forall t | t in n.cache ensures Synced(n, t) || PendingExit(n, t) {
      SameQueue(s, n, t);
    }
  }

  lemma EventApplyKeeps(env: Env, s: Sys, tid: int, pid: int, comm: string)
    requires Inv(s) && !s.user.Clearing? && !s.user.Dropping?
    ensures Inv(EventApply(env, s, tid, pid, comm).0)
    ensures EventApply(env, s, tid, pid, comm).0.user == s.user
  {
    hide Inv, Affinity, CommToPkg;
    match PkgLookup(env, s, pid, comm) {
      case None =>
      case Some(pkg) => ApplyKeeps(env, s, tid, pid, pkg, comm);
    }
  }

  lemma HandleKeeps(env: Env, s: Sys)
    requires Inv(s) && s.user.Idle? && s.queue != []
    ensures Inv(Next(env, s, Handle))
  {
    hide PendingExit, Synced, EventApply, CommStr;
    var e := s.queue[0];
    var q := s.(queue := s.queue[1..]);
    HeadTaken(s);
    if e.kind.ExitEvent? {
      DroppedKeeps(q, e.tid);
    } else {
      EventApplyKeeps(env, q, e.tid, e.pid, CommStr(e.comm));
      var t := EventApply(env, q, e.tid, e.pid, CommStr(e.comm)).0;
      if e.kind.ExecEvent? {
        DroppedKeeps(t, e.tid);
      }
    }
  }

  lemma AdvanceKeeps(s: Sys)
    requires Inv(s)
    ensures Inv(Advanced(s))
  {
    hide PendingExit;
    var n := Advanced(s);
    forall t | t in n.cache ensures Synced(n, t) || PendingExit(n, t) {
      SameQueue(s, n, t);
      assert Synced(s, t) || PendingExit(s, t);
    }
    if s.user.Dropping? && s.user.dead != [] {
      assert forall t | t in s.user.dead[1..] :: t in s.user.dead;
    }
  }

  lemma StartKeeps(env: Env, s: Sys, st: Step)
    requires Inv(s) && (st.StartScan? || st.StartCheck?)
    ensures Inv(Next(env, s, st))
  {
    hide PendingExit;
    var n := Next(env, s, st);
    forall t | t in n.cache ensures Synced(n, t) || PendingExit(n, t) {
      SameQueue(s, n, t);
    }
  }

  lemma StepKeeps(env: Env, s: Sys, st: Step)
    requires Inv(s) && Enabled(s, st)
    ensures Inv(Next(env, s, st))
  {
    hide Inv, Affinity, CommToPkg, Whitelisted;
    match st {
      case Handle => HandleKeeps(env, s);
      case ScanTask(pid, pkg, tid, name) => ApplyKeeps(env, s, tid, pid, pkg, name);
      case StartScan(_) => StartKeeps(env, s, st);
      case StartCheck(_) => StartKeeps(env, s, st);
      case Advance => AdvanceKeeps(s);
      case _ => KernelKeeps(env, s, st);
    }
  }

  /** Over every run, with thread ids used again while old events wait: a cached thread is
      either about to be dropped, because its exit is still queued, or alive with the
      kernel's table in step; and every tracked thread is alive. */
  lemma {:induction false} RunKeeps(env: Env, s: Sys, run: seq<Step>)
    requires Inv(s) && Runnable(env, s, run)
    ensures Inv(After(env, s, run))
    decreases |run|
  {
    hide Inv, Enabled, Next;
    if run != [] {
      StepKeeps(env, s, run[0]);
      RunKeeps(env, Next(env, s, run[0]), run[1..]);
    }
  }

  /** Once the queue is empty, whatever the monitor is doing: cache, table and living
      threads are nested. */
  lemma QuiescentNested(env: Env, s: Sys, run: seq<Step>)
    requires Initial(s) && Runnable(env, s, run) && After(env, s, run).queue == []
    ensures var n := After(env, s, run);
            && n.cache.Keys <= n.applied.Keys && n.applied.Keys <= n.alive
            && forall t | t in n.cache :: n.applied[t] == Word0(n.cache[t].cpus)
  {
    RunKeeps(env, s, run);
    var n := After(env, s, run);
    assert forall t | t in n.cache :: Synced(n, t);
    forall t ensures (t in n.cache.Keys ==> t in n.applied.Keys) && (t in n.applied.Keys ==> t in n.alive) {
      assert t in n.cache ==> Synced(n, t);
      assert t in n.applied ==> t in n.alive;
    }
  }

  /** A cached thread whose exit is not queued is watched: its next exec, rename or exit
      reaches the queue, whatever its name. */
  lemma CachedIsWatched(env: Env, s: Sys, run: seq<Step>, st: Step)
    requires Initial(s) && Runnable(env, s, run + [st])
    requires st.Exec? || (st.Rename? && st.tid != 0) || st.Exit?
    requires st.tid in After(env, s, run).cache
    requires !PendingExit(After(env, s, run), st.tid)
    ensures var n, m := After(env, s, run), After(env, s, run + [st]);
            |m.queue| == |n.queue| + 1 && m.queue[|n.queue|].tid == st.tid && m.queue[..|n.queue|] == n.queue
  {
    RunSplit(env, s, run, [st]);
    RunKeeps(env, s, run);
    var n := After(env, s, run);
    assert Synced(n, st.tid);
    assert After(env, n, [st]) == Next(env, n, st) by {
      assert [st][1..] == [];
    }
  }

  lemma {:induction false} RunSplit(env: Env, s: Sys, a: seq<Step>, b: seq<Step>)
    requires Runnable(env, s, a + b)
    ensures Runnable(env, s, a) && Runnable(env, After(env, s, a), b)
    ensures After(env, s, a + b) == After(env, After(env, s, a), b)
    decreases |a|
  {
    hide Enabled, Next;
    AfterJoin(env, s, a, b);
    if a == [] {
      assert a + b == b;
    } else {
      assert (a + b)[1..] == a[1..] + b;
      RunSplit(env, Next(env, s, a[0]), a[1..], b);
    }
  }

  lemma {:induction false} AfterJoin(env: Env, s: Sys, a: seq<Step>, b: seq<Step>)
    ensures After(env, s, a + b) == After(env, After(env, s, a), b)
    decreases |a|
  {
    hide Next;
    if a == [] {
      assert a + b == b;
    } else {
      assert (a + b)[1..] == a[1..] + b;
      AfterJoin(env, Next(env, s, a[0]), a[1..], b);
    }
  }

  lemma AfterOne(env: Env, s: Sys, st: Step)
    ensures After(env, s, [st]) == Next(env, s, st)
  {
    hide Next;
    assert [st][1..] == [];
  }

  lemma AfterMore(env: Env, s: Sys, run: seq<Step>, st: Step)
    ensures After(env, s, run + [st]) == Next(env, After(env, s, run), st)
  {
    hide Next;
    AfterJoin(env, s, run, [st]);
    AfterOne(env, After(env, s, run), st);
  }

  // ----- what reaches the monitor

  /** Forks, execs and renames under a name that the monitor can resolve are queued, whoever
      the thread is. */
  lemma ResolvedIsReported(env: Env, s: Sys, parent: int, tgid: int, tid: int, name: string, p: string)
    requires |name| <= 16 && '\0' !in name && Trimmed(name) && KeysOf(env.keys, env.pkgs)
    requires p in env.pkgs && (p == name || CutFrom(p, name))
    ensures var comm := Padded(name);
            && CommStr(comm) == name
            && Next(env, s, Fork(parent, tgid, tid, comm)).queue == s.queue + [Event(ForkEvent, tgid, tid, comm)]
            && Next(env, s, Exec(tgid, tid, comm)) == s.(queue := s.queue + [Event(ExecEvent, tgid, tid, comm)])
            && (tid != 0 ==> Next(env, s, Rename(tgid, tid, comm)) == s.(queue := s.queue + [Event(RenameEvent, tgid, tid, comm)]))
  {
    hide CommStr, Trim, Padded, KeysOf, Whitelisted;
    ResolvesIff(name, env.pkgs);
    hide CommToPkg;
    NoFalseNegatives(name, env.pkgs, env.keys);
  }

  /** A thread in the table is reported under any name, and its child enters the table with
      it, so that the child's own rename is reported. Its exit takes it out. */
  lemma TrackedIsReported(env: Env, s: Sys, tgid: int, tid: int, child: int, comm: string, other: string)
    requires tid in s.applied && tid != 0 && child != 0
    ensures Next(env, s, Exec(tgid, tid, comm)) == s.(queue := s.queue + [Event(ExecEvent, tgid, tid, comm)])
    ensures Next(env, s, Rename(tgid, tid, comm)) == s.(queue := s.queue + [Event(RenameEvent, tgid, tid, comm)])
    ensures var n := Next(env, s, Fork(tid, tgid, child, comm));
            && n.applied == s.applied[child := {}] && n.alive == s.alive + {child} && n.cache == s.cache
            && Next(env, n, Rename(tgid, child, other)).queue ==
                 s.queue + [Event(ForkEvent, tgid, child, comm)] + [Event(RenameEvent, tgid, child, other)]
    ensures var n := Next(env, s, Exit(tgid, tid));
            && n.applied == s.applied - {tid} && n.alive == s.alive - {tid} && n.cache == s.cache
            && |n.queue| == |s.queue| + 1 && n.queue[..|s.queue|] == s.queue
            && n.queue[|s.queue|].kind == ExitEvent && n.queue[|s.queue|].pid == tgid && n.queue[|s.queue|].tid == tid
  {
    hide Whitelisted;
  }

  /** The eight characters from pos on are a key. */
  predicate KeyAt(comm: string, keys: set<string>, pos: nat)
  {
    pos + 8 <= |comm| && comm[pos..pos + 8] in keys
  }

  /** A thread that is not in the table, under a name without a window among the keys, passes
      unseen; so does every rename of thread 0. */
  lemma OthersAreQuiet(env: Env, s: Sys, parent: int, tgid: int, tid: int, comm: string, any: string)
    requires tid !in s.applied && parent !in s.applied
    requires forall pos: nat :: !KeyAt(comm, env.keys, pos)
    ensures Next(env, s, Fork(parent, tgid, tid, comm)) == s.(alive := s.alive + {tid})
    ensures Next(env, s, Exec(tgid, tid, comm)) == s && Next(env, s, Rename(tgid, tid, comm)) == s
    ensures Next(env, s, Exit(tgid, tid)) == s.(alive := s.alive - {tid})
    ensures Next(env, s, Rename(tgid, 0, any)) == s
  {
    NoWindow(comm, env.keys);
    hide Whitelisted;
  }

  lemma NoWindow(comm: string, keys: set<string>)
    requires forall pos: nat :: !KeyAt(comm, keys, pos)
    ensures !Whitelisted(comm, keys)
  {
    forall pos: nat | pos <= COMM_LEN - KEY_LEN ensures !Window(comm, keys, pos) {
      assert !KeyAt(comm, keys, pos);
    }
  }

  // ----- what an event gives a thread, by the rules

  /** After `task_apply` the living thread has this entry, the table its first word, and no
      other thread has moved. */
  ghost predicate Given(s: Sys, n: Sys, tid: int, pid: int, pkg: string, threadRule: bool, has: nat -> bool)
  {
    && tid in n.cache && n.cache[tid].pid == pid && n.cache[tid].pkg == pkg && n.cache[tid].threadRule == threadRule
    && (forall c: nat :: c in n.cache[tid].cpus <==> has(c))
    && tid in n.applied && (forall c: nat :: c in n.applied[tid] <==> has(c) && c < 64)
    && n.cache == s.cache[tid := n.cache[tid]] && n.applied == s.applied[tid := n.applied[tid]]
    && n.queue == s.queue && n.alive == s.alive && n.user == s.user
  }

  /** The thread is gone: its entry goes, and nothing else changes. */
  predicate Gone(s: Sys, n: Sys, tid: int)
  {
    n == s.(cache := s.cache - {tid})
  }

  /** A living thread gets the CPUs of all thread rules that fit its name, if they have any.
      Without such a rule an entry made by a thread rule stays as it is; any other thread
      gets the CPUs of the package's own rules, or all CPUs present if only its thread rules
      are known. Without any rule nothing changes. */
  lemma AppliedByRules(env: Env, s: Sys, tid: int, pid: int, pkg: string, name: string)
    ensures var (n, done) := TaskApply(env, s, tid, pid, pkg, name);
            var cfg := env.cfg;
            var kept := tid in s.cache && s.cache[tid].threadRule;
            if exists c: nat :: CpuByName(cfg, pkg, name, c) then
              if tid in s.alive then done && Given(s, n, tid, pid, pkg, true, (c: nat) => CpuByName(cfg, pkg, name, c))
              else !done && Gone(s, n, tid)
            else if !(exists q :: ForName(cfg, q, pkg, name)) && exists c: nat :: CpuByPkg(cfg, pkg, c) then
              if kept then done && n == s
              else if tid in s.alive then done && Given(s, n, tid, pid, pkg, false, (c: nat) => CpuByPkg(cfg, pkg, c))
              else !done && Gone(s, n, tid)
            else if exists q :: q in cfg.rules && q.pkg == pkg && q.thread != "" then
              if kept then done && n == s
              else if tid in s.alive then done && Given(s, n, tid, pid, pkg, false, (c: nat) => c in cfg.machine.topo.present)
              else !done && Gone(s, n, tid)
            else !done && n == s
  {
    hide Decision, CpuByName, CpuByPkg, ForName;
    DecisionByRules(env, s, tid, pkg, name);
  }

  /** The name is left out where the package has no thread rules; it would not matter. */
  lemma DecisionByRules(env: Env, s: Sys, tid: int, pkg: string, name: string)
    ensures ByRules(env.cfg, pkg, name, Decision(env, s, tid, pkg, name))
  {
    hide Affinity, CpuByName, CpuByPkg, ForName, HasThreadRules;
    NameNeedsRule(env.cfg, pkg, name);
    if HasThreadRules(env.cfg, pkg) {
      AffinityByRules(env.cfg, pkg, name);
    } else {
      NoName(env.cfg, pkg);
      AffinityByRules(env.cfg, pkg, "");
    }
  }

  lemma NoName(cfg: AppConfig, pkg: string)
    ensures forall q :: !ForName(cfg, q, pkg, "")
    ensures forall c: nat :: !CpuByName(cfg, pkg, "", c)
  {
  }

  /** The package of a named thread: the one the name resolves to, else that of the main
      thread's entry. */
  predicate Owner(env: Env, s: Sys, pid: int, name: string, pkg: string)
  {
    || (name in env.pkgs && pkg == name)
    || (name !in env.pkgs && pkg in env.pkgs && CutFrom(pkg, name) && CommToPkg(name, env.pkgs) == Some(pkg))
    || ((forall p | p in env.pkgs :: p != name && !CutFrom(p, name)) && pid in s.cache && s.cache[pid].pkg == pkg)
  }

  /** Handling the oldest event, an exec or a rename: the thread's package is found, and then
      the rules decide as above; an exec that sets nothing drops the thread. */
  lemma EventByRules(env: Env, s: Sys, pkg: string)
    requires s.queue != [] && (s.queue[0].kind.ExecEvent? || s.queue[0].kind.RenameEvent?)
    requires Owner(env, s, s.queue[0].pid, CommStr(s.queue[0].comm), pkg)
    ensures var e := s.queue[0];
            var q := s.(queue := s.queue[1..]);
            var (n, done) := TaskApply(env, q, e.tid, e.pid, pkg, CommStr(e.comm));
            Next(env, s, Handle) ==
              if e.kind.ExecEvent? && !done then n.(cache := n.cache - {e.tid}, applied := n.applied - {e.tid}) else n
  {
    hide TaskApply, CommStr, PkgLookup, Owner;
    var e := s.queue[0];
    OwnerIs(env, s, e.pid, CommStr(e.comm));
    SameLookup(env, s, s.queue[1..], e.pid, CommStr(e.comm));
  }

  lemma SameLookup(env: Env, s: Sys, queue: seq<Event>, pid: int, name: string)
    ensures PkgLookup(env, s.(queue := queue), pid, name) == PkgLookup(env, s, pid, name)
  {
    hide CommToPkg;
  }

  lemma OwnerIs(env: Env, s: Sys, pid: int, name: string)
    ensures forall pkg :: Owner(env, s, pid, name, pkg) <==> PkgLookup(env, s, pid, name) == Some(pkg)
  {
    hide CommToPkg;
    ResolvesIff(name, env.pkgs);
  }

  /** Without a package an exec drops the thread, and a rename changes nothing. */
  lemma EventUnknown(env: Env, s: Sys)
    requires s.queue != [] && (s.queue[0].kind.ExecEvent? || s.queue[0].kind.RenameEvent?)
    requires forall pkg :: !Owner(env, s, s.queue[0].pid, CommStr(s.queue[0].comm), pkg)
    ensures var e := s.queue[0];
            var q := s.(queue := s.queue[1..]);
            Next(env, s, Handle) ==
              if e.kind.ExecEvent? then q.(cache := q.cache - {e.tid}, applied := q.applied - {e.tid}) else q
  {
    hide CommStr, TaskApply, PkgLookup, Owner;
    var e := s.queue[0];
    OwnerIs(env, s, e.pid, CommStr(e.comm));
    SameLookup(env, s, s.queue[1..], e.pid, CommStr(e.comm));
    NoOwner(PkgLookup(env, s, e.pid, CommStr(e.comm)));
  }

  lemma NoOwner(r: Option<string>)
    ensures (forall pkg :: r != Some(pkg)) ==> r.None?
  {
  }

  // ----- thread rules are not given up

  /** No step turns a thread-rule entry into a package entry; it can only disappear. */
  lemma ThreadRuleStays(env: Env, s: Sys, st: Step, tid: int)
    requires Enabled(s, st) && tid in s.cache && s.cache[tid].threadRule && tid in Next(env, s, st).cache
    ensures Next(env, s, st).cache[tid].threadRule
  {
    hide Affinity, CommToPkg, CommStr, Whitelisted;
  }
}
