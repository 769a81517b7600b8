/** Thread ids that are used again while the exit of their last owner still waits. */
module EbpfReuse {
  import opened Base
  import opened RuleMatch
  import opened KernelFilter
  import opened EbpfProtocol

  /** A state with its past: when each waiting event was queued, and when each thread that
      the run started was last forked. */
  datatype Past = Past(sys: Sys, stamps: seq<nat>, born: map<int, nat>, clock: nat)

  function NextPast(env: Env, h: Past, st: Step): Past
  {
    var n := Next(env, h.sys, st);
    Past(n,
         if st.Handle? && h.stamps != [] then h.stamps[1..]
         else if |n.queue| > |h.sys.queue| then h.stamps + [h.clock]
         else h.stamps,
         if st.Fork? then h.born[st.child := h.clock] else h.born,
         h.clock + 1)
  }

  function PastAfter(env: Env, h: Past, run: seq<Step>): Past
    decreases |run|
  {
    if run == [] then h else PastAfter(env, NextPast(env, h, run[0]), run[1..])
  }

  function Fresh(s: Sys): Past
  {
    Past(s, [], map[], 0)
  }

  /** An exit that waits while a thread has its id was queued before that thread was
      forked. */
  predicate Ordered(h: Past)
  {
    && |h.stamps| == |h.sys.queue|
    && (forall i | 0 <= i < |h.stamps| :: h.stamps[i] < h.clock)
    && forall i | 0 <= i < |h.stamps| && h.sys.queue[i].kind == ExitEvent && h.sys.queue[i].tid in h.sys.alive ::
         h.sys.queue[i].tid in h.born && h.stamps[i] < h.born[h.sys.queue[i].tid]
  }

  lemma MonitorLeaves(env: Env, s: Sys, st: Step)
    requires st.Handle? || st.StartScan? || st.ScanTask? || st.StartCheck? || st.Advance?
    ensures Next(env, s, st).alive == s.alive
    ensures Next(env, s, st).queue == if st.Handle? && s.queue != [] then s.queue[1..] else s.queue
  {
    hide Affinity, CommToPkg, CommStr;
  }

  lemma StepOrdered(env: Env, h: Past, st: Step)
    requires Ordered(h) && Enabled(h.sys, st)
    ensures Ordered(NextPast(env, h, st))
  {
    hide Whitelisted, Dispatched, TaskApply, Advanced;
    if st.Handle? || st.StartScan? || st.ScanTask? || st.StartCheck? || st.Advance? {
      MonitorLeaves(env, h.sys, st);
      hide Next;
    }
  }

  lemma {:induction false} RunOrdered(env: Env, h: Past, run: seq<Step>)
    requires Ordered(h) && Runnable(env, h.sys, run)
    ensures Ordered(PastAfter(env, h, run)) && PastAfter(env, h, run).sys == After(env, h.sys, run)
    decreases |run|
  {
    hide Ordered, Enabled, Next;
    if run != [] {
      StepOrdered(env, h, run[0]);
      RunOrdered(env, NextPast(env, h, run[0]), run[1..]);
    }
  }

  /** Over every run: handling an exit takes a tracked thread, which is alive, out of the
      table exactly when the exit is of its id and was queued before the thread was forked,
      so that it belongs to the id's last owner. */
  lemma LateExit(env: Env, s: Sys, run: seq<Step>, u: int)
    requires Initial(s) && Runnable(env, s, run)
    requires var n := After(env, s, run); n.user.Idle? && n.queue != [] && n.queue[0].kind == ExitEvent && u in n.applied
    ensures var h, n := PastAfter(env, Fresh(s), run), After(env, s, run);
            var m := Next(env, n, Handle);
            && h.sys == n && |h.stamps| == |n.queue| && u in m.alive
            && (u !in m.applied <==> n.queue[0].tid == u && u in h.born && h.stamps[0] < h.born[u])
  {
    RunKeeps(env, s, run);
    RunOrdered(env, Fresh(s), run);
    MonitorLeaves(env, After(env, s, run), Handle);
    hide After, PastAfter, Runnable;
  }

  // ----- such a run

  /** A scan of one thread; it forks thread 2, which ends and whose id is used again before
      its exit is handled. */
  function ReuseRun(pkg: string, name: string, comm: string): seq<Step>
  {
    [StartScan([]), Advance, ScanTask(1, pkg, 1, name), Advance,
     Fork(1, 1, 2, comm), Exit(1, 2), Fork(1, 1, 2, comm), Handle, Handle]
  }

  lemma RunHead(env: Env, s: Sys, st: Step, run: seq<Step>)
    ensures After(env, s, [st] + run) == After(env, Next(env, s, st), run)
    ensures Runnable(env, s, [st] + run) <==> Enabled(s, st) && Runnable(env, Next(env, s, st), run)
  {
    hide Next, Enabled;
    assert ([st] + run)[1..] == run;
  }

  lemma RunCons(pkg: string, name: string, comm: string)
    ensures ReuseRun(pkg, name, comm) ==
              [StartScan([])] + ([Advance] + ([ScanTask(1, pkg, 1, name)] + ([Advance] +
              ([Fork(1, 1, 2, comm)] + ([Exit(1, 2)] + ([Fork(1, 1, 2, comm)] + ([Handle] + ([Handle] + []))))))))
  {
  }

  /** The scanned thread, tracked and cached. */
  function AfterScan(env: Env, pkg: string, name: string, r: AffinityResult): Sys
  {
    Sys({1}, map[1 := Word0(r.cpus)], [], map[1 := TaskEntry(1, pkg, r.cpus, r.dir, r.threadRule)], Idle)
  }

  lemma ScanPart(env: Env, s: Sys, pkg: string, name: string, rest: seq<Step>)
    requires Initial(s) && s.alive == {1} && Decision(env, s, 1, pkg, name).Some?
    ensures var t := AfterScan(env, pkg, name, Decision(env, s, 1, pkg, name).value);
            var run := [StartScan([])] + ([Advance] + ([ScanTask(1, pkg, 1, name)] + ([Advance] + rest)));
            After(env, s, run) == After(env, t, rest) && (Runnable(env, s, run) <==> Runnable(env, t, rest))
  {
    hide Affinity, After, Runnable;
    var s1 := Next(env, s, StartScan([]));
    var s2 := Next(env, s1, Advance);
    var s3 := Next(env, s2, ScanTask(1, pkg, 1, name));
    RunHead(env, s, StartScan([]), [Advance] + ([ScanTask(1, pkg, 1, name)] + ([Advance] + rest)));
    RunHead(env, s1, Advance, [ScanTask(1, pkg, 1, name)] + ([Advance] + rest));
    RunHead(env, s2, ScanTask(1, pkg, 1, name), [Advance] + rest);
    RunHead(env, s3, Advance, rest);
    assert Decision(env, s2, 1, pkg, name) == Decision(env, s, 1, pkg, name);
    assert Next(env, s3, Advance) == AfterScan(env, pkg, name, Decision(env, s, 1, pkg, name).value);
  }

  function Started(comm: string): Event
  {
    Event(ForkEvent, 1, 2, comm)
  }

  const ENDED := Event(ExitEvent, 1, 2, Zeros(COMM_LEN))

  lemma ReuseForks(env: Env, t: Sys, comm: string)
    requires t.alive == {1} && 1 in t.applied && 2 !in t.applied && t.queue == [] && t.user == Idle
    ensures var f := Fork(1, 1, 2, comm);
            var a := Next(env, t, f);
            var b := Next(env, a, Exit(1, 2));
            && Enabled(t, f) && Enabled(a, Exit(1, 2)) && Enabled(b, f)
            && Next(env, b, f) == t.(alive := {1, 2}, applied := t.applied[2 := {}],
                                     queue := [Started(comm), ENDED, Started(comm)])
  {
    var f := Fork(1, 1, 2, comm);
    var a := Next(env, t, f);
    assert a == t.(alive := {1, 2}, applied := t.applied[2 := {}], queue := [Started(comm)]);
    var b := Next(env, a, Exit(1, 2));
    assert t.applied[2 := {}] - {2} == t.applied;
    assert b == t.(alive := {1}, queue := [Started(comm), ENDED]);
  }

  lemma ReuseHandled(env: Env, t: Sys, comm: string)
    requires 2 !in t.applied && 2 !in t.cache && t.user == Idle
    ensures var c := t.(alive := {1, 2}, applied := t.applied[2 := {}], queue := [Started(comm), ENDED, Started(comm)]);
            var d := Next(env, c, Handle);
            && Enabled(c, Handle) && Enabled(d, Handle)
            && Next(env, d, Handle) == t.(alive := {1, 2}, queue := [Started(comm)])
  {
    hide EventApply, CommStr;
    var c := t.(alive := {1, 2}, applied := t.applied[2 := {}], queue := [Started(comm), ENDED, Started(comm)]);
    assert Next(env, c, Handle) == c.(queue := [ENDED, Started(comm)]);
    assert t.applied[2 := {}] - {2} == t.applied && t.cache - {2} == t.cache;
  }

  lemma ForkPart(env: Env, t: Sys, comm: string, rest: seq<Step>)
    requires t.alive == {1} && 1 in t.applied && 2 !in t.applied && 2 !in t.cache && t.queue == [] && t.user == Idle
    ensures var run := [Fork(1, 1, 2, comm)] + ([Exit(1, 2)] + ([Fork(1, 1, 2, comm)] + ([Handle] + ([Handle] + rest))));
            var n := t.(alive := {1, 2}, queue := [Event(ForkEvent, 1, 2, comm)]);
            After(env, t, run) == After(env, n, rest) && (Runnable(env, t, run) <==> Runnable(env, n, rest))
  {
    hide After, Runnable, Next, Enabled;
    var f := Fork(1, 1, 2, comm);
    var a := Next(env, t, f);
    var b := Next(env, a, Exit(1, 2));
    var c := Next(env, b, f);
    var d := Next(env, c, Handle);
    ReuseForks(env, t, comm);
    ReuseHandled(env, t, comm);
    RunHead(env, t, f, [Exit(1, 2)] + ([f] + ([Handle] + ([Handle] + rest))));
    RunHead(env, a, Exit(1, 2), [f] + ([Handle] + ([Handle] + rest)));
    RunHead(env, b, f, [Handle] + ([Handle] + rest));
    RunHead(env, c, Handle, [Handle] + rest);
    RunHead(env, d, Handle, rest);
  }

  /** From a fresh start: whenever the scanned thread has rules, the run is possible, and
      ends with thread 2 alive, not tracked and not cached; a rename to a name outside the
      whitelist then goes unseen. */
  lemma ReusedIdIsLost(env: Env, s: Sys, pkg: string, name: string, comm: string)
    requires Initial(s) && s.alive == {1} && Decision(env, s, 1, pkg, name).Some?
    requires !Whitelisted(comm, env.keys)
    ensures var run := ReuseRun(pkg, name, comm);
            var n := After(env, s, run);
            && Runnable(env, s, run) && n.user.Idle?
            && 2 in n.alive && 2 !in n.applied && 2 !in n.cache
            && Enabled(n, Rename(1, 2, comm)) && Next(env, n, Rename(1, 2, comm)) == n
  {
    var r := Decision(env, s, 1, pkg, name).value;
    var t := AfterScan(env, pkg, name, r);
    var f := Fork(1, 1, 2, comm);
    RunCons(pkg, name, comm);
    ScanPart(env, s, pkg, name, [f] + ([Exit(1, 2)] + ([f] + ([Handle] + ([Handle] + [])))));
    ForkPart(env, t, comm, []);
    hide ReuseRun, Whitelisted, Affinity;
  }
}
