/** The refresh-rate timer as a machine over timed events. Times are nanoseconds of one
    clock; a handler reads the clock once. */
module RefreshMachine {
  import opened Base

  const SECOND: nat := 1_000_000_000
  const DEBOUNCE_MARGIN := 10
  const DEFAULT_REFRESH_PACKAGE := "com.android.launcher3"

  /** A timeout in seconds and the two refresh modes. */
  datatype Rates = Rates(timeout: int, active: int, idle: int)

  /** The global rates and those of single packages. */
  datatype RefreshConfig = RefreshConfig(all: Rates, apps: map<string, Rates>)

  datatype Refresh = Refresh(
    config: RefreshConfig,
    current: Rates,
    applied: int,
    paused: bool,
    enabled: bool,
    lastReset: Option<nat>,
    pkg: string,
    lastInput: Option<nat>,
    deadline: Option<nat>)

  // ----- handlers

  /** `apply_app_config`: the default launcher always has the global rates. */
  function RatesFor(config: RefreshConfig, pkg: string): Rates
  {
    if pkg != DEFAULT_REFRESH_PACKAGE && pkg in config.apps then config.apps[pkg] else config.all
  }

  function WithRates(s: Refresh, pkg: string): Refresh
  {
    var r := RatesFor(s.config, pkg);
    s.(current := r, enabled := r.idle != r.active)
  }

  /** `timerfd_settime` with a number of seconds: zero disarms, a negative number fails. */
  function TimerSet(was: Option<nat>, now: nat, seconds: int): Option<nat>
  {
    if seconds > 0 then Some(now + seconds * SECOND) else if seconds == 0 then None else was
  }

  function Debounce(timeout: int): nat
  {
    (if timeout > DEBOUNCE_MARGIN then timeout - DEBOUNCE_MARGIN else 0) * SECOND
  }

  predicate Debounced(s: Refresh, now: nat)
  {
    && s.applied == s.current.active && s.current.active != s.current.idle
    && s.lastReset.Some? && now - s.lastReset.value < Debounce(s.current.timeout)
  }

  function ResetTimer(s: Refresh, now: nat, force: bool): Refresh
  {
    if !s.enabled then s.(deadline := None, lastReset := None)
    else
      var r := s.(paused := false);
      if !force && Debounced(r, now) then r
      else r.(deadline := TimerSet(r.deadline, now, r.current.timeout), lastReset := Some(now))
  }

  function SwitchToIdle(s: Refresh): Refresh
  {
    if !s.enabled then s
    else s.(applied := s.current.idle, paused := true, deadline := None, lastReset := None)
  }

  function BindDefaultLauncher(s: Refresh, now: nat): Refresh
  {
    var r := WithRates(s.(pkg := DEFAULT_REFRESH_PACKAGE), DEFAULT_REFRESH_PACKAGE);
    ResetTimer(r.(applied := r.current.active), now, true)
  }

  function TryApplyFgPkg(s: Refresh, now: nat, pkg: string): Refresh
  {
    if pkg == "" then s
    else
      var r := WithRates(s.(pkg := pkg), pkg);
      ResetTimer(r.(applied := r.current.active), now, true)
  }

  function HandleInput(s: Refresh, now: nat): Refresh
  {
    if s.lastInput.Some? && now - s.lastInput.value < SECOND then s
    else
      var r := s.(lastInput := Some(now));
      if r.lastReset.None? then ResetTimer(r.(applied := r.current.active, paused := false), now, true)
      else ResetTimer(r, now, false)
  }

  function CheckConfig(s: Refresh, now: nat, config: RefreshConfig): Refresh
  {
    var r := WithRates(s.(config := config), s.pkg);
    var a := r.(applied := r.current.active);
    if a.lastReset.Some? then ResetTimer(a, now, true) else a
  }

  // ----- events

  datatype Msg = Input | BindLauncher | FgPkg(pkg: string)

  /** One wake-up of the loop: messages, perhaps a reload, perhaps an expired timer, in the
      order the kernel reports them. */
  datatype Batch = Batch(msgs: seq<Msg>, reload: Option<RefreshConfig>, wake: bool, timer: bool, timerFirst: bool)

  function OnMsg(s: Refresh, now: nat, m: Msg): Refresh
  {
    match m
    case Input => HandleInput(s, now)
    case BindLauncher => BindDefaultLauncher(s, now)
    case FgPkg(pkg) => TryApplyFgPkg(s, now, pkg)
  }

  function OnMsgs(s: Refresh, now: nat, ms: seq<Msg>): Refresh
  {
    if ms == [] then s else OnMsg(OnMsgs(s, now, ms[..|ms| - 1]), now, ms[|ms| - 1])
  }

  function OnWake(s: Refresh, now: nat, b: Batch): Refresh
  {
    var r := OnMsgs(s, now, b.msgs);
    if b.reload.Some? then CheckConfig(r, now, b.reload.value) else r
  }

  /** The timer is read and the machine goes idle; a one-shot timer that has expired is no
      longer armed. */
  function OnTimer(s: Refresh): Refresh
  {
    SwitchToIdle(s)
  }

  function OnBatch(s: Refresh, now: nat, b: Batch): Refresh
  {
    if b.timer && b.timerFirst then
      var r := OnTimer(s);
      if b.wake then OnWake(r, now, b) else r
    else
      var r := if b.wake then OnWake(s, now, b) else s;
      if b.timer then OnTimer(r) else r
  }

  predicate Expired(s: Refresh, now: nat)
  {
    s.deadline.Some? && s.deadline.value <= now
  }

  /** What `config.rs` lets through. */
  predicate GoodRates(r: Rates)
  {
    r.timeout >= 1
  }

  predicate GoodConfig(c: RefreshConfig)
  {
    GoodRates(c.all) && forall p | p in c.apps :: GoodRates(c.apps[p])
  }

  predicate Possible(s: Refresh, now: nat, b: Batch)
  {
    && (b.timer ==> Expired(s, now))
    && (b.reload.Some? ==> GoodConfig(b.reload.value))
    && (s.lastReset.Some? ==> s.lastReset.value <= now) && (s.lastInput.Some? ==> s.lastInput.value <= now)
  }

  /** `refresh_init` with a configuration. */
  function Started(config: RefreshConfig): Refresh
  {
    Refresh(config, config.all, config.all.active, false, config.all.idle != config.all.active, None, "", None, None)
  }

  // ----- the invariant

  predicate Valid(s: Refresh)
  {
    && GoodConfig(s.config) && GoodRates(s.current)
    && (s.enabled <==> s.current.active != s.current.idle)
    && s.deadline == (match s.lastReset case Some(t) => Some(t + s.current.timeout * SECOND) case None => None)
    && (s.lastReset.Some? ==> s.enabled && !s.paused && s.applied == s.current.active)
    && s.applied in {s.current.active, s.current.idle}
  }

  lemma StartedValid(config: RefreshConfig)
    requires GoodConfig(config)
    ensures Valid(Started(config))
  {
  }

  lemma MsgKeeps(s: Refresh, now: nat, m: Msg)
    requires Valid(s)
    ensures Valid(OnMsg(s, now, m))
  {
  }

  lemma {:induction false} MsgsKeep(s: Refresh, now: nat, ms: seq<Msg>)
    requires Valid(s)
    ensures Valid(OnMsgs(s, now, ms))
  {
    hide Valid, OnMsg;
    if ms != [] {
      MsgsKeep(s, now, ms[..|ms| - 1]);
      MsgKeeps(OnMsgs(s, now, ms[..|ms| - 1]), now, ms[|ms| - 1]);
    }
  }

  lemma ReloadKeeps(s: Refresh, now: nat, config: RefreshConfig)
    requires Valid(s) && GoodConfig(config)
    ensures Valid(CheckConfig(s, now, config))
  {
  }

  /** Every wake-up keeps the machine in order, both fds in one batch included. */
  lemma BatchKeeps(s: Refresh, now: nat, b: Batch)
    requires Valid(s) && Possible(s, now, b)
    ensures Valid(OnBatch(s, now, b))
  {
    MsgsKeep(s, now, b.msgs);
    MsgsKeep(OnTimer(s), now, b.msgs);
    if b.reload.Some? {
      ReloadKeeps(OnMsgs(s, now, b.msgs), now, b.reload.value);
      ReloadKeeps(OnMsgs(OnTimer(s), now, b.msgs), now, b.reload.value);
    }
  }

  // ----- how long after an input the machine can go idle

  /** The time that always passes between a handled input and the idle switch. */
  function Grace(timeout: int): nat
  {
    (if timeout < 0 then 0 else if timeout < DEBOUNCE_MARGIN then timeout else DEBOUNCE_MARGIN) * SECOND
  }

  predicate Past(s: Refresh, now: nat)
  {
    (s.lastReset.Some? ==> s.lastReset.value <= now) && (s.lastInput.Some? ==> s.lastInput.value <= now)
  }

  predicate Graceful(s: Refresh)
  {
    s.deadline.Some? && s.lastInput.Some? ==> s.deadline.value >= s.lastInput.value + Grace(s.current.timeout)
  }

  lemma MsgGraceful(s: Refresh, now: nat, m: Msg)
    requires Valid(s) && Past(s, now) && Graceful(s)
    ensures Past(OnMsg(s, now, m), now) && Graceful(OnMsg(s, now, m))
  {
  }

  lemma {:induction false} MsgsGraceful(s: Refresh, now: nat, ms: seq<Msg>)
    requires Valid(s) && Past(s, now) && Graceful(s)
    ensures Past(OnMsgs(s, now, ms), now) && Graceful(OnMsgs(s, now, ms))
  {
    hide Valid, OnMsg, Past, Graceful;
    if ms != [] {
      MsgsKeep(s, now, ms[..|ms| - 1]);
      MsgsGraceful(s, now, ms[..|ms| - 1]);
      MsgGraceful(OnMsgs(s, now, ms[..|ms| - 1]), now, ms[|ms| - 1]);
    }
  }

  lemma ReloadGraceful(s: Refresh, now: nat, config: RefreshConfig)
    requires Valid(s) && Past(s, now) && Graceful(s) && GoodConfig(config)
    ensures Past(CheckConfig(s, now, config), now) && Graceful(CheckConfig(s, now, config))
  {
  }

  lemma BatchGraceful(s: Refresh, now: nat, b: Batch)
    requires Valid(s) && Past(s, now) && Graceful(s) && Possible(s, now, b)
    ensures Past(OnBatch(s, now, b), now) && Graceful(OnBatch(s, now, b))
  {
    hide OnMsg, CheckConfig;
    var t := OnTimer(s);
    MsgsKeep(s, now, b.msgs);
    MsgsKeep(t, now, b.msgs);
    MsgsGraceful(s, now, b.msgs);
    MsgsGraceful(t, now, b.msgs);
    if b.reload.Some? {
      ReloadGraceful(OnMsgs(s, now, b.msgs), now, b.reload.value);
      ReloadGraceful(OnMsgs(t, now, b.msgs), now, b.reload.value);
    }
  }

  // ----- the last input, handled or throttled

  /** The last input seen is less than a second behind the last one handled. */
  predicate Near(s: Refresh, seen: Option<nat>)
  {
    seen.Some? ==> s.lastInput.Some? && s.lastInput.value <= seen.value < s.lastInput.value + SECOND
  }

  function Seen(was: Option<nat>, now: nat, b: Batch): Option<nat>
  {
    if b.wake && Input in b.msgs then Some(now) else was
  }

  lemma MsgNear(s: Refresh, now: nat, m: Msg, seen: Option<nat>)
    requires Past(s, now) && Near(s, seen) && (seen.Some? ==> seen.value <= now)
    ensures Near(OnMsg(s, now, m), if m == Input then Some(now) else seen)
    ensures Past(OnMsg(s, now, m), now)
  {
  }

  lemma {:induction false} MsgsNear(s: Refresh, now: nat, ms: seq<Msg>, seen: Option<nat>)
    requires Past(s, now) && Near(s, seen) && (seen.Some? ==> seen.value <= now)
    ensures Near(OnMsgs(s, now, ms), if Input in ms then Some(now) else seen) && Past(OnMsgs(s, now, ms), now)
  {
    hide OnMsg, Past, Near;
    if ms != [] {
      var front, m := ms[..|ms| - 1], ms[|ms| - 1];
      MsgsNear(s, now, front, seen);
      MsgNear(OnMsgs(s, now, front), now, m, if Input in front then Some(now) else seen);
      assert ms == front + [m];
    }
  }

  lemma BatchNear(s: Refresh, now: nat, b: Batch, seen: Option<nat>)
    requires Past(s, now) && Near(s, seen) && (seen.Some? ==> seen.value <= now)
    ensures Near(OnBatch(s, now, b), Seen(seen, now, b))
  {
    MsgsNear(s, now, b.msgs, seen);
    MsgsNear(OnTimer(s), now, b.msgs, seen);
  }

  // ----- runs

  datatype Timed = Timed(now: nat, batch: Batch)

  function After(s: Refresh, run: seq<Timed>): Refresh
  {
    if run == [] then s else OnBatch(After(s, run[..|run| - 1]), run[|run| - 1].now, run[|run| - 1].batch)
  }

  function LastSeen(run: seq<Timed>): Option<nat>
  {
    if run == [] then None else Seen(LastSeen(run[..|run| - 1]), run[|run| - 1].now, run[|run| - 1].batch)
  }

  /** Time does not run backwards, and every batch is possible when it comes. */
  predicate Real(s: Refresh, run: seq<Timed>)
  {
    run != [] ==>
      var n := |run| - 1;
      && Real(s, run[..n]) && Possible(After(s, run[..n]), run[n].now, run[n].batch)
      && (n > 0 ==> run[n - 1].now <= run[n].now)
  }

  function Clock(run: seq<Timed>): nat
  {
    if run == [] then 0 else run[|run| - 1].now
  }

  lemma PastLater(s: Refresh, a: nat, b: nat)
    requires Past(s, a) && a <= b
    ensures Past(s, b)
  {
  }

  /** Over every run: the machine is in order, an armed deadline leaves the grace, and a
      throttled input is close behind a handled one. */
  lemma {:induction false} RunKeeps(config: RefreshConfig, run: seq<Timed>)
    requires GoodConfig(config) && Real(Started(config), run)
    ensures var s := After(Started(config), run);
            && Valid(s) && Past(s, Clock(run)) && Graceful(s) && Near(s, LastSeen(run))
            && (LastSeen(run).Some? ==> LastSeen(run).value <= Clock(run))
  {
    hide Valid, Past, Graceful, Near, OnBatch, Possible;
    if run == [] {
      StartedValid(config);
      NothingYet(config);
    } else {
      var n := |run| - 1;
      var s := After(Started(config), run[..n]);
      RunKeeps(config, run[..n]);
      PastLater(s, Clock(run[..n]), run[n].now);
      BatchKeeps(s, run[n].now, run[n].batch);
      BatchGraceful(s, run[n].now, run[n].batch);
      BatchNear(s, run[n].now, run[n].batch, LastSeen(run[..n]));
    }
  }

  lemma NothingYet(config: RefreshConfig)
    ensures Past(Started(config), 0) && Graceful(Started(config)) && Near(Started(config), None)
  {
  }

  /** No idle switch comes earlier than min(T, 10) seconds after an input that was handled
      before the batch, whatever apps were switched to and whatever was reloaded since, nor
      earlier than one second less after an input that was throttled away; and the deadline
      is never more than T away. The order in which the batch is served does not matter. */
  lemma IdleBound(config: RefreshConfig, run: seq<Timed>, last: Timed)
    requires GoodConfig(config) && Real(Started(config), run + [last]) && last.batch.timer
    ensures var s := After(Started(config), run);
            && (s.lastInput.Some? ==> last.now >= s.lastInput.value + Grace(s.current.timeout))
            && (LastSeen(run).Some? ==> last.now + SECOND > LastSeen(run).value + Grace(s.current.timeout))
            && s.deadline.Some? && s.deadline.value <= Clock(run) + s.current.timeout * SECOND
  {
    var whole := run + [last];
    assert whole[..|whole| - 1] == run;
    RunKeeps(config, run);
  }

  predicate WakeFirst(b: Batch)
  {
    b.wake && !b.timerFirst
  }

  /** The machine as the expired timer finds it. */
  function AtTimer(s: Refresh, now: nat, b: Batch): Refresh
  {
    if WakeFirst(b) then OnWake(s, now, b) else s
  }

  /** The timer makes the machine idle. */
  predicate GoesIdle(s: Refresh, now: nat, b: Batch)
  {
    b.timer && AtTimer(s, now, b).enabled
  }

  /** The last input served before the timer is. */
  function SeenAtTimer(was: Option<nat>, now: nat, b: Batch): Option<nat>
  {
    if WakeFirst(b) then Seen(was, now, b) else was
  }

  /** Counted from the inputs of its own batch as well, the idle switch comes too early
      exactly when the wake-up is served first and holds an input. */
  lemma IdleTooEarly(config: RefreshConfig, run: seq<Timed>, last: Timed)
    requires GoodConfig(config) && Real(Started(config), run + [last])
    requires GoesIdle(After(Started(config), run), last.now, last.batch)
    ensures var s, seen := After(Started(config), run), SeenAtTimer(LastSeen(run), last.now, last.batch);
            (seen.Some? && last.now + SECOND <= seen.value + Grace(s.current.timeout)) <==>
            WakeFirst(last.batch) && Input in last.batch.msgs
  {
    IdleBound(config, run, last);
    RunKeeps(config, run);
  }

  /** The grace cannot be longer: an input that falls just inside the debounce is followed by
      idle ten seconds and one tick later. */
  lemma GraceIsTight(s: Refresh, now: nat)
    requires Valid(s) && s.current.timeout > DEBOUNCE_MARGIN + 1 && s.lastReset.Some? && s.lastInput == s.lastReset
    requires now == s.lastReset.value + Debounce(s.current.timeout) - 1
    ensures var r := HandleInput(s, now);
            r.lastInput == Some(now) && r.deadline == Some(now + Grace(s.current.timeout) + 1)
  {
  }

  // ----- whose rates they are

  /** The app the message switches to, if it does. */
  function SwitchOf(m: Msg): Option<string>
  {
    match m
    case BindLauncher => Some("com.android.launcher3")
    case FgPkg(name) => if name != "" then Some(name) else None
    case Input => None
  }

  /** The last app switched to within messages. */
  function LastSwitch(ms: seq<Msg>): Option<string>
  {
    if ms == [] then None
    else if SwitchOf(ms[|ms| - 1]).Some? then SwitchOf(ms[|ms| - 1])
    else LastSwitch(ms[..|ms| - 1])
  }

  /** The last app switched to in a run. */
  function LastApp(run: seq<Timed>): Option<string>
  {
    if run == [] then None
    else
      var b := run[|run| - 1].batch;
      if b.wake && LastSwitch(b.msgs).Some? then LastSwitch(b.msgs) else LastApp(run[..|run| - 1])
  }

  /** The last configuration loaded in a run. */
  function LastReload(run: seq<Timed>): Option<RefreshConfig>
  {
    if run == [] then None
    else
      var b := run[|run| - 1].batch;
      if b.wake && b.reload.Some? then b.reload else LastReload(run[..|run| - 1])
  }

  /** The app's own entry, if it has one and is not the default launcher, and otherwise the
      global rates. */
  predicate RatesOf(config: RefreshConfig, app: string, r: Rates)
  {
    if app in config.apps && app != "com.android.launcher3" then r == config.apps[app] else r == config.all
  }

  /** The machine serves this app under this configuration; before the first switch and the
      first reload it has the global rates. */
  predicate Serves(s: Refresh, config: RefreshConfig, app: Option<string>, initial: bool)
  {
    && s.config == config && s.pkg == (if app.Some? then app.value else "")
    && (if initial && app.None? then s.current == config.all else RatesOf(config, s.pkg, s.current))
  }

  lemma TimerServes(s: Refresh, config: RefreshConfig, app: Option<string>, initial: bool)
    requires Serves(s, config, app, initial)
    ensures Serves(OnTimer(s), config, app, initial)
  {
  }

  lemma MsgServes(s: Refresh, now: nat, m: Msg, config: RefreshConfig, app: Option<string>, initial: bool)
    requires Serves(s, config, app, initial)
    ensures Serves(OnMsg(s, now, m), config, if SwitchOf(m).Some? then SwitchOf(m) else app, initial)
  {
  }

  lemma {:induction false} MsgsServe(s: Refresh, now: nat, ms: seq<Msg>, config: RefreshConfig, app: Option<string>, initial: bool)
    requires Serves(s, config, app, initial)
    ensures Serves(OnMsgs(s, now, ms), config, if LastSwitch(ms).Some? then LastSwitch(ms) else app, initial)
  {
    hide OnMsg, Serves, SwitchOf;
    if ms != [] {
      var n := |ms| - 1;
      MsgsServe(s, now, ms[..n], config, app, initial);
      MsgServes(OnMsgs(s, now, ms[..n]), now, ms[n], config, if LastSwitch(ms[..n]).Some? then LastSwitch(ms[..n]) else app, initial);
    }
  }

  lemma ReloadServes(s: Refresh, now: nat, c: RefreshConfig, config: RefreshConfig, app: Option<string>, initial: bool)
    requires Serves(s, config, app, initial)
    ensures Serves(CheckConfig(s, now, c), c, app, false)
  {
  }

  lemma WakeServes(s: Refresh, now: nat, b: Batch, config: RefreshConfig, app: Option<string>, initial: bool)
    requires Serves(s, config, app, initial)
    ensures Serves(OnWake(s, now, b), if b.reload.Some? then b.reload.value else config,
                   if LastSwitch(b.msgs).Some? then LastSwitch(b.msgs) else app, initial && b.reload.None?)
  {
    hide OnMsg, CheckConfig, Serves;
    MsgsServe(s, now, b.msgs, config, app, initial);
    if b.reload.Some? {
      ReloadServes(OnMsgs(s, now, b.msgs), now, b.reload.value, config,
                   if LastSwitch(b.msgs).Some? then LastSwitch(b.msgs) else app, initial);
    }
  }

  lemma BatchServes(s: Refresh, now: nat, b: Batch, config: RefreshConfig, app: Option<string>, initial: bool)
    requires Serves(s, config, app, initial)
    ensures Serves(OnBatch(s, now, b), if b.wake && b.reload.Some? then b.reload.value else config,
                   if b.wake && LastSwitch(b.msgs).Some? then LastSwitch(b.msgs) else app, initial && !(b.wake && b.reload.Some?))
  {
    hide OnWake, OnTimer, Serves;
    TimerServes(s, config, app, initial);
    WakeServes(s, now, b, config, app, initial);
    WakeServes(OnTimer(s), now, b, config, app, initial);
    if b.wake {
      TimerServes(OnWake(s, now, b), if b.reload.Some? then b.reload.value else config,
                  if LastSwitch(b.msgs).Some? then LastSwitch(b.msgs) else app, initial && b.reload.None?);
    }
  }

  /** Over every run: the rates in use are those of the last app switched to, under the last
      configuration loaded. */
  lemma {:induction false} RatesAreLast(config: RefreshConfig, run: seq<Timed>)
    ensures Serves(After(Started(config), run), if LastReload(run).Some? then LastReload(run).value else config,
                   LastApp(run), LastReload(run).None?)
  {
    hide OnBatch, Serves, LastSwitch;
    if run == [] {
      StartServes(config);
    } else {
      var n := |run| - 1;
      RatesAreLast(config, run[..n]);
      BatchServes(After(Started(config), run[..n]), run[n].now, run[n].batch,
                  if LastReload(run[..n]).Some? then LastReload(run[..n]).value else config,
                  LastApp(run[..n]), LastReload(run[..n]).None?);
    }
  }

  lemma StartServes(config: RefreshConfig)
    ensures Serves(Started(config), config, None, true)
  {
  }

  /** The machine shows the active rate of r, awake, and its timer runs for r's timeout from
      now, if the two rates differ. */
  predicate Active(s: Refresh, now: nat, r: Rates)
  {
    && s.current == r && s.applied == r.active
    && (r.active != r.idle ==> !s.paused && s.enabled && s.lastReset == Some(now) && s.deadline == Some(now + r.timeout * 1_000_000_000))
    && (r.active == r.idle ==> !s.enabled && s.lastReset.None? && s.deadline.None?)
  }

  /** The machine starts awake at the global active rate, with no timer. */
  lemma StartShows(config: RefreshConfig)
    ensures var s := Started(config);
            && s.applied == config.all.active && !s.paused && s.deadline.None? && s.lastReset.None? && s.lastInput.None?
            && (s.enabled <==> config.all.active != config.all.idle)
  {
  }

  /** After a switch to an app its own active rate is shown and its own timeout runs. */
  lemma SwitchShows(s: Refresh, now: nat, m: Msg, r: Rates)
    requires Valid(s) && SwitchOf(m).Some? && RatesOf(s.config, SwitchOf(m).value, r)
    ensures Active(OnMsg(s, now, m), now, r)
  {
  }

  /** An empty name switches nothing, and neither does an input within a second of the last
      one handled. Any later input wakes the machine: it shows the active rate, with the timer
      running for the whole timeout unless the timer was set within the debounce. */
  lemma InputShows(s: Refresh, now: nat)
    requires Valid(s) && Past(s, now)
    ensures OnMsg(s, now, FgPkg("")) == s
    ensures var n, r := OnMsg(s, now, Input), s.current;
            if s.lastInput.Some? && now < s.lastInput.value + 1_000_000_000 then n == s
            else
              && n.lastInput == Some(now) && n.config == s.config && n.pkg == s.pkg
              && (if s.lastReset.Some? && now < s.lastReset.value + (r.timeout - 10) * 1_000_000_000
                  then n == s.(lastInput := Some(now))
                  else Active(n, now, r))
  {
  }

  /** After a reload the app's active rate is shown; the timer is started again if it ran and
      the two rates differ, and is left stopped otherwise. */
  lemma ReloadShows(s: Refresh, now: nat, c: RefreshConfig, r: Rates)
    requires Valid(s) && GoodConfig(c) && RatesOf(c, s.pkg, r)
    ensures var n := CheckConfig(s, now, c);
            && n.config == c && n.current == r && n.applied == r.active && n.lastInput == s.lastInput
            && (if s.lastReset.Some? then Active(n, now, r)
                else n.lastReset.None? && n.deadline.None? && n.paused == s.paused)
  {
  }

  /** The timer shows the idle rate and stops, if there are two rates. */
  lemma TimerShows(s: Refresh)
    requires Valid(s)
    ensures var n, r := OnTimer(s), s.current;
            if r.active == r.idle then n == s
            else n == s.(applied := r.idle, paused := true, deadline := None, lastReset := None)
  {
  }

  // ----- what is not promised

  /** When both fds are ready and the wake-up is served first, the expired timer is served
      too: the machine goes idle in the instant of an input. */
  lemma BothFdsIdleEarly(s: Refresh, now: nat)
    requires Valid(s) && Past(s, now) && Graceful(s) && Expired(s, now)
    ensures var b := Batch([Input], None, true, true, false);
            var r := OnBatch(s, now, b);
            Possible(s, now, b) && r.lastInput == Some(now) && r.paused && r.applied == r.current.idle
  {
    assert s.lastInput.Some? ==> now - s.lastInput.value >= SECOND;
    assert [Input][..0] == [];
    assert OnMsgs(s, now, [Input]) == OnMsg(OnMsgs(s, now, []), now, Input);
  }

  /** A paused machine shows the idle rate. */
  predicate PausedIdle(s: Refresh)
  {
    s.paused ==> s.applied == s.current.idle
  }

  lemma MsgKeepsPaused(s: Refresh, now: nat, m: Msg)
    requires Valid(s) && PausedIdle(s)
    ensures PausedIdle(OnMsg(s, now, m))
  {
  }

  lemma {:induction false} MsgsKeepPaused(s: Refresh, now: nat, ms: seq<Msg>)
    requires Valid(s) && PausedIdle(s)
    ensures PausedIdle(OnMsgs(s, now, ms))
  {
    hide Valid, OnMsg, PausedIdle;
    if ms != [] {
      var front := ms[..|ms| - 1];
      MsgsKeep(s, now, front);
      MsgsKeepPaused(s, now, front);
      MsgKeepsPaused(OnMsgs(s, now, front), now, ms[|ms| - 1]);
    }
  }

  /** The configuration has one rate for the package. */
  predicate OneRate(config: RefreshConfig, pkg: string)
  {
    RatesFor(config, pkg).active == RatesFor(config, pkg).idle
  }

  /** A reload brings the active rate back without a look at the pause: paused implies idle
      afterwards exactly when the machine was awake or the new configuration has one rate
      for the package. */
  lemma ReloadKeepsPaused(s: Refresh, now: nat, config: RefreshConfig)
    requires Valid(s)
    ensures PausedIdle(CheckConfig(s, now, config)) <==> !s.paused || OneRate(config, s.pkg)
  {
  }

  /** The machine as a reload of the batch finds it. */
  function BeforeReload(s: Refresh, now: nat, b: Batch): Refresh
  {
    OnMsgs(if b.timer && b.timerFirst then OnTimer(s) else s, now, b.msgs)
  }

  /** Paused implies idle after a wake-up exactly when no reload breaks it: the batch has
      none, the timer is served behind it, or the reload finds the machine awake or has one
      rate for the package. */
  lemma PausedIsIdle(s: Refresh, now: nat, b: Batch)
    requires Valid(s) && Possible(s, now, b) && PausedIdle(s)
    ensures PausedIdle(OnBatch(s, now, b)) <==>
            !b.wake || b.reload.None? || (b.timer && !b.timerFirst)
            || !BeforeReload(s, now, b).paused || OneRate(b.reload.value, BeforeReload(s, now, b).pkg)
  {
    hide OnMsg, Valid;
    var t := if b.timer && b.timerFirst then OnTimer(s) else s;
    TimerKeeps(s);
    MsgsKeep(t, now, b.msgs);
    MsgsKeepPaused(t, now, b.msgs);
    var w := OnMsgs(t, now, b.msgs);
    if b.reload.Some? {
      ReloadKeepsPaused(w, now, b.reload.value);
      ReloadKeeps(w, now, b.reload.value);
    }
    TimerAlways(w);
    TimerAlways(OnWake(t, now, b));
    hide CheckConfig;
  }

  /** From the start, with any two configurations that have two rates: an input, the timer,
      and a reload end with a paused machine at the active rate. */
  lemma PausedActive(config: RefreshConfig, other: RefreshConfig)
    requires GoodConfig(config) && config.all.active != config.all.idle
    requires GoodConfig(other) && !OneRate(other, "")
    ensures var end := config.all.timeout * SECOND;
            var run := [Timed(0, Batch([Input], None, true, false, false)),
                        Timed(end, Batch([], None, false, true, true)),
                        Timed(end, Batch([], Some(other), true, false, false))];
            var s := After(Started(config), run);
            Real(Started(config), run) && s.paused && s.enabled && s.applied == s.current.active != s.current.idle
  {
    var end := config.all.timeout * SECOND;
    var a := Timed(0, Batch([Input], None, true, false, false));
    var b := Timed(end, Batch([], None, false, true, true));
    var c := Timed(end, Batch([], Some(other), true, false, false));
    var s0 := Started(config);
    assert [Input][..0] == [];
    assert OnMsgs(s0, 0, [Input]) == OnMsg(OnMsgs(s0, 0, []), 0, Input);
    assert [a][..0] == [] && [a, b][..1] == [a] && [a, b, c][..2] == [a, b];
    assert After(s0, []) == s0 && Real(s0, []);
    assert After(s0, [a]) == OnBatch(s0, 0, a.batch) && Real(s0, [a]);
    assert After(s0, [a, b]) == OnBatch(After(s0, [a]), end, b.batch) && Real(s0, [a, b]);
    assert After(s0, [a, b, c]) == OnBatch(After(s0, [a, b]), end, c.batch) && Real(s0, [a, b, c]);
  }

  lemma TimerKeeps(s: Refresh)
    requires Valid(s)
    ensures Valid(OnTimer(s)) && (PausedIdle(s) ==> PausedIdle(OnTimer(s)))
  {
  }

  /** The timer leaves an idle rate behind it or finds the machine without a timer. */
  lemma TimerAlways(s: Refresh)
    requires Valid(s)
    ensures PausedIdle(OnTimer(s)) <==> PausedIdle(s) || s.enabled
  {
  }
}
