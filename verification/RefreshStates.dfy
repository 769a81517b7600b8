/** The refresh thread's state, changed in place by its handlers and tied to the machine
    of RefreshMachine; and the configuration lines that feed it. */
module RefreshStates {
  import opened Base
  import opened Text
  import opened Syntax
  import opened CpuSpecs
  import opened RefreshMachine

  class RefreshState {
    var config: RefreshConfig
    var current: Rates
    var applied: int
    var paused: bool
    var enabled: bool
    var lastReset: Option<nat>
    var pkg: string
    var lastInput: Option<nat>
    /** The timer: when it will expire, if it is armed. */
    var deadline: Option<nat>

    ghost function State(): Refresh
      reads this
    {
      Refresh(config, current, applied, paused, enabled, lastReset, pkg, lastInput, deadline)
    }

    constructor (c: RefreshConfig)
      ensures State() == Started(c)
    {
      config, current := c, c.all;
      applied, paused, enabled := c.all.active, false, c.all.idle != c.all.active;
      lastReset, pkg, lastInput, deadline := None, "", None, None;
    }

    method SetRefreshRate(mode: int)
      modifies this`applied
      ensures applied == mode
    {
      if mode == applied {
        return;
      }
      applied := mode;
    }

    method ApplyAppConfig(name: string)
      modifies this`current, this`enabled
      ensures State() == WithRates(old(State()), name)
    {
      if name != DEFAULT_REFRESH_PACKAGE {
        if name in config.apps {
          current := config.apps[name];
        } else {
          current := config.all;
        }
      } else {
        current := config.all;
      }
      enabled := current.idle != current.active;
    }

    method ResetTimerAt(now: nat, force: bool)
      modifies this`deadline, this`lastReset, this`paused
      ensures State() == ResetTimer(old(State()), now, force)
    {
      if !enabled {
        deadline := None;
        lastReset := None;
        return;
      }
      if paused {
        paused := false;
      }
      if !force && applied == current.active && current.active != current.idle {
        var seconds := if current.timeout - DEBOUNCE_MARGIN > 0 then current.timeout - DEBOUNCE_MARGIN else 0;
        if lastReset.Some? {
          if now - lastReset.value < seconds * SECOND {
            return;
          }
        }
      }
      deadline := TimerSet(deadline, now, current.timeout);
      lastReset := Some(now);
    }

    method GoIdle()
      modifies this
      ensures State() == SwitchToIdle(old(State()))
    {
      if !enabled {
        return;
      }
      SetRefreshRate(current.idle);
      paused := true;
      deadline := None;
      lastReset := None;
    }

    method BindLauncherAt(now: nat)
      modifies this
      ensures State() == BindDefaultLauncher(old(State()), now)
    {
      pkg := DEFAULT_REFRESH_PACKAGE;
      ApplyAppConfig(DEFAULT_REFRESH_PACKAGE);
      SetRefreshRate(current.active);
      ResetTimerAt(now, true);
    }

    method TryApply(now: nat, name: string) returns (done: bool)
      modifies this
      ensures State() == TryApplyFgPkg(old(State()), now, name) && done == (name != "")
    {
      if name == "" {
        return false;
      }
      pkg := name;
      ApplyAppConfig(name);
      SetRefreshRate(current.active);
      ResetTimerAt(now, true);
      return true;
    }

    method InputAt(now: nat)
      modifies this
      ensures State() == HandleInput(old(State()), now)
    {
      if lastInput.Some? {
        if now - lastInput.value < SECOND {
          return;
        }
      }
      lastInput := Some(now);
      if lastReset.None? {
        SetRefreshRate(current.active);
        paused := false;
        ResetTimerAt(now, true);
      } else {
        ResetTimerAt(now, false);
      }
    }

    method ReloadAt(now: nat, c: RefreshConfig)
      modifies this
      ensures State() == CheckConfig(old(State()), now, c)
    {
      config := c;
      current := c.all;
      enabled := current.idle != current.active;
      ApplyAppConfig(pkg);
      SetRefreshRate(current.active);
      if lastReset.Some? {
        ResetTimerAt(now, true);
      }
    }

    method WakeAt(now: nat, b: Batch)
      modifies this
      ensures State() == OnWake(old(State()), now, b)
    {
      hide HandleInput, BindDefaultLauncher, TryApplyFgPkg, CheckConfig;
      for k := 0 to |b.msgs|
        invariant State() == OnMsgs(old(State()), now, b.msgs[..k])
      {
        assert b.msgs[..k + 1][..k] == b.msgs[..k];
        match b.msgs[k] {
          case Input => InputAt(now);
          case BindLauncher => BindLauncherAt(now);
          case FgPkg(name) => var done := TryApply(now, name);
        }
      }
      assert b.msgs[..|b.msgs|] == b.msgs;
      if b.reload.Some? {
        ReloadAt(now, b.reload.value);
      }
    }

    /** One turn of the loop over the ready fds; expiry is not looked at again. */
    method Turn(now: nat, b: Batch)
      modifies this
      ensures State() == OnBatch(old(State()), now, b)
    {
      hide SwitchToIdle, OnWake;
      if b.timer && b.timerFirst {
        GoIdle();
      }
      if b.wake {
        WakeAt(now, b);
      }
      if b.timer && !b.timerFirst {
        GoIdle();
      }
    }
  }

  // ----- configuration lines

  const I32_MAX := 0x7FFF_FFFF

  /** `parse::<i32>`. */
  function ParseI32(s: string): Option<int>
  {
    if s != "" && s[0] == '-' then
      if |s| > 1 && AllDigits(s[1..]) && Value(s[1..]) <= I32_MAX + 1 then
        var v: int := Value(s[1..]);
        Some(-v)
      else None
    else
      match ParseUsize(s)
      case Some(v) => if v <= I32_MAX then Some(v) else None
      case None => None
  }

  /** `parse_refresh_mode`. */
  function ParseMode(s: string): (m: int)
    ensures m in {0, 1, 2}
  {
    match Trim(s)
    case "120" => 0
    case "90" => 2
    case _ => 1
  }

  class RefreshFields {
    var all: Rates
    var apps: map<string, Rates>

    constructor ()
      ensures GoodConfig(RefreshConfig(all, apps))
    {
      all := Rates(30, 0, 1);
      apps := map[];
    }

    /** `parse_refresh_config_line`: true when the line is one of the three global fields.
        Only a positive number changes the timeout. */
    method ParseRefreshConfigLine(line: string) returns (taken: bool)
      requires GoodConfig(RefreshConfig(all, apps))
      modifies this`all
      ensures GoodConfig(RefreshConfig(all, apps))
      ensures taken <==> GlobalKey(line) in {"refresh_timeout", "refresh_active", "refresh_idle"}
      ensures GlobalKey(line) == "refresh_timeout" ==>
                var v := ParseI32(Trim(GlobalValue(line)));
                all == old(all).(timeout := if v.Some? && v.value > 0 then v.value else old(all).timeout)
      ensures GlobalKey(line) == "refresh_active" ==> all == old(all).(active := ParseMode(GlobalValue(line)))
      ensures GlobalKey(line) == "refresh_idle" ==> all == old(all).(idle := ParseMode(GlobalValue(line)))
      ensures !taken ==> all == old(all)
    {
      hide Trim, StripComment, ParseI32, ParseMode;
      var text := Trim(StripComment(line));
      var eq := Find(text, '=');
      if eq < 0 {
        return false;
      }
      var key, value := Trim(text[..eq]), text[eq + 1..];
      match key {
        case "refresh_timeout" =>
          var v := ParseI32(Trim(value));
          if v.Some? && v.value > 0 {
            all := all.(timeout := v.value);
          }
          return true;
        case "refresh_active" =>
          all := all.(active := ParseMode(value));
          return true;
        case "refresh_idle" =>
          all := all.(idle := ParseMode(value));
          return true;
        case _ =>
          return false;
      }
    }

    /** `route_pkg_val_line`: a value that starts with `refresh-` sets a package's rates; its
        timeout is at least one second. */
    method RoutePkgValLine(pkg: string, val: string) returns (taken: bool)
      requires GoodConfig(RefreshConfig(all, apps))
      modifies this`apps
      ensures GoodConfig(RefreshConfig(all, apps))
      ensures taken <==> pkg != "" && StartsWith(val, "refresh-")
      ensures apps == if taken && AppRates(val).Some? then old(apps)[pkg := AppRates(val).value] else old(apps)
    {
      hide ParseI32, ParseMode, StartsWith;
      if pkg == "" || !StartsWith(val, "refresh-") {
        return false;
      }
      var parts := Split(val, '-');
      if |parts| == 3 && parts[1] != "" {
        var a := ParseMode(parts[1]);
        var i := ParseMode(parts[2]);
        apps := apps[pkg := Rates(30, a, i)];
      } else if |parts| == 4 && parts[1] != "" {
        var t := match ParseI32(parts[1]) case Some(v) => v case None => 30;
        var a := ParseMode(parts[2]);
        var i := ParseMode(parts[3]);
        apps := apps[pkg := Rates(if t > 1 then t else 1, a, i)];
      }
      return true;
    }
  }

  /** The trimmed text in front of the first `=` of a line, or the empty text. */
  function GlobalKey(line: string): string
  {
    var text := Trim(StripComment(line));
    var eq := Find(text, '=');
    if eq < 0 then "" else Trim(text[..eq])
  }

  function GlobalValue(line: string): string
  {
    var text := Trim(StripComment(line));
    text[Find(text, '=') + 1..]
  }

  function AppRates(val: string): Option<Rates>
  {
    var parts := Split(val, '-');
    if |parts| == 3 && parts[1] != "" then Some(Rates(30, ParseMode(parts[1]), ParseMode(parts[2])))
    else if |parts| == 4 && parts[1] != "" then
      var t := match ParseI32(parts[1]) case Some(v) => v case None => 30;
      Some(Rates(if t > 1 then t else 1, ParseMode(parts[2]), ParseMode(parts[3])))
    else None
  }
}
