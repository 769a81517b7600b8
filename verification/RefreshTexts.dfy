/** The refresh-rate lines as the editor writes them, read back. */
module RefreshTexts {
  import opened Base
  import opened Text
  import opened Syntax
  import opened Shapes
  import opened Printing
  import opened CpuSpecs
  import opened CpuTexts
  import opened CpuSets
  import opened RefreshMachine
  import opened RefreshStates

  /** `refresh_mode_str`. */
  function ModeText(mode: int): string
  {
    match mode
    case 0 => "120"
    case 2 => "90"
    case _ => "60"
  }

  /** The three modes read back, whatever white space is around them; any other text is the
      mode of 60. */
  lemma ModeReads(mode: int, lead: string, trail: string, s: string)
    requires mode in {0, 1, 2} && Blank(lead) && Blank(trail)
    ensures ParseMode(lead + ModeText(mode) + trail) == mode
    ensures Trim(s) !in {"120", "90"} ==> ParseMode(s) == 1
  {
    hide Trim;
    TrimIs(lead, ModeText(mode), trail);
  }

  lemma ModePlain(mode: int)
    ensures var m := ModeText(mode);
            Trimmed(m) && Trim(m) == m && (forall i | 0 <= i < |m| :: '0' <= m[i] <= '9') && ParseMode("" + m + "") == ParseMode(m)
  {
    var m := ModeText(mode);
    TrimTrimmed(m);
    assert "" + m + "" == m;
  }

  lemma NumberReads(t: nat)
    requires t <= I32_MAX
    ensures ParseI32(Decimal(t)) == Some(t) && Trim(Decimal(t)) == Decimal(t)
  {
    NumberText(t);
    DecimalParses(t);
    PlainTrim(Decimal(t));
  }

  // ----- the rates of an app

  lemma ThreeParts(a: string, i: string)
    requires '-' !in a && '-' !in i
    ensures Split("refresh-" + a + "-" + i, '-') == ["refresh", a, i]
  {
    hide Find, Split;
    var r := "refresh";
    FindFacts(r, '-');
    OneSplit(r, '-');
    SplitLast(r, a, '-');
    SplitLast(r + ['-'] + a, i, '-');
    DashTexts(r, a, i);
    ThreeOf(r, a, i);
  }

  lemma DashTexts(r: string, a: string, i: string)
    requires r == "refresh"
    ensures "refresh-" + a + "-" + i == r + ['-'] + a + ['-'] + i
  {
    assert r + ['-'] == "refresh-";
  }

  lemma ThreeOf(r: string, a: string, i: string)
    ensures [r] + [a] + [i] == [r, a, i]
  {
  }

  lemma FourParts(t: string, a: string, i: string)
    requires '-' !in t && '-' !in a && '-' !in i
    ensures Split("refresh-" + t + "-" + a + "-" + i, '-') == ["refresh", t, a, i]
  {
    hide Find, Split;
    ThreeParts(t, a);
    SplitLast("refresh-" + t + "-" + a, i, '-');
    assert "refresh-" + t + "-" + a + "-" + i == "refresh-" + t + "-" + a + ['-'] + i;
  }

  /** The written rates of an app read back: the active one first, then the idle one. A
      timeout of zero counts as one second; without one it is thirty. */
  lemma AppRatesRead(t: nat, active: int, idle: int)
    requires t <= I32_MAX && active in {0, 1, 2} && idle in {0, 1, 2}
    ensures AppRates("refresh-" + ModeText(active) + "-" + ModeText(idle)) == Some(Rates(30, active, idle))
    ensures AppRates("refresh-" + Decimal(t) + "-" + ModeText(active) + "-" + ModeText(idle)) ==
              Some(Rates(if t == 0 then 1 else t, active, idle))
  {
    hide ParseMode, ParseI32, ModeText, Decimal, Split;
    NumberText(t);
    NumberReads(t);
    ModePlain(active);
    ModePlain(idle);
    ModeReads(active, "", "", "");
    ModeReads(idle, "", "", "");
    ThreeParts(ModeText(active), ModeText(idle));
    FourParts(Decimal(t), ModeText(active), ModeText(idle));
  }

  // ----- the global lines

  /** A written field: a key, an equals sign, a value. */
  lemma FieldReads(key: string, value: string)
    requires Trimmed(key) && Trimmed(value) && '=' !in key
    requires forall c | c in key + value :: c !in {'#', '/'}
    ensures var line := key + "=" + value; GlobalKey(line) == key && GlobalValue(line) == value
  {
    hide Trim, Find;
    var line := key + ['='] + value;
    assert line == key + "=" + value;
    forall i | 0 <= i < |line| ensures line[i] !in {'#', '/'} {
      if i < |key| {
        assert line[i] == (key + value)[i] && (key + value)[i] in key + value;
      } else if i > |key| {
        assert line[i] == (key + value)[i - 1] && (key + value)[i - 1] in key + value;
      }
    }
    NoMarkIn(line);
    Uncommented(line);
    TrimTrimmed(line);
    TrimTrimmed(key);
    FirstIn(key, '=', value);
    assert line[..|key|] == key && line[|key| + 1..] == value;
  }

  lemma Uncommented(s: string)
    requires NoMark(s)
    ensures StripComment(s) == s
  {
    MarkFacts(s, 0);
  }

  /** The three global lines as `refresh_set_config` writes them. */
  lemma GlobalsRead(t: nat, mode: int)
    requires t <= I32_MAX && mode in {0, 1, 2}
    ensures var line := "refresh_timeout=" + Decimal(t);
            GlobalKey(line) == "refresh_timeout" && ParseI32(Trim(GlobalValue(line))) == Some(t)
    ensures var line := "refresh_active=" + ModeText(mode);
            GlobalKey(line) == "refresh_active" && ParseMode(GlobalValue(line)) == mode
    ensures var line := "refresh_idle=" + ModeText(mode);
            GlobalKey(line) == "refresh_idle" && ParseMode(GlobalValue(line)) == mode
  {
    hide ParseMode, ParseI32, ModeText, Decimal, GlobalKey, GlobalValue, Trim;
    NumberText(t);
    NumberReads(t);
    PlainTrimmed(Decimal(t));
    ModePlain(mode);
    ModeReads(mode, "", "", "");
    FieldReads("refresh_timeout", Decimal(t));
    FieldReads("refresh_active", ModeText(mode));
    FieldReads("refresh_idle", ModeText(mode));
    assert "refresh_timeout" + "=" + Decimal(t) == "refresh_timeout=" + Decimal(t);
    assert "refresh_active" + "=" + ModeText(mode) == "refresh_active=" + ModeText(mode);
    assert "refresh_idle" + "=" + ModeText(mode) == "refresh_idle=" + ModeText(mode);
  }

  lemma PlainTrimmed(s: string)
    requires Plain(s)
    ensures Trimmed(s) && forall c | c in s :: c !in {'#', '/'}
  {
  }

  /** A minus sign is read too, down to the smallest 32-bit number. */
  lemma NegativeReads(t: int)
    requires 0 <= t <= 0x8000_0000
    ensures ParseI32("-" + Decimal(t)) == Some(-t)
  {
    var s := "-" + Decimal(t);
    DecimalDigits(t);
    assert s[1..] == Decimal(t) && s[0] == '-';
  }
}
