/**
 * The app object: the fields its alert checks and its status-bar toggle
 * update in place, and those methods, each proved to leave the state the
 * rule functions of `Alerts` and `StatusBar` describe.
 */
module App {
  import opened Wrappers
  import opened Usage
  import opened Alerts
  import StatusBar
  import UsageHistory
  import Display

  class ClaudeBar {
    /** `self.config` */
    var config: Config
    /** `_warned_pcts`: the warn and critical markers already announced. */
    var warned: set<string>
    /** `_prev_pcts`: the last percentage seen per row key. */
    var prevPcts: map<string, int>
    /** `_pacing_alerted`: the history keys with a pacing alert standing. */
    var pacingAlerted: set<string>
    /** `_history`: the short-term usage history. */
    var history: map<string, seq<UsageHistory.Entry>>
    /** `_provider_data` */
    var providerData: seq<ProviderData>
    /** `_last_data` */
    var lastData: Option<UsageData>
    /** Every notice handed to `_notify`, in order. */
    var notices: seq<Notice>

    /** The fields `__init__` sets that these rules read; the loaded history is passed in. */
    constructor (config: Config, history: map<string, seq<UsageHistory.Entry>>)
      ensures this.config == config && this.history == history
      ensures warned == {} && prevPcts == map[] && pacingAlerted == {}
      ensures providerData == [] && lastData == None && notices == []
    {
      this.config := config;
      this.history := history;
      warned := {};
      prevPcts := map[];
      pacingAlerted := {};
      providerData := [];
      lastData := None;
      notices := [];
    }

    /** The threshold-alert state. */
    function Watching(): Watch
      reads this
    {
      Watch(warned, prevPcts, notices)
    }

    /** The pacing-alert state. */
    function PacingState(): Pacing
      reads this
    {
      Pacing(pacingAlerted, notices)
    }

    /** The body of the row loops of `_check_warnings` and `_check_provider_warnings`. */
    method CheckRow(c: Check)
      modifies this
      ensures Watching() == Step(old(Watching()), c)
      ensures config == old(config) && pacingAlerted == old(pacingAlerted) && history == old(history)
      ensures providerData == old(providerData) && lastData == old(lastData)
    {
      var warnKey := WarnKey(c.key);
      var critKey := CritKey(c.key);
      var pct := c.row.pct;
      if c.resetOn && c.key in prevPcts && prevPcts[c.key] >= Display.WarnThreshold
        && pct < Display.WarnThreshold && prevPcts[c.key] - pct >= ResetMinDrop
      {
        warned := warned - {warnKey, critKey};
        notices := notices + [ResetNotice(c.subject, pct)];
      }
      if c.warnOn {
        if pct >= Display.CritThreshold && critKey !in warned {
          warned := warned + {critKey};
          notices := notices + [CritNotice(c.subject, pct, OrElse(c.row.resetStr, "Limit almost reached"))];
        } else if pct >= Display.WarnThreshold && warnKey !in warned {
          warned := warned + {warnKey};
          notices := notices + [WarnNotice(c.subject, pct, OrElse(c.row.resetStr, "Approaching limit"))];
        } else if pct < Display.WarnThreshold {
          warned := warned - {warnKey, critKey};
        }
      }
      prevPcts := prevPcts[c.key := pct];
    }

    /** `_check_warnings`: the Claude rows that are present, in order. */
    method CheckWarnings(data: UsageData)
      modifies this
      ensures Watching() == Steps(old(Watching()), ClaudeChecks(config, data, 3))
      ensures config == old(config) && pacingAlerted == old(pacingAlerted) && history == old(history)
      ensures providerData == old(providerData) && lastData == old(lastData)
    {
      var rows := ClaudeRows(data);
      var warnOn := NotifEnabled(config, "claude_warning");
      var resetOn := NotifEnabled(config, "claude_reset");
      for i := 0 to |rows|
        invariant Watching() == Steps(old(Watching()), ClaudeChecks(config, data, i))
        invariant config == old(config) && pacingAlerted == old(pacingAlerted) && history == old(history)
        invariant providerData == old(providerData) && lastData == old(lastData)
      {
        var (row, key) := rows[i];
        ghost var done := ClaudeChecks(config, data, i);
        if row.Some? {
          var c := Check(key, row.value.name, row.value, warnOn, resetOn);
          assert ClaudeChecks(config, data, i + 1) == done + [c];
          StepsSnoc(old(Watching()), done, c);
          CheckRow(c);
        } else {
          assert ClaudeChecks(config, data, i + 1) == done + [];
          assert done + [] == done;
        }
      }
    }

    /** The inner loop of `_check_provider_warnings`: every row of one provider. */
    method CheckProviderRows(pd: ProviderData, wp: WarnProvider, warnOn: bool, resetOn: bool)
      modifies this
      ensures Watching() == Steps(old(Watching()), ProviderRowChecks(pd, wp, warnOn, resetOn))
      ensures config == old(config) && pacingAlerted == old(pacingAlerted) && history == old(history)
      ensures providerData == old(providerData) && lastData == old(lastData)
    {
      ghost var checks := ProviderRowChecks(pd, wp, warnOn, resetOn);
      for j := 0 to |pd.rows|
        invariant Watching() == Steps(old(Watching()), checks[..j])
        invariant config == old(config) && pacingAlerted == old(pacingAlerted) && history == old(history)
        invariant providerData == old(providerData) && lastData == old(lastData)
      {
        var row := pd.rows[j];
        var c := Check(wp.prefix + "_" + row.name, wp.name + " " + row.name, row, warnOn, resetOn);
        assert checks[..j + 1] == checks[..j] + [c];
        StepsSnoc(old(Watching()), checks[..j], c);
        CheckRow(c);
      }
      assert checks[..|pd.rows|] == checks;
    }

    /** `_check_provider_warnings`: the rows of ChatGPT, then of Cursor. */
    method CheckProviderWarnings(pds: seq<ProviderData>)
      modifies this
      ensures Watching() == Steps(old(Watching()), ProviderWarnChecks(config, pds, |WarnProviders|))
      ensures config == old(config) && pacingAlerted == old(pacingAlerted) && history == old(history)
      ensures providerData == old(providerData) && lastData == old(lastData)
    {
      for p := 0 to |WarnProviders|
        invariant Watching() == Steps(old(Watching()), ProviderWarnChecks(config, pds, p))
        invariant config == old(config) && pacingAlerted == old(pacingAlerted) && history == old(history)
        invariant providerData == old(providerData) && lastData == old(lastData)
      {
        var wp := WarnProviders[p];
        var found := FirstNamed(pds, wp.name);
        if found.Some? && !HasError(pds[found.value]) {
          var pd := pds[found.value];
          var warnOn := NotifEnabled(config, wp.warnSwitch);
          var resetOn := if wp.resetSwitch.Some? then NotifEnabled(config, wp.resetSwitch.value) else false;
          assert ProviderChecks(config, pds, wp) == ProviderRowChecks(pd, wp, warnOn, resetOn);
          StepsConcat(old(Watching()), ProviderWarnChecks(config, pds, p), ProviderRowChecks(pd, wp, warnOn, resetOn));
          CheckProviderRows(pd, wp, warnOn, resetOn);
        } else {
          assert ProviderChecks(config, pds, wp) == [];
          assert ProviderWarnChecks(config, pds, p + 1) == ProviderWarnChecks(config, pds, p) + [];
          assert ProviderWarnChecks(config, pds, p) + [] == ProviderWarnChecks(config, pds, p);
        }
      }
    }

    /** The list `_check_pacing_alerts` builds before alerting. */
    method CollectPaceChecks() returns (checks: seq<PaceCheck>)
      ensures checks == PaceChecks(providerData, |PaceProviders|)
    {
      checks := StaticPaceChecks;
      for p := 0 to |PaceProviders|
        invariant checks == PaceChecks(providerData, p)
      {
        var pp := PaceProviders[p];
        var found := FirstNamed(providerData, pp.name);
        if found.Some? && !HasError(providerData[found.value]) {
          var rows := providerData[found.value].rows;
          ghost var before := checks;
          ghost var added := PaceRowChecks(providerData[found.value], pp);
          for j := 0 to |rows|
            invariant checks == before + added[..j]
          {
            checks := checks + [PaceCheck(pp.prefix + "_" + Slug(rows[j].name), pp.switch, pp.name + " " + rows[j].name)];
            assert added[..j + 1] == added[..j] + [added[j]];
          }
          assert added[..|rows|] == added;
        }
      }
    }

    /**
     * `_check_pacing_alerts` at time `now`, given the slope the regression
     * of `_calc_burn_rate` fits for each history key that has one.
     */
    method CheckPacingAlerts(rates: map<string, real>, now: int)
      modifies this
      ensures PacingState() ==
        PaceSteps(old(PacingState()), PaceChecks(providerData, |PaceProviders|), config, history, rates, now)
      ensures config == old(config) && warned == old(warned) && prevPcts == old(prevPcts)
      ensures history == old(history) && providerData == old(providerData) && lastData == old(lastData)
    {
      var checks := CollectPaceChecks();
      AlertPacing(checks, rates, now);
    }

    /** The alert loop of `_check_pacing_alerts` over the collected checks. */
    method AlertPacing(checks: seq<PaceCheck>, rates: map<string, real>, now: int)
      modifies this
      ensures PacingState() == PaceSteps(old(PacingState()), checks, config, history, rates, now)
      ensures config == old(config) && warned == old(warned) && prevPcts == old(prevPcts)
      ensures history == old(history) && providerData == old(providerData) && lastData == old(lastData)
    {
      for i := 0 to |checks|
        invariant PacingState() == PaceSteps(old(PacingState()), checks[..i], config, history, rates, now)
        invariant config == old(config) && warned == old(warned) && prevPcts == old(prevPcts)
        invariant history == old(history) && providerData == old(providerData) && lastData == old(lastData)
      {
        assert checks[..i + 1] == checks[..i] + [checks[i]];
        PaceStepsSnoc(old(PacingState()), checks[..i], checks[i], config, history, rates, now);
        PaceOne(checks[i], rates, now);
      }
      assert checks[..|checks|] == checks;
    }

    /** The body of the alert loop of `_check_pacing_alerts`. */
    method PaceOne(c: PaceCheck, rates: map<string, real>, now: int)
      modifies this
      ensures PacingState() ==
        PaceStep(old(PacingState()), c, NotifEnabled(config, c.switch), EtaFor(history, rates, c.hkey, now))
      ensures config == old(config) && warned == old(warned) && prevPcts == old(prevPcts)
      ensures history == old(history) && providerData == old(providerData) && lastData == old(lastData)
    {
      if NotifEnabled(config, c.switch) {
        var es := UsageHistory.Lookup(history, c.hkey);
        var window := UsageHistory.SelectBurnWindow(history, c.hkey, now);
        var rate := if window.Some? && c.hkey in rates then Some(rates[c.hkey]) else None;
        var eta := UsageHistory.EtaMinutes(es, rate);
        if eta.Some? && eta.value <= PacingAlertMinutes {
          if c.hkey !in pacingAlerted {
            pacingAlerted := pacingAlerted + {c.hkey};
            notices := notices + [PacingNotice(c.subject, Display.FmtEta(eta.value))];
          }
        } else {
          pacingAlerted := pacingAlerted - {c.hkey};
        }
      }
    }

    /** The names `_do_bar_toggle` seeds a choice from: Claude when data exists, and the reporting providers. */
    method SeedChoice() returns (chosen: seq<string>)
      ensures chosen == StatusBar.AutoNames(StatusBar.SeedNames(lastData.Some?, providerData))
    {
      var names: set<string> := if lastData.Some? then {StatusBar.ClaudeName} else {};
      for i := 0 to |providerData|
        invariant names == (if lastData.Some? then {StatusBar.ClaudeName} else {})
          + StatusBar.ReportingNames(providerData, i)
      {
        if StatusBar.BarPct(providerData[i]).Some? {
          names := names + {providerData[i].name};
        }
        assert StatusBar.ReportingNames(providerData, i + 1) == StatusBar.ReportingNames(providerData, i)
          + (if StatusBar.BarPct(providerData[i]).Some? then {providerData[i].name} else {});
      }
      chosen := StatusBar.AutoNames(names);
    }

    /**
     * `_do_bar_toggle`: flip the clicked provider in the pinned list,
     * seeding the list with the automatic choice when nothing is pinned;
     * an emptied list means automatic again.
     */
    method DoBarToggle(name: string)
      modifies this
      ensures config == old(config).(barProviders :=
        StatusBar.Toggled(StatusBar.ToggleBase(old(config), lastData.Some?, providerData), name))
      ensures warned == old(warned) && prevPcts == old(prevPcts) && pacingAlerted == old(pacingAlerted)
      ensures history == old(history) && providerData == old(providerData) && lastData == old(lastData)
      ensures notices == old(notices)
    {
      var chosen := config.barProviders;
      if chosen == [] {
        chosen := SeedChoice();
      }
      if name in chosen {
        chosen := StatusBar.RemoveFirst(chosen, name);
      } else {
        chosen := chosen + [name];
      }
      config := config.(barProviders := chosen);
    }
  }
}
