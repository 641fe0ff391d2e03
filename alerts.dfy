/**
 * The notification rules: threshold alerts with reset detection for every
 * limit row (warn at 80%, critical at 95%, each at most once until the row
 * drops back under 80%), and predictive pacing alerts (once while the
 * time to the limit is at most 30 minutes). Each rule is a step function on
 * the alert state; the notices it sends are appended to a log.
 */
module Alerts {
  import opened Wrappers
  import opened Usage
  import UsageHistory
  import Display

  /** A drop of at least this many points from at or above 80% to under it is a reset. */
  const ResetMinDrop: int := 10

  /** `PACING_ALERT_MINUTES` */
  const PacingAlertMinutes: int := 30

  /** `f"{key}_{WARN_THRESHOLD}"` and `f"{key}_{CRIT_THRESHOLD}"` */
  const WarnSuffix: string := "_80"
  const CritSuffix: string := "_95"

  /** The suffixes are the thresholds written in decimal. */
  lemma SuffixesAreThresholds()
    ensures WarnSuffix == "_" + Display.IntText(Display.WarnThreshold)
    ensures CritSuffix == "_" + Display.IntText(Display.CritThreshold)
  {
    assert Display.Digits(8) == "8";
    assert Display.Digits(9) == "9";
    assert Display.Digits(0) == "0";
    assert Display.Digits(5) == "5";
  }

  function WarnKey(key: string): string { key + WarnSuffix }
  function CritKey(key: string): string { key + CritSuffix }

  /** A warn marker is never a critical marker, whatever the two row keys. */
  lemma WarnCritKeysDiffer(a: string, b: string)
    ensures WarnKey(a) != CritKey(b)
  {
    assert WarnKey(a)[|WarnKey(a)| - 1] == '0';
    assert CritKey(b)[|CritKey(b)| - 1] == '5';
  }

  /** What `_notify` is asked to show; the texts around these fields are left out. */
  datatype Notice =
    | ResetNotice(subject: string, pct: int)
    | CritNotice(subject: string, pct: int, detail: string)
    | WarnNotice(subject: string, pct: int, detail: string)
    | PacingNotice(subject: string, eta: string)

  /** `s or fallback` for a string. */
  function OrElse(s: string, fallback: string): string
  {
    if s == "" then fallback else s
  }

  // ---- threshold alerts ------------------------------------------------------------

  /**
   * One row to check: its key in the alert state, the name shown in the
   * notice, the row itself, and whether warnings and resets are enabled.
   */
  datatype Check = Check(key: string, subject: string, row: LimitRow, warnOn: bool, resetOn: bool)

  /** `_warned_pcts`, `_prev_pcts` and the notices sent so far. */
  datatype Watch = Watch(warned: set<string>, prev: map<string, int>, log: seq<Notice>)

  /**
   * A reset: enabled, a previous value at or above 80%, the new one under
   * it, and a drop of at least 10 points.
   */
  predicate IsReset(w: Watch, c: Check)
  {
    && c.resetOn && c.key in w.prev
    && w.prev[c.key] >= Display.WarnThreshold && c.row.pct < Display.WarnThreshold
    && w.prev[c.key] - c.row.pct >= ResetMinDrop
  }

  /** A reset clears both markers of the row and announces itself. */
  function AfterReset(w: Watch, c: Check): Watch
  {
    if IsReset(w, c) then
      Watch(w.warned - {WarnKey(c.key), CritKey(c.key)}, w.prev, w.log + [ResetNotice(c.subject, c.row.pct)])
    else w
  }

  /**
   * The threshold rule: at or above 95% the critical marker is set and
   * announced once; otherwise at or above 80% the warn marker; under 80%
   * both markers are cleared.
   */
  function AfterLevel(w: Watch, c: Check): Watch
  {
    var pct := c.row.pct;
    if !c.warnOn then w
    else if pct >= Display.CritThreshold && CritKey(c.key) !in w.warned then
      Watch(w.warned + {CritKey(c.key)}, w.prev,
            w.log + [CritNotice(c.subject, pct, OrElse(c.row.resetStr, "Limit almost reached"))])
    else if pct >= Display.WarnThreshold && WarnKey(c.key) !in w.warned then
      Watch(w.warned + {WarnKey(c.key)}, w.prev,
            w.log + [WarnNotice(c.subject, pct, OrElse(c.row.resetStr, "Approaching limit"))])
    else if pct < Display.WarnThreshold then
      Watch(w.warned - {WarnKey(c.key), CritKey(c.key)}, w.prev, w.log)
    else w
  }

  /** One round of the row loop of `_check_warnings` / `_check_provider_warnings`. */
  function Step(w: Watch, c: Check): (r: Watch)
    ensures |w.log| <= |r.log| <= |w.log| + 2
    ensures r.log[..|w.log|] == w.log
  {
    var w2 := AfterLevel(AfterReset(w, c), c);
    Watch(w2.warned, w2.prev[c.key := c.row.pct], w2.log)
  }

  /** The notices one step sends. */
  function Sent(w: Watch, c: Check): seq<Notice>
  {
    Step(w, c).log[|w.log|..]
  }

  /** The notices a step sends: a reset, a critical and a warn notice, each exactly when due. */
  lemma StepNotices(w: Watch, c: Check)
    ensures var pct := c.row.pct;
      var sent := Sent(w, c);
      && (ResetNotice(c.subject, pct) in sent <==> IsReset(w, c))
      && (CritNotice(c.subject, pct, OrElse(c.row.resetStr, "Limit almost reached")) in sent <==>
            c.warnOn && pct >= Display.CritThreshold && CritKey(c.key) !in w.warned)
      && (WarnNotice(c.subject, pct, OrElse(c.row.resetStr, "Approaching limit")) in sent <==>
            && c.warnOn && pct >= Display.WarnThreshold && WarnKey(c.key) !in w.warned
            && (pct < Display.CritThreshold || CritKey(c.key) in w.warned))
      && (forall n :: n in sent ==> n.subject == c.subject && !n.PacingNotice?)
  {
    WarnCritKeysDiffer(c.key, c.key);
    var w1 := AfterReset(w, c);
    var w2 := AfterLevel(w1, c);
    assert w1.log[..|w.log|] == w.log;
    assert Step(w, c).log == w2.log;
  }

  /**
   * After a step the row's previous value is the new percentage, every
   * other row keeps its previous value, and only the row's own markers can
   * change.
   */
  lemma StepState(w: Watch, c: Check)
    ensures Step(w, c).prev.Keys == w.prev.Keys + {c.key}
    ensures Step(w, c).prev[c.key] == c.row.pct
    ensures forall k :: k in w.prev && k != c.key ==> Step(w, c).prev[k] == w.prev[k]
    ensures forall x :: x != WarnKey(c.key) && x != CritKey(c.key) ==>
      (x in Step(w, c).warned <==> x in w.warned)
  {
  }

  /**
   * With warnings on, a step leaves the critical marker set at or above
   * 95%, the warn or critical marker set at or above 80%, and neither set
   * under 80%.
   */
  lemma StepMarkers(w: Watch, c: Check)
    requires c.warnOn
    ensures c.row.pct >= Display.CritThreshold ==> CritKey(c.key) in Step(w, c).warned
    ensures c.row.pct >= Display.WarnThreshold ==>
      WarnKey(c.key) in Step(w, c).warned || CritKey(c.key) in Step(w, c).warned
    ensures c.row.pct < Display.WarnThreshold ==>
      WarnKey(c.key) !in Step(w, c).warned && CritKey(c.key) !in Step(w, c).warned
  {
    WarnCritKeysDiffer(c.key, c.key);
  }

  /** A row that stays at or above 95% is announced critical at most once. */
  lemma CritAtMostOnce(w: Watch, c1: Check, c2: Check)
    requires c1.key == c2.key && c1.warnOn
    requires c1.row.pct >= Display.CritThreshold && c2.row.pct >= Display.CritThreshold
    ensures forall n :: n in Sent(Step(w, c1), c2) ==> !n.CritNotice?
  {
    StepMarkers(w, c1);
    var w1 := Step(w, c1);
    StepNotices(w1, c2);
    WarnCritKeysDiffer(c2.key, c2.key);
    var w2 := AfterLevel(AfterReset(w1, c2), c2);
    assert AfterReset(w1, c2) == w1;
    assert Sent(w1, c2) == w2.log[|w1.log|..];
  }

  /**
   * As written, a row that jumps to 95% or more and stays there gets a
   * critical notice on the first check and a warn notice on the second,
   * because the warn branch is reached once the critical marker is set.
   */
  lemma CritThenWarn(w: Watch, c1: Check, c2: Check)
    requires c1.key == c2.key && c1.warnOn && c2.warnOn
    requires c1.row.pct >= Display.CritThreshold && c2.row.pct >= Display.CritThreshold
    requires WarnKey(c1.key) !in w.warned && CritKey(c1.key) !in w.warned
    ensures CritNotice(c1.subject, c1.row.pct, OrElse(c1.row.resetStr, "Limit almost reached")) in Sent(w, c1)
    ensures WarnNotice(c2.subject, c2.row.pct, OrElse(c2.row.resetStr, "Approaching limit")) in Sent(Step(w, c1), c2)
  {
    WarnCritKeysDiffer(c1.key, c1.key);
    StepNotices(w, c1);
    StepState(w, c1);
    StepMarkers(w, c1);
    StepNotices(Step(w, c1), c2);
  }

  /** Once both markers are set, a row at or above 80% sends nothing more. */
  lemma QuietWhileMarked(w: Watch, c: Check)
    requires WarnKey(c.key) in w.warned && CritKey(c.key) in w.warned
    requires c.row.pct >= Display.WarnThreshold
    ensures Sent(w, c) == []
  {
    assert AfterReset(w, c) == w;
    assert AfterLevel(w, c).log == w.log;
  }

  /** A row that drops under 80% is announced again when it next reaches 95%. */
  lemma Rearmed(w: Watch, c1: Check, c2: Check)
    requires c1.key == c2.key && c1.warnOn && c2.warnOn
    requires c1.row.pct < Display.WarnThreshold && c2.row.pct >= Display.CritThreshold
    ensures CritNotice(c2.subject, c2.row.pct, OrElse(c2.row.resetStr, "Limit almost reached"))
      in Sent(Step(w, c1), c2)
  {
    StepMarkers(w, c1);
    StepNotices(Step(w, c1), c2);
  }

  /** The state after checking rows one after the other. */
  function Steps(w: Watch, cs: seq<Check>): Watch
  {
    if cs == [] then w else Step(Steps(w, cs[..|cs| - 1]), cs[|cs| - 1])
  }

  /** Checking one list of rows and then another is checking them in one go. */
  lemma {:induction false} StepsConcat(w: Watch, a: seq<Check>, b: seq<Check>)
    ensures Steps(w, a + b) == Steps(Steps(w, a), b)
  {
    if b == [] {
      assert a + b == a;
    } else {
      StepsConcat(w, a, b[..|b| - 1]);
      assert (a + b)[..|a + b| - 1] == a + b[..|b| - 1];
    }
  }

  /** Checking one more row is one more step. */
  lemma StepsSnoc(w: Watch, cs: seq<Check>, c: Check)
    ensures Steps(w, cs + [c]) == Step(Steps(w, cs), c)
  {
    assert (cs + [c])[..|cs|] == cs;
  }

  // ---- which rows are checked ------------------------------------------------------

  /** The Claude rows in the order `_check_warnings` lists them, each with its key. */
  function ClaudeRows(data: UsageData): seq<(Option<LimitRow>, string)>
  {
    [(data.session, "session"), (data.weeklyAll, "weekly_all"), (data.weeklySonnet, "weekly_sonnet")]
  }

  /** The checks `_check_warnings` makes for the first `n` Claude rows: the present ones. */
  function ClaudeChecks(cfg: Config, data: UsageData, n: nat): seq<Check>
    requires n <= |ClaudeRows(data)|
  {
    if n == 0 then []
    else
      var (row, key) := ClaudeRows(data)[n - 1];
      ClaudeChecks(cfg, data, n - 1)
      + if row.None? then []
        else [Check(key, row.value.name, row.value,
                    NotifEnabled(cfg, "claude_warning"), NotifEnabled(cfg, "claude_reset"))]
  }

  /** A provider whose rows `_check_provider_warnings` watches. */
  datatype WarnProvider = WarnProvider(name: string, prefix: string, warnSwitch: string, resetSwitch: Option<string>)

  /** ChatGPT with warnings and resets; Cursor with warnings only. */
  const WarnProviders: seq<WarnProvider> := [
    WarnProvider("ChatGPT", "chatgpt", "chatgpt_warning", Some("chatgpt_reset")),
    WarnProvider("Cursor", "cursor", "cursor_warning", None)]

  /** One check per row of a provider, keyed `<prefix>_<label>` and shown as `<name> <label>`. */
  function ProviderRowChecks(pd: ProviderData, wp: WarnProvider, warnOn: bool, resetOn: bool): (r: seq<Check>)
    ensures |r| == |pd.rows|
  {
    seq(|pd.rows|, i requires 0 <= i < |pd.rows| =>
      Check(wp.prefix + "_" + pd.rows[i].name, wp.name + " " + pd.rows[i].name, pd.rows[i], warnOn, resetOn))
  }

  /** The checks for one watched provider: none when it is missing or its fetch failed. */
  function ProviderChecks(cfg: Config, pds: seq<ProviderData>, wp: WarnProvider): seq<Check>
  {
    match FirstNamed(pds, wp.name)
    case None => []
    case Some(i) =>
      if HasError(pds[i]) then []
      else
        var resetOn := wp.resetSwitch.Some? && NotifEnabled(cfg, wp.resetSwitch.value);
        ProviderRowChecks(pds[i], wp, NotifEnabled(cfg, wp.warnSwitch), resetOn)
  }

  /** The checks for the first `n` watched providers, in order. */
  function ProviderWarnChecks(cfg: Config, pds: seq<ProviderData>, n: nat): seq<Check>
    requires n <= |WarnProviders|
  {
    if n == 0 then [] else ProviderWarnChecks(cfg, pds, n - 1) + ProviderChecks(cfg, pds, WarnProviders[n - 1])
  }

  /** Resets are never announced for Cursor rows. */
  lemma CursorHasNoResets(cfg: Config, pds: seq<ProviderData>, c: Check)
    requires c in ProviderChecks(cfg, pds, WarnProviders[1])
    ensures !c.resetOn
  {
  }

  // ---- pacing alerts --------------------------------------------------------------

  /** One pacing check: the history key, the notification switch and the name shown. */
  datatype PaceCheck = PaceCheck(hkey: string, switch: string, subject: string)

  /** `_pacing_alerted` and the notices sent so far. */
  datatype Pacing = Pacing(alerted: set<string>, log: seq<Notice>)

  /**
   * One round of `_check_pacing_alerts`: a disabled check changes nothing;
   * an ETA of at most 30 minutes alerts once and marks the key; any other
   * outcome clears the mark.
   */
  function PaceStep(s: Pacing, c: PaceCheck, enabled: bool, eta: Option<int>): Pacing
  {
    if !enabled then s
    else if eta.Some? && eta.value <= PacingAlertMinutes then
      if c.hkey in s.alerted then s
      else Pacing(s.alerted + {c.hkey}, s.log + [PacingNotice(c.subject, Display.FmtEta(eta.value))])
    else Pacing(s.alerted - {c.hkey}, s.log)
  }

  /**
   * A pacing notice is sent exactly when the check is enabled, the ETA is
   * at most 30 minutes and the key is not marked; its label reads back as
   * the ETA. An enabled check leaves the key marked exactly when the ETA is
   * at most 30 minutes; other keys keep their marks.
   */
  lemma PaceStepMeaning(s: Pacing, c: PaceCheck, enabled: bool, eta: Option<int>)
    requires eta.Some? ==> eta.value >= 0
    ensures var r := PaceStep(s, c, enabled, eta);
      && r.log[..|s.log|] == s.log
      && (|r.log| == |s.log| + 1 <==> enabled && eta.Some? && eta.value <= PacingAlertMinutes && c.hkey !in s.alerted)
      && (|r.log| != |s.log| + 1 ==> r.log == s.log)
      && (|r.log| == |s.log| + 1 ==>
            r.log[|s.log|].subject == c.subject && Display.ParseEta(r.log[|s.log|].eta) == eta)
      && (enabled ==> (c.hkey in r.alerted <==> eta.Some? && eta.value <= PacingAlertMinutes))
      && (!enabled ==> r == s)
      && (forall k :: k != c.hkey ==> (k in r.alerted <==> k in s.alerted))
  {
    if enabled && eta.Some? && eta.value <= PacingAlertMinutes && c.hkey !in s.alerted {
      Display.FmtEtaRoundTrip(eta.value);
    }
  }

  /** While the ETA stays at most 30 minutes, the alert is sent at most once. */
  lemma PaceAtMostOnce(s: Pacing, c: PaceCheck, eta1: int, eta2: int)
    requires eta1 <= PacingAlertMinutes && eta2 <= PacingAlertMinutes
    ensures PaceStep(PaceStep(s, c, true, Some(eta1)), c, true, Some(eta2)).log ==
      PaceStep(s, c, true, Some(eta1)).log
  {
  }

  /**
   * The ETA of a history key at `now`: `_calc_eta_minutes` with the burn
   * rate `_calc_burn_rate` gives, which is none unless the key has a burn
   * window, and then the regression's slope over that window (`rates`; a
   * key missing from `rates` is a regression that found no slope).
   */
  function EtaFor(history: map<string, seq<UsageHistory.Entry>>, rates: map<string, real>, hkey: string, now: int)
    : (r: Option<int>)
    ensures r.Some? ==> 0 <= r.value <= UsageHistory.EtaHorizonMinutes
    ensures UsageHistory.BurnWindow(UsageHistory.Lookup(history, hkey), now).None? ==> r.None?
  {
    var es := UsageHistory.Lookup(history, hkey);
    var rate := if UsageHistory.BurnWindow(es, now).Some? && hkey in rates then Some(rates[hkey]) else None;
    UsageHistory.EtaMinutes(es, rate)
  }

  /** The pacing state after the checks one after the other. */
  function PaceSteps(s: Pacing, cs: seq<PaceCheck>, cfg: Config,
                     history: map<string, seq<UsageHistory.Entry>>, rates: map<string, real>, now: int): Pacing
  {
    if cs == [] then s
    else
      var c := cs[|cs| - 1];
      PaceStep(PaceSteps(s, cs[..|cs| - 1], cfg, history, rates, now), c,
               NotifEnabled(cfg, c.switch), EtaFor(history, rates, c.hkey, now))
  }

  /** Checking one more pacing key is one more pacing step. */
  lemma PaceStepsSnoc(s: Pacing, cs: seq<PaceCheck>, c: PaceCheck, cfg: Config,
                      history: map<string, seq<UsageHistory.Entry>>, rates: map<string, real>, now: int)
    ensures PaceSteps(s, cs + [c], cfg, history, rates, now) ==
      PaceStep(PaceSteps(s, cs, cfg, history, rates, now), c, NotifEnabled(cfg, c.switch), EtaFor(history, rates, c.hkey, now))
  {
    assert (cs + [c])[..|cs|] == cs;
  }

  /** The checks made for every poll: the Claude session and Copilot. */
  const StaticPaceChecks: seq<PaceCheck> := [
    PaceCheck("claude", "claude_pacing", "Claude session"),
    PaceCheck("copilot", "copilot_pacing", "Copilot")]

  /** A provider with one pacing check per limit row. */
  datatype PaceProvider = PaceProvider(prefix: string, name: string, switch: string)

  const PaceProviders: seq<PaceProvider> := [
    PaceProvider("chatgpt", "ChatGPT", "chatgpt_pacing"),
    PaceProvider("cursor", "Cursor", "cursor_pacing")]

  /** One character of `label.lower().replace(' ', '_')` (ASCII letters only are lowered). */
  function SlugChar(c: char): (r: char)
    ensures r != ' ' && !('A' <= r <= 'Z')
  {
    if 'A' <= c <= 'Z' then (c as int + 32) as char
    else if c == ' ' then '_'
    else c
  }

  /** `label.lower().replace(' ', '_')` */
  function Slug(text: string): (r: string)
    ensures |r| == |text|
    ensures forall i :: 0 <= i < |r| ==> r[i] == SlugChar(text[i])
  {
    seq(|text|, i requires 0 <= i < |text| => SlugChar(text[i]))
  }

  /** The pacing checks of a provider's rows. */
  function PaceRowChecks(pd: ProviderData, pp: PaceProvider): (r: seq<PaceCheck>)
    ensures |r| == |pd.rows|
  {
    seq(|pd.rows|, i requires 0 <= i < |pd.rows| =>
      PaceCheck(pp.prefix + "_" + Slug(pd.rows[i].name), pp.switch, pp.name + " " + pd.rows[i].name))
  }

  /** The pacing checks of a provider: none when it is missing or its fetch failed. */
  function ProviderPaceChecks(pds: seq<ProviderData>, pp: PaceProvider): seq<PaceCheck>
  {
    match FirstNamed(pds, pp.name)
    case None => []
    case Some(i) => if HasError(pds[i]) then [] else PaceRowChecks(pds[i], pp)
  }

  /** The checks of `_check_pacing_alerts` with the first `n` row providers added. */
  function PaceChecks(pds: seq<ProviderData>, n: nat): seq<PaceCheck>
    requires n <= |PaceProviders|
  {
    if n == 0 then StaticPaceChecks else PaceChecks(pds, n - 1) + ProviderPaceChecks(pds, PaceProviders[n - 1])
  }
}
