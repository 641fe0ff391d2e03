/**
 * The values the app passes around after a fetch: the Claude limit rows,
 * the per-provider usage records, and the parts of the user configuration
 * that the alert and status-bar rules read.
 */
module Usage {
  import opened Wrappers

  /** One limit of a provider: its label (`name`), its use in percent and the reset text. */
  datatype LimitRow = LimitRow(name: string, pct: int, resetStr: string)

  /** The three Claude limits; each may be missing from a response. */
  datatype UsageData = UsageData(
    session: Option<LimitRow>,
    weeklyAll: Option<LimitRow>,
    weeklySonnet: Option<LimitRow>)

  /**
   * A third-party provider's usage: its name, the limit rows it reported
   * (none when it reports a single spend figure), the spend percentage
   * derived from that figure, and the error text of a failed fetch.
   */
  datatype ProviderData = ProviderData(
    name: string,
    rows: seq<LimitRow>,
    pct: Option<int>,
    error: Option<string>)

  /** A fetch failed when its error text is present and non-empty (Python truthiness). */
  predicate HasError(pd: ProviderData)
  {
    pd.error.Some? && pd.error.value != ""
  }

  /** The first provider record with the given name (`next(p for p in ... if p.name == n)`). */
  function FirstNamed(pds: seq<ProviderData>, name: string): (r: Option<nat>)
    ensures r.None? ==> forall i :: 0 <= i < |pds| ==> pds[i].name != name
    ensures r.Some? ==>
      && r.value < |pds| && pds[r.value].name == name
      && forall i :: 0 <= i < r.value ==> pds[i].name != name
  {
    FirstNamedFrom(pds, name, 0)
  }

  function FirstNamedFrom(pds: seq<ProviderData>, name: string, from: nat): (r: Option<nat>)
    requires from <= |pds|
    ensures r.None? ==> forall i :: from <= i < |pds| ==> pds[i].name != name
    ensures r.Some? ==>
      && from <= r.value < |pds| && pds[r.value].name == name
      && forall i :: from <= i < r.value ==> pds[i].name != name
    decreases |pds| - from
  {
    if from == |pds| then None
    else if pds[from].name == name then Some(from)
    else FirstNamedFrom(pds, name, from + 1)
  }

  /**
   * The configuration the rules read: the stored notification switches
   * and the providers the user pinned to the status bar (empty when the
   * choice is automatic; an absent and an empty list behave alike).
   */
  datatype Config = Config(notifications: map<string, bool>, barProviders: seq<string>)

  /** The default of every notification switch. */
  const NotifDefaults: map<string, bool> := map[
    "claude_reset" := true,
    "chatgpt_reset" := true,
    "claude_warning" := true,
    "chatgpt_warning" := true,
    "claude_pacing" := true,
    "chatgpt_pacing" := true,
    "copilot_pacing" := true,
    "cursor_warning" := true,
    "cursor_pacing" := true]

  /**
   * `_notif_enabled`: the stored switch, else its default, else on. Since
   * every default is on, a notification is off only when switched off.
   */
  function NotifEnabled(cfg: Config, key: string): (r: bool)
    ensures r <==> key !in cfg.notifications || cfg.notifications[key]
  {
    if key in cfg.notifications then cfg.notifications[key]
    else if key in NotifDefaults then NotifDefaults[key]
    else true
  }
}
