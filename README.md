# Claude Usage Bar: a verified model of its bookkeeping and alert rules

Claude Usage Bar is a macOS menu-bar app. It polls the usage limits of Claude
and of a few other AI providers (ChatGPT, Cursor, Copilot, …), shows them in
the menu-bar title and menu, and sends notifications. This project models the
parts of `claude_bar.py` that are plain logic rather than HTTP, UI or OS glue,
and proves properties about them in Dafny.

- `usage_history.dfy` (`UsageHistory`): the short-term history of
  `(time, percent)` entries per key.
  - The history object appends an entry, with reset detection and 24-hour
    pruning.
  - The guards that choose the burn-rate regression window.
  - The ETA case analysis.
- `sample_store.dfy` (`SampleStore`): the long-term SQLite store, modelled
  in memory.
  - The samples table is a sequence of `(ts, key, pct)` rows.
  - `daily_stats` is a map keyed by its primary key `(date, key)`.
  - `HistoryDb` records samples, rolls closed days up into daily rows,
    prunes, and answers the weekly, limit-hit, today and intraday queries.
- `display.dfy` (`Display`): the integer logic behind the display.
  - ETA text and reading it back.
  - The 8-block sparklines.
  - The green/yellow/red status icon.
- `cookies.dfy` (`Cookies`): parsing a pasted cookie header or a bare
  session key, and dropping the Cloudflare-bound cookies.
- `usage_data.dfy` (`Usage`): the fetched records and the notification
  switches, which all default to on.
- `alerts.dfy` (`Alerts`): the notification rules as functions on the alert
  state.
  - Warn at 80%, critical at 95%.
  - Reset notices with a 10-point hysteresis.
  - Pacing alerts when the ETA is 30 minutes or less, once until re-armed.
  - Which rows and which history keys are checked.
- `status_bar.dfy` (`StatusBar`): which providers the title shows, and
  pinning or unpinning a provider.
- `claude_bar.dfy` (`App`): the `ClaudeBar` object.
  - Its alert and toggle methods update `_warned_pcts`, `_prev_pcts`,
    `_pacing_alerted` and the config in place.
  - Each method is proved to reach the state the rule functions describe.
- `text.dfy` (`Text`), `stats.dfy` (`Stats`) and `wrappers.dfy`
  (`Wrappers`) hold the `str` operations, the list statistics and `Option`
  those modules share.

Modelling choices that differ from the Python:

- **Notifications.** `_notify` becomes an append to a log of notices.
  Each notice is a reset, critical, warn or pacing notice carrying its
  subject and figures.
- **Clock.** `now` is an explicit integer parameter, in seconds.
- **Days.** A UTC day is `ts / 86400`, wrapped as `Date(n)`, because
  `date(ts, 'unixepoch')` is the UTC calendar day. The store compares such
  day numbers where the source compares `YYYY-MM-DD` strings. The two orders
  agree.
- **Burn rate.** The regression of `_calc_burn_rate` is an input.
  - `rates` gives, per history key, the slope the regression fits over the
    selected window.
  - A key missing from `rates` stands for a regression that returned None.
  - The guards that decide whether there is a window at all are modelled.
- **Sparkline block index.** The block of a point is `((p - lo) * 7) / span`
  in integer division, capped at 7. This is what
  `min(7, int((p - lo) / span * 7))` means. The float expression can differ
  from it only by rounding error.

Where the code and its own docs disagree, the model follows the code:

- The daily average is `CAST(AVG(pct) AS INTEGER)`, which is a truncated
  mean (`Stats.TruncDiv`), not a rounded one.
- `_append_history` prunes only the key it appends to.
- The rate guard of `_calc_eta_minutes` comes before the `remaining <= 0`
  test. A key at 100% whose usage is flat therefore has no ETA, rather than
  an ETA of 0.
- In `_check_warnings`, the critical branch does not set the warn marker.
  A row that jumps straight to 95% or more and stays there therefore gets a
  critical notice on one poll and a warn notice ("Approaching limit") on the
  next. `Alerts.CritThenWarn` states this behaviour as written.
- `_do_bar_toggle` seeds the list with "the current auto selection", counting
  Claude as available whenever `_last_data` is set. When that data holds no
  Claude limit row, `_apply` shows no segments at all, so the seed differs
  from what was shown. `StatusBar.SeedWithoutClaudeRows` states this case.

## Model

| member | source | states |
|---|---|---|
| UsageHistory.KeepSinceMembers | claude_bar.py:139-140 | the pruning comprehension keeps exactly the entries at or after the cutoff |
| UsageHistory.KeepSinceOfChronological | claude_bar.py:139-140 | on a time-ordered list, pruning keeps a suffix, so the kept entries stay in their original order |
| UsageHistory.KeepSinceIdempotent | claude_bar.py:139-140 | pruning twice at the same cutoff is pruning once |
| UsageHistory.KeepSinceConcat | claude_bar.py:139-140 | pruning distributes over concatenation, so old entries are kept ahead of the new one |
| UsageHistory.FilterSince | claude_bar.py:139-140 | the filtering loop computes exactly the pruned list |
| UsageHistory.AppendedShape | claude_bar.py:128-140 | a drop of 30 points or more from the last entry leaves exactly `[(now, pct)]`; otherwise the result is the pruned old entries followed by `(now, pct)`; every entry is within 24 h of `now` |
| UsageHistory.AppendedChronological | claude_bar.py:128-140 | appending at a time no earlier than every entry keeps the list in time order |
| UsageHistory.HistoryStore.Append | claude_bar.py:128-140 | the key's list becomes the appended list, the key set gains the key, and every other key's entries are unchanged |
| UsageHistory.SelectBurnWindow | claude_bar.py:153-165 | no window exactly when the key has fewer than 2 entries, fewer than 2 are in the last 30 minutes, or the in-window span is under 5 minutes; otherwise the window is the in-window entries, at least 2 of them spanning at least 5 minutes |
| UsageHistory.RoundHalfEven | claude_bar.py:215 | Python `round`: within one half of the argument, and even on a tie |
| UsageHistory.EtaMinutes | claude_bar.py:197-215 | no ETA exactly when the history is empty, the rate is missing or not positive, or the ETA exceeds 600 minutes; 0 exactly when the rate is positive and the last percentage is at least 100; otherwise the rounded ETA, at least 1, within one half of `(100 - pct) / rate` (or 1) and at most 600 |
| Display.DigitsRoundTrip | claude_bar.py:218-223 | the decimal digits of a number read back as that number |
| Display.FmtEtaRoundTrip | claude_bar.py:218-223 | every ETA text reads back as its minutes, in both the `N min` and the `Hh M min` forms |
| Display.FmtEtaHourPart | claude_bar.py:218-223 | the text has an hour part exactly when the ETA is 60 minutes or more |
| Display.LastN | claude_bar.py:233 | `pts[-width:]`: the whole list when the width is 0 or at least its length, otherwise its last `width` items |
| Display.Level | claude_bar.py:241 | the block level of a point in `[lo, lo + span]` lies in 0..7, with 0 at the minimum and 7 at the maximum |
| Display.LevelMonotone | claude_bar.py:241 | a higher point never gets a lower block |
| Display.SparkBlocks | claude_bar.py:234-241 | empty exactly when max minus min is under 2; otherwise one block per point, each the block of that point's level |
| Display.SparkBlocksAreBlocks | claude_bar.py:240-241 | every character is one of the eight blocks |
| Display.SparkBlocksMonotone | claude_bar.py:240-241 | the blocks preserve the order of the points |
| Display.SparkBlocksLowest | claude_bar.py:240-241 | the minimum point is drawn with the lowest block |
| Display.SparkBlocksHighest | claude_bar.py:240-241 | the maximum point is drawn with the full block |
| Display.Sparkline | claude_bar.py:226-241 | empty with fewer than 3 entries; otherwise exactly the blocks of the pcts of the last `width` entries |
| Display.SparklineDrawn | claude_bar.py:231-241 | with at least 3 entries, the sparkline is empty exactly when its window varies by less than 2; otherwise every character is a block, the window's lowest pct gets the lowest block and its highest pct the full block |
| Display.WeeklySparkline | claude_bar.py:351-361 | empty with fewer than 2 rows; otherwise exactly the blocks of the peak pcts of the last `width` rows, so the `SparkBlocks` facts apply to it |
| Display.StatusIcon | claude_bar.py:1857-1862 | red exactly at or above 95, yellow exactly from 80 to 94, green exactly below 80 |
| SampleStore.HistoryDb.RecordSample | claude_bar.py:274-278 | the sample `(now, key, pct)` is appended and the daily table is unchanged |
| SampleStore.HistoryDb.AggregateDay | claude_bar.py:293-299 | the per-key aggregate of one day is exactly `DayStats`: one row per key with samples that day, holding the peak, the truncated mean, the count and the samples at or above 95 |
| SampleStore.TalliesAt | claude_bar.py:293-299 | the single-pass tally has a key exactly when the key has samples that day, and its figures are the peak, the sum, the count and the hits of those samples |
| SampleStore.HistoryDb.CloseDay | claude_bar.py:301-311 | closing a day upserts its aggregate rows into the daily table, keeping the other rows, and deletes that day's samples |
| SampleStore.HistoryDb.UpsertDay | claude_bar.py:301-308 | the upsert adds or overwrites exactly the `(day, key)` rows of the aggregate and keeps every other row |
| SampleStore.HistoryDb.DeleteDay | claude_bar.py:311 | exactly the samples of that day are deleted |
| SampleStore.HistoryDb.CloseDaysBefore | claude_bar.py:286-311 | after the loop, no sample dated before today remains, and the daily table is the old one upserted with the aggregate of every closed day |
| SampleStore.HistoryDb.DeleteOlderThan | claude_bar.py:313-315 | exactly the samples older than the cutoff are deleted |
| SampleStore.HistoryDb.DeleteDailyBefore | claude_bar.py:316-317 | exactly the daily rows dated before the cutoff day are deleted |
| SampleStore.HistoryDb.Rollup | claude_bar.py:281-318 | the new tables are `RolledSamples` and `RolledDaily` of the old ones |
| SampleStore.RolledSamplesMembers | claude_bar.py:286-315 | a sample survives the rollup exactly when it is dated today or later and is at most 7 days old |
| SampleStore.RolledSamplesNothingClosed | claude_bar.py:286-315 | after a rollup no closed day is left in the samples |
| SampleStore.RolledDailyMeaning | claude_bar.py:286-317 | a daily row exists after the rollup exactly when it is at most 90 days old and was there before or is the aggregate of a closed day with samples; rolled rows hold that day's aggregate, and the other rows are unchanged |
| SampleStore.RollupIdempotent | claude_bar.py:281-318 | a second rollup at the same time with no new samples leaves both tables unchanged |
| SampleStore.UpsertedAt | claude_bar.py:301-308 | the daily table after upserting a set of days has one row per `(day, key)`: the aggregate for rolled pairs, the old row otherwise |
| SampleStore.HistoryDb.WeeklyStats | claude_bar.py:321-332 | the rows are the key's daily rows from 7 days ago on, in ascending date order |
| SampleStore.AscendingMeaning | claude_bar.py:324-328 | the ordered rows hold each selected day once, strictly ascending, each with its stored stats |
| SampleStore.WeeklyRowsMeaning | claude_bar.py:321-332 | the weekly rows are exactly the key's stored rows dated on or after the cutoff day |
| SampleStore.HistoryDb.WeekLimitHits | claude_bar.py:335-348 | the result is the sum of `limit_hits` over the weekly rows plus the count of the key's samples at or above 95 in the last 7 days |
| SampleStore.RecentHits | claude_bar.py:342-347 | the count of the key's samples at or above 95 since the cutoff is 0 exactly when no sample is such a hit, and is the table's size exactly when every sample is one |
| SampleStore.RecentHitsConcat | claude_bar.py:342-347 | the count over a table is the sum of the counts over its parts |
| SampleStore.RecentHitsSingle | claude_bar.py:342-347 | one sample counts 1 when it is of the key, at or above 95 and recent enough, and 0 otherwise |
| SampleStore.RollupKeepsHitsApart | claude_bar.py:335-348 | after a rollup from a daily table of closed days only, every daily row is dated before today and every sample today or later, so the two halves of the limit-hit total never count the same day |
| SampleStore.HistoryDb.TodayStats | claude_bar.py:364-380 | today's live stats are the per-key aggregate of today's samples |
| SampleStore.Window | claude_bar.py:427 | the intraday window of a time is `min(hour / 5, 4)`, so it lies in 0..4 |
| SampleStore.PeakOrZero | claude_bar.py:429 | the bucket value is at least 0, at least every pct in the bucket, and 0 or one of them |
| SampleStore.BucketsAt | claude_bar.py:418-429 | a key has buckets exactly when it has samples today, a window is present exactly when it has samples, and its value is their peak |
| SampleStore.HistoryDb.IntradayWindows | claude_bar.py:418-429 | the bucketing loop computes exactly `Buckets` of today's samples |
| Cookies.ParseCookieString | claude_bar.py:584-595 | the parsing method computes `ParseCookies` |
| Cookies.StorePairs | claude_bar.py:590-594 | the loop stores the pairs of the pieces seen so far, later ones overwriting earlier ones |
| Cookies.BareSessionKey | claude_bar.py:586-588 | input without `=` is the single cookie `sessionKey`, holding the stripped input |
| Cookies.CookiesLastWins | claude_bar.py:590-594 | a name is stored exactly when some piece names it, with the value of the last such piece |
| Cookies.LastNamingMeaning | claude_bar.py:590-594 | the piece found is the last one naming the key, and none is found only when none names it |
| Cookies.ParsedCookiesWellFormed | claude_bar.py:589-594 | parsed names and values are stripped and free of `;`, and names are free of `=` |
| Cookies.StripCfCookies | claude_bar.py:598-599 | the keys are exactly the input's keys minus `cf_clearance`, `__cf_bm` and `_cfuvid`, with unchanged values |
| Text.Strip | claude_bar.py:586 | `str.strip`: the result is a slice of the input with no whitespace at either end, and everything dropped before and after it is whitespace |
| Usage.NotifEnabled | claude_bar.py:522-524 | a notification is on exactly when its stored switch is absent or on, since every default in `_NOTIF_DEFAULTS` (claude_bar.py:68-78) is on |
| Usage.FirstNamed | claude_bar.py:2828 | `next(p for p ... if p.name == n)`: the first record with that name, or none when no record has it |
| Alerts.SuffixesAreThresholds | claude_bar.py:2784-2785 | the marker suffixes are `_80` and `_95`, the thresholds as text |
| Alerts.WarnCritKeysDiffer | claude_bar.py:2784-2785 | a warn marker never equals a critical marker |
| Alerts.Step | claude_bar.py:2781-2819 | a row check appends at most two notices and keeps the notices already sent |
| Alerts.StepNotices | claude_bar.py:2788-2816 | a reset notice is sent exactly when reset notices are on and the row fell from at least 80 to under 80 by at least 10; a critical notice exactly when warnings are on, pct is at least 95 and its marker is unset; a warn notice exactly when warnings are on, pct is at least 80, its marker is unset and the critical branch was not taken |
| Alerts.StepState | claude_bar.py:2784-2819 | the row's previous value becomes the new pct, other rows keep theirs, and only the row's own two markers may change |
| Alerts.StepMarkers | claude_bar.py:2800-2816 | with warnings on, the critical marker is set at or above 95, a marker is set at or above 80, and both are cleared under 80 |
| Alerts.CritAtMostOnce | claude_bar.py:2800-2806 | a row that stays at or above 95 gets no second critical notice |
| Alerts.CritThenWarn | claude_bar.py:2800-2813 | as written, a row that jumps to 95 or more gets a critical notice and, on the next check at 95 or more, a warn notice |
| Alerts.QuietWhileMarked | claude_bar.py:2800-2816 | once both markers are set, a row at or above 80 sends nothing |
| Alerts.Rearmed | claude_bar.py:2814-2816 | a row that drops under 80 gets a critical notice again when it next reaches 95 |
| Alerts.StepsConcat | claude_bar.py:2781-2819 | checking two lists of rows one after the other is checking their concatenation |
| Alerts.CursorHasNoResets | claude_bar.py:2823-2834 | Cursor rows never get reset notices, since Cursor has no reset switch |
| Alerts.PaceStepMeaning | claude_bar.py:2893-2906 | a pacing notice is sent exactly when the check is enabled, the ETA is at most 30 and the key is not marked, and its text reads back as the ETA; an enabled check leaves the key marked exactly when the ETA is at most 30; other keys keep their marks |
| Alerts.PaceAtMostOnce | claude_bar.py:2897-2904 | while the ETA stays at most 30 minutes, the pacing notice is sent at most once |
| Alerts.EtaFor | claude_bar.py:2896 | the ETA of a check lies in 0..600 and is missing whenever the key has no burn window |
| Alerts.Slug | claude_bar.py:2889 | `label.lower().replace(' ', '_')` maps each character on its own, with no spaces or capitals left |
| Alerts.PaceRowChecks | claude_bar.py:2887-2891 | a provider contributes one pacing check per row |
| App.ClaudeBar.constructor | claude_bar.py:2208-2223 | a new app has no markers, no previous values, no pacing marks, no provider data and no notices |
| App.ClaudeBar.CheckRow | claude_bar.py:2781-2819 | one row check updates markers, previous values and notices as `Step` describes and changes nothing else |
| App.ClaudeBar.CheckWarnings | claude_bar.py:2771-2819 | the Claude rows present are checked in order, under the Claude warning and reset switches |
| App.ClaudeBar.CheckProviderRows | claude_bar.py:2837-2872 | every row of a provider is checked in order |
| App.ClaudeBar.CheckProviderWarnings | claude_bar.py:2821-2872 | the rows of ChatGPT and Cursor are checked, except when a provider is missing or its fetch failed |
| App.ClaudeBar.CollectPaceChecks | claude_bar.py:2877-2891 | the checks are the two static ones, then one per row of ChatGPT and Cursor when present without error |
| App.ClaudeBar.CheckPacingAlerts | claude_bar.py:2874-2906 | the pacing state after the call is that of applying `PaceStep` to every check in order |
| App.ClaudeBar.PaceOne | claude_bar.py:2893-2906 | one check, using the burn-window guards, the rate and the ETA case analysis, updates the pacing state as `PaceStep` describes |
| App.ClaudeBar.DoBarToggle | claude_bar.py:3232-3251 | the pinned list becomes the toggled base list: the pinned list, or the automatic choice when nothing is pinned |
| App.ClaudeBar.SeedChoice | claude_bar.py:3236-3241 | the seed is the automatic choice among Claude (when data exists) and the providers that report a percentage |
| StatusBar.BarPct | claude_bar.py:2989-2998 | nothing for a failed fetch; the highest row when there are rows; otherwise the spend percentage |
| StatusBar.ClaudeSegment | claude_bar.py:3004-3013 | the Claude segment exists exactly when some Claude limit is present; it shows the first present of session, weekly and Sonnet, and it is marked exactly when a weekly limit is at 95 or more while the shown session is under 95 |
| StatusBar.AvailableKeys | claude_bar.py:3014-3019 | the available segments are Claude plus exactly the providers with a bar percentage |
| StatusBar.AutoNamesMeaning | claude_bar.py:3025-3027 | the automatic choice has at most 2 names, all available, in strict priority order; no skipped available name outranks a chosen one; and with fewer than 2 chosen, every available priority name is chosen |
| StatusBar.PickedMembers | claude_bar.py:3023-3024 | a name is picked exactly when it is available and listed |
| StatusBar.BarSegmentsMeaning | claude_bar.py:3003-3027 | the title shows the pinned names that have data, in pinned order, or else the automatic choice |
| StatusBar.ToggledMembers | claude_bar.py:3242-3245 | toggling keeps the list duplicate-free, adds the name when it was absent, removes it when present, and keeps every other name |
| StatusBar.ToggledTwice | claude_bar.py:3242-3245 | toggling the same name twice restores the set of names |
| StatusBar.ToggledEmpty | claude_bar.py:3247-3248 | the list empties, so the choice returns to automatic, exactly when the clicked name was the only one pinned |
| StatusBar.SeedIsShownChoice | claude_bar.py:3234-3241 | when some Claude limit row is present, the first click after automatic mode starts from exactly the providers the title was showing |
| StatusBar.SeedWithoutClaudeRows | claude_bar.py:3234-3241 | when data is present but holds no Claude limit row, the title shows no segments, yet the first click still seeds the list with Claude |

## Left out

- The weighted least-squares body of `_calc_burn_rate` (claude_bar.py:167-194) is floating-point work with `exp` and `log`. Its slope is the input `rates`.
- HTTP fetching and vendor JSON parsing (`fetch_*`, `parse_usage`) are left out, because they are network clients. The `LimitRow`, `UsageData` and `ProviderData` they produce are inputs.
- `ProviderData.pct` rounds a float spend ratio, so the model takes it as a given `Option<int>`.
- The menu, title rendering, icons and windows are left out; so are the notice titles and emoji. A notice keeps only its kind, its subject and its figures.
- The part of `_apply` that renders the title and the Claude Code message count is left out. Only the segment selection is modelled.
- `_do_bar_toggle`'s in-place update of the menu views, and `save_config`, are I/O and are left out.
- Loading and saving the JSON history and the config, the SQLite connection and schema setup, and the startup rollup in `__init__` are left out. The constructor takes the loaded history and config as parameters.
- The clock is an integer parameter `now`. The source uses float epoch seconds, so sub-second times are not modelled.
- Threading, the timer and the background fetch orchestration are left out.
- `_fetch_history_data` is modelled only for its intraday bucketing. Its provider summaries and date labels are display work.
- `CloseDaysBefore` visits the closed days in any order, where the source goes in ascending date order. Each day writes only its own rows, so the resulting tables are the same.
- `IntradayWindows` does not follow the source's `ORDER BY ts`. The peak of a bucket does not depend on the order.
- `Sparkline` and `WeeklySparkline` take the width as a parameter. The source's defaults are 20 and 7.
- `Alerts.Slug` lowers ASCII capitals only; Python's `str.lower` also lowers other scripts.
- `Text.Strip` follows `str.isspace` for the characters Python treats as whitespace, and assumes no others.
