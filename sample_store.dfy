/**
 * The long-term history database, held in memory: the `samples` table as a
 * sequence of `(ts, key, pct)` rows in insertion order, and the
 * `daily_stats` table as a map keyed by its primary key `(date, key)`, so an
 * upsert is a map update.
 */
module SampleStore {
  import opened Wrappers
  import opened Stats

  const SecondsPerDay: int := 86400
  /** Raw samples older than 7 days are deleted by the roll-up. */
  const SamplesMaxDays: int := 7
  /** Daily rows older than 90 days are deleted by the roll-up. */
  const DailyMaxDays: int := 90
  /** A sample at or above this percentage counts as a limit hit. */
  const LimitHitPct: int := 95
  /** The weekly queries look back this many days. */
  const WeekDays: int := 7

  /**
   * A UTC calendar day, `date(ts, 'unixepoch')`, numbered from 1970-01-01.
   * The table stores it as a `YYYY-MM-DD` string; those strings order
   * exactly as the day numbers do.
   */
  datatype Date = Date(n: int)

  /** One row of `samples`. */
  datatype Sample = Sample(ts: int, key: string, pct: int)

  /** The non-key columns of one `daily_stats` row. */
  datatype DailyStat = DailyStat(peakPct: int, avgPct: int, limitHits: nat, samples: nat)

  /** `date(ts, 'unixepoch')` as a day number (floor division, also for negative ts). */
  function Day(ts: int): Date
  {
    Date(ts / SecondsPerDay)
  }

  /** The pcts of the samples taken on day `d` under `k`, in table order. */
  function DayPcts(ss: seq<Sample>, d: Date, k: string): (r: seq<int>)
    ensures |r| <= |ss|
  {
    if ss == [] then []
    else
      var s := ss[|ss| - 1];
      DayPcts(ss[..|ss| - 1], d, k) + (if Day(s.ts) == d && s.key == k then [s.pct] else [])
  }

  /** A key has pcts on a day exactly when some sample of that key falls on that day. */
  lemma {:induction false} DayPctsNonEmpty(ss: seq<Sample>, d: Date, k: string)
    ensures DayPcts(ss, d, k) != [] <==>
      exists i :: 0 <= i < |ss| && Day(ss[i].ts) == d && ss[i].key == k
  {
    if ss != [] {
      var init := ss[..|ss| - 1];
      DayPctsNonEmpty(init, d, k);
      assert forall i :: 0 <= i < |init| ==> init[i] == ss[i];
    }
  }

  /** The keys with at least one sample on day `d` (the groups of `GROUP BY key`). */
  function DayKeys(ss: seq<Sample>, d: Date): set<string>
  {
    set i | 0 <= i < |ss| && Day(ss[i].ts) == d :: ss[i].key
  }

  /**
   * One aggregate row: `MAX(pct)`, `CAST(AVG(pct) AS INTEGER)` (a mean
   * truncated toward zero, not rounded), the number of pcts at or above 95,
   * and `COUNT(*)`.
   */
  function Summarize(ps: seq<int>): DailyStat
    requires ps != []
  {
    DailyStat(MaxOf(ps), TruncDiv(Sum(ps), |ps|), CountAtLeast(ps, LimitHitPct), |ps|)
  }

  /** The per-key aggregates of day `d`. */
  function DayStats(ss: seq<Sample>, d: Date): map<string, DailyStat>
  {
    map k | k in DayKeys(ss, d) :: (DayPctsNonEmpty(ss, d, k); Summarize(DayPcts(ss, d, k)))
  }

  /** The distinct days before `today` that still have samples. */
  function ClosedDays(ss: seq<Sample>, today: Date): set<Date>
  {
    set i | 0 <= i < |ss| && Day(ss[i].ts).n < today.n :: Day(ss[i].ts)
  }

  /** The `(date, key)` pairs that have samples on one of `days`. */
  function RolledPairs(ss: seq<Sample>, days: set<Date>): set<(Date, string)>
  {
    set i | 0 <= i < |ss| && Day(ss[i].ts) in days :: (Day(ss[i].ts), ss[i].key)
  }

  lemma RolledPairsMembers(ss: seq<Sample>, days: set<Date>, p: (Date, string))
    ensures p in RolledPairs(ss, days) <==> p.0 in days && p.1 in DayKeys(ss, p.0)
  {
    if p.0 in days && p.1 in DayKeys(ss, p.0) {
      var i :| 0 <= i < |ss| && Day(ss[i].ts) == p.0 && ss[i].key == p.1;
      assert (Day(ss[i].ts), ss[i].key) == p;
    }
  }

  /** `daily_stats` after upserting the aggregates of every day in `days`. */
  function Upserted(daily: map<(Date, string), DailyStat>, ss: seq<Sample>, days: set<Date>)
    : map<(Date, string), DailyStat>
  {
    map p | p in daily.Keys + RolledPairs(ss, days) ::
      if p.0 in days && p.1 in DayStats(ss, p.0) then DayStats(ss, p.0)[p.1] else daily[p]
  }

  /** The samples whose day is not in `days`, in table order. */
  function WithoutDays(ss: seq<Sample>, days: set<Date>): (r: seq<Sample>)
    ensures |r| <= |ss|
  {
    if ss == [] then []
    else
      var s := ss[|ss| - 1];
      WithoutDays(ss[..|ss| - 1], days) + (if Day(s.ts) in days then [] else [s])
  }

  /** The samples stamped at or after `cutoff`, in table order. */
  function SinceTs(ss: seq<Sample>, cutoff: int): (r: seq<Sample>)
    ensures |r| <= |ss|
  {
    if ss == [] then []
    else
      var s := ss[|ss| - 1];
      SinceTs(ss[..|ss| - 1], cutoff) + (if s.ts >= cutoff then [s] else [])
  }

  /** The daily rows dated on or after `fromDay`. */
  function DailySince(daily: map<(Date, string), DailyStat>, fromDay: Date): map<(Date, string), DailyStat>
  {
    map p | p in daily && p.0.n >= fromDay.n :: daily[p]
  }

  /** `samples` after `_rollup_daily_stats` at time `now`. */
  function RolledSamples(ss: seq<Sample>, now: int): seq<Sample>
  {
    SinceTs(WithoutDays(ss, ClosedDays(ss, Day(now))), now - SamplesMaxDays * SecondsPerDay)
  }

  /** `daily_stats` after `_rollup_daily_stats` at time `now`. */
  function RolledDaily(daily: map<(Date, string), DailyStat>, ss: seq<Sample>, now: int)
    : map<(Date, string), DailyStat>
  {
    DailySince(Upserted(daily, ss, ClosedDays(ss, Day(now))), Day(now - DailyMaxDays * SecondsPerDay))
  }

  // ---- facts about the filters ------------------------------------------------

  lemma {:induction false} WithoutDaysMembers(ss: seq<Sample>, days: set<Date>)
    ensures forall s :: s in WithoutDays(ss, days) <==> s in ss && Day(s.ts) !in days
  {
    if ss != [] {
      WithoutDaysMembers(ss[..|ss| - 1], days);
      assert ss == ss[..|ss| - 1] + [ss[|ss| - 1]];
    }
  }

  lemma {:induction false} SinceTsMembers(ss: seq<Sample>, cutoff: int)
    ensures forall s :: s in SinceTs(ss, cutoff) <==> s in ss && s.ts >= cutoff
  {
    if ss != [] {
      SinceTsMembers(ss[..|ss| - 1], cutoff);
      assert ss == ss[..|ss| - 1] + [ss[|ss| - 1]];
    }
  }

  /** Deleting one more day after some days equals deleting them all at once. */
  lemma {:induction false} WithoutDaysStep(ss: seq<Sample>, days: set<Date>, d: Date)
    ensures WithoutDays(WithoutDays(ss, days), {d}) == WithoutDays(ss, days + {d})
  {
    if ss != [] {
      var init := ss[..|ss| - 1];
      var s := ss[|ss| - 1];
      WithoutDaysStep(init, days, d);
      var w := WithoutDays(init, days);
      if Day(s.ts) !in days {
        assert WithoutDays(ss, days) == w + [s];
        assert (w + [s])[..|w + [s]| - 1] == w;
      } else {
        assert WithoutDays(ss, days) == w;
      }
    }
  }

  /** Deleting other days leaves a day's pcts untouched. */
  lemma {:induction false} DayPctsWithoutOtherDays(ss: seq<Sample>, days: set<Date>, d: Date, k: string)
    requires d !in days
    ensures DayPcts(WithoutDays(ss, days), d, k) == DayPcts(ss, d, k)
  {
    if ss != [] {
      var init := ss[..|ss| - 1];
      var s := ss[|ss| - 1];
      DayPctsWithoutOtherDays(init, days, d, k);
      var w := WithoutDays(init, days);
      if Day(s.ts) !in days {
        assert WithoutDays(ss, days) == w + [s];
        assert (w + [s])[..|w + [s]| - 1] == w;
      } else {
        assert WithoutDays(ss, days) == w;
        assert Day(s.ts) != d;
      }
    }
  }

  /** Deleting other days leaves a day's aggregates untouched. */
  lemma DayStatsWithoutOtherDays(ss: seq<Sample>, days: set<Date>, d: Date)
    requires d !in days
    ensures DayStats(WithoutDays(ss, days), d) == DayStats(ss, d)
  {
    var w := WithoutDays(ss, days);
    WithoutDaysMembers(ss, days);
    forall k
      ensures k in DayKeys(w, d) <==> k in DayKeys(ss, d)
      ensures DayPcts(w, d, k) == DayPcts(ss, d, k)
    {
      DayPctsWithoutOtherDays(ss, days, d, k);
      DayPctsNonEmpty(w, d, k);
      DayPctsNonEmpty(ss, d, k);
      if k in DayKeys(w, d) {
        var i :| 0 <= i < |w| && Day(w[i].ts) == d && w[i].key == k;
      }
      if k in DayKeys(ss, d) {
        var i :| 0 <= i < |ss| && Day(ss[i].ts) == d && ss[i].key == k;
      }
    }
    assert DayKeys(w, d) == DayKeys(ss, d);
  }

  // ---- what the roll-up guarantees --------------------------------------------

  /**
   * After a roll-up at `now`, a sample survives exactly when it was already
   * there, falls on today's UTC day or later, and is at most 7 days old.
   */
  lemma RolledSamplesMembers(ss: seq<Sample>, now: int)
    ensures forall s :: s in RolledSamples(ss, now) <==>
      s in ss && Day(s.ts).n >= Day(now).n && s.ts >= now - SamplesMaxDays * SecondsPerDay
  {
    var closed := ClosedDays(ss, Day(now));
    WithoutDaysMembers(ss, closed);
    SinceTsMembers(WithoutDays(ss, closed), now - SamplesMaxDays * SecondsPerDay);
    forall s | s in ss && Day(s.ts).n < Day(now).n
      ensures Day(s.ts) in closed
    {
      var i :| 0 <= i < |ss| && ss[i] == s;
    }
  }

  /** Which rows an upsert of `days` leaves, and with what values. */
  lemma UpsertedAt(daily: map<(Date, string), DailyStat>, ss: seq<Sample>, days: set<Date>, p: (Date, string))
    ensures p in Upserted(daily, ss, days) <==> p in daily || (p.0 in days && p.1 in DayKeys(ss, p.0))
    ensures p in Upserted(daily, ss, days) ==>
      Upserted(daily, ss, days)[p] ==
        if p.0 in days && p.1 in DayKeys(ss, p.0) then DayStats(ss, p.0)[p.1] else daily[p]
  {
    RolledPairsMembers(ss, days, p);
  }

  /** A day with samples of some key is closed exactly when it is before today. */
  lemma ClosedDayOfKey(ss: seq<Sample>, today: Date, d: Date, k: string)
    requires k in DayKeys(ss, d)
    ensures d in ClosedDays(ss, today) <==> d.n < today.n
  {
    var i :| 0 <= i < |ss| && Day(ss[i].ts) == d && ss[i].key == k;
  }

  /**
   * After a roll-up at `now`, `daily_stats` holds no row older than the
   * 90-day cutoff; each closed `(day, key)` with samples inside the cutoff
   * has the aggregate of exactly that day's samples of that key; every other
   * row inside the cutoff is the old row, unchanged; nothing else is there.
   */
  lemma RolledDailyMeaning(daily: map<(Date, string), DailyStat>, ss: seq<Sample>, now: int)
    ensures var r := RolledDaily(daily, ss, now);
      var cutoff := Day(now - DailyMaxDays * SecondsPerDay);
      && (forall p :: p in r ==> p.0.n >= cutoff.n)
      && (forall p :: p in r <==>
            p.0.n >= cutoff.n && (p in daily || (p.0.n < Day(now).n && p.1 in DayKeys(ss, p.0))))
      && (forall p :: p in r && p.0.n < Day(now).n && p.1 in DayKeys(ss, p.0) ==>
            DayPcts(ss, p.0, p.1) != [] && r[p] == Summarize(DayPcts(ss, p.0, p.1)))
      && (forall p :: p in r && !(p.0.n < Day(now).n && p.1 in DayKeys(ss, p.0)) ==> r[p] == daily[p])
  {
    var closed := ClosedDays(ss, Day(now));
    var u := Upserted(daily, ss, closed);
    var r := RolledDaily(daily, ss, now);
    var cutoff := Day(now - DailyMaxDays * SecondsPerDay);
    forall p: (Date, string)
      ensures p in r <==> p.0.n >= cutoff.n && (p in daily || (p.0.n < Day(now).n && p.1 in DayKeys(ss, p.0)))
      ensures p in r && p.0.n < Day(now).n && p.1 in DayKeys(ss, p.0) ==>
        DayPcts(ss, p.0, p.1) != [] && r[p] == Summarize(DayPcts(ss, p.0, p.1))
      ensures p in r && !(p.0.n < Day(now).n && p.1 in DayKeys(ss, p.0)) ==> r[p] == daily[p]
    {
      UpsertedAt(daily, ss, closed, p);
      if p.1 in DayKeys(ss, p.0) {
        ClosedDayOfKey(ss, Day(now), p.0, p.1);
        DayPctsNonEmpty(ss, p.0, p.1);
      }
    }
  }

  /** After a roll-up no remaining sample lies on a day before `now`'s day. */
  lemma RolledSamplesNothingClosed(ss: seq<Sample>, now: int)
    ensures ClosedDays(RolledSamples(ss, now), Day(now)) == {}
    ensures forall i :: 0 <= i < |RolledSamples(ss, now)| ==>
      RolledSamples(ss, now)[i].ts >= now - SamplesMaxDays * SecondsPerDay
    ensures forall i :: 0 <= i < |RolledSamples(ss, now)| ==> Day(RolledSamples(ss, now)[i].ts).n >= Day(now).n
  {
    var ss1 := RolledSamples(ss, now);
    RolledSamplesMembers(ss, now);
    forall i | 0 <= i < |ss1|
      ensures Day(ss1[i].ts).n >= Day(now).n && ss1[i].ts >= now - SamplesMaxDays * SecondsPerDay
    {
      assert ss1[i] in ss1;
    }
  }

  /** Upserting no days changes nothing. */
  lemma UpsertNothing(daily: map<(Date, string), DailyStat>, ss: seq<Sample>)
    ensures Upserted(daily, ss, {}) == daily
  {
    assert RolledPairs(ss, {}) == {};
  }

  /**
   * Running the roll-up a second time at the same instant, with no new
   * samples in between, leaves both tables exactly as the first run left them.
   */
  lemma RollupIdempotent(daily: map<(Date, string), DailyStat>, ss: seq<Sample>, now: int)
    ensures var ss1 := RolledSamples(ss, now);
      var daily1 := RolledDaily(daily, ss, now);
      RolledSamples(ss1, now) == ss1 && RolledDaily(daily1, ss1, now) == daily1
  {
    var ss1 := RolledSamples(ss, now);
    var daily1 := RolledDaily(daily, ss, now);
    RolledSamplesNothingClosed(ss, now);
    WithoutDaysNone(ss1);
    SinceTsAllRecent(ss1, now - SamplesMaxDays * SecondsPerDay);
    UpsertNothing(daily1, ss1);
    var cutoff := Day(now - DailyMaxDays * SecondsPerDay);
    assert DailySince(daily1, cutoff) == daily1;
  }

  lemma {:induction false} WithoutDaysNone(ss: seq<Sample>)
    ensures WithoutDays(ss, {}) == ss
  {
    if ss != [] {
      WithoutDaysNone(ss[..|ss| - 1]);
    }
  }

  lemma {:induction false} SinceTsAllRecent(ss: seq<Sample>, cutoff: int)
    requires forall i :: 0 <= i < |ss| ==> ss[i].ts >= cutoff
    ensures SinceTs(ss, cutoff) == ss
  {
    if ss != [] {
      var init := ss[..|ss| - 1];
      assert forall i :: 0 <= i < |init| ==> init[i] == ss[i];
      SinceTsAllRecent(init, cutoff);
    }
  }

  // ---- the running aggregate a single pass over the table keeps ---------------

  /** The running `MAX`, `SUM`, `COUNT` and limit-hit count of one group. */
  datatype Tally = Tally(peak: int, sum: int, count: nat, hits: nat)

  function HitOf(p: int): nat
  {
    if p >= LimitHitPct then 1 else 0
  }

  /** The tally of a group holding one pct. */
  function Start(p: int): Tally
  {
    Tally(p, p, 1, HitOf(p))
  }

  /** The tally of a group after one more pct. */
  function Bump(t: Tally, p: int): Tally
  {
    Tally(if p > t.peak then p else t.peak, t.sum + p, t.count + 1, t.hits + HitOf(p))
  }

  /** The tally of a whole group. */
  function TallyOf(ps: seq<int>): Tally
    requires ps != []
  {
    Tally(MaxOf(ps), Sum(ps), |ps|, CountAtLeast(ps, LimitHitPct))
  }

  /** The daily row a tally stands for. */
  function StatOf(t: Tally): DailyStat
    requires t.count > 0
  {
    DailyStat(t.peak, TruncDiv(t.sum, t.count), t.hits, t.count)
  }

  /** Extending a group by one pct updates its tally in constant time. */
  lemma TallyOfSnoc(ps: seq<int>, p: int)
    ensures TallyOf(ps + [p]) == if ps == [] then Start(p) else Bump(TallyOf(ps), p)
  {
    assert (ps + [p])[..|ps|] == ps;
    if ps == [] {
      assert ps + [p] == [p];
      assert Sum([p]) == Sum([]) + p;
    }
  }

  /** The per-key tallies of day `d`, as one left-to-right pass builds them. */
  function Tallies(ss: seq<Sample>, d: Date): map<string, Tally>
  {
    if ss == [] then map[]
    else
      var acc := Tallies(ss[..|ss| - 1], d);
      var s := ss[|ss| - 1];
      if Day(s.ts) != d then acc
      else acc[s.key := if s.key in acc then Bump(acc[s.key], s.pct) else Start(s.pct)]
  }

  /** The single pass computes, per key, exactly the tally of that key's pcts of the day. */
  lemma {:induction false} TalliesAt(ss: seq<Sample>, d: Date, k: string)
    ensures k in Tallies(ss, d) <==> DayPcts(ss, d, k) != []
    ensures k in Tallies(ss, d) ==>
      DayPcts(ss, d, k) != [] && Tallies(ss, d)[k] == TallyOf(DayPcts(ss, d, k))
  {
    if ss != [] {
      var init := ss[..|ss| - 1];
      var s := ss[|ss| - 1];
      TalliesAt(init, d, k);
      if Day(s.ts) == d && s.key == k {
        assert DayPcts(ss, d, k) == DayPcts(init, d, k) + [s.pct];
        TallyOfSnoc(DayPcts(init, d, k), s.pct);
      } else {
        assert DayPcts(ss, d, k) == DayPcts(init, d, k) + [];
        assert DayPcts(init, d, k) + [] == DayPcts(init, d, k);
        assert k in Tallies(ss, d) ==> Tallies(ss, d)[k] == Tallies(init, d)[k];
      }
    }
  }

  // ---- the weekly query ---------------------------------------------------------

  /** Every non-empty finite set of dates has an earliest one. */
  lemma {:induction false} HasEarliest(s: set<Date>)
    requires s != {}
    ensures exists m :: m in s && forall x :: x in s ==> m.n <= x.n
    decreases |s|
  {
    var y :| y in s;
    if s == {y} {
      assert forall x :: x in s ==> y.n <= x.n;
    } else {
      HasEarliest(s - {y});
      var m :| m in s - {y} && forall x :: x in s - {y} ==> m.n <= x.n;
      assert forall x :: x in s ==> x == y || x in s - {y};
      if y.n < m.n {
        assert forall x :: x in s ==> y.n <= x.n;
      } else {
        assert forall x :: x in s ==> m.n <= x.n;
      }
    }
  }

  ghost function Earliest(s: set<Date>): (m: Date)
    requires s != {}
    ensures m in s && forall x :: x in s ==> m.n <= x.n
  {
    HasEarliest(s);
    var m :| m in s && forall x :: x in s ==> m.n <= x.n; m
  }

  /** The dates on or after `fromDay` that have a `daily_stats` row for `key`. */
  function RowDays(daily: map<(Date, string), DailyStat>, key: string, fromDay: Date): set<Date>
  {
    set p | p in daily && p.1 == key && p.0.n >= fromDay.n :: p.0
  }

  /** The rows of `key` for `days`, ascending by date (`ORDER BY date`). */
  ghost function Ascending(daily: map<(Date, string), DailyStat>, key: string, days: set<Date>)
    : seq<(Date, DailyStat)>
    requires forall d :: d in days ==> (d, key) in daily
    decreases |days|
  {
    if days == {} then []
    else
      var d := Earliest(days);
      [(d, daily[(d, key)])] + Ascending(daily, key, days - {d})
  }

  /** Every day of `RowDays` has a row for `key`. */
  lemma RowDaysStored(daily: map<(Date, string), DailyStat>, key: string, fromDay: Date)
    ensures forall d :: d in RowDays(daily, key, fromDay) ==> (d, key) in daily
  {
    forall d | d in RowDays(daily, key, fromDay) ensures (d, key) in daily {
      var p :| p in daily && p.1 == key && p.0.n >= fromDay.n && p.0 == d;
    }
  }

  /** The earliest day's row comes first, then the rest in ascending order. */
  lemma AscendingFirst(daily: map<(Date, string), DailyStat>, key: string, days: set<Date>, d: Date)
    requires forall x :: x in days ==> (x, key) in daily
    requires d in days && forall x :: x in days ==> d.n <= x.n
    ensures Ascending(daily, key, days) == [(d, daily[(d, key)])] + Ascending(daily, key, days - {d})
  {
    var m := Earliest(days);
    assert m.n == d.n;
  }

  /**
   * The weekly rows are strictly ascending by date and are exactly the rows
   * of `key` for `days`, each with its stored values.
   */
  lemma {:induction false} AscendingMeaning(daily: map<(Date, string), DailyStat>, key: string, days: set<Date>)
    requires forall d :: d in days ==> (d, key) in daily
    ensures var rows := Ascending(daily, key, days);
      && |rows| == |days|
      && (forall i, j :: 0 <= i < j < |rows| ==> rows[i].0.n < rows[j].0.n)
      && (forall r :: r in rows <==> r.0 in days && r.1 == daily[(r.0, key)])
    decreases |days|
  {
    if days != {} {
      var d := Earliest(days);
      var rest := Ascending(daily, key, days - {d});
      AscendingMeaning(daily, key, days - {d});
      var rows := [(d, daily[(d, key)])] + rest;
      assert rows == Ascending(daily, key, days);
      forall i, j | 0 <= i < j < |rows| ensures rows[i].0.n < rows[j].0.n {
        if i == 0 {
          assert rows[j] == rest[j - 1];
          assert rows[j] in rest;
        } else {
          assert rows[i] == rest[i - 1] && rows[j] == rest[j - 1];
        }
      }
      forall r ensures r in rows <==> r.0 in days && r.1 == daily[(r.0, key)] {
        if r.0 in days && r.1 == daily[(r.0, key)] && r.0 != d {
          assert r in rest;
        }
      }
    }
  }

  /** `_get_weekly_stats` reads every row of `key` in the window, and nothing else. */
  lemma WeeklyRowsMeaning(daily: map<(Date, string), DailyStat>, key: string, now: int)
    ensures var from := Day(now - WeekDays * SecondsPerDay);
      var days := RowDays(daily, key, from);
      (forall d :: d in days ==> (d, key) in daily)
      && var rows := Ascending(daily, key, days);
      && (forall i, j :: 0 <= i < j < |rows| ==> rows[i].0.n < rows[j].0.n)
      && (forall r :: r in rows <==> (r.0, key) in daily && r.0.n >= from.n && r.1 == daily[(r.0, key)])
  {
    var from := Day(now - WeekDays * SecondsPerDay);
    var days := RowDays(daily, key, from);
    forall d | d in days ensures (d, key) in daily && d.n >= from.n {
      var p :| p in daily && p.1 == key && p.0.n >= from.n && p.0 == d;
    }
    AscendingMeaning(daily, key, days);
    forall d: Date | (d, key) in daily && d.n >= from.n
      ensures d in days
    {
      assert var p := (d, key); p in daily && p.1 == key && p.0.n >= from.n;
    }
  }

  /** The sum of `limit_hits` over some daily rows. */
  function SumHits(rows: seq<(Date, DailyStat)>): nat
  {
    if rows == [] then 0 else SumHits(rows[..|rows| - 1]) + rows[|rows| - 1].1.limitHits
  }

  /** A sample the second query of `_get_week_limit_hits` counts. */
  predicate IsRecentHit(s: Sample, key: string, cutoff: int)
  {
    s.key == key && s.pct >= LimitHitPct && s.ts >= cutoff
  }

  /**
   * The number of samples of `key` at or above 95% stamped at or after
   * `cutoff`: none exactly when no sample is such a hit, all of them
   * exactly when every sample is one.
   */
  function RecentHits(ss: seq<Sample>, key: string, cutoff: int): (n: nat)
    ensures n <= |ss|
    ensures n == 0 <==> forall i :: 0 <= i < |ss| ==> !IsRecentHit(ss[i], key, cutoff)
    ensures n == |ss| <==> forall i :: 0 <= i < |ss| ==> IsRecentHit(ss[i], key, cutoff)
  {
    if ss == [] then 0
    else
      var s := ss[|ss| - 1];
      RecentHits(ss[..|ss| - 1], key, cutoff) + (if IsRecentHit(s, key, cutoff) then 1 else 0)
  }

  /** The count of a table is the sum of the counts of its parts. */
  lemma {:induction false} RecentHitsConcat(a: seq<Sample>, b: seq<Sample>, key: string, cutoff: int)
    ensures RecentHits(a + b, key, cutoff) == RecentHits(a, key, cutoff) + RecentHits(b, key, cutoff)
    decreases |b|
  {
    if b != [] {
      var b0 := b[..|b| - 1];
      RecentHitsConcat(a, b0, key, cutoff);
      assert (a + b)[..|a + b| - 1] == a + b0;
    } else {
      assert a + b == a;
    }
  }

  /** One sample counts once when it is a hit, and not at all otherwise. */
  lemma RecentHitsSingle(s: Sample, key: string, cutoff: int)
    ensures RecentHits([s], key, cutoff) == if IsRecentHit(s, key, cutoff) then 1 else 0
  {
    assert [s][..0] == [];
  }

  /**
   * After a roll-up from a daily table that holds only days before `now`'s
   * day, the two halves of `_get_week_limit_hits` never count the same day:
   * every daily row lies before `now`'s day and every remaining sample on
   * or after it.
   */
  lemma RollupKeepsHitsApart(daily: map<(Date, string), DailyStat>, ss: seq<Sample>, now: int)
    requires forall p :: p in daily ==> p.0.n < Day(now).n
    ensures forall p :: p in RolledDaily(daily, ss, now) ==> p.0.n < Day(now).n
    ensures forall i :: 0 <= i < |RolledSamples(ss, now)| ==> Day(RolledSamples(ss, now)[i].ts).n >= Day(now).n
    ensures forall p, i :: p in RolledDaily(daily, ss, now) && 0 <= i < |RolledSamples(ss, now)| ==>
      p.0 != Day(RolledSamples(ss, now)[i].ts)
  {
    RolledDailyMeaning(daily, ss, now);
    RolledSamplesNothingClosed(ss, now);
  }

  // ---- the intraday windows ------------------------------------------------------

  /**
   * The 5-hour window of its UTC day a timestamp falls in, `min(hour // 5, 4)`:
   * 00-04, 05-09, 10-14, 15-19 and 20-23 o'clock.
   */
  function Window(ts: int): (w: int)
    ensures 0 <= w <= 4
  {
    var hour := (ts % SecondsPerDay) / 3600;
    if hour / 5 < 4 then hour / 5 else 4
  }

  /** The pcts of `k`'s samples on day `today` in window `idx`, in table order. */
  function WindowPcts(ss: seq<Sample>, today: Date, k: string, idx: int): seq<int>
  {
    if ss == [] then []
    else
      var s := ss[|ss| - 1];
      WindowPcts(ss[..|ss| - 1], today, k, idx)
        + (if Day(s.ts) == today && s.key == k && Window(s.ts) == idx then [s.pct] else [])
  }

  /** The largest of some pcts and 0: what a window shows. */
  function PeakOrZero(ps: seq<int>): (r: int)
    ensures r >= 0
    ensures forall i :: 0 <= i < |ps| ==> ps[i] <= r
    ensures r == 0 || r in ps
  {
    if ps == [] then 0 else if MaxOf(ps) > 0 then MaxOf(ps) else 0
  }

  /** One more pct raises the peak to it when it is larger. */
  lemma PeakOrZeroSnoc(ps: seq<int>, p: int)
    ensures PeakOrZero(ps + [p]) == if p > PeakOrZero(ps) then p else PeakOrZero(ps)
  {
    assert (ps + [p])[..|ps|] == ps;
    if ps == [] {
      assert ps + [p] == [p];
    }
  }

  /** The per-key, per-window table of today's samples, as one pass builds it. */
  function Buckets(ss: seq<Sample>, today: Date): map<string, map<int, int>>
  {
    if ss == [] then map[]
    else
      var w := Buckets(ss[..|ss| - 1], today);
      var s := ss[|ss| - 1];
      if Day(s.ts) != today then w
      else
        var bucket := if s.key in w then w[s.key] else map[];
        var idx := Window(s.ts);
        var prev := if idx in bucket then bucket[idx] else 0;
        w[s.key := bucket[idx := if s.pct > prev then s.pct else prev]]
  }

  /**
   * What the intraday table holds: a key has an entry exactly when it has a
   * sample today, a window exactly when one of those samples falls in it,
   * and the window's value is the largest of 0 and its samples' pcts.
   */
  lemma {:induction false} BucketsAt(ss: seq<Sample>, today: Date, k: string, idx: int)
    ensures k in Buckets(ss, today) <==> DayPcts(ss, today, k) != []
    ensures k in Buckets(ss, today) && idx in Buckets(ss, today)[k] <==> WindowPcts(ss, today, k, idx) != []
    ensures k in Buckets(ss, today) && idx in Buckets(ss, today)[k] ==>
      Buckets(ss, today)[k][idx] == PeakOrZero(WindowPcts(ss, today, k, idx))
  {
    if ss != [] {
      var init := ss[..|ss| - 1];
      var s := ss[|ss| - 1];
      BucketsAt(init, today, k, idx);
      var ps := WindowPcts(init, today, k, idx);
      if Day(s.ts) == today && s.key == k && Window(s.ts) == idx {
        assert WindowPcts(ss, today, k, idx) == ps + [s.pct];
        PeakOrZeroSnoc(ps, s.pct);
      } else {
        assert WindowPcts(ss, today, k, idx) == ps + [];
        assert ps + [] == ps;
        assert k in Buckets(ss, today) && idx in Buckets(ss, today)[k] ==>
          k in Buckets(init, today) && idx in Buckets(init, today)[k] &&
          Buckets(ss, today)[k][idx] == Buckets(init, today)[k][idx];
      }
    }
  }

  // ---- the database ----------------------------------------------------------------

  /** The two tables of the history database. */
  class HistoryDb {
    var samples: seq<Sample>
    var daily: map<(Date, string), DailyStat>

    constructor ()
      ensures samples == [] && daily == map[]
    {
      samples := [];
      daily := map[];
    }

    /** `_record_sample`: one more row, stamped `now`, at the end of the table. */
    method RecordSample(key: string, pct: int, now: int)
      modifies this
      ensures samples == old(samples) + [Sample(now, key, pct)]
      ensures daily == old(daily)
    {
      samples := samples + [Sample(now, key, pct)];
    }

    /**
     * The per-key `MAX`, truncated `AVG`, `COUNT` and limit-hit `SUM` of
     * day `d`'s samples, as one pass over the table keeping a tally per key.
     */
    method AggregateDay(d: Date) returns (stats: map<string, DailyStat>)
      ensures stats == DayStats(samples, d)
    {
      var acc: map<string, Tally> := map[];
      var i := 0;
      while i < |samples|
        invariant 0 <= i <= |samples|
        invariant acc == Tallies(samples[..i], d)
      {
        var s := samples[i];
        assert samples[..i + 1][..i] == samples[..i];
        if Day(s.ts) == d {
          acc := acc[s.key := if s.key in acc then Bump(acc[s.key], s.pct) else Start(s.pct)];
        }
        i := i + 1;
      }
      assert samples[..|samples|] == samples;
      stats := map k | k in acc :: (TalliesAt(samples, d, k); StatOf(acc[k]));
      forall k
        ensures k in stats <==> k in DayKeys(samples, d)
        ensures k in stats ==> stats[k] == DayStats(samples, d)[k]
      {
        TalliesAt(samples, d, k);
        DayPctsNonEmpty(samples, d, k);
        if k in DayKeys(samples, d) {
          var j :| 0 <= j < |samples| && Day(samples[j].ts) == d && samples[j].key == k;
        }
      }
    }

    /** `_get_today_stats`: the live aggregates of today's not yet rolled-up samples. */
    method TodayStats(now: int) returns (stats: map<string, DailyStat>)
      ensures stats == DayStats(samples, Day(now))
    {
      stats := AggregateDay(Day(now));
    }

    /**
     * `_rollup_daily_stats`: aggregate every closed day into `daily_stats`,
     * delete that day's samples, then delete samples older than 7 days and
     * daily rows older than 90 days. The source walks the closed days in
     * ascending order; each day's work touches only that day's samples and
     * rows, so the model takes them in any order.
     */
    method Rollup(now: int)
      modifies this
      ensures samples == RolledSamples(old(samples), now)
      ensures daily == RolledDaily(old(daily), old(samples), now)
    {
      CloseDaysBefore(Day(now));
      DeleteOlderThan(now - SamplesMaxDays * SecondsPerDay);
      DeleteDailyBefore(Day(now - DailyMaxDays * SecondsPerDay));
    }

    /** Every day before `today` that has samples, closed one at a time. */
    method CloseDaysBefore(today: Date)
      modifies this
      ensures samples == WithoutDays(old(samples), ClosedDays(old(samples), today))
      ensures daily == Upserted(old(daily), old(samples), ClosedDays(old(samples), today))
    {
      ghost var s0, d0 := samples, daily;
      var days := ClosedDays(samples, today);
      ghost var all := days;
      ghost var done: set<Date> := {};
      WithoutDaysNone(s0);
      UpsertNothing(d0, s0);
      while days != {}
        invariant days + done == all && days !! done
        invariant samples == WithoutDays(s0, done)
        invariant daily == Upserted(d0, s0, done)
        decreases |days|
      {
        var d :| d in days;
        MoveDay(days, done, all, d);
        CloseNext(s0, d0, done, d);
        done := done + {d};
        days := days - {d};
      }
      assert done == all;
    }

    /** One round of the day loop: close day `d`, not closed before. */
    method CloseNext(ghost s0: seq<Sample>, ghost d0: map<(Date, string), DailyStat>, ghost done: set<Date>, d: Date)
      requires d !in done
      requires samples == WithoutDays(s0, done) && daily == Upserted(d0, s0, done)
      modifies this
      ensures samples == WithoutDays(s0, done + {d})
      ensures daily == Upserted(d0, s0, done + {d})
    {
      CloseDay(d);
      DayStatsWithoutOtherDays(s0, done, d);
      UpsertStep(d0, s0, done, d, daily);
      WithoutDaysStep(s0, done, d);
    }

    /** `DELETE FROM daily_stats WHERE date < cutoff` */
    method DeleteDailyBefore(cutoff: Date)
      modifies this
      ensures samples == old(samples)
      ensures daily == DailySince(old(daily), cutoff)
    {
      daily := map p | p in daily && p.0.n >= cutoff.n :: daily[p];
    }

    /**
     * One closed day: its aggregates replace that day's `daily_stats` rows
     * and its samples are deleted.
     */
    method CloseDay(d: Date)
      modifies this
      ensures samples == WithoutDays(old(samples), {d})
      ensures forall p :: p in daily <==> p in old(daily) || (p.0 == d && p.1 in DayStats(old(samples), d))
      ensures forall p :: p in daily ==>
        daily[p] == if p.0 == d && p.1 in DayStats(old(samples), d) then DayStats(old(samples), d)[p.1]
                    else old(daily)[p]
    {
      var stats := AggregateDay(d);
      UpsertDay(d, stats);
      DeleteDay(d);
    }

    /** `INSERT OR REPLACE` of one day's aggregates, one row per key. */
    method UpsertDay(d: Date, stats: map<string, DailyStat>)
      modifies this
      ensures samples == old(samples)
      ensures forall p :: p in daily <==> p in old(daily) || (p.0 == d && p.1 in stats)
      ensures forall p :: p in daily ==>
        daily[p] == if p.0 == d && p.1 in stats then stats[p.1] else old(daily)[p]
    {
      var ks := stats.Keys;
      while ks != {}
        invariant ks <= stats.Keys
        invariant samples == old(samples)
        invariant forall p :: p in daily <==> p in old(daily) || (p.0 == d && p.1 in stats.Keys - ks)
        invariant forall p :: p in daily ==>
          daily[p] == if p.0 == d && p.1 in stats.Keys - ks then stats[p.1] else old(daily)[p]
        decreases |ks|
      {
        var k :| k in ks;
        daily := daily[(d, k) := stats[k]];
        ks := ks - {k};
      }
    }

    /** `DELETE FROM samples WHERE date(ts, 'unixepoch') = d` */
    method DeleteDay(d: Date)
      modifies this
      ensures samples == WithoutDays(old(samples), {d})
      ensures daily == old(daily)
    {
      var kept: seq<Sample> := [];
      var i := 0;
      while i < |samples|
        invariant 0 <= i <= |samples|
        invariant kept == WithoutDays(samples[..i], {d})
      {
        assert samples[..i + 1][..i] == samples[..i];
        if Day(samples[i].ts) != d {
          kept := kept + [samples[i]];
        }
        i := i + 1;
      }
      assert samples[..|samples|] == samples;
      samples := kept;
    }

    /** `DELETE FROM samples WHERE ts < cutoff` */
    method DeleteOlderThan(cutoff: int)
      modifies this
      ensures samples == SinceTs(old(samples), cutoff)
      ensures daily == old(daily)
    {
      var kept: seq<Sample> := [];
      var i := 0;
      while i < |samples|
        invariant 0 <= i <= |samples|
        invariant kept == SinceTs(samples[..i], cutoff)
      {
        assert samples[..i + 1][..i] == samples[..i];
        if samples[i].ts >= cutoff {
          kept := kept + [samples[i]];
        }
        i := i + 1;
      }
      assert samples[..|samples|] == samples;
      samples := kept;
    }

    /**
     * `_get_weekly_stats`: the rows of `key` dated within the last 7 days,
     * ascending by date, taken by repeatedly removing the earliest date.
     */
    method WeeklyStats(key: string, now: int) returns (rows: seq<(Date, DailyStat)>)
      ensures (forall d :: d in RowDays(daily, key, Day(now - WeekDays * SecondsPerDay)) ==> (d, key) in daily)
      ensures rows == Ascending(daily, key, RowDays(daily, key, Day(now - WeekDays * SecondsPerDay)))
    {
      var all := RowDays(daily, key, Day(now - WeekDays * SecondsPerDay));
      RowDaysStored(daily, key, Day(now - WeekDays * SecondsPerDay));
      var remaining := all;
      rows := [];
      while remaining != {}
        invariant remaining <= all
        invariant rows + Ascending(daily, key, remaining) == Ascending(daily, key, all)
        decreases |remaining|
      {
        HasEarliest(remaining);
        var d :| d in remaining && forall x :: x in remaining ==> d.n <= x.n;
        AscendingFirst(daily, key, remaining, d);
        rows := rows + [(d, daily[(d, key)])];
        remaining := remaining - {d};
      }
    }

    /**
     * `_get_week_limit_hits`: the `limit_hits` of the last 7 days' daily rows
     * of `key`, plus the samples of `key` at or above 95% from the last
     * 7 days still in `samples`.
     */
    method WeekLimitHits(key: string, now: int) returns (n: nat)
      ensures (forall d :: d in RowDays(daily, key, Day(now - WeekDays * SecondsPerDay)) ==> (d, key) in daily)
      ensures n == SumHits(Ascending(daily, key, RowDays(daily, key, Day(now - WeekDays * SecondsPerDay))))
                   + RecentHits(samples, key, now - WeekDays * SecondsPerDay)
    {
      var rows := WeeklyStats(key, now);
      var fromDaily := 0;
      var i := 0;
      while i < |rows|
        invariant 0 <= i <= |rows|
        invariant fromDaily == SumHits(rows[..i])
      {
        assert rows[..i + 1][..i] == rows[..i];
        fromDaily := fromDaily + rows[i].1.limitHits;
        i := i + 1;
      }
      assert rows[..|rows|] == rows;
      var cutoffTs := now - WeekDays * SecondsPerDay;
      var fromSamples := 0;
      var j := 0;
      while j < |samples|
        invariant 0 <= j <= |samples|
        invariant fromSamples == RecentHits(samples[..j], key, cutoffTs)
      {
        assert samples[..j + 1][..j] == samples[..j];
        var s := samples[j];
        if s.key == key && s.pct >= LimitHitPct && s.ts >= cutoffTs {
          fromSamples := fromSamples + 1;
        }
        j := j + 1;
      }
      assert samples[..|samples|] == samples;
      n := fromDaily + fromSamples;
    }

    /** The intraday 5-hour windows of `_fetch_history_data`, over today's samples. */
    method IntradayWindows(now: int) returns (windows: map<string, map<int, int>>)
      ensures windows == Buckets(samples, Day(now))
    {
      var today := Day(now);
      windows := map[];
      var i := 0;
      while i < |samples|
        invariant 0 <= i <= |samples|
        invariant windows == Buckets(samples[..i], today)
      {
        assert samples[..i + 1][..i] == samples[..i];
        var s := samples[i];
        if Day(s.ts) == today {
          var bucket := if s.key in windows then windows[s.key] else map[];
          var idx := Window(s.ts);
          var prev := if idx in bucket then bucket[idx] else 0;
          windows := windows[s.key := bucket[idx := if s.pct > prev then s.pct else prev]];
        }
        i := i + 1;
      }
      assert samples[..|samples|] == samples;
    }
  }

  /** Moving one day from the days still to close to the closed ones. */
  lemma MoveDay(days: set<Date>, done: set<Date>, all: set<Date>, d: Date)
    requires days + done == all && days !! done && d in days
    ensures d !in done
    ensures (days - {d}) + (done + {d}) == all && (days - {d}) !! (done + {d})
    ensures |days - {d}| < |days|
  {
  }

  /** Upserting one more day's aggregates extends the upsert of the earlier days. */
  lemma UpsertStep(daily: map<(Date, string), DailyStat>, ss: seq<Sample>, done: set<Date>, d: Date,
                   after: map<(Date, string), DailyStat>)
    requires d !in done
    requires forall p :: p in after <==> p in Upserted(daily, ss, done) || (p.0 == d && p.1 in DayStats(ss, d))
    requires forall p :: p in after ==>
      after[p] == if p.0 == d && p.1 in DayStats(ss, d) then DayStats(ss, d)[p.1] else Upserted(daily, ss, done)[p]
    ensures after == Upserted(daily, ss, done + {d})
  {
    var u := Upserted(daily, ss, done);
    var u' := Upserted(daily, ss, done + {d});
    forall p: (Date, string)
      ensures p in u' <==> p in after
      ensures p in u' ==> u'[p] == after[p]
    {
      UpsertedAt(daily, ss, done, p);
      UpsertedAt(daily, ss, done + {d}, p);
    }
  }
}
