/**
 * What the menu-bar title shows: one percentage per provider, the Claude
 * segment first in priority, either the providers the user pinned or the
 * two highest-priority ones that have data; and how clicking a provider
 * in the menu pins or unpins it.
 */
module StatusBar {
  import opened Wrappers
  import opened Stats
  import opened Usage
  import Display

  /** `_BAR_PRIORITY`: the order in which the automatic slots are filled. */
  const BarPriority: seq<string> := ["Claude", "ChatGPT", "Cursor", "Copilot"]

  /** The number of automatic slots. */
  const AutoSlots: nat := 2

  const ClaudeName: string := "Claude"

  /** One title segment: provider name, percentage and a suffix mark. */
  datatype Segment = Segment(name: string, pct: int, suffix: string)

  function RowPcts(rows: seq<LimitRow>): (ps: seq<int>)
    ensures |ps| == |rows|
    ensures forall i :: 0 <= i < |rows| ==> ps[i] == rows[i].pct
  {
    seq(|rows|, i requires 0 <= i < |rows| => rows[i].pct)
  }

  /**
   * `_provider_bar_pct`: nothing for a failed fetch; the highest row when
   * the provider reported rows; otherwise its spend percentage, if any.
   */
  function BarPct(pd: ProviderData): (r: Option<int>)
    ensures HasError(pd) ==> r.None?
    ensures !HasError(pd) && pd.rows == [] ==> r == pd.pct
    ensures !HasError(pd) && pd.rows != [] ==>
      && r.Some?
      && (forall i :: 0 <= i < |pd.rows| ==> pd.rows[i].pct <= r.value)
      && (exists i :: 0 <= i < |pd.rows| && pd.rows[i].pct == r.value)
  {
    if HasError(pd) then None
    else if pd.rows != [] then Some(MaxOf(RowPcts(pd.rows)))
    else pd.pct
  }

  // ---- the Claude segment ---------------------------------------------------------

  /** `data.session or data.weekly_all or data.weekly_sonnet` */
  function Primary(data: UsageData): Option<LimitRow>
  {
    if data.session.Some? then data.session
    else if data.weeklyAll.Some? then data.weeklyAll
    else data.weeklySonnet
  }

  /** Some weekly limit is at or above the critical level. */
  predicate WeeklyMaxed(data: UsageData)
  {
    || (data.weeklyAll.Some? && data.weeklyAll.value.pct >= Display.CritThreshold)
    || (data.weeklySonnet.Some? && data.weeklySonnet.value.pct >= Display.CritThreshold)
  }

  /**
   * The Claude segment shows the first limit present (session, then weekly,
   * then weekly Sonnet), marked ` ·` when it is the session limit, the
   * session is under the critical level and a weekly limit is not.
   */
  function ClaudeSegment(data: UsageData): (r: Option<Segment>)
    ensures r.None? <==> data.session.None? && data.weeklyAll.None? && data.weeklySonnet.None?
    ensures data.session.Some? ==> r.value.pct == data.session.value.pct
    ensures data.session.None? && data.weeklyAll.Some? ==> r.value.pct == data.weeklyAll.value.pct
    ensures data.session.None? && data.weeklyAll.None? && data.weeklySonnet.Some? ==>
      r.value.pct == data.weeklySonnet.value.pct
    ensures r.Some? ==> r.value.name == ClaudeName
    ensures r.Some? ==> (r.value.suffix != "" <==>
      data.session.Some? && data.session.value.pct < Display.CritThreshold && WeeklyMaxed(data))
  {
    match Primary(data)
    case None => None
    case Some(p) =>
      var extra := if WeeklyMaxed(data) && data.session.Some? && p.pct < Display.CritThreshold
        then " ·" else "";
      Some(Segment(ClaudeName, p.pct, extra))
  }

  // ---- the available segments ------------------------------------------------------

  /**
   * The `available` dict of `_apply` after its first `n` providers: the
   * Claude segment, then every provider with a bar percentage, a later
   * record of the same name replacing an earlier one.
   */
  function AvailableFrom(claude: Segment, pds: seq<ProviderData>, n: nat): map<string, Segment>
    requires n <= |pds|
  {
    if n == 0 then map[claude.name := claude]
    else
      var m := AvailableFrom(claude, pds, n - 1);
      match BarPct(pds[n - 1])
      case None => m
      case Some(p) => m[pds[n - 1].name := Segment(pds[n - 1].name, p, "")]
  }

  /** The names of the first `n` providers that have a bar percentage. */
  function ReportingNames(pds: seq<ProviderData>, n: nat): set<string>
    requires n <= |pds|
  {
    set i | 0 <= i < n && BarPct(pds[i]).Some? :: pds[i].name
  }

  /** The available names are Claude's and those of the reporting providers. */
  lemma {:induction false} AvailableKeys(claude: Segment, pds: seq<ProviderData>, n: nat)
    requires n <= |pds|
    ensures AvailableFrom(claude, pds, n).Keys == {claude.name} + ReportingNames(pds, n)
  {
    if n > 0 {
      AvailableKeys(claude, pds, n - 1);
      assert ReportingNames(pds, n) ==
        ReportingNames(pds, n - 1) + (if BarPct(pds[n - 1]).Some? then {pds[n - 1].name} else {});
    }
  }

  /**
   * Every available segment carries its own name, and is either the Claude
   * segment or the bar percentage of a provider of that name.
   */
  lemma {:induction false} AvailableValues(claude: Segment, pds: seq<ProviderData>, n: nat, k: string)
    requires n <= |pds|
    requires k in AvailableFrom(claude, pds, n)
    ensures AvailableFrom(claude, pds, n)[k].name == k
    ensures var s := AvailableFrom(claude, pds, n)[k];
      || s == claude
      || (s.suffix == "" && exists i :: 0 <= i < n && pds[i].name == k && BarPct(pds[i]) == Some(s.pct))
  {
    if n > 0 {
      var m := AvailableFrom(claude, pds, n - 1);
      if BarPct(pds[n - 1]).Some? && pds[n - 1].name == k {
      } else {
        AvailableValues(claude, pds, n - 1, k);
      }
    }
  }

  // ---- choosing the segments ----------------------------------------------------

  /** The first `n` names that are in `avail`, in their order. */
  function Picked(names: seq<string>, avail: set<string>, n: nat): (r: seq<string>)
    requires n <= |names|
    ensures |r| <= n
    ensures forall i :: 0 <= i < |r| ==> r[i] in avail
  {
    if n == 0 then []
    else if names[n - 1] in avail then Picked(names, avail, n - 1) + [names[n - 1]]
    else Picked(names, avail, n - 1)
  }

  /** `Picked` keeps exactly the listed names that are available. */
  lemma {:induction false} PickedMembers(names: seq<string>, avail: set<string>, n: nat, x: string)
    requires n <= |names|
    ensures x in Picked(names, avail, n) <==> x in avail && exists i :: 0 <= i < n && names[i] == x
  {
    if n > 0 {
      PickedMembers(names, avail, n - 1, x);
    }
  }

  /** `[available[n] for n in names if n in available]` */
  function Pick(names: seq<string>, avail: map<string, Segment>): (r: seq<Segment>)
  {
    var ns := Picked(names, avail.Keys, |names|);
    seq(|ns|, i requires 0 <= i < |ns| => avail[ns[i]])
  }

  /** Python's `s[:n]`. */
  function Take<T>(s: seq<T>, n: nat): (r: seq<T>)
    ensures |r| == if |s| <= n then |s| else n
    ensures forall i :: 0 <= i < |r| ==> r[i] == s[i]
  {
    if |s| <= n then s else s[..n]
  }

  /** The names the automatic choice shows when `avail` have data. */
  function AutoNames(avail: set<string>): seq<string>
  {
    Take(Picked(BarPriority, avail, |BarPriority|), AutoSlots)
  }

  /** The priority list filtered by availability, written out. */
  lemma PickedPriority(avail: set<string>)
    ensures Picked(BarPriority, avail, |BarPriority|) ==
      (if "Claude" in avail then ["Claude"] else [])
      + (if "ChatGPT" in avail then ["ChatGPT"] else [])
      + (if "Cursor" in avail then ["Cursor"] else [])
      + (if "Copilot" in avail then ["Copilot"] else [])
  {
    assert BarPriority[0] == "Claude" && BarPriority[1] == "ChatGPT";
    assert BarPriority[2] == "Cursor" && BarPriority[3] == "Copilot";
    var p1 := if "Claude" in avail then ["Claude"] else [];
    var p2 := p1 + if "ChatGPT" in avail then ["ChatGPT"] else [];
    var p3 := p2 + if "Cursor" in avail then ["Cursor"] else [];
    assert Picked(BarPriority, avail, 1) == p1;
    assert Picked(BarPriority, avail, 2) == p2;
    assert Picked(BarPriority, avail, 3) == p3;
  }

  /**
   * What the automatic choice promises of the names `r` it shows: at most
   * two names, all available and in the priority list, in priority order;
   * no available name of higher priority than a shown one is left out;
   * fewer than two only when fewer than two are available.
   */
  predicate ByPriority(avail: set<string>, r: seq<string>)
  {
    && |r| <= AutoSlots
    && (forall i :: 0 <= i < |r| ==> r[i] in avail && r[i] in BarPriority)
    && (forall i, j :: 0 <= i < j < |r| ==> Rank(r[i]) < Rank(r[j]))
    && (forall i, j :: 0 <= i < j < |BarPriority| && BarPriority[i] in avail && BarPriority[j] in r ==>
          BarPriority[i] in r)
    && (|r| < AutoSlots ==> forall x :: x in BarPriority && x in avail ==> x in r)
  }

  /** Each name of the priority list has its position as rank. */
  lemma RankOfPosition(k: nat)
    requires k < |BarPriority|
    ensures Rank(BarPriority[k]) == k
  {
  }

  /**
   * Filtering the first `n` names of the priority list keeps them in
   * priority order, all ranked below `n`.
   */
  lemma {:induction false} PickedRanked(avail: set<string>, n: nat)
    requires n <= |BarPriority|
    ensures forall i :: 0 <= i < |Picked(BarPriority, avail, n)| ==> Rank(Picked(BarPriority, avail, n)[i]) < n
    ensures forall i, j :: 0 <= i < j < |Picked(BarPriority, avail, n)| ==>
      Rank(Picked(BarPriority, avail, n)[i]) < Rank(Picked(BarPriority, avail, n)[j])
  {
    if n > 0 {
      var prev := Picked(BarPriority, avail, n - 1);
      var p := Picked(BarPriority, avail, n);
      PickedRanked(avail, n - 1);
      RankOfPosition(n - 1);
      if BarPriority[n - 1] in avail {
        assert p == prev + [BarPriority[n - 1]];
        forall i | 0 <= i < |p| ensures Rank(p[i]) < n {
          if i < |prev| { assert p[i] == prev[i]; }
        }
        forall i, j | 0 <= i < j < |p| ensures Rank(p[i]) < Rank(p[j]) {
          assert p[i] == prev[i];
          if j < |prev| { assert p[j] == prev[j]; }
        }
      } else {
        assert p == prev;
      }
    }
  }

  /** The automatic choice shows the available names by priority. */
  lemma AutoNamesMeaning(avail: set<string>)
    ensures ByPriority(avail, AutoNames(avail))
  {
    var p := Picked(BarPriority, avail, |BarPriority|);
    var r := AutoNames(avail);
    PickedRanked(avail, |BarPriority|);
    forall i | 0 <= i < |r|
      ensures r[i] in avail && r[i] in BarPriority
    {
      PickedMembers(BarPriority, avail, |BarPriority|, r[i]);
    }
    forall i, j | 0 <= i < j < |BarPriority| && BarPriority[i] in avail && BarPriority[j] in r
      ensures BarPriority[i] in r
    {
      var x, y := BarPriority[i], BarPriority[j];
      PickedMembers(BarPriority, avail, |BarPriority|, x);
      RankOfPosition(i);
      RankOfPosition(j);
      var q :| 0 <= q < |r| && r[q] == y;
      var s :| 0 <= s < |p| && p[s] == x;
      assert s < q;
      assert x == r[s];
    }
    if |r| < AutoSlots {
      forall x | x in BarPriority && x in avail
        ensures x in r
      {
        PickedMembers(BarPriority, avail, |BarPriority|, x);
      }
    }
  }

  /** The position of a name in the priority list. */
  function Rank(name: string): nat
  {
    if name == "Claude" then 0
    else if name == "ChatGPT" then 1
    else if name == "Cursor" then 2
    else 3
  }

  /**
   * The segments of the title, or nothing when no Claude limit is present
   * (the title is then the bare diamond): the pinned providers in the
   * pinned order, else the first two available by priority.
   */
  function BarSegments(cfg: Config, data: UsageData, pds: seq<ProviderData>): Option<seq<Segment>>
  {
    match ClaudeSegment(data)
    case None => None
    case Some(claude) =>
      var avail := AvailableFrom(claude, pds, |pds|);
      if cfg.barProviders != [] then Some(Pick(cfg.barProviders, avail))
      else Some(Take(Pick(BarPriority, avail), AutoSlots))
  }

  function Names(segs: seq<Segment>): (ns: seq<string>)
    ensures |ns| == |segs|
    ensures forall i :: 0 <= i < |segs| ==> ns[i] == segs[i].name
  {
    seq(|segs|, i requires 0 <= i < |segs| => segs[i].name)
  }

  /**
   * The title shows a segment for a pinned name exactly when that provider
   * has data, in the pinned order; unpinned, it shows the automatic choice
   * among Claude and the providers that have data.
   */
  lemma BarSegmentsMeaning(cfg: Config, data: UsageData, pds: seq<ProviderData>)
    requires ClaudeSegment(data).Some?
    ensures var names := Names(BarSegments(cfg, data, pds).value);
      var avail := {ClaudeName} + ReportingNames(pds, |pds|);
      && (cfg.barProviders != [] ==> names == Picked(cfg.barProviders, avail, |cfg.barProviders|))
      && (cfg.barProviders == [] ==> names == AutoNames(avail))
  {
    var claude := ClaudeSegment(data).value;
    var avail := AvailableFrom(claude, pds, |pds|);
    AvailableKeys(claude, pds, |pds|);
    forall k | k in avail
      ensures avail[k].name == k
    {
      AvailableValues(claude, pds, |pds|, k);
    }
  }

  // ---- pinning and unpinning ------------------------------------------------------

  /** No name occurs twice. */
  predicate NoDup(s: seq<string>)
  {
    forall i, j :: 0 <= i < j < |s| ==> s[i] != s[j]
  }

  /** The first index of `x` in `s`. */
  function IndexOf(s: seq<string>, x: string, from: nat): (i: nat)
    requires from <= |s|
    requires exists j :: from <= j < |s| && s[j] == x
    ensures from <= i < |s| && s[i] == x
    ensures forall j :: from <= j < i ==> s[j] != x
    decreases |s| - from
  {
    if s[from] == x then from else IndexOf(s, x, from + 1)
  }

  /** `chosen.remove(name)`: drops the first occurrence. */
  function RemoveFirst(s: seq<string>, x: string): (r: seq<string>)
    requires x in s
    ensures |r| == |s| - 1
  {
    var i := IndexOf(s, x, 0);
    s[..i] + s[i + 1..]
  }

  /** Removing the first `x` shifts every later element down by one. */
  lemma RemoveFirstAt(s: seq<string>, x: string, j: int)
    requires x in s
    requires 0 <= j < |s| - 1
    ensures RemoveFirst(s, x)[j] == if j < IndexOf(s, x, 0) then s[j] else s[j + 1]
  {
  }

  /** The names a provider click turns the current choice into (empty: automatic). */
  function Toggled(chosen: seq<string>, name: string): seq<string>
  {
    if name in chosen then RemoveFirst(chosen, name) else chosen + [name]
  }

  /**
   * On a list without repeats, a click flips the clicked name and keeps
   * every other name as it was, and the list stays without repeats.
   */
  lemma ToggledMembers(chosen: seq<string>, name: string, x: string)
    requires NoDup(chosen)
    ensures NoDup(Toggled(chosen, name))
    ensures x in Toggled(chosen, name) <==> if x == name then name !in chosen else x in chosen
  {
    if name in chosen {
      var i := IndexOf(chosen, name, 0);
      var r := RemoveFirst(chosen, name);
      forall j | 0 <= j < |r|
        ensures r[j] == if j < i then chosen[j] else chosen[j + 1]
      {
        RemoveFirstAt(chosen, name, j);
      }
      if x in chosen && x != name {
        var j :| 0 <= j < |chosen| && chosen[j] == x;
        assert r[if j < i then j else j - 1] == x;
      }
    } else {
      var r := chosen + [name];
      assert forall j :: 0 <= j < |chosen| ==> r[j] == chosen[j];
    }
  }

  /** Clicking the same provider twice restores the set of chosen names. */
  lemma ToggledTwice(chosen: seq<string>, name: string, x: string)
    requires NoDup(chosen)
    ensures x in Toggled(Toggled(chosen, name), name) <==> x in chosen
  {
    ToggledMembers(chosen, name, x);
    ToggledMembers(Toggled(chosen, name), name, x);
  }

  /** A click empties the choice, going back to automatic, only when it unpins the last name. */
  lemma ToggledEmpty(chosen: seq<string>, name: string)
    ensures Toggled(chosen, name) == [] <==> chosen == [name]
  {
    if chosen == [name] {
      assert chosen[0] == name;
      assert IndexOf(chosen, name, 0) == 0;
    }
  }

  /** The names `_do_bar_toggle` treats as having data when it seeds a choice. */
  function SeedNames(hasData: bool, pds: seq<ProviderData>): set<string>
  {
    (if hasData then {ClaudeName} else {}) + ReportingNames(pds, |pds|)
  }

  /**
   * The list a click edits: the pinned list, or, when nothing is pinned,
   * the automatic choice among the providers that have data.
   */
  function ToggleBase(cfg: Config, hasData: bool, pds: seq<ProviderData>): seq<string>
  {
    if cfg.barProviders != [] then cfg.barProviders else AutoNames(SeedNames(hasData, pds))
  }

  /**
   * The first click after automatic mode starts from exactly the providers
   * the title was showing.
   */
  lemma SeedIsShownChoice(cfg: Config, data: UsageData, pds: seq<ProviderData>)
    requires cfg.barProviders == []
    requires ClaudeSegment(data).Some?
    ensures ToggleBase(cfg, true, pds) == Names(BarSegments(cfg, data, pds).value)
  {
    BarSegmentsMeaning(cfg, data, pds);
  }

  /**
   * With data that holds no Claude limit row the title shows no segments,
   * yet the first click still seeds the list with Claude.
   */
  lemma SeedWithoutClaudeRows(cfg: Config, data: UsageData, pds: seq<ProviderData>)
    requires cfg.barProviders == []
    requires ClaudeSegment(data).None?
    ensures BarSegments(cfg, data, pds).None?
    ensures ClaudeName in ToggleBase(cfg, true, pds)
  {
    var avail := SeedNames(true, pds);
    var r := AutoNames(avail);
    AutoNamesMeaning(avail);
    assert BarPriority[0] == ClaudeName && ClaudeName in avail;
    if |r| > 0 {
      var j :| 0 <= j < |BarPriority| && BarPriority[j] == r[0];
      assert BarPriority[j] in r;
    }
  }
}
