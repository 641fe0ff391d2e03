/**
 * The short-term usage history: per quota key, a time-ordered list of
 * `{t, pct}` snapshots kept for 24 hours, with reset detection; the window
 * and sufficiency guards in front of the burn-rate regression; and the
 * estimated minutes until a key reaches 100%.
 *
 * Time is whole seconds since the Unix epoch and is always passed in (`now`);
 * the regression itself is not modelled, so the burn rate reaches the ETA
 * as an abstract `Option<real>` in percent per minute.
 */
module UsageHistory {
  import opened Wrappers

  /** Entries older than this many seconds are pruned on every append (24 h). */
  const HistoryMaxAge: int := 24 * 3600
  /** A drop of at least this many points from the last snapshot is a reset. */
  const ResetDropPct: int := 30
  /** The regression looks at the last 30 minutes. */
  const BurnWindowSecs: int := 30 * 60
  /** The in-window entries must span at least 5 minutes. */
  const MinSpanSecs: int := 5 * 60
  /** An ETA beyond 10 hours is not reported. */
  const EtaHorizonMinutes: int := 600

  /** One snapshot: when it was taken and the percentage of the limit used. */
  datatype Entry = Entry(t: int, pct: int)

  /** `history.get(key, [])` */
  function Lookup(history: map<string, seq<Entry>>, key: string): seq<Entry>
  {
    if key in history then history[key] else []
  }

  /** Entries are in non-decreasing time order. */
  ghost predicate Chronological(es: seq<Entry>)
  {
    forall i, j :: 0 <= i < j < |es| ==> es[i].t <= es[j].t
  }

  /**
   * The entries stamped at or after `cutoff`, in their original order:
   * the comprehension `[e for e in entries if e["t"] >= cutoff]`.
   */
  function KeepSince(es: seq<Entry>, cutoff: int): (r: seq<Entry>)
    ensures |r| <= |es|
  {
    if es == [] then []
    else KeepSince(es[..|es| - 1], cutoff) + (if es[|es| - 1].t >= cutoff then [es[|es| - 1]] else [])
  }

  /** Exactly the entries at or after the cutoff survive. */
  lemma {:induction false} KeepSinceMembers(es: seq<Entry>, cutoff: int)
    ensures forall e :: e in KeepSince(es, cutoff) <==> e in es && e.t >= cutoff
  {
    if es != [] {
      var init := es[..|es| - 1];
      KeepSinceMembers(init, cutoff);
      assert es == init + [es[|es| - 1]];
    }
  }

  /** Filtering distributes over concatenation, so relative order is kept. */
  lemma {:induction false} KeepSinceConcat(a: seq<Entry>, b: seq<Entry>, cutoff: int)
    ensures KeepSince(a + b, cutoff) == KeepSince(a, cutoff) + KeepSince(b, cutoff)
    decreases |b|
  {
    if b == [] {
      assert a + b == a;
    } else {
      var b' := b[..|b| - 1];
      assert (a + b)[..|a + b| - 1] == a + b';
      KeepSinceConcat(a, b', cutoff);
    }
  }

  /** Filtering with the same cutoff twice changes nothing the second time. */
  lemma {:induction false} KeepSinceIdempotent(es: seq<Entry>, cutoff: int)
    ensures KeepSince(KeepSince(es, cutoff), cutoff) == KeepSince(es, cutoff)
  {
    if es != [] {
      var init := es[..|es| - 1];
      KeepSinceIdempotent(init, cutoff);
      var last := es[|es| - 1];
      KeepSinceConcat(KeepSince(init, cutoff), if last.t >= cutoff then [last] else [], cutoff);
      assert KeepSince([last], cutoff) == (if last.t >= cutoff then [last] else []) by {
        assert [last][..0] == [];
      }
    }
  }

  /** When every entry is older than the cutoff, nothing survives. */
  lemma {:induction false} KeepSinceAllOld(es: seq<Entry>, cutoff: int)
    requires forall i :: 0 <= i < |es| ==> es[i].t < cutoff
    ensures KeepSince(es, cutoff) == []
  {
    if es != [] {
      KeepSinceAllOld(es[..|es| - 1], cutoff);
    }
  }

  /**
   * On a chronological list, pruning by time drops a prefix: what remains is
   * the suffix from index `k` on.
   */
  lemma {:induction false} KeepSinceOfChronological(es: seq<Entry>, cutoff: int) returns (k: nat)
    requires Chronological(es)
    ensures k <= |es| && KeepSince(es, cutoff) == es[k..]
  {
    if es == [] {
      k := 0;
    } else {
      var init := es[..|es| - 1];
      var last := es[|es| - 1];
      assert Chronological(init);
      if last.t >= cutoff {
        k := KeepSinceOfChronological(init, cutoff);
        SuffixSnoc(init, last, k);
        assert es == init + [last];
      } else {
        // everything before the last entry is at least as old, so nothing survives
        assert forall i :: 0 <= i < |init| ==> init[i].t <= es[|es| - 1].t;
        KeepSinceAllOld(init, cutoff);
        k := |es|;
      }
    }
  }

  /** A suffix of a list extended by one entry is the extended suffix. */
  lemma SuffixSnoc(es: seq<Entry>, e: Entry, k: nat)
    requires k <= |es|
    ensures (es + [e])[k..] == es[k..] + [e]
  {
  }

  /** A suffix of a chronological list is chronological. */
  lemma ChronologicalSuffix(es: seq<Entry>, k: nat)
    requires Chronological(es) && k <= |es|
    ensures Chronological(es[k..])
  {
    forall i, j | 0 <= i < j < |es| - k
      ensures es[k..][i].t <= es[k..][j].t
    {
      assert es[k..][i] == es[k + i] && es[k..][j] == es[k + j];
    }
  }

  /** The reset rule: the history is non-empty and `pct` is at least 30 points below its last entry. */
  predicate IsReset(prior: seq<Entry>, pct: int)
  {
    prior != [] && prior[|prior| - 1].pct - pct >= ResetDropPct
  }

  /**
   * The list `_append_history` leaves under the key: cleared on a reset,
   * extended with the new snapshot, then pruned to the last 24 hours.
   */
  function Appended(prior: seq<Entry>, pct: int, now: int): seq<Entry>
  {
    var kept := if IsReset(prior, pct) then [] else prior;
    KeepSince(kept + [Entry(now, pct)], now - HistoryMaxAge)
  }

  /**
   * What an append promises: the list ends with the new snapshot, holds
   * nothing older than 24 hours, and is either exactly the new snapshot
   * (after a reset) or the surviving old entries, in order, followed by it.
   */
  lemma AppendedShape(prior: seq<Entry>, pct: int, now: int)
    ensures var r := Appended(prior, pct, now);
      && r != [] && r[|r| - 1] == Entry(now, pct)
      && (forall i :: 0 <= i < |r| ==> r[i].t >= now - HistoryMaxAge)
      && (IsReset(prior, pct) ==> r == [Entry(now, pct)])
      && (!IsReset(prior, pct) ==> r == KeepSince(prior, now - HistoryMaxAge) + [Entry(now, pct)])
  {
    var kept := if IsReset(prior, pct) then [] else prior;
    KeepSinceConcat(kept, [Entry(now, pct)], now - HistoryMaxAge);
    KeepSinceMembers(kept + [Entry(now, pct)], now - HistoryMaxAge);
    assert KeepSince([Entry(now, pct)], now - HistoryMaxAge) == [Entry(now, pct)] by {
      assert [Entry(now, pct)][..0] == [];
    }
  }

  /** An append at a time no earlier than the last snapshot keeps the list chronological. */
  lemma AppendedChronological(prior: seq<Entry>, pct: int, now: int)
    requires Chronological(prior)
    requires prior != [] ==> prior[|prior| - 1].t <= now
    ensures Chronological(Appended(prior, pct, now))
  {
    var kept := if IsReset(prior, pct) then [] else prior;
    var es := kept + [Entry(now, pct)];
    assert Chronological(es);
    var k := KeepSinceOfChronological(es, now - HistoryMaxAge);
    ChronologicalSuffix(es, k);
  }

  /** The filtering loop behind `KeepSince`, as both `_append_history` and `_calc_burn_rate` run it. */
  method FilterSince(es: seq<Entry>, cutoff: int) returns (kept: seq<Entry>)
    ensures kept == KeepSince(es, cutoff)
  {
    kept := [];
    var i := 0;
    while i < |es|
      invariant 0 <= i <= |es|
      invariant kept == KeepSince(es[..i], cutoff)
    {
      assert es[..i + 1][..i] == es[..i];
      if es[i].t >= cutoff {
        kept := kept + [es[i]];
      }
      i := i + 1;
    }
    assert es[..|es|] == es;
  }

  /** The in-memory `history` dict: key to its list of snapshots. */
  class HistoryStore {
    var entries: map<string, seq<Entry>>

    constructor ()
      ensures entries == map[]
    {
      entries := map[];
    }

    /**
     * `_append_history`: reset detection, append, prune. Only `key`'s list
     * changes (and `key` is added if it was missing); every other key keeps
     * its list untouched, old entries included.
     */
    method Append(key: string, pct: int, now: int)
      modifies this
      ensures entries == old(entries)[key := Appended(Lookup(old(entries), key), pct, now)]
      ensures entries.Keys == old(entries).Keys + {key}
      ensures forall k :: k in old(entries) && k != key ==> entries[k] == old(entries)[k]
    {
      var es := Lookup(entries, key);
      if es != [] && es[|es| - 1].pct - pct >= ResetDropPct {
        es := [];
      }
      es := es + [Entry(now, pct)];
      var kept := FilterSince(es, now - HistoryMaxAge);
      entries := entries[key := kept];
    }
  }

  /** `recent[-1]["t"] - recent[0]["t"]` */
  function Span(w: seq<Entry>): int
    requires w != []
  {
    w[|w| - 1].t - w[0].t
  }

  /**
   * The window the regression of `_calc_burn_rate` fits: the entries of
   * the last 30 minutes, when there are enough of them over a long enough
   * span.
   */
  function BurnWindow(es: seq<Entry>, now: int): Option<seq<Entry>>
  {
    var recent := KeepSince(es, now - BurnWindowSecs);
    if |es| < 2 || |recent| < 2 || Span(recent) < MinSpanSecs then None else Some(recent)
  }

  /**
   * The guards of `_calc_burn_rate`: the key's entries in the last 30
   * minutes, or None when the key has fewer than 2 entries, fewer than 2 of
   * them are in the window, or the in-window entries span less than 5
   * minutes. Only a `Some` window goes on to the regression.
   */
  method SelectBurnWindow(history: map<string, seq<Entry>>, key: string, now: int)
    returns (w: Option<seq<Entry>>)
    ensures w == BurnWindow(Lookup(history, key), now)
    ensures var es := Lookup(history, key);
      var recent := KeepSince(es, now - BurnWindowSecs);
      w.None? <==> (|es| < 2 || |recent| < 2 || Span(recent) < MinSpanSecs)
    ensures w.Some? ==> w.value == KeepSince(Lookup(history, key), now - BurnWindowSecs)
    ensures w.Some? ==> |w.value| >= 2 && Span(w.value) >= MinSpanSecs
  {
    var es := Lookup(history, key);
    if |es| < 2 {
      return None;
    }
    var recent := FilterSince(es, now - BurnWindowSecs);
    if |recent| < 2 {
      return None;
    }
    if recent[|recent| - 1].t - recent[0].t < MinSpanSecs {
      return None;
    }
    w := Some(recent);
  }

  /**
   * Python's `round` on a number: the nearest integer, ties to the even one.
   */
  function RoundHalfEven(x: real): (r: int)
    ensures -0.5 <= (r as real) - x <= 0.5
    ensures ((r as real) - x == 0.5 || x - (r as real) == 0.5) ==> r % 2 == 0
  {
    var f := x.Floor;
    var frac := x - f as real;
    if frac < 0.5 then f
    else if frac > 0.5 then f + 1
    else if f % 2 == 0 then f
    else f + 1
  }

  /**
   * `_calc_eta_minutes`, given the key's entries and the burn rate the
   * regression produced for them (None when it produced none). The rate is
   * checked BEFORE the remaining headroom, so a key already at 100% whose
   * usage is flat (rate 0 or None) has no ETA rather than an ETA of 0.
   */
  function EtaMinutes(es: seq<Entry>, rate: Option<real>): (r: Option<int>)
    ensures r.None? <==>
      || es == [] || rate.None? || rate.value <= 0.0
      || (es[|es| - 1].pct < 100
          && (100 - es[|es| - 1].pct) as real / rate.value > EtaHorizonMinutes as real)
    ensures r.Some? ==> 0 <= r.value <= EtaHorizonMinutes
    ensures r == Some(0) <==>
      es != [] && rate.Some? && rate.value > 0.0 && es[|es| - 1].pct >= 100
    ensures r.Some? && r.value > 0 ==>
      var eta := (100 - es[|es| - 1].pct) as real / rate.value;
      && eta - r.value as real <= 0.5
      && (r.value as real - eta <= 0.5 || r.value == 1)
  {
    if es == [] then None
    else
      var current := es[|es| - 1].pct;
      if rate.None? || rate.value <= 0.0 then None
      else
        var remaining := 100 - current;
        if remaining <= 0 then Some(0)
        else
          var eta := remaining as real / rate.value;
          if eta > EtaHorizonMinutes as real then None
          else
            var rounded := RoundHalfEven(eta);
            Some(if rounded < 1 then 1 else rounded)
  }
}
