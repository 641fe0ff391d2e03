/**
 * Pure text helpers of the menu: the time-to-limit label, the two
 * sparklines drawn from block characters and the traffic-light icon.
 */
module Display {
  import opened Wrappers
  import opened Stats
  import opened Text
  import UsageHistory
  import SampleStore

  /** A limit at or above this percentage is "warning" (yellow). */
  const WarnThreshold: int := 80
  /** A limit at or above this percentage is "critical" (red). */
  const CritThreshold: int := 95

  // ---- decimal text -----------------------------------------------------------

  predicate IsDigit(c: char)
  {
    '0' <= c <= '9'
  }

  function DigitChar(d: int): (c: char)
    requires 0 <= d < 10
    ensures IsDigit(c)
  {
    (('0' as int) + d) as char
  }

  /** The decimal digits of `n`, most significant first, without leading zeros. */
  function Digits(n: nat): (s: string)
    ensures s != []
    ensures forall i :: 0 <= i < |s| ==> IsDigit(s[i])
  {
    if n < 10 then [DigitChar(n)] else Digits(n / 10) + [DigitChar(n % 10)]
  }

  function DigitValue(c: char): (d: int)
    requires IsDigit(c)
    ensures 0 <= d < 10
  {
    c as int - '0' as int
  }

  /** The value of a string of decimal digits (the empty string reads as 0). */
  function DigitsValue(s: string): nat
    requires forall i :: 0 <= i < |s| ==> IsDigit(s[i])
  {
    if s == [] then 0
    else DigitsValue(s[..|s| - 1]) * 10 + DigitValue(s[|s| - 1])
  }

  /** Reading back the digits of `n` gives `n`. */
  lemma {:induction false} DigitsRoundTrip(n: nat)
    ensures DigitsValue(Digits(n)) == n
  {
    if n >= 10 {
      var s := Digits(n);
      DigitsRoundTrip(n / 10);
      assert s[..|s| - 1] == Digits(n / 10);
    }
  }

  /** Python's `str` of an integer. */
  function IntText(i: int): string
  {
    if i < 0 then "-" + Digits(-i) else Digits(i)
  }

  // ---- the time-to-limit label --------------------------------------------------

  /**
   * `_fmt_eta`: under an hour `"<m> min"`, otherwise `"<h>h <m> min"` with
   * `h, m = divmod(minutes, 60)`.
   */
  function FmtEta(minutes: int): string
  {
    if minutes < 60 then IntText(minutes) + " min"
    else IntText(minutes / 60) + "h " + IntText(minutes % 60) + " min"
  }

  predicate AllDigits(s: string)
  {
    s != [] && forall i :: 0 <= i < |s| ==> IsDigit(s[i])
  }

  /**
   * Reads a label in the two shapes `FmtEta` writes for a non-negative
   * number of minutes, back into that number of minutes.
   */
  function ParseEta(s: string): Option<int>
  {
    if |s| < 4 || s[|s| - 4..] != " min" then None
    else
      var body := s[..|s| - 4];
      match FindChar(body, 'h')
      case None => ParseMinutes(body)
      case Some(i) => ParseHours(body[..i], body[i + 1..])
  }

  /** The minutes form: digits only. */
  function ParseMinutes(body: string): Option<int>
  {
    if AllDigits(body) then Some(DigitsValue(body)) else None
  }

  /** The hour form, split at its `h`: digits before it, a space and digits after it. */
  function ParseHours(hours: string, rest: string): Option<int>
  {
    if |rest| >= 1 && rest[0] == ' ' && AllDigits(hours) && AllDigits(rest[1..])
    then Some(DigitsValue(hours) * 60 + DigitsValue(rest[1..]))
    else None
  }

  /** Digits are never the letter `'h'`. */
  lemma NoHourMark(ds: string)
    requires forall i :: 0 <= i < |ds| ==> IsDigit(ds[i])
    ensures 'h' !in ds
  {
  }

  /** Labels under an hour read back as their minutes. */
  lemma FmtEtaRoundTripMinutes(minutes: int)
    requires 0 <= minutes < 60
    ensures ParseEta(FmtEta(minutes)) == Some(minutes)
  {
    var s := FmtEta(minutes);
    var body := Digits(minutes);
    assert s == body + " min";
    assert s[..|s| - 4] == body;
    assert s[|s| - 4..] == " min";
    NoHourMark(body);
    DigitsRoundTrip(minutes);
  }

  /** A label is its body followed by `" min"`, read by the form the first `h` selects. */
  lemma ParseEtaBody(body: string)
    ensures ParseEta(body + " min") ==
      match FindChar(body, 'h')
      case None => ParseMinutes(body)
      case Some(i) => ParseHours(body[..i], body[i + 1..])
  {
    var s := body + " min";
    assert s[..|s| - 4] == body && s[|s| - 4..] == " min";
  }

  /** In `"<h>h <m>"` the first `h` is the one after the hour digits. */
  lemma HourMarkAfterDigits(hs: string, ms: string)
    requires AllDigits(hs)
    ensures FindChar(hs + ("h " + ms), 'h') == Some(|hs|)
  {
    NoHourMark(hs);
    FindAfter(hs, "h " + ms, 'h');
    assert FindChar("h " + ms, 'h') == Some(0);
  }

  /** Cutting `"<h>h <m>"` at its `h` gives the hour digits and `" <m>"`. */
  lemma CutAtHourMark(hs: string, ms: string)
    ensures (hs + ("h " + ms))[..|hs|] == hs
    ensures (hs + ("h " + ms))[|hs| + 1..] == " " + ms
    ensures hs + "h " + ms + " min" == hs + ("h " + ms) + " min"
  {
  }

  /** The hour digits and `" <m>"` read as `h * 60 + m`. */
  lemma ParseHoursOf(hs: string, ms: string)
    requires AllDigits(hs) && AllDigits(ms)
    ensures ParseHours(hs, " " + ms) == Some(DigitsValue(hs) * 60 + DigitsValue(ms))
  {
    assert (" " + ms)[1..] == ms;
  }

  /** The hour form `"<h>h <m> min"` reads back as `h * 60 + m`. */
  lemma ParseHourForm(hs: string, ms: string)
    requires AllDigits(hs) && AllDigits(ms)
    ensures ParseEta(hs + "h " + ms + " min") == Some(DigitsValue(hs) * 60 + DigitsValue(ms))
  {
    CutAtHourMark(hs, ms);
    ParseEtaBody(hs + ("h " + ms));
    HourMarkAfterDigits(hs, ms);
    ParseHoursOf(hs, ms);
  }

  /** Labels of an hour or more read back as `h * 60 + m`, which is their minutes. */
  lemma FmtEtaRoundTripHours(minutes: int)
    requires minutes >= 60
    ensures ParseEta(FmtEta(minutes)) == Some(minutes)
  {
    var hs := Digits(minutes / 60);
    var ms := Digits(minutes % 60);
    assert FmtEta(minutes) == hs + "h " + ms + " min";
    ParseHourForm(hs, ms);
    DigitsRoundTrip(minutes / 60);
    DigitsRoundTrip(minutes % 60);
  }

  /**
   * Every label `FmtEta` writes for a non-negative number of minutes names
   * that number of minutes.
   */
  lemma FmtEtaRoundTrip(minutes: int)
    requires minutes >= 0
    ensures ParseEta(FmtEta(minutes)) == Some(minutes)
  {
    if minutes < 60 {
      FmtEtaRoundTripMinutes(minutes);
    } else {
      FmtEtaRoundTripHours(minutes);
    }
  }

  /** Labels under an hour carry no hour part; longer ones always do. */
  lemma FmtEtaHourPart(minutes: int)
    requires minutes >= 0
    ensures minutes < 60 <==> FindChar(FmtEta(minutes), 'h').None?
  {
    var s := FmtEta(minutes);
    if minutes < 60 {
      var body := Digits(minutes);
      assert s == body + " min";
      assert forall i :: 0 <= i < |s| ==> s[i] != 'h' by {
        forall i | 0 <= i < |s| ensures s[i] != 'h' {
          if i < |body| {
            assert s[i] == body[i];
          }
        }
      }
    } else {
      var hs := Digits(minutes / 60);
      assert s[|hs|] == 'h';
    }
  }

  // ---- sparklines ----------------------------------------------------------------

  /** The eight block characters U+2581 to U+2588, lowest to highest. */
  const Blocks: string := ['\U{2581}', '\U{2582}', '\U{2583}', '\U{2584}', '\U{2585}', '\U{2586}', '\U{2587}', '\U{2588}']

  /** Python's `s[-n:]`; note that `n == 0` keeps the whole sequence. */
  function LastN<T>(s: seq<T>, n: nat): (r: seq<T>)
    ensures n == 0 || n >= |s| ==> r == s
    ensures 0 < n < |s| ==> |r| == n
    ensures r == s[|s| - |r|..]
  {
    if n == 0 || n >= |s| then s else s[|s| - n..]
  }

  /**
   * The block a point gets: `min(7, int((p - lo) / span * 7))`, computed in
   * integers as `(p - lo) * 7 / span`. For points between `lo` and
   * `lo + span` this is the `span / 7`-wide band the point falls in.
   */
  function Level(p: int, lo: int, span: int): (l: int)
    requires span > 0
    ensures 0 <= p - lo <= span ==> 0 <= l <= 7
    ensures p == lo ==> l == 0
    ensures p - lo == span ==> l == 7
  {
    var q := (p - lo) * 7 / span;
    if q < 7 then q else 7
  }

  /**
   * Below the top, a point's block is the band of width `span / 7` it falls
   * in: `l * span <= (p - lo) * 7 < (l + 1) * span`.
   */
  lemma LevelBand(p: int, lo: int, span: int)
    requires span > 0 && 0 <= p - lo < span
    ensures var l := Level(p, lo, span);
      l * span <= (p - lo) * 7 < (l + 1) * span
  {
    var x := (p - lo) * 7;
    assert x == (x / span) * span + x % span;
    MulMonotone(x / span + 1, 7, span);
  }

  lemma MulMonotone(x: int, y: int, c: int)
    requires x <= y && c >= 0
    ensures x * c <= y * c
  {
    assert y * c - x * c == (y - x) * c;
  }

  /** A higher point never gets a lower block. */
  lemma LevelMonotone(p: int, q: int, lo: int, span: int)
    requires span > 0 && lo <= p <= q <= lo + span
    ensures Level(p, lo, span) <= Level(q, lo, span)
  {
    var lp, lq := Level(p, lo, span), Level(q, lo, span);
    if lp > lq && q - lo < span {
      LevelBand(p, lo, span);
      LevelBand(q, lo, span);
      MulMonotone(lq + 1, lp, span);
    }
  }

  /**
   * The blocks for some points, or `""` when they vary by less than 2
   * (a flat line is not drawn).
   */
  function SparkBlocks(pts: seq<int>): (r: string)
    requires pts != []
    ensures r == [] <==> MaxOf(pts) - MinOf(pts) < 2
    ensures r != [] ==> |r| == |pts| && forall i :: 0 <= i < |pts| ==>
      r[i] == Blocks[Level(pts[i], MinOf(pts), MaxOf(pts) - MinOf(pts))]
  {
    var lo := MinOf(pts);
    var hi := MaxOf(pts);
    if hi - lo < 2 then ""
    else seq(|pts|, i requires 0 <= i < |pts| => Blocks[Level(pts[i], lo, hi - lo)])
  }

  /** Every character of a drawn sparkline is one of the eight blocks. */
  lemma SparkBlocksAreBlocks(pts: seq<int>, i: int)
    requires pts != [] && 0 <= i < |SparkBlocks(pts)|
    ensures SparkBlocks(pts)[i] in Blocks
  {
    var lo := MinOf(pts);
    assert lo <= pts[i] <= MaxOf(pts);
  }

  /** In a drawn sparkline a higher point never gets a lower block. */
  lemma SparkBlocksMonotone(pts: seq<int>, i: int, j: int)
    requires pts != [] && SparkBlocks(pts) != []
    requires 0 <= i < |pts| && 0 <= j < |pts| && pts[i] <= pts[j]
    ensures SparkBlocks(pts)[i] <= SparkBlocks(pts)[j]
  {
    var lo := MinOf(pts);
    var span := MaxOf(pts) - lo;
    assert lo <= pts[i] && pts[j] <= lo + span;
    LevelMonotone(pts[i], pts[j], lo, span);
    var a, b := Level(pts[i], lo, span), Level(pts[j], lo, span);
    assert 0 <= a <= b <= 7;
  }

  /** The lowest point of a drawn sparkline gets the lowest block. */
  lemma SparkBlocksLowest(pts: seq<int>, i: int)
    requires pts != [] && SparkBlocks(pts) != [] && 0 <= i < |pts| && pts[i] == MinOf(pts)
    ensures SparkBlocks(pts)[i] == Blocks[0]
  {
    var lo := MinOf(pts);
    var span := MaxOf(pts) - lo;
  }

  /** The highest point of a drawn sparkline gets the full block. */
  lemma SparkBlocksHighest(pts: seq<int>, i: int)
    requires pts != [] && SparkBlocks(pts) != [] && 0 <= i < |pts| && pts[i] == MaxOf(pts)
    ensures SparkBlocks(pts)[i] == Blocks[7]
  {
  }

  /** The percentages of some history entries, in order. */
  function EntryPcts(es: seq<UsageHistory.Entry>): (ps: seq<int>)
    ensures |ps| == |es|
    ensures forall i :: 0 <= i < |es| ==> ps[i] == es[i].pct
  {
    seq(|es|, i requires 0 <= i < |es| => es[i].pct)
  }

  /** The peak percentages of some daily rows, in order. */
  function PeakPcts(rows: seq<(SampleStore.Date, SampleStore.DailyStat)>): (ps: seq<int>)
    ensures |ps| == |rows|
    ensures forall i :: 0 <= i < |rows| ==> ps[i] == rows[i].1.peakPct
  {
    seq(|rows|, i requires 0 <= i < |rows| => rows[i].1.peakPct)
  }

  /**
   * `_sparkline`: the last `width` pcts of one key's short-term history as
   * blocks; `""` for fewer than 3 entries or a flat series.
   */
  function Sparkline(history: map<string, seq<UsageHistory.Entry>>, key: string, width: nat): (r: string)
    ensures |UsageHistory.Lookup(history, key)| < 3 ==> r == []
    ensures |UsageHistory.Lookup(history, key)| >= 3 ==>
      LastN(UsageHistory.Lookup(history, key), width) != [] &&
      r == SparkBlocks(EntryPcts(LastN(UsageHistory.Lookup(history, key), width)))
    ensures r != [] ==> |r| == |LastN(UsageHistory.Lookup(history, key), width)|
  {
    var es := UsageHistory.Lookup(history, key);
    if |es| < 3 then ""
    else SparkBlocks(EntryPcts(LastN(es, width)))
  }

  /**
   * `_weekly_sparkline`: the last `width` daily peaks as blocks; `""` for
   * fewer than 2 days or a flat series.
   */
  function WeeklySparkline(rows: seq<(SampleStore.Date, SampleStore.DailyStat)>, width: nat): (r: string)
    ensures |rows| < 2 ==> r == []
    ensures |rows| >= 2 ==> LastN(rows, width) != [] && r == SparkBlocks(PeakPcts(LastN(rows, width)))
    ensures r != [] ==> |r| == |LastN(rows, width)|
  {
    if |rows| < 2 then ""
    else SparkBlocks(PeakPcts(LastN(rows, width)))
  }

  /**
   * A sparkline of at least 3 entries is empty exactly when its window is
   * flat, and otherwise draws the window's lowest pct as the lowest block
   * and its highest as the full block.
   */
  lemma SparklineDrawn(history: map<string, seq<UsageHistory.Entry>>, key: string, width: nat)
    requires |UsageHistory.Lookup(history, key)| >= 3
    ensures var ps := EntryPcts(LastN(UsageHistory.Lookup(history, key), width));
      var r := Sparkline(history, key, width);
      && ps != []
      && (r == [] <==> MaxOf(ps) - MinOf(ps) < 2)
      && (r != [] ==> forall i :: 0 <= i < |ps| ==>
            r[i] in Blocks
            && (ps[i] == MinOf(ps) ==> r[i] == Blocks[0])
            && (ps[i] == MaxOf(ps) ==> r[i] == Blocks[7]))
  {
    var ps := EntryPcts(LastN(UsageHistory.Lookup(history, key), width));
    var r := Sparkline(history, key, width);
    if r != [] {
      forall i | 0 <= i < |ps|
        ensures r[i] in Blocks
        ensures ps[i] == MinOf(ps) ==> r[i] == Blocks[0]
        ensures ps[i] == MaxOf(ps) ==> r[i] == Blocks[7]
      {
        SparkBlocksAreBlocks(ps, i);
        if ps[i] == MinOf(ps) { SparkBlocksLowest(ps, i); }
        if ps[i] == MaxOf(ps) { SparkBlocksHighest(ps, i); }
      }
    }
  }

  // ---- the status icon -------------------------------------------------------------

  datatype Icon = Red | Yellow | Green

  /** `_status_icon`: red from 95%, yellow from 80%, green below. */
  function StatusIcon(pct: int): (icon: Icon)
    ensures icon == Red <==> pct >= CritThreshold
    ensures icon == Yellow <==> WarnThreshold <= pct < CritThreshold
    ensures icon == Green <==> pct < WarnThreshold
  {
    if pct >= CritThreshold then Red
    else if pct >= WarnThreshold then Yellow
    else Green
  }

}
