/**
 * The integer rules of the time-series chart: which tick formats a date span
 * gets, the y-axis bounds taken from an optional text range, the left margin
 * that makes room for the y labels, which series are drawn as lines and in
 * what order, and when the crosshair follows the pointer.
 */
module ChartBase {
  import opened Wrappers
  import opened JsText
  import ArraySort

  // ---------------------------------------------------------------- tick formats

  /** The date-fns patterns of the three tick levels. */
  datatype TickFormats = TickFormats(large: string, medium: string, small: string)

  /**
   * `handleTickFormats`, given `differenceInHours(endDate, startDate)` (whole hours):
   * a span under a day shows time of day, up to two days shows days, longer spans show months.
   */
  function HandleTickFormats(hoursDifference: int): (f: TickFormats)
    ensures hoursDifference < 24 ==> f == TickFormats("HH", "mm", "ss")
    ensures 24 <= hoursDifference <= 48 ==> f == TickFormats("MMM", "dd", "HH")
    ensures hoursDifference > 48 ==> f == TickFormats("yyyy", "MM/yyyy", "dd")
  {
    if hoursDifference < 24 then TickFormats("HH", "mm", "ss")
    else if hoursDifference <= 48 then TickFormats("MMM", "dd", "HH")
    else TickFormats("yyyy", "MM/yyyy", "dd")
  }

  /** How coarse a small-tick pattern is: seconds, then hours, then days. */
  function SmallTickRank(pattern: string): nat
  {
    if pattern == "ss" then 0 else if pattern == "HH" then 1 else 2
  }

  /** A longer span never gets finer small ticks. */
  lemma TicksCoarsen(h1: int, h2: int)
    requires h1 <= h2
    ensures SmallTickRank(HandleTickFormats(h1).small) <= SmallTickRank(HandleTickFormats(h2).small)
  {
  }

  /** The band edges: 23 hours is still intraday, 24 and 48 hours are day ticks, 49 hours are month ticks. */
  lemma TickBandEdges()
    ensures HandleTickFormats(23).large == "HH"
    ensures HandleTickFormats(24).large == "MMM" && HandleTickFormats(48).large == "MMM"
    ensures HandleTickFormats(49).large == "yyyy"
  {
  }

  // ---------------------------------------------------------------- y-axis range

  /** `Number(t)` of a digits-only text: the empty text is 0, and never NaN. */
  function NumberOfDigits(t: string): (n: nat)
    requires AllDigits(t)
    ensures t == "" ==> n == 0
  {
    DigitsValue(t)
  }

  /**
   * `[minYValue, maxYValue]`: without a range, 0 and the default; with one, the
   * digits of each bound read as a number, a zero or empty start becoming 0.
   */
  function YAxisBounds(yAxisRange: Option<(string, string)>, defaultValue: int): (r: (int, int))
    ensures yAxisRange.None? ==> r == (0, defaultValue)
    ensures yAxisRange.Some? ==>
      r.0 == DigitsValue(DigitsOf(yAxisRange.value.0)) && r.1 == DigitsValue(DigitsOf(yAxisRange.value.1))
  {
    if yAxisRange.None? then (0, defaultValue)
    else
      var formatStart := DigitsOf(yAxisRange.value.0);
      var formatEnd := DigitsOf(yAxisRange.value.1);
      var start := NumberOfDigits(formatStart);
      var minYValue := if start != 0 then start else 0;
      (minYValue, NumberOfDigits(formatEnd))
  }

  /** The bounds a user types as plain numbers come back as those numbers. */
  lemma YAxisRoundTrip(lo: nat, hi: nat, defaultValue: int)
    ensures YAxisBounds(Some((NatToString(lo), NatToString(hi))), defaultValue) == (lo, hi)
  {
    DigitsOfIdentity(NatToString(lo));
    DigitsOfIdentity(NatToString(hi));
    NatToStringRoundTrip(lo);
    NatToStringRoundTrip(hi);
  }

  /**
   * The NaN test never fires, because only digits are left: an end bound with no
   * digit gives a maximum of 0 rather than the default.
   */
  lemma EmptyEndIsZero(start: string, end: string, defaultValue: int)
    requires forall i :: 0 <= i < |end| ==> !IsDigit(end[i])
    ensures YAxisBounds(Some((start, end)), defaultValue).1 == 0
  {
    NoDigitsNone(end);
  }

  lemma {:induction false} NoDigitsNone(s: string)
    requires forall i :: 0 <= i < |s| ==> !IsDigit(s[i])
    ensures DigitsOf(s) == ""
  {
    if |s| > 0 {
      NoDigitsNone(s[1..]);
    }
  }

  /** Typed bounds decorated with units or separators read as their digits: "1,000 bbl" is 1000. */
  lemma DecoratedBounds(defaultValue: int)
    ensures YAxisBounds(Some(("-5", "1,000 bbl")), defaultValue) == (5, 1000)
  {
    assert DigitsOf("-5") == "5";
    assert DigitsOf("1,000 bbl") == "1000";
    assert "1000"[..3] == "100" && "100"[..2] == "10" && "10"[..1] == "1";
  }

  // ---------------------------------------------------------------- left margin

  /** The chart's default margins. */
  datatype Margin = Margin(top: int, right: int, bottom: int, left: int)
  const DefaultMargin := Margin(20, 20, 70, 60)

  /** `Math.floor(maxYValue).toString().length * 6 + margin.left`: six pixels per character of the largest label. */
  function LeftMargin(maxYValue: int, left: int): (m: int)
    ensures maxYValue >= 0 ==> m == NumDigits(maxYValue) * 6 + left
    ensures maxYValue < 0 ==> m == (NumDigits(-maxYValue) + 1) * 6 + left
  {
    |IntToString(maxYValue)| * 6 + left
  }

  lemma {:induction false} Pow10Monotone(a: nat, b: nat)
    requires a <= b
    ensures Pow10(a) <= Pow10(b)
    decreases b
  {
    if a < b {
      Pow10Monotone(a, b - 1);
    }
  }

  /** A maximum with `k` digits, that is between 10^(k-1) and 10^k, widens the margin by 6k. */
  lemma MarginByMagnitude(maxYValue: nat, k: nat, left: int)
    requires k >= 1 && Pow10(k - 1) <= maxYValue < Pow10(k)
    ensures LeftMargin(maxYValue, left) == 6 * k + left
  {
    var d := NumDigits(maxYValue);
    NumDigitsBounds(maxYValue);
    if d > k {
      Pow10Monotone(k, d - 1);
    } else if d < k {
      Pow10Monotone(d, k - 1);
    }
  }

  // ---------------------------------------------------------------- line series

  /** A series handed to the chart; only its type and id matter here. */
  datatype Series = Series(kind: string, id: string)

  /** The order lines are drawn in, by graph id: outlet before inlet, gas, then oil, then water. */
  const LineOrder: seq<string> := ["GAS_OUTLET_VOLUME", "GAS_INLET_VOLUME", "OIL_OUTLET_VOLUME",
                                   "OIL_INLET_VOLUME", "WATER_OUTLET_VOLUME", "WATER_INLET_VOLUME"]

  /** `order.indexOf(id)`: the first position of `id`, or -1. */
  function IndexOf(order: seq<string>, id: string): (i: int)
    ensures -1 <= i < |order|
    ensures i >= 0 ==> order[i] == id && forall j :: 0 <= j < i ==> order[j] != id
    ensures i == -1 ==> id !in order
  {
    if |order| == 0 then -1
    else if order[0] == id then 0
    else
      var k := IndexOf(order[1..], id);
      if k == -1 then -1 else k + 1
  }

  /** `series.filter(graph => graph.type === "line")`. */
  function Lines(series: seq<Series>): (r: seq<Series>)
    ensures forall i :: 0 <= i < |r| ==> r[i].kind == "line"
    ensures multiset(r) <= multiset(series)
    ensures forall x :: x in series && x.kind == "line" ==> multiset(r)[x] == multiset(series)[x]
  {
    if |series| == 0 then []
    else
      assert series == [series[0]] + series[1..];
      if series[0].kind == "line" then [series[0]] + Lines(series[1..]) else Lines(series[1..])
  }

  function ByLineOrder(order: seq<string>): (Series, Series) -> int
  {
    (a: Series, b: Series) => IndexOf(order, a.id) - IndexOf(order, b.id)
  }

  /** Sorting by line-order position keeps the series and puts them in that order. */
  lemma SortedByLineOrder(lines: seq<Series>, order: seq<string>)
    ensures var out := ArraySort.Sort(lines, ByLineOrder(order));
      multiset(out) == multiset(lines)
      && forall i, j :: 0 <= i < j < |out| ==> IndexOf(order, out[i].id) <= IndexOf(order, out[j].id)
  {
    var cmp := ByLineOrder(order);
    ArraySort.SortPermutes(lines, cmp);
    ArraySort.SortSorted(lines, cmp, (s: Series) => true);
    var out := ArraySort.Sort(lines, cmp);
    forall i, j | 0 <= i < j < |out| ensures IndexOf(order, out[i].id) <= IndexOf(order, out[j].id) {
      assert cmp(out[i], out[j]) <= 0;
    }
  }

  /**
   * The line series, sorted by their position in the line order (unlisted ids
   * first): exactly the line series, each as often as given, in that order.
   */
  function LineSeries(series: seq<Series>, order: seq<string>): (out: seq<Series>)
    ensures multiset(out) == multiset(Lines(series))
    ensures forall i :: 0 <= i < |out| ==> out[i].kind == "line"
    ensures forall i, j :: 0 <= i < j < |out| ==> IndexOf(order, out[i].id) <= IndexOf(order, out[j].id)
  {
    SortedByLineOrder(Lines(series), order);
    var out := ArraySort.Sort(Lines(series), ByLineOrder(order));
    assert forall i :: 0 <= i < |out| ==> out[i] in multiset(Lines(series));
    out
  }

  // ---------------------------------------------------------------- crosshair

  /** lodash `inRange(n, start, end)`: `start <= n < end`, the bounds swapped when `end < start`. */
  function InRange(n: int, start: int, end: int): (b: bool)
    ensures start <= end ==> (b <==> start <= n < end)
    ensures end < start ==> (b <==> end <= n < start)
  {
    var lo := if start < end then start else end;
    var hi := if start < end then end else start;
    lo <= n < hi
  }

  /** The drawing area: where the plot starts and how large it is. */
  datatype PlotArea = PlotArea(left: int, top: int, innerWidth: int, innerHeight: int)

  /** The plot starts at the adjusted left margin and the top margin and fills the svg up to the right and bottom margins. */
  function Plot(svgWidth: int, svgHeight: int, adjustedLeftMargin: int, margin: Margin): (a: PlotArea)
    ensures a.left == adjustedLeftMargin && a.top == margin.top
    ensures a.left + a.innerWidth + margin.right == svgWidth
    ensures margin.top + a.innerHeight + margin.bottom == svgHeight
  {
    PlotArea(adjustedLeftMargin, margin.top, svgWidth - adjustedLeftMargin - margin.right,
             svgHeight - margin.top - margin.bottom)
  }

  /** The value `moveCrosshair` stores: the point when it lies in the plot, otherwise nothing. */
  function MoveCrosshair(point: Option<(int, int)>, area: PlotArea): (r: Option<(int, int)>)
    ensures r.Some? ==> r == point
    ensures area.innerWidth >= 0 && area.innerHeight >= 0 ==>
      (r.Some? <==> point.Some? && area.left <= point.value.0 < area.left + area.innerWidth
                    && area.top <= point.value.1 < area.top + area.innerHeight)
  {
    if point.None? then None
    else
      var (x, y) := point.value;
      if !InRange(x, area.left, area.left + area.innerWidth) || !InRange(y, area.top, area.top + area.innerHeight)
      then None
      else point
  }

  /** A chart narrower than its margins still shows a crosshair, over the strip between plot end and margin. */
  lemma NegativeWidthCrosshair()
    ensures MoveCrosshair(Some((55, 30)), PlotArea(60, 20, -10, 100)) == Some((55, 30))
  {
  }
}
