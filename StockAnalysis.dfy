/**
 * The 52-week high/low summary of one ticker (`get_52_week_high_low`): reductions over
 * one year of daily bars that are handed in, since the history download is not modelled.
 */
module StockAnalysis {
  import opened Optional

  /** A calendar date as a day number: what `Timestamp.date()` keeps of the bar's index. */
  type Date = int

  /** One daily bar of the history; the columns the summary does not read are left out. */
  datatype Bar = Bar(date: Date, high: real, low: real, close: real)

  /** The returned dictionary: one field per key, in the source's key order. */
  datatype Summary = Summary(
    stock: string,
    high52: Option<real>,
    dateOfHigh: Option<Date>,
    low52: Option<real>,
    dateOfLow: Option<Date>,
    currentClose: Option<real>,
    difference: Option<real>,
    status: Option<string>)

  const MaxDifferenceForOk: real := 60.0

  /** The position of the first bar whose High is the largest (`idxmax`). */
  function FirstMaxHigh(bars: seq<Bar>): (k: nat)
    requires |bars| > 0
    ensures k < |bars|
    ensures forall j :: 0 <= j < |bars| ==> bars[j].high <= bars[k].high
    ensures forall j :: 0 <= j < k ==> bars[j].high < bars[k].high
    decreases |bars|
  {
    if |bars| == 1 then 0
    else
      var k := FirstMaxHigh(bars[..|bars| - 1]);
      if bars[|bars| - 1].high > bars[k].high then |bars| - 1 else k
  }

  /** The position of the first bar whose Low is the smallest (`idxmin`). */
  function FirstMinLow(bars: seq<Bar>): (k: nat)
    requires |bars| > 0
    ensures k < |bars|
    ensures forall j :: 0 <= j < |bars| ==> bars[k].low <= bars[j].low
    ensures forall j :: 0 <= j < k ==> bars[k].low < bars[j].low
    decreases |bars|
  {
    if |bars| == 1 then 0
    else
      var k := FirstMinLow(bars[..|bars| - 1]);
      if bars[|bars| - 1].low < bars[k].low then |bars| - 1 else k
  }

  /** "OK" when the range is non-degenerate and the close is within 60 of the high. */
  function StatusOf(low: real, high: real, difference: real): (s: string)
    ensures s == "OK" <==> low < high && difference < MaxDifferenceForOk
    ensures s != "OK" ==> s == "Wait"
  {
    if low < high && difference < MaxDifferenceForOk then "OK" else "Wait"
  }

  /** The summary of `symbol` over its daily `bars`, oldest first. */
  function Get52WeekHighLow(symbol: string, bars: seq<Bar>): (r: Summary)
    ensures r.stock == symbol
    ensures |bars| == 0 ==> r == Summary(symbol, None, None, None, None, None, None, None)
    ensures |bars| > 0 ==>
      && r.high52.Some? && r.dateOfHigh.Some? && r.low52.Some? && r.dateOfLow.Some?
      && r.currentClose.Some? && r.difference.Some? && r.status.Some?
      // the 52-week high bounds every High and is attained, first at the reported date
      && (forall j :: 0 <= j < |bars| ==> bars[j].high <= r.high52.value)
      && (exists k :: 0 <= k < |bars| && bars[k].high == r.high52.value
            && bars[k].date == r.dateOfHigh.value
            && forall j :: 0 <= j < k ==> bars[j].high < r.high52.value)
      // the 52-week low bounds every Low and is attained, first at the reported date
      && (forall j :: 0 <= j < |bars| ==> r.low52.value <= bars[j].low)
      && (exists k :: 0 <= k < |bars| && bars[k].low == r.low52.value
            && bars[k].date == r.dateOfLow.value
            && forall j :: 0 <= j < k ==> r.low52.value < bars[j].low)
      && r.currentClose.value == bars[|bars| - 1].close
      && r.difference.value == r.high52.value - r.currentClose.value
      && (r.status.value == "OK" <==>
            r.low52.value < r.high52.value && r.difference.value < MaxDifferenceForOk)
      && (r.status.value != "OK" ==> r.status.value == "Wait")
  {
    if |bars| == 0 then
      Summary(symbol, None, None, None, None, None, None, None)
    else
      var hi := FirstMaxHigh(bars);
      var lo := FirstMinLow(bars);
      var high := bars[hi].high;
      var low := bars[lo].low;
      var close := bars[|bars| - 1].close;
      var difference := high - close;
      Summary(symbol, Some(high), Some(bars[hi].date), Some(low), Some(bars[lo].date),
              Some(close), Some(difference), Some(StatusOf(low, high, difference)))
  }
}
