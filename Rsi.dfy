/**
 * The RSI scanner: per-session Gain/Loss, Wilder-smoothed Average Gain/Loss seeded at the
 * 14th session, RS and RSI, and the refresh of one row per symbol in the symbol table.
 *
 * The first part states, as functions of the closes, what each column holds; the class
 * StockFrame then builds those columns in place the way the scanner fills its DataFrame.
 */
module RsiScanner {
  import opened Optional

  /** Sessions the scanner needs so that its seed row exists. */
  const MinSessions: nat := 14
  /** The 0-based row that receives the seed averages: the 14th session. */
  const SeedRow: nat := 13
  const Weight: real := 13.0
  const Divisor: real := 14.0

  const OversoldLow: real := 29.0
  const OversoldHigh: real := 35.0
  const OpenTheEyes: string := "Open the eyes"
  const Wait: string := "Wait"

  // ---------------------------------------------------------------------------------------
  // Columns as functions of the closes
  // ---------------------------------------------------------------------------------------

  /** `Close.diff()` at row i: no previous close at row 0. */
  function Change(closes: seq<real>, i: nat): Option<real>
    requires i < |closes|
  {
    if i == 0 then None else Some(closes[i] - closes[i - 1])
  }

  /** `.clip(lower=0)`: a missing value stays missing. */
  function ClipBelowZero(d: Option<real>): Option<real>
  {
    MapOption(d, (x: real) => if x < 0.0 then 0.0 else x)
  }

  /** `.clip(upper=0).abs()`: a missing value stays missing. */
  function ClipAboveZeroAbs(d: Option<real>): Option<real>
  {
    MapOption(d, (x: real) => if x > 0.0 then 0.0 else -x)
  }

  /** The Gain column. */
  function GainColumn(closes: seq<real>): (g: seq<Option<real>>)
    ensures |g| == |closes|
    ensures |g| > 0 ==> g[0].None?
    ensures forall k :: 1 <= k < |g| ==> g[k].Some? && g[k].value >= 0.0
  {
    seq(|closes|, i requires 0 <= i < |closes| => ClipBelowZero(Change(closes, i)))
  }

  /** The Loss column. */
  function LossColumn(closes: seq<real>): (l: seq<Option<real>>)
    ensures |l| == |closes|
    ensures |l| > 0 ==> l[0].None?
    ensures forall k :: 1 <= k < |l| ==> l[k].Some? && l[k].value >= 0.0
  {
    seq(|closes|, i requires 0 <= i < |closes| => ClipAboveZeroAbs(Change(closes, i)))
  }

  /** Row 0 has neither Gain nor Loss; every later row splits its change into the two. */
  lemma GainLossSplit(closes: seq<real>, i: nat)
    requires i < |closes|
    ensures i == 0 ==> GainColumn(closes)[i].None? && LossColumn(closes)[i].None?
    ensures i > 0 ==>
      var g := GainColumn(closes)[i];
      var l := LossColumn(closes)[i];
      && g.Some? && l.Some? && g.value >= 0.0 && l.value >= 0.0
      && (g.value == 0.0 || l.value == 0.0)
      && g.value - l.value == closes[i] - closes[i - 1]
  {
  }

  // ---------------------------------------------------------------------------------------
  // The mean that skips missing values, and the seed
  // ---------------------------------------------------------------------------------------

  /** Sum of the present values of a column. */
  function PresentSum(s: seq<Option<real>>): real
    decreases |s|
  {
    if s == [] then 0.0
    else PresentSum(s[..|s| - 1]) + (if s[|s| - 1].Some? then s[|s| - 1].value else 0.0)
  }

  /** Number of present values of a column. */
  function PresentCount(s: seq<Option<real>>): nat
    decreases |s|
  {
    if s == [] then 0
    else PresentCount(s[..|s| - 1]) + (if s[|s| - 1].Some? then 1 else 0)
  }

  /** `Series.mean()`: missing values are skipped; with none present the mean is missing. */
  function SkipMissingMean(s: seq<Option<real>>): (m: Option<real>)
    ensures m.None? <==> PresentCount(s) == 0
  {
    if PresentCount(s) == 0 then None else Some(PresentSum(s) / PresentCount(s) as real)
  }

  /** Sum of rows lo until hi of a column whose rows there are all present. */
  function RangeSum(col: seq<Option<real>>, lo: nat, hi: nat): real
    requires lo <= hi <= |col|
    requires forall k :: lo <= k < hi ==> col[k].Some?
    decreases hi - lo
  {
    if lo == hi then 0.0 else RangeSum(col, lo, hi - 1) + col[hi - 1].value
  }

  /** Counting and summing the first m rows of a column whose row 0 is missing and whose rows
      1 until m are present sees exactly m - 1 values, rows 1 until m. */
  lemma {:induction false} PresentPrefix(col: seq<Option<real>>, m: nat)
    requires 1 <= m <= |col|
    requires col[0].None?
    requires forall k :: 1 <= k < m ==> col[k].Some?
    ensures PresentCount(col[..m]) == m - 1
    ensures PresentSum(col[..m]) == RangeSum(col, 1, m)
    decreases m
  {
    if m > 1 {
      PresentPrefix(col, m - 1);
      assert col[..m][..m - 1] == col[..m - 1];
    } else {
      assert col[..1][..0] == [];
    }
  }

  /** The seed: the mean of the first 14 rows of the column (`[:14].mean()`). */
  function Seed(col: seq<Option<real>>): real
    requires MinSessions <= |col|
    requires forall k :: 1 <= k < MinSessions ==> col[k].Some?
  {
    assert col[..MinSessions][..SeedRow] == col[..SeedRow];
    assert col[..MinSessions][SeedRow].Some?;
    SkipMissingMean(col[..MinSessions]).value
  }

  /** Because row 0 is missing and skipped, the seed is the sum of rows 1..13 divided by 13. */
  lemma SeedIsMeanOfThirteen(col: seq<Option<real>>)
    requires MinSessions <= |col|
    requires col[0].None?
    requires forall k :: 1 <= k < MinSessions ==> col[k].Some?
    ensures Seed(col) == RangeSum(col, 1, MinSessions) / 13.0
  {
    PresentPrefix(col, MinSessions);
  }

  // ---------------------------------------------------------------------------------------
  // Wilder smoothing
  // ---------------------------------------------------------------------------------------

  /** Average Gain / Average Loss at row i for the Gain / Loss column `col`: 0.0 before the
      seed row, the seed at row 13, and after it (previous * 13 + current) / 14. */
  function Smoothed(col: seq<Option<real>>, i: nat): real
    requires i < |col|
    requires forall k :: 1 <= k <= i ==> col[k].Some?
    decreases i
  {
    if i < SeedRow then 0.0
    else if i == SeedRow then Seed(col)
    else (Smoothed(col, i - 1) * Weight + col[i].value) / Divisor
  }

  /** The largest value of rows 1..i. */
  function MaxSeen(col: seq<Option<real>>, i: nat): (m: real)
    requires 1 <= i < |col|
    requires forall k :: 1 <= k <= i ==> col[k].Some?
    ensures forall k :: 1 <= k <= i ==> col[k].value <= m
    ensures exists k :: 1 <= k <= i && col[k].value == m
    decreases i
  {
    if i == 1 then col[1].value
    else
      var prev := MaxSeen(col, i - 1);
      if col[i].value > prev then col[i].value else prev
  }

  /** A sum of the values of rows 1 until hi is at most hi - 1 times a bound on each of them. */
  lemma {:induction false} RangeSumBelowBound(col: seq<Option<real>>, hi: nat, bound: real)
    requires 1 <= hi <= |col|
    requires forall k :: 1 <= k < hi ==> col[k].Some? && col[k].value <= bound
    ensures RangeSum(col, 1, hi) <= (hi - 1) as real * bound
    decreases hi
  {
    if hi > 1 {
      RangeSumBelowBound(col, hi - 1, bound);
      var n := (hi - 2) as real;
      assert (hi - 1) as real == n + 1.0;
      assert (n + 1.0) * bound == n * bound + bound;
    }
  }

  /** Each average is a convex combination of the values seen so far, so it stays between
      0 and the largest value of rows 1..i. */
  lemma {:induction false} SmoothedBounds(col: seq<Option<real>>, i: nat)
    requires 1 <= i < |col|
    requires col[0].None?
    requires forall k :: 1 <= k <= i ==> col[k].Some? && col[k].value >= 0.0
    ensures 0.0 <= Smoothed(col, i) <= MaxSeen(col, i)
    decreases i
  {
    if i < SeedRow {
      assert col[1].value <= MaxSeen(col, i);
    } else if i == SeedRow {
      SeedBounds(col);
    } else {
      SmoothedBounds(col, i - 1);
      var a := Smoothed(col, i - 1);
      var x := col[i].value;
      var m := MaxSeen(col, i);
      assert MaxSeen(col, i - 1) <= m && x <= m;
      assert Smoothed(col, i) == (a * Weight + x) / Divisor;
      assert a * Weight + x <= m * Divisor;
    }
  }

  /** The seed lies between 0 and the largest of rows 1..13. */
  lemma SeedBounds(col: seq<Option<real>>)
    requires MinSessions <= |col|
    requires col[0].None?
    requires forall k :: 1 <= k < MinSessions ==> col[k].Some? && col[k].value >= 0.0
    ensures 0.0 <= Seed(col) <= MaxSeen(col, SeedRow)
  {
    var m := MaxSeen(col, SeedRow);
    SeedIsMeanOfThirteen(col);
    RangeSumBelowBound(col, MinSessions, m);
    RangeSumNonNegative(col, MinSessions);
    MeanOfThirteenBounds(RangeSum(col, 1, MinSessions), m);
  }

  lemma MeanOfThirteenBounds(total: real, m: real)
    requires 0.0 <= total <= (MinSessions - 1) as real * m
    ensures 0.0 <= total / 13.0 <= m
  {
  }

  lemma {:induction false} RangeSumNonNegative(col: seq<Option<real>>, hi: nat)
    requires 1 <= hi <= |col|
    requires forall k :: 1 <= k < hi ==> col[k].Some? && col[k].value >= 0.0
    ensures RangeSum(col, 1, hi) >= 0.0
    decreases hi
  {
    if hi > 1 {
      RangeSumNonNegative(col, hi - 1);
    }
  }

  /** Row i of the averages depends only on rows 0..i of the column. */
  lemma {:induction false} SmoothedPrefix(c1: seq<Option<real>>, c2: seq<Option<real>>, i: nat)
    requires i < |c1| && i < |c2|
    requires forall k :: 0 <= k <= i ==> c1[k] == c2[k]
    requires forall k :: 1 <= k <= i ==> c1[k].Some?
    ensures Smoothed(c1, i) == Smoothed(c2, i)
    decreases i
  {
    if i == SeedRow {
      assert c1[..MinSessions] == c2[..MinSessions];
    } else if i > SeedRow {
      SmoothedPrefix(c1, c2, i - 1);
    }
  }

  // ---------------------------------------------------------------------------------------
  // RS and RSI
  // ---------------------------------------------------------------------------------------

  /** `Average Gain / Average Loss.replace(0, NA)`: a zero Average Loss gives a missing RS. */
  function Rs(avgGain: real, avgLoss: real): Option<real>
  {
    if avgLoss == 0.0 then None else Some(avgGain / avgLoss)
  }

  /** `100 - 100 / (1 + RS.replace(0, NA))`: a missing or zero RS gives a missing RSI. */
  function Rsi(rs: Option<real>): Option<real>
    requires rs.None? || rs.value >= 0.0
  {
    match rs
    case None => None
    case Some(v) => if v == 0.0 then None else Some(100.0 - 100.0 / (1.0 + v))
  }

  /** How RS and RSI follow from two non-negative averages: both missing when Average Loss is
      0, RSI also missing when Average Gain is 0 (no saturation to 100), and otherwise RSI is
      the gain share 100 * gain / (gain + loss), strictly between 0 and 100. */
  lemma StrengthCases(avgGain: real, avgLoss: real)
    requires avgGain >= 0.0 && avgLoss >= 0.0
    ensures Rs(avgGain, avgLoss).None? <==> avgLoss == 0.0
    ensures Rs(avgGain, avgLoss).Some? ==>
      Rs(avgGain, avgLoss).value * avgLoss == avgGain && Rs(avgGain, avgLoss).value >= 0.0
    ensures Rsi(Rs(avgGain, avgLoss)).None? <==>
      Rs(avgGain, avgLoss).None? || Rs(avgGain, avgLoss).value == 0.0
    ensures Rsi(Rs(avgGain, avgLoss)).None? <==> avgLoss == 0.0 || avgGain == 0.0
    ensures Rsi(Rs(avgGain, avgLoss)).Some? ==>
      var rsi := Rsi(Rs(avgGain, avgLoss)).value;
      && rsi == 100.0 - 100.0 / (1.0 + Rs(avgGain, avgLoss).value)
      && rsi == 100.0 * avgGain / (avgGain + avgLoss)
      && 0.0 < rsi < 100.0
  {
  }

  /** The RSI cell of a row with the two given (non-negative) averages. */
  function RsiOf(avgGain: real, avgLoss: real): Option<real>
    requires avgGain >= 0.0 && avgLoss >= 0.0
  {
    StrengthCases(avgGain, avgLoss);
    Rsi(Rs(avgGain, avgLoss))
  }

  // ---------------------------------------------------------------------------------------
  // One row of the indicator table
  // ---------------------------------------------------------------------------------------

  /** One row of the per-symbol DataFrame (the Date column is not modelled). */
  datatype Session = Session(
    close: real,
    gain: Option<real>,
    loss: Option<real>,
    avgGain: real,
    avgLoss: real,
    rs: Option<real>,
    rsi: Option<real>)

  /** Average Gain at row i. */
  function AvgGainAt(closes: seq<real>, i: nat): (a: real)
    requires i < |closes|
    ensures a >= 0.0
  {
    var col := GainColumn(closes);
    if i == 0 then 0.0 else SmoothedBounds(col, i); Smoothed(col, i)
  }

  /** Average Loss at row i. */
  function AvgLossAt(closes: seq<real>, i: nat): (a: real)
    requires i < |closes|
    ensures a >= 0.0
  {
    var col := LossColumn(closes);
    if i == 0 then 0.0 else SmoothedBounds(col, i); Smoothed(col, i)
  }

  /** From row 14 on, each average is Wilder's step from the one before it. */
  lemma AverageStep(closes: seq<real>, i: nat)
    requires MinSessions <= i < |closes|
    ensures AvgGainAt(closes, i) ==
      (AvgGainAt(closes, i - 1) * Weight + GainColumn(closes)[i].value) / Divisor
    ensures AvgLossAt(closes, i) ==
      (AvgLossAt(closes, i - 1) * Weight + LossColumn(closes)[i].value) / Divisor
  {
  }

  /** Row i of the table the scanner builds from `closes`. */
  function SessionAt(closes: seq<real>, i: nat): Session
    requires i < |closes|
  {
    var ag := AvgGainAt(closes, i);
    var al := AvgLossAt(closes, i);
    Session(closes[i], GainColumn(closes)[i], LossColumn(closes)[i], ag, al, Rs(ag, al),
            RsiOf(ag, al))
  }

  /** What `get_last_500_sessions` returns: nothing for an empty history, else the last row. */
  function ExpectedLastRow(closes: seq<real>): Option<Session>
  {
    if |closes| == 0 then None else Some(SessionAt(closes, |closes| - 1))
  }

  /** Row i depends only on closes 0..i: a longer history with the same start agrees on it. */
  lemma SessionPrefixStable(xs: seq<real>, ys: seq<real>, i: nat)
    requires |xs| <= |ys| && xs == ys[..|xs|]
    requires i < |xs|
    ensures SessionAt(xs, i) == SessionAt(ys, i)
  {
    var gx, gy := GainColumn(xs), GainColumn(ys);
    var lx, ly := LossColumn(xs), LossColumn(ys);
    forall k | 0 <= k <= i
      ensures gx[k] == gy[k] && lx[k] == ly[k]
    {
      assert xs[k] == ys[k];
      if k > 0 {
        assert xs[k - 1] == ys[k - 1];
      }
    }
    if i > 0 {
      SmoothedPrefix(gx, gy, i);
      SmoothedPrefix(lx, ly, i);
    }
  }

  /** Appending one session leaves every earlier row, the old last row included, as it was. */
  lemma AppendSessionStable(closes: seq<real>, next: real)
    requires |closes| >= MinSessions
    ensures forall i :: 0 <= i < |closes| ==> SessionAt(closes + [next], i) == SessionAt(closes, i)
    ensures ExpectedLastRow(closes) == Some(SessionAt(closes + [next], |closes| - 1))
  {
    var ys := closes + [next];
    assert ys[..|closes|] == closes;
    forall i | 0 <= i < |closes|
      ensures SessionAt(ys, i) == SessionAt(closes, i)
    {
      SessionPrefixStable(closes, ys, i);
    }
  }

  // ---------------------------------------------------------------------------------------
  // The per-symbol DataFrame, built column by column
  // ---------------------------------------------------------------------------------------

  /** The DataFrame of one symbol. The columns assigned whole are sequences; the two
      averaged columns, which the smoothing loop writes row by row, are arrays. */
  class StockFrame {
    var close: seq<real>
    var gain: seq<Option<real>>
    var loss: seq<Option<real>>
    var avgGain: array<real>
    var avgLoss: array<real>
    var rs: seq<Option<real>>
    var rsi: seq<Option<real>>

    /** The frame holding only the Close column. */
    constructor (closes: seq<real>)
      ensures close == closes
      ensures gain == [] && loss == [] && rs == [] && rsi == []
      ensures avgGain.Length == 0 && avgLoss.Length == 0
    {
      close := closes;
      gain, loss := [], [];
      avgGain := new real[0];
      avgLoss := new real[0];
      rs, rsi := [], [];
    }

    /** The Gain and Loss columns from `Close.diff()`. */
    method AddGainLoss()
      modifies this
      ensures gain == GainColumn(close) && loss == LossColumn(close)
      ensures close == old(close) && rs == old(rs) && rsi == old(rsi)
      ensures avgGain == old(avgGain) && avgLoss == old(avgLoss)
    {
      gain := GainColumn(close);
      loss := LossColumn(close);
    }

    /** The Average Gain and Average Loss columns, every row 0.0. */
    method InitAverages()
      modifies this
      ensures fresh(avgGain) && fresh(avgLoss) && avgGain != avgLoss
      ensures avgGain.Length == |close| && avgLoss.Length == |close|
      ensures forall k :: 0 <= k < |close| ==> avgGain[k] == 0.0 && avgLoss[k] == 0.0
      ensures close == old(close) && gain == old(gain) && loss == old(loss)
      ensures rs == old(rs) && rsi == old(rsi)
    {
      avgGain := new real[|close|](_ => 0.0);
      avgLoss := new real[|close|](_ => 0.0);
    }

    /** Row 13 of the averages receives the means of the first 14 Gains and Losses. */
    method SeedAverages()
      requires |close| >= MinSessions
      requires gain == GainColumn(close) && loss == LossColumn(close)
      requires avgGain.Length == |close| && avgLoss.Length == |close| && avgGain != avgLoss
      modifies avgGain, avgLoss
      ensures avgGain[..] == old(avgGain[..])[SeedRow := Seed(gain)]
      ensures avgLoss[..] == old(avgLoss[..])[SeedRow := Seed(loss)]
    {
      avgGain[SeedRow] := Seed(gain);
      avgLoss[SeedRow] := Seed(loss);
    }

    /** The smoothing loop: row i is computed from row i - 1 and written in place; rows
        below i keep what they hold and rows above it are not yet touched. */
    method Smooth()
      requires |close| >= MinSessions
      requires gain == GainColumn(close) && loss == LossColumn(close)
      requires avgGain.Length == |close| && avgLoss.Length == |close| && avgGain != avgLoss
      requires forall k :: 0 <= k <= SeedRow ==> avgGain[k] == AvgGainAt(close, k)
      requires forall k :: 0 <= k <= SeedRow ==> avgLoss[k] == AvgLossAt(close, k)
      modifies avgGain, avgLoss
      ensures forall k :: 0 <= k < |close| ==> avgGain[k] == AvgGainAt(close, k)
      ensures forall k :: 0 <= k < |close| ==> avgLoss[k] == AvgLossAt(close, k)
    {
      var n := |close|;
      for i := MinSessions to n
        invariant forall k :: 0 <= k < i ==> avgGain[k] == AvgGainAt(close, k)
        invariant forall k :: 0 <= k < i ==> avgLoss[k] == AvgLossAt(close, k)
        invariant forall k :: i <= k < n ==> avgGain[k] == old(avgGain[k])
        invariant forall k :: i <= k < n ==> avgLoss[k] == old(avgLoss[k])
      {
        AverageStep(close, i);
        avgGain[i] := (avgGain[i - 1] * Weight + gain[i].value) / Divisor;
        avgLoss[i] := (avgLoss[i - 1] * Weight + loss[i].value) / Divisor;
      }
    }

    /** The RS and RSI columns from the two averages. */
    method AddStrength()
      requires avgGain.Length == |close| && avgLoss.Length == |close|
      requires forall k :: 0 <= k < |close| ==> avgGain[k] >= 0.0 && avgLoss[k] >= 0.0
      modifies this
      ensures avgGain == old(avgGain) && avgLoss == old(avgLoss)
      ensures close == old(close) && gain == old(gain) && loss == old(loss)
      ensures |rs| == |close| && |rsi| == |close|
      ensures forall k :: 0 <= k < |close| ==>
        rs[k] == Rs(avgGain[k], avgLoss[k]) && rsi[k] == RsiOf(avgGain[k], avgLoss[k])
    {
      var n, ag, al := |close|, avgGain[..], avgLoss[..];
      rs := seq(n, k requires 0 <= k < n => Rs(ag[k], al[k]));
      rsi := seq(n, k requires 0 <= k < n => RsiOf(ag[k], al[k]));
    }
  }

  /** `get_last_500_sessions` after the download: builds the frame and returns its last row. */
  method LatestSession(closes: seq<real>) returns (r: Option<Session>)
    requires |closes| == 0 || |closes| >= MinSessions
    ensures r == ExpectedLastRow(closes)
    ensures |closes| == 0 <==> r.None?
    ensures r.Some? ==> r.value.close == closes[|closes| - 1]
  {
    if |closes| == 0 {
      return None;
    }
    var frame := new StockFrame(closes);
    frame.AddGainLoss();
    frame.InitAverages();
    frame.SeedAverages();
    forall k | 0 <= k <= SeedRow
      ensures frame.avgGain[k] == AvgGainAt(closes, k) && frame.avgLoss[k] == AvgLossAt(closes, k)
    {
    }
    frame.Smooth();
    frame.AddStrength();
    var n := |closes| - 1;
    r := Some(Session(frame.close[n], frame.gain[n], frame.loss[n], frame.avgGain[n],
                      frame.avgLoss[n], frame.rs[n], frame.rsi[n]));
  }

  // ---------------------------------------------------------------------------------------
  // The symbol table and its refresh (`main`)
  // ---------------------------------------------------------------------------------------

  /** One row of the symbol table: the Symbol, the eight columns the scanner writes, and
      the table's other columns, which it never touches. */
  datatype StockRecord = StockRecord(
    symbol: string,
    close: Option<real>,
    gain: Option<real>,
    loss: Option<real>,
    avgGain: Option<real>,
    avgLoss: Option<real>,
    rs: Option<real>,
    rsi: Option<real>,
    action: Option<string>,
    others: seq<string>)

  /** The Action label for a (rounded) RSI: strictly between 29 and 35 is worth a look. */
  function ActionFor(rsi: real): (a: string)
    ensures a == OpenTheEyes <==> OversoldLow < rsi < OversoldHigh
    ensures a != OpenTheEyes ==> a == Wait
  {
    if rsi < OversoldHigh && rsi > OversoldLow then OpenTheEyes else Wait
  }

  /** The index of the first row holding `symbol` (`index[0]`), or nothing. */
  function FirstMatch(rows: seq<StockRecord>, symbol: string): (k: Option<nat>)
    ensures k.None? <==> forall j :: 0 <= j < |rows| ==> rows[j].symbol != symbol
    ensures k.Some? ==> k.value < |rows| && rows[k.value].symbol == symbol
    ensures k.Some? ==> forall j :: 0 <= j < k.value ==> rows[j].symbol != symbol
    decreases |rows|
  {
    if rows == [] then None
    else if rows[0].symbol == symbol then Some(0)
    else MapOption(FirstMatch(rows[1..], symbol), (j: nat) => j + 1)
  }

  /** The row after the scanner wrote `latest` into it, each value passed through `round`
      (`round(x, 3)`). The cells are written one after another, and `round` of a missing
      RS or RSI raises; the handler around the loop body swallows the error. So a missing
      RS leaves the row's RS, RSI and Action as they were, and a present RS with a
      missing RSI leaves its RSI and Action as they were. */
  function WithLatest(row: StockRecord, latest: Session, round: real -> real): (r: StockRecord)
    ensures r.symbol == row.symbol && r.others == row.others
    ensures r.close == Some(round(latest.close))
    ensures r.gain == MapOption(latest.gain, round) && r.loss == MapOption(latest.loss, round)
    ensures r.avgGain == Some(round(latest.avgGain)) && r.avgLoss == Some(round(latest.avgLoss))
    ensures latest.rs.None? ==> r.rs == row.rs && r.rsi == row.rsi && r.action == row.action
    ensures latest.rs.Some? ==> r.rs == Some(round(latest.rs.value))
    ensures latest.rs.Some? && latest.rsi.None? ==> r.rsi == row.rsi && r.action == row.action
    ensures latest.rs.Some? && latest.rsi.Some? ==> r.rsi == Some(round(latest.rsi.value))
    ensures latest.rs.Some? && latest.rsi.Some? ==>
      (r.action == Some(OpenTheEyes) <==> OversoldLow < round(latest.rsi.value) < OversoldHigh)
    ensures latest.rs.Some? && latest.rsi.Some? ==>
      (r.action == Some(Wait) <==> !(OversoldLow < round(latest.rsi.value) < OversoldHigh))
  {
    var values := row.(close := Some(round(latest.close)),
                       gain := MapOption(latest.gain, round),
                       loss := MapOption(latest.loss, round),
                       avgGain := Some(round(latest.avgGain)),
                       avgLoss := Some(round(latest.avgLoss)));
    match latest.rs
    case None => values
    case Some(rs) =>
      match latest.rsi
      case None => values.(rs := Some(round(rs)))
      case Some(rsi) =>
        values.(rs := Some(round(rs)), rsi := Some(round(rsi)),
                action := Some(ActionFor(round(rsi))))
  }

  /** The table after the row of `symbol` was refreshed: only the first row with that
      Symbol changes; with no such row the table is unchanged. */
  function Refreshed(rows: seq<StockRecord>, symbol: string, latest: Session,
                     round: real -> real): (r: seq<StockRecord>)
    ensures |r| == |rows|
    ensures forall j :: 0 <= j < |rows| ==> r[j].symbol == rows[j].symbol && r[j].others == rows[j].others
    ensures (forall j :: 0 <= j < |rows| ==> rows[j].symbol != symbol) ==> r == rows
    ensures forall k :: 0 <= k < |rows| && rows[k].symbol == symbol
                        && (forall j :: 0 <= j < k ==> rows[j].symbol != symbol) ==>
      r[k] == WithLatest(rows[k], latest, round)
      && forall j :: 0 <= j < |rows| && j != k ==> r[j] == rows[j]
  {
    match FirstMatch(rows, symbol)
    case None => rows
    case Some(k) => rows[k := WithLatest(rows[k], latest, round)]
  }

  /** The Symbol column, in order: the list of symbols `main` iterates over. */
  function Symbols(rows: seq<StockRecord>): (s: seq<string>)
    ensures |s| == |rows| && forall j :: 0 <= j < |rows| ==> s[j] == rows[j].symbol
  {
    seq(|rows|, j requires 0 <= j < |rows| => rows[j].symbol)
  }

  /** One iteration of `main`'s loop: a symbol without data leaves the table as it is. */
  function ScanStep(rows: seq<StockRecord>, symbol: string, history: string -> seq<real>,
                    round: real -> real): seq<StockRecord>
  {
    match ExpectedLastRow(history(symbol))
    case None => rows
    case Some(latest) => Refreshed(rows, symbol, latest, round)
  }

  /** The table after `main` has processed `symbols` in order. */
  function ScanSymbols(rows: seq<StockRecord>, symbols: seq<string>,
                       history: string -> seq<real>, round: real -> real): seq<StockRecord>
    decreases |symbols|
  {
    if symbols == [] then rows
    else ScanStep(ScanSymbols(rows, symbols[..|symbols| - 1], history, round),
                  symbols[|symbols| - 1], history, round)
  }

  /** A scan never adds, drops or reorders rows, and never changes a Symbol or the other
      columns, whatever the symbols and the downloaded histories. */
  lemma {:induction false} ScanKeepsShape(rows: seq<StockRecord>, symbols: seq<string>,
                                          history: string -> seq<real>, round: real -> real)
    ensures |ScanSymbols(rows, symbols, history, round)| == |rows|
    ensures forall j :: 0 <= j < |rows| ==>
      ScanSymbols(rows, symbols, history, round)[j].symbol == rows[j].symbol
      && ScanSymbols(rows, symbols, history, round)[j].others == rows[j].others
    decreases |symbols|
  {
    if symbols != [] {
      ScanKeepsShape(rows, symbols[..|symbols| - 1], history, round);
    }
  }

  /** A scan over symbols none of which has data, or none of which is in the table, leaves
      the table unchanged. */
  lemma {:induction false} ScanWithoutEffect(rows: seq<StockRecord>, symbols: seq<string>,
                                             history: string -> seq<real>, round: real -> real)
    requires forall j :: 0 <= j < |symbols| ==>
      |history(symbols[j])| == 0 || forall k :: 0 <= k < |rows| ==> rows[k].symbol != symbols[j]
    ensures ScanSymbols(rows, symbols, history, round) == rows
    decreases |symbols|
  {
    if symbols != [] {
      var init := symbols[..|symbols| - 1];
      ScanWithoutEffect(rows, init, history, round);
    }
  }

  /** The symbol table `main` loads, refreshes and saves. */
  class SymbolTable {
    var rows: seq<StockRecord>

    constructor (loaded: seq<StockRecord>)
      ensures rows == loaded
    {
      rows := loaded;
    }

    /** Writes `latest` into the first row holding `symbol`, if there is one. */
    method Refresh(symbol: string, latest: Session, round: real -> real)
      modifies this
      ensures rows == Refreshed(old(rows), symbol, latest, round)
    {
      var k := FirstMatch(rows, symbol);
      if k.Some? {
        rows := rows[k.value := WithLatest(rows[k.value], latest, round)];
      }
    }
  }

  /** `main` between loading and saving the table: for each Symbol of the table, in order,
      the history is downloaded (`history`; an empty one stands for no data or a failed
      download) and the symbol's row is refreshed from its latest session. */
  method ScanAll(table: SymbolTable, history: string -> seq<real>, round: real -> real)
    requires forall s :: |history(s)| == 0 || |history(s)| >= MinSessions
    modifies table
    ensures table.rows == ScanSymbols(old(table.rows), Symbols(old(table.rows)), history, round)
  {
    var symbols := Symbols(table.rows);
    for j := 0 to |symbols|
      invariant table.rows == ScanSymbols(old(table.rows), symbols[..j], history, round)
    {
      assert symbols[..j + 1][..j] == symbols[..j];
      var latest := LatestSession(history(symbols[j]));
      if latest.Some? {
        table.Refresh(symbols[j], latest.value, round);
      }
    }
    assert symbols[..|symbols|] == symbols;
  }
}
