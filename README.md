# RSI scanner and 52-week screeners, modelled in Dafny

This project models the three calculation cores of a small set of stock-screening scripts.
All of them run over exact `real` arithmetic. Tables are sequences of records. A missing
cell (pandas NaN / NA, Python `None`) is an `Option`.

- **RSI scanner** (`RsiScanner`, Rsi.dfy). It turns a symbol's daily closes into the
  Gain and Loss columns. It fills Average Gain and Average Loss: 0.0 up to row 12, a seed at
  row 13, then Wilder's recurrence `(previous * 13 + current) / 14`. It derives RS and RSI and
  returns the last row. `StockFrame` is the per-symbol DataFrame. Its columns that are
  assigned whole are sequences. The two average columns are arrays, and the smoothing loop
  writes them row by row, in place. `SymbolTable` is the symbol table. `ScanAll` walks the
  table's Symbol column and writes the latest row into the first row that has that symbol.
  It also sets the Action label.
- **52-week screener** (`Screener52Week`, Screener.dfy). It strips the disclaimer, keeps the
  EQ rows among the first 100 and fetches one close and one volume per EQ row. It drops rows
  with a missing quote and keeps rows with close > 60 and volume > 60000. It computes the
  distance to the adjusted 52-week high, labels each row `NEED TO LOOK` or `WAIT`, and selects
  the `NEED TO LOOK` rows.
- **52-week summary** (`StockAnalysis`, StockAnalysis.dfy). It reduces one year of daily bars
  to the high, the low, the dates where each first occurs, the last close, the high-minus-close
  difference and an `OK`/`Wait` status. An empty history gives a record whose fields are all
  missing, except the stock.

Shared helpers: `Optional` (the `Option` type) and `Sequences` (an order-preserving `Filter`
and the subsequence relation).

The downloads are inputs to the model:
- `history: string -> seq<real>` gives the closes per symbol. An empty history stands for no
  data or a failed download.
- `quote: string -> Quote` gives the close and volume per symbol.
- The bars passed to `Get52WeekHighLow`.

The display rounding `round(x, 3)` / `.round(3)` is a parameter, `round: real -> real`. Every
cell the code rounds goes through it, and every classification the code makes on rounded
values is made on `round(...)`.

In three places the code departs from the usual statement of the RSI, and the model
follows the code:
- **Seed.** The usual statement takes the mean of rows 0..13. The code takes `Gain[:14].mean()`.
  The pandas mean skips the missing row-0 value, so the seed is the sum of rows 1..13 divided
  by 13 (`SeedIsMeanOfThirteen`).
- **Zero averages.** The usual statement saturates RSI to 100 when Average Loss is 0. The code
  replaces 0 by NA instead. A zero Average Loss gives a missing RS and a missing RSI. A zero
  RS, that is a zero Average Gain, also gives a missing RSI (`StrengthCases`).
- **Missing RS or RSI.** The row's cells are written one after another, and `round` of a
  missing (NA) value raises. The handler at the end of the loop swallows the error, so the
  cells not yet written keep their old values. A missing RS keeps the row's old RS, RSI and
  Action. A present RS with a missing RSI keeps the old RSI and Action (`WithLatest`).

## Model

| member | source | states |
|---|---|---|
| `RsiScanner.GainColumn` | rsiScanner.py:28 | one Gain per row; row 0 has none; every later Gain is present and non-negative |
| `RsiScanner.LossColumn` | rsiScanner.py:29 | one Loss per row; row 0 has none; every later Loss is present and non-negative |
| `RsiScanner.GainLossSplit` | rsiScanner.py:28-29 | at row 0 both are missing; at every later row both are non-negative, at least one is 0, and Gain − Loss is the change in close |
| `RsiScanner.SkipMissingMean` | rsiScanner.py:36-37 | the pandas mean is missing exactly when no value is present |
| `RsiScanner.Seed` | rsiScanner.py:36-37 | definition: the skip-missing mean of the first 14 cells of a column; its value is proved in `SeedIsMeanOfThirteen` and its bounds in `SeedBounds` |
| `RsiScanner.SeedIsMeanOfThirteen` | rsiScanner.py:36-37 | the row-13 seed is the sum of rows 1..13 divided by 13, because the missing row 0 is skipped |
| `RsiScanner.SeedBounds` | rsiScanner.py:36-37 | the seed lies between 0 and the largest value of rows 1..13 |
| `RsiScanner.Smoothed` | rsiScanner.py:32-44 | definition: 0.0 before row 13, the seed at row 13, then (previous·13 + current)/14; its properties are proved in `SmoothedBounds`, `SmoothedPrefix` and `AverageStep` |
| `RsiScanner.SmoothedBounds` | rsiScanner.py:32-44 | every average lies between 0 and the largest Gain (Loss) of rows 1..i |
| `RsiScanner.SmoothedPrefix` | rsiScanner.py:42-44 | the average at row i depends only on rows 0..i of its column |
| `RsiScanner.AvgGainAt` | rsiScanner.py:32-44 | Average Gain is never negative |
| `RsiScanner.AvgLossAt` | rsiScanner.py:32-44 | Average Loss is never negative |
| `RsiScanner.AverageStep` | rsiScanner.py:42-44 | from row 14 on, Average Gain and Average Loss at row i are (the value at row i − 1 · 13 + that row's Gain or Loss) / 14 |
| `RsiScanner.Rs` | rsiScanner.py:47 | definition: Average Gain over Average Loss, missing when Average Loss is 0; its properties are proved in `StrengthCases` |
| `RsiScanner.Rsi` | rsiScanner.py:50 | definition: 100 − 100/(1 + RS), missing when RS is missing or 0; its properties are proved in `StrengthCases` |
| `RsiScanner.StrengthCases` | rsiScanner.py:47-50 | RS is missing exactly when Average Loss is 0; RSI is missing exactly when RS is missing or 0; otherwise RSI = 100 − 100/(1+RS) = 100·gain/(gain+loss), strictly between 0 and 100 |
| `RsiScanner.SessionAt` | rsiScanner.py:27-50 | definition: row i of the frame, its seven value cells from the column functions; its properties are proved in `SessionPrefixStable` and `AppendSessionStable` |
| `RsiScanner.ExpectedLastRow` | rsiScanner.py:22-53 | definition: nothing for an empty history, else the last row; `LatestSession` is proved equal to it and `AppendSessionStable` relates it to a longer history |
| `RsiScanner.SessionPrefixStable` | rsiScanner.py:27-50 | a row depends only on the closes up to it: two histories with the same start agree on that row |
| `RsiScanner.AppendSessionStable` | rsiScanner.py:42-53 | appending a close to a history of 14 or more leaves every earlier row unchanged, the old last row included |
| `RsiScanner.StockFrame.constructor` | rsiScanner.py:19-20 | the frame starts with only the Close column |
| `RsiScanner.StockFrame.AddGainLoss` | rsiScanner.py:28-29 | sets the Gain and Loss columns and nothing else |
| `RsiScanner.StockFrame.InitAverages` | rsiScanner.py:32-33 | both average columns become fresh, separate columns of 0.0, one per row |
| `RsiScanner.StockFrame.SeedAverages` | rsiScanner.py:36-37 | only row 13 of each average column changes, to the mean of the first 14 cells |
| `RsiScanner.StockFrame.Smooth` | rsiScanner.py:42-44 | after the loop, every row of both columns holds the specified average; each iteration writes only row i and leaves the rows below it unchanged |
| `RsiScanner.StockFrame.AddStrength` | rsiScanner.py:47-50 | sets RS and RSI per row from that row's averages and leaves every other column unchanged |
| `RsiScanner.LatestSession` | rsiScanner.py:22-53 | an empty history gives nothing; otherwise the result is the specified last row, whose Close is the last close |
| `RsiScanner.ActionFor` | rsiScanner.py:86-89 | "Open the eyes" exactly when 29 < RSI < 35, both strict; "Wait" otherwise |
| `RsiScanner.FirstMatch` | rsiScanner.py:75-77 | gives the first row holding the symbol, or nothing exactly when no row holds it |
| `RsiScanner.WithLatest` | rsiScanner.py:79-94 | Symbol and the other columns are kept; Close, Gain, Loss and both averages are the rounded latest values; a missing RS keeps the old RS, RSI and Action; a present RS is written rounded, and then a missing RSI keeps the old RSI and Action; otherwise RSI is written rounded and Action follows the rounded RSI band |
| `RsiScanner.Refreshed` | rsiScanner.py:75-92 | only the first row with the symbol changes, and an unknown symbol leaves the table unchanged |
| `RsiScanner.Symbols` | rsiScanner.py:57-58 | the Symbol column, one entry per row, in order |
| `RsiScanner.ScanStep` | rsiScanner.py:67-92 | definition: one iteration of the loop; a symbol without data leaves the table as it is, otherwise the table is `Refreshed`; its properties are proved in `ScanKeepsShape` and `ScanWithoutEffect` |
| `RsiScanner.ScanSymbols` | rsiScanner.py:64-95 | definition: the steps applied in the order of the symbols; `ScanAll` is proved equal to it, and `ScanKeepsShape` and `ScanWithoutEffect` state its properties |
| `RsiScanner.ScanKeepsShape` | rsiScanner.py:64-92 | a whole scan keeps the number and order of rows, every Symbol and every other column |
| `RsiScanner.ScanWithoutEffect` | rsiScanner.py:69-92 | symbols without data or not in the table leave the table unchanged |
| `RsiScanner.SymbolTable.constructor` | rsiScanner.py:61 | the table holds exactly the loaded rows |
| `RsiScanner.SymbolTable.Refresh` | rsiScanner.py:75-92 | the table becomes the refreshed table for that symbol |
| `RsiScanner.ScanAll` | rsiScanner.py:64-95 | the table becomes the result of refreshing it symbol by symbol, in the order of its Symbol column |
| `Screener52Week.RemoveAll` | get52weekSceener.py:24 | never longer than its input; its behaviour is proved in `RemoveAllAbsent` and `RemoveAllLeftmost` |
| `Screener52Week.RemoveAllAbsent` | get52weekSceener.py:24 | text in which the disclaimer does not occur comes back unchanged |
| `Screener52Week.RemoveAllLeftmost` | get52weekSceener.py:24 | the leftmost occurrence is removed whole and the search resumes after it (non-overlapping, left to right) |
| `Screener52Week.StripDisclaimer` | get52weekSceener.py:24 | removes the disclaimer literal, so it is never longer than its input; `StripPublishedFile` states what it leaves of the published file |
| `Screener52Week.StripPublishedFile` | get52weekSceener.py:24 | the disclaimer followed by a listing that does not contain it strips to exactly the listing |
| `Screener52Week.Head` | get52weekSceener.py:27 | the first min(100, n) rows |
| `Sequences.Filter` | get52weekSceener.py:33 | a boolean-mask row filter: never longer than its input; every kept row is in the input and passes; every row that passes is kept |
| `Sequences.FilterIsSubsequence` | get52weekSceener.py:33 | a filter keeps the relative order of the rows it keeps |
| `Sequences.FilterMultiset` | get52weekSceener.py:33 | a filter keeps each row that passes as often as it occurs, and no other row |
| `Screener52Week.EquityRows` | get52weekSceener.py:27-33 | definition: the EQ filter over the first 100 rows; its properties are proved in `EquityRowsSelection` |
| `Screener52Week.EquityRowsSelection` | get52weekSceener.py:27-33 | only EQ rows among the first 100 survive, every one of them as often as it occurs there, in the original order |
| `Screener52Week.FetchQuotes` | get52weekSceener.py:53-60 | one close and one volume per EQ row, in order, so entry k belongs to EQ row k |
| `Screener52Week.FetchedCloses` | get52weekSceener.py:57-60 | definition: the close fetched for each EQ row, in order; `FetchQuotes` is proved to produce it |
| `Screener52Week.FetchedVolumes` | get52weekSceener.py:57-60 | definition: the volume fetched for each EQ row, in order; `FetchQuotes` is proved to produce it |
| `Screener52Week.Attach` | get52weekSceener.py:63-64 | row k receives entry k of both lists |
| `Screener52Week.CandidatesSelection` | get52weekSceener.py:53-74 | every surviving row is an EQ row of the first 100 with its own close present and > 60 and its own volume present and > 60000; every such row survives; order is kept |
| `Screener52Week.QuotedRows` | get52weekSceener.py:53-64 | definition: the EQ rows with their fetched quotes attached; `QuotedRowCount` states its multiplicities |
| `Screener52Week.DropMissing` | get52weekSceener.py:66-67 | definition: the rows with both quote cells present; its properties are proved in `CandidatesSelection` and `CandidatesMultiplicity` |
| `Screener52Week.KeepLiquid` | get52weekSceener.py:73-74 | definition: the rows with close > 60 and volume > 60000; its properties are proved in `CandidatesSelection` and `CandidatesMultiplicity` |
| `Screener52Week.Candidates` | get52weekSceener.py:53-74 | definition: the rows that reach the status table; `RunScreener` is proved to compute it, and `CandidatesSelection` and `CandidatesMultiplicity` state its properties |
| `Screener52Week.QuotedRowCount` | get52weekSceener.py:53-64 | attaching the quotes neither merges nor duplicates rows: a quoted row occurs as often as its listing occurs among the EQ rows, when it carries that listing's own quote, and never otherwise |
| `Screener52Week.CandidatesMultiplicity` | get52weekSceener.py:53-74 | a quoted row occurs among the candidates exactly as often as its listing occurs among the EQ rows, when it carries that listing's own quote and passes both thresholds, and never otherwise |
| `Screener52Week.StatusOf` | get52weekSceener.py:91-93 | "NEED TO LOOK" exactly when −10 ≤ percentage ≤ −2, both inclusive; "WAIT" otherwise, a missing value included |
| `Screener52Week.Annotate` | get52weekSceener.py:70-93 | Difference = High − Close and Percentage_Difference = Difference / High·100 on the rounded Close, both then rounded; Status is "NEED TO LOOK" exactly on the band and "WAIT" otherwise; a missing High gives "WAIT" |
| `Screener52Week.AnnotateAll` | get52weekSceener.py:77-93 | one annotated row per candidate, in order |
| `Screener52Week.NeedToLookRows` | get52weekSceener.py:99-100 | definition: the NEED TO LOOK filter of the status table; its properties are proved in `NeedToLookSelection` |
| `Screener52Week.NeedToLookSelection` | get52weekSceener.py:100 | the NEED TO LOOK table is exactly the status table's NEED TO LOOK rows, each as often as it occurs there, in order |
| `Screener52Week.RunScreener` | get52weekSceener.py:27-100 | the status table is the annotated candidates, in order; the NEED TO LOOK table is its NEED TO LOOK part, and each of its rows has a percentage in the band |
| `StockAnalysis.FirstMaxHigh` | stock_analysis.py:23-27 | the first bar whose High is at least every High |
| `StockAnalysis.FirstMinLow` | stock_analysis.py:24-28 | the first bar whose Low is at most every Low |
| `StockAnalysis.StatusOf` | stock_analysis.py:37 | "OK" exactly when low < high and difference < 60, both strict; "Wait" otherwise |
| `StockAnalysis.Get52WeekHighLow` | stock_analysis.py:10-48 | an empty history gives the stock and seven missing fields. Otherwise the high bounds every High and is attained, first on the Date of High. The low bounds every Low and is attained, first on the Date of Low. Current Close is the last close, Difference is high − close, and Status is "OK" exactly when low < high and difference < 60 |

The eight keys of the returned dictionary are the eight fields of `StockAnalysis.Summary`.
So both the empty and the non-empty result carry the same keys, by construction.

## Left out

- Downloads and HTTP are not modelled. This covers `requests.get`, `yf.download`,
  `yf.Ticker(...).history` and `fetch_close_price_and_volume`. Their results are parameters,
  and a failed fetch is an empty history or a missing quote.
- 52NSE.py is not part of this model. It only downloads the listing, strips the same
  disclaimer, prints and writes a CSV.
- CSV and Excel reads and writes are not modelled. Neither is the CSV parse of the stripped
  text or the column rename. The screener starts from parsed `Listing` rows.
- `print`, progress messages, `datetime.now()` / `datetime.today()`, the look-back window and
  the unused Google Drive imports are left out. They have no effect on the computed values.
- Floating point is not modelled: the model computes over exact reals. `round(x, 3)` is an
  arbitrary function parameter, so no property depends on how it rounds.
- `RsiScanner.LatestSession`: requires a history of 0 or at least 14 closes. With 1 to 13
  closes, pandas enlarges the frame when it writes row 13, and that case is not modelled.
- `RsiScanner.StockFrame`: the Date column is not modelled. The Gain, Loss, RS and RSI
  columns are assigned whole as sequences, as the code assigns them.
- `Screener52Week.Listing`: the adjusted 52-week high is held as `pd.to_numeric(...,
  errors='coerce')` leaves it. The parse of text cells into numbers is not modelled.
- `Screener52Week.Annotate`: a High of 0 gives a missing percentage. In pandas it would be an
  infinity or NaN. The Status is "WAIT" either way.
- `Screener52Week.RunScreener`: the in-place `dropna` and the column assignments are
  reassignments of local sequences. Nothing else holds a reference to the frame.
- `StockAnalysis.Bar`: NaN inside a history is not modelled. In pandas, `max`/`min` skip it;
  here every High, Low and Close is a number. The Open and Volume columns are not read and
  are left out.
- `StockAnalysis.Bar`: the bar date is a day number. The timestamp's time of day and time
  zone, which `.date()` drops, are not modelled.
- `Screener52Week.QuotedRowCount`, `RsiScanner.ScanAll`: every download is a fixed function of
  the symbol (`quote`, `history`). The code fetches again on every iteration, so a symbol
  listed twice could get different data, or fail only once. In the model both fetches give
  the same result, and "that listing's own quote" relies on this.
- `RsiScanner.ScanAll`: the symbol list and the table to update come from two reads of the
  same file. They are modelled as one table whose Symbol column drives the loop. An
  exception from the download of one symbol is modelled as an empty history for it.
