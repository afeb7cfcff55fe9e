/**
 * The 52-week screener: the exchange's 52-week high/low listing, cut to its first 100 rows
 * and to the EQ series, joined with a fetched close and volume per row, filtered by price
 * and volume, and labelled by how far the close sits below the adjusted 52-week high.
 */
module Screener52Week {
  import opened Optional
  import opened Sequences

  /** The two header lines the exchange prepends to the listing, removed before parsing. */
  const Disclaimer: string := "\"Disclaimer - The Data provided in the adjusted 52 week high and adjusted 52 week low columns  are adjusted for corporate actions (bonus, splits & rights).For actual (unadjusted) 52 week high & low prices, kindly refer bhavcopy.\"\n\"Effective for 25-Jan-2024\"\n"

  const HeadRows: nat := 100
  const EquitySeries: string := "EQ"
  const MinClose: real := 60.0
  const MinVolume: real := 60000.0
  const BandLow: real := -10.0
  const BandHigh: real := -2.0
  const NeedToLook: string := "NEED TO LOOK"
  const WaitStatus: string := "WAIT"

  // ---------------------------------------------------------------------------------------
  // Disclaimer stripping (`str.replace(literal, '')`)
  // ---------------------------------------------------------------------------------------

  /** `pat` occurs in `text` starting at position i. */
  predicate OccursAt(text: string, pat: string, i: nat)
  {
    i + |pat| <= |text| && text[i..i + |pat|] == pat
  }

  /** Removes the occurrences of `pat` found scanning left to right, each search resuming
      after the occurrence just removed. */
  function RemoveAll(text: string, pat: string): (r: string)
    requires |pat| > 0
    ensures |r| <= |text|
    decreases |text|
  {
    if |text| < |pat| then text
    else if text[..|pat|] == pat then RemoveAll(text[|pat|..], pat)
    else [text[0]] + RemoveAll(text[1..], pat)
  }

  /** Text in which `pat` does not occur comes back unchanged. */
  lemma {:induction false} RemoveAllAbsent(text: string, pat: string)
    requires |pat| > 0
    requires forall i :: 0 <= i <= |text| ==> !OccursAt(text, pat, i)
    ensures RemoveAll(text, pat) == text
    decreases |text|
  {
    if |text| >= |pat| {
      assert !OccursAt(text, pat, 0);
      assert text[..|pat|] != pat;
      forall i | 0 <= i <= |text[1..]|
        ensures !OccursAt(text[1..], pat, i)
      {
        assert !OccursAt(text, pat, i + 1);
        if i + |pat| <= |text[1..]| {
          assert text[1..][i..i + |pat|] == text[i + 1..i + 1 + |pat|];
        }
      }
      RemoveAllAbsent(text[1..], pat);
    }
  }

  /** The leftmost occurrence is removed as a whole and the search resumes after it: if the
      first occurrence of `pat` in `prefix + pat + rest` is the one after `prefix`, the result
      is `prefix` followed by the result for `rest`. */
  lemma {:induction false} RemoveAllLeftmost(prefix: string, pat: string, rest: string)
    requires |pat| > 0
    requires forall i :: 0 <= i < |prefix| ==> !OccursAt(prefix + pat + rest, pat, i)
    ensures RemoveAll(prefix + pat + rest, pat) == prefix + RemoveAll(rest, pat)
    decreases |prefix|
  {
    var text := prefix + pat + rest;
    if prefix == [] {
      assert text == pat + rest;
      assert text[..|pat|] == pat;
      assert text[|pat|..] == rest;
    } else {
      assert !OccursAt(text, pat, 0);
      assert text[..|pat|] != pat;
      var tail := prefix[1..];
      assert text[1..] == tail + pat + rest;
      forall i | 0 <= i < |tail|
        ensures !OccursAt(tail + pat + rest, pat, i)
      {
        assert !OccursAt(text, pat, i + 1);
        assert text[1..][i..i + |pat|] == text[i + 1..i + 1 + |pat|];
      }
      RemoveAllLeftmost(tail, pat, rest);
      assert [prefix[0]] + (tail + RemoveAll(rest, pat)) == prefix + RemoveAll(rest, pat);
    }
  }

  /** The text handed to the CSV reader. */
  function StripDisclaimer(text: string): (r: string)
    ensures |r| <= |text|
  {
    RemoveAll(text, Disclaimer)
  }

  /** The published file: the disclaimer followed by the listing, which is all that remains. */
  lemma StripPublishedFile(listing: string)
    requires forall i :: 0 <= i <= |listing| ==> !OccursAt(listing, Disclaimer, i)
    ensures StripDisclaimer(Disclaimer + listing) == listing
  {
    assert Disclaimer + listing == [] + Disclaimer + listing;
    RemoveAllLeftmost([], Disclaimer, listing);
    RemoveAllAbsent(listing, Disclaimer);
  }

  // ---------------------------------------------------------------------------------------
  // Rows of the listing and their selection
  // ---------------------------------------------------------------------------------------

  /** One row of the listing after the columns are renamed. The adjusted 52-week high is
      held as `pd.to_numeric(..., errors='coerce')` leaves it: missing when not a number. */
  datatype Listing = Listing(
    symbol: string,
    series: string,
    adjHigh: Option<real>,
    highDate: string,
    adjLow: string,
    lowDate: string)

  /** What the quote download yields for one symbol; both parts are missing on failure. */
  datatype Quote = Quote(close: Option<real>, volume: Option<real>)

  /** A listing row with its Close_Price and Volume columns attached. */
  datatype Quoted = Quoted(listing: Listing, close: Option<real>, volume: Option<real>)

  /** A row of the status table. */
  datatype Screened = Screened(
    listing: Listing,
    close: real,
    volume: real,
    difference: Option<real>,
    percentage: Option<real>,
    status: string)

  /** `.head(100)`: the first 100 rows, or all of them when there are fewer. */
  function Head(rows: seq<Listing>): (h: seq<Listing>)
    ensures |h| <= HeadRows && |h| <= |rows|
    ensures |rows| >= HeadRows ==> |h| == HeadRows
    ensures |rows| < HeadRows ==> h == rows
    ensures h == rows[..|h|]
  {
    if |rows| <= HeadRows then rows else rows[..HeadRows]
  }

  predicate IsEquity(row: Listing)
  {
    row.series == EquitySeries
  }

  /** `df[df['SERIES'] == 'EQ']` over the first 100 rows. */
  function EquityRows(rows: seq<Listing>): seq<Listing>
  {
    Filter(Head(rows), IsEquity)
  }

  /** Only EQ rows among the first 100 survive, all of them, each as often as it occurs
      there, in their original order. */
  lemma EquityRowsSelection(rows: seq<Listing>)
    ensures |EquityRows(rows)| <= HeadRows
    ensures forall r :: r in EquityRows(rows) ==> r in Head(rows) && r.series == EquitySeries
    ensures forall k :: 0 <= k < |Head(rows)| && rows[k].series == EquitySeries ==>
      rows[k] in EquityRows(rows)
    ensures forall r :: multiset(EquityRows(rows))[r] ==
                (if r.series == EquitySeries then multiset(Head(rows))[r] else 0)
    ensures IsSubsequence(EquityRows(rows), Head(rows))
  {
    FilterIsSubsequence(Head(rows), IsEquity);
    FilterMultiset(Head(rows), IsEquity);
  }

  /** The loop that fetches a close and a volume per EQ row, appending one entry per row to
      each list, so that entry k of both lists belongs to EQ row k. */
  method FetchQuotes(eq: seq<Listing>, quote: string -> Quote)
    returns (closes: seq<Option<real>>, volumes: seq<Option<real>>)
    ensures |closes| == |eq| && |volumes| == |eq|
    ensures forall k :: 0 <= k < |eq| ==>
      closes[k] == quote(eq[k].symbol).close && volumes[k] == quote(eq[k].symbol).volume
  {
    closes, volumes := [], [];
    for idx := 0 to |eq|
      invariant |closes| == idx && |volumes| == idx
      invariant forall k :: 0 <= k < idx ==>
        closes[k] == quote(eq[k].symbol).close && volumes[k] == quote(eq[k].symbol).volume
    {
      var q := quote(eq[idx].symbol);
      closes := closes + [q.close];
      volumes := volumes + [q.volume];
    }
  }

  /** The close fetched for each EQ row, in order. */
  function FetchedCloses(eq: seq<Listing>, quote: string -> Quote): seq<Option<real>>
  {
    seq(|eq|, k requires 0 <= k < |eq| => quote(eq[k].symbol).close)
  }

  /** The volume fetched for each EQ row, in order. */
  function FetchedVolumes(eq: seq<Listing>, quote: string -> Quote): seq<Option<real>>
  {
    seq(|eq|, k requires 0 <= k < |eq| => quote(eq[k].symbol).volume)
  }

  /** `eq_df['Close_Price'] = close_prices; eq_df['Volume'] = volumes`: positional join. */
  function Attach(eq: seq<Listing>, closes: seq<Option<real>>, volumes: seq<Option<real>>)
    : (q: seq<Quoted>)
    requires |closes| == |eq| && |volumes| == |eq|
    ensures |q| == |eq|
    ensures forall k :: 0 <= k < |eq| ==> q[k] == Quoted(eq[k], closes[k], volumes[k])
  {
    seq(|eq|, k requires 0 <= k < |eq| => Quoted(eq[k], closes[k], volumes[k]))
  }

  predicate HasQuote(q: Quoted)
  {
    q.close.Some? && q.volume.Some?
  }

  predicate AboveThresholds(q: Quoted)
  {
    q.close.Some? && q.volume.Some? && q.close.value > MinClose && q.volume.value > MinVolume
  }

  /** `dropna(subset=['Close_Price', 'Volume'])`. */
  function DropMissing(q: seq<Quoted>): seq<Quoted>
  {
    Filter(q, HasQuote)
  }

  /** `eq_df[(Close_Price > 60) & (Volume > 60000)]`. */
  function KeepLiquid(q: seq<Quoted>): seq<Quoted>
  {
    Filter(q, AboveThresholds)
  }

  /** The rows that reach the status table, before they are annotated. */
  function Candidates(rows: seq<Listing>, quote: string -> Quote): seq<Quoted>
  {
    KeepLiquid(DropMissing(QuotedRows(EquityRows(rows), quote)))
  }

  /** An EQ row with its own fetched close and volume attached. */
  function QuoteRow(l: Listing, quote: string -> Quote): Quoted
  {
    Quoted(l, quote(l.symbol).close, quote(l.symbol).volume)
  }

  /** The EQ rows with their fetched quotes attached, before any row is dropped. */
  function QuotedRows(eq: seq<Listing>, quote: string -> Quote): seq<Quoted>
  {
    Attach(eq, FetchedCloses(eq, quote), FetchedVolumes(eq, quote))
  }

  /** Attaching the quotes neither merges nor duplicates rows: in a list whose row k is EQ
      row k with its own quote, a quoted row occurs as often as its listing occurs among the
      EQ rows, provided it carries that listing's own quote. */
  lemma {:induction false} QuotedRowCount(eq: seq<Listing>, q: seq<Quoted>, quote: string -> Quote,
                                          c: Quoted)
    requires |q| == |eq| && forall k :: 0 <= k < |q| ==> q[k] == QuoteRow(eq[k], quote)
    ensures multiset(q)[c] ==
              (if c == QuoteRow(c.listing, quote) then multiset(eq)[c.listing] else 0)
    decreases |eq|
  {
    if eq != [] {
      QuotedRowCount(eq[1..], q[1..], quote, c);
      assert q == [q[0]] + q[1..];
      CountCons(q[0], q[1..], c);
      assert eq == [eq[0]] + eq[1..];
      CountCons(eq[0], eq[1..], c.listing);
      if c == QuoteRow(c.listing, quote) {
        assert q[0] == c <==> eq[0] == c.listing;
      } else {
        assert q[0] != c;
      }
    }
  }

  function ListingsOf(q: seq<Quoted>): (l: seq<Listing>)
    ensures |l| == |q| && forall k :: 0 <= k < |q| ==> l[k] == q[k].listing
  {
    seq(|q|, k requires 0 <= k < |q| => q[k].listing)
  }

  /** A subsequence of quoted rows has a subsequence of their listings. */
  lemma {:induction false} ListingsOfSubsequence(r: seq<Quoted>, s: seq<Quoted>)
    requires IsSubsequence(r, s)
    ensures IsSubsequence(ListingsOf(r), ListingsOf(s))
    decreases |s|
  {
    if r != [] {
      assert s != [];
      assert ListingsOf(s)[1..] == ListingsOf(s[1..]);
      if r[0] == s[0] && IsSubsequence(r[1..], s[1..]) {
        ListingsOfSubsequence(r[1..], s[1..]);
        assert ListingsOf(r)[1..] == ListingsOf(r[1..]);
      } else {
        ListingsOfSubsequence(r, s[1..]);
      }
    }
  }

  /** Every candidate is an EQ row of the first 100 with its own fetched close above 60 and
      volume above 60000; every such row is a candidate; and the candidates keep the
      listing's order. */
  lemma CandidatesSelection(rows: seq<Listing>, quote: string -> Quote)
    ensures forall c :: c in Candidates(rows, quote) ==>
      && c.listing in Head(rows) && c.listing.series == EquitySeries
      && c.close == quote(c.listing.symbol).close && c.volume == quote(c.listing.symbol).volume
      && c.close.Some? && c.close.value > MinClose
      && c.volume.Some? && c.volume.value > MinVolume
    ensures forall k :: 0 <= k < |Head(rows)| && rows[k].series == EquitySeries ==>
      var q := quote(rows[k].symbol);
      q.close.Some? && q.close.value > MinClose && q.volume.Some? && q.volume.value > MinVolume
      ==> Quoted(rows[k], q.close, q.volume) in Candidates(rows, quote)
    ensures IsSubsequence(ListingsOf(Candidates(rows, quote)), Head(rows))
  {
    var eq := EquityRows(rows);
    EquityRowsSelection(rows);
    var attached := QuotedRows(eq, quote);
    var dropped := DropMissing(attached);
    var cands := KeepLiquid(dropped);
    assert cands == Candidates(rows, quote);
    forall k | 0 <= k < |Head(rows)| && rows[k].series == EquitySeries
      ensures
        var q := quote(rows[k].symbol);
        q.close.Some? && q.close.value > MinClose && q.volume.Some? && q.volume.value > MinVolume
        ==> Quoted(rows[k], q.close, q.volume) in cands
    {
      var q := quote(rows[k].symbol);
      assert Head(rows)[k] == rows[k];
      var j :| 0 <= j < |eq| && eq[j] == rows[k];
      assert attached[j] == Quoted(rows[k], q.close, q.volume);
    }
    FilterIsSubsequence(attached, HasQuote);
    FilterIsSubsequence(dropped, AboveThresholds);
    SubsequenceTransitive(cands, dropped, attached);
    ListingsOfSubsequence(cands, attached);
    assert ListingsOf(attached) == eq;
    SubsequenceTransitive(ListingsOf(cands), eq, Head(rows));
  }

  /** A candidate occurs exactly as often as its listing occurs among the EQ rows of the first
      100, when it carries that listing's own quote and passes both thresholds; any other
      quoted row does not occur. So duplicated listing rows stay duplicated. */
  lemma CandidatesMultiplicity(rows: seq<Listing>, quote: string -> Quote)
    ensures forall c :: multiset(Candidates(rows, quote))[c] ==
                (if c == QuoteRow(c.listing, quote) && AboveThresholds(c)
                 then multiset(EquityRows(rows))[c.listing] else 0)
  {
    var attached := QuotedRows(EquityRows(rows), quote);
    var dropped := DropMissing(attached);
    FilterMultiset(attached, HasQuote);
    FilterMultiset(dropped, AboveThresholds);
    forall c {
      QuotedRowCount(EquityRows(rows), attached, quote, c);
    }
  }

  // ---------------------------------------------------------------------------------------
  // Annotation and status
  // ---------------------------------------------------------------------------------------

  /** The Status lambda: inside the band from -10 to -2, both ends included, is worth a look;
      anything else, a missing value included, waits. */
  function StatusOf(percentage: Option<real>): (s: string)
    ensures s == NeedToLook <==> percentage.Some? && BandLow <= percentage.value <= BandHigh
    ensures s != NeedToLook ==> s == WaitStatus
  {
    if percentage.Some? && BandLow <= percentage.value && percentage.value <= BandHigh
    then NeedToLook else WaitStatus
  }

  /** One row of the status table. Close and Volume are rounded (`round`, for `.round(3)`)
      after the threshold filter and before the difference is taken; Difference is
      High - Close, Percentage_Difference is Difference / High * 100 taken before
      Difference is rounded, and both are then rounded. A missing High leaves both missing;
      so does a High of zero for the percentage, a division the model does not carry out. */
  function Annotate(q: Quoted, round: real -> real): (r: Screened)
    requires HasQuote(q)
    ensures r.listing == q.listing
    ensures r.close == round(q.close.value) && r.volume == round(q.volume.value)
    ensures r.difference.Some? <==> q.listing.adjHigh.Some?
    ensures r.difference.Some? ==>
      r.difference.value == round(q.listing.adjHigh.value - r.close)
    ensures r.percentage.Some? <==> q.listing.adjHigh.Some? && q.listing.adjHigh.value != 0.0
    ensures r.percentage.Some? ==>
      var high := q.listing.adjHigh.value;
      r.percentage.value == round((high - r.close) / high * 100.0)
    ensures r.status == NeedToLook <==>
      r.percentage.Some? && BandLow <= r.percentage.value <= BandHigh
    ensures r.status != NeedToLook ==> r.status == WaitStatus
    ensures q.listing.adjHigh.None? ==> r.status == WaitStatus
  {
    var close := round(q.close.value);
    var high := q.listing.adjHigh;
    var difference := MapOption(high, (h: real) => h - close);
    var percentage :=
      if high.Some? && high.value != 0.0 then Some(difference.value / high.value * 100.0)
      else None;
    var pct := MapOption(percentage, round);
    Screened(q.listing, close, round(q.volume.value), MapOption(difference, round), pct,
             StatusOf(pct))
  }

  /** The column assignments, row by row. */
  function AnnotateAll(q: seq<Quoted>, round: real -> real): (r: seq<Screened>)
    requires forall k :: 0 <= k < |q| ==> HasQuote(q[k])
    ensures |r| == |q| && forall k :: 0 <= k < |q| ==> r[k] == Annotate(q[k], round)
  {
    seq(|q|, k requires 0 <= k < |q| && HasQuote(q[k]) => Annotate(q[k], round))
  }

  predicate IsNeedToLook(r: Screened)
  {
    r.status == NeedToLook
  }

  /** `filtered_df[filtered_df['Status'] == "NEED TO LOOK"]`. */
  function NeedToLookRows(table: seq<Screened>): seq<Screened>
  {
    Filter(table, IsNeedToLook)
  }

  /** The NEED TO LOOK table is exactly the status table's NEED TO LOOK rows, each as often
      as it occurs there, in order. */
  lemma NeedToLookSelection(table: seq<Screened>)
    ensures forall r :: r in NeedToLookRows(table) ==> r in table && r.status == NeedToLook
    ensures forall k :: 0 <= k < |table| && table[k].status == NeedToLook ==>
      table[k] in NeedToLookRows(table)
    ensures forall r :: multiset(NeedToLookRows(table))[r] ==
                (if r.status == NeedToLook then multiset(table)[r] else 0)
    ensures IsSubsequence(NeedToLookRows(table), table)
  {
    FilterIsSubsequence(table, IsNeedToLook);
    FilterMultiset(table, IsNeedToLook);
  }

  /** The screener script between the CSV read of the stripped text and the two file writes:
      the status table and its NEED TO LOOK part. */
  method RunScreener(rows: seq<Listing>, quote: string -> Quote, round: real -> real)
    returns (statusTable: seq<Screened>, needToLook: seq<Screened>)
    ensures |statusTable| == |Candidates(rows, quote)|
    ensures forall k :: 0 <= k < |statusTable| ==>
      statusTable[k] == Annotate(Candidates(rows, quote)[k], round)
    ensures needToLook == NeedToLookRows(statusTable)
    ensures forall r :: r in needToLook ==>
      r.percentage.Some? && BandLow <= r.percentage.value <= BandHigh
  {
    var eqRows := EquityRows(rows);
    var closes, volumes := FetchQuotes(eqRows, quote);
    assert closes == FetchedCloses(eqRows, quote);
    assert volumes == FetchedVolumes(eqRows, quote);
    var frame := Attach(eqRows, closes, volumes);
    frame := DropMissing(frame);
    frame := KeepLiquid(frame);
    assert frame == Candidates(rows, quote);
    statusTable := AnnotateAll(frame, round);
    needToLook := NeedToLookRows(statusTable);
    forall r | r in needToLook
      ensures r.percentage.Some? && BandLow <= r.percentage.value <= BandHigh
    {
      var k :| 0 <= k < |statusTable| && statusTable[k] == r;
    }
  }
}
