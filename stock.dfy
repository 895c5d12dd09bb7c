/**
 * `generateFeedback` and `getStockAnalysis`: a rule table that sorts each of nine
 * fundamental ratios into one of three bands, picks the sentence of that band, adds a fixed
 * sentence for the book value, and joins nine of the ten sentences into a summary.
 *
 * How a number is printed inside a sentence (`${x}`, JavaScript's Number-to-String) and
 * `x.toFixed(2)` are left to two caller-supplied functions, `show` and `fixed`.
 */
module FeedbackEngine {
  import opened Wrappers
  import opened Sums
  import opened JsObject

  /** `stockData.parameters` */
  datatype Parameters = Parameters(
    priceEarningsRatio: real,
    earningsPerShare: real,
    dividendYield: real,
    marketCap: real,
    debtToEquityRatio: real,
    returnOnEquity: real,
    returnOnAssets: real,
    currentRatio: real,
    quickRatio: real,
    bookValuePerShare: real)

  /** An entry of `StockTickerSymbols.json`. */
  datatype Stock = Stock(stockSymbol: string, parameters: Parameters)

  /** Which of a rule's three sentences applies: the band of small, middle or large values. */
  datatype Band = Low | Middle | High

  function Rank(b: Band): nat
  {
    match b
    case Low => 0
    case Middle => 1
    case High => 2
  }

  // ---------------------------------------------------------------- the three rule shapes

  /** `if (x < low) … else if (x <= high) … else …`: the middle band holds both its ends. */
  function Closed(x: real, low: real, high: real): (b: Band)
    requires low <= high
    ensures b == Low <==> x < low
    ensures b == Middle <==> low <= x <= high
    ensures b == High <==> high < x
  {
    if x < low then Low else if x <= high then Middle else High
  }

  /** `if (x < low) … else if (x < high) … else …`: the middle band holds its lower end only. */
  function HalfOpen(x: real, low: real, high: real): (b: Band)
    requires low <= high
    ensures b == Low <==> x < low
    ensures b == Middle <==> low <= x < high
    ensures b == High <==> high <= x
  {
    if x < low then Low else if x < high then Middle else High
  }

  /** `if (x >= high) … else if (x >= low) … else …`: tested from the top down. */
  function FromTop(x: real, low: real, high: real): (b: Band)
    requires low <= high
    ensures b == Low <==> x < low
    ensures b == Middle <==> low <= x < high
    ensures b == High <==> high <= x
  {
    if x >= high then High else if x >= low then Middle else Low
  }

  /** No rule puts a larger value in a lower band. */
  lemma BandsMonotone(x: real, y: real, low: real, high: real)
    requires low <= high && x <= y
    ensures Rank(Closed(x, low, high)) <= Rank(Closed(y, low, high))
    ensures Rank(HalfOpen(x, low, high)) <= Rank(HalfOpen(y, low, high))
    ensures Rank(FromTop(x, low, high)) <= Rank(FromTop(y, low, high))
  {
  }

  // ---------------------------------------------------------------- the nine rules

  const Trillion: real := 1_000_000_000_000.0

  function PeBand(pe: real): Band { Closed(pe, 15.0, 30.0) }
  function EpsBand(eps: real): Band { HalfOpen(eps, 1.0, 5.0) }
  function DividendBand(div: real): Band { Closed(div, 1.0, 3.0) }
  function MarketCapBand(mc: real): Band { FromTop(mc, 100.0 * Trillion, 500.0 * Trillion) }
  function DebtBand(de: real): Band { Closed(de, 0.5, 1.5) }
  /** ROE and ROA are compared as percentages. */
  function RoeBand(roe: real): Band { Closed(roe * 100.0, 8.0, 15.0) }
  function RoaBand(roa: real): Band { Closed(roa * 100.0, 5.0, 10.0) }
  function LiquidityBand(ratio: real): Band { Closed(ratio, 1.0, 2.0) }

  /** Which band each threshold itself falls in, and a few values on either side. */
  lemma Boundaries()
    ensures PeBand(15.0) == Middle && PeBand(30.0) == Middle
    ensures EpsBand(1.0) == Middle && EpsBand(5.0) == High
    ensures DividendBand(1.0) == Middle && DividendBand(3.0) == Middle
    ensures MarketCapBand(500.0 * Trillion) == High && MarketCapBand(100.0 * Trillion) == Middle
    ensures DebtBand(0.5) == Middle && DebtBand(1.5) == Middle
    ensures RoeBand(0.08) == Middle && RoeBand(0.15) == Middle
    ensures RoaBand(0.05) == Middle && RoaBand(0.10) == Middle
    ensures LiquidityBand(1.0) == Middle && LiquidityBand(2.0) == Middle
    ensures PeBand(10.0) == Low && PeBand(20.0) == Middle && PeBand(35.0) == High && PeBand(30.01) == High
    ensures MarketCapBand(600.0 * Trillion) == High && 600.0 * Trillion / Trillion == 600.0
  {
  }

  /** ROE and ROA are read as fractions: a return of r lands where 100 * r does. */
  lemma ReturnBands(roe: real, roa: real)
    ensures RoeBand(roe) == Low <==> roe < 0.08
    ensures RoeBand(roe) == High <==> roe > 0.15
    ensures RoaBand(roa) == Low <==> roa < 0.05
    ensures RoaBand(roa) == High <==> roa > 0.10
  {
  }

  // ---------------------------------------------------------------- sentences

  /**
   * A feedback sentence: the fixed words before the value, the value as printed, and the
   * fixed words after it. The string sent for a key is `Text` of its sentence.
   */
  datatype Sentence = Sentence(lead: string, shown: string, tail: string)

  function Text(s: Sentence): string
  {
    s.lead + s.shown + s.tail
  }

  function Pick(b: Band, low: string, middle: string, high: string): string
  {
    match b
    case Low => low
    case Middle => middle
    case High => high
  }

  // ---------------------------------------------------------------- the wording

  /** A rule's fixed words: what comes before the value, and the closing phrase of each band. */
  datatype Phrases = Phrases(lead: string, low: string, middle: string, high: string)

  /**
   * Every fixed word of `generateFeedback`. The market cap rule opens its Low band sentence
   * with a lead of its own; the book value sentence has no bands.
   */
  datatype Wording = Wording(
    pe: Phrases,
    eps: Phrases,
    dividend: Phrases,
    marketCap: Phrases,
    marketCapLowLead: string,
    debt: Phrases,
    roe: Phrases,
    roa: Phrases,
    current: Phrases,
    quick: Phrases,
    bookValueLead: string,
    bookValueTail: string)

  /**
   * The words as `stockController.js` writes them. The "giants" phrase keeps the characters
   * the source text holds where an apostrophe was meant ("worldâ€™s").
   */
  const SourceWording: Wording := Wording(
    Phrases("The P/E ratio of ",
      " suggests the stock is cheap relative to earnings.",
      " is fairly typical.",
      " indicates the stock is relatively expensive compared to its earnings."),
    Phrases("The EPS of ",
      " is low; profitability may be a concern.",
      " shows modest profitability.",
      " is a strong indicator of the company's profitability."),
    Phrases("The dividend yield of ",
      "% is lower than the market average.",
      "% is around the market norm.",
      "% is attractive for income focused investors."),
    Phrases("The market cap of $",
      " trillion indicates a sizable player.",
      " trillion indicates a very large, stable company.",
      " trillion makes it one of the world\U{E2}\U{20AC}\U{2122}s giants."),
    "The market capitalization of $",
    Phrases("The debt to equity ratio of ",
      " suggests very little leverage.",
      " suggests a moderate level of leverage.",
      " indicates high leverage; watch for risk."),
    Phrases("The ROE of ",
      "% is below average.",
      "% is healthy.",
      "% is very strong, showing efficient profit generation."),
    Phrases("The ROA of ",
      "% is modest.",
      "% indicates efficient asset utilization.",
      "% is excellent, showing superb asset productivity."),
    Phrases("The current ratio of ",
      " signals potential short term liquidity issues.",
      " suggests the company has a good short term liquidity position.",
      " indicates a very comfortable liquidity cushion."),
    Phrases("The quick ratio of ",
      " may be insufficient for immediate obligations.",
      " indicates a strong ability to meet short term obligations.",
      " shows an exceptionally strong liquidity position."),
    "The book value per share of ",
    " is a measure of the company's net asset value on a per share basis.")

  predicate ThreePhrases(ph: Phrases)
  {
    ph.low != ph.middle && ph.low != ph.high && ph.middle != ph.high
  }

  /** Each band of each rule has its own words, so a sentence tells which band it came from. */
  predicate Telling(w: Wording)
  {
    ThreePhrases(w.pe) && ThreePhrases(w.eps) && ThreePhrases(w.dividend) &&
    ThreePhrases(w.marketCap) && w.marketCapLowLead != w.marketCap.lead &&
    ThreePhrases(w.debt) && ThreePhrases(w.roe) && ThreePhrases(w.roa) &&
    ThreePhrases(w.current) && ThreePhrases(w.quick)
  }

  lemma SourceWordingTelling()
    ensures Telling(SourceWording)
  {
  }

  /** The sentence of a rule: its lead, the value as printed, and the phrase of its band. */
  function Rated(ph: Phrases, b: Band, shown: string): Sentence
  {
    Sentence(ph.lead, shown, Pick(b, ph.low, ph.middle, ph.high))
  }

  /** With three different phrases, the closing phrase names the band, in both directions. */
  lemma RatedTail(ph: Phrases, b: Band, shown: string)
    requires ThreePhrases(ph)
    ensures Rated(ph, b, shown).lead == ph.lead && Rated(ph, b, shown).shown == shown
    ensures Rated(ph, b, shown).tail == ph.low <==> b == Low
    ensures Rated(ph, b, shown).tail == ph.middle <==> b == Middle
    ensures Rated(ph, b, shown).tail == ph.high <==> b == High
  {
  }

  // ---------------------------------------------------------------- the feedback object

  /** The `feedback` object, one field per key. */
  datatype Feedback = Feedback(
    priceEarningsRatio: Sentence,
    earningsPerShare: Sentence,
    dividendYield: Sentence,
    marketCap: Sentence,
    debtToEquityRatio: Sentence,
    returnOnEquity: Sentence,
    returnOnAssets: Sentence,
    currentRatio: Sentence,
    quickRatio: Sentence,
    bookValuePerShare: Sentence)

  /** The keys of `feedback` in the order they are assigned, which is the order they are sent in. */
  const FeedbackKeys: seq<string> := [
    "priceEarningsRatio", "earningsPerShare", "dividendYield", "marketCap",
    "debtToEquityRatio", "returnOnEquity", "returnOnAssets", "currentRatio",
    "quickRatio", "bookValuePerShare"]

  /** The fields in key order. */
  function Fields(f: Feedback): seq<Sentence>
  {
    [f.priceEarningsRatio, f.earningsPerShare, f.dividendYield, f.marketCap,
     f.debtToEquityRatio, f.returnOnEquity, f.returnOnAssets, f.currentRatio,
     f.quickRatio, f.bookValuePerShare]
  }

  /** `Object.entries(feedback)`: each key beside the string it holds. */
  function Entries(f: Feedback): seq<(string, string)>
  {
    var fields := Fields(f);
    seq(10, i requires 0 <= i < 10 => (FeedbackKeys[i], Text(fields[i])))
  }

  /** The ten sentences for one stock's parameters. */
  function FeedbackOf(p: Parameters, w: Wording, show: real -> string, fixed: real -> string): Feedback
  {
    var mc := MarketCapBand(p.marketCap);
    Feedback(
      Rated(w.pe, PeBand(p.priceEarningsRatio), show(p.priceEarningsRatio)),
      Rated(w.eps, EpsBand(p.earningsPerShare), show(p.earningsPerShare)),
      Rated(w.dividend, DividendBand(p.dividendYield), show(p.dividendYield)),
      Rated(w.marketCap.(lead := if mc == Low then w.marketCapLowLead else w.marketCap.lead),
        mc, fixed(p.marketCap / Trillion)),
      Rated(w.debt, DebtBand(p.debtToEquityRatio), show(p.debtToEquityRatio)),
      Rated(w.roe, RoeBand(p.returnOnEquity), show(p.returnOnEquity * 100.0)),
      Rated(w.roa, RoaBand(p.returnOnAssets), show(p.returnOnAssets * 100.0)),
      Rated(w.current, LiquidityBand(p.currentRatio), show(p.currentRatio)),
      Rated(w.quick, LiquidityBand(p.quickRatio), show(p.quickRatio)),
      Sentence(w.bookValueLead, show(p.bookValuePerShare), w.bookValueTail))
  }

  /** The summary's sentences: every one but the book value, in the order the array is written. */
  function SummaryParts(f: Feedback): seq<Sentence>
  {
    [f.priceEarningsRatio, f.earningsPerShare, f.returnOnEquity, f.returnOnAssets,
     f.currentRatio, f.quickRatio, f.debtToEquityRatio, f.dividendYield, f.marketCap]
  }

  function Texts(s: seq<Sentence>): (r: seq<string>)
    ensures |r| == |s|
  {
    seq(|s|, i requires 0 <= i < |s| => Text(s[i]))
  }

  /** `summaryParts.join(' ')` */
  function SummaryText(f: Feedback): string
  {
    Join(Texts(SummaryParts(f)), " ")
  }

  /** The value `generateFeedback` returns. */
  datatype Report = Report(feedback: Feedback, summary: string)

  function GenerateFeedback(p: Parameters, show: real -> string, fixed: real -> string): Report
  {
    var f := FeedbackOf(p, SourceWording, show, fixed);
    Report(f, SummaryText(f))
  }

  /**
   * Which sentence each rule picks: the band's phrase appears exactly when the ratio lies in
   * that band's range (ROE and ROA compared as percentages), and the market cap sentence opens
   * with its own lead exactly below 100 trillion.
   */
  lemma RuleTable(p: Parameters, w: Wording, show: real -> string, fixed: real -> string)
    requires Telling(w)
    ensures var f := FeedbackOf(p, w, show, fixed); var pe := p.priceEarningsRatio;
      (f.priceEarningsRatio.tail == w.pe.low <==> pe < 15.0) &&
      (f.priceEarningsRatio.tail == w.pe.middle <==> 15.0 <= pe <= 30.0) &&
      (f.priceEarningsRatio.tail == w.pe.high <==> 30.0 < pe)
    ensures var f := FeedbackOf(p, w, show, fixed); var eps := p.earningsPerShare;
      (f.earningsPerShare.tail == w.eps.low <==> eps < 1.0) &&
      (f.earningsPerShare.tail == w.eps.middle <==> 1.0 <= eps < 5.0) &&
      (f.earningsPerShare.tail == w.eps.high <==> 5.0 <= eps)
    ensures var f := FeedbackOf(p, w, show, fixed); var div := p.dividendYield;
      (f.dividendYield.tail == w.dividend.low <==> div < 1.0) &&
      (f.dividendYield.tail == w.dividend.middle <==> 1.0 <= div <= 3.0) &&
      (f.dividendYield.tail == w.dividend.high <==> 3.0 < div)
    ensures var f := FeedbackOf(p, w, show, fixed); var mc := p.marketCap;
      (f.marketCap.tail == w.marketCap.low <==> mc < 100.0 * Trillion) &&
      (f.marketCap.tail == w.marketCap.middle <==> 100.0 * Trillion <= mc < 500.0 * Trillion) &&
      (f.marketCap.tail == w.marketCap.high <==> 500.0 * Trillion <= mc) &&
      (f.marketCap.lead == w.marketCapLowLead <==> mc < 100.0 * Trillion)
    ensures var f := FeedbackOf(p, w, show, fixed); var de := p.debtToEquityRatio;
      (f.debtToEquityRatio.tail == w.debt.low <==> de < 0.5) &&
      (f.debtToEquityRatio.tail == w.debt.middle <==> 0.5 <= de <= 1.5) &&
      (f.debtToEquityRatio.tail == w.debt.high <==> 1.5 < de)
    ensures var f := FeedbackOf(p, w, show, fixed); var roe := p.returnOnEquity * 100.0;
      (f.returnOnEquity.tail == w.roe.low <==> roe < 8.0) &&
      (f.returnOnEquity.tail == w.roe.middle <==> 8.0 <= roe <= 15.0) &&
      (f.returnOnEquity.tail == w.roe.high <==> 15.0 < roe)
    ensures var f := FeedbackOf(p, w, show, fixed); var roa := p.returnOnAssets * 100.0;
      (f.returnOnAssets.tail == w.roa.low <==> roa < 5.0) &&
      (f.returnOnAssets.tail == w.roa.middle <==> 5.0 <= roa <= 10.0) &&
      (f.returnOnAssets.tail == w.roa.high <==> 10.0 < roa)
    ensures var f := FeedbackOf(p, w, show, fixed); var cr := p.currentRatio;
      (f.currentRatio.tail == w.current.low <==> cr < 1.0) &&
      (f.currentRatio.tail == w.current.middle <==> 1.0 <= cr <= 2.0) &&
      (f.currentRatio.tail == w.current.high <==> 2.0 < cr)
    ensures var f := FeedbackOf(p, w, show, fixed); var qr := p.quickRatio;
      (f.quickRatio.tail == w.quick.low <==> qr < 1.0) &&
      (f.quickRatio.tail == w.quick.middle <==> 1.0 <= qr <= 2.0) &&
      (f.quickRatio.tail == w.quick.high <==> 2.0 < qr)
  {
    var mc := MarketCapBand(p.marketCap);
    RatedTail(w.pe, PeBand(p.priceEarningsRatio), show(p.priceEarningsRatio));
    RatedTail(w.eps, EpsBand(p.earningsPerShare), show(p.earningsPerShare));
    RatedTail(w.dividend, DividendBand(p.dividendYield), show(p.dividendYield));
    RatedTail(w.marketCap.(lead := if mc == Low then w.marketCapLowLead else w.marketCap.lead),
      mc, fixed(p.marketCap / Trillion));
    RatedTail(w.debt, DebtBand(p.debtToEquityRatio), show(p.debtToEquityRatio));
    RatedTail(w.roe, RoeBand(p.returnOnEquity), show(p.returnOnEquity * 100.0));
    RatedTail(w.roa, RoaBand(p.returnOnAssets), show(p.returnOnAssets * 100.0));
    RatedTail(w.current, LiquidityBand(p.currentRatio), show(p.currentRatio));
    RatedTail(w.quick, LiquidityBand(p.quickRatio), show(p.quickRatio));
  }

  /**
   * What each sentence prints: the ratio itself, ROE and ROA times 100, the market cap in
   * trillions through `fixed`; the book value sentence is its lead, the value and its tail.
   */
  lemma ShownValues(p: Parameters, w: Wording, show: real -> string, fixed: real -> string)
    ensures var f := FeedbackOf(p, w, show, fixed);
      f.priceEarningsRatio.shown == show(p.priceEarningsRatio) &&
      f.earningsPerShare.shown == show(p.earningsPerShare) &&
      f.dividendYield.shown == show(p.dividendYield) &&
      f.marketCap.shown == fixed(p.marketCap / Trillion) &&
      f.debtToEquityRatio.shown == show(p.debtToEquityRatio) &&
      f.returnOnEquity.shown == show(p.returnOnEquity * 100.0) &&
      f.returnOnAssets.shown == show(p.returnOnAssets * 100.0) &&
      f.currentRatio.shown == show(p.currentRatio) &&
      f.quickRatio.shown == show(p.quickRatio)
    ensures var f := FeedbackOf(p, w, show, fixed);
      Text(f.bookValuePerShare) == w.bookValueLead + show(p.bookValuePerShare) + w.bookValueTail
  {
  }

  /** The feedback object has ten keys, in assignment order, each holding its own sentence. */
  lemma TenKeys(f: Feedback)
    ensures |Entries(f)| == 10
    ensures forall i :: 0 <= i < 10 ==> Entries(f)[i].0 == FeedbackKeys[i]
    ensures Entries(f)[0].1 == Text(f.priceEarningsRatio)
    ensures Entries(f)[1].1 == Text(f.earningsPerShare)
    ensures Entries(f)[2].1 == Text(f.dividendYield)
    ensures Entries(f)[3].1 == Text(f.marketCap)
    ensures Entries(f)[4].1 == Text(f.debtToEquityRatio)
    ensures Entries(f)[5].1 == Text(f.returnOnEquity)
    ensures Entries(f)[6].1 == Text(f.returnOnAssets)
    ensures Entries(f)[7].1 == Text(f.currentRatio)
    ensures Entries(f)[8].1 == Text(f.quickRatio)
    ensures Entries(f)[9].1 == Text(f.bookValuePerShare)
  {
  }

  /** No key is assigned twice: the ten names differ (already in their first and ninth letters). */
  lemma FeedbackKeysDistinct()
    ensures Distinct(FeedbackKeys)
  {
    var k := FeedbackKeys;
    var marks := seq(10, i requires 0 <= i < 10 => (k[i][0], k[i][8]));
    assert marks == [('p', 'n'), ('e', 'P'), ('d', 'Y'), ('m', 'p'), ('d', 'u'),
                     ('r', 'E'), ('r', 'A'), ('c', 'a'), ('q', 'i'), ('b', 'e')];
    forall i, j | 0 <= i < j < 10
      ensures k[i] != k[j]
    {
      assert marks[i] != marks[j];
    }
  }

  /**
   * The summary is the nine rule sentences with one space between neighbours, in the order
   * P/E, EPS, ROE, ROA, current, quick, debt to equity, dividend, market cap.
   */
  lemma SummaryLayout(f: Feedback)
    ensures SummaryText(f) ==
      Text(f.priceEarningsRatio) + " " + Text(f.earningsPerShare) + " " +
      Text(f.returnOnEquity) + " " + Text(f.returnOnAssets) + " " +
      Text(f.currentRatio) + " " + Text(f.quickRatio) + " " +
      Text(f.debtToEquityRatio) + " " + Text(f.dividendYield) + " " + Text(f.marketCap)
  {
    var t := Texts(SummaryParts(f));
    JoinUnrolled(t, " ");
  }

  /** Nine parts joined: the parts with one separator between neighbours. */
  lemma JoinUnrolled(parts: seq<string>, sep: string)
    requires |parts| == 9
    ensures Join(parts, sep) ==
      parts[0] + sep + parts[1] + sep + parts[2] + sep + parts[3] + sep + parts[4] + sep +
      parts[5] + sep + parts[6] + sep + parts[7] + sep + parts[8]
  {
    var t := parts;
    assert Join(t[8..], sep) == t[8];
    assert Join(t[7..], sep) == t[7] + sep + t[8] by { assert t[7..][1..] == t[8..]; }
    assert Join(t[6..], sep) == t[6] + sep + Join(t[7..], sep) by { assert t[6..][1..] == t[7..]; }
    assert Join(t[5..], sep) == t[5] + sep + Join(t[6..], sep) by { assert t[5..][1..] == t[6..]; }
    assert Join(t[4..], sep) == t[4] + sep + Join(t[5..], sep) by { assert t[4..][1..] == t[5..]; }
    assert Join(t[3..], sep) == t[3] + sep + Join(t[4..], sep) by { assert t[3..][1..] == t[4..]; }
    assert Join(t[2..], sep) == t[2] + sep + Join(t[3..], sep) by { assert t[2..][1..] == t[3..]; }
    assert Join(t[1..], sep) == t[1] + sep + Join(t[2..], sep) by { assert t[1..][1..] == t[2..]; }
    assert Join(t, sep) == t[0] + sep + Join(t[1..], sep);
  }

  /**
   * What `generateFeedback` returns: the feedback built with the source's words, and a summary
   * of its nine rule sentences, P/E first and market cap last, one space apart.
   */
  lemma FeedbackReport(p: Parameters, show: real -> string, fixed: real -> string)
    ensures var r := GenerateFeedback(p, show, fixed); var f := r.feedback;
      f == FeedbackOf(p, SourceWording, show, fixed) &&
      r.summary ==
        Text(f.priceEarningsRatio) + " " + Text(f.earningsPerShare) + " " +
        Text(f.returnOnEquity) + " " + Text(f.returnOnAssets) + " " +
        Text(f.currentRatio) + " " + Text(f.quickRatio) + " " +
        Text(f.debtToEquityRatio) + " " + Text(f.dividendYield) + " " + Text(f.marketCap)
  {
    SummaryLayout(GenerateFeedback(p, show, fixed).feedback);
  }

  /** Changing the book value changes its own entry and leaves the summary as it was. */
  lemma SummaryIgnoresBookValue(f: Feedback, s: Sentence)
    ensures SummaryText(f.(bookValuePerShare := s)) == SummaryText(f)
    ensures Fields(f.(bookValuePerShare := s)) == Fields(f)[9 := s]
  {
    assert SummaryParts(f.(bookValuePerShare := s)) == SummaryParts(f);
  }

  // ---------------------------------------------------------------- the request

  /** `allStocksArray.find(s => s.stockSymbol === stockSymbol)`: the first stock with that symbol. */
  function FindStock(stocks: seq<Stock>, symbol: string): (r: Option<Stock>)
    decreases |stocks|
    ensures r.None? <==> forall i :: 0 <= i < |stocks| ==> stocks[i].stockSymbol != symbol
    ensures r.Some? ==> r.value.stockSymbol == symbol
    ensures r.Some? ==>
      exists i :: 0 <= i < |stocks| && stocks[i] == r.value && forall j :: 0 <= j < i ==> stocks[j].stockSymbol != symbol
  {
    if stocks == [] then None
    else if stocks[0].stockSymbol == symbol then Some(stocks[0])
    else
      var r := FindStock(stocks[1..], symbol);
      assert forall i :: 1 <= i < |stocks| ==> stocks[i] == stocks[1..][i - 1];
      r
  }

  /** The body of a successful reply. */
  datatype StockAnalysis = StockAnalysis(stockSymbol: string, feedback: Feedback, summary: string)

  /**
   * `getStockAnalysis`: an empty symbol is a bad request, an unknown one is not found, and
   * otherwise the reply echoes the requested symbol next to the feedback for the first stock
   * that carries it.
   */
  function GetStockAnalysis(stocks: seq<Stock>, stockSymbol: string, show: real -> string, fixed: real -> string)
    : (r: Outcome<StockAnalysis>)
    ensures r == BadRequest("stockSymbol is required") <==> stockSymbol == ""
    ensures r == NotFound("Stock not found") <==> stockSymbol != "" && FindStock(stocks, stockSymbol).None?
    ensures r.Ok? <==> stockSymbol != "" && FindStock(stocks, stockSymbol).Some?
    ensures r.Ok? ==> r.value.stockSymbol == stockSymbol
    ensures r.Ok? ==>
      var report := GenerateFeedback(FindStock(stocks, stockSymbol).value.parameters, show, fixed);
      r.value.feedback == report.feedback && r.value.summary == report.summary
  {
    if stockSymbol == "" then BadRequest("stockSymbol is required")
    else
      match FindStock(stocks, stockSymbol)
      case None => NotFound("Stock not found")
      case Some(stockData) =>
        var report := GenerateFeedback(stockData.parameters, show, fixed);
        Ok(StockAnalysis(stockSymbol, report.feedback, report.summary))
  }
}
