# Market analytics engines

This project models the three computations behind the backend of the NextGen market analyser and proves properties of them in Dafny:

- **Fund overlap** (`getOverlap`, `fundOverlap`). For one client it computes, for every pair of funds, how much of their holdings the two funds share. It then reports the mean of those percentages and a score of 100 minus that mean.
- **Sector diversification** (`getPortfolioAnalysis`). It adds up the client's funds and spreads each fund's sector split over the per-sector weights, in proportion to the fund's share. From those weights it shows percentages and a Herfindahl-Hirschman concentration score. A summary sentence names the two largest sectors.
- **Fundamental feedback** (`getStockAnalysis`, `generateFeedback`). Nine ratios of a stock each fall into one of three bands, and the band picks a sentence. The book value gets one fixed sentence. A summary joins nine of the ten sentences.

Layout:

| file | module | what it holds |
|---|---|---|
| `wrappers.dfy` | `Wrappers` | `Option`, and `Outcome`: the controllers' answers Ok, NotFound and BadRequest |
| `numeric.dfy` | `Numeric` | `Math.min`, and `+x.toFixed(2)` as exact rounding to hundredths |
| `sums.dfy` | `Sums` | sums over sequences, distinctness, deduplication in first-seen order |
| `jsobject.dfy` | `JsObject` | JavaScript objects as entry lists in insertion order; `Array.prototype.join` |
| `store.dfy` | `Store` | client records; the overlap controller's id index and the portfolio controller's `find` |
| `overlap.dfy` | `OverlapEngine` | `fundOverlap`, the pair loops of `getOverlap`, the average and the score |
| `portfolio.dfy` | `Diversification` | total value, the `sectorWeights` loops, percentages, HHI and score |
| `ranking.dfy` | `SectorRanking` | the stable sort, the top two sectors, the summary sentence |
| `analysis.dfy` | `PortfolioAnalysis` | the whole `getPortfolioAnalysis` reply |
| `stock.dfy` | `FeedbackEngine` | the rule table, the sentences, the summary, `getStockAnalysis` |

The code follows the source's own form:

- The loops of the overlap and portfolio controllers are methods with loop invariants. These are `fundOverlap`'s sum, the nested pair loops, the `forEach` loops that fill `sectorWeights` and `CLIENTS`, and the loop that fills `sectorDiversification` and `hhi`.
- Each method is proved equal to a specification function, and the properties are lemmas about that function.
- The stock controller has no loops, so it is modelled with functions and lemmas.

A JavaScript object is a sequence of `(key, value)` entries in insertion order:

- `d[k] || 0` reads the value bound to `k`, or 0 when `k` is missing.
- Assignment to an existing key keeps the key's place; a new key is appended.
- This order is what `Object.keys`, `Object.entries` and a `Set` built from keys report. The summary's tie-break depends on it.

Three behaviours of the code are easy to misread. The model follows the code in each:

- **Zero total value.** `getPortfolioAnalysis` divides each fund's amount by the total with no check that the total is non-zero (`BACKEND/controllers/portfolioController.js:19-24`). The model therefore requires a non-zero total whenever the client has funds.
- **Sector set.** The `sectorWeights` loop creates an entry for every sector a fund names, even one whose weight is 0 (`BACKEND/controllers/portfolioController.js:25-27`). `SectorKeysAreUnion` states this.
- **Overlap bound.** `fundOverlap` adds up `Math.min` over the union of the two funds' holdings (`BACKEND/controllers/overlapController.js:12-17`). That sum is at most the smaller of the two funds' weight sums, and so at most 1 only when one fund's weights add up to at most 1. `OverlapBounds` states the smaller-sum bound, and `ReportInRange` assumes such funds.

## Model

| member | source | states |
|---|---|---|
| `Store.IndexClients` | BACKEND/controllers/overlapController.js:5-6 | after the `forEach`, looking up any id in the index gives the last client with that id, or nothing when no client has it |
| `Store.ListedClientsResolve` | BACKEND/controllers/overlapController.js:21-31 | an id resolves in the index exactly when `getClients` lists it |
| `Numeric.Min` | BACKEND/controllers/overlapController.js:15 | the result is at most both arguments and equals one of them |
| `Numeric.Round2` | BACKEND/controllers/overlapController.js:43 | the rounded value is within 0.005 of the input and keeps its sign |
| `Numeric.RoundIsHundredths` | BACKEND/controllers/overlapController.js:43 | the rounded value is a whole number of hundredths |
| `Numeric.RoundNearest` | BACKEND/controllers/overlapController.js:43 | no whole number of hundredths is nearer to the input than its rounding |
| `Numeric.RoundMonotone` | BACKEND/controllers/overlapController.js:52 | rounding never reorders two values |
| `Numeric.RoundHundredths` | BACKEND/controllers/overlapController.js:57 | a value with at most two decimals is left unchanged by rounding |
| `Numeric.RoundPercentInRange` | BACKEND/controllers/overlapController.js:52 | a percentage in [0, 100] stays in [0, 100] after rounding |
| `Numeric.RoundComplement` | BACKEND/controllers/overlapController.js:52-57 | a value and 100 minus it, each rounded, add up to 100 within 0.01, and exactly to 100 when the value has two decimals |
| `OverlapEngine.FundOverlap` | BACKEND/controllers/overlapController.js:9-18 | the loop's sum equals the sum over the ticker union (each ticker once) of the smaller of the two weights, a missing ticker counting 0 |
| `OverlapEngine.OverlapSymmetric` | BACKEND/controllers/overlapController.js:9-18 | the overlap of A with B equals the overlap of B with A |
| `OverlapEngine.OverlapOfCommonTickers` | BACKEND/controllers/overlapController.js:15 | with non-negative weights, tickers missing from either fund add nothing: the overlap is the sum of minima over the common tickers only |
| `OverlapEngine.OverlapBounds` | BACKEND/controllers/overlapController.js:12-17 | with non-negative weights the overlap lies between 0 and the smaller of the two funds' weight sums |
| `OverlapEngine.SelfOverlap` | BACKEND/controllers/overlapController.js:12-17 | a fund overlaps itself by exactly its own weight sum |
| `OverlapEngine.OverlapRecord` | BACKEND/controllers/overlapController.js:39-44 | the record for the pair (i, j) carries the codes of funds i and j and their rounded overlap percentage |
| `OverlapEngine.PushPair` | BACKEND/controllers/overlapController.js:40-44 | one push extends the row's records by the record of (i, j) |
| `OverlapEngine.PushRow` | BACKEND/controllers/overlapController.js:38-45 | the inner loop appends the records of (i, i+1), …, (i, N-1), in that order, after what was there |
| `OverlapEngine.PairwiseOverlaps` | BACKEND/controllers/overlapController.js:35-46 | the nested loops produce exactly the records of the enumerated pairs, in visiting order |
| `OverlapEngine.PairCount` | BACKEND/controllers/overlapController.js:37-46 | N funds give N(N-1)/2 pairs |
| `OverlapEngine.PairsInOrder` | BACKEND/controllers/overlapController.js:37-46 | every pair has i < j < N, and pairs come in strictly increasing lexicographic order, so none is repeated or reversed |
| `OverlapEngine.PairsComplete` | BACKEND/controllers/overlapController.js:37-38 | every pair of positions i < j < N is enumerated |
| `OverlapEngine.PairAt` | BACKEND/controllers/overlapController.js:39-44 | the k-th record names the fund codes at the k-th pair's positions and holds their overlap times 100, rounded |
| `OverlapEngine.ReportPairs` | BACKEND/controllers/overlapController.js:37-56 | the reply's `pairs` are the enumerated records, N(N-1)/2 of them |
| `OverlapEngine.FewerThanTwoFunds` | BACKEND/controllers/overlapController.js:48-52 | with fewer than two funds there are no pairs, the average is 0 and the score 100 |
| `OverlapEngine.AverageInRange` | BACKEND/controllers/overlapController.js:48-51 | the mean of percentages in [0, 100] lies in [0, 100] |
| `OverlapEngine.ReportInRange` | BACKEND/controllers/overlapController.js:43-57 | for funds with non-negative weights summing to at most 1, every pair percentage, the average and the score lie in [0, 100] |
| `OverlapEngine.ScoreComplementsAverage` | BACKEND/controllers/overlapController.js:48-57 | the shown average and the score add up to 100 within 0.01, and exactly to 100 when the mean has at most two decimals |
| `OverlapEngine.GetOverlap` | BACKEND/controllers/overlapController.js:27-59 | an id missing from the index gives "Client not found"; otherwise the reply is the report over that client's funds, echoing the id |
| `Store.FindClient` | BACKEND/controllers/portfolioController.js:12 | no result exactly when no client has the id; a result is a listed client with that id |
| `Store.UniqueIdsLookupsAgree` | BACKEND/controllers/portfolioController.js:12 | when ids are unique, `find` (first match) and the overlap index (last match) give the same client |
| `PortfolioAnalysis.GetPortfolioAnalysis` | BACKEND/controllers/portfolioController.js:4-79 | an unknown id gives "Client not found", and only then; otherwise the reply is the analysis of that client's funds |
| `Diversification.SharesSumToOne` | BACKEND/controllers/portfolioController.js:19-24 | with a non-zero total, the funds' shares `amount / totalValue` add up to 1 |
| `Diversification.AddToSector` | BACKEND/controllers/portfolioController.js:26-27 | zeroing a missing or zero entry and then adding leaves the dictionary with delta added to that sector's value |
| `JsObject.GetAddTo` | BACKEND/controllers/portfolioController.js:26-27 | after adding delta to sector k, k reads its old value plus delta and every other key is unchanged |
| `JsObject.PutPut` | BACKEND/controllers/portfolioController.js:26-27 | a second assignment to the same key overrides the first |
| `JsObject.GetPut` | BACKEND/controllers/portfolioController.js:27 | after an assignment the key reads the new value and other keys are unchanged |
| `Diversification.AddFund` | BACKEND/controllers/portfolioController.js:23-28 | one fund's pass keeps the keys distinct, appends the fund's new sectors in order, and adds `share * weight` to every sector |
| `Diversification.SectorWeights` | BACKEND/controllers/portfolioController.js:22-29 | the two loops leave exactly the sector fractions: one entry per sector in first-seen order, each holding its exposure |
| `Diversification.SectorWeightOf` | BACKEND/controllers/portfolioController.js:24-27 | reading a sector of `sectorWeights` gives its exposure; that is 0 for a sector no fund names, and, when each fund names each sector once, the sum over funds of `amount / total` times `sectors[s]` |
| `Diversification.SectorKeysAreUnion` | BACKEND/controllers/portfolioController.js:22-29 | the keys are distinct, and a sector is a key exactly when some fund names it |
| `Diversification.ExposureIsWeightedSum` | BACKEND/controllers/portfolioController.js:23-28 | when each fund names each sector once, the accumulated weight of a sector is the sum over funds of `amount / total` times that fund's `sectors[s]`, read as 0 when absent |
| `Diversification.SectorWeightsSumToOne` | BACKEND/controllers/portfolioController.js:23-29 | when every fund's sector weights add up to 1 and the total is non-zero, the sector weights add up to 1 |
| `Diversification.SectorWeightsNonNegative` | BACKEND/controllers/portfolioController.js:23-29 | non-negative amounts and weights with a positive total give non-negative sector weights |
| `Diversification.Concentration` | BACKEND/controllers/portfolioController.js:32-38 | the loop yields the rounded percentages of the weights, under the same keys, and `hhi` as the sum of squares of the unrounded weights |
| `Diversification.Percentages` | BACKEND/controllers/portfolioController.js:35-36 | the shown percentages keep the weights' keys and their order |
| `Diversification.PercentagesInRange` | BACKEND/controllers/portfolioController.js:35 | for non-negative weights summing to 1, every shown percentage lies in [0, 100] |
| `Diversification.PercentagesSumNear` | BACKEND/controllers/portfolioController.js:35 | the shown percentages add up to 100 times the weights' sum, within 0.005 per sector |
| `Diversification.HhiBounds` | BACKEND/controllers/portfolioController.js:37 | for non-negative weights summing to 1 over k sectors, 1/k ≤ hhi ≤ 1 |
| `Diversification.ScoreBounds` | BACKEND/controllers/portfolioController.js:40 | the unrounded score lies in [0, 100), the score in [0, 100], and no score exceeds that of k equal sectors |
| `Diversification.SingleSector` | BACKEND/controllers/portfolioController.js:37-40 | one sector of weight 1 gives hhi 1 and score 0 |
| `Diversification.EqualSectors` | BACKEND/controllers/portfolioController.js:37-40 | k equal sectors give hhi 1/k and score `(1 - 1/k) * 100`, rounded |
| `SectorRanking.RankingIsStableSort` | BACKEND/controllers/portfolioController.js:67 | the ranking is a permutation of the entries sorted by percentage, largest first, with ties in insertion order; it is the only such order |
| `SectorRanking.TopSectorsRankFirst` | BACKEND/controllers/portfolioController.js:67-69 | at most two sectors are named; the k-th one has a larger percentage than any entry not yet named, or an equal one and an earlier position |
| `SectorRanking.SummaryNames` | BACKEND/controllers/portfolioController.js:66-70 | the sentence names no sector, the lone sector, or the top two joined by " and " |
| `JsObject.JoinPart` | BACKEND/controllers/portfolioController.js:70 | each part appears in the joined string at its offset |
| `JsObject.JoinSeparator` | BACKEND/controllers/portfolioController.js:70 | the separator appears between each part and the next |
| `JsObject.JoinLength` | BACKEND/controllers/portfolioController.js:70 | the joined length is the parts' total length plus one separator per gap |
| `PortfolioAnalysis.ResultSectors` | BACKEND/controllers/portfolioController.js:22-36 | the shown sectors are distinct; they are the sectors the funds name, in first-seen order; a sector is shown exactly when some fund names it |
| `PortfolioAnalysis.NoFunds` | BACKEND/controllers/portfolioController.js:19-70 | a client with no funds gets total 0, no sectors, score 100 and an empty name slot in the summary |
| `PortfolioAnalysis.ConventionalResult` | BACKEND/controllers/portfolioController.js:32-70 | for conventional funds with a positive total: some sector is shown, percentages and score lie in [0, 100], a lone sector is the one named, and the percentages add up to 100 within 0.005 per sector |
| `FeedbackEngine.Closed` | BACKEND/controllers/stockController.js:22-25 | the rule `x < low`, `x <= high`, else puts x in exactly one band, with both thresholds in the middle band |
| `FeedbackEngine.HalfOpen` | BACKEND/controllers/stockController.js:28-31 | the rule `x < low`, `x < high`, else puts the upper threshold in the high band |
| `FeedbackEngine.FromTop` | BACKEND/controllers/stockController.js:40-44 | the top-down rule `x >= high`, `x >= low`, else gives the bands [high, ∞), [low, high) and below low |
| `FeedbackEngine.BandsMonotone` | BACKEND/controllers/stockController.js:22-74 | no rule puts a larger value in a lower band |
| `FeedbackEngine.Boundaries` | BACKEND/controllers/stockController.js:22-74 | which band each threshold falls in (15 and 30 give a typical P/E, an EPS of 5 is strong, 500 trillion is a giant); also sample values on either side |
| `FeedbackEngine.ReturnBands` | BACKEND/controllers/stockController.js:53-62 | ROE and ROA are read as fractions: a return is low below 0.08 or 0.05 and high above 0.15 or 0.10 |
| `FeedbackEngine.SourceWordingTelling` | BACKEND/controllers/stockController.js:23-74 | each rule's three sentences differ, and the two market cap leads differ |
| `FeedbackEngine.RatedTail` | BACKEND/controllers/stockController.js:23-25 | a sentence ends with a band's phrase exactly when that band was picked |
| `FeedbackEngine.RuleTable` | BACKEND/controllers/stockController.js:21-74 | for each of the nine ratios, the sentence carries a band's phrase exactly when the ratio is in that band's range; the market cap sentence opens with its own lead exactly below 100 trillion |
| `FeedbackEngine.ShownValues` | BACKEND/controllers/stockController.js:22-78 | each sentence prints its ratio; ROE and ROA print times 100; the market cap prints in trillions to two decimals; the book value sentence is the fixed lead, the value and the fixed tail |
| `FeedbackEngine.TenKeys` | BACKEND/controllers/stockController.js:19-78 | the feedback object has ten entries, under its ten keys in assignment order, each holding its own sentence |
| `FeedbackEngine.FeedbackKeysDistinct` | BACKEND/controllers/stockController.js:23-78 | no key is assigned twice |
| `FeedbackEngine.JoinUnrolled` | BACKEND/controllers/stockController.js:92 | nine parts joined are the parts with one separator between neighbours |
| `FeedbackEngine.SummaryLayout` | BACKEND/controllers/stockController.js:81-92 | the summary is the nine rule sentences, one space apart, in the order P/E, EPS, ROE, ROA, current, quick, debt to equity, dividend, market cap |
| `FeedbackEngine.SummaryIgnoresBookValue` | BACKEND/controllers/stockController.js:77-92 | changing the book value sentence changes only its own entry and leaves the summary unchanged |
| `FeedbackEngine.FeedbackReport` | BACKEND/controllers/stockController.js:81-94 | `generateFeedback` returns the feedback built from the source's words, and the summary of its nine rule sentences in that order |
| `FeedbackEngine.FindStock` | BACKEND/controllers/stockController.js:102 | no result exactly when no stock has the symbol; otherwise the first stock with that symbol |
| `FeedbackEngine.GetStockAnalysis` | BACKEND/controllers/stockController.js:98-111 | an empty symbol gives "stockSymbol is required", an unknown one "Stock not found", each only then; otherwise the reply echoes the symbol beside the feedback and summary of the first matching stock |

## Left out

- Reading `portfolios.json` and `StockTickerSymbols.json` from disk and parsing them. The client list, the stock list and the overlap controller's index are parameters, with the index built by `IndexClients`.
- Express routing, HTTP status codes and response writing. A reply is an `Outcome` value: Ok, NotFound or BadRequest.
- The `try`/`catch` of `getPortfolioAnalysis` and its 500 reply. The model has no exceptions to catch.
- The React front end.
- The `console.log` and `console.error` calls.
- Floating point. Amounts, weights and ratios are exact reals, so rounding error is not modelled; for example, `returnOnEquity * 100` is exact. NaN and Infinity are not modelled either.
- Number-to-string output inside the sentences (`${x}`), and `toFixed(2)` on the market cap. They are the caller-supplied functions `show` and `fixed`.
- JavaScript's special key order. An object lists integer-like keys first, and a key like `__proto__` or `toString` reaches the prototype. The model keeps plain insertion order for every key and has no prototype.
- `!sectorWeights[sector]` treats every falsy value alike. Without NaN, the only falsy value here is 0, so it is modelled as "reads 0".
- The apostrophe in the market cap "giants" sentence. The source holds mis-decoded UTF-8 characters there, and the model keeps them as they are.
- `riskLevel`, `performance`, `possibleDiversification` and `traderType` do not depend on the data. They are declared as constants.
- `PortfolioAnalysis.GetPortfolioAnalysis`: requires that a found client's funds have a non-zero total, because the code divides by that total without a check. `Diversification.SectorWeights` has the same precondition.
- `PortfolioAnalysis.GetPortfolioAnalysis`: requires that no fund's `sectors` names a sector twice. The code reads the file with `JSON.parse`, which keeps one entry per key, so a parsed object always meets this. `Diversification.SectorWeights` has the same precondition. The model's entry lists could otherwise repeat a key, and the loop would count both entries while a read by key sees only the last.
- `Numeric.Round2`: rounds the exact real to the nearest hundredth, ties away from zero. JavaScript rounds the nearest binary double, so `(1.005).toFixed(2)` is "1.00" there but 1.01 here.
- `FeedbackEngine.GenerateFeedback`: a missing or non-numeric parameter is not modelled, because the ten parameters are reals. In the source such a value fails every `<`, `<=` and `>=` test, so each rule falls to its last branch. A missing `priceEarningsRatio` gives the "relatively expensive" sentence with "undefined" in it (`BACKEND/controllers/stockController.js:22-25`). A missing `marketCap` gives the "sizable player" sentence with "NaN" in it (`BACKEND/controllers/stockController.js:40-44`).
- `FeedbackEngine.GetStockAnalysis`: the missing route parameter, `undefined` in the source, is modelled as the empty symbol.
- `OverlapEngine.ReportInRange`, `PortfolioAnalysis.ConventionalResult` and `Diversification.SectorWeightsSumToOne`: these bounds hold only for data the source assumes but does not check. That data has non-negative weights, each fund's weights sum to 1 (or at most 1 for holdings), and the total is positive.
- `Diversification.PercentagesSumNear`: the shown percentages need not add up to exactly 100. The lemma gives only the bound of 0.005 per sector that rounding allows.
