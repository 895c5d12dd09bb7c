/**
 * Fund overlap: how much two funds hold in common, and for one client the overlap of
 * every pair of funds together with an aggregate score (higher means less redundant).
 */
module OverlapEngine {
  import opened Wrappers
  import opened Numeric
  import opened Sums
  import opened JsObject
  import opened Store

  datatype PairResult = PairResult(fundI: string, fundJ: string, overlapPct: real)

  datatype OverlapReport = OverlapReport(
    clientId: string,
    pairs: seq<PairResult>,
    averageOverlapPct: real,
    overlapScore: real)

  /** The tickers of `new Set([...Object.keys(a), ...Object.keys(b)])`, in iteration order. */
  function Tickers(a: Dict, b: Dict): seq<string>
  {
    Dedup(Keys(a) + Keys(b))
  }

  /** `ticker => Math.min(a[ticker] || 0, b[ticker] || 0)` */
  function MinOf(a: Dict, b: Dict): string -> real
  {
    k => Min(Get(a, k), Get(b, k))
  }

  /** `sum += Math.min(a[t] || 0, b[t] || 0)` for every ticker t of ts, in order. */
  function SumOfMins(a: Dict, b: Dict, ts: seq<string>): real
    decreases |ts|
  {
    if ts == [] then 0.0
    else SumOfMins(a, b, ts[..|ts| - 1]) + Min(Get(a, ts[|ts| - 1]), Get(b, ts[|ts| - 1]))
  }

  lemma {:induction false} SumOfMinsIsSumBy(a: Dict, b: Dict, ts: seq<string>)
    ensures SumOfMins(a, b, ts) == SumBy(ts, MinOf(a, b))
    decreases |ts|
  {
    if ts != [] {
      SumOfMinsIsSumBy(a, b, ts[..|ts| - 1]);
    }
  }

  /** The overlap fraction: over every ticker either fund holds, the smaller of its two weights. */
  function Overlap(a: Dict, b: Dict): real
  {
    SumOfMins(a, b, Tickers(a, b))
  }

  /** The tickers held by both funds, in the order of the first. */
  function CommonTickers(a: Dict, b: Dict): seq<string>
  {
    Filter(Keys(a), InKeys(b))
  }

  /** `fundOverlap(fundA, fundB)` */
  method FundOverlap(fundA: Fund, fundB: Fund) returns (sum: real)
    ensures sum == Overlap(fundA.holdings, fundB.holdings)
  {
    var a, b := fundA.holdings, fundB.holdings;
    var allStocks := Tickers(a, b);
    sum := 0.0;
    for i := 0 to |allStocks|
      invariant sum == SumOfMins(a, b, allStocks[..i])
    {
      assert allStocks[..i + 1][..i] == allStocks[..i];
      sum := sum + Min(Get(a, allStocks[i]), Get(b, allStocks[i]));
    }
    assert allStocks[..|allStocks|] == allStocks;
  }

  /** The overlap does not depend on which fund comes first. */
  lemma {:induction false} OverlapSymmetric(a: Dict, b: Dict)
    ensures Overlap(a, b) == Overlap(b, a)
  {
    var ab, ba := Tickers(a, b), Tickers(b, a);
    SumOfMinsIsSumBy(a, b, ab);
    SumOfMinsIsSumBy(b, a, ba);
    SameElementsPermutation(ab, ba);
    SumByPermutation(ab, ba, MinOf(a, b));
    SumByPointwiseEqual(ba, MinOf(a, b), MinOf(b, a));
  }

  /** With non-negative weights a ticker missing from either fund adds nothing: only the common tickers count. */
  lemma {:induction false} OverlapOfCommonTickers(a: Dict, b: Dict)
    requires NonNegativeValues(a) && NonNegativeValues(b) && DistinctKeys(a)
    ensures Overlap(a, b) == SumBy(CommonTickers(a, b), MinOf(a, b))
  {
    var t := Tickers(a, b);
    SumOfMinsIsSumBy(a, b, t);
    var both: string -> bool := k => k in Keys(a) && k in Keys(b);
    forall i | 0 <= i < |t| && !both(t[i])
      ensures MinOf(a, b)(t[i]) == 0.0
    {
      GetNonNegative(a, t[i]);
      GetNonNegative(b, t[i]);
    }
    SumByDropZeros(t, MinOf(a, b), both);
    FilterDistinct(t, both);
    FilterDistinct(Keys(a), InKeys(b));
    SameElementsPermutation(Filter(t, both), CommonTickers(a, b));
    SumByPermutation(Filter(t, both), CommonTickers(a, b), MinOf(a, b));
  }

  lemma {:induction false} OverlapAtMostTotal(a: Dict, b: Dict)
    requires NonNegativeValues(a) && NonNegativeValues(b) && DistinctKeys(a)
    ensures Overlap(a, b) <= SumValues(a)
  {
    var t := Tickers(a, b);
    SumOfMinsIsSumBy(a, b, t);
    SumByPointwiseLess(t, MinOf(a, b), GetOf(a));
    SumOfGetsOverCover(a, t);
  }

  /** With non-negative weights the overlap lies between 0 and the smaller of the two funds' total weights. */
  lemma {:induction false} OverlapBounds(a: Dict, b: Dict)
    requires NonNegativeValues(a) && NonNegativeValues(b)
    requires DistinctKeys(a) && DistinctKeys(b)
    ensures 0.0 <= Overlap(a, b) <= Min(SumValues(a), SumValues(b))
  {
    var t := Tickers(a, b);
    SumOfMinsIsSumBy(a, b, t);
    forall i | 0 <= i < |t|
      ensures 0.0 <= MinOf(a, b)(t[i])
    {
      GetNonNegative(a, t[i]);
      GetNonNegative(b, t[i]);
    }
    SumByNonNegative(t, MinOf(a, b));
    OverlapAtMostTotal(a, b);
    OverlapAtMostTotal(b, a);
    OverlapSymmetric(a, b);
  }

  /** A fund overlaps itself by its total weight, which need not be 1. */
  lemma {:induction false} SelfOverlap(a: Dict)
    requires DistinctKeys(a)
    ensures Overlap(a, a) == SumValues(a)
  {
    var t := Tickers(a, a);
    SumOfMinsIsSumBy(a, a, t);
    SumByPointwiseEqual(t, MinOf(a, a), GetOf(a));
    SumOfGetsOverCover(a, t);
  }

  // ----- pair enumeration -----

  /** The pairs (i, m) with i < m < j, by increasing m: what the inner loop visits before j. */
  function Row(i: nat, j: nat): (r: seq<(nat, nat)>)
    requires i < j
    decreases j
    ensures |r| == j - i - 1
  {
    if j == i + 1 then [] else Row(i, j - 1) + [(i, j - 1)]
  }

  /** The m-th pair of row i is (i, i + 1 + m). */
  lemma {:induction false} RowAt(i: nat, j: nat, m: nat)
    requires i < j && m < j - i - 1
    ensures Row(i, j)[m] == (i, i + 1 + m)
    decreases j
  {
    if m < j - i - 2 {
      RowAt(i, j - 1, m);
    }
  }

  /** The pairs the nested loops visit before the outer index reaches i. */
  function PairsBefore(i: nat, n: nat): (r: seq<(nat, nat)>)
    requires i <= n
    decreases i
    ensures forall k :: 0 <= k < |r| ==> r[k].0 < i && r[k].0 < r[k].1 < n
  {
    if i == 0 then []
    else
      var s, t := PairsBefore(i - 1, n), Row(i - 1, n);
      forall m | 0 <= m < |t|
        ensures t[m] == (i - 1, i + m)
      {
        RowAt(i - 1, n, m);
      }
      s + t
  }

  /** The index pairs `for i … for j = i + 1 …` visits over n funds, in visiting order. */
  function PairIndices(n: nat): seq<(nat, nat)>
  {
    PairsBefore(n, n)
  }

  predicate LexLess(p: (nat, nat), q: (nat, nat))
  {
    p.0 < q.0 || (p.0 == q.0 && p.1 < q.1)
  }

  lemma {:induction false} PairsBeforeLength(i: nat, n: nat)
    requires i <= n
    ensures 2 * |PairsBefore(i, n)| == i * (2 * n - i - 1)
    decreases i
  {
    if i > 0 {
      PairsBeforeLength(i - 1, n);
      assert i * (2 * n - i - 1) == (i - 1) * (2 * n - (i - 1) - 1) + 2 * (n - (i - 1) - 1);
    }
  }

  /** N funds give N(N-1)/2 pairs. */
  lemma {:induction false} PairCount(n: nat)
    ensures |PairIndices(n)| == n * (n - 1) / 2
  {
    PairsBeforeLength(n, n);
    assert n * (2 * n - n - 1) == n * (n - 1);
  }

  lemma {:induction false} PairsBeforeOrdered(i: nat, n: nat)
    requires i <= n
    ensures forall k, l :: 0 <= k < l < |PairsBefore(i, n)| ==> LexLess(PairsBefore(i, n)[k], PairsBefore(i, n)[l])
    decreases i
  {
    if i > 0 {
      PairsBeforeOrdered(i - 1, n);
      var s, t := PairsBefore(i - 1, n), Row(i - 1, n);
      assert PairsBefore(i, n) == s + t;
      forall k, l | 0 <= k < l < |s + t|
        ensures LexLess((s + t)[k], (s + t)[l])
      {
        if l >= |s| && k < |s| {
          RowAt(i - 1, n, l - |s|);
          assert (s + t)[k] == s[k] && (s + t)[l] == t[l - |s|];
        } else if k >= |s| {
          RowAt(i - 1, n, k - |s|);
          RowAt(i - 1, n, l - |s|);
          assert (s + t)[k] == t[k - |s|] && (s + t)[l] == t[l - |s|];
        } else {
          assert (s + t)[k] == s[k] && (s + t)[l] == s[l];
        }
      }
    }
  }

  /** Pairs come in lexicographic order of (i, j), so none is repeated; and i < j in every one, so none is reversed. */
  lemma {:induction false} PairsInOrder(n: nat)
    ensures forall k :: 0 <= k < |PairIndices(n)| ==> PairIndices(n)[k].0 < PairIndices(n)[k].1 < n
    ensures forall k, l :: 0 <= k < l < |PairIndices(n)| ==> LexLess(PairIndices(n)[k], PairIndices(n)[l])
  {
    PairsBeforeOrdered(n, n);
  }

  lemma {:induction false} PairsBeforeComplete(i: nat, n: nat, r: nat, c: nat)
    requires i <= n && r < i && r < c < n
    ensures (r, c) in PairsBefore(i, n)
    decreases i
  {
    var s, row := PairsBefore(i - 1, n), Row(i - 1, n);
    assert PairsBefore(i, n) == s + row;
    if r == i - 1 {
      var m := c - r - 1;
      RowAt(r, n, m);
      assert (s + row)[|s| + m] == (r, c);
    } else {
      PairsBeforeComplete(i - 1, n, r, c);
      var k :| 0 <= k < |s| && s[k] == (r, c);
      assert (s + row)[k] == (r, c);
    }
  }

  /** Every pair i < j of fund positions is enumerated. */
  lemma {:induction false} PairsComplete(n: nat, i: nat, j: nat)
    requires i < j < n
    ensures (i, j) in PairIndices(n)
  {
    PairsBeforeComplete(n, n, i, j);
  }

  // ----- the client report -----

  /** The record pushed for the pair (i, j); positions outside the fund list never occur. */
  function PairRecord(funds: seq<Fund>, p: (nat, nat)): PairResult
  {
    if p.0 < |funds| && p.1 < |funds| then
      PairResult(
        funds[p.0].fundCode,
        funds[p.1].fundCode,
        Round2(Overlap(funds[p.0].holdings, funds[p.1].holdings) * 100.0))
    else PairResult("", "", 0.0)
  }

  /** The records of the pairs ps, in the same order. */
  function Records(funds: seq<Fund>, ps: seq<(nat, nat)>): (r: seq<PairResult>)
    decreases |ps|
    ensures |r| == |ps|
  {
    if ps == [] then [] else Records(funds, ps[..|ps| - 1]) + [PairRecord(funds, ps[|ps| - 1])]
  }

  lemma {:induction false} RecordsAt(funds: seq<Fund>, ps: seq<(nat, nat)>, k: nat)
    requires k < |ps|
    ensures Records(funds, ps)[k] == PairRecord(funds, ps[k])
    decreases |ps|
  {
    if k < |ps| - 1 {
      RecordsAt(funds, ps[..|ps| - 1], k);
    }
  }

  lemma {:induction false} RecordsAppend(funds: seq<Fund>, ps: seq<(nat, nat)>, qs: seq<(nat, nat)>)
    ensures Records(funds, ps + qs) == Records(funds, ps) + Records(funds, qs)
    decreases |qs|
  {
    if qs == [] {
      assert ps + qs == ps;
    } else {
      var init := qs[..|qs| - 1];
      assert (ps + qs)[..|ps + qs| - 1] == ps + init;
      RecordsAppend(funds, ps, init);
    }
  }

  function Pct(p: PairResult): real
  {
    p.overlapPct
  }

  /** `overlaps.reduce((acc, r) => acc + r.overlap_pct, 0)` */
  function SumOfPcts(pairs: seq<PairResult>): real
    decreases |pairs|
  {
    if pairs == [] then 0.0 else SumOfPcts(pairs[..|pairs| - 1]) + pairs[|pairs| - 1].overlapPct
  }

  lemma {:induction false} SumOfPctsIsSumBy(pairs: seq<PairResult>)
    ensures SumOfPcts(pairs) == SumBy(pairs, Pct)
    decreases |pairs|
  {
    if pairs != [] {
      SumOfPctsIsSumBy(pairs[..|pairs| - 1]);
    }
  }

  /** The mean of the (already rounded) pair percentages, 0 when there is no pair. */
  function Average(pairs: seq<PairResult>): real
  {
    if |pairs| > 0 then SumOfPcts(pairs) / (|pairs| as real) else 0.0
  }

  /** The `pairs` array of the report, one record per pair i < j in visiting order. */
  function OverlapPairs(funds: seq<Fund>): seq<PairResult>
  {
    Records(funds, PairIndices(|funds|))
  }

  /** The response body of `getOverlap` for a client with these funds. */
  function OverlapReportOf(clientId: string, funds: seq<Fund>): OverlapReport
  {
    var pairs := OverlapPairs(funds);
    var avg := Average(pairs);
    OverlapReport(clientId, pairs, Round2(avg), Round2(100.0 - avg))
  }

  /** One step of the inner loop: `fundOverlap(funds[i], funds[j])` and the record pushed for it. */
  method OverlapRecord(funds: seq<Fund>, i: nat, j: nat) returns (record: PairResult)
    requires i < j < |funds|
    ensures record == PairRecord(funds, (i, j))
  {
    var ov := FundOverlap(funds[i], funds[j]);
    record := PairResult(funds[i].fundCode, funds[j].fundCode, Round2(ov * 100.0));
  }

  /** The inner loop of `getOverlap`: pushes the record of (i, j) for every j after i. */
  method PushRow(funds: seq<Fund>, i: nat, overlaps: seq<PairResult>) returns (pushed: seq<PairResult>)
    requires i < |funds|
    ensures RowPushed(funds, i, |funds|, overlaps, pushed)
  {
    pushed := overlaps;
    RowStart(funds, i, overlaps);
    for j := i + 1 to |funds|
      invariant RowPushed(funds, i, j, overlaps, pushed)
    {
      pushed := PushPair(funds, i, j, overlaps, pushed);
    }
  }

  /** One pass of the inner loop body: `overlaps.push({...})` for the pair (i, j). */
  method PushPair(funds: seq<Fund>, i: nat, j: nat, overlaps: seq<PairResult>, pushed: seq<PairResult>)
    returns (next: seq<PairResult>)
    requires i < j < |funds| && RowPushed(funds, i, j, overlaps, pushed)
    ensures RowPushed(funds, i, j + 1, overlaps, next)
  {
    var record := OverlapRecord(funds, i, j);
    PushStep(funds, i, j, overlaps, pushed, record);
    next := pushed + [record];
  }

  /** The inner loop's invariant: pushed is overlaps followed by the records of (i, i + 1) .. (i, j - 1). */
  ghost predicate RowPushed(funds: seq<Fund>, i: nat, j: nat, overlaps: seq<PairResult>, pushed: seq<PairResult>)
    requires i < j <= |funds|
  {
    pushed == overlaps + Records(funds, Row(i, j))
  }

  lemma {:induction false} RowStart(funds: seq<Fund>, i: nat, overlaps: seq<PairResult>)
    requires i < |funds|
    ensures RowPushed(funds, i, i + 1, overlaps, overlaps)
  {
    assert Records(funds, Row(i, i + 1)) == [];
  }

  lemma {:induction false} PushStep(funds: seq<Fund>, i: nat, j: nat, overlaps: seq<PairResult>, pushed: seq<PairResult>, record: PairResult)
    requires i < j < |funds| && RowPushed(funds, i, j, overlaps, pushed)
    requires record == PairRecord(funds, (i, j))
    ensures RowPushed(funds, i, j + 1, overlaps, pushed + [record])
  {
    var row, rows := Row(i, j + 1), Records(funds, Row(i, j));
    assert row == Row(i, j) + [(i, j)];
    assert row[..|row| - 1] == Row(i, j);
    assert Records(funds, row) == rows + [record];
    AppendAssociative(overlaps, rows, [record]);
  }

  /** The nested loops of `getOverlap`: one record per pair i < j of funds, pushed in visiting order. */
  method PairwiseOverlaps(funds: seq<Fund>) returns (overlaps: seq<PairResult>)
    ensures overlaps == OverlapPairs(funds)
  {
    overlaps := [];
    NoPairsYet(funds);
    for i := 0 to |funds|
      invariant RowsDone(funds, i, overlaps)
    {
      var pushed := PushRow(funds, i, overlaps);
      RowDone(funds, i, overlaps, pushed);
      overlaps := pushed;
    }
    AllPairsDone(funds, overlaps);
  }

  /** The outer loop's invariant: overlaps holds the records of the rows before i, in visiting order. */
  ghost predicate RowsDone(funds: seq<Fund>, i: nat, overlaps: seq<PairResult>)
    requires i <= |funds|
  {
    overlaps == Records(funds, PairsBefore(i, |funds|))
  }

  lemma {:induction false} NoPairsYet(funds: seq<Fund>)
    ensures RowsDone(funds, 0, [])
  {
  }

  lemma {:induction false} AllPairsDone(funds: seq<Fund>, overlaps: seq<PairResult>)
    requires RowsDone(funds, |funds|, overlaps)
    ensures overlaps == OverlapPairs(funds)
  {
  }

  lemma {:induction false} RowDone(funds: seq<Fund>, i: nat, overlaps: seq<PairResult>, pushed: seq<PairResult>)
    requires i < |funds| && RowsDone(funds, i, overlaps)
    requires RowPushed(funds, i, |funds|, overlaps, pushed)
    ensures RowsDone(funds, i + 1, pushed)
  {
    RecordsAppend(funds, PairsBefore(i, |funds|), Row(i, |funds|));
    assert PairsBefore(i + 1, |funds|) == PairsBefore(i, |funds|) + Row(i, |funds|);
  }

  /** `getOverlap`: look the client up in the index, then compare every pair of its funds. */
  method GetOverlap(clientsById: map<string, Client>, clientId: string) returns (r: Outcome<OverlapReport>)
    ensures clientId !in clientsById ==> r == NotFound("Client not found")
    ensures clientId in clientsById ==> r == Ok(OverlapReportOf(clientId, clientsById[clientId].funds))
  {
    if clientId !in clientsById {
      return NotFound("Client not found");
    }
    var funds := clientsById[clientId].funds;
    var overlaps := PairwiseOverlaps(funds);
    var avg := if |overlaps| > 0 then SumOfPcts(overlaps) / (|overlaps| as real) else 0.0;
    var score := Round2(100.0 - avg);
    r := Ok(OverlapReport(clientId, overlaps, Round2(avg), score));
  }

  /** The k-th record names the funds of the k-th enumerated pair (i < j) and carries their rounded overlap percentage. */
  lemma {:induction false} PairAt(funds: seq<Fund>, k: nat)
    requires k < |OverlapPairs(funds)|
    ensures var p := PairIndices(|funds|)[k];
      p.0 < p.1 < |funds| &&
      OverlapPairs(funds)[k] == PairResult(
        funds[p.0].fundCode,
        funds[p.1].fundCode,
        Round2(Overlap(funds[p.0].holdings, funds[p.1].holdings) * 100.0))
  {
    PairsInOrder(|funds|);
    RecordsAt(funds, PairIndices(|funds|), k);
  }

  /** The report lists N(N-1)/2 pairs, the k-th being the record of the k-th enumerated pair. */
  lemma {:induction false} ReportPairs(clientId: string, funds: seq<Fund>)
    ensures OverlapReportOf(clientId, funds).pairs == OverlapPairs(funds)
    ensures |OverlapPairs(funds)| == |PairIndices(|funds|)| == |funds| * (|funds| - 1) / 2
  {
    PairCount(|funds|);
  }

  /** With fewer than two funds there is no pair; the average is 0 and the score 100. */
  lemma {:induction false} FewerThanTwoFunds(clientId: string, funds: seq<Fund>)
    requires |funds| < 2
    ensures OverlapReportOf(clientId, funds).pairs == []
    ensures OverlapReportOf(clientId, funds).averageOverlapPct == 0.0
    ensures OverlapReportOf(clientId, funds).overlapScore == 100.0
  {
    PairCount(|funds|);
    assert |OverlapPairs(funds)| == 0;
    RoundHundredths(0);
    RoundHundredths(10000);
  }

  /** A fund as the data conventionally has it: one non-negative weight per ticker, summing to at most 1. */
  predicate ConventionalHoldings(f: Fund)
  {
    NonNegativeValues(f.holdings) && DistinctKeys(f.holdings) && SumValues(f.holdings) <= 1.0
  }

  lemma {:induction false} PairPctInRange(funds: seq<Fund>, p: (nat, nat))
    requires p.0 < |funds| && p.1 < |funds|
    requires ConventionalHoldings(funds[p.0]) && ConventionalHoldings(funds[p.1])
    ensures 0.0 <= Pct(PairRecord(funds, p)) <= 100.0
  {
    var a, b := funds[p.0].holdings, funds[p.1].holdings;
    OverlapBounds(a, b);
    RoundPercentInRange(Overlap(a, b) * 100.0);
  }

  /** The mean of percentages that lie in [0, 100] lies in [0, 100]. */
  lemma {:induction false} AverageInRange(pairs: seq<PairResult>)
    requires forall k :: 0 <= k < |pairs| ==> 0.0 <= Pct(pairs[k]) <= 100.0
    ensures 0.0 <= Average(pairs) <= 100.0
  {
    if |pairs| > 0 {
      var hundred: PairResult -> real := _ => 100.0;
      SumOfPctsIsSumBy(pairs);
      SumByNonNegative(pairs, Pct);
      SumByPointwiseLess(pairs, Pct, hundred);
      SumByConstant(pairs, hundred, 100.0);
    }
  }

  /** For conventional funds every pair percentage lies in [0, 100]. */
  lemma {:induction false} PairsInRange(funds: seq<Fund>)
    requires forall i :: 0 <= i < |funds| ==> ConventionalHoldings(funds[i])
    ensures forall k :: 0 <= k < |OverlapPairs(funds)| ==> 0.0 <= Pct(OverlapPairs(funds)[k]) <= 100.0
  {
    var pairs := OverlapPairs(funds);
    var ps := PairIndices(|funds|);
    PairsInOrder(|funds|);
    forall k | 0 <= k < |pairs|
      ensures 0.0 <= Pct(pairs[k]) <= 100.0
    {
      RecordsAt(funds, ps, k);
      PairPctInRange(funds, ps[k]);
    }
  }

  /** For conventional funds every pair percentage, the average and the score all lie in [0, 100]. */
  lemma {:induction false} ReportInRange(clientId: string, funds: seq<Fund>)
    requires forall i :: 0 <= i < |funds| ==> ConventionalHoldings(funds[i])
    ensures forall k :: 0 <= k < |OverlapReportOf(clientId, funds).pairs| ==>
      0.0 <= OverlapReportOf(clientId, funds).pairs[k].overlapPct <= 100.0
    ensures 0.0 <= OverlapReportOf(clientId, funds).averageOverlapPct <= 100.0
    ensures 0.0 <= OverlapReportOf(clientId, funds).overlapScore <= 100.0
  {
    var pairs := OverlapPairs(funds);
    PairsInRange(funds);
    AverageInRange(pairs);
    var avg := Average(pairs);
    RoundPercentInRange(avg);
    RoundPercentInRange(100.0 - avg);
  }

  /**
   * The score is the rounded complement of the mean: the shown average and the score add up
   * to 100 within 0.01, and to exactly 100 when the mean has at most two decimals.
   */
  lemma {:induction false} ScoreComplementsAverage(clientId: string, funds: seq<Fund>, n: int)
    ensures var r := OverlapReportOf(clientId, funds);
      99.99 <= r.averageOverlapPct + r.overlapScore <= 100.01
    ensures var r := OverlapReportOf(clientId, funds);
      Average(OverlapPairs(funds)) == n as real / 100.0 ==> r.averageOverlapPct + r.overlapScore == 100.0
  {
    var avg := Average(OverlapPairs(funds));
    var r := OverlapReportOf(clientId, funds);
    assert r.averageOverlapPct == Round2(avg) && r.overlapScore == Round2(100.0 - avg);
    RoundComplement(avg, n);
  }
}
