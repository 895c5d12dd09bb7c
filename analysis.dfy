/**
 * The response of `getPortfolioAnalysis`: the computed part (total value, the
 * `sectorDiversification` percentages, the sector score and the summary sentence) beside
 * the fixed placeholders the controller always sends (risk level, performance figures,
 * two diversification suggestions and the trader type).
 */
module PortfolioAnalysis {
  import opened Wrappers
  import opened Numeric
  import opened Sums
  import opened JsObject
  import opened Store
  import opened Diversification
  import opened SectorRanking

  datatype Performance = Performance(oneYearReturn: real, threeYearReturn: real, fiveYearReturn: real)

  datatype Suggestion = Suggestion(sector: string, recommendation: string)

  datatype Analysis = Analysis(
    totalValue: real,
    sectorDiversification: Dict,
    sectorScore: real,
    riskLevel: string,
    performance: Performance)

  datatype PortfolioResult = PortfolioResult(
    portfolioAnalysis: Analysis,
    possibleDiversification: seq<Suggestion>,
    traderType: string,
    summary: string)

  const RiskLevel := "Moderate"
  const FixedPerformance := Performance(15.0, 20.0, 25.0)
  const Suggestions := [
    Suggestion("Consumer Staples",
      "Consider adding stocks or funds in the Consumer Staples sector to balance your portfolio."),
    Suggestion("Utilities",
      "Investing in Utilities can provide stable dividends and lower volatility.")]
  const TraderType := "Growth Investor"

  /** The result object built from a client's funds. */
  function PortfolioResultOf(funds: seq<Fund>): PortfolioResult
    requires Divisible(funds, TotalValue(funds))
  {
    var tv := TotalValue(funds);
    var weights := SectorFractions(funds, tv);
    var shown := Percentages(weights);
    PortfolioResult(
      Analysis(tv, shown, SectorScore(SumOfSquares(weights)), RiskLevel, FixedPerformance),
      Suggestions,
      TraderType,
      Summary(shown))
  }

  /**
   * `getPortfolioAnalysis`: the first client with the id, or the 404 payload. The division
   * by the total value is reached only when the client has funds, so such a client's funds
   * must not add up to 0.
   */
  method GetPortfolioAnalysis(clients: seq<Client>, clientId: string) returns (r: Outcome<PortfolioResult>)
    requires FindClient(clients, clientId).Some? ==>
      Divisible(FindClient(clients, clientId).value.funds, TotalValue(FindClient(clients, clientId).value.funds))
    requires FindClient(clients, clientId).Some? ==> ParsedSectors(FindClient(clients, clientId).value.funds)
    ensures FindClient(clients, clientId).None? <==> r == NotFound("Client not found")
    ensures FindClient(clients, clientId).Some? ==>
      r == Ok(PortfolioResultOf(FindClient(clients, clientId).value.funds))
  {
    var client := FindClient(clients, clientId);
    if client.None? {
      return NotFound("Client not found");
    }
    var funds := client.value.funds;
    var totalValue := TotalValue(funds);
    var sectorWeights := SectorWeights(funds, totalValue);
    var sectorDiversification, hhi := Concentration(sectorWeights);
    var sectorScore := SectorScore(hhi);
    r := Ok(PortfolioResult(
      Analysis(totalValue, sectorDiversification, sectorScore, RiskLevel, FixedPerformance),
      Suggestions,
      TraderType,
      Summary(sectorDiversification)));
  }

  /**
   * The shown sectors are the sectors some fund names, each once, in the order they are first
   * met.
   */
  lemma {:induction false} ResultSectors(funds: seq<Fund>)
    requires Divisible(funds, TotalValue(funds))
    ensures Keys(PortfolioResultOf(funds).portfolioAnalysis.sectorDiversification) == Dedup(AllSectorKeys(funds))
    ensures DistinctKeys(PortfolioResultOf(funds).portfolioAnalysis.sectorDiversification)
    ensures forall s :: s in Keys(PortfolioResultOf(funds).portfolioAnalysis.sectorDiversification) <==>
      exists k :: 0 <= k < |funds| && s in Keys(funds[k].sectors)
  {
    var w := SectorFractions(funds, TotalValue(funds));
    SectorKeysAreUnion(funds, TotalValue(funds));
    assert Keys(Percentages(w)) == Keys(w);
  }

  /** A client with no funds: total 0, no sector, score 100, and no sector named in the summary. */
  lemma {:induction false} NoFunds()
    ensures var r := PortfolioResultOf([]);
      r.portfolioAnalysis.totalValue == 0.0 &&
      r.portfolioAnalysis.sectorDiversification == [] &&
      r.portfolioAnalysis.sectorScore == 100.0 &&
      r.summary == SummaryLead + SummaryTail
  {
    assert Dedup(AllSectorKeys([])) == [];
    RoundHundredths(10000);
    SummaryNames([]);
  }

  /**
   * For conventional funds with a positive total, every shown percentage lies in [0, 100],
   * the score lies in [0, 100], a lone sector is the one the summary names, and the shown
   * percentages add up to 100 within 0.005 per sector.
   */
  lemma {:induction false} ConventionalResult(funds: seq<Fund>)
    requires 0.0 < TotalValue(funds)
    requires forall i :: 0 <= i < |funds| ==> ConventionalFund(funds[i])
    ensures var a := PortfolioResultOf(funds).portfolioAnalysis;
      |a.sectorDiversification| > 0 &&
      (forall i :: 0 <= i < |a.sectorDiversification| ==> 0.0 <= a.sectorDiversification[i].1 <= 100.0) &&
      0.0 <= a.sectorScore <= 100.0
    ensures var a := PortfolioResultOf(funds).portfolioAnalysis;
      |a.sectorDiversification| == 1 ==>
        PortfolioResultOf(funds).summary == SummaryLead + a.sectorDiversification[0].0 + SummaryTail
    ensures var a := PortfolioResultOf(funds).portfolioAnalysis; var k := |a.sectorDiversification| as real;
      100.0 - 0.005 * k <= SumValues(a.sectorDiversification) <= 100.0 + 0.005 * k
  {
    var w := SectorFractions(funds, TotalValue(funds));
    ConventionalPortfolio(funds);
    SummaryNames(Percentages(w));
    PercentagesSumNear(w);
  }
}
