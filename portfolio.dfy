/**
 * The sector diversification analysis of `getPortfolioAnalysis`: the total value of a
 * client's funds, the per-sector exposure (each fund's sector split scaled by its share
 * of the total), the Herfindahl-Hirschman index of those exposures, the sector score
 * derived from it, and the summary sentence that names the two largest sectors.
 */
module Diversification {
  import opened Wrappers
  import opened Numeric
  import opened Sums
  import opened JsObject
  import opened Store

  // ---------------------------------------------------------------- total value

  /** `client.funds.reduce((sum, fund) => sum + fund.amount, 0)` */
  function TotalValue(funds: seq<Fund>): real
    decreases |funds|
  {
    if funds == [] then 0.0 else TotalValue(funds[..|funds| - 1]) + funds[|funds| - 1].amount
  }

  /** The division `fund.amount / totalValue` is only reached when there is a fund. */
  predicate Divisible(funds: seq<Fund>, totalValue: real)
  {
    funds == [] || totalValue != 0.0
  }

  /** The shares `amount / totalValue` of all funds add up to the whole. */
  lemma {:induction false} SharesSumToOne(funds: seq<Fund>)
    requires TotalValue(funds) != 0.0
    ensures ShareSum(funds, TotalValue(funds)) == 1.0
  {
    var tv := TotalValue(funds);
    ShareSumIsRatio(funds, tv);
    assert tv / tv == 1.0;
  }

  function ShareSum(funds: seq<Fund>, tv: real): real
    requires tv != 0.0
    decreases |funds|
  {
    if funds == [] then 0.0 else ShareSum(funds[..|funds| - 1], tv) + funds[|funds| - 1].amount / tv
  }

  lemma {:induction false} ShareSumIsRatio(funds: seq<Fund>, tv: real)
    requires tv != 0.0
    ensures ShareSum(funds, tv) == TotalValue(funds) / tv
    decreases |funds|
  {
    if funds != [] {
      ShareSumIsRatio(funds[..|funds| - 1], tv);
    }
  }

  // ---------------------------------------------------------------- sector weights

  /**
   * What one fund's sector entries add to sector s when each `weight` is scaled by the
   * fund's share: the sum of `share * weight` over its entries named s (at most one entry
   * in a well-formed object).
   */
  function Contribution(d: Dict, share: real, s: string): real
    decreases |d|
  {
    if d == [] then 0.0
    else Contribution(d[..|d| - 1], share, s) + (if d[|d| - 1].0 == s then share * d[|d| - 1].1 else 0.0)
  }

  /** In a well-formed object the contribution to s is `share * sectors[s]`, 0 when s is absent. */
  lemma {:induction false} ContributionOfGet(d: Dict, share: real, s: string)
    requires DistinctKeys(d)
    ensures Contribution(d, share, s) == share * Get(d, s)
    decreases |d|
  {
    if s !in Keys(d) {
      ContributionAbsent(d, share, s);
      ScaleEqual(share, Get(d, s), 0.0);
    } else {
      var i := IndexOf(Keys(d), s);
      ContributionAt(d, share, i);
      GetAt(d, i);
      ScaleEqual(share, Get(d, s), d[i].1);
    }
  }

  /** With distinct keys the only entry named d[i].0 is the i-th. */
  lemma {:induction false} ContributionAt(d: Dict, share: real, i: nat)
    requires DistinctKeys(d) && i < |d|
    ensures Contribution(d, share, d[i].0) == share * d[i].1
    decreases |d|
  {
    var init, last := d[..|d| - 1], d[|d| - 1];
    assert Keys(init) == Keys(d)[..|d| - 1];
    if i == |d| - 1 {
      assert last.0 !in Keys(init) by {
        forall m | 0 <= m < |init|
          ensures Keys(init)[m] != last.0
        {
          assert Keys(d)[m] != Keys(d)[|d| - 1];
        }
      }
      ContributionAbsent(init, share, last.0);
    } else {
      assert Keys(d)[i] != Keys(d)[|d| - 1];
      ContributionAt(init, share, i);
      assert init[i] == d[i];
    }
  }

  lemma {:induction false} ScaleEqual(share: real, x: real, y: real)
    requires x == y
    ensures share * x == share * y
  {
  }

  /** A sector that an object does not name receives nothing from it. */
  lemma {:induction false} ContributionAbsent(d: Dict, share: real, s: string)
    requires s !in Keys(d)
    ensures Contribution(d, share, s) == 0.0
    decreases |d|
  {
    if d != [] {
      var init := d[..|d| - 1];
      assert Keys(init) == Keys(d)[..|d| - 1];
      ContributionAbsent(init, share, s);
    }
  }

  /** `Σ_f (f.amount / totalValue) * f.sectors[s]`, fund by fund in list order. */
  function Exposure(funds: seq<Fund>, tv: real, s: string): real
    requires Divisible(funds, tv)
    decreases |funds|
  {
    if funds == [] then 0.0
    else
      var last := funds[|funds| - 1];
      Exposure(funds[..|funds| - 1], tv, s) + Contribution(last.sectors, last.amount / tv, s)
  }

  /** The sector names of all funds, fund by fund, each fund's in its own key order. */
  function AllSectorKeys(funds: seq<Fund>): seq<string>
    decreases |funds|
  {
    if funds == [] then [] else AllSectorKeys(funds[..|funds| - 1]) + Keys(funds[|funds| - 1].sectors)
  }

  lemma {:induction false} AllSectorKeysMembers(funds: seq<Fund>, s: string)
    ensures s in AllSectorKeys(funds) <==> exists i :: 0 <= i < |funds| && s in Keys(funds[i].sectors)
    decreases |funds|
  {
    if funds != [] {
      var init := funds[..|funds| - 1];
      AllSectorKeysMembers(init, s);
      assert forall i :: 0 <= i < |init| ==> init[i] == funds[i];
    }
  }

  /** The object with one entry (s, Exposure(s)) per sector name in ks, in that order. */
  function Fractions(funds: seq<Fund>, tv: real, ks: seq<string>): (r: Dict)
    requires Divisible(funds, tv)
    decreases |ks|
    ensures Keys(r) == ks
  {
    if ks == [] then []
    else
      var init := Fractions(funds, tv, ks[..|ks| - 1]);
      var last := (ks[|ks| - 1], Exposure(funds, tv, ks[|ks| - 1]));
      assert (init + [last])[..|init|] == init;
      init + [last]
  }

  lemma {:induction false} FractionsAt(funds: seq<Fund>, tv: real, ks: seq<string>, i: nat)
    requires Divisible(funds, tv) && i < |ks|
    ensures Fractions(funds, tv, ks)[i] == (ks[i], Exposure(funds, tv, ks[i]))
    decreases |ks|
  {
    if i < |ks| - 1 {
      FractionsAt(funds, tv, ks[..|ks| - 1], i);
    }
  }

  /**
   * The `sectorWeights` object: one entry per sector named by any fund, in the order the
   * sectors are first met, holding the fund-share-weighted sum of that sector.
   */
  function SectorFractions(funds: seq<Fund>, tv: real): Dict
    requires Divisible(funds, tv)
  {
    Fractions(funds, tv, Dedup(AllSectorKeys(funds)))
  }

  /** Two well-formed objects with the same keys in the same order that agree on every key are equal. */
  lemma {:induction false} SameEntries(d: Dict, e: Dict)
    requires DistinctKeys(d) && Keys(d) == Keys(e)
    requires forall k :: Get(d, k) == Get(e, k)
    ensures d == e
  {
    assert |d| == |Keys(d)| == |e|;
    forall i | 0 <= i < |d|
      ensures d[i] == e[i]
    {
      assert Keys(d)[i] == Keys(e)[i];
      GetAt(d, i);
      GetAt(e, i);
    }
  }

  /**
   * Reading a sector of `sectorWeights` gives its exposure; a sector no fund names gives 0; on parsed objects
   * it is the sum over the funds of `(amount / totalValue) * sectors[s]`.
   */
  lemma {:induction false} SectorWeightOf(funds: seq<Fund>, tv: real, s: string)
    requires Divisible(funds, tv)
    ensures Get(SectorFractions(funds, tv), s) == Exposure(funds, tv, s)
    ensures (forall i :: 0 <= i < |funds| ==> s !in Keys(funds[i].sectors)) ==> Get(SectorFractions(funds, tv), s) == 0.0
    ensures tv != 0.0 && ParsedSectors(funds) ==>
      Get(SectorFractions(funds, tv), s) == SumBy(funds, WeightedOf(tv, s))
  {
    if tv != 0.0 && ParsedSectors(funds) {
      ExposureIsWeightedSum(funds, tv, s);
    }
    var ks := Dedup(AllSectorKeys(funds));
    var d := SectorFractions(funds, tv);
    AllSectorKeysMembers(funds, s);
    if s in ks {
      var i := IndexOf(ks, s);
      FractionsAt(funds, tv, ks, i);
      GetAt(d, i);
    } else {
      ExposureAbsent(funds, tv, s);
    }
  }

  lemma {:induction false} ExposureAbsent(funds: seq<Fund>, tv: real, s: string)
    requires Divisible(funds, tv)
    requires forall i :: 0 <= i < |funds| ==> s !in Keys(funds[i].sectors)
    ensures Exposure(funds, tv, s) == 0.0
    decreases |funds|
  {
    if funds != [] {
      var init := funds[..|funds| - 1];
      assert forall i :: 0 <= i < |init| ==> init[i] == funds[i];
      ExposureAbsent(init, tv, s);
      ContributionAbsent(funds[|funds| - 1].sectors, funds[|funds| - 1].amount / tv, s);
    }
  }

  /** The keys of `sectorWeights` are exactly the union of the funds' sector keys. */
  lemma {:induction false} SectorKeysAreUnion(funds: seq<Fund>, tv: real)
    requires Divisible(funds, tv)
    ensures DistinctKeys(SectorFractions(funds, tv))
    ensures forall s :: s in Keys(SectorFractions(funds, tv)) <==>
      exists i :: 0 <= i < |funds| && s in Keys(funds[i].sectors)
  {
    forall s
      ensures s in Keys(SectorFractions(funds, tv)) <==>
        exists i :: 0 <= i < |funds| && s in Keys(funds[i].sectors)
    {
      AllSectorKeysMembers(funds, s);
    }
  }

  /**
   * One fund's sector entries added into `sectorWeights`:
   * `if (!sectorWeights[sector]) sectorWeights[sector] = 0; sectorWeights[sector] += fundShare * weight`.
   */
  method AddFund(weights: Dict, ghost seen: seq<string>, fundShare: real, sectors: Dict) returns (w: Dict)
    requires DistinctKeys(weights) && Keys(weights) == Dedup(seen)
    ensures DistinctKeys(w) && Keys(w) == Dedup(seen + Keys(sectors))
    ensures forall s :: Get(w, s) == Get(weights, s) + Contribution(sectors, fundShare, s)
  {
    w := weights;
    AddedNone(weights, seen, fundShare, sectors);
    for j := 0 to |sectors|
      invariant SectorsAdded(weights, seen, fundShare, sectors, j, w)
    {
      w := AddEntry(weights, seen, fundShare, sectors, j, w);
    }
    AddedAll(weights, seen, fundShare, sectors, w);
  }

  /** The inner loop's invariant: the first j entries of `sectors` have been added into w. */
  ghost predicate SectorsAdded(weights: Dict, seen: seq<string>, share: real, sectors: Dict, j: nat, w: Dict)
    requires j <= |sectors|
  {
    DistinctKeys(w) && Keys(w) == Dedup(seen + Keys(sectors)[..j]) &&
    forall s :: Get(w, s) == Get(weights, s) + Contribution(sectors[..j], share, s)
  }

  lemma {:induction false} AddedNone(weights: Dict, seen: seq<string>, share: real, sectors: Dict)
    requires DistinctKeys(weights) && Keys(weights) == Dedup(seen)
    ensures SectorsAdded(weights, seen, share, sectors, 0, weights)
  {
    assert seen + Keys(sectors)[..0] == seen;
  }

  lemma {:induction false} AddedAll(weights: Dict, seen: seq<string>, share: real, sectors: Dict, w: Dict)
    requires SectorsAdded(weights, seen, share, sectors, |sectors|, w)
    ensures DistinctKeys(w) && Keys(w) == Dedup(seen + Keys(sectors))
    ensures forall s :: Get(w, s) == Get(weights, s) + Contribution(sectors, share, s)
  {
    assert sectors[..|sectors|] == sectors;
    assert Keys(sectors)[..|sectors|] == Keys(sectors);
  }

  /** One pass of the inner loop body, for the entry `[sector, weight]` at position j. */
  method AddEntry(weights: Dict, ghost seen: seq<string>, fundShare: real, sectors: Dict, j: nat, w: Dict)
    returns (next: Dict)
    requires j < |sectors| && SectorsAdded(weights, seen, fundShare, sectors, j, w)
    ensures SectorsAdded(weights, seen, fundShare, sectors, j + 1, next)
  {
    var sector, delta := sectors[j].0, fundShare * sectors[j].1;
    next := AddToSector(w, sector, delta);
    EntryStep(weights, seen, fundShare, sectors, j, delta, w, next);
  }

  /** One turn of the inner loop extends its invariant from sectors[..j] to sectors[..j + 1]. */
  lemma {:induction false} EntryStep(weights: Dict, seen: seq<string>, share: real, sectors: Dict, j: nat, delta: real,
                  before: Dict, after: Dict)
    requires j < |sectors| && delta == share * sectors[j].1
    requires SectorsAdded(weights, seen, share, sectors, j, before)
    requires after == AddTo(before, sectors[j].0, delta)
    ensures SectorsAdded(weights, seen, share, sectors, j + 1, after)
  {
    EntryKeys(seen, sectors, j, before, delta, after);
    forall s
      ensures Get(after, s) == Get(weights, s) + Contribution(sectors[..j + 1], share, s)
    {
      EntryGet(weights, share, sectors, j, delta, before, after, s);
    }
  }

  lemma {:induction false} EntryGet(weights: Dict, share: real, sectors: Dict, j: nat, delta: real, before: Dict, after: Dict, s: string)
    requires j < |sectors| && DistinctKeys(before) && delta == share * sectors[j].1
    requires Get(before, s) == Get(weights, s) + Contribution(sectors[..j], share, s)
    requires after == AddTo(before, sectors[j].0, delta)
    ensures Get(after, s) == Get(weights, s) + Contribution(sectors[..j + 1], share, s)
  {
    GetAddTo(before, sectors[j].0, delta, s);
    ContributionSnoc(sectors, share, j, s);
  }

  lemma {:induction false} EntryKeys(seen: seq<string>, sectors: Dict, j: nat, before: Dict, delta: real, after: Dict)
    requires j < |sectors|
    requires DistinctKeys(before) && Keys(before) == Dedup(seen + Keys(sectors)[..j])
    requires after == AddTo(before, sectors[j].0, delta)
    ensures DistinctKeys(after) && Keys(after) == Dedup(seen + Keys(sectors)[..j + 1])
  {
    var prev := Keys(sectors)[..j];
    KeysPrefixSnoc(sectors, j);
    AppendAssociative(seen, prev, [sectors[j].0]);
    DedupSnoc(seen + prev, sectors[j].0);
  }

  lemma {:induction false} DedupSnoc(prev: seq<string>, k: string)
    ensures Dedup(prev + [k]) == if k in Dedup(prev) then Dedup(prev) else Dedup(prev) + [k]
  {
    assert (prev + [k])[..|prev|] == prev;
  }

  lemma {:induction false} ContributionSnoc(sectors: Dict, share: real, j: nat, s: string)
    requires j < |sectors|
    ensures Contribution(sectors[..j + 1], share, s) ==
      Contribution(sectors[..j], share, s) + (if sectors[j].0 == s then share * sectors[j].1 else 0.0)
  {
    assert sectors[..j + 1][..j] == sectors[..j];
  }

  /**
   * `if (!sectorWeights[sector]) sectorWeights[sector] = 0; sectorWeights[sector] += delta`.
   * The reset of a missing (or zero) entry changes nothing but the key order of a new
   * sector, so the pair amounts to one assignment of the old value plus delta.
   */
  method AddToSector(weights: Dict, sector: string, delta: real) returns (w: Dict)
    requires DistinctKeys(weights)
    ensures w == AddTo(weights, sector, delta)
  {
    w := weights;
    if Get(w, sector) == 0.0 {
      w := Put(w, sector, 0.0);
      ZeroThenAdd(weights, sector, delta);
    }
    w := Put(w, sector, Get(w, sector) + delta);
  }

  /** Setting a key that reads 0 to 0 first does not change what adding to it gives. */
  lemma {:induction false} ZeroThenAdd(d: Dict, k: string, delta: real)
    requires DistinctKeys(d) && Get(d, k) == 0.0
    ensures DistinctKeys(Put(d, k, 0.0))
    ensures AddTo(Put(d, k, 0.0), k, delta) == AddTo(d, k, delta)
  {
    var zeroed := Put(d, k, 0.0);
    GetPut(d, k, 0.0, k);
    PutPut(d, k, 0.0, delta);
    assert Get(zeroed, k) + delta == delta == Get(d, k) + delta;
  }

  /** The nested `forEach` loops that fill `sectorWeights`. */
  method SectorWeights(funds: seq<Fund>, totalValue: real) returns (weights: Dict)
    requires Divisible(funds, totalValue) && ParsedSectors(funds)
    ensures weights == SectorFractions(funds, totalValue)
  {
    weights := [];
    for i := 0 to |funds|
      invariant DistinctKeys(weights) && Keys(weights) == Dedup(AllSectorKeys(funds[..i]))
      invariant forall s :: Get(weights, s) == Exposure(funds[..i], totalValue, s)
    {
      var fund := funds[i];
      var fundShare := fund.amount / totalValue;
      ghost var before := weights;
      weights := AddFund(weights, AllSectorKeys(funds[..i]), fundShare, fund.sectors);
      FundStep(funds, totalValue, i, fundShare, before, weights);
      KeysStep(funds, i);
    }
    assert funds[..|funds|] == funds;
    WeightsAreFractions(funds, totalValue, weights);
  }

  /** One turn of the outer loop extends the invariant from funds[..i] to funds[..i + 1]. */
  lemma {:induction false} FundStep(funds: seq<Fund>, tv: real, i: nat, share: real, before: Dict, after: Dict)
    requires i < |funds| && tv != 0.0 && share == funds[i].amount / tv
    requires forall s :: Get(before, s) == Exposure(funds[..i], tv, s)
    requires forall s :: Get(after, s) == Get(before, s) + Contribution(funds[i].sectors, share, s)
    ensures forall s :: Get(after, s) == Exposure(funds[..i + 1], tv, s)
  {
    var pre := funds[..i + 1];
    assert pre[..i] == funds[..i];
    forall s
      ensures Get(after, s) == Exposure(pre, tv, s)
    {
      assert Exposure(pre, tv, s) == Exposure(funds[..i], tv, s) + Contribution(funds[i].sectors, share, s);
    }
  }

  lemma {:induction false} KeysStep(funds: seq<Fund>, i: nat)
    requires i < |funds|
    ensures AllSectorKeys(funds[..i + 1]) == AllSectorKeys(funds[..i]) + Keys(funds[i].sectors)
  {
    assert funds[..i + 1][..i] == funds[..i];
  }

  lemma {:induction false} WeightsAreFractions(funds: seq<Fund>, tv: real, w: Dict)
    requires Divisible(funds, tv)
    requires DistinctKeys(w) && Keys(w) == Dedup(AllSectorKeys(funds))
    requires forall s :: Get(w, s) == Exposure(funds, tv, s)
    ensures w == SectorFractions(funds, tv)
  {
    forall s
      ensures Get(w, s) == Get(SectorFractions(funds, tv), s)
    {
      SectorWeightOf(funds, tv, s);
    }
    SameEntries(w, SectorFractions(funds, tv));
  }

  // ---------------------------------------------------------------- sum and sign of the weights

  function ExposureOf(funds: seq<Fund>, tv: real): string -> real
    requires Divisible(funds, tv)
  {
    s => Exposure(funds, tv, s)
  }

  /** One fund's term of the exposures, once its entries are read by key: `share * sectors[s]`. */
  function ScaledOf(d: Dict, share: real): string -> real
  {
    s => share * Get(d, s)
  }

  /** The values of Fractions add up to the exposures of its names. */
  lemma {:induction false} FractionsSum(funds: seq<Fund>, tv: real, ks: seq<string>)
    requires Divisible(funds, tv)
    ensures SumValues(Fractions(funds, tv, ks)) == SumBy(ks, ExposureOf(funds, tv))
    decreases |ks|
  {
    if ks != [] {
      var init := ks[..|ks| - 1];
      var r, prev := Fractions(funds, tv, ks), Fractions(funds, tv, init);
      FractionsSum(funds, tv, init);
      assert r[..|r| - 1] == prev;
    }
  }

  /** Summed over any names, one fund's scaled weights are its share times its weights. */
  lemma {:induction false} ScaledSum(d: Dict, share: real, ks: seq<string>)
    ensures SumBy(ks, ScaledOf(d, share)) == share * SumBy(ks, GetOf(d))
  {
    SumByScale(ks, GetOf(d), ScaledOf(d, share), share);
  }

  /** Summed over distinct names that cover its sectors, one fund contributes its share times the total of its split. */
  lemma {:induction false} FundContributionSum(d: Dict, share: real, ks: seq<string>)
    requires DistinctKeys(d) && Distinct(ks)
    requires forall k :: k in Keys(d) ==> k in ks
    ensures SumBy(ks, ScaledOf(d, share)) == share * SumValues(d)
  {
    var total := SumBy(ks, GetOf(d));
    ScaledSum(d, share, ks);
    SumOfGetsOverCover(d, ks);
    ScaleEqual(share, total, SumValues(d));
  }

  /** The exposure of each name splits into that of the earlier funds and the last fund's scaled weight. */
  lemma {:induction false} ExposureSplit(funds: seq<Fund>, tv: real, ks: seq<string>)
    requires funds != [] && Divisible(funds, tv) && DistinctKeys(funds[|funds| - 1].sectors)
    ensures var last := funds[|funds| - 1];
      forall i :: 0 <= i < |ks| ==>
        ExposureOf(funds, tv)(ks[i]) ==
        ExposureOf(funds[..|funds| - 1], tv)(ks[i]) + ScaledOf(last.sectors, last.amount / tv)(ks[i])
  {
    forall i | 0 <= i < |ks|
      ensures ExposureOf(funds, tv)(ks[i]) ==
        ExposureOf(funds[..|funds| - 1], tv)(ks[i]) +
        ScaledOf(funds[|funds| - 1].sectors, funds[|funds| - 1].amount / tv)(ks[i])
    {
      ExposureStep(funds, tv, ks[i]);
    }
  }

  /** The last fund adds its share of its own weight for s. */
  lemma {:induction false} ExposureStep(funds: seq<Fund>, tv: real, s: string)
    requires funds != [] && Divisible(funds, tv) && DistinctKeys(funds[|funds| - 1].sectors)
    ensures var last := funds[|funds| - 1];
      Exposure(funds, tv, s) == Exposure(funds[..|funds| - 1], tv, s) + last.amount / tv * Get(last.sectors, s)
  {
    var last := funds[|funds| - 1];
    ContributionOfGet(last.sectors, last.amount / tv, s);
  }

  /** Every fund's `sectors` came from `JSON.parse`, so it names no sector twice. */
  predicate ParsedSectors(funds: seq<Fund>)
  {
    forall i :: 0 <= i < |funds| ==> DistinctKeys(funds[i].sectors)
  }

  /** `fund => (fund.amount / totalValue) * fund.sectors[s]`, a sector the fund does not name reading 0. */
  function WeightedOf(tv: real, s: string): Fund -> real
    requires tv != 0.0
  {
    (f: Fund) => f.amount / tv * Get(f.sectors, s)
  }

  /** The last fund adds its weighted term, as a parsed object reads it. */
  lemma {:induction false} WeightedStep(funds: seq<Fund>, tv: real, s: string)
    requires funds != [] && tv != 0.0 && DistinctKeys(funds[|funds| - 1].sectors)
    ensures Exposure(funds, tv, s) == Exposure(funds[..|funds| - 1], tv, s) + WeightedOf(tv, s)(funds[|funds| - 1])
  {
    ExposureStep(funds, tv, s);
  }

  /** On parsed objects the exposure of s is the sum over the funds of their share times their weight for s. */
  lemma {:induction false} ExposureIsWeightedSum(funds: seq<Fund>, tv: real, s: string)
    requires tv != 0.0 && ParsedSectors(funds)
    ensures Exposure(funds, tv, s) == SumBy(funds, WeightedOf(tv, s))
    decreases |funds|
  {
    if funds != [] {
      var init := funds[..|funds| - 1];
      assert ParsedSectors(init) by {
        forall i | 0 <= i < |init|
          ensures DistinctKeys(init[i].sectors)
        {
          assert init[i] == funds[i];
        }
      }
      ExposureIsWeightedSum(init, tv, s);
      WeightedStep(funds, tv, s);
    }
  }

  /** Summed over distinct names that cover every sector, the exposures add up to the sum of the fund shares. */
  lemma {:induction false} ExposureTotal(funds: seq<Fund>, tv: real, ks: seq<string>)
    requires tv != 0.0 && Distinct(ks)
    requires forall i :: 0 <= i < |funds| ==> DistinctKeys(funds[i].sectors) && SumValues(funds[i].sectors) == 1.0
    requires forall i, k :: 0 <= i < |funds| && k in Keys(funds[i].sectors) ==> k in ks
    ensures SumBy(ks, ExposureOf(funds, tv)) == ShareSum(funds, tv)
    decreases |funds|
  {
    if funds != [] {
      var init, last := funds[..|funds| - 1], funds[|funds| - 1];
      var share := last.amount / tv;
      ExposureTotal(init, tv, ks);
      ExposureSplit(funds, tv, ks);
      SumByAdd(ks, ExposureOf(init, tv), ScaledOf(last.sectors, share), ExposureOf(funds, tv));
      FundContributionSum(last.sectors, share, ks);
    } else {
      SumByConstant(ks, ExposureOf(funds, tv), 0.0);
    }
  }

  /**
   * When the total value is not 0 and every fund splits over sectors with weights that add
   * up to 1, the entries of `sectorWeights` add up to 1.
   */
  lemma {:induction false} SectorWeightsSumToOne(funds: seq<Fund>)
    requires TotalValue(funds) != 0.0
    requires forall i :: 0 <= i < |funds| ==> DistinctKeys(funds[i].sectors) && SumValues(funds[i].sectors) == 1.0
    ensures SumValues(SectorFractions(funds, TotalValue(funds))) == 1.0
  {
    var tv, ks := TotalValue(funds), Dedup(AllSectorKeys(funds));
    FractionsSum(funds, tv, ks);
    forall i, k | 0 <= i < |funds| && k in Keys(funds[i].sectors)
      ensures k in ks
    {
      AllSectorKeysMembers(funds, k);
    }
    ExposureTotal(funds, tv, ks);
    SharesSumToOne(funds);
  }

  /** A fund of non-negative amount whose sector split is a well-formed object of non-negative weights adding up to 1. */
  predicate ConventionalFund(f: Fund)
  {
    0.0 <= f.amount && DistinctKeys(f.sectors) && NonNegativeValues(f.sectors) && SumValues(f.sectors) == 1.0
  }

  /** With a positive total and conventional funds no exposure is negative. */
  lemma {:induction false} ExposureNonNegative(funds: seq<Fund>, tv: real, s: string)
    requires 0.0 < tv
    requires forall i :: 0 <= i < |funds| ==> ConventionalFund(funds[i])
    ensures 0.0 <= Exposure(funds, tv, s)
    decreases |funds|
  {
    if funds != [] {
      var init, last := funds[..|funds| - 1], funds[|funds| - 1];
      var share := last.amount / tv;
      ExposureNonNegative(init, tv, s);
      ContributionOfGet(last.sectors, share, s);
      GetNonNegative(last.sectors, s);
      ShareWeightNonNegative(last.amount, tv, Get(last.sectors, s));
    }
  }

  lemma {:induction false} ShareWeightNonNegative(amount: real, tv: real, weight: real)
    requires 0.0 <= amount && 0.0 < tv && 0.0 <= weight
    ensures 0.0 <= amount / tv * weight
  {
    assert 0.0 <= amount / tv;
  }

  /** With a positive total and conventional funds every entry of `sectorWeights` is non-negative. */
  lemma {:induction false} SectorWeightsNonNegative(funds: seq<Fund>, tv: real)
    requires 0.0 < tv
    requires forall i :: 0 <= i < |funds| ==> ConventionalFund(funds[i])
    ensures NonNegativeValues(SectorFractions(funds, tv))
  {
    var ks := Dedup(AllSectorKeys(funds));
    var w := SectorFractions(funds, tv);
    forall i | 0 <= i < |w|
      ensures 0.0 <= w[i].1
    {
      FractionsAt(funds, tv, ks, i);
      ExposureNonNegative(funds, tv, ks[i]);
    }
  }

  // ---------------------------------------------------------------- concentration

  /**
   * The `sectorDiversification` object: each sector keeps its place and shows its fraction
   * times 100, rounded to two decimals.
   */
  function Percentages(weights: Dict): (r: Dict)
    ensures |r| == |weights|
    ensures Keys(r) == Keys(weights)
  {
    seq(|weights|, i requires 0 <= i < |weights| => (weights[i].0, Round2(weights[i].1 * 100.0)))
  }

  /** The Herfindahl-Hirschman index: the sum of the squared (unrounded) fractions. */
  function SumOfSquares(weights: Dict): real
    decreases |weights|
  {
    if weights == [] then 0.0
    else SumOfSquares(weights[..|weights| - 1]) + Square(weights[|weights| - 1].1)
  }

  /** `Math.pow(x, 2)` */
  function Square(x: real): real
  {
    x * x
  }

  /** `+((1 - hhi) * 100).toFixed(2)` */
  function SectorScore(hhi: real): real
  {
    Round2((1.0 - hhi) * 100.0)
  }

  /**
   * The loop over `Object.entries(sectorWeights)` that fills `sectorDiversification` with
   * rounded percentages and accumulates `hhi += Math.pow(weight, 2)` on the unrounded weights.
   */
  method Concentration(weights: Dict) returns (sectorDiversification: Dict, hhi: real)
    requires DistinctKeys(weights)
    ensures sectorDiversification == Percentages(weights)
    ensures hhi == SumOfSquares(weights)
  {
    sectorDiversification := [];
    hhi := 0.0;
    for i := 0 to |weights|
      invariant sectorDiversification == Percentages(weights[..i])
      invariant hhi == SumOfSquares(weights[..i])
    {
      var sector, weight := weights[i].0, weights[i].1;
      var percent := Round2(weight * 100.0);
      ConcentrationStep(weights, i, sectorDiversification);
      sectorDiversification := Put(sectorDiversification, sector, percent);
      hhi := hhi + Square(weight);
      assert sectorDiversification == Percentages(weights[..i + 1]);
    }
    assert weights[..|weights|] == weights;
  }

  /** Sector keys are distinct, so each assignment of the loop appends a new entry. */
  lemma {:induction false} ConcentrationStep(weights: Dict, i: nat, shown: Dict)
    requires DistinctKeys(weights) && i < |weights| && shown == Percentages(weights[..i])
    ensures DistinctKeys(shown)
    ensures Put(shown, weights[i].0, Round2(weights[i].1 * 100.0)) == Percentages(weights[..i + 1])
    ensures SumOfSquares(weights[..i + 1]) == SumOfSquares(weights[..i]) + Square(weights[i].1)
  {
    ShownFresh(weights, i, shown);
    PutNew(shown, weights[i].0, Round2(weights[i].1 * 100.0));
    PercentagesSnoc(weights, i);
    SquaresSnoc(weights, i);
  }

  lemma {:induction false} ShownFresh(weights: Dict, i: nat, shown: Dict)
    requires DistinctKeys(weights) && i < |weights| && shown == Percentages(weights[..i])
    ensures DistinctKeys(shown) && weights[i].0 !in Keys(shown)
  {
    assert Keys(shown) == Keys(weights[..i]) == Keys(weights)[..i];
    forall j | 0 <= j < i
      ensures Keys(shown)[j] != weights[i].0
    {
      assert Keys(weights)[j] != Keys(weights)[i];
    }
  }

  /** Each shown percentage is within 0.005 of 100 times its fraction, so their sum is within 0.005 per sector of 100 times the total. */
  lemma {:induction false} PercentagesSumNear(d: Dict)
    ensures 100.0 * SumValues(d) - 0.005 * (|d| as real) <= SumValues(Percentages(d))
    ensures SumValues(Percentages(d)) <= 100.0 * SumValues(d) + 0.005 * (|d| as real)
    decreases |d|
  {
    if d != [] {
      var n := |d|;
      var init := d[..n - 1];
      var shown := Percentages(d);
      PercentagesSumNear(init);
      PercentagesSnoc(d, n - 1);
      assert d[..n] == d;
      assert shown[..n - 1] == Percentages(init);
      var x := d[n - 1].1 * 100.0;
      assert shown[n - 1].1 == Round2(x);
      assert x - 0.005 <= Round2(x) <= x + 0.005;
    }
  }

  lemma {:induction false} PercentagesSnoc(weights: Dict, i: nat)
    requires i < |weights|
    ensures Percentages(weights[..i + 1]) == Percentages(weights[..i]) + [(weights[i].0, Round2(weights[i].1 * 100.0))]
  {
    var a, b := Percentages(weights[..i + 1]), Percentages(weights[..i]) + [(weights[i].0, Round2(weights[i].1 * 100.0))];
    assert |a| == |b|;
    forall k | 0 <= k < |a|
      ensures a[k] == b[k]
    {
      if k < i {
        assert b[k] == Percentages(weights[..i])[k];
      }
    }
  }

  lemma {:induction false} SquaresSnoc(weights: Dict, i: nat)
    requires i < |weights|
    ensures SumOfSquares(weights[..i + 1]) == SumOfSquares(weights[..i]) + Square(weights[i].1)
  {
    assert weights[..i + 1][..i] == weights[..i];
  }

  // ---------------------------------------------------------------- index bounds

  lemma {:induction false} SumValuesNonNegative(d: Dict)
    requires NonNegativeValues(d)
    ensures 0.0 <= SumValues(d)
    decreases |d|
  {
    if d != [] {
      SumValuesNonNegative(d[..|d| - 1]);
    }
  }

  /** With non-negative fractions no single fraction exceeds their sum. */
  lemma {:induction false} ValueAtMostSum(d: Dict, i: nat)
    requires NonNegativeValues(d) && i < |d|
    ensures d[i].1 <= SumValues(d)
    decreases |d|
  {
    var init := d[..|d| - 1];
    if i < |d| - 1 {
      ValueAtMostSum(init, i);
    }
    SumValuesNonNegative(init);
  }

  /** The sum of squares of non-negative values lies between 0 and the square of their sum. */
  lemma {:induction false} SquaresAtMostSquaredSum(d: Dict)
    requires NonNegativeValues(d)
    ensures 0.0 <= SumOfSquares(d) <= SumValues(d) * SumValues(d)
    decreases |d|
  {
    if d != [] {
      var init, w := d[..|d| - 1], d[|d| - 1].1;
      SquaresAtMostSquaredSum(init);
      SumValuesNonNegative(init);
      var s := SumValues(init);
      assert 0.0 <= s * w;
      assert (s + w) * (s + w) == s * s + 2.0 * s * w + w * w;
    }
  }

  lemma {:induction false} SquareNonNegative(x: real)
    ensures 0.0 <= x * x == Square(x)
  {
    if x < 0.0 {
      assert x * x == (-x) * (-x);
    }
  }

  /** The arithmetic step of the Cauchy-Schwarz bound: from k terms to k + 1. */
  lemma {:induction false} CauchyStep(k: real, q: real, s: real, w: real)
    requires 0.0 <= k && k * q >= s * s
    requires k == 0.0 ==> q == 0.0 && s == 0.0
    ensures (k + 1.0) * (q + w * w) >= (s + w) * (s + w)
  {
    if k > 0.0 {
      SquareNonNegative(s - k * w);
      assert s * s + k * k * (w * w) >= 2.0 * k * (s * w);
      assert k * q + k * k * (w * w) >= 2.0 * k * (s * w);
      assert k * (q + k * (w * w)) >= k * (2.0 * (s * w));
      assert q + k * (w * w) >= 2.0 * (s * w);
    }
  }

  /** `|d| * Σw² >= (Σw)²`: the index is never below 1/k for k sectors. */
  lemma {:induction false} SquaresAtLeastMean(d: Dict)
    ensures (|d| as real) * SumOfSquares(d) >= SumValues(d) * SumValues(d)
    decreases |d|
  {
    if d != [] {
      var init, w := d[..|d| - 1], d[|d| - 1].1;
      SquaresAtLeastMean(init);
      CauchyStep(|init| as real, SumOfSquares(init), SumValues(init), w);
      assert |d| as real == |init| as real + 1.0;
    }
  }

  /**
   * For non-negative fractions that add up to 1 over k sectors the index lies in [1/k, 1]
   * and is positive.
   */
  lemma {:induction false} HhiBounds(d: Dict)
    requires NonNegativeValues(d) && SumValues(d) == 1.0
    ensures |d| > 0
    ensures 1.0 / (|d| as real) <= SumOfSquares(d) <= 1.0
    ensures 0.0 < SumOfSquares(d)
  {
    SquaresAtMostSquaredSum(d);
    SquaresAtLeastMean(d);
    var k := |d| as real;
    assert k * SumOfSquares(d) >= 1.0;
    assert SumOfSquares(d) >= 1.0 / k;
    assert 0.0 < 1.0 / k;
  }

  /**
   * The sector score of such fractions: the unrounded score lies in [0, 100), and the
   * published score in [0, 100], never above the score of k equal sectors.
   */
  lemma {:induction false} ScoreBounds(d: Dict)
    requires NonNegativeValues(d) && SumValues(d) == 1.0
    ensures 0.0 <= (1.0 - SumOfSquares(d)) * 100.0 < 100.0
    ensures 0.0 <= SectorScore(SumOfSquares(d)) <= 100.0
    ensures SectorScore(SumOfSquares(d)) <= SectorScore(1.0 / (|d| as real))
  {
    HhiBounds(d);
    var hhi := SumOfSquares(d);
    RoundPercentInRange((1.0 - hhi) * 100.0);
    RoundMonotone((1.0 - hhi) * 100.0, (1.0 - 1.0 / (|d| as real)) * 100.0);
  }

  /** Fractions in [0, 1] show as percentages in [0, 100]. */
  lemma {:induction false} PercentagesInRange(d: Dict)
    requires NonNegativeValues(d) && SumValues(d) == 1.0
    ensures |Percentages(d)| == |d|
    ensures forall i :: 0 <= i < |d| ==> 0.0 <= Percentages(d)[i].1 <= 100.0
  {
    forall i | 0 <= i < |d|
      ensures 0.0 <= Percentages(d)[i].1 <= 100.0
    {
      ValueAtMostSum(d, i);
      RoundPercentInRange(d[i].1 * 100.0);
    }
  }

  /**
   * A portfolio of conventional funds with a positive total: the sector weights are
   * non-negative and add up to 1, every shown percentage lies in [0, 100], the index lies in
   * [1/k, 1] for its k sectors, and the score lies in [0, 100].
   */
  lemma {:induction false} ConventionalPortfolio(funds: seq<Fund>)
    requires 0.0 < TotalValue(funds)
    requires forall i :: 0 <= i < |funds| ==> ConventionalFund(funds[i])
    ensures NonNegativeValues(SectorFractions(funds, TotalValue(funds)))
    ensures SumValues(SectorFractions(funds, TotalValue(funds))) == 1.0
    ensures forall i :: 0 <= i < |SectorFractions(funds, TotalValue(funds))| ==>
      0.0 <= Percentages(SectorFractions(funds, TotalValue(funds)))[i].1 <= 100.0
    ensures |SectorFractions(funds, TotalValue(funds))| > 0
    ensures 1.0 / (|SectorFractions(funds, TotalValue(funds))| as real)
      <= SumOfSquares(SectorFractions(funds, TotalValue(funds))) <= 1.0
    ensures 0.0 <= SectorScore(SumOfSquares(SectorFractions(funds, TotalValue(funds)))) <= 100.0
  {
    var w := SectorFractions(funds, TotalValue(funds));
    SectorWeightsSumToOne(funds);
    SectorWeightsNonNegative(funds, TotalValue(funds));
    PercentagesInRange(w);
    HhiBounds(w);
    ScoreBounds(w);
  }

  /** All weight in one sector: the index is 1 and the score 0. */
  lemma {:induction false} SingleSector(d: Dict)
    requires |d| == 1 && SumValues(d) == 1.0
    ensures SumOfSquares(d) == 1.0
    ensures SectorScore(SumOfSquares(d)) == 0.0
  {
    assert d[..0] == [];
    RoundHundredths(0);
  }

  /** k sectors of weight 1/k each: the fractions add up to 1 and the index is 1/k. */
  lemma {:induction false} EqualSectors(d: Dict, k: nat)
    requires k > 0 && |d| == k
    requires forall i :: 0 <= i < |d| ==> d[i].1 == 1.0 / (k as real)
    ensures SumValues(d) == 1.0
    ensures SumOfSquares(d) == 1.0 / (k as real)
    ensures SectorScore(SumOfSquares(d)) == Round2((1.0 - 1.0 / (k as real)) * 100.0)
  {
    EqualSums(d, 1.0 / (k as real));
    var c := 1.0 / (k as real);
    assert (k as real) * c == 1.0;
    assert (k as real) * (c * c) == c;
  }

  lemma {:induction false} EqualSums(d: Dict, c: real)
    requires forall i :: 0 <= i < |d| ==> d[i].1 == c
    ensures SumValues(d) == (|d| as real) * c
    ensures SumOfSquares(d) == (|d| as real) * (c * c)
    decreases |d|
  {
    if d != [] {
      EqualSums(d[..|d| - 1], c);
    }
  }
}
