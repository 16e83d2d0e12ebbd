/**
 * The Kotlin estimator beside the Python one: the same holdings and
 * quotes, handed to `estimate_nav_change` as dictionaries keyed by the
 * holdings' quote symbols.
 */
module Pipeline {
  import opened Optional
  import opened Numbers
  import opened FundData
  import NavEstimator
  import Valuation

  /** A holding as the Python estimator receives it: its quote symbol is its `fetch_code`. */
  function AsPyHolding(h: Holding): Valuation.PyHolding
  {
    Valuation.PyHolding(h.code, h.name, h.weight, h.sinaCode)
  }

  function AsPyHoldings(holdings: seq<Holding>): (r: seq<Valuation.PyHolding>)
    ensures |r| == |holdings|
  {
    if |holdings| == 0 then [] else AsPyHoldings(holdings[..|holdings| - 1]) + [AsPyHolding(holdings[|holdings| - 1])]
  }

  /** A quote as the Python estimator receives it: `price` and `change` both present. */
  function AsStockData(p: StockPrice): Valuation.StockData
  {
    Valuation.StockData(Some(p.price), Some(p.changePct))
  }

  function AsPyPrices(prices: map<string, StockPrice>): map<string, Valuation.StockData>
  {
    map k | k in prices :: AsStockData(prices[k])
  }

  /**
   * With every holding carrying a quote symbol (as every parsed holding
   * does), the two estimators add up the same weighted changes: an
   * unquoted holding contributes nothing to either.
   */
  lemma {:induction false} SameWeightedChanges(holdings: seq<Holding>, prices: map<string, StockPrice>)
    requires forall i :: 0 <= i < |holdings| ==> holdings[i].sinaCode.Some?
    ensures Valuation.WeightedSum(AsPyHoldings(holdings), AsPyPrices(prices)) == NavEstimator.WeightedChange(holdings, prices)
  {
    if |holdings| > 0 {
      var init := holdings[..|holdings| - 1];
      assert forall i :: 0 <= i < |init| ==> init[i] == holdings[i];
      SameWeightedChanges(init, prices);
      SameLastTerm(holdings, prices);
    }
  }

  /** The last holding grows both sums by the same amount. */
  lemma {:induction false} SameLastTerm(holdings: seq<Holding>, prices: map<string, StockPrice>)
    requires |holdings| > 0 && holdings[|holdings| - 1].sinaCode.Some?
    ensures var init := holdings[..|holdings| - 1]; var pyPrices := AsPyPrices(prices);
      Valuation.WeightedSum(AsPyHoldings(holdings), pyPrices) - Valuation.WeightedSum(AsPyHoldings(init), pyPrices) ==
      NavEstimator.WeightedChange(holdings, prices) - NavEstimator.WeightedChange(init, prices)
  {
    var init := holdings[..|holdings| - 1];
    var h := holdings[|holdings| - 1];
    var py := AsPyHoldings(holdings);
    assert py[..|py| - 1] == AsPyHoldings(init) && py[|py| - 1] == AsPyHolding(h);
    SameTerm(h, prices);
  }

  /** One holding adds the same weighted change to both sums. */
  lemma {:induction false} SameTerm(h: Holding, prices: map<string, StockPrice>)
    requires h.sinaCode.Some?
    ensures var q := NavEstimator.QuoteFor(h, prices);
      Valuation.ChangeOf(AsPyHolding(h), AsPyPrices(prices)) * h.weight ==
      (if q.Some? then h.weight * q.value.changePct else 0.0)
  {
  }

  /**
   * With every holding quoted, the Python estimator's total weight is the
   * Kotlin estimator's matched weight.
   */
  lemma {:induction false} SameTotalWhenAllQuoted(holdings: seq<Holding>, prices: map<string, StockPrice>)
    requires forall i :: 0 <= i < |holdings| ==> NavEstimator.QuoteFor(holdings[i], prices).Some?
    ensures Valuation.TotalWeight(AsPyHoldings(holdings)) == NavEstimator.MatchedWeight(holdings, prices)
  {
    if |holdings| > 0 {
      var init := holdings[..|holdings| - 1];
      var h := holdings[|holdings| - 1];
      assert forall i :: 0 <= i < |init| ==> init[i] == holdings[i];
      SameTotalWhenAllQuoted(init, prices);
      var py := AsPyHoldings(holdings);
      assert py[..|py| - 1] == AsPyHoldings(init) && py[|py| - 1] == AsPyHolding(h);
    }
  }

  /**
   * With every holding quoted and a positive total weight, the Kotlin
   * estimator's result is the Python estimator's rounded half-up to four
   * decimals.
   */
  lemma {:induction false} AgreeWhenAllQuoted(holdings: seq<Holding>, prices: map<string, StockPrice>)
    requires forall i :: 0 <= i < |holdings| ==> NavEstimator.QuoteFor(holdings[i], prices).Some?
    requires NavEstimator.MatchedWeight(holdings, prices) > 0.0
    ensures Valuation.ValuationOf(AsPyHoldings(holdings), AsPyPrices(prices)).estimatedChange.Some?
    ensures NavEstimator.NavEstimationOf(holdings, prices).estimatedChange ==
      RoundHalfUp4(Valuation.ValuationOf(AsPyHoldings(holdings), AsPyPrices(prices)).estimatedChange.value)
  {
    SameWeightedChanges(holdings, prices);
    SameTotalWhenAllQuoted(holdings, prices);
    Valuation.EstimateIsWeightedMean(AsPyHoldings(holdings), AsPyPrices(prices));
  }

  /**
   * In general the Python estimator divides the same weighted change by the
   * total of ALL the weights, where the Kotlin estimator divides it by the
   * matched weight.
   */
  lemma {:induction false} PyDividesByAllWeights(holdings: seq<Holding>, prices: map<string, StockPrice>)
    requires forall i :: 0 <= i < |holdings| ==> holdings[i].sinaCode.Some?
    requires Valuation.TotalWeight(AsPyHoldings(holdings)) != 0.0
    ensures Valuation.ValuationOf(AsPyHoldings(holdings), AsPyPrices(prices)).estimatedChange ==
      Some(NavEstimator.WeightedChange(holdings, prices) / Valuation.TotalWeight(AsPyHoldings(holdings)))
  {
    SameWeightedChanges(holdings, prices);
    Valuation.EstimateIsWeightedMean(AsPyHoldings(holdings), AsPyPrices(prices));
  }
}
