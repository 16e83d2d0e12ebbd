/**
 * The Python `estimate_nav_change`, which the app also runs on the device:
 * every holding contributes its change times its weight over the TOTAL
 * weight of all holdings, quoted or not; a holding without a quote contributes a change of 0. Python's
 * dictionaries are records here: an absent key is `None`.
 */
module Valuation {
  import opened Optional

  /** A holding dictionary: `code`, `name`, `weight` and an optional `fetch_code`. */
  datatype PyHolding = PyHolding(code: string, name: string, weight: real, fetchCode: Option<string>)

  /** A price dictionary: `price` and `change`, either of which may be absent. */
  datatype StockData = StockData(price: Option<real>, change: Option<real>)

  /** One entry of `details`: the price is `None` when the quote had none. */
  datatype PyDetail = PyDetail(code: string, name: string, weight: real, price: Option<real>, change: real)

  /**
   * The returned dictionary. `estimatedChange` is `None` when the estimate
   * is; `totalWeightUsed` is `None` when the key is absent.
   */
  datatype PyValuation = PyValuation(estimatedChange: Option<real>, totalWeightUsed: Option<real>, details: seq<PyDetail>)

  /** `sum(h['weight'] for h in holdings)`. */
  function TotalWeight(holdings: seq<PyHolding>): real
  {
    if |holdings| == 0 then 0.0 else TotalWeight(holdings[..|holdings| - 1]) + holdings[|holdings| - 1].weight
  }

  /** `holding.get('fetch_code', holding['code'])`. */
  function LookupKey(h: PyHolding): string
  {
    h.fetchCode.GetOr(h.code)
  }

  /** `prices.get(fetch_code, {})`: an unquoted holding sees an empty dictionary. */
  function StockDataFor(h: PyHolding, prices: map<string, StockData>): StockData
  {
    var key := LookupKey(h);
    if key in prices then prices[key] else StockData(None, None)
  }

  /** `stock_data.get('change', 0.0)`. */
  function ChangeOf(h: PyHolding, prices: map<string, StockData>): real
  {
    StockDataFor(h, prices).change.GetOr(0.0)
  }

  /** The detail appended for one holding. */
  function DetailOf(h: PyHolding, prices: map<string, StockData>): PyDetail
  {
    PyDetail(h.code, h.name, h.weight, StockDataFor(h, prices).price, ChangeOf(h, prices))
  }

  /** One detail per holding, in order. */
  function DetailsOf(holdings: seq<PyHolding>, prices: map<string, StockData>): seq<PyDetail>
  {
    if |holdings| == 0 then []
    else DetailsOf(holdings[..|holdings| - 1], prices) + [DetailOf(holdings[|holdings| - 1], prices)]
  }

  /** The running sum of `(change * weight) / total_weight`, one term per holding. */
  function Contributions(holdings: seq<PyHolding>, prices: map<string, StockData>, total: real): real
    requires total != 0.0
  {
    if |holdings| == 0 then 0.0
    else
      var h := holdings[|holdings| - 1];
      Contributions(holdings[..|holdings| - 1], prices, total) + (ChangeOf(h, prices) * h.weight) / total
  }

  /** The whole result, both early returns included. */
  function ValuationOf(holdings: seq<PyHolding>, prices: map<string, StockData>): PyValuation
  {
    if |holdings| == 0 then PyValuation(None, None, [])
    else
      var total := TotalWeight(holdings);
      if total == 0.0 then PyValuation(None, None, [])
      else PyValuation(Some(Contributions(holdings, prices, total)), Some(total), DetailsOf(holdings, prices))
  }

  lemma {:induction false} PrefixStep(holdings: seq<PyHolding>, i: nat)
    requires i < |holdings|
    ensures holdings[..i + 1][..i] == holdings[..i] && holdings[..i + 1][i] == holdings[i]
  {
  }

  /**
   * `estimate_nav_change`: the two early returns, then one pass that
   * accumulates the contributions and appends the details.
   */
  method EstimateNavChange(holdings: seq<PyHolding>, prices: map<string, StockData>) returns (r: PyValuation)
    ensures r == ValuationOf(holdings, prices)
  {
    if |holdings| == 0 {
      return PyValuation(None, None, []);
    }
    var totalWeight := TotalWeight(holdings);
    if totalWeight == 0.0 {
      return PyValuation(None, None, []);
    }
    var weightedChange := 0.0;
    var details: seq<PyDetail> := [];
    for i := 0 to |holdings|
      invariant weightedChange == Contributions(holdings[..i], prices, totalWeight)
      invariant details == DetailsOf(holdings[..i], prices)
    {
      PrefixStep(holdings, i);
      var holding := holdings[i];
      var fetchCode := holding.fetchCode.GetOr(holding.code);
      var stockData := if fetchCode in prices then prices[fetchCode] else StockData(None, None);
      var price := stockData.price;
      var change := stockData.change.GetOr(0.0);
      var contribution := (change * holding.weight) / totalWeight;
      weightedChange := weightedChange + contribution;
      details := details + [PyDetail(holding.code, holding.name, holding.weight, price, change)];
    }
    assert holdings[..|holdings|] == holdings;
    return PyValuation(Some(weightedChange), Some(totalWeight), details);
  }

  /** Empty holdings: no estimate, no details, and no `total_weight_used` key. */
  lemma {:induction false} EmptyHoldingsNoEstimate(prices: map<string, StockData>)
    ensures ValuationOf([], prices) == PyValuation(None, None, [])
  {
  }

  /** Zero total weight: no estimate, no details, and no `total_weight_used` key. */
  lemma {:induction false} ZeroWeightNoEstimate(holdings: seq<PyHolding>, prices: map<string, StockData>)
    requires TotalWeight(holdings) == 0.0
    ensures ValuationOf(holdings, prices) == PyValuation(None, None, [])
  {
  }

  /**
   * Otherwise there is an estimate, the total used is the sum of ALL the
   * weights, and there is one detail per holding, in order: its price is
   * the quote's, looked up by `fetch_code` when the holding has one and by
   * `code` otherwise, and `None` without a quote; its change is 0 without
   * a quote or a `change` key.
   */
  lemma {:induction false} DetailsPerHolding(holdings: seq<PyHolding>, prices: map<string, StockData>)
    ensures |DetailsOf(holdings, prices)| == |holdings|
    ensures forall i :: 0 <= i < |holdings| ==>
      var h := holdings[i];
      var key := if h.fetchCode.Some? then h.fetchCode.value else h.code;
      var d := DetailsOf(holdings, prices)[i];
      d.code == h.code && d.name == h.name && d.weight == h.weight &&
      d.price == (if key in prices then prices[key].price else None) &&
      d.change == (if key in prices && prices[key].change.Some? then prices[key].change.value else 0.0)
  {
    if |holdings| > 0 {
      var init := holdings[..|holdings| - 1];
      DetailsPerHolding(init, prices);
      assert forall i :: 0 <= i < |init| ==> holdings[i] == init[i];
    }
  }

  /** The sum of change times weight over all holdings. */
  function WeightedSum(holdings: seq<PyHolding>, prices: map<string, StockData>): real
  {
    if |holdings| == 0 then 0.0
    else
      var h := holdings[|holdings| - 1];
      WeightedSum(holdings[..|holdings| - 1], prices) + ChangeOf(h, prices) * h.weight
  }

  /** Summing the contributions is dividing the weighted sum by the total. */
  lemma {:induction false} ContributionsAreWeightedMean(holdings: seq<PyHolding>, prices: map<string, StockData>, total: real)
    requires total != 0.0
    ensures Contributions(holdings, prices, total) == WeightedSum(holdings, prices) / total
  {
    if |holdings| > 0 {
      var h := holdings[|holdings| - 1];
      ContributionsAreWeightedMean(holdings[..|holdings| - 1], prices, total);
      AddQuotients(WeightedSum(holdings[..|holdings| - 1], prices), ChangeOf(h, prices) * h.weight, total);
    }
  }

  lemma {:induction false} AddQuotients(a: real, b: real, t: real)
    requires t != 0.0
    ensures a / t + b / t == (a + b) / t
  {
  }

  /** The estimate is the weighted mean of the changes over all the weights. */
  lemma {:induction false} EstimateIsWeightedMean(holdings: seq<PyHolding>, prices: map<string, StockData>)
    requires TotalWeight(holdings) != 0.0
    ensures ValuationOf(holdings, prices).estimatedChange == Some(WeightedSum(holdings, prices) / TotalWeight(holdings))
  {
    ContributionsAreWeightedMean(holdings, prices, TotalWeight(holdings));
  }

  /** Every holding with the same change `c`: the weighted sum is `c` times the total. */
  lemma {:induction false} UniformWeightedSum(holdings: seq<PyHolding>, prices: map<string, StockData>, c: real)
    requires forall i :: 0 <= i < |holdings| ==> ChangeOf(holdings[i], prices) == c
    ensures WeightedSum(holdings, prices) == c * TotalWeight(holdings)
  {
    if |holdings| > 0 {
      var init := holdings[..|holdings| - 1];
      var h := holdings[|holdings| - 1];
      assert forall i :: 0 <= i < |init| ==> init[i] == holdings[i];
      UniformWeightedSum(init, prices, c);
      assert c * (TotalWeight(init) + h.weight) == c * TotalWeight(init) + c * h.weight;
    }
  }

  /** Every holding with the same change `c` and a nonzero total: the estimate is `c`. */
  lemma {:induction false} UniformChangeEstimate(holdings: seq<PyHolding>, prices: map<string, StockData>, c: real)
    requires forall i :: 0 <= i < |holdings| ==> ChangeOf(holdings[i], prices) == c
    requires TotalWeight(holdings) != 0.0
    ensures ValuationOf(holdings, prices).estimatedChange == Some(c)
  {
    UniformWeightedSum(holdings, prices, c);
    EstimateIsWeightedMean(holdings, prices);
    Cancel(c, TotalWeight(holdings), WeightedSum(holdings, prices));
  }

  lemma {:induction false} Cancel(c: real, t: real, s: real)
    requires t != 0.0 && s == c * t
    ensures s / t == c
  {
  }

  /**
   * A holding with no quote still counts in the total: appending one keeps
   * the weighted sum and grows the total by its weight, so the estimate is
   * diluted towards 0.
   */
  lemma {:induction false} MissingQuoteDilutes(holdings: seq<PyHolding>, h: PyHolding, prices: map<string, StockData>)
    requires LookupKey(h) !in prices
    requires TotalWeight(holdings) + h.weight != 0.0
    ensures ValuationOf(holdings + [h], prices).totalWeightUsed == Some(TotalWeight(holdings) + h.weight)
    ensures ValuationOf(holdings + [h], prices).estimatedChange ==
      Some(WeightedSum(holdings, prices) / (TotalWeight(holdings) + h.weight))
  {
    var hs := holdings + [h];
    assert hs[..|hs| - 1] == holdings && hs[|hs| - 1] == h;
    assert TotalWeight(hs) == TotalWeight(holdings) + h.weight;
    assert WeightedSum(hs, prices) == WeightedSum(holdings, prices);
    EstimateIsWeightedMean(hs, prices);
  }
}
