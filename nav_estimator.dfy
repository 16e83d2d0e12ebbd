/**
 * `estimateNavChange`: joins the holdings with the quotes fetched for their
 * symbols and estimates the fund's change as the weight-averaged change of
 * the holdings that have a quote, rounded half-up to four decimals; 0 when
 * no weight matched. The fetch itself is left out: the quotes it returned
 * are a parameter.
 */
module NavEstimator {
  import opened Optional
  import opened Numbers
  import opened Filtering
  import opened FundData

  /** `stockPrices[holding.sinaCode]`: a holding without a symbol finds nothing. */
  function QuoteFor(h: Holding, prices: map<string, StockPrice>): (r: Option<StockPrice>)
    ensures r.Some? <==> h.sinaCode.Some? && h.sinaCode.value in prices
    ensures r.Some? ==> r.value == prices[h.sinaCode.value]
  {
    if h.sinaCode.Some? && h.sinaCode.value in prices then Some(prices[h.sinaCode.value]) else None
  }

  /** The symbols requested from the quote vendor: `holdings.mapNotNull { it.sinaCode }`. */
  function QuoteSymbols(holdings: seq<Holding>): (r: seq<string>)
    ensures forall s :: s in r <==> exists h :: h in holdings && h.sinaCode == Some(s)
  {
    if |holdings| == 0 then []
    else
      var init := holdings[..|holdings| - 1];
      var last := holdings[|holdings| - 1];
      assert holdings == init + [last];
      QuoteSymbols(init) + (match last.sinaCode case Some(s) => [s] case None => [])
  }

  /** The sum of the weights of the holdings that have a quote. */
  function MatchedWeight(holdings: seq<Holding>, prices: map<string, StockPrice>): real
  {
    if |holdings| == 0 then 0.0
    else
      var last := holdings[|holdings| - 1];
      MatchedWeight(holdings[..|holdings| - 1], prices) +
      (if QuoteFor(last, prices).Some? then last.weight else 0.0)
  }

  /** The sum of weight times change over the holdings that have a quote. */
  function WeightedChange(holdings: seq<Holding>, prices: map<string, StockPrice>): real
  {
    if |holdings| == 0 then 0.0
    else
      var last := holdings[|holdings| - 1];
      var q := QuoteFor(last, prices);
      WeightedChange(holdings[..|holdings| - 1], prices) +
      (if q.Some? then last.weight * q.value.changePct else 0.0)
  }

  /** The detail a holding contributes, when it has a quote. */
  function DetailFor(h: Holding, prices: map<string, StockPrice>): Option<HoldingDetail>
  {
    match QuoteFor(h, prices)
    case None => None
    case Some(p) => Some(HoldingDetail(h.code, h.name, h.weight, p.price, p.changePct))
  }

  /** The details, in holding order. */
  function Details(holdings: seq<Holding>, prices: map<string, StockPrice>): seq<HoldingDetail>
  {
    FilterMap(holdings, h => DetailFor(h, prices))
  }

  /** HALF_UP to four decimals of the weighted mean when some weight matched, else 0. */
  function EstimateOf(weightedChange: real, totalWeight: real): real
  {
    if totalWeight > 0.0 then RoundHalfUp4(weightedChange / totalWeight) else 0.0
  }

  /** The whole estimate. */
  function NavEstimationOf(holdings: seq<Holding>, prices: map<string, StockPrice>): NavEstimation
  {
    var w := MatchedWeight(holdings, prices);
    NavEstimation(EstimateOf(WeightedChange(holdings, prices), w), w, Details(holdings, prices))
  }

  lemma {:induction false} Step(holdings: seq<Holding>, i: nat, prices: map<string, StockPrice>)
    requires i < |holdings|
    ensures var h := holdings[i]; var q := QuoteFor(h, prices);
      MatchedWeight(holdings[..i + 1], prices) ==
        MatchedWeight(holdings[..i], prices) + (if q.Some? then h.weight else 0.0) &&
      WeightedChange(holdings[..i + 1], prices) ==
        WeightedChange(holdings[..i], prices) + (if q.Some? then h.weight * q.value.changePct else 0.0)
  {
    assert holdings[..i + 1][..i] == holdings[..i];
  }

  /**
   * `estimateNavChange`, step by step: one pass over the holdings
   * accumulating the matched weight, the weighted change and the details.
   */
  method EstimateNavChange(holdings: seq<Holding>, stockPrices: map<string, StockPrice>) returns (r: NavEstimation)
    ensures r == NavEstimationOf(holdings, stockPrices)
  {
    var totalWeight := 0.0;
    var weightedChange := 0.0;
    var details: seq<HoldingDetail> := [];
    for i := 0 to |holdings|
      invariant totalWeight == MatchedWeight(holdings[..i], stockPrices)
      invariant weightedChange == WeightedChange(holdings[..i], stockPrices)
      invariant details == Details(holdings[..i], stockPrices)
    {
      Step(holdings, i, stockPrices);
      FilterMapStep(holdings, i, h => DetailFor(h, stockPrices));
      var holding := holdings[i];
      var stockPrice := QuoteFor(holding, stockPrices);
      if stockPrice.Some? {
        totalWeight := totalWeight + holding.weight;
        weightedChange := weightedChange + holding.weight * stockPrice.value.changePct;
        details := details + [HoldingDetail(holding.code, holding.name, holding.weight, stockPrice.value.price, stockPrice.value.changePct)];
      }
    }
    assert holdings[..|holdings|] == holdings;
    var estimatedChange := if totalWeight > 0.0 then RoundHalfUp4(weightedChange / totalWeight) else 0.0;
    return NavEstimation(estimatedChange, totalWeight, details);
  }

  /** The sum of the details' weights. */
  function DetailWeight(details: seq<HoldingDetail>): real
  {
    if |details| == 0 then 0.0 else DetailWeight(details[..|details| - 1]) + details[|details| - 1].weight
  }

  /** The reported total weight is the total weight of the reported details. */
  lemma {:induction false} TotalWeightIsDetailWeight(holdings: seq<Holding>, prices: map<string, StockPrice>)
    ensures MatchedWeight(holdings, prices) == DetailWeight(Details(holdings, prices))
  {
    if |holdings| > 0 {
      var init := holdings[..|holdings| - 1];
      TotalWeightIsDetailWeight(init, prices);
      var d := Details(init, prices);
      var last := holdings[|holdings| - 1];
      if DetailFor(last, prices).Some? {
        var x := DetailFor(last, prices).value;
        assert Details(holdings, prices) == d + [x];
        assert (d + [x])[..|d|] == d;
        assert DetailWeight(d + [x]) == DetailWeight(d) + last.weight;
      } else {
        assert Details(holdings, prices) == d;
      }
    }
  }

  /**
   * The details are the quoted holdings, one each, in input order, each
   * joined with its own quote.
   */
  lemma {:induction false} DetailsAreQuotedHoldings(holdings: seq<Holding>, prices: map<string, StockPrice>)
    ensures var ds := Details(holdings, prices); var ks := KeptIndices(holdings, h => DetailFor(h, prices));
      |ds| == |ks| &&
      (forall i :: 0 <= i < |holdings| && QuoteFor(holdings[i], prices).Some? ==> i in ks) &&
      forall k :: 0 <= k < |ds| ==>
        var h := holdings[ks[k]];
        QuoteFor(h, prices).Some? &&
        ds[k] == HoldingDetail(h.code, h.name, h.weight, QuoteFor(h, prices).value.price, QuoteFor(h, prices).value.changePct)
  {
    FilterMapFollowsKept(holdings, h => DetailFor(h, prices));
  }

  /** With no quote for any holding, the estimate is exactly 0 with nothing matched. */
  lemma {:induction false} NoQuotesNoEstimate(holdings: seq<Holding>, prices: map<string, StockPrice>)
    requires forall i :: 0 <= i < |holdings| ==> QuoteFor(holdings[i], prices).None?
    ensures NavEstimationOf(holdings, prices) == NavEstimation(0.0, 0.0, [])
  {
    NoQuotesNothingMatched(holdings, prices);
  }

  lemma {:induction false} NoQuotesNothingMatched(holdings: seq<Holding>, prices: map<string, StockPrice>)
    requires forall i :: 0 <= i < |holdings| ==> QuoteFor(holdings[i], prices).None?
    ensures MatchedWeight(holdings, prices) == 0.0 && WeightedChange(holdings, prices) == 0.0
    ensures Details(holdings, prices) == []
  {
    if |holdings| > 0 {
      var init := holdings[..|holdings| - 1];
      assert forall i :: 0 <= i < |init| ==> init[i] == holdings[i];
      NoQuotesNothingMatched(init, prices);
    }
  }

  /** A holding that has a quote moved by `c`. */
  predicate MovedBy(h: Holding, prices: map<string, StockPrice>, c: real)
  {
    QuoteFor(h, prices).Some? ==> QuoteFor(h, prices).value.changePct == c
  }

  /** When every matched holding moved by the same `c`, the weighted change is `c` times the matched weight. */
  lemma {:induction false} UniformWeightedChange(holdings: seq<Holding>, prices: map<string, StockPrice>, c: real)
    requires forall i :: 0 <= i < |holdings| ==> MovedBy(holdings[i], prices, c)
    ensures WeightedChange(holdings, prices) == c * MatchedWeight(holdings, prices)
  {
    if |holdings| > 0 {
      var init := holdings[..|holdings| - 1];
      assert forall i :: 0 <= i < |init| ==> init[i] == holdings[i];
      UniformWeightedChange(init, prices, c);
      UniformLast(holdings, prices, c);
      Distribute(c, MatchedWeight(init, prices), MatchedWeight(holdings, prices),
        WeightedChange(init, prices), WeightedChange(holdings, prices));
    }
  }

  /** The last holding adds `c` times what it adds to the matched weight. */
  lemma {:induction false} UniformLast(holdings: seq<Holding>, prices: map<string, StockPrice>, c: real)
    requires |holdings| > 0 && MovedBy(holdings[|holdings| - 1], prices, c)
    ensures var init := holdings[..|holdings| - 1];
      WeightedChange(holdings, prices) - WeightedChange(init, prices) ==
      c * (MatchedWeight(holdings, prices) - MatchedWeight(init, prices))
  {
    var last := holdings[|holdings| - 1];
    if QuoteFor(last, prices).Some? {
      assert last.weight * c == c * last.weight;
    }
  }

  lemma {:induction false} Distribute(c: real, a: real, b: real, x: real, y: real)
    requires x == c * a && y - x == c * (b - a)
    ensures y == c * b
  {
    assert c * (b - a) == c * b - c * a;
  }

  /**
   * When every matched holding moved by the same `c` and some weight
   * matched, the estimate is `c` rounded half-up to four decimals.
   */
  lemma {:induction false} UniformChangeEstimate(holdings: seq<Holding>, prices: map<string, StockPrice>, c: real)
    requires forall i :: 0 <= i < |holdings| ==> MovedBy(holdings[i], prices, c)
    requires MatchedWeight(holdings, prices) > 0.0
    ensures NavEstimationOf(holdings, prices).estimatedChange == RoundHalfUp4(c)
  {
    UniformWeightedChange(holdings, prices, c);
    UniformMean(WeightedChange(holdings, prices), MatchedWeight(holdings, prices), c);
  }

  lemma {:induction false} UniformMean(s: real, w: real, c: real)
    requires w > 0.0 && s == c * w
    ensures EstimateOf(s, w) == RoundHalfUp4(c)
  {
    assert s / w == c;
  }

  /**
   * With nonnegative weights and every matched change in `[lo, hi]`, the
   * weighted change lies between `lo` and `hi` times the matched weight.
   */
  lemma {:induction false} WeightedChangeBounds(holdings: seq<Holding>, prices: map<string, StockPrice>, lo: real, hi: real)
    requires forall i :: 0 <= i < |holdings| ==> holdings[i].weight >= 0.0 && ChangeWithin(holdings[i], prices, lo, hi)
    ensures Bracketed(lo, hi, MatchedWeight(holdings, prices), WeightedChange(holdings, prices))
  {
    if |holdings| > 0 {
      var init := holdings[..|holdings| - 1];
      var last := holdings[|holdings| - 1];
      assert forall i :: 0 <= i < |init| ==> init[i] == holdings[i];
      WeightedChangeBounds(init, prices, lo, hi);
      var q := QuoteFor(last, prices);
      var m, s := MatchedWeight(init, prices), WeightedChange(init, prices);
      if q.Some? {
        BoundsStep(lo, hi, m, s, last.weight, q.value.changePct, MatchedWeight(holdings, prices), WeightedChange(holdings, prices));
      } else {
        BoundsStep(lo, hi, m, s, 0.0, 0.0, MatchedWeight(holdings, prices), WeightedChange(holdings, prices));
      }
    } else {
      BoundsStep(lo, hi, 0.0, 0.0, 0.0, 0.0, MatchedWeight(holdings, prices), WeightedChange(holdings, prices));
    }
  }

  /** A holding that has a quote moved by between `lo` and `hi`. */
  predicate ChangeWithin(h: Holding, prices: map<string, StockPrice>, lo: real, hi: real)
  {
    QuoteFor(h, prices).Some? ==> lo <= QuoteFor(h, prices).value.changePct <= hi
  }

  /** `s` lies between `lo` and `hi` times `m`. */
  predicate Bracketed(lo: real, hi: real, m: real, s: real)
  {
    lo * m <= s <= hi * m
  }

  lemma {:induction false} BoundsStep(lo: real, hi: real, m: real, s: real, w: real, x: real, m': real, s': real)
    requires Bracketed(lo, hi, m, s) && w >= 0.0 && (w > 0.0 ==> lo <= x <= hi)
    requires m' == m + w && s' == s + w * x
    ensures Bracketed(lo, hi, m', s')
  {
    if w == 0.0 {
      assert m' == m && s' == s;
      return;
    }
    assert w * lo <= w * x <= w * hi;
    assert lo * (m + w) == lo * m + w * lo;
    assert hi * (m + w) == hi * m + w * hi;
  }

  /**
   * With nonnegative weights and every matched change in `[lo, hi]`, the
   * estimate lies between `lo` and `hi`, each rounded half-up, when some
   * weight matched.
   */
  lemma {:induction false} EstimateWithinChangeRange(holdings: seq<Holding>, prices: map<string, StockPrice>, lo: real, hi: real)
    requires forall i :: 0 <= i < |holdings| ==> holdings[i].weight >= 0.0 && ChangeWithin(holdings[i], prices, lo, hi)
    requires MatchedWeight(holdings, prices) > 0.0
    ensures RoundHalfUp4(lo) <= NavEstimationOf(holdings, prices).estimatedChange <= RoundHalfUp4(hi)
  {
    var w := MatchedWeight(holdings, prices);
    var s := WeightedChange(holdings, prices);
    WeightedChangeBounds(holdings, prices, lo, hi);
    DivideBetween(lo, s, hi, w);
    RoundBetween(lo, s / w, hi);
  }

  lemma {:induction false} RoundBetween(lo: real, x: real, hi: real)
    requires lo <= x <= hi
    ensures RoundHalfUp4(lo) <= RoundHalfUp4(x) <= RoundHalfUp4(hi)
  {
    RoundMonotone(lo, x);
    RoundMonotone(x, hi);
  }

  lemma {:induction false} DivideBetween(lo: real, s: real, hi: real, w: real)
    requires w > 0.0 && lo * w <= s <= hi * w
    ensures lo <= s / w <= hi
  {
    assert (s / w) * w == s;
  }

  /**
   * A holding with no quote, wherever it sits, changes nothing: not the
   * estimate, not the matched weight, not the details.
   */
  lemma {:induction false} UnquotedHoldingIgnored(a: seq<Holding>, h: Holding, b: seq<Holding>, prices: map<string, StockPrice>)
    requires QuoteFor(h, prices).None?
    ensures NavEstimationOf(a + [h] + b, prices) == NavEstimationOf(a + b, prices)
    decreases |b|
  {
    UnquotedHoldingSums(a, h, b, prices);
  }

  lemma {:induction false} UnquotedHoldingSums(a: seq<Holding>, h: Holding, b: seq<Holding>, prices: map<string, StockPrice>)
    requires QuoteFor(h, prices).None?
    ensures MatchedWeight(a + [h] + b, prices) == MatchedWeight(a + b, prices)
    ensures WeightedChange(a + [h] + b, prices) == WeightedChange(a + b, prices)
    ensures Details(a + [h] + b, prices) == Details(a + b, prices)
    decreases |b|
  {
    if |b| == 0 {
      assert a + [h] + b == a + [h] && (a + [h])[..|a|] == a && a + b == a;
    } else {
      var b' := b[..|b| - 1];
      UnquotedHoldingSums(a, h, b', prices);
      assert (a + [h] + b)[..|a + [h] + b| - 1] == a + [h] + b';
      assert (a + b)[..|a + b| - 1] == a + b';
      assert (a + [h] + b)[|a + [h] + b| - 1] == b[|b| - 1] == (a + b)[|a + b| - 1];
    }
  }
}
