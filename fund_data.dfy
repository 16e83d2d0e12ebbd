/** The client's data classes, as immutable values; `Double` fields are reals. */
module FundData {
  import opened Optional

  /** One row of a fund's published portfolio; `weight` is a percentage of net assets. */
  datatype Holding = Holding(code: string, name: string, weight: real, sinaCode: Option<string>)

  /** One parse of one holdings page. */
  datatype FundHoldingsResponse = FundHoldingsResponse(fundName: string, holdings: seq<Holding>, reportDate: string)

  /** One quote-feed entry. */
  datatype StockPrice = StockPrice(name: string, price: real, changePct: real)

  /** A holding joined with its quote. */
  datatype HoldingDetail = HoldingDetail(code: string, name: string, weight: real, price: real, change: real)

  datatype NavEstimation = NavEstimation(estimatedChange: real, totalWeight: real, details: seq<HoldingDetail>)
}
