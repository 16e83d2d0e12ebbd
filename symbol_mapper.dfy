/**
 * `generateSinaCode`: turns a holding's market id (when the holdings page
 * linked one) and its security code into the symbol the quote vendor uses.
 * Market-id rules are tried first; a code-shape heuristic decides otherwise.
 */
module SymbolMapper {
  import opened Optional
  import opened Strings
  import opened Numbers

  /** `marketId.toIntOrNull() ?: 0` (Kotlin's `?:` binds tighter than `>=`). */
  function MarketNumber(marketId: string): int
  {
    ToIntOrNull(marketId).GetOr(0)
  }

  /** The Hong Kong symbol: the code left-padded with zeros to five characters. */
  function HongKongSymbol(stockCode: string): string
  {
    "rt_hk" + PadStart(stockCode, 5, '0')
  }

  /** The overseas symbol: the code in lower case. */
  function OverseasSymbol(stockCode: string): string
  {
    "gb_" + ToLower(stockCode)
  }

  /** The code-shape rules used when no market id is known or it decided nothing. */
  function FallbackSinaCode(stockCode: string): (r: string)
  {
    if HasLetter(stockCode) then OverseasSymbol(stockCode)
    else if |stockCode| < 6 then HongKongSymbol(stockCode)
    else if StartsWith(stockCode, "6") || StartsWith(stockCode, "5") then "sh" + stockCode
    else "sz" + stockCode
  }

  /**
   * The vendor symbol for `(marketId, stockCode)`. Total: every input gets
   * one of the four symbol forms, built from the code itself.
   */
  function GenerateSinaCode(marketId: Option<string>, stockCode: string): (r: string)
    ensures r == "sz" + stockCode || r == "sh" + stockCode
         || r == HongKongSymbol(stockCode) || r == OverseasSymbol(stockCode)
  {
    if marketId.Some? && marketId.value == "0" then "sz" + stockCode
    else if marketId.Some? && marketId.value == "1" then "sh" + stockCode
    else if marketId.Some? && marketId.value == "116" then HongKongSymbol(stockCode)
    else if marketId.Some? && MarketNumber(marketId.value) >= 100 then OverseasSymbol(stockCode)
    else FallbackSinaCode(stockCode)
  }

  /**
   * A market id that is neither "0", "1" nor "116" and does not read as a
   * number of at least 100 decides nothing: the code-shape rules apply as if
   * there were no market id.
   */
  lemma {:induction false} UnusableMarketIdFallsBack(marketId: string, stockCode: string)
    requires marketId != "0" && marketId != "1" && marketId != "116"
    requires MarketNumber(marketId) < 100
    ensures GenerateSinaCode(Some(marketId), stockCode) == GenerateSinaCode(None, stockCode)
  {
  }

  lemma {:induction false} DigitsOfSmall(n: nat)
    requires n < 10
    ensures NatToDigits(n) == [('0' as int + n) as char]
  {
  }

  /** The rendering of a number other than 0, 1 and 116 is none of the three special market ids. */
  lemma {:induction false} NotSpecialMarketId(n: nat)
    requires n != 0 && n != 1 && n != 116
    ensures var m := NatToDigits(n); m != "0" && m != "1" && m != "116"
  {
    DigitsRoundTrip(n);
    assert DigitsValue("0") == 0 by { assert "0"[..0] == ""; }
    assert DigitsValue("1") == 1 by { assert "1"[..0] == ""; }
    assert DigitsValue("11") == 11 by { assert "11"[..1] == "1"; }
    assert DigitsValue("116") == 116 by { assert "116"[..2] == "11"; }
  }

  /** Any numeric market id of 100 or more other than 116 marks an overseas listing. */
  lemma {:induction false} NumericMarketIdsAtLeast100AreOverseas(n: nat, stockCode: string)
    requires 100 <= n <= IntMax && n != 116
    ensures GenerateSinaCode(Some(NatToDigits(n)), stockCode) == OverseasSymbol(stockCode)
  {
    IntRoundTrip(n);
    NotSpecialMarketId(n);
  }

  /** Numeric market ids from 2 to 99 fall through to the code-shape rules. */
  lemma {:induction false} NumericMarketIdsBelow100FallBack(n: nat, stockCode: string)
    requires 2 <= n < 100
    ensures GenerateSinaCode(Some(NatToDigits(n)), stockCode) == FallbackSinaCode(stockCode)
  {
    IntRoundTrip(n);
    NotSpecialMarketId(n);
  }

  /**
   * Without a usable market id, a code holding any letter is overseas
   * whatever its length, and a short all-digit code is Hong Kong before the
   * Shanghai/Shenzhen first-digit rule is tried.
   */
  lemma {:induction false} FallbackOrder(stockCode: string)
    ensures HasLetter(stockCode) ==> FallbackSinaCode(stockCode) == OverseasSymbol(stockCode)
    ensures !HasLetter(stockCode) && |stockCode| < 6 ==>
      FallbackSinaCode(stockCode) == HongKongSymbol(stockCode)
    ensures !HasLetter(stockCode) && |stockCode| >= 6 ==>
      FallbackSinaCode(stockCode) == (if stockCode[0] == '6' || stockCode[0] == '5' then "sh" else "sz") + stockCode
  {
    if |stockCode| >= 6 {
      assert StartsWith(stockCode, "6") <==> stockCode[0] == '6';
      assert StartsWith(stockCode, "5") <==> stockCode[0] == '5';
    }
  }

  /**
   * The three known market ids win over the code's shape: a Shenzhen,
   * Shanghai or Hong Kong id gives that market's symbol even for a code
   * with letters or of any length.
   */
  lemma {:induction false} MarketIdBeforeCodeShape(stockCode: string)
    ensures GenerateSinaCode(Some("0"), stockCode) == "sz" + stockCode
    ensures GenerateSinaCode(Some("1"), stockCode) == "sh" + stockCode
    ensures GenerateSinaCode(Some("116"), stockCode) == HongKongSymbol(stockCode)
  {
  }

  /** Worked examples of the mapping with a market id. */
  lemma {:induction false} MarketIdExamples()
    ensures GenerateSinaCode(Some("1"), "600519") == "sh600519"
    ensures GenerateSinaCode(Some("0"), "000001") == "sz000001"
    ensures GenerateSinaCode(Some("116"), "700") == "rt_hk00700"
  {
    assert PadStart("700", 5, '0') == "00700";
  }

  /** Worked examples of the code-shape rules: letters mean overseas. */
  lemma {:induction false} OverseasExamples()
    ensures GenerateSinaCode(None, "AAPL") == "gb_aapl"
    ensures GenerateSinaCode(None, "Unknown") == "gb_unknown"
  {
    assert IsLetter("AAPL"[0]) && IsLetter("Unknown"[0]);
    LowerAapl();
    LowerUnknown();
  }

  lemma {:induction false} LowerAapl()
    ensures ToLower("AAPL") == "aapl"
  {
    assert ToLower("AAPL")[..] == "aapl";
  }

  lemma {:induction false} LowerUnknown()
    ensures ToLower("Unknown") == "unknown"
  {
    assert ToLower("Unknown")[..] == "unknown";
  }

  /** Worked examples of the code-shape rules for all-digit codes. */
  lemma {:induction false} DigitCodeExamples()
    ensures GenerateSinaCode(None, "700") == "rt_hk00700"
    ensures GenerateSinaCode(None, "") == "rt_hk00000"
    ensures GenerateSinaCode(None, "600519") == "sh600519"
    ensures GenerateSinaCode(None, "000001") == "sz000001"
  {
    assert !HasLetter("700") && !HasLetter("") && !HasLetter("600519") && !HasLetter("000001");
    assert PadStart("700", 5, '0') == "00700";
    assert PadStart("", 5, '0') == "00000";
  }
}
