# Fund NAV estimation: holdings, quotes and the weighted estimate

This project models the core of the fund-valuation Android client in Dafny.
The client estimates a mutual fund's intraday change in net asset value
(NAV) in four steps:

1. It reads the fund's published top holdings from an HTML fragment that
   the fund-data site embeds in a script (`parseFundHoldings`).
2. It maps each holding to a quote-vendor symbol (`generateSinaCode`).
3. It reads the vendor's quote reply, one `var hq_str_<symbol>="f0,f1,…"`
   line per security, into a map of quotes (`parseStockPrices`).
4. It takes the weight-averaged change of the quoted holdings, rounded
   half-up to four decimals (`estimateNavChange`).

The Python routine `estimate_nav_change` (`valuation.py`) is a second
implementation of step 4. The app runs it on the device through the Chaquopy
Python runtime: `MainActivity` calls `main.estimate_fund_nav`, which calls it.
The desktop `app.py` imports the same routine. It divides by the weight of all holdings, so an unquoted holding
dilutes the estimate. It is modelled too, and `Pipeline` relates the two
estimators.

Modules:

| module | contents |
|---|---|
| `Optional` | the `Option` type (Kotlin's nullable, Python's `None`) |
| `Strings` | Kotlin string operations used by the service. These are `indexOf`, `contains`, `split`, `trim`, `removePrefix`, `removeSurrounding`, `replace`, `padStart`, `toLowerCase`, `isLetter` and tag stripping. |
| `Numbers` | `toDoubleOrNull`, `toIntOrNull` (32-bit), decimal rendering, and `BigDecimal.divide(…, 4, HALF_UP)` as `RoundHalfUp4` |
| `Filtering` | an order-preserving filter-map with the indices it keeps, and a map built by successive overwrites |
| `FundData` | the data classes `Holding`, `StockPrice`, `HoldingDetail`, `NavEstimation` and `FundHoldingsResponse` |
| `SymbolMapper` | `generateSinaCode` |
| `HtmlScan` | the regular expressions of the parser, written as explicit left-to-right scans |
| `HoldingsExtractor` | `parseFundHoldings`: a functional specification and an imperative method with the service's nested searches and row loop |
| `QuoteFeed` | `parseStockPrices`: a `PriceTable` class whose `entries` map is updated line by line, proved against `FeedQuotes` |
| `NavEstimator` | `estimateNavChange`: the accumulating loop proved against `NavEstimationOf` |
| `Valuation` | the Python `estimate_nav_change`: the loop proved against `ValuationOf` |
| `Pipeline` | how the two estimators agree, and where they differ |

Numbers are `real`: the service's `Double` arithmetic is modelled as exact
arithmetic. The one rounding the service performs on purpose, the
`BigDecimal` half-up division to four places, is modelled explicitly.

Behaviour of the code that may surprise, stated as proved properties:

- The header test skips any row containing the letters `th`, which includes
  data rows with a `width` attribute (`HeaderTestMatchesAnyTh`,
  `WidthHasHeaderMark`).
- A weight written with a thousands separator (`1,234`) does not parse once
  the comma becomes a blank, so the row is dropped
  (`ThousandsSeparatorDropsRow`).
- The vendor ends each line with `";`. `removeSurrounding("\"")` therefore
  leaves both quotes in place, and the first field keeps its opening quote
  (`SemicolonLineKeepsQuotes`, `SemicolonLineMainlandName`).
- Kotlin's `?:` binds tighter than `>=`, so the market-id test reads
  `(marketId.toIntOrNull() ?: 0) >= 100` (`SymbolMapper.MarketNumber`).

## Model

| member | source | states |
|---|---|---|
| SymbolMapper.GenerateSinaCode | android/app/src/main/java/com/example/fundnavapp/FundApiService.kt:125-149 | The mapper is total: every (market id, code) gets `sz`+code, `sh`+code, the zero-padded Hong Kong symbol or the lower-cased overseas symbol. |
| SymbolMapper.MarketIdBeforeCodeShape | android/app/src/main/java/com/example/fundnavapp/FundApiService.kt:126-130 | Market ids "0", "1" and "116" give `sz`+code, `sh`+code and `rt_hk`+code padded to 5 with '0'. They do so whatever the code's shape. |
| SymbolMapper.NumericMarketIdsAtLeast100AreOverseas | android/app/src/main/java/com/example/fundnavapp/FundApiService.kt:131-133 | A numeric market id of at least 100 that fits an Int (116 aside) gives `gb_`+lower-case code. |
| SymbolMapper.NumericMarketIdsBelow100FallBack | android/app/src/main/java/com/example/fundnavapp/FundApiService.kt:131-148 | Numeric market ids 2..99 fall through to the code-shape rules. |
| SymbolMapper.UnusableMarketIdFallsBack | android/app/src/main/java/com/example/fundnavapp/FundApiService.kt:126-137 | Any market id other than the three known ones, whose number (0 if not numeric) is below 100, behaves as no market id. |
| SymbolMapper.FallbackOrder | android/app/src/main/java/com/example/fundnavapp/FundApiService.kt:138-148 | Without a usable market id, the rules apply in this order: a letter gives overseas; else a length below 6 gives Hong Kong; else a leading '6' or '5' gives `sh`; else `sz`. |
| SymbolMapper.MarketIdExamples | android/app/src/main/java/com/example/fundnavapp/FundApiService.kt:128-130 | Worked cases: (1, 600519) gives sh600519, (0, 000001) gives sz000001, and (116, 700) gives rt_hk00700. |
| SymbolMapper.OverseasExamples | android/app/src/main/java/com/example/fundnavapp/FundApiService.kt:138-139 | Worked cases: AAPL gives gb_aapl, and the placeholder Unknown gives gb_unknown. |
| SymbolMapper.DigitCodeExamples | android/app/src/main/java/com/example/fundnavapp/FundApiService.kt:140-147 | Worked cases: 700 gives rt_hk00700, the empty code gives rt_hk00000, 600519 gives sh600519, and 000001 gives sz000001. |
| Strings.IndexOf | android/app/src/main/java/com/example/fundnavapp/FundApiService.kt:56 | `indexOf` reports a position at or after `from` where the pattern fits. |
| Strings.IndexOfOccurs | android/app/src/main/java/com/example/fundnavapp/FundApiService.kt:56 | The reported position is an occurrence. |
| Strings.IndexOfIsFirst | android/app/src/main/java/com/example/fundnavapp/FundApiService.kt:56 | No occurrence lies between `from` and the reported position. When nothing is reported, there is none at all. |
| Strings.IndexOfAt | android/app/src/main/java/com/example/fundnavapp/FundApiService.kt:56 | Conversely, the first occurrence at or after `from` is the position reported. |
| Strings.IndexOfChar | android/app/src/main/java/com/example/fundnavapp/FundApiService.kt:58-60 | `indexOf(c, from)` reports the first `c` at or after `from`, or nothing when there is none. |
| Strings.ContainsIff | android/app/src/main/java/com/example/fundnavapp/FundApiService.kt:71 | `in`/`contains` holds exactly when the pattern occurs somewhere. |
| Strings.RemovePrefix | android/app/src/main/java/com/example/fundnavapp/FundApiService.kt:188 | `removePrefix` strips the prefix exactly when it is present, and otherwise leaves the string alone. |
| Strings.RemoveSurrounding | android/app/src/main/java/com/example/fundnavapp/FundApiService.kt:189 | `removeSurrounding` strips the delimiter only when it is at both ends of a string at least two long, and otherwise leaves the string alone. |
| Strings.TrimStart | android/app/src/main/java/com/example/fundnavapp/FundApiService.kt:97 | The result is a suffix, only whitespace was removed, and it does not start with whitespace. |
| Strings.TrimEnd | android/app/src/main/java/com/example/fundnavapp/FundApiService.kt:97 | The result is a prefix, only whitespace was removed, and it does not end with whitespace. |
| Strings.Trim | android/app/src/main/java/com/example/fundnavapp/FundApiService.kt:97 | `trim()` leaves no whitespace at either end. |
| Strings.TrimNoop | android/app/src/main/java/com/example/fundnavapp/FundApiService.kt:97 | Text without whitespace at its ends is its own trim. |
| Strings.ReplaceChar | android/app/src/main/java/com/example/fundnavapp/FundApiService.kt:101 | `replace(a, b)` keeps the length and changes exactly the `a`s into `b`s. |
| Strings.Split | android/app/src/main/java/com/example/fundnavapp/FundApiService.kt:181 | `split(sep)` gives at least one piece, no piece holds `sep`, and joining the pieces with `sep` gives the input back. |
| Strings.SplitCount | android/app/src/main/java/com/example/fundnavapp/FundApiService.kt:181 | There is one more piece than there are separators. |
| Strings.SplitJoin | android/app/src/main/java/com/example/fundnavapp/FundApiService.kt:181 | Round trip: splitting joined separator-free pieces gives the pieces back. |
| Strings.StripTags | android/app/src/main/java/com/example/fundnavapp/FundApiService.kt:96-97 | `Regex("<.*?>").replace(s, "")` leaves no `<` followed by `>`. It never lengthens the text, and text without `<` is unchanged. |
| Strings.ToLower | android/app/src/main/java/com/example/fundnavapp/FundApiService.kt:139 | `toLowerCase` keeps the length, leaves no ASCII upper-case letter, maps A–Z to a–z, and changes no other character. |
| Strings.PadStart | android/app/src/main/java/com/example/fundnavapp/FundApiService.kt:141 | `padStart(5, '0')` reaches length 5 with leading '0's, keeps the code as its tail, and leaves longer codes alone. |
| Numbers.DigitsRoundTrip | android/app/src/main/java/com/example/fundnavapp/FundApiService.kt:131 | Reading back the decimal rendering of a natural number gives that number. |
| Numbers.ToIntOrNull | android/app/src/main/java/com/example/fundnavapp/FundApiService.kt:131 | `toIntOrNull` yields only 32-bit values, and only for text that starts with a digit or a sign. |
| Numbers.IntRoundTrip | android/app/src/main/java/com/example/fundnavapp/FundApiService.kt:131 | Every Int-sized natural number's rendering parses back to it. |
| Numbers.IntOverflowRejected | android/app/src/main/java/com/example/fundnavapp/FundApiService.kt:131 | A rendering beyond Int's range parses to null. |
| Numbers.TrimControl | android/app/src/main/java/com/example/fundnavapp/FundApiService.kt:104 | The text the parser reads is empty or begins and ends with a character above U+0020. `TrimControlIsSlice` states what was cut off. |
| Numbers.TrimControlIsSlice | android/app/src/main/java/com/example/fundnavapp/FundApiService.kt:104 | The trimmed text is the input minus a prefix and a suffix, and every character cut off at either end is at most U+0020. |
| Numbers.LeadingBlankIgnored | android/app/src/main/java/com/example/fundnavapp/FundApiService.kt:101-104 | A leading blank does not change `toDoubleOrNull`. |
| Numbers.TrailingBlankIgnored | android/app/src/main/java/com/example/fundnavapp/FundApiService.kt:101-104 | A trailing blank, which is what a cleaned '%' becomes, does not change `toDoubleOrNull`. |
| Numbers.ParsesDigits | android/app/src/main/java/com/example/fundnavapp/FundApiService.kt:104 | A plain run of digits parses as the number it spells. |
| Numbers.ParsesNatural | android/app/src/main/java/com/example/fundnavapp/FundApiService.kt:104 | Round trip: any natural number's rendering parses back to it. |
| Numbers.InnerBlankRejected | android/app/src/main/java/com/example/fundnavapp/FundApiService.kt:101-104 | Two digit groups separated by a blank do not parse. |
| Numbers.SpacedDigitsRejected | android/app/src/main/java/com/example/fundnavapp/FundApiService.kt:101-104 | Digits with a blank among them are not an unsigned literal. |
| Numbers.PlaceholdersAreNotNumbers | android/app/src/main/java/com/example/fundnavapp/FundApiService.kt:102-104 | The empty text and `--` do not parse. So the explicit placeholder check only repeats the parse failure. |
| Numbers.TenThousandths | android/app/src/main/java/com/example/fundnavapp/FundApiService.kt:257 | n ten-thousandths lie on the four-decimal grid and are worth n/10000. |
| Numbers.RoundHalfUp4 | android/app/src/main/java/com/example/fundnavapp/FundApiService.kt:255-257 | `divide(…, 4, HALF_UP)` gives a four-decimal value within half a unit in the last place of the exact quotient. |
| Numbers.RoundIsNearest | android/app/src/main/java/com/example/fundnavapp/FundApiService.kt:257 | No four-decimal value is closer to the exact quotient than its rounding. |
| Numbers.RoundTiesAwayFromZero | android/app/src/main/java/com/example/fundnavapp/FundApiService.kt:257 | Exact ties round away from zero (HALF_UP), on both signs. |
| Numbers.RoundKeepsGrid | android/app/src/main/java/com/example/fundnavapp/FundApiService.kt:257 | A quotient that already has four decimals is unchanged. |
| Numbers.RoundMonotone | android/app/src/main/java/com/example/fundnavapp/FundApiService.kt:257 | Rounding preserves order. |
| Filtering.KeptIndices | android/app/src/main/java/com/example/fundnavapp/FundApiService.kt:69-110 | The kept positions are increasing, and each is kept. Every position that yields an item is among them. |
| Filtering.FilterMapFollowsKept | android/app/src/main/java/com/example/fundnavapp/FundApiService.kt:69-110 | The loop's output has one item per kept position, in order, and the k-th is what the k-th kept element yields. |
| Filtering.OverwritesKeys | android/app/src/main/java/com/example/fundnavapp/FundApiService.kt:182-225 | The keys written are exactly the keys of the elements that write. |
| Filtering.LastWriteWins | android/app/src/main/java/com/example/fundnavapp/FundApiService.kt:225 | A key's value is the one from the last element that writes it. |
| HtmlScan.FindCapture | android/app/src/main/java/com/example/fundnavapp/FundApiService.kt:66 | The bounds of the first `open(.*?)close` group lie between an `open` and a `close`. |
| HtmlScan.FindCaptureIsFirst | android/app/src/main/java/com/example/fundnavapp/FundApiService.kt:66 | The match is the first one: no `open` comes before it, and it is lazy, with no `close` inside its group. |
| HtmlScan.FindCaptureOccurs | android/app/src/main/java/com/example/fundnavapp/FundApiService.kt:66 | The delimiters occur where the match says. |
| HtmlScan.NoMatchMeansNoCloseAfterOpen | android/app/src/main/java/com/example/fundnavapp/FundApiService.kt:48-53 | No match means that no `close` follows any `open`. |
| HtmlScan.FirstCapture | android/app/src/main/java/com/example/fundnavapp/FundApiService.kt:48-53 | `find(s)?.groupValues?.get(1)` is `close`-free, and occurs wrapped in `open`…`close`. |
| HtmlScan.GroupFacts | android/app/src/main/java/com/example/fundnavapp/FundApiService.kt:48-53 | The group of a match is `close`-free, and the whole match occurs in the text. |
| HtmlScan.FirstCaptureOfWrapped | android/app/src/main/java/com/example/fundnavapp/FundApiService.kt:48-53 | Round trip: the group found in `pre+open+v+close+post` is `v`, when `pre` has no `open` and `v` no `close`. |
| HtmlScan.FirstCaptureAt | android/app/src/main/java/com/example/fundnavapp/FundApiService.kt:48-49 | The group is the text between the match's bounds. |
| HtmlScan.CapturesHaveNoClose | android/app/src/main/java/com/example/fundnavapp/FundApiService.kt:66-70 | `findAll`: no group holds the closing delimiter. |
| HtmlScan.CapturesStep | android/app/src/main/java/com/example/fundnavapp/FundApiService.kt:67-70 | `findAll` yields the first group, then carries on after that match. |
| HtmlScan.CapturesOfEnclosed | android/app/src/main/java/com/example/fundnavapp/FundApiService.kt:66-70 | Round trip: scanning `close`-free pieces wrapped in `open`…`close` gives the pieces back. |
| HtmlScan.EnclosedHead | android/app/src/main/java/com/example/fundnavapp/FundApiService.kt:66-70 | The first wrapped piece is captured first, and the scan continues on the rest. |
| HtmlScan.FindCell | android/app/src/main/java/com/example/fundnavapp/FundApiService.kt:92 | `<td.*?>(.*?)</td>`: the group starts right after a '>' and stops before a `</td>`. |
| HtmlScan.FindCellIsFirst | android/app/src/main/java/com/example/fundnavapp/FundApiService.kt:92 | A cell stops at the first `</td>` after its opening tag. |
| HtmlScan.CellsHaveNoClose | android/app/src/main/java/com/example/fundnavapp/FundApiService.kt:92-93 | No cell holds `</td>`. |
| HtmlScan.CellsStep | android/app/src/main/java/com/example/fundnavapp/FundApiService.kt:92-93 | The cells are the first cell followed by the cells after it. |
| HtmlScan.CellsOfEnclosed | android/app/src/main/java/com/example/fundnavapp/FundApiService.kt:92-93 | Round trip: the cells of a row written as `<td>c</td>`… are the `c`s. |
| HtmlScan.FindCellAt | android/app/src/main/java/com/example/fundnavapp/FundApiService.kt:92 | The first cell spans from after the '>' of the first `<td` up to the next `</td>`. |
| HtmlScan.DigitRun | android/app/src/main/java/com/example/fundnavapp/FundApiService.kt:74 | `\d+` is greedy: it takes the longest prefix of digits. |
| HtmlScan.AlnumRun | android/app/src/main/java/com/example/fundnavapp/FundApiService.kt:74 | `[a-zA-Z0-9]+` takes the longest alphanumeric prefix. |
| HtmlScan.FindLink | android/app/src/main/java/com/example/fundnavapp/FundApiService.kt:74-75 | A found link has a nonempty digit market id and a nonempty alphanumeric code. `FindLinkComplete` and `FindLinkIsLeftmost` state when a link is found and which one. |
| HtmlScan.FindLinkFrom | android/app/src/main/java/com/example/fundnavapp/FundApiService.kt:74-75 | The scan from any position of the row yields only links with a nonempty digit market id and a nonempty alphanumeric code. |
| HtmlScan.LinkAfter | android/app/src/main/java/com/example/fundnavapp/FundApiService.kt:74-75 | The link read at one marker has a nonempty digit market id and a nonempty alphanumeric code. `LinkAfterOfShape` and `LinkAfterShape` state exactly when a link is read there. |
| HtmlScan.FindLinkOccurs | android/app/src/main/java/com/example/fundnavapp/FundApiService.kt:74-81 | A found link is spelled out in the row as `unify/r/<market>.<code>`. |
| HtmlScan.LinkAfterOccurs | android/app/src/main/java/com/example/fundnavapp/FundApiService.kt:74-81 | The link read at a marker is spelled out from that marker on. |
| HtmlScan.LinkAfterOfShape | android/app/src/main/java/com/example/fundnavapp/FundApiService.kt:74 | Where digits, a dot and a letter or digit follow a marker, the link read there is those digits and the whole letter-or-digit run after the dot. |
| HtmlScan.LinkAfterShape | android/app/src/main/java/com/example/fundnavapp/FundApiService.kt:74 | Conversely, a link read at a marker is spelled there as digits, a dot and a letter or digit. |
| HtmlScan.FindLinkFound | android/app/src/main/java/com/example/fundnavapp/FundApiService.kt:74-75 | If any marker in the row has a link after it, the search finds a link. |
| HtmlScan.FindLinkComplete | android/app/src/main/java/com/example/fundnavapp/FundApiService.kt:74-75 | A row that spells `unify/r/<digits>.<letter or digit>` anywhere has a link. |
| HtmlScan.FindLinkIsLeftmost | android/app/src/main/java/com/example/fundnavapp/FundApiService.kt:74-75 | The link found is the one at the first marker that has a link after it, as `Regex.find` reports the leftmost match. |
| HtmlScan.NoMarkerNoLink | android/app/src/main/java/com/example/fundnavapp/FundApiService.kt:74-82 | A row without `unify/r/` has no link. |
| HoldingsExtractor.TablePayload | android/app/src/main/java/com/example/fundnavapp/FundApiService.kt:56-62 | The table found after `content:` holds no '"'. |
| HoldingsExtractor.PayloadIsQuoted | android/app/src/main/java/com/example/fundnavapp/FundApiService.kt:56-62 | The table stood between two quotes in the page, and there is none without `content:`. |
| HoldingsExtractor.PayloadAt | android/app/src/main/java/com/example/fundnavapp/FundApiService.kt:56-62 | The table is the text between the two quotes that the nested searches find. |
| HoldingsExtractor.PayloadOfWellFormedBody | android/app/src/main/java/com/example/fundnavapp/FundApiService.kt:56-62 | Round trip: in `pre content: mid "t" post`, with no marker in `pre` and no quote in `mid` or `t`, the table is `t`. |
| HoldingsExtractor.ParseFundHoldings | android/app/src/main/java/com/example/fundnavapp/FundApiService.kt:45-122 | The imperative parse (nested searches, then the row loop) returns `FundHoldingsOf(body)`. |
| HoldingsExtractor.FindTable | android/app/src/main/java/com/example/fundnavapp/FundApiService.kt:56-62 | The nested `indexOf` searches compute `TablePayload`. |
| HoldingsExtractor.CollectHoldings | android/app/src/main/java/com/example/fundnavapp/FundApiService.kt:65-110 | The row loop's list is `ExtractHoldings(table)`. |
| HoldingsExtractor.ReadRow | android/app/src/main/java/com/example/fundnavapp/FundApiService.kt:70-109 | One pass of the loop body computes `RowHolding(row)`. |
| HoldingsExtractor.ReadCells | android/app/src/main/java/com/example/fundnavapp/FundApiService.kt:92-109 | The cell-count, weight and symbol steps compute `CellsHolding`. |
| HoldingsExtractor.MissingContentIsNull | android/app/src/main/java/com/example/fundnavapp/FundApiService.kt:56-57 | A page without `content:` parses to null. |
| HoldingsExtractor.NoDataIsNull | android/app/src/main/java/com/example/fundnavapp/FundApiService.kt:64 | A table containing 暂无数据 parses to null. |
| HoldingsExtractor.ParsedPageHasTable | android/app/src/main/java/com/example/fundnavapp/FundApiService.kt:56-64 | A successful parse found `content:` and a table payload. That payload is nonempty, quoted in the page and free of 暂无数据, and the holdings are the ones read from it. |
| HoldingsExtractor.NoOpeningQuoteIsNull | android/app/src/main/java/com/example/fundnavapp/FundApiService.kt:58-59 | With `content:` present but no '"' after it, there is no table and the parse returns null. |
| HoldingsExtractor.NoClosingQuoteIsNull | android/app/src/main/java/com/example/fundnavapp/FundApiService.kt:60-61 | With an opening '"' after `content:` that is never closed, there is no table and the parse returns null. |
| HoldingsExtractor.HoldingsOfPayload | android/app/src/main/java/com/example/fundnavapp/FundApiService.kt:64-112 | A nonempty table without 暂无数据 gives a response with the page's name, the table's holdings and the page's date. |
| HoldingsExtractor.PageHoldings | android/app/src/main/java/com/example/fundnavapp/FundApiService.kt:45-112 | A well-formed page with table `t` gives the holdings of `t`. |
| HoldingsExtractor.HoldingsOfWellFormedPage | android/app/src/main/java/com/example/fundnavapp/FundApiService.kt:45-112 | End to end: a page whose quoted table is `<tr>` rows gives exactly the holdings those rows yield, in order. |
| HoldingsExtractor.FundNameOfTitle | android/app/src/main/java/com/example/fundnavapp/FundApiService.kt:48-49 | Round trip: the fund name of `pre title='n' post` is `n`. |
| HoldingsExtractor.MissingTitleIsUnknown | android/app/src/main/java/com/example/fundnavapp/FundApiService.kt:49 | With no `title='`, the name is 基金名称未知. |
| HoldingsExtractor.ReportDateOfMarkup | android/app/src/main/java/com/example/fundnavapp/FundApiService.kt:52-53 | Round trip: the date inside the `截止至：<font class='px12'>…</font>` markup is read back. |
| HoldingsExtractor.MissingDateIsDashes | android/app/src/main/java/com/example/fundnavapp/FundApiService.kt:53 | With no date markup, the date is `--`. |
| HoldingsExtractor.RowsOfTable | android/app/src/main/java/com/example/fundnavapp/FundApiService.kt:66-67 | Round trip: the rows of a table written as `<tr>…</tr>` pieces are those pieces. |
| HoldingsExtractor.TableWithoutRows | android/app/src/main/java/com/example/fundnavapp/FundApiService.kt:66-69 | A table without `<tr>` gives no holdings. |
| HoldingsExtractor.RowKeptIff | android/app/src/main/java/com/example/fundnavapp/FundApiService.kt:71-104 | A row yields a holding if and only if it has no `th`, has at least 7 cells, and its cleaned 7th cell parses. |
| HoldingsExtractor.RowHoldingFields | android/app/src/main/java/com/example/fundnavapp/FundApiService.kt:74-109 | Sources of a kept holding's fields: code and market come from the link, or else from the 2nd cell's text with no market. The name is the 3rd cell's text, the weight the parsed 7th cell, and the symbol `generateSinaCode(market, code)`. |
| HoldingsExtractor.CellsHoldingFields | android/app/src/main/java/com/example/fundnavapp/FundApiService.kt:94-109 | A holding read from cells has the 3rd cell's name, the 7th cell's weight, and the symbol of its code and market. |
| HoldingsExtractor.CellsHoldingOfNumber | android/app/src/main/java/com/example/fundnavapp/FundApiService.kt:94-109 | Seven cells and a 7th that parses as `x` give a holding of weight `x`. |
| HoldingsExtractor.LinkedRowUsesMarket | android/app/src/main/java/com/example/fundnavapp/FundApiService.kt:79-81 | With a link, the code is the link's nonempty alphanumeric code and the symbol uses the link's market id. |
| HoldingsExtractor.UnlinkedRow | android/app/src/main/java/com/example/fundnavapp/FundApiService.kt:82-88 | Without a link, the code is the 2nd cell's text and the symbol follows the code-shape rules. |
| HoldingsExtractor.RowOfCells | android/app/src/main/java/com/example/fundnavapp/FundApiService.kt:69-109 | End to end on one row of plain cells: the weight `x%` gives the holding (cell 2, cell 3, x, fallback symbol). |
| HoldingsExtractor.HoldingsInRowOrder | android/app/src/main/java/com/example/fundnavapp/FundApiService.kt:69-110 | Holdings come one per kept row, in row order, and there are no more of them than rows. |
| HoldingsExtractor.EveryHoldingHasSymbol | android/app/src/main/java/com/example/fundnavapp/FundApiService.kt:107-109 | Every parsed holding has a symbol, in one of the four forms built from its code. |
| HoldingsExtractor.HeaderTestMatchesAnyTh | android/app/src/main/java/com/example/fundnavapp/FundApiService.kt:71 | Any row containing `th` anywhere is dropped. |
| HoldingsExtractor.WidthHasHeaderMark | android/app/src/main/java/com/example/fundnavapp/FundApiService.kt:71 | `width` contains `th`, so a `width` attribute drops a data row. |
| HoldingsExtractor.CellTextOfPlain | android/app/src/main/java/com/example/fundnavapp/FundApiService.kt:97 | Text with no tag and no blank at its ends is its own cell text. |
| HoldingsExtractor.CleanPercent | android/app/src/main/java/com/example/fundnavapp/FundApiService.kt:100-101 | Cleaning `w%` gives `w` and a blank. |
| HoldingsExtractor.PercentWeight | android/app/src/main/java/com/example/fundnavapp/FundApiService.kt:100-104 | A weight `w%` reads as `w` does. |
| HoldingsExtractor.CleanThousands | android/app/src/main/java/com/example/fundnavapp/FundApiService.kt:100-101 | Cleaning `a,b` gives `a b`. |
| HoldingsExtractor.ThousandsSeparatorDropsRow | android/app/src/main/java/com/example/fundnavapp/FundApiService.kt:100-104 | A row whose 7th cell is `a,b` (digit groups) is dropped. |
| QuoteFeed.QuoteOf | android/app/src/main/java/com/example/fundnavapp/FundApiService.kt:194-222 | Too few fields for the layout give ("Unknown", 0, 0). The mainland layout reads name f0, price f3 and the change over f2. |
| QuoteFeed.PercentChange | android/app/src/main/java/com/example/fundnavapp/FundApiService.kt:216-221 | For a positive previous close, the change is (current−prev)/prev·100, and it is positive exactly when the price rose. Otherwise it is 0. |
| QuoteFeed.PercentChangeOfPositive | android/app/src/main/java/com/example/fundnavapp/FundApiService.kt:219-221 | The service's formula, for a positive previous close. |
| QuoteFeed.HongKongQuote | android/app/src/main/java/com/example/fundnavapp/FundApiService.kt:198-204 | `rt_hk` keys: with at least 9 fields, the quote is (f1, f6, f8); otherwise it is the placeholder. |
| QuoteFeed.OverseasQuote | android/app/src/main/java/com/example/fundnavapp/FundApiService.kt:205-211 | `gb_` keys: with at least 3 fields, the quote is (f0, f1, f2); otherwise it is the placeholder. |
| QuoteFeed.LineEntryOf | android/app/src/main/java/com/example/fundnavapp/FundApiService.kt:183-225 | A nonempty line with `=` and nonempty data writes (key, quote of the key's layout over the comma-split data). |
| QuoteFeed.LineEntryOfParts | android/app/src/main/java/com/example/fundnavapp/FundApiService.kt:185-225 | `lhs=rhs` writes key(lhs) and the quote read from data(rhs). |
| QuoteFeed.KeyOfPrefixed | android/app/src/main/java/com/example/fundnavapp/FundApiService.kt:188 | The key of `var hq_str_<key>` is `key`. |
| QuoteFeed.DataOfQuoted | android/app/src/main/java/com/example/fundnavapp/FundApiService.kt:189 | The data of `"body"` is `body`. |
| QuoteFeed.QuotedLineEntry | android/app/src/main/java/com/example/fundnavapp/FundApiService.kt:181-225 | Round trip: the line `var hq_str_<key>="<fields>"` writes the key and the quote its layout reads from those fields. |
| QuoteFeed.SemicolonLineKeepsQuotes | android/app/src/main/java/com/example/fundnavapp/FundApiService.kt:189-192 | On a line ending `";`, the quotes are not removed, and the fields are split from the quoted text. |
| QuoteFeed.DataOfSemicolon | android/app/src/main/java/com/example/fundnavapp/FundApiService.kt:189 | The data of `"body";` is left as it is. |
| QuoteFeed.SemicolonLineFields | android/app/src/main/java/com/example/fundnavapp/FundApiService.kt:192 | On such a line, the first field carries the opening quote and the middle fields are intact. |
| QuoteFeed.QuotedFields | android/app/src/main/java/com/example/fundnavapp/FundApiService.kt:192 | The fields of such a line: the same count, with the quote on the first. |
| QuoteFeed.SemicolonLineMainlandName | android/app/src/main/java/com/example/fundnavapp/FundApiService.kt:189-215 | On such a line, a mainland quote's name begins with `"`. |
| QuoteFeed.EqualsGivesTwoParts | android/app/src/main/java/com/example/fundnavapp/FundApiService.kt:183-186 | A line containing `=` always splits into at least two parts. |
| QuoteFeed.FeedKeys | android/app/src/main/java/com/example/fundnavapp/FundApiService.kt:182-225 | The map's new keys are exactly the keys of the lines that write an entry. |
| QuoteFeed.LastLineWins | android/app/src/main/java/com/example/fundnavapp/FundApiService.kt:225 | A symbol's quote comes from the last line with that symbol. |
| QuoteFeed.PrefixLayout | android/app/src/main/java/com/example/fundnavapp/FundApiService.kt:198-212 | `rt_hk…` selects Hong Kong, `gb_…` overseas, and `sh…`/`sz…` mainland. |
| QuoteFeed.LayoutOfSymbols | android/app/src/main/java/com/example/fundnavapp/FundApiService.kt:198-212 | Each symbol the mapper builds selects the layout of its market. |
| QuoteFeed.PriceTable.constructor | android/app/src/main/java/com/example/fundnavapp/FundApiService.kt:153 | A new table is empty. |
| QuoteFeed.ParseStockPrices | android/app/src/main/java/com/example/fundnavapp/FundApiService.kt:180-227 | The caller's map afterwards is the map before, overwritten by the entries the reply's lines write, in line order. |
| QuoteFeed.WriteLine | android/app/src/main/java/com/example/fundnavapp/FundApiService.kt:183-225 | One line writes its entry, if it has one, and nothing else. |
| QuoteFeed.ReadLine | android/app/src/main/java/com/example/fundnavapp/FundApiService.kt:183-222 | Reading one line computes `LineEntry(line)`. |
| QuoteFeed.ReadQuote | android/app/src/main/java/com/example/fundnavapp/FundApiService.kt:194-222 | The layout branches compute `QuoteOf(LayoutOf(key), data)`. |
| NavEstimator.QuoteFor | android/app/src/main/java/com/example/fundnavapp/FundApiService.kt:239-240 | A holding has a quote exactly when its symbol is non-null and in the map, and the quote is the map's entry for it. |
| NavEstimator.QuoteSymbols | android/app/src/main/java/com/example/fundnavapp/FundApiService.kt:231 | The requested symbols are exactly the holdings' non-null symbols. |
| NavEstimator.EstimateNavChange | android/app/src/main/java/com/example/fundnavapp/FundApiService.kt:230-263 | The accumulating loop returns `NavEstimationOf(holdings, prices)`. |
| NavEstimator.Step | android/app/src/main/java/com/example/fundnavapp/FundApiService.kt:240-242 | One more holding adds its weight, and its weight times its change, exactly when it is quoted. |
| NavEstimator.TotalWeightIsDetailWeight | android/app/src/main/java/com/example/fundnavapp/FundApiService.kt:241-243 | The reported total weight is the sum of the reported details' weights. |
| NavEstimator.DetailsAreQuotedHoldings | android/app/src/main/java/com/example/fundnavapp/FundApiService.kt:238-251 | The details are exactly the quoted holdings, in input order, each joined with its own quote. |
| NavEstimator.NoQuotesNoEstimate | android/app/src/main/java/com/example/fundnavapp/FundApiService.kt:253-260 | With nothing quoted, the result is (0.0, 0.0, []). |
| NavEstimator.NoQuotesNothingMatched | android/app/src/main/java/com/example/fundnavapp/FundApiService.kt:234-251 | With nothing quoted, both sums are 0 and there are no details. |
| NavEstimator.UniformWeightedChange | android/app/src/main/java/com/example/fundnavapp/FundApiService.kt:241-242 | If every quoted holding moved by c, the weighted change is c times the matched weight. |
| NavEstimator.UniformChangeEstimate | android/app/src/main/java/com/example/fundnavapp/FundApiService.kt:253-257 | If every quoted holding moved by c and some weight matched, the estimate is c rounded half-up to 4 places. |
| NavEstimator.UniformMean | android/app/src/main/java/com/example/fundnavapp/FundApiService.kt:253-257 | The estimate of a sum that is c times a positive weight is c, rounded. |
| NavEstimator.WeightedChangeBounds | android/app/src/main/java/com/example/fundnavapp/FundApiService.kt:238-251 | With nonnegative weights and changes in [lo, hi], the weighted change lies between lo and hi times the matched weight. |
| NavEstimator.EstimateWithinChangeRange | android/app/src/main/java/com/example/fundnavapp/FundApiService.kt:253-257 | The estimate then lies between lo and hi, each rounded. |
| NavEstimator.UnquotedHoldingIgnored | android/app/src/main/java/com/example/fundnavapp/FundApiService.kt:239-240 | An unquoted holding, wherever it sits, changes nothing in the result. |
| NavEstimator.UnquotedHoldingSums | android/app/src/main/java/com/example/fundnavapp/FundApiService.kt:239-251 | An unquoted holding leaves both sums and the details unchanged. |
| Valuation.EstimateNavChange | android/app/src/main/python/valuation.py:1-51 | The early returns and the loop compute `ValuationOf(holdings, prices)`. |
| Valuation.EmptyHoldingsNoEstimate | android/app/src/main/python/valuation.py:12-16 | Empty holdings give (None, no `total_weight_used`, []). |
| Valuation.ZeroWeightNoEstimate | android/app/src/main/python/valuation.py:18-23 | A zero total weight gives (None, no `total_weight_used`, []). |
| Valuation.DetailsPerHolding | android/app/src/main/python/valuation.py:28-45 | One detail per holding, in order. Each is looked up by `fetch_code`, else `code`. Its price is the quote's, else None. Its change is the quote's, else 0. |
| Valuation.ContributionsAreWeightedMean | android/app/src/main/python/valuation.py:25-37 | Summing `change*w/W` per holding equals Σ(change·w)/W. |
| Valuation.EstimateIsWeightedMean | android/app/src/main/python/valuation.py:36-48 | With W≠0, the estimate is Σ(changeᵢ·wᵢ)/W over all holdings. |
| Valuation.UniformWeightedSum | android/app/src/main/python/valuation.py:36 | A common change c gives a weighted sum of c·W. |
| Valuation.UniformChangeEstimate | android/app/src/main/python/valuation.py:18-48 | A common change c with W≠0 gives the estimate c. |
| Valuation.MissingQuoteDilutes | android/app/src/main/python/valuation.py:29-37 | An unquoted holding adds its weight to `total_weight_used` and nothing to the numerator. |
| Pipeline.AsPyHoldings | android/app/src/main/python/valuation.py:28-30 | Handing holdings to the Python estimator keeps one entry per holding. |
| Pipeline.SameWeightedChanges | android/app/src/main/python/valuation.py:36-37 | When every holding has a symbol, the Python estimator's weighted sum equals the Kotlin estimator's weighted change. |
| Pipeline.SameTerm | android/app/src/main/python/valuation.py:29-36 | One holding adds the same term to both sums. |
| Pipeline.SameTotalWhenAllQuoted | android/app/src/main/python/valuation.py:18 | With every holding quoted, the Python estimator's total weight is the Kotlin estimator's matched weight. |
| Pipeline.AgreeWhenAllQuoted | android/app/src/main/python/valuation.py:18-48 | With every holding quoted and a positive weight, the Kotlin estimator's result is the Python estimator's, rounded half-up to 4 places. |
| Pipeline.PyDividesByAllWeights | android/app/src/main/python/valuation.py:36-48 | In general the Python estimator divides the same weighted change by the total of all weights. |

## Left out

- The HTTP layer is not part of this model. That covers `getFundHoldings` and `getRealtimeStockPrices`, the OkHttp calls, the URL built from `joinToString(",")`, and the `IOException` handling. The response body is a parameter. `NavEstimator.EstimateNavChange` takes the quote map as a parameter instead of fetching it; the symbols it would request are `QuoteSymbols`.
- The `try`/`catch` around `parseFundHoldings` is not modelled. Every modelled step is total, so nothing throws.
- The unused `fundCode` parameter of `parseFundHoldings` is dropped.
- Regular expressions are explicit scans. `.` is treated as matching every character, including newlines. In Kotlin it does not match a line break, so a match spanning a line break is not modelled.
- `Double` is modelled as `real`: there is no binary rounding, overflow or NaN. The `toString()` step before `BigDecimal` is taken as exact.
- Numbers.ToDoubleOrNull: does not accept `NaN`, `Infinity` or hexadecimal floating literals, which Kotlin also accepts. Decimal literals, signs, exponents and the `f`/`d` suffixes are modelled.
- Strings.IsLetter: covers ASCII letters and the CJK unified ideographs only, not every Unicode letter.
- Strings.ToLower: lower-cases ASCII letters only.
- Numbers.ToIntOrNull: accepts ASCII digits only, not other Unicode decimal digits.
- Python dictionaries are records. A key that is present with the value `None`, and a holding dictionary without `weight`, `code` or `name` (a `KeyError` in the source), are not modelled. An absent `price` or `change` key is modelled.
- The `parts.size < 2` check in `parseStockPrices` is not a separate branch. `QuoteFeed.EqualsGivesTwoParts` proves that it never skips a line.
- The Android UI, the persistence layer, `data_fetcher.py`, `main.py` and `app.py` are not part of this model.
