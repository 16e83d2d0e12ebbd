/**
 * `parseFundHoldings`: reads a fund's top-ten holdings page. The fund name
 * and report date come from two lazy patterns anywhere in the page; the
 * holdings table is the first double-quoted string after `content:`; each
 * `<tr>` row of it that is not a header and has at least seven cells whose
 * seventh reads as a number becomes one holding, in row order.
 */
module HoldingsExtractor {
  import opened Optional
  import opened Strings
  import opened Numbers
  import opened Filtering
  import opened FundData
  import opened SymbolMapper
  import opened HtmlScan

  /** 基金名称未知, "fund name unknown". */
  const UnknownFundName: string := "\U{57FA}\U{91D1}\U{540D}\U{79F0}\U{672A}\U{77E5}"
  const UnknownDate: string := "--"
  /** 暂无数据, "no data yet". */
  const NoDataMarker: string := "\U{6682}\U{65E0}\U{6570}\U{636E}"
  const ContentMarker: string := "content:"
  const TitleOpen: string := "title='"
  const TitleClose: string := "'"
  /** 截止至：<font class='px12'>, "as of:". */
  const DateOpen: string := "\U{622A}\U{6B62}\U{81F3}\U{FF1A}<font class='px12'>"
  const DateClose: string := "</font>"
  const RowOpen: string := "<tr>"
  const RowClose: string := "</tr>"
  /** The header test: any row text holding these two letters is skipped. */
  const HeaderMark: string := "th"
  const UnknownCode: string := "Unknown"

  /** The fund name: the first `title='…'`, or the placeholder. */
  function FundName(body: string): string
  {
    FirstCapture(body, TitleOpen, TitleClose).GetOr(UnknownFundName)
  }

  /** The report date: the first `截止至：<font class='px12'>…</font>`, or `--`. */
  function ReportDate(body: string): string
  {
    FirstCapture(body, DateOpen, DateClose).GetOr(UnknownDate)
  }

  /**
   * The first double-quoted string at or after `content:`: the text between
   * the first '"' from the marker on and the next '"'.
   */
  function TablePayload(body: string): (r: Option<string>)
    ensures r.Some? ==> '"' !in r.value
  {
    match IndexOf(body, ContentMarker, 0)
    case None => None
    case Some(c) =>
      match IndexOfChar(body, '"', c)
      case None => None
      case Some(q0) =>
        match IndexOfChar(body, '"', q0 + 1)
        case None => None
        case Some(q1) =>
          QuotedStretch(body, q0, q1);
          Some(body[q0 + 1..q1])
  }

  /** The payload stood between two quotes in the page, after `content:`. */
  lemma {:induction false} PayloadIsQuoted(body: string)
    ensures TablePayload(body).Some? ==> Contains(body, "\"" + TablePayload(body).value + "\"")
    ensures !Contains(body, ContentMarker) ==> TablePayload(body).None?
  {
    match IndexOf(body, ContentMarker, 0)
    case None =>
    case Some(c) =>
      match IndexOfChar(body, '"', c)
      case None =>
      case Some(q0) =>
        match IndexOfChar(body, '"', q0 + 1)
        case None =>
        case Some(q1) =>
          QuotedStretch(body, q0, q1);
  }

  /** The stretch between two '"' with none in between holds no '"', and occurs quoted. */
  lemma {:induction false} QuotedStretch(body: string, q0: nat, q1: nat)
    requires q0 < q1 < |body| && body[q0] == '"' && body[q1] == '"'
    requires forall i :: q0 < i < q1 ==> body[i] != '"'
    ensures '"' !in body[q0 + 1..q1] && Contains(body, "\"" + body[q0 + 1..q1] + "\"")
  {
    var t := body[q0 + 1..q1];
    forall i | 0 <= i < |t| ensures t[i] != '"' {
      assert t[i] == body[q0 + 1 + i];
    }
    assert body[q0..q1 + 1] == "\"" + t + "\"";
    assert OccursAt(body, "\"" + t + "\"", q0);
    ContainsIff(body, "\"" + t + "\"");
  }

  /** The groups of every `<tr>(.*?)</tr>` in the table. */
  function Rows(table: string): seq<string>
  {
    Captures(table, RowOpen, RowClose)
  }

  /** A cell's text: tags removed, then trimmed. */
  function CellText(cell: string): string
  {
    Trim(StripTags(cell))
  }

  /** The weight cell's text with '%' and ',' each turned into a blank. */
  function CleanWeight(cell: string): string
  {
    ReplaceChar(ReplaceChar(CellText(cell), '%', ' '), ',', ' ')
  }

  /**
   * The holding one row yields, if any. The code and market id come from the
   * quote link when the row has one, else from the second cell's text; the
   * name is the third cell's text and the weight the seventh's.
   */
  function RowHolding(row: string): Option<Holding>
  {
    if Contains(row, HeaderMark) then None
    else
      var link := FindLink(row);
      var cols := Cells(row);
      var marketId := if link.Some? then Some(link.value.market) else None;
      var code :=
        if link.Some? then link.value.code
        else if |cols| > 1 then CellText(cols[1])
        else UnknownCode;
      CellsHolding(cols, marketId, code)
  }

  /**
   * The second half of a row's reading, once its code and market id are
   * known: at least seven cells, and a seventh that reads as a number.
   */
  function CellsHolding(cols: seq<string>, marketId: Option<string>, code: string): Option<Holding>
  {
    if |cols| < 7 then None
    else
      var weightStr := CleanWeight(cols[6]);
      if |weightStr| == 0 || weightStr == "--" then None
      else
        match ToDoubleOrNull(weightStr)
        case None => None
        case Some(w) => Some(Holding(code, CellText(cols[2]), w, Some(GenerateSinaCode(marketId, code))))
  }

  /** The holdings of a table, in row order. */
  function ExtractHoldings(table: string): seq<Holding>
  {
    FilterMap(Rows(table), RowHolding)
  }

  /**
   * The whole parse: `None` when there is no quoted table after `content:`,
   * or it is empty, or it says there is no data.
   */
  function FundHoldingsOf(body: string): Option<FundHoldingsResponse>
  {
    match TablePayload(body)
    case None => None
    case Some(t) =>
      if |t| == 0 || Contains(t, NoDataMarker) then None
      else Some(FundHoldingsResponse(FundName(body), ExtractHoldings(t), ReportDate(body)))
  }

  /**
   * `parseFundHoldings`, step by step: locate the table, then walk its rows,
   * appending one holding for each row that yields one.
   */
  method ParseFundHoldings(responseBody: string) returns (r: Option<FundHoldingsResponse>)
    ensures r == FundHoldingsOf(responseBody)
  {
    var fundName := FirstCapture(responseBody, TitleOpen, TitleClose).GetOr(UnknownFundName);
    var reportDate := FirstCapture(responseBody, DateOpen, DateClose).GetOr(UnknownDate);
    var htmlTable := FindTable(responseBody);
    if htmlTable.Some? && |htmlTable.value| > 0 && !Contains(htmlTable.value, NoDataMarker) {
      var holdings := CollectHoldings(htmlTable.value);
      return Some(FundHoldingsResponse(fundName, holdings, reportDate));
    }
    return None;
  }

  /**
   * The nested searches for `content:` and the two quotes after it, statement
   * by statement, for `ParseFundHoldings`; `TablePayload` is the same search as
   * a value, which the lemmas reason about.
   */
  method FindTable(responseBody: string) returns (htmlTable: Option<string>)
    ensures htmlTable == TablePayload(responseBody)
  {
    var contentStart := IndexOf(responseBody, ContentMarker, 0);
    if contentStart.Some? {
      var quoteStart := IndexOfChar(responseBody, '"', contentStart.value);
      if quoteStart.Some? {
        var quoteEnd := IndexOfChar(responseBody, '"', quoteStart.value + 1);
        if quoteEnd.Some? {
          PayloadAt(responseBody, contentStart.value, quoteStart.value, quoteEnd.value);
          return Some(responseBody[quoteStart.value + 1..quoteEnd.value]);
        }
      }
    }
    return None;
  }

  /** The row loop: one holding for each row that yields one, in row order. */
  method CollectHoldings(htmlTable: string) returns (holdings: seq<Holding>)
    ensures holdings == ExtractHoldings(htmlTable)
  {
    holdings := [];
    var rows := Rows(htmlTable);
    for i := 0 to |rows|
      invariant holdings == FilterMap(rows[..i], RowHolding)
    {
      FilterMapStep(rows, i, RowHolding);
      var holding := ReadRow(rows[i]);
      if holding.Some? {
        holdings := holdings + [holding.value];
      }
    }
    assert rows[..|rows|] == rows;
  }

  /**
   * The body of the row loop in `CollectHoldings`: each check that `continue`s
   * the loop in the service returns nothing here. `RowHolding` is the same
   * step as a value, which the lemmas reason about.
   */
  method ReadRow(rowHtml: string) returns (holding: Option<Holding>)
    ensures holding == RowHolding(rowHtml)
  {
    if Contains(rowHtml, HeaderMark) {
      return None;
    }
    var link := FindLink(rowHtml);
    var stockCode := UnknownCode;
    var marketId: Option<string> := None;
    if link.Some? {
      marketId := Some(link.value.market);
      stockCode := link.value.code;
    } else {
      var codeCols := Cells(rowHtml);
      if |codeCols| > 1 {
        stockCode := CellText(codeCols[1]);
      }
    }
    var cols := Cells(rowHtml);
    holding := ReadCells(cols, marketId, stockCode);
  }

  /**
   * The rest of the row loop's body, called by `ReadRow`: the cell-count,
   * weight and symbol steps. `CellsHolding` is the same step as a value.
   */
  method ReadCells(cols: seq<string>, marketId: Option<string>, stockCode: string) returns (holding: Option<Holding>)
    ensures holding == CellsHolding(cols, marketId, stockCode)
  {
    if |cols| < 7 {
      return None;
    }
    var stockName := CellText(cols[2]);
    var weightStr := CleanWeight(cols[6]);
    if |weightStr| == 0 || weightStr == "--" {
      return None;
    }
    var weight := ToDoubleOrNull(weightStr);
    if weight.None? {
      return None;
    }
    var sinaCode := GenerateSinaCode(marketId, stockCode);
    return Some(Holding(stockCode, stockName, weight.value, Some(sinaCode)));
  }

  /**
   * A row yields a holding exactly when it has no header mark, at least seven
   * cells, and a seventh cell that reads as a number once cleaned; the
   * empty and `--` checks never decide anything on their own.
   */
  lemma {:induction false} RowKeptIff(row: string)
    ensures RowHolding(row).Some? <==>
      !Contains(row, HeaderMark) && |Cells(row)| >= 7 && ToDoubleOrNull(CleanWeight(Cells(row)[6])).Some?
  {
    PlaceholdersAreNotNumbers();
  }

  /**
   * Where a kept holding's fields come from: code and symbol from the quote
   * link when there is one, else the second cell's text and the code-shape
   * rules; name and weight from the third and seventh cells. In particular
   * the `Unknown` code never reaches a holding.
   */
  lemma {:induction false} RowHoldingFields(row: string)
    requires RowHolding(row).Some?
    ensures var h := RowHolding(row).value; var cols := Cells(row); var link := FindLink(row);
      |cols| >= 7 && h.name == CellText(cols[2]) &&
      ToDoubleOrNull(CleanWeight(cols[6])) == Some(h.weight) &&
      (link.Some? ==> h.code == link.value.code && h.sinaCode == Some(GenerateSinaCode(Some(link.value.market), h.code))) &&
      (link.None? ==> h.code == CellText(cols[1]) && h.sinaCode == Some(FallbackSinaCode(h.code)))
  {
    var link := FindLink(row);
    var cols := Cells(row);
    var marketId := if link.Some? then Some(link.value.market) else None;
    var code :=
      if link.Some? then link.value.code
      else if |cols| > 1 then CellText(cols[1])
      else UnknownCode;
    assert RowHolding(row) == CellsHolding(cols, marketId, code);
    CellsHoldingFields(cols, marketId, code);
  }

  /** A holding read from cells has the third cell's name, the seventh's weight and the given code. */
  lemma {:induction false} CellsHoldingFields(cols: seq<string>, marketId: Option<string>, code: string)
    requires CellsHolding(cols, marketId, code).Some?
    ensures var h := CellsHolding(cols, marketId, code).value;
      |cols| >= 7 && h.code == code && h.name == CellText(cols[2]) &&
      ToDoubleOrNull(CleanWeight(cols[6])) == Some(h.weight) &&
      h.sinaCode == Some(GenerateSinaCode(marketId, code))
  {
  }

  /**
   * The holdings come from the rows one for one and in order: the k-th
   * holding is what the k-th kept row yields.
   */
  lemma {:induction false} HoldingsInRowOrder(table: string)
    ensures var hs := ExtractHoldings(table); var ks := KeptIndices(Rows(table), RowHolding);
      |hs| == |ks| <= |Rows(table)| &&
      forall k :: 0 <= k < |hs| ==> RowHolding(Rows(table)[ks[k]]) == Some(hs[k])
  {
    var rows := Rows(table);
    var ks := KeptIndices(rows, RowHolding);
    FilterMapFollowsKept(rows, RowHolding);
    KeptIndicesBound(ks, |rows|);
  }

  /** A strictly increasing sequence of indices below `n` has at most `n` entries. */
  lemma {:induction false} KeptIndicesBound(ks: seq<nat>, n: nat)
    requires forall k :: 0 <= k < |ks| ==> ks[k] < n
    requires forall k, l :: 0 <= k < l < |ks| ==> ks[k] < ks[l]
    ensures |ks| <= n
    decreases n
  {
    if |ks| > 0 {
      var init := ks[..|ks| - 1];
      assert forall k :: 0 <= k < |init| ==> init[k] < ks[|ks| - 1] < n;
      KeptIndicesBound(init, n - 1);
    }
  }

  /** Every parsed holding carries a quote symbol in one of the four forms built from its code. */
  lemma {:induction false} EveryHoldingHasSymbol(table: string)
    ensures forall h :: h in ExtractHoldings(table) ==>
      h.sinaCode.Some? &&
      (h.sinaCode.value == "sz" + h.code || h.sinaCode.value == "sh" + h.code ||
       h.sinaCode.value == HongKongSymbol(h.code) || h.sinaCode.value == OverseasSymbol(h.code))
  {
    var hs := ExtractHoldings(table);
    var rows := Rows(table);
    var ks := KeptIndices(rows, RowHolding);
    FilterMapFollowsKept(rows, RowHolding);
    forall h | h in hs
      ensures h.sinaCode.Some? &&
        (h.sinaCode.value == "sz" + h.code || h.sinaCode.value == "sh" + h.code ||
         h.sinaCode.value == HongKongSymbol(h.code) || h.sinaCode.value == OverseasSymbol(h.code))
    {
      var k :| 0 <= k < |hs| && hs[k] == h;
      RowHoldingFields(rows[ks[k]]);
    }
  }

  /** Text with no tag and no blank at either end is its own cell text. */
  lemma {:induction false} CellTextOfPlain(c: string)
    requires '<' !in c && (c == [] || (!IsWhitespace(c[0]) && !IsWhitespace(c[|c| - 1])))
    ensures CellText(c) == c
  {
    TrimNoop(c);
  }

  lemma {:induction false} CleanPercent(w: string)
    requires '%' !in w && ',' !in w && '<' !in w
    requires |w| == 0 || !IsWhitespace(w[0])
    ensures CleanWeight(w + "%") == w + " "
  {
    var c := w + "%";
    assert CellText(c) == c by {
      assert c[|c| - 1] == '%' && !IsWhitespace('%');
      assert |w| > 0 ==> c[0] == w[0];
      assert '<' !in c;
      CellTextOfPlain(c);
    }
    assert ReplaceChar(c, '%', ' ') == w + " " by {
      ReplaceCharLast(w, '%', ' ');
    }
    assert ReplaceChar(w + " ", ',', ' ') == w + " " by {
      assert ',' !in w + " ";
      ReplaceCharAbsent(w + " ", ',', ' ');
    }
  }

  /**
   * A weight written as a number followed by '%' reads as that number: the
   * sign becomes a trailing blank, which the number parser ignores.
   */
  lemma {:induction false} PercentWeight(w: string)
    requires '%' !in w && ',' !in w && '<' !in w
    requires |w| == 0 || !IsWhitespace(w[0])
    ensures ToDoubleOrNull(CleanWeight(w + "%")) == ToDoubleOrNull(w)
  {
    CleanPercent(w);
    TrailingBlankIgnored(w);
  }

  lemma {:induction false} CleanThousands(a: string, b: string)
    requires |a| > 0 && AllDigits(a) && |b| > 0 && AllDigits(b)
    ensures CleanWeight(a + "," + b) == a + " " + b
  {
    var c := a + "," + b;
    NoSymbolInDigits(a);
    NoSymbolInDigits(b);
    assert '<' !in c && '%' !in c;
    assert c[0] == a[0] && c[|c| - 1] == b[|b| - 1];
    CellTextOfPlain(c);
    ReplaceCharAbsent(c, '%', ' ');
    ReplaceCharMiddle(a, ',', b, ' ');
  }

  lemma {:induction false} NoSymbolInDigits(d: string)
    requires AllDigits(d)
    ensures '<' !in d && '%' !in d && ',' !in d
  {
    assert forall i :: 0 <= i < |d| ==> IsDigit(d[i]);
  }

  /**
   * The header test looks for the letters `th` anywhere in the row, so a
   * data row is also dropped when any attribute or text in it holds them,
   * as in `width`, `month` or a name like `Smith`.
   */
  lemma {:induction false} HeaderTestMatchesAnyTh(pre: string, w: string, post: string)
    requires Contains(w, HeaderMark)
    ensures RowHolding(pre + w + post).None?
  {
    ContainsIff(w, HeaderMark);
    var i :| OccursAt(w, HeaderMark, i);
    var row := pre + w + post;
    assert row[|pre| + i..|pre| + i + 2] == w[i..i + 2];
    assert OccursAt(row, HeaderMark, |pre| + i);
    ContainsIff(row, HeaderMark);
  }

  /** `width` is one such word. */
  lemma {:induction false} WidthHasHeaderMark()
    ensures Contains("width", HeaderMark)
  {
    assert OccursAt("width", HeaderMark, 3);
    ContainsIff("width", HeaderMark);
  }

  /**
   * A weight written with a thousands separator (`1,234`) is not a number
   * once the comma becomes a blank, so its row is dropped.
   */
  lemma {:induction false} ThousandsSeparatorDropsRow(row: string, a: string, b: string)
    requires |a| > 0 && AllDigits(a) && |b| > 0 && AllDigits(b)
    requires |Cells(row)| >= 7 && Cells(row)[6] == a + "," + b
    ensures RowHolding(row).None?
  {
    CleanThousands(a, b);
    InnerBlankRejected(a, b);
    RowKeptIff(row);
  }

  /**
   * End to end on one row: a row of plain `<td>` cells, with no header mark
   * and no quote link, whose seventh cell is a number and '%', yields the
   * holding named by its third cell, coded by its second, with that number
   * as weight and the code-shape symbol.
   */
  lemma {:induction false} RowOfCells(cells: seq<string>, w: string, x: real)
    requires |cells| >= 7
    requires forall k :: 0 <= k < |cells| ==> !Contains(cells[k], "</td>") && '<' !in cells[k]
    requires Trim(cells[1]) == cells[1] && Trim(cells[2]) == cells[2]
    requires cells[6] == w + "%" && '%' !in w && ',' !in w && (|w| == 0 || !IsWhitespace(w[0]))
    requires ToDoubleOrNull(w) == Some(x)
    requires !Contains(Enclose(cells, "<td>", "</td>"), HeaderMark)
    requires !Contains(Enclose(cells, "<td>", "</td>"), LinkMarker)
    ensures RowHolding(Enclose(cells, "<td>", "</td>")) ==
      Some(Holding(cells[1], cells[2], x, Some(FallbackSinaCode(cells[1]))))
  {
    var row := Enclose(cells, "<td>", "</td>");
    CellsOfEnclosed(cells);
    assert '<' !in w + "%";
    PercentWeight(w);
    assert CellText(cells[1]) == cells[1];
    assert CellText(cells[2]) == cells[2];
    UnlinkedRow(row, x);
  }

  /** A row with no header mark and no quote link, from its cells. */
  lemma {:induction false} UnlinkedRow(row: string, x: real)
    requires !Contains(row, HeaderMark) && !Contains(row, LinkMarker)
    requires |Cells(row)| >= 7 && ToDoubleOrNull(CleanWeight(Cells(row)[6])) == Some(x)
    ensures var code := CellText(Cells(row)[1]);
      RowHolding(row) == Some(Holding(code, CellText(Cells(row)[2]), x, Some(FallbackSinaCode(code))))
  {
    var cols := Cells(row);
    assert FindLink(row).None? by {
      NoMarkerNoLink(row);
    }
    assert RowHolding(row) == CellsHolding(cols, None, CellText(cols[1]));
    CellsHoldingOfNumber(cols, None, CellText(cols[1]), x);
  }

  /** Seven cells and a seventh that reads as the number `x` give a holding of weight `x`. */
  lemma {:induction false} CellsHoldingOfNumber(cols: seq<string>, marketId: Option<string>, code: string, x: real)
    requires |cols| >= 7 && ToDoubleOrNull(CleanWeight(cols[6])) == Some(x)
    ensures CellsHolding(cols, marketId, code) ==
      Some(Holding(code, CellText(cols[2]), x, Some(GenerateSinaCode(marketId, code))))
  {
    PlaceholdersAreNotNumbers();
  }

  /** A quote link in a row decides the code and, through the market id, the symbol. */
  lemma {:induction false} LinkedRowUsesMarket(row: string)
    requires RowHolding(row).Some? && FindLink(row).Some?
    ensures var h := RowHolding(row).value; var link := FindLink(row).value;
      h.code == link.code && |h.code| > 0 && AllAlnum(h.code) &&
      h.sinaCode == Some(GenerateSinaCode(Some(link.market), link.code))
  {
    RowHoldingFields(row);
  }

  lemma {:induction false} RowCloseUnbordered()
    ensures Unbordered(RowClose)
  {
    UniqueFirstUnbordered(RowClose);
  }

  /** Round trip: the rows of a table written as `<tr>…</tr>` pieces are those pieces. */
  lemma {:induction false} RowsOfTable(rows: seq<string>)
    requires forall k :: 0 <= k < |rows| ==> !Contains(rows[k], RowClose)
    ensures Rows(Enclose(rows, RowOpen, RowClose)) == rows
  {
    RowCloseUnbordered();
    CapturesOfEnclosed(rows, RowOpen, RowClose);
  }

  /** A table without any `<tr>` yields no holdings. */
  lemma {:induction false} TableWithoutRows(table: string)
    requires !Contains(table, RowOpen)
    ensures ExtractHoldings(table) == []
  {
    assert IndexOf(table, RowOpen, 0).None?;
  }

  lemma {:induction false} ContentMarkerUnbordered()
    ensures Unbordered(ContentMarker)
  {
    UniqueFirstUnbordered(ContentMarker);
  }

  /**
   * Round trip: in `pre + "content:" + mid + '"' + t + '"' + post`, where
   * `pre` has no marker and neither `mid` nor `t` a quote, the table is `t`.
   */
  lemma {:induction false} PayloadOfWellFormedBody(pre: string, mid: string, t: string, post: string)
    requires !Contains(pre, ContentMarker) && '"' !in mid && '"' !in t
    ensures TablePayload(pre + ContentMarker + mid + "\"" + t + "\"" + post) == Some(t)
  {
    var body := pre + ContentMarker + mid + "\"" + t + "\"" + post;
    var q0 := |pre| + |ContentMarker| + |mid|;
    MarkerOfWellFormedBody(pre, mid, t, post);
    OpeningQuoteOfWellFormedBody(pre, mid, t, post);
    ClosingQuoteOfWellFormedBody(pre, mid, t, post);
    PayloadFromSearches(body, t, |pre|, q0);
  }

  /** The payload, from where the three searches stop. */
  lemma {:induction false} PayloadFromSearches(body: string, t: string, c: nat, q0: nat)
    requires IndexOf(body, ContentMarker, 0) == Some(c)
    requires IndexOfChar(body, '"', c) == Some(q0) && IndexOfChar(body, '"', q0 + 1) == Some(q0 + 1 + |t|)
    requires body[q0 + 1..q0 + 1 + |t|] == t
    ensures TablePayload(body) == Some(t)
  {
    PayloadAt(body, c, q0, q0 + 1 + |t|);
  }

  /** The marker search in a well-formed page stops right after `pre`. */
  lemma {:induction false} MarkerOfWellFormedBody(pre: string, mid: string, t: string, post: string)
    requires !Contains(pre, ContentMarker)
    ensures IndexOf(pre + ContentMarker + mid + "\"" + t + "\"" + post, ContentMarker, 0) == Some(|pre|)
  {
    var body := pre + ContentMarker + mid + "\"" + t + "\"" + post;
    var c := |pre|;
    ContentMarkerUnbordered();
    assert body[0..c] == pre;
    assert body[c..c + |ContentMarker|] == ContentMarker;
    FirstOccurrenceAt(body, ContentMarker, 0, c);
  }

  /** The first quote search in a well-formed page finds the quote before `t`. */
  lemma {:induction false} OpeningQuoteOfWellFormedBody(pre: string, mid: string, t: string, post: string)
    requires '"' !in mid
    ensures IndexOfChar(pre + ContentMarker + mid + "\"" + t + "\"" + post, '"', |pre|) ==
      Some(|pre| + |ContentMarker| + |mid|)
  {
    var body := pre + ContentMarker + mid + "\"" + t + "\"" + post;
    var c := |pre|;
    var q0 := c + |ContentMarker| + |mid|;
    assert body[c..q0] == ContentMarker + mid;
    assert '"' !in ContentMarker;
    FirstCharAt(body, '"', c, q0);
  }

  /** The second quote search in a well-formed page finds the quote after `t`. */
  lemma {:induction false} ClosingQuoteOfWellFormedBody(pre: string, mid: string, t: string, post: string)
    requires '"' !in t
    ensures var body := pre + ContentMarker + mid + "\"" + t + "\"" + post;
      var q0 := |pre| + |ContentMarker| + |mid|;
      IndexOfChar(body, '"', q0 + 1) == Some(q0 + 1 + |t|) && body[q0 + 1..q0 + 1 + |t|] == t
  {
    var body := pre + ContentMarker + mid + "\"" + t + "\"" + post;
    var q0 := |pre| + |ContentMarker| + |mid|;
    forall i | 0 <= i < |t| ensures body[q0 + 1 + i] == t[i] {
    }
    SliceFromIndices(body, q0 + 1, t);
    FirstCharAt(body, '"', q0 + 1, q0 + 1 + |t|);
  }

  lemma {:induction false} PayloadAt(body: string, c: nat, q0: nat, q1: nat)
    requires IndexOf(body, ContentMarker, 0) == Some(c)
    requires IndexOfChar(body, '"', c) == Some(q0) && IndexOfChar(body, '"', q0 + 1) == Some(q1)
    ensures TablePayload(body) == Some(body[q0 + 1..q1])
  {
  }



  /**
   * End to end: a page whose quoted table is made of `<tr>` rows gives the
   * holdings those rows yield, in order, with the page's name and date.
   */
  lemma {:induction false} HoldingsOfWellFormedPage(pre: string, mid: string, rows: seq<string>, post: string)
    requires !Contains(pre, ContentMarker) && '"' !in mid
    requires forall k :: 0 <= k < |rows| ==> !Contains(rows[k], RowClose) && '"' !in rows[k]
    requires |rows| > 0 && !Contains(Enclose(rows, RowOpen, RowClose), NoDataMarker)
    ensures var body := pre + ContentMarker + mid + "\"" + Enclose(rows, RowOpen, RowClose) + "\"" + post;
      FundHoldingsOf(body) == Some(FundHoldingsResponse(FundName(body), FilterMap(rows, RowHolding), ReportDate(body)))
  {
    var t := Enclose(rows, RowOpen, RowClose);
    EncloseHasNoQuote(rows);
    RowsOfTable(rows);
    assert |t| >= |RowOpen|;
    PageHoldings(pre, mid, t, post);
  }

  /** A page whose quoted table is `t` gives the holdings of `t`. */
  lemma {:induction false} PageHoldings(pre: string, mid: string, t: string, post: string)
    requires !Contains(pre, ContentMarker) && '"' !in mid && '"' !in t
    requires |t| > 0 && !Contains(t, NoDataMarker)
    ensures var body := pre + ContentMarker + mid + "\"" + t + "\"" + post;
      FundHoldingsOf(body) == Some(FundHoldingsResponse(FundName(body), ExtractHoldings(t), ReportDate(body)))
  {
    PayloadOfWellFormedBody(pre, mid, t, post);
    HoldingsOfPayload(pre + ContentMarker + mid + "\"" + t + "\"" + post, t);
  }


  lemma {:induction false} HoldingsOfPayload(body: string, t: string)
    requires TablePayload(body) == Some(t) && |t| > 0 && !Contains(t, NoDataMarker)
    ensures FundHoldingsOf(body) == Some(FundHoldingsResponse(FundName(body), ExtractHoldings(t), ReportDate(body)))
  {
  }


  /** Wrapping quote-free pieces in `<tr>` … `</tr>` adds no quote. */
  lemma {:induction false} EncloseHasNoQuote(rows: seq<string>)
    requires forall k :: 0 <= k < |rows| ==> '"' !in rows[k]
    ensures '"' !in Enclose(rows, RowOpen, RowClose)
  {
    if |rows| > 0 {
      EncloseHasNoQuote(rows[1..]);
    }
  }

  /** A page without `content:` gives nothing. */
  lemma {:induction false} MissingContentIsNull(body: string)
    requires !Contains(body, ContentMarker)
    ensures FundHoldingsOf(body).None?
  {
    PayloadIsQuoted(body);
  }

  /** A table that says there is no data gives nothing. */
  lemma {:induction false} NoDataIsNull(body: string)
    requires TablePayload(body).Some? && Contains(TablePayload(body).value, NoDataMarker)
    ensures FundHoldingsOf(body).None?
  {
  }

  /** A parse that succeeds found a nonempty quoted table after `content:`. */
  lemma {:induction false} ParsedPageHasTable(body: string)
    requires FundHoldingsOf(body).Some?
    ensures Contains(body, ContentMarker) && TablePayload(body).Some?
    ensures var t := TablePayload(body).value;
      |t| > 0 && '"' !in t && !Contains(t, NoDataMarker) &&
      Contains(body, "\"" + t + "\"") && FundHoldingsOf(body).value.holdings == ExtractHoldings(t)
  {
    PayloadIsQuoted(body);
  }

  /** `content:` with no '"' anywhere after it: no table, so the parse yields null. */
  lemma {:induction false} NoOpeningQuoteIsNull(body: string, c: nat)
    requires IndexOf(body, ContentMarker, 0) == Some(c)
    requires forall i :: c <= i < |body| ==> body[i] != '"'
    ensures TablePayload(body).None? && FundHoldingsOf(body).None?
  {
  }

  /** An opening '"' after `content:` that is never closed: the parse yields null too. */
  lemma {:induction false} NoClosingQuoteIsNull(body: string, c: nat, q0: nat)
    requires IndexOf(body, ContentMarker, 0) == Some(c)
    requires c <= q0 < |body| && body[q0] == '"' && (forall i :: c <= i < q0 ==> body[i] != '"')
    requires forall i :: q0 < i < |body| ==> body[i] != '"'
    ensures TablePayload(body).None? && FundHoldingsOf(body).None?
  {
  }

  lemma {:induction false} TitleOpenUnbordered()
    ensures Unbordered(TitleOpen)
  {
    UniqueLastUnbordered(TitleOpen);
  }

  /** Round trip: the fund name of `pre + "title='" + n + "'" + post` is `n`. */
  lemma {:induction false} FundNameOfTitle(pre: string, n: string, post: string)
    requires !Contains(pre, TitleOpen) && !Contains(n, TitleClose)
    ensures FundName(pre + TitleOpen + n + TitleClose + post) == n
  {
    TitleOpenUnbordered();
    FirstCaptureOfWrapped(pre, TitleOpen, n, TitleClose, post);
  }

  /** A page with no `title='…'` gets the placeholder name. */
  lemma {:induction false} MissingTitleIsUnknown(body: string)
    requires !Contains(body, TitleOpen)
    ensures FundName(body) == UnknownFundName
  {
  }

  /** Round trip: the report date of `pre + DateOpen + d + "</font>" + post` is `d`. */
  lemma {:induction false} ReportDateOfMarkup(pre: string, d: string, post: string)
    requires !Contains(pre, DateOpen) && !Contains(d, DateClose)
    ensures ReportDate(pre + DateOpen + d + DateClose + post) == d
  {
    UniqueLastUnbordered(DateOpen);
    UniqueFirstUnbordered(DateClose);
    FirstCaptureOfWrapped(pre, DateOpen, d, DateClose, post);
  }

  /** A page with no date markup gets `--`. */
  lemma {:induction false} MissingDateIsDashes(body: string)
    requires !Contains(body, DateOpen)
    ensures ReportDate(body) == UnknownDate
  {
  }
}
