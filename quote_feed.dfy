/**
 * `parseStockPrices`: reads the quote vendor's reply, one `key="f0,f1,…"`
 * line per symbol, and writes one price entry per usable line into the
 * caller's map. The key's prefix picks one of three field layouts.
 */
module QuoteFeed {
  import opened Optional
  import opened Strings
  import opened Numbers
  import opened FundData
  import opened SymbolMapper
  import opened Filtering

  /** Which fields hold name, price and change. */
  datatype Layout = HongKong | Overseas | AShare

  const KeyPrefix: string := "var hq_str_"
  const HongKongPrefix: string := "rt_hk"
  const OverseasPrefix: string := "gb_"
  const UnknownName: string := "Unknown"

  /** The layout a key selects: `rt_hk…`, then `gb_…`, else the mainland one. */
  function LayoutOf(key: string): Layout
  {
    if StartsWith(key, HongKongPrefix) then HongKong
    else if StartsWith(key, OverseasPrefix) then Overseas
    else AShare
  }

  /** The number of fields a layout needs before any of them is read. */
  function FieldsNeeded(layout: Layout): nat
  {
    match layout
    case HongKong => 9
    case Overseas => 3
    case AShare => 4
  }

  /**
   * The entry for one line's fields. Hong Kong: name f1, price f6, change
   * f8. Overseas: name f0, price f1, change f2. Mainland: name f0, price f3,
   * change from the previous close f2. Too few fields give the placeholder
   * entry; an unreadable number gives 0.
   */
  function QuoteOf(layout: Layout, data: seq<string>): (r: StockPrice)
    ensures |data| < FieldsNeeded(layout) ==> r == StockPrice(UnknownName, 0.0, 0.0)
    ensures layout == AShare && |data| >= 4 ==>
      r.name == data[0] && r.price == DoubleOrZero(data[3]) && r.changePct == PercentChange(r.price, DoubleOrZero(data[2]))
  {
    if |data| < FieldsNeeded(layout) then StockPrice(UnknownName, 0.0, 0.0)
    else
      match layout
      case HongKong => StockPrice(data[1], DoubleOrZero(data[6]), DoubleOrZero(data[8]))
      case Overseas => StockPrice(data[0], DoubleOrZero(data[1]), DoubleOrZero(data[2]))
      case AShare =>
        var preClose := DoubleOrZero(data[2]);
        var currentPrice := DoubleOrZero(data[3]);
        StockPrice(data[0], currentPrice, PercentChange(currentPrice, preClose))
  }

  /**
   * The change of `current` over a positive previous close, in percent;
   * 0 when the previous close is not positive.
   */
  function PercentChange(current: real, preClose: real): (r: real)
    ensures preClose > 0.0 ==> r * preClose == (current - preClose) * 100.0
    ensures preClose > 0.0 ==> (r > 0.0 <==> current > preClose)
    ensures preClose <= 0.0 ==> r == 0.0
  {
    if preClose > 0.0 then
      var q := (current - preClose) / preClose;
      assert q * preClose == current - preClose;
      assert q * 100.0 * preClose == q * preClose * 100.0;
      q * 100.0
    else 0.0
  }

  lemma {:induction false} PercentChangeOfPositive(current: real, preClose: real)
    requires preClose > 0.0
    ensures PercentChange(current, preClose) == ((current - preClose) / preClose) * 100.0
  {
  }

  lemma {:induction false} HongKongQuote(data: seq<string>)
    ensures |data| >= 9 ==> QuoteOf(HongKong, data) == StockPrice(data[1], DoubleOrZero(data[6]), DoubleOrZero(data[8]))
    ensures |data| < 9 ==> QuoteOf(HongKong, data) == StockPrice(UnknownName, 0.0, 0.0)
  {
  }

  lemma {:induction false} OverseasQuote(data: seq<string>)
    ensures |data| >= 3 ==> QuoteOf(Overseas, data) == StockPrice(data[0], DoubleOrZero(data[1]), DoubleOrZero(data[2]))
    ensures |data| < 3 ==> QuoteOf(Overseas, data) == StockPrice(UnknownName, 0.0, 0.0)
  {
  }

  /** Writing into a map that is `a` overwritten by `b` is writing into `b`. */
  lemma {:induction false} UpdateAfterUnion<K, V>(a: map<K, V>, b: map<K, V>, k: K, v: V)
    ensures (a + b)[k := v] == a + b[k := v]
  {
  }

  /** The key of a line's left-hand side: trimmed, `var hq_str_` removed, trimmed again. */
  function KeyOf(lhs: string): string
  {
    Trim(RemovePrefix(Trim(lhs), KeyPrefix))
  }

  /** The data of a line's right-hand side: trimmed, then unquoted when quoted at both ends. */
  function DataOf(rhs: string): string
  {
    RemoveSurrounding(Trim(rhs), '"')
  }

  /**
   * The map entry one line writes, if any: only a nonempty line with an
   * `=` whose data part is nonempty writes one.
   */
  function LineEntry(line: string): Option<(string, StockPrice)>
  {
    if |line| == 0 || '=' !in line then None
    else
      var parts := Split(line, '=');
      if |parts| < 2 then None
      else
        var key := KeyOf(parts[0]);
        var dataStr := DataOf(parts[1]);
        if |dataStr| == 0 then None
        else Some((key, QuoteOf(LayoutOf(key), Split(dataStr, ','))))
  }

  lemma {:induction false} LineEntryOf(line: string, parts: seq<string>, key: string, dataStr: string)
    requires |line| > 0 && '=' in line && parts == Split(line, '=') && |parts| >= 2
    requires key == KeyOf(parts[0]) && dataStr == DataOf(parts[1]) && |dataStr| > 0
    ensures LineEntry(line) == Some((key, QuoteOf(LayoutOf(key), Split(dataStr, ','))))
  {
  }

  /** The entries the lines write, in order, a later line overwriting an earlier one. */
  function FeedQuotes(lines: seq<string>): map<string, StockPrice>
  {
    Overwrites(lines, LineEntry)
  }

  /** The caller's mutable map of quotes, keyed by vendor symbol. */
  class PriceTable {
    var entries: map<string, StockPrice>

    constructor()
      ensures entries == map[]
    {
      entries := map[];
    }
  }

  /**
   * `parseStockPrices`, step by step: the map afterwards is the map before,
   * overwritten by what the reply's lines write.
   */
  method ParseStockPrices(responseBody: string, results: PriceTable)
    modifies results
    ensures results.entries == old(results.entries) + FeedQuotes(Split(responseBody, '\n'))
  {
    var lines := Split(responseBody, '\n');
    for i := 0 to |lines|
      invariant results.entries == old(results.entries) + Overwrites(lines[..i], LineEntry)
    {
      OverwritesStep(lines, i, LineEntry);
      if LineEntry(lines[i]).Some? {
        UpdateAfterUnion(old(results.entries), Overwrites(lines[..i], LineEntry), LineEntry(lines[i]).value.0, LineEntry(lines[i]).value.1);
      }
      WriteLine(lines[i], results);
    }
    assert lines[..|lines|] == lines;
  }

  /** The body of the line loop: one line's entry, if any, written into the map. */
  method WriteLine(line: string, results: PriceTable)
    modifies results
    ensures results.entries ==
      match LineEntry(line)
      case None => old(results.entries)
      case Some((k, q)) => old(results.entries)[k := q]
  {
    var entry := ReadLine(line);
    if entry.Some? {
      results.entries := results.entries[entry.value.0 := entry.value.1];
    }
  }

  /**
   * One line read into a key and a quote; each check that `continue`s the
   * line loop in the service returns nothing here.
   */
  method ReadLine(line: string) returns (entry: Option<(string, StockPrice)>)
    ensures entry == LineEntry(line)
  {
    if |line| == 0 || '=' !in line {
      return None;
    }
    var parts := Split(line, '=');
    EqualsGivesTwoParts(line);
    if |parts| < 2 {
      // A line holding '=' always splits into two or more parts.
      assert false;
    }
    var key := Trim(RemovePrefix(Trim(parts[0]), KeyPrefix));
    var dataStr := RemoveSurrounding(Trim(parts[1]), '"');
    if |dataStr| == 0 {
      return None;
    }
    var data := Split(dataStr, ',');
    var quote := ReadQuote(key, data);
    LineEntryOf(line, parts, key, dataStr);
    return Some((key, quote));
  }

  /**
   * The fields the key's layout reads, with the placeholder entry when there
   * are too few; called by `ReadLine`. `QuoteOf` is the same step as a value,
   * which the lemmas reason about.
   */
  method ReadQuote(key: string, data: seq<string>) returns (quote: StockPrice)
    ensures quote == QuoteOf(LayoutOf(key), data)
  {
    var name := UnknownName;
    var price := 0.0;
    var changePct := 0.0;
    if StartsWith(key, HongKongPrefix) {
      if |data| >= 9 {
        name := data[1];
        price := DoubleOrZero(data[6]);
        changePct := DoubleOrZero(data[8]);
      }
      HongKongQuote(data);
    } else if StartsWith(key, OverseasPrefix) {
      if |data| >= 3 {
        name := data[0];
        price := DoubleOrZero(data[1]);
        changePct := DoubleOrZero(data[2]);
      }
      OverseasQuote(data);
    } else {
      if |data| >= 4 {
        name := data[0];
        var preClose := DoubleOrZero(data[2]);
        var currentPrice := DoubleOrZero(data[3]);
        price := currentPrice;
        if preClose > 0.0 {
          changePct := ((currentPrice - preClose) / preClose) * 100.0;
          PercentChangeOfPositive(currentPrice, preClose);
        }
      }
    }
    quote := StockPrice(name, price, changePct);
  }

  /** A line with an `=` always splits into at least two parts, so the parts-count check never skips one. */
  lemma {:induction false} EqualsGivesTwoParts(line: string)
    requires '=' in line
    ensures |Split(line, '=')| >= 2
  {
    SplitCount(line, '=');
    assert '=' in multiset(line);
  }

  /** The keys the feed writes are exactly the keys of the lines that write an entry. */
  lemma {:induction false} FeedKeys(lines: seq<string>, k: string)
    ensures k in FeedQuotes(lines) <==>
      exists i :: 0 <= i < |lines| && LineEntry(lines[i]).Some? && LineEntry(lines[i]).value.0 == k
  {
    OverwritesKeys(lines, LineEntry, k);
  }

  /** A symbol's quote is the one from the last line with that symbol. */
  lemma {:induction false} LastLineWins(lines: seq<string>, j: nat, k: string, q: StockPrice)
    requires j < |lines| && LineEntry(lines[j]) == Some((k, q))
    requires forall i :: j < i < |lines| ==> LineEntry(lines[i]).None? || LineEntry(lines[i]).value.0 != k
    ensures k in FeedQuotes(lines) && FeedQuotes(lines)[k] == q
  {
    LastWriteWins(lines, LineEntry, j, k, q);
  }

  /**
   * Round trip on one line: `var hq_str_<key>="<fields joined by ','>"`
   * writes the key and the entry its layout reads from those fields.
   */
  lemma {:induction false} QuotedLineEntry(key: string, data: seq<string>)
    requires |key| > 0 && !IsWhitespace(key[0]) && !IsWhitespace(key[|key| - 1])
    requires '=' !in key
    requires |data| >= 1 && |Join(data, ',')| > 0
    requires forall i :: 0 <= i < |data| ==> ',' !in data[i] && '=' !in data[i]
    ensures LineEntry(KeyPrefix + key + "=\"" + Join(data, ',') + "\"") ==
      Some((key, QuoteOf(LayoutOf(key), data)))
  {
    var body := Join(data, ',');
    var lhs := KeyPrefix + key;
    var rhs := "\"" + body + "\"";
    JoinHasNo(data, ',', '=');
    QuotedLineShape(key, body);
    KeyOfPrefixed(key);
    DataOfQuoted(body);
    SplitJoin(data, ',');
    LineEntryOfParts(lhs, rhs);
  }

  lemma {:induction false} QuotedLineShape(key: string, body: string)
    requires '=' !in key && '=' !in body
    ensures KeyPrefix + key + "=\"" + body + "\"" == (KeyPrefix + key) + ['='] + ("\"" + body + "\"")
    ensures '=' !in KeyPrefix + key && '=' !in "\"" + body + "\""
  {
  }

  /** A line `lhs=rhs` with one `=` writes the key of `lhs` and the quote read from the data of `rhs`. */
  lemma {:induction false} LineEntryOfParts(lhs: string, rhs: string)
    requires '=' !in lhs && '=' !in rhs && |DataOf(rhs)| > 0
    ensures LineEntry(lhs + ['='] + rhs) == Some((KeyOf(lhs), QuoteOf(LayoutOf(KeyOf(lhs)), Split(DataOf(rhs), ','))))
  {
    var line := lhs + ['='] + rhs;
    assert line[|lhs|] == '=';
    SplitAroundSep(lhs, '=', rhs);
    LineEntryOf(line, [lhs, rhs], KeyOf(lhs), DataOf(rhs));
  }


  lemma {:induction false} SplitAroundSep(a: string, sep: char, b: string)
    requires sep !in a && sep !in b
    ensures Split(a + [sep] + b, sep) == [a, b]
  {
    SplitAfterPiece(a, sep, b);
    SplitNoSep(b, sep);
  }

  lemma {:induction false} KeyOfPrefixed(key: string)
    requires |key| > 0 && !IsWhitespace(key[0]) && !IsWhitespace(key[|key| - 1])
    ensures KeyOf(KeyPrefix + key) == key
  {
    var lhs := KeyPrefix + key;
    assert lhs[0] == 'v' && lhs[|lhs| - 1] == key[|key| - 1];
    TrimNoop(lhs);
    assert lhs[..|KeyPrefix|] == KeyPrefix;
    assert lhs[|KeyPrefix|..] == key;
    TrimNoop(key);
  }

  lemma {:induction false} DataOfQuoted(body: string)
    ensures DataOf("\"" + body + "\"") == body
  {
    var rhs := "\"" + body + "\"";
    assert rhs[0] == '"' && rhs[|rhs| - 1] == '"';
    TrimNoop(rhs);
    assert rhs == ['"'] + body + ['"'];
  }

  /** Joining pieces without `c` gives a string without `c`, when `c` is not the separator. */
  lemma {:induction false} JoinHasNo(parts: seq<string>, sep: char, c: char)
    requires c != sep
    requires forall i :: 0 <= i < |parts| ==> c !in parts[i]
    ensures c !in Join(parts, sep)
  {
    if |parts| > 1 {
      JoinHasNo(parts[1..], sep, c);
    }
  }

  /**
   * The vendor ends each line with `";`. Such a line does not END with a
   * quote, so `removeSurrounding` leaves both quotes in place and the
   * fields are split from the quoted text itself.
   */
  lemma {:induction false} SemicolonLineKeepsQuotes(key: string, body: string)
    requires |key| > 0 && !IsWhitespace(key[0]) && !IsWhitespace(key[|key| - 1])
    requires '=' !in key && '=' !in body
    ensures LineEntry(KeyPrefix + key + "=\"" + body + "\";") ==
      Some((key, QuoteOf(LayoutOf(key), Split("\"" + body + "\";", ','))))
  {
    SemicolonLineShape(key, body);
    KeyOfPrefixed(key);
    DataOfSemicolon(body);
    LineEntryOfParts(KeyPrefix + key, "\"" + body + "\";");
  }

  lemma {:induction false} SemicolonLineShape(key: string, body: string)
    requires '=' !in key && '=' !in body
    ensures KeyPrefix + key + "=\"" + body + "\";" == (KeyPrefix + key) + ['='] + ("\"" + body + "\";")
    ensures '=' !in KeyPrefix + key && '=' !in "\"" + body + "\";"
  {
  }

  lemma {:induction false} DataOfSemicolon(body: string)
    ensures DataOf("\"" + body + "\";") == "\"" + body + "\";"
  {
    var rhs := "\"" + body + "\";";
    assert rhs[0] == '"' && rhs[|rhs| - 1] == ';';
    TrimNoop(rhs);
  }

  /**
   * On such a line the quote characters stick to the first and last
   * fields: every field is read, the first one with `"` in front.
   */
  lemma {:induction false} SemicolonLineFields(data: seq<string>)
    requires |data| >= 2
    requires forall i :: 0 <= i < |data| ==> ',' !in data[i]
    ensures var f := Split("\"" + Join(data, ',') + "\";", ',');
      |f| == |data| && f[0] == "\"" + data[0] && f[1..|f| - 1] == data[1..|data| - 1]
  {
    var b := QuotedFields(data);
    JoinQuotedFields(data);
    SplitJoin(b, ',');
  }

  /** The fields with `"` stuck to the first and `";` to the last. */
  function QuotedFields(data: seq<string>): (b: seq<string>)
    requires |data| >= 2
    ensures |b| == |data| && b[0] == "\"" + data[0] && b[1..|b| - 1] == data[1..|data| - 1]
    ensures (forall i :: 0 <= i < |data| ==> ',' !in data[i]) ==> forall i :: 0 <= i < |b| ==> ',' !in b[i]
  {
    var a := data[0 := "\"" + data[0]];
    a[|a| - 1 := a[|a| - 1] + "\";"]
  }

  lemma {:induction false} JoinQuotedFields(data: seq<string>)
    requires |data| >= 2
    ensures Join(QuotedFields(data), ',') == "\"" + Join(data, ',') + "\";"
  {
    var a := data[0 := "\"" + data[0]];
    JoinPrependFirst(data, ',', "\"");
    JoinAppendLast(a, ',', "\";");
  }

  /**
   * On such a line a mainland quote's name keeps the opening quote: the
   * first field read is `"` followed by the security's name.
   */
  lemma {:induction false} SemicolonLineMainlandName(key: string, data: seq<string>)
    requires |key| > 0 && !IsWhitespace(key[0]) && !IsWhitespace(key[|key| - 1])
    requires '=' !in key && LayoutOf(key) == AShare
    requires |data| >= 4
    requires forall i :: 0 <= i < |data| ==> ',' !in data[i] && '=' !in data[i]
    ensures var e := LineEntry(KeyPrefix + key + "=\"" + Join(data, ',') + "\";");
      e.Some? && e.value.0 == key && e.value.1.name == "\"" + data[0]
  {
    var body := Join(data, ',');
    JoinHasNo(data, ',', '=');
    SemicolonLineKeepsQuotes(key, body);
    SemicolonLineFields(data);
    var f := Split("\"" + body + "\";", ',');
    var e := LineEntry(KeyPrefix + key + "=\"" + body + "\";");
    assert e == Some((key, QuoteOf(AShare, f)));
    assert |f| >= 4 && f[0] == "\"" + data[0];
  }

  /** The layout of a key that starts with `p`, for each prefix the symbols use. */
  lemma {:induction false} PrefixLayout(p: string, rest: string)
    requires p in {HongKongPrefix, OverseasPrefix, "sh", "sz"}
    ensures LayoutOf(p + rest) == (if p == HongKongPrefix then HongKong else if p == OverseasPrefix then Overseas else AShare)
  {
    var key := p + rest;
    assert key[..|p|] == p;
    assert key[0] == p[0];
  }

  /** The prefix a symbol starts with selects the layout the feed uses for it. */
  lemma {:induction false} LayoutOfSymbols(code: string)
    ensures LayoutOf(HongKongSymbol(code)) == HongKong
    ensures LayoutOf(OverseasSymbol(code)) == Overseas
    ensures LayoutOf("sh" + code) == AShare && LayoutOf("sz" + code) == AShare
  {
    var hk := HongKongSymbol(code);
    assert hk == HongKongPrefix + PadStart(code, 5, '0');
    PrefixLayout(HongKongPrefix, PadStart(code, 5, '0'));
    var gb := OverseasSymbol(code);
    assert gb == OverseasPrefix + ToLower(code);
    PrefixLayout(OverseasPrefix, ToLower(code));
    PrefixLayout("sh", code);
    PrefixLayout("sz", code);
  }
}
