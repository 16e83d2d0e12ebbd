/**
 * The regular expressions the holdings extractor applies to the page, each
 * written as the left-to-right scan it performs. A lazy group `(.*?)` ends at
 * the first closing delimiter after the opening one, and `findAll` resumes
 * right after the previous match. `.` is taken to match every character.
 */
module HtmlScan {
  import opened Optional
  import opened Strings
  import opened Numbers

  /**
   * Bounds `(a, b)` of the group of the first match of `open(.*?)close` in
   * `s`: the first `open`, then the first `close` after it.
   */
  function FindCapture(s: string, open: string, close: string): (r: Option<(nat, nat)>)
    requires |open| > 0 && |close| > 0
    ensures r.Some? ==>
      |open| <= r.value.0 <= r.value.1 && r.value.1 + |close| <= |s|
  {
    match IndexOf(s, open, 0)
    case None => None
    case Some(p) =>
      match IndexOf(s, close, p + |open|)
      case None => None
      case Some(q) => Some((p + |open|, q))
  }

  /** The match is the first: no `open` before it, and no `close` inside its group. */
  lemma {:induction false} FindCaptureIsFirst(s: string, open: string, close: string, a: nat, b: nat)
    requires |open| > 0 && |close| > 0 && FindCapture(s, open, close) == Some((a, b))
    ensures forall p :: 0 <= p < a - |open| ==> !OccursAt(s, open, p)
    ensures forall i :: a <= i < b ==> !OccursAt(s, close, i)
  {
    IndexOfIsFirst(s, open, 0);
    IndexOfIsFirst(s, close, a);
  }

  /** The match's delimiters occur where the search found them. */
  lemma {:induction false} FindCaptureOccurs(s: string, open: string, close: string, a: nat, b: nat)
    requires |open| > 0 && |close| > 0 && FindCapture(s, open, close) == Some((a, b))
    ensures OccursAt(s, open, a - |open|) && OccursAt(s, close, b)
  {
    IndexOfOccurs(s, open, 0);
    IndexOfOccurs(s, close, a);
  }

  /** No match: no `close` follows any `open`. */
  lemma {:induction false} NoMatchMeansNoCloseAfterOpen(s: string, open: string, close: string)
    requires |open| > 0 && |close| > 0 && FirstCapture(s, open, close).None?
    ensures forall p, q :: p + |open| <= q && OccursAt(s, open, p) ==> !OccursAt(s, close, q)
  {
    assert FindCapture(s, open, close).None?;
    IndexOfIsFirst(s, open, 0);
    var r := IndexOf(s, open, 0);
    if r.Some? {
      IndexOfIsFirst(s, close, r.value + |open|);
    }
  }

  /** A group that stops at the first `close` after `a` holds no `close`. */
  lemma {:induction false} NoCloseInGroup(s: string, close: string, a: nat, b: nat)
    requires |close| > 0 && a <= b <= |s|
    requires forall i :: a <= i < b ==> !OccursAt(s, close, i)
    ensures !Contains(s[a..b], close)
  {
    forall j | 0 <= j ensures !OccursAt(s[a..b], close, j) {
      if j + |close| <= b - a {
        SliceOfSlice(s, a, b, j, |close|);
        assert !OccursAt(s, close, a + j);
      }
    }
    ContainsIff(s[a..b], close);
  }

  /** The group of the first match of `open(.*?)close`: `Regex.find(s)?.groupValues?.get(1)`. */
  function FirstCapture(s: string, open: string, close: string): (r: Option<string>)
    requires |open| > 0 && |close| > 0
    ensures r.Some? ==> !Contains(r.value, close) && Contains(s, open + r.value + close)
  {
    match FindCapture(s, open, close)
    case None => None
    case Some((a, b)) =>
      GroupFacts(s, open, close, a, b);
      Some(s[a..b])
  }

  /** The group of a match holds no `close`, and the match itself occurs in `s`. */
  lemma {:induction false} GroupFacts(s: string, open: string, close: string, a: nat, b: nat)
    requires |open| > 0 && |close| > 0 && FindCapture(s, open, close) == Some((a, b))
    ensures a <= b && b + |close| <= |s|
    ensures !Contains(s[a..b], close) && Contains(s, open + s[a..b] + close)
  {
    FindCaptureIsFirst(s, open, close, a, b);
    FindCaptureOccurs(s, open, close, a, b);
    NoCloseInGroup(s, close, a, b);
    OccursConcat(s, a - |open|, open, s[a..b]);
    OccursConcat(s, a - |open|, open + s[a..b], close);
    assert OccursAt(s, open + s[a..b] + close, a - |open|);
    ContainsIff(s, open + s[a..b] + close);
  }

  /** The first match, from where its delimiters were found. */
  lemma {:induction false} FindCaptureAt(s: string, open: string, close: string, p: nat, q: nat)
    requires |open| > 0 && |close| > 0
    requires IndexOf(s, open, 0) == Some(p) && IndexOf(s, close, p + |open|) == Some(q)
    ensures FindCapture(s, open, close) == Some((p + |open|, q))
  {
  }

  /** The match in `pre + open + v + close + post` spans exactly `v`. */
  lemma {:induction false} FindCaptureOfWrapped(pre: string, open: string, v: string, close: string, post: string)
    requires |open| > 0 && |close| > 0 && Unbordered(open) && Unbordered(close)
    requires !Contains(pre, open) && !Contains(v, close)
    ensures FindCapture(pre + open + v + close + post, open, close) == Some((|pre| + |open|, |pre| + |open| + |v|))
  {
    var s := pre + open + v + close + post;
    OpenOfWrapped(pre, open, v, close, post);
    CloseOfWrapped(pre, open, v, close, post);
    FindCaptureAt(s, open, close, |pre|, |pre| + |open| + |v|);
  }

  /** The first `open` in `pre + open + v + close + post` is the one after `pre`. */
  lemma {:induction false} OpenOfWrapped(pre: string, open: string, v: string, close: string, post: string)
    requires |open| > 0 && Unbordered(open) && !Contains(pre, open)
    ensures IndexOf(pre + open + v + close + post, open, 0) == Some(|pre|)
  {
    var s := pre + open + v + close + post;
    assert s[0..|pre|] == pre by {
      forall i | 0 <= i < |pre| ensures s[i] == pre[i] {
      }
      SliceFromIndices(s, 0, pre);
    }
    assert OccursAt(s, open, |pre|) by {
      forall i | 0 <= i < |open| ensures s[|pre| + i] == open[i] {
      }
      SliceFromIndices(s, |pre|, open);
    }
    FirstOccurrenceAt(s, open, 0, |pre|);
  }

  /** The first `close` after that `open` is the one right after `v`. */
  lemma {:induction false} CloseOfWrapped(pre: string, open: string, v: string, close: string, post: string)
    requires |close| > 0 && Unbordered(close) && !Contains(v, close)
    ensures IndexOf(pre + open + v + close + post, close, |pre| + |open|) == Some(|pre| + |open| + |v|)
  {
    var s := pre + open + v + close + post;
    var a := |pre| + |open|;
    var b := a + |v|;
    WrappedSlice(pre, open, v, close, post);
    forall i | 0 <= i < |close| ensures s[b + i] == close[i] {
    }
    SliceFromIndices(s, b, close);
    FirstOccurrenceAt(s, close, a, b);
  }

  /** `v` sits right after `pre + open`. */
  lemma {:induction false} WrappedSlice(pre: string, open: string, v: string, close: string, post: string)
    ensures var s := pre + open + v + close + post;
      |pre| + |open| + |v| <= |s| && s[|pre| + |open|..|pre| + |open| + |v|] == v
  {
    var s := pre + open + v + close + post;
    forall i | 0 <= i < |v| ensures s[|pre| + |open| + i] == v[i] {
    }
    SliceFromIndices(s, |pre| + |open|, v);
  }

  /**
   * Round trip: the group of the first match in `pre + open + v + close + post`
   * is `v`, when `pre` holds no `open`, `v` holds no `close` and neither
   * delimiter can overlap itself.
   */
  lemma {:induction false} FirstCaptureOfWrapped(pre: string, open: string, v: string, close: string, post: string)
    requires |open| > 0 && |close| > 0 && Unbordered(open) && Unbordered(close)
    requires !Contains(pre, open) && !Contains(v, close)
    ensures FirstCapture(pre + open + v + close + post, open, close) == Some(v)
  {
    var s := pre + open + v + close + post;
    var a := |pre| + |open|;
    FindCaptureOfWrapped(pre, open, v, close, post);
    FirstCaptureAt(s, open, close, a, a + |v|);
    WrappedSlice(pre, open, v, close, post);
  }

  /** The group of the first match, from its bounds. */
  lemma {:induction false} FirstCaptureAt(s: string, open: string, close: string, a: nat, b: nat)
    requires |open| > 0 && |close| > 0 && FindCapture(s, open, close) == Some((a, b))
    ensures b <= |s| && FirstCapture(s, open, close) == Some(s[a..b])
  {
  }

  /** The groups of every match of `open(.*?)close`, left to right: `Regex.findAll`. */
  function Captures(s: string, open: string, close: string): (r: seq<string>)
    requires |open| > 0 && |close| > 0
    decreases |s|
  {
    var m := FindCapture(s, open, close);
    if m.None? then [] else [s[m.value.0..m.value.1]] + Captures(s[m.value.1 + |close|..], open, close)
  }

  /** No group holds the closing delimiter: each stops at the first one. */
  lemma {:induction false} CapturesHaveNoClose(s: string, open: string, close: string)
    requires |open| > 0 && |close| > 0
    decreases |s|
    ensures forall k :: 0 <= k < |Captures(s, open, close)| ==> !Contains(Captures(s, open, close)[k], close)
  {
    match FindCapture(s, open, close)
    case None =>
    case Some((a, b)) =>
      GroupFacts(s, open, close, a, b);
      CapturesStep(s, open, close, a, b);
      CapturesHaveNoClose(s[b + |close|..], open, close);
      var r := Captures(s[b + |close|..], open, close);
      assert forall k :: 0 < k < |Captures(s, open, close)| ==> Captures(s, open, close)[k] == r[k - 1];
  }

  /** The pieces, each wrapped in `open` … `close`, one after another. */
  function Enclose(parts: seq<string>, open: string, close: string): string
  {
    if |parts| == 0 then "" else open + parts[0] + close + Enclose(parts[1..], open, close)
  }

  /**
   * Round trip: scanning wrapped pieces gives the pieces back, when none of
   * them holds the closing delimiter and that delimiter cannot overlap itself.
   */
  lemma {:induction false} CapturesOfEnclosed(parts: seq<string>, open: string, close: string)
    requires |open| > 0 && |close| > 0 && Unbordered(close)
    requires forall k :: 0 <= k < |parts| ==> !Contains(parts[k], close)
    ensures Captures(Enclose(parts, open, close), open, close) == parts
  {
    if |parts| > 0 {
      var rest := Enclose(parts[1..], open, close);
      EnclosedHead(parts[0], open, close, rest);
      CapturesOfEnclosed(parts[1..], open, close);
    }
  }

  /** The first piece of wrapped pieces is captured first, and the scan resumes on the rest. */
  lemma {:induction false} EnclosedHead(p: string, open: string, close: string, rest: string)
    requires |open| > 0 && |close| > 0 && Unbordered(close) && !Contains(p, close)
    ensures Captures(open + p + close + rest, open, close) == [p] + Captures(rest, open, close)
  {
    var s := open + p + close + rest;
    var b := |open| + |p|;
    FindCaptureOfEnclosed(p, open, close, rest);
    CapturesStep(s, open, close, |open|, b);
    assert s[|open|..b] == p;
    assert s[b + |close|..] == rest;
  }

  /** The first match in `open + p + close + rest` spans exactly `p`. */
  lemma {:induction false} FindCaptureOfEnclosed(p: string, open: string, close: string, rest: string)
    requires |open| > 0 && |close| > 0 && Unbordered(close) && !Contains(p, close)
    ensures FindCapture(open + p + close + rest, open, close) == Some((|open|, |open| + |p|))
  {
    var s := open + p + close + rest;
    assert s[..|open|] == open;
    assert IndexOf(s, open, 0) == Some(0);
    FirstOccurrenceAfterPiece(open, p, close, rest);
    FindCaptureAt(s, open, close, 0, |open| + |p|);
  }

  lemma {:induction false} CapturesStep(s: string, open: string, close: string, a: nat, b: nat)
    requires |open| > 0 && |close| > 0
    requires FindCapture(s, open, close) == Some((a, b))
    ensures Captures(s, open, close) == [s[a..b]] + Captures(s[b + |close|..], open, close)
  {
  }

  /** Bounds of the group of the first match of `<td.*?>(.*?)</td>`. */
  function FindCell(s: string): (r: Option<(nat, nat)>)
    ensures r.Some? ==>
      4 <= r.value.0 <= r.value.1 && r.value.1 + 5 <= |s| && s[r.value.0 - 1] == '>'
  {
    match IndexOf(s, "<td", 0)
    case None => None
    case Some(p) =>
      match IndexOfChar(s, '>', p + 3)
      case None => None
      case Some(q) =>
        match IndexOf(s, "</td>", q + 1)
        case None => None
        case Some(e) => Some((q + 1, e))
  }

  /** A cell stops at the first `</td>` after its opening tag. */
  lemma {:induction false} FindCellIsFirst(s: string, a: nat, b: nat)
    requires FindCell(s) == Some((a, b))
    ensures forall i :: a <= i < b ==> !OccursAt(s, "</td>", i)
  {
    IndexOfIsFirst(s, "</td>", a);
  }

  /** The contents of every `<td …>…</td>` cell of a row, in order. */
  function Cells(s: string): seq<string>
    decreases |s|
  {
    var m := FindCell(s);
    if m.None? then [] else [s[m.value.0..m.value.1]] + Cells(s[m.value.1 + 5..])
  }

  /** No cell holds the closing `</td>`: each stops at the first one. */
  lemma {:induction false} CellsHaveNoClose(s: string)
    decreases |s|
    ensures forall k :: 0 <= k < |Cells(s)| ==> !Contains(Cells(s)[k], "</td>")
  {
    match FindCell(s)
    case None =>
    case Some((a, b)) =>
      FindCellIsFirst(s, a, b);
      NoCloseInGroup(s, "</td>", a, b);
      CellsStep(s, a, b);
      CellsHaveNoClose(s[b + 5..]);
      var r := Cells(s[b + 5..]);
      assert forall k :: 0 < k < |Cells(s)| ==> Cells(s)[k] == r[k - 1];
  }

  lemma {:induction false} CellsStep(s: string, a: nat, b: nat)
    requires FindCell(s) == Some((a, b))
    ensures Cells(s) == [s[a..b]] + Cells(s[b + 5..])
  {
  }

  lemma {:induction false} CellCloseUnbordered()
    ensures Unbordered("</td>")
  {
    UniqueFirstUnbordered("</td>");
  }

  lemma {:induction false} FindCellOfEnclosed(c: string, rest: string)
    requires !Contains(c, "</td>")
    ensures FindCell("<td>" + c + "</td>" + rest) == Some((4, 4 + |c|))
  {
    var s := "<td>" + c + "</td>" + rest;
    CellOpenOfEnclosed(c, rest);
    CellCloseOfEnclosed(c, rest);
    FindCellAt(s, 0, 3, 4 + |c|);
  }

  lemma {:induction false} CellOpenOfEnclosed(c: string, rest: string)
    ensures var s := "<td>" + c + "</td>" + rest;
      IndexOf(s, "<td", 0) == Some(0) && IndexOfChar(s, '>', 3) == Some(3)
  {
    var s := "<td>" + c + "</td>" + rest;
    assert s[..3] == "<td";
  }

  lemma {:induction false} CellCloseOfEnclosed(c: string, rest: string)
    requires !Contains(c, "</td>")
    ensures IndexOf("<td>" + c + "</td>" + rest, "</td>", 4) == Some(4 + |c|)
  {
    var s := "<td>" + c + "</td>" + rest;
    var e := 4 + |c|;
    forall i | 0 <= i < |c| ensures s[4 + i] == c[i] {
    }
    forall i | 0 <= i < 5 ensures s[e + i] == "</td>"[i] {
    }
    CellCloseAfter(s, c, e);
  }

  /** The pieces of `<td>c</td>rest` the cell scan cuts out. */
  lemma {:induction false} EnclosedCellSlices(c: string, rest: string)
    ensures var s := "<td>" + c + "</td>" + rest;
      s[4..4 + |c|] == c && s[4 + |c| + 5..] == rest
  {
    var s := "<td>" + c + "</td>" + rest;
    forall i | 0 <= i < |c| ensures s[4 + i] == c[i] {
    }
    SliceFromIndices(s, 4, c);
    var w := s[4 + |c| + 5..];
    assert |w| == |rest|;
    forall i | 0 <= i < |rest| ensures w[i] == rest[i] {
    }
  }

  lemma {:induction false} CellCloseAfter(s: string, c: string, e: nat)
    requires !Contains(c, "</td>") && e == 4 + |c| && e + 5 <= |s|
    requires forall i :: 0 <= i < |c| ==> s[4 + i] == c[i]
    requires forall i :: 0 <= i < 5 ==> s[e + i] == "</td>"[i]
    ensures IndexOf(s, "</td>", 4) == Some(e)
  {
    SliceFromIndices(s, 4, c);
    SliceFromIndices(s, e, "</td>");
    CellCloseUnbordered();
    FirstOccurrenceAt(s, "</td>", 4, e);
  }

  /** The first cell, from where its delimiters were found. */
  lemma {:induction false} FindCellAt(s: string, p: nat, q: nat, e: nat)
    requires IndexOf(s, "<td", 0) == Some(p) && IndexOfChar(s, '>', p + 3) == Some(q)
    requires IndexOf(s, "</td>", q + 1) == Some(e)
    ensures FindCell(s) == Some((q + 1, e))
  {
  }

  /** Round trip: the cells of a row written as `<td>c</td>` … are the `c`s. */
  lemma {:induction false} CellsOfEnclosed(cells: seq<string>)
    requires forall k :: 0 <= k < |cells| ==> !Contains(cells[k], "</td>")
    ensures Cells(Enclose(cells, "<td>", "</td>")) == cells
  {
    if |cells| > 0 {
      var rest := Enclose(cells[1..], "<td>", "</td>");
      var s := "<td>" + cells[0] + "</td>" + rest;
      FindCellOfEnclosed(cells[0], rest);
      CellsStep(s, 4, 4 + |cells[0]|);
      EnclosedCellSlices(cells[0], rest);
      CellsOfEnclosed(cells[1..]);
    }
  }

  predicate IsAlnum(c: char) { ('a' <= c <= 'z') || ('A' <= c <= 'Z') || IsDigit(c) }

  predicate AllAlnum(s: string) { forall i | 0 <= i < |s| :: IsAlnum(s[i]) }

  /** The longest prefix of `s` made of digits (`\d+` is greedy). */
  function DigitRun(s: string): (r: string)
    ensures |r| <= |s| && r == s[..|r|] && AllDigits(r)
    ensures |r| == |s| || !IsDigit(s[|r|])
  {
    if |s| > 0 && IsDigit(s[0]) then [s[0]] + DigitRun(s[1..]) else ""
  }

  /** The longest prefix of `s` made of ASCII letters and digits. */
  function AlnumRun(s: string): (r: string)
    ensures |r| <= |s| && r == s[..|r|] && AllAlnum(r)
    ensures |r| == |s| || !IsAlnum(s[|r|])
  {
    if |s| > 0 && IsAlnum(s[0]) then [s[0]] + AlnumRun(s[1..]) else ""
  }

  /** A quote-page link found in a row: market id and security code. */
  datatype Link = Link(market: string, code: string)

  const LinkMarker: string := "unify/r/"

  lemma {:induction false} LinkOccurs(s: string, p: nat, m: string, c: string)
    requires OccursAt(s, LinkMarker, p)
    requires p + 8 + |m| + 1 + |c| <= |s|
    requires s[p + 8..p + 8 + |m|] == m && s[p + 8 + |m|] == '.'
    requires s[p + 9 + |m|..p + 9 + |m| + |c|] == c
    ensures Contains(s, LinkMarker + m + "." + c)
  {
    var w := LinkMarker + m + "." + c;
    assert s[p..p + |w|] == s[p..p + 8] + s[p + 8..p + 8 + |m|] + [s[p + 8 + |m|]] + s[p + 9 + |m|..p + |w|];
    assert OccursAt(s, w, p);
    ContainsIff(s, w);
  }

  /**
   * The first match of `unify/r/(\d+)\.([a-zA-Z0-9]+)`: at each occurrence of
   * the marker, a maximal digit run, a dot and a maximal alphanumeric run;
   * the scan moves on to the next occurrence when that fails.
   */
  function FindLink(s: string): (r: Option<Link>)
    ensures r.Some? ==>
      |r.value.market| > 0 && AllDigits(r.value.market) && |r.value.code| > 0 && AllAlnum(r.value.code)
  {
    FindLinkFrom(s, 0)
  }

  /** The scan for a link from position `from` of the row on. */
  function FindLinkFrom(s: string, from: nat): (r: Option<Link>)
    decreases |s| - from
    ensures r.Some? ==>
      |r.value.market| > 0 && AllDigits(r.value.market) && |r.value.code| > 0 && AllAlnum(r.value.code)
  {
    match IndexOf(s, LinkMarker, from)
    case None => None
    case Some(p) =>
      var l := LinkAfter(s, p);
      if l.Some? then l else FindLinkFrom(s, p + 1)
  }

  /** The link spelled out right after a marker at `p`, if there is one there. */
  function LinkAfter(s: string, p: nat): (r: Option<Link>)
    requires p + 8 <= |s|
    ensures r.Some? ==>
      |r.value.market| > 0 && AllDigits(r.value.market) && |r.value.code| > 0 && AllAlnum(r.value.code)
  {
    var rest := s[p + 8..];
    var m := DigitRun(rest);
    var c := if |m| < |rest| && rest[|m|] == '.' then AlnumRun(rest[|m| + 1..]) else "";
    if |m| > 0 && |c| > 0 then Some(Link(m, c)) else None
  }

  /** A link is found only where the row spells it out, after the marker. */
  lemma {:induction false} FindLinkOccurs(s: string, l: Link)
    requires FindLink(s) == Some(l)
    ensures Contains(s, LinkMarker + l.market + "." + l.code)
  {
    FindLinkFromOccurs(s, 0, l);
  }

  lemma {:induction false} FindLinkFromOccurs(s: string, from: nat, l: Link)
    requires FindLinkFrom(s, from) == Some(l)
    decreases |s| - from
    ensures Contains(s, LinkMarker + l.market + "." + l.code)
  {
    IndexOfOccurs(s, LinkMarker, from);
    var p := IndexOf(s, LinkMarker, from).value;
    if LinkAfter(s, p).Some? {
      assert LinkAfter(s, p) == Some(l);
      LinkAfterOccurs(s, p);
    } else {
      assert FindLinkFrom(s, p + 1) == Some(l);
      FindLinkFromOccurs(s, p + 1, l);
    }
  }

  /** The link after a marker at `p` is spelled out in `s` from `p` on. */
  lemma {:induction false} LinkAfterOccurs(s: string, p: nat)
    requires OccursAt(s, LinkMarker, p) && LinkAfter(s, p).Some?
    ensures var l := LinkAfter(s, p).value; Contains(s, LinkMarker + l.market + "." + l.code)
  {
    var rest := s[p + 8..];
    var m := DigitRun(rest);
    var c := AlnumRun(rest[|m| + 1..]);
    assert rest[..|m|] == s[p + 8..p + 8 + |m|];
    assert rest[|m| + 1..][..|c|] == s[p + 9 + |m|..p + 9 + |m| + |c|];
    LinkOccurs(s, p, m, c);
  }

  /**
   * The text after a marker spells a link: `n` digits, a dot, and a letter
   * or digit after it.
   */
  predicate LinkShape(rest: string, n: nat)
  {
    0 < n && n + 1 < |rest| && (forall i :: 0 <= i < n ==> IsDigit(rest[i])) && rest[n] == '.' && IsAlnum(rest[n + 1])
  }

  /**
   * Where the text after the marker at `p` spells a link, the link read there
   * is its digits and the whole letter-or-digit run after the dot.
   */
  lemma {:induction false} LinkAfterOfShape(s: string, p: nat, n: nat)
    requires p + 8 <= |s| && LinkShape(s[p + 8..], n)
    ensures LinkAfter(s, p) == Some(Link(s[p + 8..][..n], AlnumRun(s[p + 8..][n + 1..])))
  {
    var rest := s[p + 8..];
    DigitRunUpTo(rest, n);
    var c := AlnumRun(rest[n + 1..]);
    assert |c| > 0 by {
      assert rest[n + 1..][0] == rest[n + 1];
    }
  }

  /** The digit run of `t` stops at its first character that is not a digit. */
  lemma {:induction false} DigitRunUpTo(t: string, n: nat)
    requires n < |t| && (forall i :: 0 <= i < n ==> IsDigit(t[i])) && !IsDigit(t[n])
    ensures DigitRun(t) == t[..n]
  {
  }

  /** Conversely, the text after a marker where a link is read spells it in that shape. */
  lemma {:induction false} LinkAfterShape(s: string, p: nat)
    requires p + 8 <= |s| && LinkAfter(s, p).Some?
    ensures LinkShape(s[p + 8..], |LinkAfter(s, p).value.market|)
  {
    var rest := s[p + 8..];
    var m := DigitRun(rest);
    var c := AlnumRun(rest[|m| + 1..]);
    assert forall i :: 0 <= i < |m| ==> rest[i] == m[i];
    assert rest[|m| + 1] == rest[|m| + 1..][0] == c[0];
  }

  /** When the row has a marker at `p` past `from`, the scan's next marker lies at or before it. */
  lemma {:induction false} NextMarkerAtMost(s: string, from: nat, p: nat) returns (p0: nat)
    requires from <= p && OccursAt(s, LinkMarker, p)
    ensures IndexOf(s, LinkMarker, from) == Some(p0) && from <= p0 <= p && p0 + 8 <= |s|
    ensures OccursAt(s, LinkMarker, p0)
  {
    IndexOfIsFirst(s, LinkMarker, from);
    IndexOfOccurs(s, LinkMarker, from);
    p0 := IndexOf(s, LinkMarker, from).value;
  }

  /** Where a marker past `from` has a link after it, the scan from `from` finds a link. */
  lemma {:induction false} FindLinkFromFound(s: string, from: nat, p: nat)
    requires from <= p && OccursAt(s, LinkMarker, p) && LinkAfter(s, p).Some?
    decreases |s| - from
    ensures FindLinkFrom(s, from).Some?
  {
    var p0 := NextMarkerAtMost(s, from, p);
    if LinkAfter(s, p0).None? {
      assert p0 < p;
      FindLinkFromFound(s, p0 + 1, p);
      assert FindLinkFrom(s, from) == FindLinkFrom(s, p0 + 1);
    }
  }

  /** Where some marker in the row has a link after it, the search finds a link. */
  lemma {:induction false} FindLinkFound(s: string, p: nat)
    requires OccursAt(s, LinkMarker, p) && LinkAfter(s, p).Some?
    ensures FindLink(s).Some?
  {
    FindLinkFromFound(s, 0, p);
  }

  /**
   * Completeness: a row that spells `unify/r/<digits>.<letter or digit>`
   * somewhere has a link, so it takes the market-id branch.
   */
  lemma {:induction false} FindLinkComplete(s: string, p: nat, n: nat)
    requires OccursAt(s, LinkMarker, p) && p + 8 <= |s| && LinkShape(s[p + 8..], n)
    ensures FindLink(s).Some?
  {
    LinkAfterOfShape(s, p, n);
    FindLinkFound(s, p);
  }

  /**
   * The scan from `from` reports the link at the first marker past `from`
   * that has one after it.
   */
  lemma {:induction false} FindLinkFromLeftmost(s: string, from: nat, p: nat)
    requires from <= p && OccursAt(s, LinkMarker, p) && LinkAfter(s, p).Some?
    requires forall q :: from <= q < p && OccursAt(s, LinkMarker, q) ==> LinkAfter(s, q).None?
    decreases |s| - from
    ensures FindLinkFrom(s, from) == LinkAfter(s, p)
  {
    var p0 := NextMarkerAtMost(s, from, p);
    if p0 < p {
      FindLinkFromLeftmost(s, p0 + 1, p);
    }
  }

  /**
   * The search reports the leftmost match: the link at the first marker
   * that has one after it.
   */
  lemma {:induction false} FindLinkIsLeftmost(s: string, p: nat)
    requires OccursAt(s, LinkMarker, p) && LinkAfter(s, p).Some?
    requires forall q :: 0 <= q < p && OccursAt(s, LinkMarker, q) ==> LinkAfter(s, q).None?
    ensures FindLink(s) == LinkAfter(s, p)
  {
    FindLinkFromLeftmost(s, 0, p);
  }

  /** A row without the marker has no link. */
  lemma {:induction false} NoMarkerNoLink(s: string)
    requires !Contains(s, LinkMarker)
    ensures FindLink(s).None?
  {
  }
}
