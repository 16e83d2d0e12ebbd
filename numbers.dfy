/**
 * Number parsing and rounding as the client uses them: Kotlin's
 * `toDoubleOrNull` and `toIntOrNull`, and `BigDecimal` division to four
 * decimal places with `RoundingMode.HALF_UP`. `Double` values are modelled
 * as exact reals.
 */
module Numbers {
  import opened Optional
  import opened Strings

  predicate IsDigit(c: char) { '0' <= c <= '9' }

  predicate AllDigits(s: string) { forall i | 0 <= i < |s| :: IsDigit(s[i]) }

  /** The value of a string of decimal digits, most significant first. */
  function DigitsValue(s: string): nat
    requires AllDigits(s)
  {
    if |s| == 0 then 0 else DigitsValue(s[..|s| - 1]) * 10 + (s[|s| - 1] as int - '0' as int)
  }

  function Pow10(n: nat): (p: nat)
    ensures p >= 1
  {
    if n == 0 then 1 else 10 * Pow10(n - 1)
  }

  /** The decimal digits of `n`, without leading zeros (`"0"` for zero). */
  function NatToDigits(n: nat): (s: string)
    ensures |s| > 0 && AllDigits(s)
  {
    if n < 10 then [('0' as int + n) as char]
    else NatToDigits(n / 10) + [('0' as int + n % 10) as char]
  }

  /** Reading back the digits of `n` gives `n`. */
  lemma {:induction false} DigitsRoundTrip(n: nat)
    ensures DigitsValue(NatToDigits(n)) == n
  {
    var s := NatToDigits(n);
    if n >= 10 {
      DigitsRoundTrip(n / 10);
      assert s[..|s| - 1] == NatToDigits(n / 10);
    }
  }

  /** Java's `String.trim()`: characters up to U+0020 removed at both ends. */
  function TrimControl(s: string): (r: string)
    decreases |s|
    ensures r == [] || (r[0] > ' ' && r[|r| - 1] > ' ')
  {
    if |s| > 0 && s[0] <= ' ' then TrimControl(s[1..])
    else if |s| > 0 && s[|s| - 1] <= ' ' then TrimControl(s[..|s| - 1])
    else s
  }

  /**
   * A mantissa `ddd`, `ddd.`, `ddd.ddd` or `.ddd` (at least one digit) and
   * its value.
   */
  function MantissaValue(m: string): Option<real>
  {
    match IndexOfChar(m, '.', 0)
    case None =>
      if |m| > 0 && AllDigits(m) then Some(DigitsValue(m) as real) else None
    case Some(p) =>
      var whole, frac := m[..p], m[p + 1..];
      if |whole| + |frac| > 0 && AllDigits(whole) && AllDigits(frac)
      then Some(DigitsValue(whole) as real + DigitsValue(frac) as real / Pow10(|frac|) as real)
      else None
  }

  /** A signed exponent `[+-]?ddd` and its value. */
  function ExponentValue(e: string): Option<int>
  {
    if |e| > 0 && (e[0] == '+' || e[0] == '-') then
      var d := e[1..];
      if |d| > 0 && AllDigits(d) then Some(if e[0] == '-' then -(DigitsValue(d) as int) else DigitsValue(d))
      else None
    else if |e| > 0 && AllDigits(e) then Some(DigitsValue(e))
    else None
  }

  /** `x` times ten to the power `e`. */
  function Scale10(x: real, e: int): real
  {
    if e >= 0 then x * Pow10(e) as real else x / Pow10(-e) as real
  }

  /** An unsigned decimal literal: mantissa, optional exponent, optional type suffix. */
  function UnsignedValue(u: string): Option<real>
  {
    var n := if |u| > 0 && u[|u| - 1] in "fFdD" then u[..|u| - 1] else u;
    match IndexOfChar(ReplaceChar(n, 'E', 'e'), 'e', 0)
    case None => MantissaValue(n)
    case Some(p) =>
      match (MantissaValue(n[..p]), ExponentValue(n[p + 1..]))
      case (Some(m), Some(e)) => Some(Scale10(m, e))
      case _ => None
  }

  /**
   * Kotlin's `String.toDoubleOrNull()`: the text, with characters up to
   * U+0020 ignored at both ends, must be an optionally signed decimal
   * literal; anything else gives `None`.
   */
  function ToDoubleOrNull(s: string): Option<real>
  {
    var t := TrimControl(s);
    if |t| > 0 && (t[0] == '+' || t[0] == '-') then
      match UnsignedValue(t[1..])
      case None => None
      case Some(v) => Some(if t[0] == '-' then -v else v)
    else UnsignedValue(t)
  }

  /** `x.toDoubleOrNull() ?: 0.0`. */
  function DoubleOrZero(s: string): real
  {
    ToDoubleOrNull(s).GetOr(0.0)
  }

  lemma {:induction false} TrimControlTrailingBlank(s: string)
    ensures TrimControl(s + " ") == TrimControl(s)
    decreases |s|
  {
    if |s| > 0 && s[0] <= ' ' {
      assert (s + " ")[1..] == s[1..] + " ";
      TrimControlTrailingBlank(s[1..]);
    } else {
      assert (s + " ")[..|s|] == s;
    }
  }

  /** `r` is `s` without its first `a` and its last few characters, all of them up to U+0020. */
  predicate TrimmedAt(s: string, r: string, a: nat)
  {
    a + |r| <= |s| && r == s[a..a + |r|] &&
    (forall i :: 0 <= i < a ==> s[i] <= ' ') &&
    (forall i :: a + |r| <= i < |s| ==> s[i] <= ' ')
  }

  /**
   * Only the ends go: the trimmed text is the stretch of `s` between a
   * prefix and a suffix made of characters up to U+0020.
   */
  lemma {:induction false} TrimControlIsSlice(s: string)
    decreases |s|
    ensures exists a: nat :: TrimmedAt(s, TrimControl(s), a)
  {
    var r := TrimControl(s);
    if |s| > 0 && s[0] <= ' ' {
      TrimControlIsSlice(s[1..]);
      var a: nat :| TrimmedAt(s[1..], r, a);
      TrimmedAtDropFirst(s, r, a);
    } else if |s| > 0 && s[|s| - 1] <= ' ' {
      TrimControlIsSlice(s[..|s| - 1]);
      var a: nat :| TrimmedAt(s[..|s| - 1], r, a);
      TrimmedAtDropLast(s, r, a);
    } else {
      assert TrimmedAt(s, r, 0);
    }
  }

  /** A slice of `s` without its blank first character is a slice of `s`, one further on. */
  lemma {:induction false} TrimmedAtDropFirst(s: string, r: string, a: nat)
    requires |s| > 0 && s[0] <= ' ' && TrimmedAt(s[1..], r, a)
    ensures TrimmedAt(s, r, a + 1)
  {
    var tail := s[1..];
    assert r == s[a + 1..a + 1 + |r|];
    assert forall i :: 0 < i < |s| ==> s[i] == tail[i - 1];
  }

  /** A slice of `s` without its blank last character is a slice of `s` too. */
  lemma {:induction false} TrimmedAtDropLast(s: string, r: string, a: nat)
    requires |s| > 0 && s[|s| - 1] <= ' ' && TrimmedAt(s[..|s| - 1], r, a)
    ensures TrimmedAt(s, r, a)
  {
    var init := s[..|s| - 1];
    assert r == s[a..a + |r|];
    assert forall i :: 0 <= i < |init| ==> s[i] == init[i];
  }

  lemma {:induction false} TrimControlLeadingBlank(s: string)
    ensures TrimControl(" " + s) == TrimControl(s)
  {
    assert (" " + s)[1..] == s;
  }

  /** A leading blank does not change the parse either. */
  lemma {:induction false} LeadingBlankIgnored(s: string)
    ensures ToDoubleOrNull(" " + s) == ToDoubleOrNull(s)
  {
    TrimControlLeadingBlank(s);
  }

  /** A trailing blank (what a cleaned `%` sign becomes) does not change the parse. */
  lemma {:induction false} TrailingBlankIgnored(s: string)
    ensures ToDoubleOrNull(s + " ") == ToDoubleOrNull(s)
  {
    TrimControlTrailingBlank(s);
  }

  lemma {:induction false} MantissaOfDigits(d: string)
    requires |d| > 0 && AllDigits(d)
    ensures MantissaValue(d) == Some(DigitsValue(d) as real)
  {
    assert forall i :: 0 <= i < |d| ==> d[i] != '.';
  }

  lemma {:induction false} UnsignedOfDigits(d: string)
    requires |d| > 0 && AllDigits(d)
    ensures UnsignedValue(d) == Some(DigitsValue(d) as real)
  {
    assert !(d[|d| - 1] in "fFdD");
    var n' := ReplaceChar(d, 'E', 'e');
    assert forall i :: 0 <= i < |n'| ==> n'[i] != 'e';
    MantissaOfDigits(d);
  }

  /** A plain run of digits parses as the number it spells. */
  lemma {:induction false} ParsesDigits(d: string)
    requires |d| > 0 && AllDigits(d)
    ensures ToDoubleOrNull(d) == Some(DigitsValue(d) as real)
  {
    assert TrimControl(d) == d;
    UnsignedOfDigits(d);
  }

  /** Round trip: the decimal rendering of a natural number parses back to it. */
  lemma {:induction false} ParsesNatural(n: nat)
    ensures ToDoubleOrNull(NatToDigits(n)) == Some(n as real)
  {
    ParsesDigits(NatToDigits(n));
    DigitsRoundTrip(n);
  }

  /**
   * Two digit groups separated by a blank (what a cleaned thousands
   * separator becomes) are not a number.
   */
  lemma {:induction false} InnerBlankRejected(a: string, b: string)
    requires |a| > 0 && AllDigits(a) && |b| > 0 && AllDigits(b)
    ensures ToDoubleOrNull(a + " " + b) == None
  {
    var s := a + " " + b;
    assert s[|a|] == ' ';
    assert forall k :: 0 <= k < |s| ==> s[k] == ' ' || IsDigit(s[k]) by {
      forall k | 0 <= k < |s| ensures s[k] == ' ' || IsDigit(s[k]) {
        if k < |a| { assert s[k] == a[k]; }
        else if k > |a| { assert s[k] == b[k - |a| - 1]; }
      }
    }
    assert TrimControl(s) == s && IsDigit(s[0]) && IsDigit(s[|s| - 1]) by {
      assert s[0] == a[0] && s[|s| - 1] == b[|b| - 1];
    }
    SpacedDigitsRejected(s, |a|);
  }

  /** Digits with a blank among them are not an unsigned literal. */
  lemma {:induction false} SpacedDigitsRejected(s: string, j: nat)
    requires j < |s| && s[j] == ' ' && IsDigit(s[|s| - 1])
    requires forall k :: 0 <= k < |s| ==> s[k] == ' ' || IsDigit(s[k])
    ensures UnsignedValue(s) == None
  {
    assert !(s[|s| - 1] in "fFdD");
    assert IndexOfChar(ReplaceChar(s, 'E', 'e'), 'e', 0) == None by {
      var n' := ReplaceChar(s, 'E', 'e');
      assert forall i :: 0 <= i < |n'| ==> n'[i] != 'e';
    }
    assert IndexOfChar(s, '.', 0) == None by {
      assert forall i :: 0 <= i < |s| ==> s[i] != '.';
    }
    assert !AllDigits(s) by {
      assert !IsDigit(s[j]);
    }
  }

  /** Neither an empty cell nor the `--` placeholder reads as a number. */
  lemma {:induction false} PlaceholdersAreNotNumbers()
    ensures ToDoubleOrNull("") == None && ToDoubleOrNull("--") == None
  {
    assert TrimControl("--") == "--";
    assert IndexOfChar(ReplaceChar("-", 'E', 'e'), 'e', 0) == None;
    assert IndexOfChar("-", '.', 0) == None;
  }

  const IntMin: int := -0x8000_0000
  const IntMax: int := 0x7FFF_FFFF

  /**
   * Kotlin's `String.toIntOrNull()`: an optional sign and at least one
   * digit, whose value fits in a 32-bit `Int`.
   */
  function ToIntOrNull(s: string): (r: Option<int>)
    ensures r.Some? ==> IntMin <= r.value <= IntMax
    ensures r.Some? ==> |s| > 0 && (IsDigit(s[0]) || s[0] == '+' || s[0] == '-')
  {
    if |s| == 0 then None
    else
      var digits := if s[0] == '-' || s[0] == '+' then s[1..] else s;
      if |digits| == 0 || !AllDigits(digits) then None
      else
        var v := if s[0] == '-' then -(DigitsValue(digits) as int) else DigitsValue(digits);
        if IntMin <= v <= IntMax then Some(v) else None
  }

  /** Round trip: the decimal rendering of any `Int`-sized natural number parses back to it. */
  lemma {:induction false} IntRoundTrip(n: nat)
    requires n <= IntMax
    ensures ToIntOrNull(NatToDigits(n)) == Some(n)
  {
    DigitsRoundTrip(n);
  }

  /** Values beyond the 32-bit range are rejected, as Kotlin rejects them. */
  lemma {:induction false} IntOverflowRejected(n: nat)
    requires n > IntMax
    ensures ToIntOrNull(NatToDigits(n)) == None
  {
    DigitsRoundTrip(n);
  }

  /** `r` is a whole number of ten-thousandths. */
  predicate OnGrid(r: real)
  {
    (r * 10000.0).Floor as real == r * 10000.0
  }

  /** `n` ten-thousandths. */
  function TenThousandths(n: int): (r: real)
    ensures OnGrid(r) && r * 10000.0 == n as real
  {
    n as real / 10000.0
  }

  /**
   * `BigDecimal.divide(d, 4, RoundingMode.HALF_UP)` applied to the exact
   * quotient `x`: the multiple of 1/10000 nearest to `x`, a tie going away
   * from zero.
   */
  function RoundHalfUp4(x: real): (r: real)
    ensures OnGrid(r)
    ensures -0.00005 <= r - x <= 0.00005
  {
    if x >= 0.0 then TenThousandths((x * 10000.0 + 0.5).Floor)
    else TenThousandths(-((-x) * 10000.0 + 0.5).Floor)
  }

  /** No multiple of 1/10000 is closer to `x` than its rounding. */
  lemma {:induction false} RoundIsNearest(x: real, k: int)
    ensures var r := RoundHalfUp4(x); var g := k as real / 10000.0;
      (if r >= x then r - x else x - r) <= (if g >= x then g - x else x - g)
  {
    var y := if x >= 0.0 then x * 10000.0 else -x * 10000.0;
    var n := (y + 0.5).Floor;
    assert y - 0.5 < n as real <= y + 0.5;
    var kk := if x >= 0.0 then k else -k;
    if kk >= n + 1 {
      assert kk as real - y >= 0.5;
    } else if kk <= n - 1 {
      assert y - kk as real >= 0.5;
    }
  }

  /** Exact ties round away from zero (`HALF_UP`). */
  lemma {:induction false} RoundTiesAwayFromZero(n: nat)
    ensures RoundHalfUp4((n as real + 0.5) / 10000.0) == (n + 1) as real / 10000.0
    ensures RoundHalfUp4(-(n as real + 0.5) / 10000.0) == -((n + 1) as real) / 10000.0
  {
    var x := (n as real + 0.5) / 10000.0;
    var m := (n + 1) as real / 10000.0;
    assert (x * 10000.0 + 0.5).Floor == n + 1 by {
      assert x * 10000.0 + 0.5 == (n + 1) as real;
    }
    assert RoundHalfUp4(x) == m by {
      assert x >= 0.0;
    }
    assert RoundHalfUp4(-x) == -m by {
      assert -x < 0.0 && -(-x) == x;
      assert TenThousandths(-(n + 1)) == -m;
    }
    assert -(n as real + 0.5) / 10000.0 == -x;
  }

  /** Values already on the grid are left alone. */
  lemma {:induction false} RoundKeepsGrid(k: int)
    ensures RoundHalfUp4(k as real / 10000.0) == k as real / 10000.0
  {
    var x := k as real / 10000.0;
    if k >= 0 {
      assert (x * 10000.0 + 0.5).Floor == k;
    } else {
      assert ((-x) * 10000.0 + 0.5).Floor == -k;
    }
  }

  /** Rounding never reverses the order of two values. */
  lemma {:induction false} RoundMonotone(x: real, y: real)
    requires x <= y
    ensures RoundHalfUp4(x) <= RoundHalfUp4(y)
  {
    if x >= 0.0 {
      assert (x * 10000.0 + 0.5).Floor <= (y * 10000.0 + 0.5).Floor;
    } else if y < 0.0 {
      assert ((-y) * 10000.0 + 0.5).Floor <= ((-x) * 10000.0 + 0.5).Floor;
    }
  }
}
